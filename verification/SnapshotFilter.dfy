/**
 Which channels and messages a filtered snapshot publishes (internal/share/filter.go).

 Decoded permission metadata is the input: `overwrites` is None when a channel's JSON cannot be
 decoded or has no overwrites, and permission bits are None when they are not an integer.
 */
module SnapshotFilter {
  import opened Options

  type Id = string

  /** A 64-bit permission mask as the set of its bits. */
  type Bits = set<nat>

  datatype Role = Role(id: Id, permissions: Option<Bits>)
  datatype Overwrite = Overwrite(id: Id, isRole: bool, allow: Option<Bits>, deny: Option<Bits>)
  datatype Channel = Channel(
    guild: Id, parent: Id, threadParent: Id, kind: string, isPrivateThread: bool, overwrites: Option<seq<Overwrite>>,
    scope: string, deleted: bool)

  /** What is read from the database; `guilds` holds the roles of guilds whose JSON can be decoded. */
  datatype Source = Source(channels: map<Id, Channel>, guilds: map<Id, seq<Role>>, unavailable: set<Id>)

  const VIEW_CHANNEL: nat := 10

  // ---------------------------------------------------------------- permissions

  /** The permissions of the role that has the guild's own id. */
  function EveryonePermissions(roles: seq<Role>, guild: Id): Option<Bits> {
    if roles == [] then None
    else if roles[0].id == guild then roles[0].permissions
    else EveryonePermissions(roles[1..], guild)
  }

  predicate Concerns(o: Overwrite, guild: Id) {
    o.id == guild && o.isRole
  }

  function Overwritten(permissions: Bits, overwrites: seq<Overwrite>, guild: Id): Option<Bits>
    decreases |overwrites|
  {
    if overwrites == [] then Some(permissions)
    else
      var o := overwrites[0];
      if !Concerns(o, guild) then Overwritten(permissions, overwrites[1..], guild)
      else if o.allow.None? || o.deny.None? then None
      else Overwritten(permissions - o.deny.value + o.allow.value, overwrites[1..], guild)
  }

  function EveryoneOverwrite(permissions: Bits, overwrites: Option<seq<Overwrite>>, guild: Id): Option<Bits> {
    if overwrites.None? then None else Overwritten(permissions, overwrites.value, guild)
  }

  method ApplyEveryoneOverwrite(permissions: Bits, overwrites: Option<seq<Overwrite>>, guild: Id) returns (r: Option<Bits>)
    ensures r == EveryoneOverwrite(permissions, overwrites, guild)
  {
    if overwrites.None? {
      return None;
    }
    var list, bits := overwrites.value, permissions;
    for i := 0 to |list|
      invariant Overwritten(permissions, list, guild) == Overwritten(bits, list[i..], guild)
    {
      var o := list[i];
      if !Concerns(o, guild) {
        continue;
      }
      if o.allow.None? || o.deny.None? {
        return None;
      }
      bits := bits - o.deny.value + o.allow.value;
    }
    r := Some(bits);
  }

  predicate CanView(permissions: Bits) {
    VIEW_CHANNEL in permissions
  }

  /** The overwrite says something about viewing, and what it says. */
  predicate Decides(o: Overwrite, guild: Id, view: bool) {
    && Concerns(o, guild) && o.allow.Some? && o.deny.Some?
    && if view then CanView(o.allow.value) else !CanView(o.allow.value) && CanView(o.deny.value)
  }

  predicate NoDenial(overwrites: seq<Overwrite>, guild: Id) {
    forall j :: 0 <= j < |overwrites| ==> !Decides(overwrites[j], guild, false)
  }

  /** The k-th overwrite allows viewing and none after it denies it. */
  predicate AllowsLast(overwrites: seq<Overwrite>, guild: Id, k: nat) {
    k < |overwrites| && Decides(overwrites[k], guild, true) && NoDenial(overwrites[k + 1..], guild)
  }

  lemma AllowsLastShift(overwrites: seq<Overwrite>, guild: Id)
    requires overwrites != []
    ensures (exists k: nat :: AllowsLast(overwrites, guild, k)) <==>
      (Decides(overwrites[0], guild, true) && NoDenial(overwrites[1..], guild))
      || exists k: nat :: AllowsLast(overwrites[1..], guild, k)
  {
    var rest := overwrites[1..];
    if k: nat :| AllowsLast(rest, guild, k) {
      assert overwrites[k + 1 + 1..] == rest[k + 1..];
      assert AllowsLast(overwrites, guild, k + 1);
    }
    if k: nat :| AllowsLast(overwrites, guild, k) && k > 0 {
      assert overwrites[k + 1..] == rest[k..];
      assert AllowsLast(rest, guild, k - 1);
    }
    if Decides(overwrites[0], guild, true) && NoDenial(rest, guild) {
      assert AllowsLast(overwrites, guild, 0);
    }
  }

  /** Viewing is decided by the last overwrite that allows or denies it, else by the guild's permissions. */
  lemma {:induction false} LastOverwriteDecides(p: Bits, overwrites: seq<Overwrite>, guild: Id)
    requires Overwritten(p, overwrites, guild).Some?
    ensures CanView(Overwritten(p, overwrites, guild).value) <==>
      (exists k: nat :: AllowsLast(overwrites, guild, k)) || (CanView(p) && NoDenial(overwrites, guild))
    decreases |overwrites|
  {
    if overwrites != [] {
      var o, rest := overwrites[0], overwrites[1..];
      AllowsLastShift(overwrites, guild);
      assert NoDenial(overwrites, guild) <==> !Decides(o, guild, false) && NoDenial(rest, guild) by {
        assert overwrites == [o] + rest;
      }
      LastOverwriteDecides(if Concerns(o, guild) then p - o.deny.value + o.allow.value else p, rest, guild);
    }
  }

  // ---------------------------------------------------------------- the ancestor chain

  function ParentOf(ch: Channel): Id {
    if ch.threadParent != "" then ch.threadParent else ch.parent
  }

  datatype Obstacle = Fine | Unknown | Forbidden

  function ObstacleAt(src: Source, id: Id): Obstacle {
    if id !in src.channels || src.channels[id].scope == "unknown" || src.channels[id].scope == "" then Unknown
    else if src.channels[id].scope != "allowed" || src.channels[id].deleted || id in src.unavailable then Forbidden
    else Fine
  }

  /** The n-th ancestor, empty above the top of the chain. */
  function Ancestor(src: Source, id: Id, n: nat): Id {
    if n == 0 then id
    else
      var below := Ancestor(src, id, n - 1);
      if below != "" && below in src.channels then ParentOf(src.channels[below]) else ""
  }

  predicate FineAt(src: Source, id: Id, n: nat) {
    Ancestor(src, id, n) != "" && ObstacleAt(src, Ancestor(src, id, n)) == Fine
  }

  ghost predicate FineUpTo(src: Source, id: Id, n: nat) {
    forall k: nat :: k < n ==> FineAt(src, id, k)
  }

  /** The chain has n links, all of them fine. */
  ghost predicate Clear(src: Source, id: Id, n: nat) {
    FineUpTo(src, id, n) && Ancestor(src, id, n) == ""
  }

  /** The first link that is not fine. */
  ghost predicate StopsAt(src: Source, id: Id, n: nat, o: Obstacle) {
    FineUpTo(src, id, n) && Ancestor(src, id, n) != "" && ObstacleAt(src, Ancestor(src, id, n)) == o && o != Fine
  }

  datatype Walk = ClearPath | MissingPath | BlockedPath

  /** A chain that is neither clear nor blocked ends in an unknown channel or never ends. */
  ghost function WalkOf(src: Source, id: Id): Walk {
    if exists n: nat :: Clear(src, id, n) then ClearPath
    else if exists n: nat :: StopsAt(src, id, n, Forbidden) then BlockedPath
    else MissingPath
  }

  lemma StopsOnce(src: Source, id: Id, m: nat, n: nat)
    requires FineUpTo(src, id, m) && !FineAt(src, id, m) && FineUpTo(src, id, n) && !FineAt(src, id, n)
    ensures m == n
  {
  }

  lemma WalkIs(src: Source, id: Id, n: nat)
    requires FineUpTo(src, id, n) && !FineAt(src, id, n)
    ensures var a := Ancestor(src, id, n);
      WalkOf(src, id) == if a == "" then ClearPath else if ObstacleAt(src, a) == Forbidden then BlockedPath else MissingPath
  {
    forall m: nat | Clear(src, id, m) ensures m == n {
      StopsOnce(src, id, m, n);
    }
    forall m: nat | StopsAt(src, id, m, Forbidden) ensures m == n {
      StopsOnce(src, id, m, n);
    }
    var a := Ancestor(src, id, n);
    if a == "" {
      assert Clear(src, id, n);
    } else if ObstacleAt(src, a) == Forbidden {
      assert StopsAt(src, id, n, Forbidden);
    }
  }

  lemma {:induction false} Repeats(src: Source, id: Id, k: nat, n: nat, m: nat)
    requires k < n && Ancestor(src, id, n) == Ancestor(src, id, k)
    ensures Ancestor(src, id, n + m) == Ancestor(src, id, k + m)
  {
    if m > 0 {
      Repeats(src, id, k, n, m - 1);
    }
  }

  /** A chain that comes back to itself never ends. */
  lemma {:induction false} CycleIsFine(src: Source, id: Id, k: nat, n: nat, m: nat)
    requires k < n && FineUpTo(src, id, n) && Ancestor(src, id, n) == Ancestor(src, id, k)
    ensures FineAt(src, id, m)
    decreases m
  {
    if m >= n {
      Repeats(src, id, k, n, m - n);
      CycleIsFine(src, id, k, n, k + (m - n));
    }
  }

  lemma CycleIsMissing(src: Source, id: Id, k: nat, n: nat)
    requires k < n && FineUpTo(src, id, n) && Ancestor(src, id, n) == Ancestor(src, id, k)
    ensures WalkOf(src, id) == MissingPath
  {
    forall m: nat ensures !Clear(src, id, m) && !StopsAt(src, id, m, Forbidden) {
      CycleIsFine(src, id, k, n, m);
    }
  }

  lemma {:induction false} AncestorOfParent(src: Source, id: Id, n: nat)
    requires id != "" && id in src.channels
    ensures Ancestor(src, ParentOf(src.channels[id]), n) == Ancestor(src, id, n + 1)
  {
    if n > 0 {
      AncestorOfParent(src, id, n - 1);
    }
  }

  /** How many links a clear chain has. */
  ghost function Length(src: Source, id: Id): (r: nat)
    ensures WalkOf(src, id) == ClearPath ==> Clear(src, id, r)
  {
    if n: nat :| Clear(src, id, n) then n else 0
  }

  lemma ParentIsClear(src: Source, id: Id)
    requires id != "" && id in src.channels && WalkOf(src, id) == ClearPath
    ensures var p := ParentOf(src.channels[id]);
      WalkOf(src, p) == ClearPath && Length(src, id) == Length(src, p) + 1
  {
    var p, n := ParentOf(src.channels[id]), Length(src, id);
    assert n > 0;
    forall k: nat | k < n ensures k + 1 < n ==> FineAt(src, p, k) {
      AncestorOfParent(src, id, k);
      assert k + 1 < n ==> FineAt(src, id, k + 1);
    }
    AncestorOfParent(src, id, n - 1);
    assert Clear(src, p, n - 1);
    StopsOnce(src, p, n - 1, Length(src, p));
  }

  // ---------------------------------------------------------------- the memo-free verdict

  datatype Verdict = Verdict(allowed: bool, missing: bool)

  predicate IsThread(ch: Channel) {
    |ch.kind| >= 7 && ch.kind[..7] == "thread_"
  }

  predicate IsPrivate(ch: Channel) {
    ch.isPrivateThread || ch.kind == "thread_private"
  }

  function GuildPermissions(src: Source, guild: Id): Option<Bits> {
    if guild in src.guilds then EveryonePermissions(src.guilds[guild], guild) else None
  }

  /** A channel that is not a thread: the guild's permissions, then its category's overwrites, then its own. */
  function OwnVerdict(src: Source, ch: Channel): Verdict {
    var base := GuildPermissions(src, ch.guild);
    if base.None? then Verdict(false, true)
    else
      var inCategory := ch.parent in src.channels && src.channels[ch.parent].kind == "category";
      var above := if inCategory then EveryoneOverwrite(base.value, src.channels[ch.parent].overwrites, ch.guild) else base;
      if above.None? then Verdict(false, true)
      else
        var own := EveryoneOverwrite(above.value, ch.overwrites, ch.guild);
        Verdict(own.Some? && CanView(own.value), (ch.parent != "" && ch.parent !in src.channels) || own.None?)
  }

  /** Whether everyone may view a channel, and whether that could not be told for lack of metadata. */
  ghost function VerdictOf(src: Source, id: Id): Verdict
    requires id != ""
    decreases Length(src, id)
  {
    if id !in src.channels then Verdict(false, true)
    else if IsPrivate(src.channels[id]) then Verdict(false, false)
    else
      match WalkOf(src, id)
      case MissingPath => Verdict(false, true)
      case BlockedPath => Verdict(false, false)
      case ClearPath =>
        var ch := src.channels[id];
        if ch.guild == "" then Verdict(false, true)
        else if !IsThread(ch) then OwnVerdict(src, ch)
        else if ParentOf(ch) == "" then Verdict(false, true)
        else
          ParentIsClear(src, id);
          VerdictOf(src, ParentOf(ch))
  }

  method WalkUp(src: Source, id: Id) returns (w: Walk)
    ensures w == WalkOf(src, id)
  {
    var current, seen: set<Id> := id, {};
    ghost var n: nat := 0;
    while current != ""
      invariant current == Ancestor(src, id, n) && FineUpTo(src, id, n)
      invariant seen <= src.channels.Keys && forall a :: a in seen ==> exists k: nat :: k < n && Ancestor(src, id, k) == a
      decreases src.channels.Keys - seen
    {
      if current !in src.channels || current in seen
         || src.channels[current].scope == "unknown" || src.channels[current].scope == "" {
        if current in seen {
          ghost var k: nat :| k < n && Ancestor(src, id, k) == current;
          CycleIsMissing(src, id, k, n);
        } else {
          WalkIs(src, id, n);
        }
        return MissingPath;
      }
      var ancestor := src.channels[current];
      if ancestor.scope != "allowed" || ancestor.deleted || current in src.unavailable {
        WalkIs(src, id, n);
        return BlockedPath;
      }
      assert FineAt(src, id, n);
      seen := seen + {current};
      current := ParentOf(ancestor);
      n := n + 1;
    }
    WalkIs(src, id, n);
    w := ClearPath;
  }

  // ---------------------------------------------------------------- the filter

  datatype FilterOptions = FilterOptions(publicOnly: bool, included: set<Id>, excluded: set<Id>) {
    predicate Active() {
      publicOnly || included != {} || excluded != {}
    }
  }

  /** What the options select, without a memo. */
  ghost predicate Selected(src: Source, opts: FilterOptions, id: Id) {
    && id != "" && id in src.channels && id !in opts.excluded
    && var ch := src.channels[id]; var parent := ParentOf(ch);
       && (parent != "" ==> parent !in opts.excluded)
       && (opts.included != {} && id !in opts.included ==> IsThread(ch) && parent in opts.included)
       && (opts.publicOnly ==> VerdictOf(src, id).allowed)
  }

  datatype Message = Message(id: Id, guild: Id, channel: Id)

  const DIRECT_MESSAGES: Id := "@me"

  class Filter {
    const src: Source
    const opts: FilterOptions
    var publicMemo: map<Id, bool>
    var publicSeen: set<Id>
    var publicMissing: map<Id, bool>
    var allowedChannels: set<Id>
    var allowedMessageIds: set<Id>

    constructor (src: Source, opts: FilterOptions)
      ensures Valid() && this.src == src && this.opts == opts
      ensures publicSeen == {} && allowedChannels == {} && allowedMessageIds == {}
    {
      this.src, this.opts := src, opts;
      publicMemo, publicSeen, publicMissing, allowedChannels, allowedMessageIds := map[], {}, map[], {}, {};
    }

    /** The memo holds verdicts, and nothing is marked missing that is not in it. */
    ghost predicate Valid()
      reads this
    {
      && (forall id :: id in publicMemo ==> id != "" && VerdictOf(src, id) == Verdict(publicMemo[id], Missing(id)))
      && (forall id :: Missing(id) ==> id in publicMemo)
    }

    predicate Missing(id: Id)
      reads this
    {
      id in publicMissing && publicMissing[id]
    }

    /** Everything being evaluated lies further down the chain. */
    ghost predicate Descending(id: Id, seen: set<Id>) {
      seen != {} ==>
        WalkOf(src, id) == ClearPath
        && forall s :: s in seen ==> WalkOf(src, s) == ClearPath && Length(src, s) > Length(src, id)
    }

    method Note(id: Id, v: Verdict)
      requires Valid() && id != "" && v == VerdictOf(src, id)
      modifies this`publicMemo, this`publicMissing
      ensures Valid() && publicMemo == old(publicMemo)[id := v.allowed]
    {
      if v.missing {
        publicMissing := publicMissing[id := true];
      }
      publicMemo := publicMemo[id := v.allowed];
    }

    /**
     The memoised verdict.  It agrees with the memo-free one after any queries, and a channel under
     evaluation is never asked for again: the walk up the chain has refused every cycle before.
     */
    method PublicChannel(id: Id) returns (r: bool)
      requires Valid() && Descending(id, publicSeen) && id != ""
      modifies this`publicMemo, this`publicSeen, this`publicMissing
      ensures Valid() && id in publicMemo && r == VerdictOf(src, id).allowed
      ensures publicSeen == old(publicSeen) && old(publicMemo.Keys) <= publicMemo.Keys
      decreases Length(src, id), 1
    {
      if id in publicMemo {
        return publicMemo[id];
      }
      if id in publicSeen {
        assert false;
      }
      ghost var below := publicSeen;
      publicSeen := publicSeen + {id};
      var v := Judge(id, below);
      Note(id, v);
      publicSeen := publicSeen - {id};
      r := v.allowed;
    }

    method Judge(id: Id, ghost below: set<Id>) returns (v: Verdict)
      requires Valid() && Descending(id, below) && publicSeen == below + {id} && id != ""
      modifies this`publicMemo, this`publicSeen, this`publicMissing
      ensures Valid() && v == VerdictOf(src, id)
      ensures publicSeen == old(publicSeen) && old(publicMemo.Keys) <= publicMemo.Keys
      decreases Length(src, id), 0
    {
      if id !in src.channels {
        return Verdict(false, true);
      }
      var ch := src.channels[id];
      if ch.isPrivateThread || ch.kind == "thread_private" {
        return Verdict(false, false);
      }
      var w := WalkUp(src, id);
      if w == BlockedPath {
        return Verdict(false, false);
      }
      if w == MissingPath || ch.guild == "" {
        return Verdict(false, true);
      }
      if !IsThread(ch) {
        v := Evaluate(ch);
        return;
      }
      var parent := ParentOf(ch);
      if parent == "" {
        return Verdict(false, true);
      }
      ParentIsClear(src, id);
      var allowed := PublicChannel(parent);
      v := Verdict(allowed, Missing(parent));
    }

    method Evaluate(ch: Channel) returns (v: Verdict)
      ensures v == OwnVerdict(src, ch)
    {
      var permissions := GuildPermissions(src, ch.guild);
      if permissions.None? {
        return Verdict(false, true);
      }
      var missing := ch.parent != "" && ch.parent !in src.channels;
      if ch.parent in src.channels && src.channels[ch.parent].kind == "category" {
        permissions := ApplyEveryoneOverwrite(permissions.value, src.channels[ch.parent].overwrites, ch.guild);
        if permissions.None? {
          return Verdict(false, true);
        }
      }
      permissions := ApplyEveryoneOverwrite(permissions.value, ch.overwrites, ch.guild);
      v := Verdict(permissions.Some? && CanView(permissions.value), missing || permissions.None?);
    }

    method ChannelAllowed(id: Id) returns (r: bool)
      requires Valid() && publicSeen == {} && id in src.channels
      modifies this`publicMemo, this`publicSeen, this`publicMissing
      ensures Valid() && publicSeen == {}
      ensures r <==> Selected(src, opts, id)
    {
      if id == "" || id in opts.excluded {
        return false;
      }
      var ch := src.channels[id];
      var parent := ParentOf(ch);
      if parent != "" && parent in opts.excluded {
        return false;
      }
      if opts.included != {} && id !in opts.included {
        if !IsThread(ch) || parent !in opts.included {
          return false;
        }
      }
      if opts.publicOnly {
        var public := PublicChannel(id);
        if !public {
          return false;
        }
      }
      r := true;
    }

    function CurrentScope(): Scope
      reads this
    {
      Scope(opts.Active(), allowedChannels, allowedMessageIds)
    }

    /** Selects the channels, in any order, and the messages in them. */
    method Load(messages: seq<Message>)
      requires Valid() && publicSeen == {} && allowedChannels == {} && allowedMessageIds == {}
      modifies this
      ensures Valid() && CurrentScope().Selects(src, opts, messages)
    {
      if !opts.Active() {
        return;
      }
      var left := src.channels.Keys;
      while left != {}
        invariant Valid() && publicSeen == {} && left <= src.channels.Keys && allowedMessageIds == {}
        invariant forall id :: id in allowedChannels <==> id in src.channels && id !in left && Selected(src, opts, id)
        decreases left
      {
        var id :| id in left;
        var allowed := ChannelAllowed(id);
        if allowed {
          allowedChannels := allowedChannels + {id};
        }
        left := left - {id};
      }
      for i := 0 to |messages|
        invariant Valid() && forall id :: id in allowedChannels <==> id in src.channels && Selected(src, opts, id)
        invariant forall id :: id in allowedMessageIds <==>
          exists k :: 0 <= k < i && messages[k].id == id && CurrentScope().PublishesChannel(messages[k].channel, messages[k].guild)
      {
        var m := messages[i];
        if m.guild != DIRECT_MESSAGES && m.channel in allowedChannels {
          allowedMessageIds := allowedMessageIds + {m.id};
        }
      }
    }
  }

  // ---------------------------------------------------------------- what is exported and what is counted

  datatype Scope = Scope(active: bool, channels: set<Id>, messageIds: set<Id>) {
    predicate AllowsChannel(id: Id) {
      !active || id in channels
    }

    predicate PublishesChannel(id: Id, guild: Id) {
      guild != DIRECT_MESSAGES && AllowsChannel(id)
    }

    /** A row of the messages table has no column message_id, so the empty id is looked up for it. */
    predicate ExportsMessage(m: Message) {
      m.guild != DIRECT_MESSAGES && (!active || "" in messageIds || m.channel in channels)
    }

    /** The filter's sets are what the options select. */
    ghost predicate Selects(src: Source, opts: FilterOptions, messages: seq<Message>) {
      && active == opts.Active()
      && (active ==>
            && (forall id :: id in channels <==> id in src.channels && Selected(src, opts, id))
            && (forall id :: id in messageIds <==>
                  exists k :: 0 <= k < |messages| && messages[k].id == id
                    && PublishesChannel(messages[k].channel, messages[k].guild)))
      && (!active ==> channels == {} && messageIds == {})
    }
  }
}
