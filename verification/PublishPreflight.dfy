/**
 Counting what a filtered publication will contain (internal/share/preflight.go), against what its
 export filter admits.
 */
module PublishPreflight {
  import opened Options
  import opened SnapshotFilter

  datatype Row = Row(id: Id, guild: Id)

  function Count<T>(rows: seq<T>, p: T -> bool): nat {
    if rows == [] then 0
    else Count(rows[..|rows| - 1], p) + if p(rows[|rows| - 1]) then 1 else 0
  }

  lemma CountNext<T>(rows: seq<T>, i: nat, p: T -> bool)
    requires i < |rows|
    ensures Count(rows[..i + 1], p) == Count(rows[..i], p) + if p(rows[i]) then 1 else 0
  {
    assert rows[..i + 1][..i] == rows[..i];
  }

  lemma {:induction false} CountSame<T>(rows: seq<T>, p: T -> bool, q: T -> bool)
    requires forall k :: 0 <= k < |rows| ==> p(rows[k]) == q(rows[k])
    ensures Count(rows, p) == Count(rows, q)
  {
    if rows != [] {
      CountSame(rows[..|rows| - 1], p, q);
    }
  }

  lemma {:induction false} CountLess<T>(rows: seq<T>, p: T -> bool, q: T -> bool)
    requires forall k :: 0 <= k < |rows| && p(rows[k]) ==> q(rows[k])
    ensures Count(rows, p) <= Count(rows, q)
    ensures Count(rows, p) == Count(rows, q) ==> forall k :: 0 <= k < |rows| ==> p(rows[k]) == q(rows[k])
  {
    if rows != [] {
      CountLess(rows[..|rows| - 1], p, q);
    }
  }

  /** The guild of every channel that is not a direct message. */
  function GuildsOf(rows: seq<Row>): map<Id, Id> {
    if rows == [] then map[]
    else
      var r, before := rows[|rows| - 1], GuildsOf(rows[..|rows| - 1]);
      if r.guild == DIRECT_MESSAGES then before else before[r.id := r.guild]
  }

  function ChannelIn(scope: Scope): Row -> bool {
    (r: Row) => scope.PublishesChannel(r.id, r.guild)
  }

  function MessageIn(scope: Scope): Message -> bool {
    (m: Message) => scope.PublishesChannel(m.channel, m.guild)
  }

  function MessageExported(scope: Scope): Message -> bool {
    (m: Message) => scope.ExportsMessage(m)
  }

  /** A message counts for its channel's guild, or its own when the channel has no row. */
  function GuildOf(guilds: map<Id, Id>, m: Message): Id {
    if m.channel in guilds then guilds[m.channel] else m.guild
  }

  function MessageOf(scope: Scope, guilds: map<Id, Id>, guild: Id): Message -> bool {
    (m: Message) => scope.PublishesChannel(m.channel, m.guild) && GuildOf(guilds, m) == guild
  }

  function ChannelOf(scope: Scope, guild: Id): Row -> bool {
    (r: Row) => scope.PublishesChannel(r.id, r.guild) && r.guild == guild
  }

  datatype Tally = Tally(candidateChannels: nat, allowedChannels: nat, candidateMessages: nat, allowedMessages: nat)

  const NOTHING: Tally := Tally(0, 0, 0, 0)

  class Report {
    var total: Tally
    var guilds: map<Id, Tally>

    constructor ()
      ensures total == NOTHING && guilds == map[]
    {
      total, guilds := NOTHING, map[];
    }

    function Of(guild: Id): Tally
      reads this
    {
      if guild in guilds then guilds[guild] else NOTHING
    }

    /** Counts the channel rows that are not direct messages. */
    method CountChannels(candidate: Scope, selected: Scope, rows: seq<Row>) returns (channelGuilds: map<Id, Id>)
      requires total == NOTHING && guilds == map[]
      requires forall k :: 0 <= k < |rows| && selected.AllowsChannel(rows[k].id) ==> candidate.AllowsChannel(rows[k].id)
      modifies this
      ensures channelGuilds == GuildsOf(rows)
      ensures total == Tally(Count(rows, ChannelIn(candidate)), Count(rows, ChannelIn(selected)), 0, 0)
      ensures forall g :: Of(g) == Tally(Count(rows, ChannelOf(candidate, g)), Count(rows, ChannelOf(selected, g)), 0, 0)
    {
      channelGuilds := map[];
      for i := 0 to |rows|
        invariant channelGuilds == GuildsOf(rows[..i])
        invariant total == Tally(Count(rows[..i], ChannelIn(candidate)), Count(rows[..i], ChannelIn(selected)), 0, 0)
        invariant forall g ::
          Of(g) == Tally(Count(rows[..i], ChannelOf(candidate, g)), Count(rows[..i], ChannelOf(selected, g)), 0, 0)
      {
        var r := rows[i];
        assert rows[..i + 1][..i] == rows[..i];
        NextChannel(candidate, rows, i);
        NextChannel(selected, rows, i);
        if r.guild == DIRECT_MESSAGES {
          continue;
        }
        channelGuilds := channelGuilds[r.id := r.guild];
        if !candidate.AllowsChannel(r.id) {
          continue;
        }
        var t := Of(r.guild);
        t := t.(candidateChannels := t.candidateChannels + 1);
        total := total.(candidateChannels := total.candidateChannels + 1);
        if selected.AllowsChannel(r.id) {
          t := t.(allowedChannels := t.allowedChannels + 1);
          total := total.(allowedChannels := total.allowedChannels + 1);
        }
        guilds := guilds[r.guild := t];
      }
      assert rows[..|rows|] == rows;
    }

    /** Counts the message rows that are not direct messages, on top of the channels. */
    method CountMessages(candidate: Scope, selected: Scope, channelGuilds: map<Id, Id>, rows: seq<Message>)
      requires total.candidateMessages == 0 && total.allowedMessages == 0
      requires forall g :: Of(g).candidateMessages == 0 && Of(g).allowedMessages == 0
      requires forall k :: 0 <= k < |rows| && selected.AllowsChannel(rows[k].channel) ==> candidate.AllowsChannel(rows[k].channel)
      requires forall k :: 0 <= k < |rows| && rows[k].id in selected.messageIds ==> selected.AllowsChannel(rows[k].channel)
      modifies this
      ensures total == Tally(old(total).candidateChannels, old(total).allowedChannels,
                             Count(rows, MessageIn(candidate)), Count(rows, MessageIn(selected)))
      ensures forall g :: Of(g) == Tally(old(Of(g)).candidateChannels, old(Of(g)).allowedChannels,
                                         Count(rows, MessageOf(candidate, channelGuilds, g)),
                                         Count(rows, MessageOf(selected, channelGuilds, g)))
    {
      for i := 0 to |rows|
        invariant total == Tally(old(total).candidateChannels, old(total).allowedChannels,
                                 Count(rows[..i], MessageIn(candidate)), Count(rows[..i], MessageIn(selected)))
        invariant forall g :: Of(g) == Tally(old(Of(g)).candidateChannels, old(Of(g)).allowedChannels,
                                             Count(rows[..i], MessageOf(candidate, channelGuilds, g)),
                                             Count(rows[..i], MessageOf(selected, channelGuilds, g)))
      {
        var m := rows[i];
        NextMessage(candidate, channelGuilds, rows, i);
        NextMessage(selected, channelGuilds, rows, i);
        if m.guild == DIRECT_MESSAGES || !candidate.AllowsChannel(m.channel) {
          continue;
        }
        var guild := GuildOf(channelGuilds, m);
        var t := Of(guild);
        t := t.(candidateMessages := t.candidateMessages + 1);
        total := total.(candidateMessages := total.candidateMessages + 1);
        if m.id in selected.messageIds || selected.AllowsChannel(m.channel) {
          t := t.(allowedMessages := t.allowedMessages + 1);
          total := total.(allowedMessages := total.allowedMessages + 1);
        }
        guilds := guilds[guild := t];
      }
      assert rows[..|rows|] == rows;
    }
  }

  lemma NextChannel(scope: Scope, rows: seq<Row>, i: nat)
    requires i < |rows|
    ensures var r := rows[i]; var n := if scope.PublishesChannel(r.id, r.guild) then 1 else 0;
      && Count(rows[..i + 1], ChannelIn(scope)) == Count(rows[..i], ChannelIn(scope)) + n
      && forall g :: Count(rows[..i + 1], ChannelOf(scope, g))
                  == Count(rows[..i], ChannelOf(scope, g)) + if r.guild == g then n else 0
  {
    CountNext(rows, i, ChannelIn(scope));
    forall g
      ensures Count(rows[..i + 1], ChannelOf(scope, g))
           == Count(rows[..i], ChannelOf(scope, g)) + if ChannelOf(scope, g)(rows[i]) then 1 else 0
    {
      CountNext(rows, i, ChannelOf(scope, g));
    }
  }

  lemma NextMessage(scope: Scope, guilds: map<Id, Id>, rows: seq<Message>, i: nat)
    requires i < |rows|
    ensures var m := rows[i]; var n := if scope.PublishesChannel(m.channel, m.guild) then 1 else 0;
      && Count(rows[..i + 1], MessageIn(scope)) == Count(rows[..i], MessageIn(scope)) + n
      && forall g :: Count(rows[..i + 1], MessageOf(scope, guilds, g))
                  == Count(rows[..i], MessageOf(scope, guilds, g)) + if GuildOf(guilds, m) == g then n else 0
  {
    CountNext(rows, i, MessageIn(scope));
    forall g
      ensures Count(rows[..i + 1], MessageOf(scope, guilds, g))
           == Count(rows[..i], MessageOf(scope, guilds, g)) + if MessageOf(scope, guilds, g)(rows[i]) then 1 else 0
    {
      CountNext(rows, i, MessageOf(scope, guilds, g));
    }
  }

  // ---------------------------------------------------------------- the preflight

  ghost predicate RowsOf(src: Source, rows: seq<Row>) {
    forall k :: 0 <= k < |rows| ==> rows[k].id in src.channels && src.channels[rows[k].id].guild == rows[k].guild
  }

  predicate DistinctIds(messages: seq<Message>) {
    forall j, k :: 0 <= j < k < |messages| ==> messages[j].id != messages[k].id
  }

  /** Whatever the full filter selects the candidate filter selects too. */
  lemma CandidateSelectsMore(src: Source, opts: FilterOptions, messages: seq<Message>, candidate: Scope, selected: Scope)
    requires selected.Selects(src, opts, messages)
    requires candidate.Selects(src, opts.(publicOnly := false), messages)
    ensures forall id :: selected.AllowsChannel(id) ==> candidate.AllowsChannel(id)
  {
    forall id | selected.AllowsChannel(id) ensures candidate.AllowsChannel(id) {
      if candidate.active {
        assert Selected(src, opts, id);
        assert Selected(src, opts.(publicOnly := false), id);
      }
    }
  }

  lemma OwnIdOnly(src: Source, opts: FilterOptions, messages: seq<Message>, selected: Scope)
    requires selected.Selects(src, opts, messages) && DistinctIds(messages)
    ensures forall k :: 0 <= k < |messages| && messages[k].id in selected.messageIds ==>
      selected.AllowsChannel(messages[k].channel)
  {
    forall k | 0 <= k < |messages| && messages[k].id in selected.messageIds
      ensures selected.AllowsChannel(messages[k].channel)
    {
      var j :| 0 <= j < |messages| && messages[j].id == messages[k].id
               && selected.PublishesChannel(messages[j].channel, messages[j].guild);
      assert j == k;
    }
  }

  /** The report of a publication's scope: everything in it is a count of rows its filter publishes. */
  method PreflightPublishScope(src: Source, opts: FilterOptions, rows: seq<Row>, messages: seq<Message>)
    returns (report: Report, ghost candidates: Scope, ghost selected: Scope)
    requires RowsOf(src, rows) && DistinctIds(messages)
    ensures candidates.Selects(src, opts.(publicOnly := false), messages) && selected.Selects(src, opts, messages)
    ensures report.total.candidateChannels == Count(rows, ChannelIn(candidates))
    ensures report.total.candidateMessages == Count(messages, MessageIn(candidates))
    ensures report.total.allowedChannels == Count(rows, ChannelIn(selected))
    ensures report.total.allowedMessages == Count(messages, MessageIn(selected))
    ensures forall g :: report.Of(g).allowedChannels == Count(rows, ChannelOf(selected, g))
    ensures forall g :: report.Of(g).allowedMessages == Count(messages, MessageOf(selected, GuildsOf(rows), g))
    ensures report.total.allowedChannels <= report.total.candidateChannels
    ensures report.total.allowedMessages <= report.total.candidateMessages
  {
    var candidateFilter := new Filter(src, opts.(publicOnly := false));
    candidateFilter.Load(messages);
    var selectedFilter := new Filter(src, opts);
    selectedFilter.Load(messages);
    var candidate, full := candidateFilter.CurrentScope(), selectedFilter.CurrentScope();
    candidates, selected := candidate, full;
    CandidateSelectsMore(src, opts, messages, candidate, full);
    OwnIdOnly(src, opts, messages, full);
    report := new Report();
    var channelGuilds := report.CountChannels(candidate, full, rows);
    report.CountMessages(candidate, full, channelGuilds, messages);
    CountLess(rows, ChannelIn(full), ChannelIn(candidate));
    CountLess(messages, MessageIn(full), MessageIn(candidate));
  }

  /** Not a direct message, and in a channel the options select. */
  ghost predicate IsPublished(src: Source, opts: FilterOptions, m: Message) {
    m.guild != DIRECT_MESSAGES && Selected(src, opts, m.channel)
  }

  /** A published message has the empty id, while some message that is not a direct one is held back. */
  ghost predicate BlankIdOpens(src: Source, opts: FilterOptions, messages: seq<Message>) {
    && opts.Active()
    && (exists k :: 0 <= k < |messages| && messages[k].id == "" && IsPublished(src, opts, messages[k]))
    && (exists k :: 0 <= k < |messages| && messages[k].guild != DIRECT_MESSAGES && !Selected(src, opts, messages[k].channel))
  }

  lemma SelectionDecides(src: Source, opts: FilterOptions, messages: seq<Message>, selected: Scope, m: Message)
    requires selected.Selects(src, opts, messages) && opts.Active()
    ensures MessageIn(selected)(m) <==> IsPublished(src, opts, m)
    ensures MessageExported(selected)(m) <==>
      m.guild != DIRECT_MESSAGES
      && (IsPublished(src, opts, m) || exists k :: 0 <= k < |messages| && messages[k].id == "" && IsPublished(src, opts, messages[k]))
  {
    assert Selected(src, opts, m.channel) ==> m.channel in src.channels;
    forall k | 0 <= k < |messages|
      ensures selected.PublishesChannel(messages[k].channel, messages[k].guild) <==> IsPublished(src, opts, messages[k])
    {
      assert Selected(src, opts, messages[k].channel) ==> messages[k].channel in src.channels;
    }
  }

  /**
   The counted messages are exactly the exported ones unless a message with an empty id is published
   while another one is not; the message filter looks up a column that messages do not have.
   */
  lemma CountedAreExported(src: Source, opts: FilterOptions, messages: seq<Message>, selected: Scope)
    requires selected.Selects(src, opts, messages)
    ensures Count(messages, MessageIn(selected)) == Count(messages, MessageExported(selected))
      <==> !BlankIdOpens(src, opts, messages)
  {
    var p, q := MessageIn(selected), MessageExported(selected);
    CountLess(messages, p, q);
    if opts.Active() {
      forall k | 0 <= k < |messages|
        ensures p(messages[k]) <==> IsPublished(src, opts, messages[k])
        ensures q(messages[k]) <==>
          && messages[k].guild != DIRECT_MESSAGES
          && (IsPublished(src, opts, messages[k])
              || exists j :: 0 <= j < |messages| && messages[j].id == "" && IsPublished(src, opts, messages[j]))
      {
        SelectionDecides(src, opts, messages, selected, messages[k]);
      }
    }
    if BlankIdOpens(src, opts, messages) {
      var k :| 0 <= k < |messages| && messages[k].guild != DIRECT_MESSAGES && !Selected(src, opts, messages[k].channel);
      assert q(messages[k]) && !p(messages[k]);
    } else {
      CountSame(messages, p, q);
    }
  }

  // ---------------------------------------------------------------- an archive where the two disagree

  const OPEN: Channel := Channel("g", "", "", "text", false, None, "allowed", false)
  const ARCHIVE: Source := Source(map["open" := OPEN, "held" := OPEN], map[], {})
  const HOLDING: FilterOptions := FilterOptions(false, {}, {"held"})
  const MESSAGES: seq<Message> := [Message("", "g", "open"), Message("1", "g", "held")]

  /**
   One of two channels is excluded and has one message; the other has a message with the empty id.  The
   preflight counts one message, the export admits both.
   */
  lemma BlankIdExample(selected: Scope)
    requires selected.Selects(ARCHIVE, HOLDING, MESSAGES)
    ensures Count(MESSAGES, MessageIn(selected)) == 1 && Count(MESSAGES, MessageExported(selected)) == 2
  {
    var a, b := MESSAGES[0], MESSAGES[1];
    assert ParentOf(OPEN) == "";
    assert IsPublished(ARCHIVE, HOLDING, a) && !IsPublished(ARCHIVE, HOLDING, b);
    SelectionDecides(ARCHIVE, HOLDING, MESSAGES, selected, a);
    SelectionDecides(ARCHIVE, HOLDING, MESSAGES, selected, b);
    assert MESSAGES[..1] == [a] && [a][..0] == [];
    CountNext(MESSAGES, 0, MessageIn(selected));
    CountNext(MESSAGES, 1, MessageIn(selected));
    CountNext(MESSAGES, 0, MessageExported(selected));
    CountNext(MESSAGES, 1, MessageExported(selected));
    assert MESSAGES[..2] == MESSAGES && MESSAGES[..0] == [];
  }

  /** And these are sets the filter does load. */
  lemma ExampleIsLoaded()
    ensures Scope(true, {"open"}, {""}).Selects(ARCHIVE, HOLDING, MESSAGES)
  {
    var scope := Scope(true, {"open"}, {""});
    forall id ensures id in scope.channels <==> id in ARCHIVE.channels && Selected(ARCHIVE, HOLDING, id) {
    }
    forall id ensures id in scope.messageIds <==>
      exists k :: 0 <= k < |MESSAGES| && MESSAGES[k].id == id && scope.PublishesChannel(MESSAGES[k].channel, MESSAGES[k].guild)
    {
      assert MESSAGES[0].id == "" && scope.PublishesChannel(MESSAGES[0].channel, MESSAGES[0].guild);
      assert !scope.PublishesChannel(MESSAGES[1].channel, MESSAGES[1].guild);
    }
  }
}
