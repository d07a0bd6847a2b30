/**
 Storing provider payloads (internal/store/canonical.go): which fields of which entity are kept, sorted,
 normalised or moved out, and the step-by-step merge that does it.
 */
module CanonicalPayload {
  import opened Options
  import opened Canonical
  import opened CanonicalOrder

  datatype Kind = Guild | ChannelEntity | Member | Message

  const GUILD_METRICS: seq<string> :=
    ["member_count", "approximate_member_count", "approximate_presence_count", "premium_subscription_count"]
  const CHANNEL_METRICS: seq<string> := ["message_count", "member_count", "total_message_sent"]
  const GUILD_LISTS: seq<string> := ["members", "presences", "voice_states", "stage_instances", "channels", "threads"]
  const MEMBER_TIMES: seq<string> := ["joined_at", "premium_since", "communication_disabled_until"]

  // ---------------------------------------------------------------- rules

  /** An object with an id some of whose fields are kept. */
  function Keeping(keys: set<string>): Rule {
    Object(SameId, map k | k in keys :: Keep(Zero))
  }

  const USER_KEYS: set<string> := {"flags", "public_flags"}
  const MENTION_KEYS: set<string> := {"member", "flags", "public_flags"}

  const USER: Rule := Keeping(USER_KEYS)
  const MENTIONS: Rule := Each(Keeping(MENTION_KEYS))
  const MESSAGE_FIELDS: map<string, Rule> :=
    map["guild_id" := Keep(Zero), "member" := Keep(Zero), "author" := USER, "mentions" := MENTIONS]
  const REFERENCE: Rule := Object(KnownId, MESSAGE_FIELDS)
  const INVITABLE: Rule := Object(Always, map["invitable" := Keep(Zero)])

  /** How a field of an entity is merged. */
  function FieldRule(kind: Kind, channelKind: string, key: string): Rule {
    match kind
    case Guild =>
      if key in GUILD_LISTS then Keep(EmptyList)
      else if key == "joined_at" || key == "large" then Keep(Zero)
      else if key == "region" then Keep(ZeroOrDeprecated)
      else Plain
    case ChannelEntity =>
      if key == "guild_id" then Keep(Zero)
      else if key == "bitrate" && channelKind != "voice" && channelKind != "type_13" && channelKind != "stage" then Keep(Zero)
      else if key == "thread_metadata" && channelKind != "thread_private" then INVITABLE
      else Plain
    case Member =>
      if key == "guild_id" || key == "flags" then Keep(Zero)
      else if key == "user" then USER
      else Plain
    case Message =>
      if key in MESSAGE_FIELDS then MESSAGE_FIELDS[key]
      else if key == "referenced_message" then REFERENCE
      else Plain
  }

  const MERGED_KEYS: set<string> :=
    {"members", "presences", "voice_states", "stage_instances", "channels", "threads", "joined_at", "large", "region",
     "guild_id", "bitrate", "thread_metadata", "flags", "user", "member", "author", "mentions", "referenced_message"}

  function GuardOf(kind: Kind): Guard {
    if kind.Member? then KnownUserId else KnownId
  }

  function RuleOf(kind: Kind, channelKind: string): Rule {
    Object(GuardOf(kind),
           map key | key in MERGED_KEYS :: FieldRule(kind, channelKind, key))
  }

  lemma RuleFields(kind: Kind, channelKind: string, k: string)
    ensures var fields := RuleOf(kind, channelKind).fields;
      if k in fields then fields[k] == FieldRule(kind, channelKind, k) else FieldRule(kind, channelKind, k) == Plain
  {
  }

  // ---------------------------------------------------------------- preparation

  function NormalTime(env: Env, v: Option<Value>): Option<Value> {
    if v.Some? && v.value.Str? && v.value.s != "" then Some(Str(env.normalize(v.value.s))) else v
  }

  function NormalMetadata(env: Env, v: Option<Value>): Option<Value> {
    if IsObj(v) then
      var f := v.value.fields;
      Some(Obj(map k | k in f ::
        if k == "archive_timestamp" || k == "create_timestamp" then NormalTime(env, Some(f[k])).value else f[k]))
    else v
  }

  function Ordered(less: (Value, Value) -> bool, v: Option<Value>): Option<Value> {
    if IsList(v) then Some(List(SortBy(less, v.value.items))) else v
  }

  /** A field of the incoming payload before anything is merged. */
  function PreparedAt(env: Env, kind: Kind, key: string, v: Option<Value>): Option<Value> {
    match kind
    case Guild =>
      if key in GUILD_METRICS then None else if key == "features" then Ordered(FeatureLess, v) else v
    case ChannelEntity =>
      if key in CHANNEL_METRICS then None
      else if key == "permission_overwrites" then Ordered(OverwriteLess, v)
      else if key == "thread_metadata" then NormalMetadata(env, v)
      else v
    case Member => if key in MEMBER_TIMES then NormalTime(env, v) else v
    case Message => v
  }

  function Prepared(env: Env, kind: Kind, f: Fields): Fields {
    map key | key in f && PreparedAt(env, kind, key, Some(f[key])).Some? :: PreparedAt(env, kind, key, Some(f[key])).value
  }

  /** The live counters, every number that can be represented. */
  function Metrics(env: Env, kind: Kind, f: Fields): map<string, string> {
    map key | key in f && ((kind.Guild? && key in GUILD_METRICS) || (kind.ChannelEntity? && key in CHANNEL_METRICS))
              && f[key].Num? && env.finite(f[key].text)
          :: f[key].text
  }

  /** What is stored when a payload arrives over an earlier one. */
  function Store(env: Env, kind: Kind, channelKind: string, incoming: Fields, stored: Option<Fields>): Fields {
    var base := if stored.Some? then Some(Obj(stored.value)) else None;
    StoredObject(env, kind, channelKind, Prepared(env, kind, incoming), base).fields
  }

  function StoredObject(env: Env, kind: Kind, channelKind: string, prepared: Fields, base: Option<Value>): (r: Value)
    ensures r.Obj?
  {
    Merge(env, RuleOf(kind, channelKind), Some(Obj(prepared)), base).value
  }

  lemma RulesAreFlat(kind: Kind, channelKind: string)
    ensures Flat(RuleOf(kind, channelKind))
  {
    assert Flat(USER) && Flat(INVITABLE);
    var item := MENTIONS.item;
    assert item.Object? && forall k :: k in item.fields ==> item.fields[k].Keep?;
    assert Flat(MENTIONS);
    assert forall k :: k in MESSAGE_FIELDS ==> Flat(MESSAGE_FIELDS[k]);
    assert Flat(REFERENCE);
  }

  lemma RulesAreProper(kind: Kind, channelKind: string)
    ensures Proper(RuleOf(kind, channelKind))
  {
    var fields := RuleOf(kind, channelKind).fields;
    assert "id" !in MERGED_KEYS;
    forall k | k in fields ensures Proper(fields[k]) {
      FieldRuleIsProper(kind, channelKind, k);
    }
    if kind.Member? {
      assert FieldRule(kind, channelKind, "user") == USER;
    }
  }

  lemma FieldRuleIsProper(kind: Kind, channelKind: string, key: string)
    ensures Proper(FieldRule(kind, channelKind, key))
  {
    NestedRulesAreProper();
  }

  lemma NestedRulesAreProper()
    ensures Proper(USER) && Proper(MENTIONS) && Proper(INVITABLE) && Proper(REFERENCE)
    ensures forall k :: k in MESSAGE_FIELDS ==> Proper(MESSAGE_FIELDS[k])
  {
    assert Proper(USER);
    assert Proper(MENTIONS.item);
  }

  // ---------------------------------------------------------------- preparation is canonical

  lemma PreparedTheSame(env: Env, kind: Kind, f: Fields, key: string, v: Value, w: Value)
    requires PreparedAt(env, kind, key, Some(v)) == PreparedAt(env, kind, key, Some(w))
    ensures Prepared(env, kind, f[key := v]) == Prepared(env, kind, f[key := w])
  {
  }

  /** Two guilds that differ in the order of their features prepare to the same payload. */
  lemma FeatureOrderIsForgotten(env: Env, f: Fields, xs: seq<Value>, ys: seq<Value>)
    requires multiset(xs) == multiset(ys) && forall k :: 0 <= k < |xs| ==> xs[k].Str?
    ensures Prepared(env, Guild, f["features" := List(xs)]) == Prepared(env, Guild, f["features" := List(ys)])
  {
    OrdersAreAsymmetric();
    FeaturesAreLinear(xs);
    SortIgnoresOrder(FeatureLess, xs, ys);
    PreparedTheSame(env, Guild, f, "features", List(xs), List(ys));
  }

  /** Two channels that differ in the order of their overwrites prepare to the same payload. */
  lemma OverwriteOrderIsForgotten(env: Env, f: Fields, xs: seq<Value>, ys: seq<Value>)
    requires multiset(xs) == multiset(ys) && SoundOverwrites(xs)
    ensures Prepared(env, ChannelEntity, f["permission_overwrites" := List(xs)])
         == Prepared(env, ChannelEntity, f["permission_overwrites" := List(ys)])
  {
    OrdersAreAsymmetric();
    OverwritesAreLinear(xs);
    SortIgnoresOrder(OverwriteLess, xs, ys);
    PreparedTheSame(env, ChannelEntity, f, "permission_overwrites", List(xs), List(ys));
  }

  lemma TimeIsIdempotent(env: Env, v: Option<Value>)
    requires forall s :: env.normalize(env.normalize(s)) == env.normalize(s)
    ensures NormalTime(env, NormalTime(env, v)) == NormalTime(env, v)
  {
  }

  lemma MetadataIsIdempotent(env: Env, v: Option<Value>)
    requires forall s :: env.normalize(env.normalize(s)) == env.normalize(s)
    ensures NormalMetadata(env, NormalMetadata(env, v)) == NormalMetadata(env, v)
  {
    if IsObj(v) {
      var once := NormalMetadata(env, v).value.fields;
      forall k | k in once ensures NormalTime(env, NormalTime(env, Some(v.value.fields[k]))) == NormalTime(env, Some(v.value.fields[k])) {
        TimeIsIdempotent(env, Some(v.value.fields[k]));
      }
      assert NormalMetadata(env, Some(Obj(once))).value.fields == once;
    }
  }

  lemma FieldIsPreparedOnce(env: Env, kind: Kind, key: string, v: Option<Value>)
    requires forall s :: env.normalize(env.normalize(s)) == env.normalize(s)
    ensures PreparedAt(env, kind, key, PreparedAt(env, kind, key, v)) == PreparedAt(env, kind, key, v)
  {
    OrdersAreAsymmetric();
    OrderedOnce(FeatureLess, v);
    OrderedOnce(OverwriteLess, v);
    MetadataIsIdempotent(env, v);
    TimeIsIdempotent(env, v);
  }

  lemma OrderedOnce(less: (Value, Value) -> bool, v: Option<Value>)
    requires Asymmetric(less)
    ensures Ordered(less, Ordered(less, v)) == Ordered(less, v)
  {
    if IsList(v) {
      SortIsIdempotent(less, v.value.items);
    }
  }

  lemma PreparedFields(env: Env, kind: Kind, f: Fields)
    ensures forall k :: At(Prepared(env, kind, f), k) == PreparedAt(env, kind, k, At(f, k))
  {
  }

  /**
   The ids of a channel's overwrites do not go round in a circle, so that every stable sort orders the
   overwrites as `SortBy` does.
   */
  ghost predicate Sortable(kind: Kind, f: Fields) {
    kind.ChannelEntity? && IsList(At(f, "permission_overwrites")) ==> NoCycle(IdsOf(f["permission_overwrites"].items))
  }

  /** Whatever stable sort is used, a guild's features are left as `Prepared` says. */
  lemma FeaturesSortedAsPrepared(env: Env, f: Fields, items: seq<Value>, sorted: seq<Value>)
    requires At(f, "features") == Some(List(items))
    ensures At(Prepared(env, Guild, f), "features") == Some(List(sorted)) <==> StableSortOf(FeatureLess, items, sorted)
  {
    OrdersAreAsymmetric();
    PreparedFields(env, Guild, f);
    FeaturesArePreordered(items);
    StableSortIsSortBy(FeatureLess, items, sorted);
  }

  /** The same for a channel's overwrites whose ids do not go round. */
  lemma OverwritesSortedAsPrepared(env: Env, f: Fields, items: seq<Value>, sorted: seq<Value>)
    requires At(f, "permission_overwrites") == Some(List(items)) && Sortable(ChannelEntity, f)
    ensures At(Prepared(env, ChannelEntity, f), "permission_overwrites") == Some(List(sorted))
      <==> StableSortOf(OverwriteLess, items, sorted)
  {
    OrdersAreAsymmetric();
    PreparedFields(env, ChannelEntity, f);
    TotallyPreordered(items);
    StableSortIsSortBy(OverwriteLess, items, sorted);
  }

  /** Preparing a prepared payload changes nothing. */
  lemma PreparationIsIdempotent(env: Env, kind: Kind, f: Fields)
    requires Sortable(kind, f)
    requires forall s :: env.normalize(env.normalize(s)) == env.normalize(s)
    ensures Prepared(env, kind, Prepared(env, kind, f)) == Prepared(env, kind, f)
  {
    var once := Prepared(env, kind, f);
    PreparedFields(env, kind, f);
    PreparedFields(env, kind, once);
    forall k ensures At(Prepared(env, kind, once), k) == At(once, k) {
      FieldIsPreparedOnce(env, kind, k, At(f, k));
    }
    SameFields(Prepared(env, kind, once), once);
  }
}
