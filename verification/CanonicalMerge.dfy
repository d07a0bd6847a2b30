/**
 The merge as it edits a decoded payload in place (internal/store/canonical.go), proved to store what
 the rules of `CanonicalPayload` say.
 */
module CanonicalMerge {
  import opened Options
  import opened Canonical
  import opened CanonicalOrder
  import opened CanonicalPayload

  /** One key has a new value, the others keep theirs. */
  ghost predicate Sets(before: Fields, after: Fields, key: string, v: Option<Value>) {
    forall k :: At(after, k) == if k == key then v else At(before, k)
  }

  class Payload {
    var fields: Fields

    constructor (fields: Fields)
      ensures this.fields == fields
    {
      this.fields := fields;
    }

    /** Keeps the base's value when the payload does not supply a known one. */
    method KeepKnown(env: Env, base: Fields, key: string, p: Placeholder)
      modifies this
      ensures Sets(old(fields), fields, key, Kept(env, p, At(old(fields), key), At(base, key)))
    {
      if !IsPlaceholder(env, p, Get(fields, key)) {
        return;
      }
      if key in base && !IsPlaceholder(env, p, base[key]) {
        fields := fields[key := base[key]];
      }
    }

    method MergeUserFlags(env: Env, base: Fields, key: string)
      modifies this
      ensures Sets(old(fields), fields, key, Merge(env, USER, At(old(fields), key), At(base, key)))
    {
      var v, w := At(fields, key), At(base, key);
      if !IsObj(v) || !IsObj(w) || Get(v.value.fields, "id") != Get(w.value.fields, "id") {
        return;
      }
      var user := new Payload(v.value.fields);
      user.KeepKnown(env, w.value.fields, "flags", Zero);
      user.KeepKnown(env, w.value.fields, "public_flags", Zero);
      KeptFields(env, USER_KEYS, v, w, user.fields);
      fields := fields[key := Obj(user.fields)];
    }

    static method MergeMention(env: Env, m: Value, known: seq<Value>) returns (r: Value)
      ensures Some(r) == Merge(env, MENTIONS.item, Some(m), Prior(known, m))
    {
      MergeNone(env, MENTIONS.item, Some(m));
      if !m.Obj? {
        return m;
      }
      var prior := Find(known, Get(m.fields, "id"));
      if prior.None? {
        return m;
      }
      FindHasId(known, Get(m.fields, "id"));
      var item := new Payload(m.fields);
      item.KeepKnown(env, prior.value.fields, "member", Zero);
      item.KeepKnown(env, prior.value.fields, "flags", Zero);
      item.KeepKnown(env, prior.value.fields, "public_flags", Zero);
      KeptFields(env, MENTION_KEYS, Some(m), prior, item.fields);
      r := Obj(item.fields);
    }

    method MergeMentionMembers(env: Env, base: Fields)
      modifies this
      ensures Sets(old(fields), fields, "mentions", Merge(env, MENTIONS, At(old(fields), "mentions"), At(base, "mentions")))
    {
      var v, w := At(fields, "mentions"), At(base, "mentions");
      if !IsList(v) || !IsList(w) {
        return;
      }
      var mentions, known := v.value.items, w.value.items;
      for i := 0 to |mentions|
        invariant |mentions| == |v.value.items| && fields == old(fields)
        invariant forall k :: 0 <= k < i ==>
          Some(mentions[k]) == Merge(env, MENTIONS.item, Some(v.value.items[k]), Prior(known, v.value.items[k]))
        invariant forall k :: i <= k < |mentions| ==> mentions[k] == v.value.items[k]
      {
        var m := MergeMention(env, mentions[i], known);
        mentions := mentions[i := m];
      }
      SameItems(env, mentions, v, w);
      fields := fields["mentions" := List(mentions)];
    }

    /** The four edits of a message, also made to a referenced one. */
    method MergeMessageFields(env: Env, base: Fields)
      modifies this
      ensures forall k ::
        At(fields, k) == if k in MESSAGE_FIELDS then Merge(env, MESSAGE_FIELDS[k], At(old(fields), k), At(base, k))
                         else At(old(fields), k)
    {
      KeepKnown(env, base, "guild_id", Zero);
      KeepKnown(env, base, "member", Zero);
      MergeUserFlags(env, base, "author");
      MergeMentionMembers(env, base);
    }

    method KeepAll(env: Env, base: Fields, keys: seq<string>, p: Placeholder)
      modifies this
      ensures forall k ::
        At(fields, k) == if k in keys then Kept(env, p, At(old(fields), k), At(base, k)) else At(old(fields), k)
    {
      for i := 0 to |keys|
        invariant forall k ::
          At(fields, k) == if k in keys[..i] then Kept(env, p, At(old(fields), k), At(base, k)) else At(old(fields), k)
      {
        KeepKnown(env, base, keys[i], p);
        assert keys[..i + 1] == keys[..i] + [keys[i]];
      }
      assert keys[..|keys|] == keys;
    }

    /** Moves live counters out of the payload. */
    method TakeMetrics(env: Env, keys: seq<string>) returns (metrics: map<string, string>)
      requires forall i, j :: 0 <= i < j < |keys| ==> keys[i] != keys[j]
      modifies this
      ensures forall k :: At(fields, k) == if k in keys then None else At(old(fields), k)
      ensures metrics == Counters(env, old(fields), keys)
    {
      metrics := map[];
      for i := 0 to |keys|
        invariant forall k :: At(fields, k) == if k in keys[..i] then None else At(old(fields), k)
        invariant metrics == Counters(env, old(fields), keys[..i])
      {
        var v := At(fields, keys[i]);
        assert keys[..i + 1] == keys[..i] + [keys[i]];
        assert v == At(old(fields), keys[i]);
        OneCounter(env, old(fields), keys[..i], keys[i]);
        if v.Some? && v.value.Num? && env.finite(v.value.text) {
          metrics := metrics[keys[i] := v.value.text];
        }
        fields := fields - {keys[i]};
      }
      assert keys[..|keys|] == keys;
    }

    method SortField(less: (Value, Value) -> bool, key: string)
      modifies this
      ensures Sets(old(fields), fields, key, Ordered(less, At(old(fields), key)))
    {
      if key in fields && fields[key].List? {
        fields := fields[key := List(SortBy(less, fields[key].items))];
      }
    }

    method NormalizeTimeField(env: Env, key: string)
      modifies this
      ensures Sets(old(fields), fields, key, NormalTime(env, At(old(fields), key)))
    {
      if key in fields && fields[key].Str? && fields[key].s != "" {
        fields := fields[key := Str(env.normalize(fields[key].s))];
      }
    }

    method MergeGuild(env: Env, base: Option<Fields>) returns (metrics: map<string, string>)
      modifies this
      ensures forall k :: At(fields, k) == FieldAt(env, Guild, "", old(fields), base, k)
      ensures metrics == Metrics(env, Guild, old(fields))
    {
      ghost var f0 := fields;
      metrics := TakeMetrics(env, GUILD_METRICS);
      ghost var f1 := fields;
      if base.Some? {
        KeepAll(env, base.value, GUILD_LISTS, EmptyList);
      }
      ghost var f2 := fields;
      SortField(FeatureLess, "features");
      ghost var f3 := fields;
      if base.Some? {
        KeepKnown(env, base.value, "joined_at", Zero);
        ghost var f4 := fields;
        KeepKnown(env, base.value, "large", Zero);
        ghost var f5 := fields;
        KeepKnown(env, base.value, "region", ZeroOrDeprecated);
        forall k ensures At(fields, k) == FieldAt(env, Guild, "", f0, base, k) {
          GuildField(env, f0, f1, f2, f3, f4, f5, fields, base.value, k);
        }
      } else {
        forall k ensures At(fields, k) == FieldAt(env, Guild, "", f0, base, k) {
          MergeNone(env, FieldRule(Guild, "", k), PreparedAt(env, Guild, k, At(f0, k)));
        }
      }
    }

    method MergeChannel(env: Env, base: Option<Fields>, channelKind: string) returns (metrics: map<string, string>)
      modifies this
      ensures forall k :: At(fields, k) == FieldAt(env, ChannelEntity, channelKind, old(fields), base, k)
      ensures metrics == Metrics(env, ChannelEntity, old(fields))
    {
      ghost var f0 := fields;
      metrics := TakeMetrics(env, CHANNEL_METRICS);
      ghost var f1 := fields;
      SortField(OverwriteLess, "permission_overwrites");
      ghost var f2 := fields;
      NormalizeMetadata(env);
      ghost var prepared := fields;
      forall k ensures At(prepared, k) == PreparedAt(env, ChannelEntity, k, At(f0, k)) {
        ChannelPrepared(env, f0, f1, f2, prepared, k);
      }
      if base.Some? {
        MergeChannelFields(env, base.value, channelKind);
      }
      forall k ensures At(fields, k) == FieldAt(env, ChannelEntity, channelKind, f0, base, k) {
        MergeNone(env, FieldRule(ChannelEntity, channelKind, k), At(prepared, k));
      }
    }

    method MergeChannelFields(env: Env, base: Fields, channelKind: string)
      modifies this
      ensures forall k ::
        At(fields, k) == Merge(env, FieldRule(ChannelEntity, channelKind, k), At(old(fields), k), At(base, k))
    {
      ghost var f0 := fields;
      KeepKnown(env, base, "guild_id", Zero);
      ghost var f1 := fields;
      if channelKind != "voice" && channelKind != "type_13" && channelKind != "stage" {
        KeepKnown(env, base, "bitrate", Zero);
      }
      ghost var f2 := fields;
      if channelKind != "thread_private" {
        MergeInvitable(env, base);
      }
      forall k
        ensures At(fields, k) == Merge(env, FieldRule(ChannelEntity, channelKind, k), At(f0, k), At(base, k))
      {
        ChannelField(env, channelKind, f0, f1, f2, fields, base, k);
      }
    }

    method NormalizeMetadata(env: Env)
      modifies this
      ensures Sets(old(fields), fields, "thread_metadata", NormalMetadata(env, At(old(fields), "thread_metadata")))
    {
      var v := At(fields, "thread_metadata");
      if IsObj(v) {
        var meta := new Payload(v.value.fields);
        meta.NormalizeTimeField(env, "archive_timestamp");
        meta.NormalizeTimeField(env, "create_timestamp");
        SameFields(meta.fields, NormalMetadata(env, v).value.fields);
        fields := fields["thread_metadata" := Obj(meta.fields)];
      }
    }

    method MergeInvitable(env: Env, base: Fields)
      modifies this
      ensures Sets(old(fields), fields, "thread_metadata",
                   Merge(env, INVITABLE, At(old(fields), "thread_metadata"), At(base, "thread_metadata")))
    {
      var v, w := At(fields, "thread_metadata"), At(base, "thread_metadata");
      if !IsObj(v) || !IsObj(w) {
        return;
      }
      var meta := new Payload(v.value.fields);
      meta.KeepKnown(env, w.value.fields, "invitable", Zero);
      ObjectMerge(env, INVITABLE, v, w);
      SameFields(meta.fields, Merge(env, INVITABLE, v, w).value.fields);
      fields := fields["thread_metadata" := Obj(meta.fields)];
    }

    method MergeMember(env: Env, base: Option<Fields>)
      modifies this
      ensures forall k :: At(fields, k) == FieldAt(env, Member, "", old(fields), base, k)
    {
      ghost var f0 := fields;
      NormalizeTimeField(env, "joined_at");
      ghost var f1 := fields;
      NormalizeTimeField(env, "premium_since");
      ghost var f2 := fields;
      NormalizeTimeField(env, "communication_disabled_until");
      ghost var prepared := fields;
      forall k ensures At(prepared, k) == PreparedAt(env, Member, k, At(f0, k)) {
        MemberPrepared(env, f0, f1, f2, prepared, k);
      }
      if base.Some? {
        KeepKnown(env, base.value, "guild_id", Zero);
        ghost var f4 := fields;
        KeepKnown(env, base.value, "flags", Zero);
        ghost var f5 := fields;
        MergeUserFlags(env, base.value, "user");
        forall k ensures At(fields, k) == Merge(env, FieldRule(Member, "", k), At(prepared, k), At(base.value, k)) {
          MemberField(env, prepared, f4, f5, fields, base.value, k);
        }
      }
      forall k ensures At(fields, k) == FieldAt(env, Member, "", f0, base, k) {
        MergeNone(env, FieldRule(Member, "", k), At(prepared, k));
      }
    }

    method MergeMessage(env: Env, base: Option<Fields>)
      modifies this
      ensures forall k :: At(fields, k) == FieldAt(env, Message, "", old(fields), base, k)
    {
      if base.Some? {
        MergeMessageFields(env, base.value);
        MergeReference(env, base.value);
      }
    }

    method MergeReference(env: Env, base: Fields)
      modifies this
      ensures Sets(old(fields), fields, "referenced_message",
                   Merge(env, REFERENCE, At(old(fields), "referenced_message"), At(base, "referenced_message")))
    {
      var v, w := At(fields, "referenced_message"), At(base, "referenced_message");
      if !IsObj(v) || !IsObj(w) || !Same(KnownId, v.value.fields, w.value.fields) {
        return;
      }
      var reference := new Payload(v.value.fields);
      reference.MergeMessageFields(env, w.value.fields);
      ObjectMerge(env, REFERENCE, v, w);
      SameFields(reference.fields, Merge(env, REFERENCE, v, w).value.fields);
      fields := fields["referenced_message" := Obj(reference.fields)];
    }
  }

  /** A field after preparation and merge. */
  function FieldAt(env: Env, kind: Kind, channelKind: string, f: Fields, base: Option<Fields>, k: string): Option<Value> {
    Merge(env, FieldRule(kind, channelKind, k), PreparedAt(env, kind, k, At(f, k)),
          if base.Some? then At(base.value, k) else None)
  }

  /** An object with some fields kept is the merged object. */
  lemma KeptFields(env: Env, keys: set<string>, v: Option<Value>, w: Option<Value>, r: Fields)
    requires IsObj(v) && IsObj(w) && Same(SameId, v.value.fields, w.value.fields)
    requires forall k ::
      At(r, k) == if k in keys then Kept(env, Zero, At(v.value.fields, k), At(w.value.fields, k)) else At(v.value.fields, k)
    ensures Merge(env, Keeping(keys), v, w) == Some(Obj(r))
  {
    ObjectMerge(env, Keeping(keys), v, w);
    SameFields(r, Merge(env, Keeping(keys), v, w).value.fields);
  }

  /** The numbers under some keys. */
  function Counters(env: Env, f: Fields, keys: seq<string>): map<string, string> {
    map k | k in f && k in keys && f[k].Num? && env.finite(f[k].text) :: f[k].text
  }

  lemma OneCounter(env: Env, f: Fields, keys: seq<string>, key: string)
    ensures Counters(env, f, keys + [key]) ==
      if key in f && f[key].Num? && env.finite(f[key].text) then Counters(env, f, keys)[key := f[key].text]
      else Counters(env, f, keys)
  {
  }

  /** One field through the steps of a guild's merge. */
  lemma GuildField(env: Env, f0: Fields, f1: Fields, f2: Fields, f3: Fields, f4: Fields, f5: Fields, f6: Fields,
                   base: Fields, k: string)
    requires At(f1, k) == if k in GUILD_METRICS then None else At(f0, k)
    requires At(f2, k) == if k in GUILD_LISTS then Kept(env, EmptyList, At(f1, k), At(base, k)) else At(f1, k)
    requires At(f3, k) == if k == "features" then Ordered(FeatureLess, At(f2, k)) else At(f2, k)
    requires At(f4, k) == if k == "joined_at" then Kept(env, Zero, At(f3, k), At(base, k)) else At(f3, k)
    requires At(f5, k) == if k == "large" then Kept(env, Zero, At(f4, k), At(base, k)) else At(f4, k)
    requires At(f6, k) == if k == "region" then Kept(env, ZeroOrDeprecated, At(f5, k), At(base, k)) else At(f5, k)
    ensures At(f6, k) == FieldAt(env, Guild, "", f0, Some(base), k)
  {
  }

  lemma ChannelPrepared(env: Env, f0: Fields, f1: Fields, f2: Fields, f3: Fields, k: string)
    requires At(f1, k) == if k in CHANNEL_METRICS then None else At(f0, k)
    requires At(f2, k) == if k == "permission_overwrites" then Ordered(OverwriteLess, At(f1, k)) else At(f1, k)
    requires At(f3, k) == if k == "thread_metadata" then NormalMetadata(env, At(f2, k)) else At(f2, k)
    ensures At(f3, k) == PreparedAt(env, ChannelEntity, k, At(f0, k))
  {
  }

  lemma ChannelField(env: Env, channelKind: string, f0: Fields, f1: Fields, f2: Fields, f3: Fields, base: Fields, k: string)
    requires At(f1, k) == if k == "guild_id" then Kept(env, Zero, At(f0, k), At(base, k)) else At(f0, k)
    requires At(f2, k) ==
      if k == "bitrate" && channelKind != "voice" && channelKind != "type_13" && channelKind != "stage"
      then Kept(env, Zero, At(f1, k), At(base, k)) else At(f1, k)
    requires At(f3, k) ==
      if k == "thread_metadata" && channelKind != "thread_private"
      then Merge(env, INVITABLE, At(f2, k), At(base, k)) else At(f2, k)
    ensures At(f3, k) == Merge(env, FieldRule(ChannelEntity, channelKind, k), At(f0, k), At(base, k))
  {
  }

  lemma MemberPrepared(env: Env, f0: Fields, f1: Fields, f2: Fields, f3: Fields, k: string)
    requires At(f1, k) == if k == "joined_at" then NormalTime(env, At(f0, k)) else At(f0, k)
    requires At(f2, k) == if k == "premium_since" then NormalTime(env, At(f1, k)) else At(f1, k)
    requires At(f3, k) == if k == "communication_disabled_until" then NormalTime(env, At(f2, k)) else At(f2, k)
    ensures At(f3, k) == PreparedAt(env, Member, k, At(f0, k))
  {
  }

  lemma MemberField(env: Env, f0: Fields, f1: Fields, f2: Fields, f3: Fields, base: Fields, k: string)
    requires At(f1, k) == if k == "guild_id" then Kept(env, Zero, At(f0, k), At(base, k)) else At(f0, k)
    requires At(f2, k) == if k == "flags" then Kept(env, Zero, At(f1, k), At(base, k)) else At(f1, k)
    requires At(f3, k) == if k == "user" then Merge(env, USER, At(f2, k), At(base, k)) else At(f2, k)
    ensures At(f3, k) == Merge(env, FieldRule(Member, "", k), At(f0, k), At(base, k))
  {
  }

  lemma SameItems(env: Env, mentions: seq<Value>, v: Option<Value>, w: Option<Value>)
    requires IsList(v) && IsList(w) && |mentions| == |v.value.items|
    requires forall k :: 0 <= k < |mentions| ==>
      Some(mentions[k]) == Merge(env, MENTIONS.item, Some(v.value.items[k]), Prior(w.value.items, v.value.items[k]))
    ensures Merge(env, MENTIONS, v, w) == Some(List(mentions))
  {
    var items := Merge(env, MENTIONS, v, w).value.items;
    assert |items| == |mentions|;
    forall k | 0 <= k < |items| ensures items[k] == mentions[k] {
    }
    assert items == mentions;
  }


  // ---------------------------------------------------------------- the whole merge

  /** Preparation does not change what a payload is an observation of. */
  lemma PreparedIdentity(env: Env, kind: Kind, f: Fields)
    ensures Identity(GuardOf(kind), Prepared(env, kind, f)) == Identity(GuardOf(kind), f)
  {
    PreparedFields(env, kind, f);
    assert PreparedAt(env, kind, "id", At(f, "id")) == At(f, "id");
    assert PreparedAt(env, Member, "user", At(f, "user")) == At(f, "user");
  }

  /** A payload whose every field is the field's merge is what is stored. */
  lemma FieldwiseIsStored(env: Env, kind: Kind, channelKind: string, f: Fields, stored: Option<Fields>, r: Fields)
    requires var base := if stored.Some? && Same(GuardOf(kind), f, stored.value) then stored else None;
      forall k :: At(r, k) == FieldAt(env, kind, channelKind, f, base, k)
    ensures r == Store(env, kind, channelKind, f, stored)
  {
    var base := if stored.Some? && Same(GuardOf(kind), f, stored.value) then stored else None;
    var rule, v := RuleOf(kind, channelKind), Some(Obj(Prepared(env, kind, f)));
    var w := if stored.Some? then Some(Obj(stored.value)) else None;
    PreparedIdentity(env, kind, f);
    PreparedFields(env, kind, f);
    ObjectMerge(env, rule, v, w);
    var m := Merge(env, rule, v, w).value.fields;
    forall k ensures At(r, k) == At(m, k) {
      RuleFields(kind, channelKind, k);
      assert At(r, k) == FieldAt(env, kind, channelKind, f, base, k);
      assert BaseAt(rule, v, w, k) == if base.Some? then At(base.value, k) else None;
    }
    SameFields(r, m);
  }

  /** The merge of a decoded payload with what is stored, and the live counters taken out of it. */
  method CanonicalMerge(env: Env, kind: Kind, incoming: Fields, stored: Option<Fields>, channelKind: string)
    returns (merged: Fields, metrics: map<string, string>)
    ensures merged == Store(env, kind, channelKind, incoming, stored)
    ensures metrics == Metrics(env, kind, incoming)
  {
    var base := if stored.Some? && Same(GuardOf(kind), incoming, stored.value) then stored else None;
    var payload := new Payload(incoming);
    metrics := map[];
    match kind {
      case Guild => metrics := payload.MergeGuild(env, base);
      case ChannelEntity => metrics := payload.MergeChannel(env, base, channelKind);
      case Member => payload.MergeMember(env, base);
      case Message => payload.MergeMessage(env, base);
    }
    merged := payload.fields;
    forall k ensures At(merged, k) == FieldAt(env, kind, channelKind, incoming, base, k) {
      assert FieldRule(Guild, "", k) == FieldRule(Guild, channelKind, k);
      assert FieldRule(Member, "", k) == FieldRule(Member, channelKind, k);
      assert FieldRule(Message, "", k) == FieldRule(Message, channelKind, k);
    }
    FieldwiseIsStored(env, kind, channelKind, incoming, stored, merged);
  }
}
