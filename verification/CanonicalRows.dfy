/**
 When a stored row is rewritten (internal/store/canonical.go, internal/store/write.go).  The row keeps its
 payload unless the canonical forms of what is stored and of what would be stored differ; empty
 collections count as absent in the forms of some fields.  The other columns of a row are taken to be equal.
 */
module CanonicalRows {
  import opened Options
  import opened Canonical
  import opened CanonicalOrder
  import opened CanonicalPayload
  import CanonicalMerge

  const LOOSE_KEYS: seq<string> :=
    ["reactions", "attachments", "embeds", "components", "mentions", "mention_roles", "channels", "threads", "roles"]

  predicate IsEmpty(v: Option<Value>) {
    v == None || v == Some(Null) || v == Some(List([])) || v == Some(Obj(map[]))
  }

  /** The form two payloads are compared in. */
  function Form(env: Env, kind: Kind, f: Fields): Fields {
    var p := Prepared(env, kind, f);
    map k | k in p && !(k in LOOSE_KEYS && IsEmpty(Some(p[k]))) :: p[k]
  }

  /** The field makes no difference to the form. */
  predicate Close(key: string, v: Option<Value>, w: Option<Value>) {
    v == w || (key in LOOSE_KEYS && IsEmpty(v) && IsEmpty(w))
  }

  ghost predicate SameForm(env: Env, kind: Kind, f: Fields, g: Fields) {
    forall k :: Close(k, PreparedAt(env, kind, k, At(f, k)), PreparedAt(env, kind, k, At(g, k)))
  }

  lemma FormAt(env: Env, kind: Kind, f: Fields, k: string)
    ensures At(Form(env, kind, f), k) ==
      var v := PreparedAt(env, kind, k, At(f, k)); if k in LOOSE_KEYS && IsEmpty(v) then None else v
  {
    PreparedFields(env, kind, f);
    assert At(Prepared(env, kind, f), k) == PreparedAt(env, kind, k, At(f, k));
  }

  /** Equal forms are fields that differ at most in how they are empty. */
  lemma FormsAgree(env: Env, kind: Kind, f: Fields, g: Fields)
    ensures Form(env, kind, f) == Form(env, kind, g) <==> SameForm(env, kind, f, g)
  {
    forall k
      ensures At(Form(env, kind, f), k) == At(Form(env, kind, g), k) <==>
        Close(k, PreparedAt(env, kind, k, At(f, k)), PreparedAt(env, kind, k, At(g, k)))
    {
      FormAt(env, kind, f, k);
      FormAt(env, kind, g, k);
    }
    if SameForm(env, kind, f, g) {
      SameFields(Form(env, kind, f), Form(env, kind, g));
    }
  }

  /** The row after an observation has arrived. */
  function Arrive(env: Env, kind: Kind, channelKind: string, incoming: Fields, stored: Option<Fields>): Fields {
    var merged := Store(env, kind, channelKind, incoming, stored);
    if stored.Some? && Form(env, kind, stored.value) == Form(env, kind, merged) then stored.value else merged
  }

  lemma StoreOverNothing(env: Env, kind: Kind, channelKind: string, f: Fields)
    ensures Store(env, kind, channelKind, f, None) == Prepared(env, kind, f)
  {
    MergeNone(env, RuleOf(kind, channelKind), Some(Obj(Prepared(env, kind, f))));
  }

  /** A payload merged with nothing, without the fields that are empty. */
  method CanonicalForm(env: Env, kind: Kind, f: Fields, channelKind: string) returns (form: Fields)
    ensures form == Form(env, kind, f)
  {
    var merged, metrics := CanonicalMerge.CanonicalMerge(env, kind, f, None, channelKind);
    StoreOverNothing(env, kind, channelKind, f);
    form := merged;
    for i := 0 to |LOOSE_KEYS|
      invariant form == map k | k in merged && !(k in LOOSE_KEYS[..i] && IsEmpty(Some(merged[k]))) :: merged[k]
    {
      var key := LOOSE_KEYS[i];
      assert LOOSE_KEYS[..i + 1] == LOOSE_KEYS[..i] + [key];
      if key in form && IsEmpty(Some(form[key])) {
        form := form - {key};
      }
    }
    assert LOOSE_KEYS[..|LOOSE_KEYS|] == LOOSE_KEYS;
  }

  /** An observation arrives: the row is written when there is none, or when its form would change. */
  method Observe(env: Env, kind: Kind, incoming: Fields, stored: Option<Fields>, channelKind: string)
    returns (row: Fields, changed: bool, metrics: map<string, string>)
    ensures row == Arrive(env, kind, channelKind, incoming, stored)
    ensures changed <==> stored.None? || row != stored.value
    ensures metrics == Metrics(env, kind, incoming)
  {
    row, metrics := CanonicalMerge.CanonicalMerge(env, kind, incoming, stored, channelKind);
    changed := true;
    if stored.Some? {
      var before := CanonicalForm(env, kind, stored.value, channelKind);
      var after := CanonicalForm(env, kind, row, channelKind);
      changed := before != after;
      if !changed {
        row := stored.value;
      }
    }
  }

  ghost predicate Normalizes(env: Env) {
    forall s :: env.normalize(env.normalize(s)) == env.normalize(s)
  }

  // ---------------------------------------------------------------- fields of a stored payload

  function BaseOf(stored: Option<Fields>): Option<Value> {
    if stored.Some? then Some(Obj(stored.value)) else None
  }

  /** What a stored payload contributes to a field: nothing when it is of another entity. */
  function BaseField(env: Env, kind: Kind, incoming: Fields, stored: Option<Fields>, k: string): Option<Value> {
    if stored.Some? && Same(GuardOf(kind), Prepared(env, kind, incoming), stored.value) then At(stored.value, k) else None
  }

  lemma StoredField(env: Env, kind: Kind, channelKind: string, incoming: Fields, stored: Option<Fields>, k: string)
    ensures At(Store(env, kind, channelKind, incoming, stored), k) ==
      Merge(env, FieldRule(kind, channelKind, k), PreparedAt(env, kind, k, At(incoming, k)),
            BaseField(env, kind, incoming, stored, k))
  {
    var rule, v := RuleOf(kind, channelKind), Some(Obj(Prepared(env, kind, incoming)));
    PreparedFields(env, kind, incoming);
    ObjectMerge(env, rule, v, BaseOf(stored));
    RuleFields(kind, channelKind, k);
  }

  lemma StoredIdentity(env: Env, kind: Kind, channelKind: string, incoming: Fields, stored: Option<Fields>)
    ensures Identity(GuardOf(kind), Store(env, kind, channelKind, incoming, stored))
         == Identity(GuardOf(kind), Prepared(env, kind, incoming))
  {
    RulesAreProper(kind, channelKind);
    IdentityKept(env, RuleOf(kind, channelKind), Some(Obj(Prepared(env, kind, incoming))), BaseOf(stored));
  }

  /** What is stored is prepared: preparing it again changes no field. */
  lemma StoredIsPrepared(env: Env, kind: Kind, channelKind: string, incoming: Fields, stored: Option<Fields>, k: string)
    requires Normalizes(env)
    ensures var m := At(Store(env, kind, channelKind, incoming, stored), k); PreparedAt(env, kind, k, m) == m
  {
    StoredField(env, kind, channelKind, incoming, stored, k);
    var v, w := At(incoming, k), BaseField(env, kind, incoming, stored, k);
    FieldIsPreparedOnce(env, kind, k, v);
    if FieldRule(kind, channelKind, k) != Plain {
      if kind.ChannelEntity? && k == "thread_metadata" {
        MetadataStaysNormal(env, NormalMetadata(env, v), w);
      } else {
        MergedKeysAreNotPrepared(env, kind, channelKind, k, At(Store(env, kind, channelKind, incoming, stored), k));
      }
    }
  }

  /** No field but a thread's metadata is both merged and prepared. */
  lemma MergedKeysAreNotPrepared(env: Env, kind: Kind, channelKind: string, k: string, v: Option<Value>)
    requires FieldRule(kind, channelKind, k) != Plain && !(kind.ChannelEntity? && k == "thread_metadata")
    ensures PreparedAt(env, kind, k, v) == v
  {
  }

  /** The loose fields that are merged. */
  lemma LooseRules(kind: Kind, channelKind: string, k: string)
    requires k in LOOSE_KEYS
    ensures var r := FieldRule(kind, channelKind, k); r == Plain || r == Keep(EmptyList) || r == MENTIONS
  {
  }

  /** Keeping "invitable" leaves the times as they are. */
  lemma MetadataStaysNormal(env: Env, v: Option<Value>, w: Option<Value>)
    requires NormalMetadata(env, v) == v
    ensures NormalMetadata(env, Merge(env, INVITABLE, v, w)) == Merge(env, INVITABLE, v, w)
  {
    var m := Merge(env, INVITABLE, v, w);
    if IsObj(v) {
      ObjectMerge(env, INVITABLE, v, w);
      var f := m.value.fields;
      forall k ensures At(NormalMetadata(env, m).value.fields, k) == At(f, k) {
        assert At(NormalMetadata(env, v).value.fields, k) == At(v.value.fields, k);
      }
      SameFields(NormalMetadata(env, m).value.fields, f);
    }
  }

  // ---------------------------------------------------------------- forms are all that matters

  /** A merged field does not see how the stored one is prepared, nor how it is empty. */
  lemma FieldSeesForm(env: Env, kind: Kind, channelKind: string, k: string, v: Option<Value>, w: Option<Value>, x: Option<Value>)
    requires Close(k, PreparedAt(env, kind, k, w), PreparedAt(env, kind, k, x))
    ensures var r := FieldRule(kind, channelKind, k); Close(k, Merge(env, r, v, w), Merge(env, r, v, x))
  {
    var r := FieldRule(kind, channelKind, k);
    if r == Plain {
      return;
    }
    if kind.ChannelEntity? && k == "thread_metadata" {
      if r == INVITABLE {
        InvitableSeesForm(env, v, w);
        InvitableSeesForm(env, v, x);
      }
    } else {
      MergedKeysAreNotPrepared(env, kind, channelKind, k, w);
      MergedKeysAreNotPrepared(env, kind, channelKind, k, x);
      if w != x {
        LooseRules(kind, channelKind, k);
        LooseMerge(env, k, r, v, w, x);
      }
    }
  }

  lemma LooseMerge(env: Env, k: string, r: Rule, v: Option<Value>, w: Option<Value>, x: Option<Value>)
    requires k in LOOSE_KEYS && (r == Plain || r == Keep(EmptyList) || r == MENTIONS) && IsEmpty(w) && IsEmpty(x)
    ensures Close(k, Merge(env, r, v, w), Merge(env, r, v, x))
  {
    if r == MENTIONS {
      EmptyMentions(env, v, w);
      EmptyMentions(env, v, x);
    }
  }

  lemma InvitableSeesForm(env: Env, v: Option<Value>, w: Option<Value>)
    ensures Merge(env, INVITABLE, v, NormalMetadata(env, w)) == Merge(env, INVITABLE, v, w)
  {
    if IsObj(v) && IsObj(w) {
      var n := NormalMetadata(env, w);
      ObjectMerge(env, INVITABLE, v, w);
      ObjectMerge(env, INVITABLE, v, n);
      assert At(n.value.fields, "invitable") == At(w.value.fields, "invitable");
      SameFields(Merge(env, INVITABLE, v, n).value.fields, Merge(env, INVITABLE, v, w).value.fields);
    }
  }

  lemma EmptyMentions(env: Env, v: Option<Value>, w: Option<Value>)
    requires IsEmpty(w)
    ensures Merge(env, MENTIONS, v, w) == v
  {
    if IsList(v) && IsList(w) {
      RulesAreProper(Message, "");
      NestedRulesAreProper();
      EachMerge(env, MENTIONS, v, w);
      var items := Merge(env, MENTIONS, v, w).value.items;
      forall i | 0 <= i < |items| ensures items[i] == v.value.items[i] {
        assert Prior([], v.value.items[i]) == None;
        MergeNone(env, MENTIONS.item, Some(v.value.items[i]));
      }
      assert items == v.value.items;
    }
  }

  lemma FormHasIdentity(env: Env, kind: Kind, f: Fields, g: Fields)
    requires SameForm(env, kind, f, g)
    ensures Identity(GuardOf(kind), f) == Identity(GuardOf(kind), g)
  {
    var k := if kind.Member? then "user" else "id";
    assert Close(k, PreparedAt(env, kind, k, At(f, k)), PreparedAt(env, kind, k, At(g, k)));
    assert k !in LOOSE_KEYS;
    assert PreparedAt(env, kind, k, At(f, k)) == At(f, k) && PreparedAt(env, kind, k, At(g, k)) == At(g, k);
  }

  /** Over rows of the same form an observation stores payloads of the same form. */
  lemma StoreSeesForm(env: Env, kind: Kind, channelKind: string, incoming: Fields, f: Fields, g: Fields)
    requires Normalizes(env) && SameForm(env, kind, f, g)
    ensures SameForm(env, kind, Store(env, kind, channelKind, incoming, Some(f)), Store(env, kind, channelKind, incoming, Some(g)))
  {
    var m, n := Store(env, kind, channelKind, incoming, Some(f)), Store(env, kind, channelKind, incoming, Some(g));
    FormHasIdentity(env, kind, f, g);
    forall k ensures Close(k, PreparedAt(env, kind, k, At(m, k)), PreparedAt(env, kind, k, At(n, k))) {
      StoredIsPrepared(env, kind, channelKind, incoming, Some(f), k);
      StoredIsPrepared(env, kind, channelKind, incoming, Some(g), k);
      StoredField(env, kind, channelKind, incoming, Some(f), k);
      StoredField(env, kind, channelKind, incoming, Some(g), k);
      FieldSeesForm(env, kind, channelKind, k, PreparedAt(env, kind, k, At(incoming, k)), At(f, k), At(g, k));
    }
  }

  /** Written or not, the row has the form of what would have been stored. */
  lemma RowHasForm(env: Env, kind: Kind, channelKind: string, incoming: Fields, stored: Option<Fields>)
    ensures SameForm(env, kind, Arrive(env, kind, channelKind, incoming, stored), Store(env, kind, channelKind, incoming, stored))
  {
    FormsAgree(env, kind, Arrive(env, kind, channelKind, incoming, stored), Store(env, kind, channelKind, incoming, stored));
  }

  lemma SameFormAcross(env: Env, kind: Kind, f: Fields, g: Fields, m: Fields, n: Fields)
    requires SameForm(env, kind, f, g) && SameForm(env, kind, m, n)
    ensures SameForm(env, kind, f, m) <==> SameForm(env, kind, g, n)
  {
    FormsAgree(env, kind, f, g);
    FormsAgree(env, kind, m, n);
    FormsAgree(env, kind, f, m);
    FormsAgree(env, kind, g, n);
  }

  lemma SameFormThrough(env: Env, kind: Kind, f: Fields, g: Fields, h: Fields)
    requires SameForm(env, kind, f, g) && SameForm(env, kind, g, h)
    ensures SameForm(env, kind, f, h)
  {
    FormsAgree(env, kind, f, g);
    FormsAgree(env, kind, g, h);
    FormsAgree(env, kind, f, h);
  }

  /** A row is left alone exactly when storing over it keeps its form. */
  lemma LeftAlone(env: Env, kind: Kind, channelKind: string, incoming: Fields, row: Fields)
    ensures Arrive(env, kind, channelKind, incoming, Some(row)) == row
      <==> SameForm(env, kind, row, Store(env, kind, channelKind, incoming, Some(row)))
  {
    FormsAgree(env, kind, row, Store(env, kind, channelKind, incoming, Some(row)));
  }

  /** Rows of the same form are left alone by the same observations. */
  lemma LeftAloneSeesForm(env: Env, kind: Kind, channelKind: string, incoming: Fields, row: Fields, m: Fields)
    requires Normalizes(env) && SameForm(env, kind, row, m)
    ensures Arrive(env, kind, channelKind, incoming, Some(row)) == row
      <==> SameForm(env, kind, m, Store(env, kind, channelKind, incoming, Some(m)))
  {
    LeftAlone(env, kind, channelKind, incoming, row);
    StoreSeesForm(env, kind, channelKind, incoming, row, m);
    SameFormAcross(env, kind, row, m, Store(env, kind, channelKind, incoming, Some(row)),
                   Store(env, kind, channelKind, incoming, Some(m)));
  }

  /** Between stored payloads the form is a matter of their own fields. */
  lemma StoredForms(env: Env, kind: Kind, channelKind: string, a: Fields, f: Option<Fields>, b: Fields, g: Option<Fields>)
    requires Normalizes(env)
    ensures var m, n := Store(env, kind, channelKind, a, f), Store(env, kind, channelKind, b, g);
      SameForm(env, kind, m, n) <==> forall k :: Close(k, At(m, k), At(n, k))
  {
    var m, n := Store(env, kind, channelKind, a, f), Store(env, kind, channelKind, b, g);
    forall k
      ensures PreparedAt(env, kind, k, At(m, k)) == At(m, k) && PreparedAt(env, kind, k, At(n, k)) == At(n, k)
    {
      StoredIsPrepared(env, kind, channelKind, a, f, k);
      StoredIsPrepared(env, kind, channelKind, b, g, k);
    }
  }

  // ---------------------------------------------------------------- the same payload again

  /**
   An item of a mention list that leaves out a value must not find it in the last mention of the same user,
   unless the stored mention has it.
   */
  predicate Repeats(env: Env, kind: Kind, channelKind: string, incoming: Fields, stored: Option<Fields>) {
    RulesAreFlat(kind, channelKind);
    Repeatable(env, RuleOf(kind, channelKind), Some(Obj(Prepared(env, kind, incoming))), BaseOf(stored))
  }

  lemma SameAgain(env: Env, r: Rule, v: Option<Value>, w: Option<Value>)
    requires r == Plain || r == Keep(EmptyList) || r == MENTIONS
    requires IsEmpty(Merge(env, r, v, Merge(env, r, v, w))) && IsEmpty(Merge(env, r, v, w))
    ensures Merge(env, r, v, Merge(env, r, v, w)) == Merge(env, r, v, w)
  {
    if r == MENTIONS && IsList(v) {
      NestedRulesAreProper();
      EachMerge(env, r, v, w);
      EachMerge(env, r, v, Merge(env, r, v, w));
    }
  }

  /** When storing a payload over what it was stored as keeps the form, it keeps the payload. */
  lemma SameFormAgain(env: Env, kind: Kind, channelKind: string, incoming: Fields, stored: Option<Fields>)
    requires Normalizes(env)
    ensures var m := Store(env, kind, channelKind, incoming, stored);
      var again := Store(env, kind, channelKind, incoming, Some(m));
      SameForm(env, kind, m, again) <==> again == m
  {
    var m := Store(env, kind, channelKind, incoming, stored);
    var again := Store(env, kind, channelKind, incoming, Some(m));
    StoredForms(env, kind, channelKind, incoming, stored, incoming, Some(m));
    if SameForm(env, kind, m, again) {
      StoredIdentity(env, kind, channelKind, incoming, stored);
      forall k ensures At(again, k) == At(m, k) {
        StoredField(env, kind, channelKind, incoming, stored, k);
        StoredField(env, kind, channelKind, incoming, Some(m), k);
        assert Close(k, At(m, k), At(again, k));
        var r, v := FieldRule(kind, channelKind, k), PreparedAt(env, kind, k, At(incoming, k));
        MergeNone(env, r, v);
        if k in LOOSE_KEYS && IsEmpty(At(m, k)) && IsEmpty(At(again, k)) {
          LooseRules(kind, channelKind, k);
          if BaseField(env, kind, incoming, Some(m), k) == At(m, k) {
            SameAgain(env, r, v, BaseField(env, kind, incoming, stored, k));
          }
        }
      }
      SameFields(again, m);
    }
  }

  /** Storing the same payload again leaves the row alone exactly when its mentions repeat nothing. */
  lemma RestoringIsFixed(env: Env, kind: Kind, channelKind: string, incoming: Fields, stored: Option<Fields>)
    requires Normalizes(env) && Sortable(kind, incoming)
    ensures var once := Arrive(env, kind, channelKind, incoming, stored);
      Arrive(env, kind, channelKind, incoming, Some(once)) == once <==> Repeats(env, kind, channelKind, incoming, stored)
  {
    var once, m := Arrive(env, kind, channelKind, incoming, stored), Store(env, kind, channelKind, incoming, stored);
    RulesAreProper(kind, channelKind);
    RulesAreFlat(kind, channelKind);
    RowHasForm(env, kind, channelKind, incoming, stored);
    LeftAloneSeesForm(env, kind, channelKind, incoming, once, m);
    SameFormAgain(env, kind, channelKind, incoming, stored);
    MergeRepeats(env, RuleOf(kind, channelKind), Some(Obj(Prepared(env, kind, incoming))), BaseOf(stored));
  }

  // ---------------------------------------------------------------- two shapes of one observation

  /** Mention ids are distinct, also in a referenced message. */
  predicate WellFormed(kind: Kind, channelKind: string, f: Fields) {
    WellKeyed(RuleOf(kind, channelKind), Some(Obj(f)))
  }

  /** Two shapes of a field that do not keep replacing each other. */
  predicate FieldAgrees(env: Env, kind: Kind, channelKind: string, k: string, v: Option<Value>, w: Option<Value>,
                        base: Option<Value>)
  {
    Close(k, v, w) || Settles(env, FieldRule(kind, channelKind, k), v, w, base)
  }

  /**
   Two payloads that, once prepared, are observations of one entity and agree in every field; or that have
   the same form if they are not.
   */
  ghost predicate Agreeing(env: Env, kind: Kind, channelKind: string, a: Fields, b: Fields, stored: Option<Fields>) {
    var x, y := Prepared(env, kind, a), Prepared(env, kind, b);
    if Same(GuardOf(kind), x, y) then
      forall k :: FieldAgrees(env, kind, channelKind, k, At(x, k), At(y, k), BaseField(env, kind, a, stored, k))
    else forall k :: Close(k, At(x, k), At(y, k))
  }

  lemma LooseAlternates(env: Env, r: Rule, v: Option<Value>, w: Option<Value>, base: Option<Value>)
    requires r == Plain || r == Keep(EmptyList) || r == MENTIONS
    requires WellKeyed(r, v) && WellKeyed(r, w)
    ensures var settled := Merge(env, r, w, Merge(env, r, v, base)); var again := Merge(env, r, v, settled);
      again == settled || (IsEmpty(again) && IsEmpty(settled)) <==>
        Settles(env, r, v, w, base) || v == w || (IsEmpty(v) && IsEmpty(w))
  {
    NestedRulesAreProper();
    MergeSettles(env, r, v, w, base);
    if v == w {
      MergeIsFixed(env, r, v, base);
    }
    if r == MENTIONS {
      var first := Merge(env, r, v, base);
      if IsList(v) {
        EachMerge(env, r, v, base);
        EachMerge(env, r, v, Merge(env, r, w, first));
      }
      if IsList(w) {
        EachMerge(env, r, w, first);
      }
    }
  }

  lemma FieldAlternates(env: Env, kind: Kind, channelKind: string, k: string, v: Option<Value>, w: Option<Value>,
                        base: Option<Value>)
    requires WellKeyed(FieldRule(kind, channelKind, k), v) && WellKeyed(FieldRule(kind, channelKind, k), w)
    ensures var r := FieldRule(kind, channelKind, k); var settled := Merge(env, r, w, Merge(env, r, v, base));
      Close(k, Merge(env, r, v, settled), settled) <==> FieldAgrees(env, kind, channelKind, k, v, w, base)
  {
    var r := FieldRule(kind, channelKind, k);
    if k in LOOSE_KEYS {
      LooseRules(kind, channelKind, k);
      LooseAlternates(env, r, v, w, base);
    } else {
      FieldRuleIsProper(kind, channelKind, k);
      MergeSettles(env, r, v, w, base);
      if v == w {
        MergeIsFixed(env, r, v, base);
      }
    }
  }

  lemma FieldsAreWellKeyed(env: Env, kind: Kind, channelKind: string, f: Fields, k: string)
    requires WellFormed(kind, channelKind, f)
    ensures WellKeyed(FieldRule(kind, channelKind, k), At(f, k))
  {
    RuleFields(kind, channelKind, k);
  }

  /** One field of the first payload stored a second time, after the second one. */
  lemma AgainField(env: Env, kind: Kind, channelKind: string, a: Fields, b: Fields, stored: Option<Fields>, k: string)
    requires WellFormed(kind, channelKind, Prepared(env, kind, a)) && WellFormed(kind, channelKind, Prepared(env, kind, b))
    ensures var x, y := Prepared(env, kind, a), Prepared(env, kind, b);
      var settled := Store(env, kind, channelKind, b, Some(Store(env, kind, channelKind, a, stored)));
      var again := Store(env, kind, channelKind, a, Some(settled));
      Close(k, At(settled, k), At(again, k)) <==>
        if Same(GuardOf(kind), x, y)
        then FieldAgrees(env, kind, channelKind, k, At(x, k), At(y, k), BaseField(env, kind, a, stored, k))
        else Close(k, At(x, k), At(y, k))
  {
    var x, y, r := Prepared(env, kind, a), Prepared(env, kind, b), FieldRule(kind, channelKind, k);
    var first := Store(env, kind, channelKind, a, stored);
    var settled := Store(env, kind, channelKind, b, Some(first));
    PreparedFields(env, kind, a);
    PreparedFields(env, kind, b);
    StoredField(env, kind, channelKind, a, stored, k);
    StoredField(env, kind, channelKind, b, Some(first), k);
    StoredField(env, kind, channelKind, a, Some(settled), k);
    StoredIdentity(env, kind, channelKind, a, stored);
    StoredIdentity(env, kind, channelKind, b, Some(first));
    if Same(GuardOf(kind), x, y) {
      FieldsAreWellKeyed(env, kind, channelKind, x, k);
      FieldsAreWellKeyed(env, kind, channelKind, y, k);
      FieldAlternates(env, kind, channelKind, k, At(x, k), At(y, k), BaseField(env, kind, a, stored, k));
    } else {
      MergeNone(env, r, At(x, k));
      MergeNone(env, r, At(y, k));
    }
  }

  /** What two arrivals leave is left alone by the first payload exactly when the two agree. */
  lemma FirstLeavesIt(env: Env, kind: Kind, channelKind: string, a: Fields, b: Fields, stored: Option<Fields>)
    requires Normalizes(env) && Sortable(kind, a) && Sortable(kind, b)
    requires WellFormed(kind, channelKind, Prepared(env, kind, a)) && WellFormed(kind, channelKind, Prepared(env, kind, b))
    ensures var row := Arrive(env, kind, channelKind, b, Some(Arrive(env, kind, channelKind, a, stored)));
      Arrive(env, kind, channelKind, a, Some(row)) == row <==> Agreeing(env, kind, channelKind, a, b, stored)
  {
    var one := Arrive(env, kind, channelKind, a, stored);
    var row := Arrive(env, kind, channelKind, b, Some(one));
    var first := Store(env, kind, channelKind, a, stored);
    var settled := Store(env, kind, channelKind, b, Some(first));
    RowHasForm(env, kind, channelKind, a, stored);
    RowHasForm(env, kind, channelKind, b, Some(one));
    StoreSeesForm(env, kind, channelKind, b, one, first);
    SameFormThrough(env, kind, row, Store(env, kind, channelKind, b, Some(one)), settled);
    LeftAloneSeesForm(env, kind, channelKind, a, row, settled);
    StoredForms(env, kind, channelKind, b, Some(first), a, Some(settled));
    forall k
      ensures Close(k, At(settled, k), At(Store(env, kind, channelKind, a, Some(settled)), k)) <==>
        var x, y := Prepared(env, kind, a), Prepared(env, kind, b);
        if Same(GuardOf(kind), x, y)
        then FieldAgrees(env, kind, channelKind, k, At(x, k), At(y, k), BaseField(env, kind, a, stored, k))
        else Close(k, At(x, k), At(y, k))
    {
      AgainField(env, kind, channelKind, a, b, stored, k);
    }
  }

  /** Payloads with distinct mention ids repeat nothing. */
  lemma {:induction false} DistinctRepeatsNothing(env: Env, rule: Rule, v: Option<Value>, w: Option<Value>)
    requires Proper(rule) && Flat(rule) && WellKeyed(rule, v)
    ensures Repeatable(env, rule, v, w)
  {
    MergeRepeats(env, rule, v, w);
    MergeIsFixed(env, rule, v, w);
  }

  /** One after the other; true stands for the first payload. */
  function ArriveAll(env: Env, kind: Kind, channelKind: string, a: Fields, b: Fields, turns: seq<bool>, row: Fields): Fields {
    if turns == [] then row
    else
      ArriveAll(env, kind, channelKind, a, b, turns[1..],
                Arrive(env, kind, channelKind, if turns[0] then a else b, Some(row)))
  }

  lemma {:induction false} StaysStored(env: Env, kind: Kind, channelKind: string, a: Fields, b: Fields, turns: seq<bool>,
                                       row: Fields)
    requires Arrive(env, kind, channelKind, a, Some(row)) == row && Arrive(env, kind, channelKind, b, Some(row)) == row
    ensures ArriveAll(env, kind, channelKind, a, b, turns, row) == row
    decreases |turns|
  {
    if turns != [] {
      StaysStored(env, kind, channelKind, a, b, turns[1..], row);
    }
  }

  /** No further arrival of either payload rewrites the row. */
  ghost predicate Settled(env: Env, kind: Kind, channelKind: string, a: Fields, b: Fields, row: Fields) {
    forall turns: seq<bool> :: ArriveAll(env, kind, channelKind, a, b, turns, row) == row
  }

  /** After each has been stored once, no further arrival of either rewrites the row exactly when they agree. */
  lemma AlternationSettles(env: Env, kind: Kind, channelKind: string, a: Fields, b: Fields, stored: Option<Fields>)
    requires Normalizes(env) && Sortable(kind, a) && Sortable(kind, b)
    requires WellFormed(kind, channelKind, Prepared(env, kind, a)) && WellFormed(kind, channelKind, Prepared(env, kind, b))
    ensures var row := Arrive(env, kind, channelKind, b, Some(Arrive(env, kind, channelKind, a, stored)));
      Settled(env, kind, channelKind, a, b, row) <==> Agreeing(env, kind, channelKind, a, b, stored)
  {
    var row := Arrive(env, kind, channelKind, b, Some(Arrive(env, kind, channelKind, a, stored)));
    FirstLeavesIt(env, kind, channelKind, a, b, stored);
    SecondLeavesIt(env, kind, channelKind, b, Some(Arrive(env, kind, channelKind, a, stored)));
    SettledIsLeftAlone(env, kind, channelKind, a, b, row);
  }

  lemma SecondLeavesIt(env: Env, kind: Kind, channelKind: string, b: Fields, stored: Option<Fields>)
    requires Normalizes(env) && Sortable(kind, b) && WellFormed(kind, channelKind, Prepared(env, kind, b))
    ensures var row := Arrive(env, kind, channelKind, b, stored); Arrive(env, kind, channelKind, b, Some(row)) == row
  {
    RulesAreProper(kind, channelKind);
    RulesAreFlat(kind, channelKind);
    DistinctRepeatsNothing(env, RuleOf(kind, channelKind), Some(Obj(Prepared(env, kind, b))), BaseOf(stored));
    RestoringIsFixed(env, kind, channelKind, b, stored);
  }

  lemma SettledIsLeftAlone(env: Env, kind: Kind, channelKind: string, a: Fields, b: Fields, row: Fields)
    requires Arrive(env, kind, channelKind, b, Some(row)) == row
    ensures Settled(env, kind, channelKind, a, b, row) <==> Arrive(env, kind, channelKind, a, Some(row)) == row
  {
    var once := Arrive(env, kind, channelKind, a, Some(row));
    assert ArriveAll(env, kind, channelKind, a, b, [true], row) == once by {
      assert [true][1..] == [];
    }
    if once == row {
      forall turns ensures ArriveAll(env, kind, channelKind, a, b, turns, row) == row {
        StaysStored(env, kind, channelKind, a, b, turns, row);
      }
    }
  }

  /** Payloads that settle over an empty store settle over every store. */
  lemma AgreeingOverMore(env: Env, kind: Kind, channelKind: string, a: Fields, b: Fields, stored: Option<Fields>)
    requires Agreeing(env, kind, channelKind, a, b, None)
    ensures Agreeing(env, kind, channelKind, a, b, stored)
  {
    var x, y := Prepared(env, kind, a), Prepared(env, kind, b);
    if Same(GuardOf(kind), x, y) {
      forall k ensures FieldAgrees(env, kind, channelKind, k, At(x, k), At(y, k), BaseField(env, kind, a, stored, k)) {
        assert FieldAgrees(env, kind, channelKind, k, At(x, k), At(y, k), BaseField(env, kind, a, None, k));
        if !Close(k, At(x, k), At(y, k)) {
          SettlesOverMore(env, FieldRule(kind, channelKind, k), At(x, k), At(y, k), BaseField(env, kind, a, stored, k));
        }
      }
    }
  }

  // ---------------------------------------------------------------- known values of a row

  predicate PayloadKnows(env: Env, kind: Kind, channelKind: string, f: Fields, place: Place) {
    KnownAt(env, RuleOf(kind, channelKind), Some(Obj(f)), place)
  }

  /** The incoming payload has the entity and, for a nested value, the object or the item it is in. */
  predicate PayloadCarries(env: Env, kind: Kind, channelKind: string, incoming: Fields, stored: Fields, place: Place) {
    Carries(RuleOf(kind, channelKind), Some(Obj(Prepared(env, kind, incoming))), Some(Obj(stored)), place)
  }

  /** What is stored knows a value exactly when the incoming payload does, or carries its place and the row did. */
  lemma KnownNeverLost(env: Env, kind: Kind, channelKind: string, incoming: Fields, stored: Fields, place: Place)
    ensures PayloadKnows(env, kind, channelKind, Store(env, kind, channelKind, incoming, Some(stored)), place) <==>
      || PayloadKnows(env, kind, channelKind, Prepared(env, kind, incoming), place)
      || (PayloadKnows(env, kind, channelKind, stored, place)
          && PayloadCarries(env, kind, channelKind, incoming, stored, place))
  {
    RulesAreProper(kind, channelKind);
    KnownIsKept(env, RuleOf(kind, channelKind), Some(Obj(Prepared(env, kind, incoming))), Some(Obj(stored)), place);
  }

  /** A row loses a value it knows exactly when a payload that neither knows it nor carries its place rewrites it. */
  lemma RowLosesExactly(env: Env, kind: Kind, channelKind: string, incoming: Fields, stored: Fields, place: Place)
    requires PayloadKnows(env, kind, channelKind, stored, place)
    ensures !PayloadKnows(env, kind, channelKind, Arrive(env, kind, channelKind, incoming, Some(stored)), place) <==>
      && Arrive(env, kind, channelKind, incoming, Some(stored)) != stored
      && !PayloadKnows(env, kind, channelKind, Prepared(env, kind, incoming), place)
      && !PayloadCarries(env, kind, channelKind, incoming, stored, place)
  {
    KnownNeverLost(env, kind, channelKind, incoming, stored, place);
  }

  /** A field of the payload itself is carried by every observation of the same entity. */
  lemma OwnFieldsAreCarried(env: Env, kind: Kind, channelKind: string, incoming: Fields, stored: Fields, k: string)
    requires FieldRule(kind, channelKind, k).Keep?
    ensures PayloadCarries(env, kind, channelKind, incoming, stored, Under(k, Here))
      <==> Same(GuardOf(kind), Prepared(env, kind, incoming), stored)
  {
    RuleFields(kind, channelKind, k);
    var rule := RuleOf(kind, channelKind);
    assert Carries(rule.fields[k], At(Prepared(env, kind, incoming), k), At(stored, k), Here);
  }

  // ---------------------------------------------------------------- inputs

  const ONE: Value := Str("1")

  /** A payload with one field besides its id. */
  function With(key: string, v: Value): Fields {
    map["id" := ONE, key := v]
  }

  lemma FieldsOf(key: string, v: Value)
    requires key != "id"
    ensures At(With(key, v), "id") == Some(ONE) && At(With(key, v), key) == Some(v)
    ensures forall k :: k != "id" && k != key ==> At(With(key, v), k) == None
  {
  }

  const FLAGGED: Value := Obj(map["id" := Str("7"), "flags" := Num("64")])
  const FLAGS: Place := Under("flags", Here)

  lemma FlagsAreKnown(env: Env)
    requires !env.zero("64")
    ensures KnownAt(env, USER, Some(FLAGGED), FLAGS) && !KnownAt(env, USER, Some(Null), FLAGS)
    ensures !Carries(USER, Some(Null), Some(FLAGGED), FLAGS)
  {
    assert At(FLAGGED.fields, "flags") == Some(Num("64"));
    assert KnownAt(env, Keep(Zero), At(FLAGGED.fields, "flags"), Here);
  }

  /** Through a message's author the same is said of the message. */
  lemma AuthorKnows(env: Env, f: Fields, place: Place)
    ensures PayloadKnows(env, Message, "", f, Under("author", place)) <==> KnownAt(env, USER, At(f, "author"), place)
  {
    RuleFields(Message, "", "author");
  }

  lemma AuthorCarries(env: Env, f: Fields, g: Fields, place: Place)
    ensures PayloadCarries(env, Message, "", f, g, Under("author", place)) ==>
      Carries(USER, At(Prepared(env, Message, f), "author"), At(g, "author"), place)
  {
    RuleFields(Message, "", "author");
  }

  /** A field that is stored in another form rewrites the row. */
  lemma FieldRewrites(env: Env, kind: Kind, channelKind: string, incoming: Fields, row: Fields, k: string)
    requires var merged := Store(env, kind, channelKind, incoming, Some(row));
      !Close(k, PreparedAt(env, kind, k, At(row, k)), PreparedAt(env, kind, k, At(merged, k)))
    ensures Arrive(env, kind, channelKind, incoming, Some(row)) != row
  {
    LeftAlone(env, kind, channelKind, incoming, row);
  }

  lemma NullAuthorIsMerged(env: Env)
    ensures At(Store(env, Message, "", With("author", Null), Some(With("author", FLAGGED))), "author") == Some(Null)
  {
    FieldsOf("author", Null);
    StoredField(env, Message, "", With("author", Null), Some(With("author", FLAGGED)), "author");
    RuleFields(Message, "", "author");
  }

  /** The null author is written. */
  lemma NullAuthorIsWritten(env: Env)
    ensures Arrive(env, Message, "", With("author", Null), Some(With("author", FLAGGED))) != With("author", FLAGGED)
  {
    FieldsOf("author", FLAGGED);
    NullAuthorIsMerged(env);
    FieldRewrites(env, Message, "", With("author", Null), With("author", FLAGGED), "author");
  }

  /** A message whose author is nulled by the other transport loses the author's flags. */
  lemma NullAuthorLosesFlags(env: Env)
    requires !env.zero("64")
    ensures var stored := With("author", FLAGGED); var row := Arrive(env, Message, "", With("author", Null), Some(stored));
      && PayloadKnows(env, Message, "", stored, Under("author", FLAGS))
      && !PayloadKnows(env, Message, "", row, Under("author", FLAGS))
  {
    var stored, incoming := With("author", FLAGGED), With("author", Null);
    FlagsAreKnown(env);
    FieldsOf("author", FLAGGED);
    FieldsOf("author", Null);
    PreparedFields(env, Message, incoming);
    AuthorKnows(env, stored, FLAGS);
    AuthorKnows(env, Prepared(env, Message, incoming), FLAGS);
    AuthorCarries(env, incoming, stored, FLAGS);
    NullAuthorIsWritten(env);
    RowLosesExactly(env, Message, "", incoming, stored, Under("author", FLAGS));
  }

  /** A guild's field that is neither prepared nor a list by id. */
  predicate Ordinary(key: string) {
    key != "id" && key != "features" && key !in GUILD_METRICS && !FieldRule(Guild, "", key).Each?
  }

  lemma PreparedWith(env: Env, key: string, v: Value)
    requires Ordinary(key)
    ensures var x := Prepared(env, Guild, With(key, v)); forall k :: At(x, k) == At(With(key, v), k)
    ensures WellFormed(Guild, "", Prepared(env, Guild, With(key, v)))
  {
    FieldsOf(key, v);
    PreparedFields(env, Guild, With(key, v));
    var fields, x := RuleOf(Guild, "").fields, Prepared(env, Guild, With(key, v));
    forall k | k in fields ensures WellKeyed(fields[k], At(x, k)) {
      RuleFields(Guild, "", k);
    }
  }

  lemma GuildsAgree(env: Env, key: string, v: Value, w: Value)
    requires Ordinary(key)
    ensures Agreeing(env, Guild, "", With(key, v), With(key, w), None)
      <==> FieldAgrees(env, Guild, "", key, Some(v), Some(w), None)
  {
    PreparedWith(env, key, v);
    PreparedWith(env, key, w);
    FieldsOf(key, v);
    FieldsOf(key, w);
    var x, y := Prepared(env, Guild, With(key, v)), Prepared(env, Guild, With(key, w));
    assert Same(GuardOf(Guild), x, y);
    forall k ensures k != key ==> FieldAgrees(env, Guild, "", k, At(x, k), At(y, k), None) {
      if k != key {
        assert At(x, k) == At(y, k);
      }
    }
    assert BaseField(env, Guild, With(key, v), None, key) == None;
  }

  /** Two guilds that differ in one field stop rewriting each other's row. */
  ghost predicate GuildsSettle(env: Env, key: string, v: Value, w: Value) {
    var a, b := With(key, v), With(key, w);
    Settled(env, Guild, "", a, b, Arrive(env, Guild, "", b, Some(Arrive(env, Guild, "", a, None))))
  }

  lemma GuildsSettleExactly(env: Env, key: string, v: Value, w: Value)
    requires Normalizes(env) && Ordinary(key)
    ensures GuildsSettle(env, key, v, w) <==> FieldAgrees(env, Guild, "", key, Some(v), Some(w), None)
  {
    GuildsAgree(env, key, v, w);
    PreparedWith(env, key, v);
    PreparedWith(env, key, w);
    AlternationSettles(env, Guild, "", With(key, v), With(key, w), None);
  }

  lemma LargeDisagrees(env: Env)
    ensures !FieldAgrees(env, Guild, "", "large", Some(Null), Some(Bool(false)), None)
  {
    assert FieldRule(Guild, "", "large") == Keep(Zero);
  }

  /** Null and false in a guild's "large" rewrite the row for ever. */
  lemma PlaceholdersAlternate(env: Env)
    requires Normalizes(env)
    ensures !GuildsSettle(env, "large", Null, Bool(false))
  {
    GuildsSettleExactly(env, "large", Null, Bool(false));
    LargeDisagrees(env);
  }

  /** Null and the empty list in a guild's "channels" do not, though both are placeholders. */
  lemma EmptyListsSettle(env: Env)
    requires Normalizes(env)
    ensures GuildsSettle(env, "channels", Null, List([]))
  {
    GuildsSettleExactly(env, "channels", Null, List([]));
  }

  function Mention(flags: string): Value {
    Obj(map["id" := ONE, "flags" := Num(flags)])
  }

  /** A user mentioned twice, first without flags: the second time the payload arrives the row is rewritten. */
  lemma RepeatedMentionRewrites(env: Env)
    requires Normalizes(env) && env.zero("0") && !env.zero("5")
    ensures var incoming := With("mentions", List([Mention("0"), Mention("5")]));
      var once := Arrive(env, Message, "", incoming, None);
      Arrive(env, Message, "", incoming, Some(once)) != once
  {
    var items := [Mention("0"), Mention("5")];
    var incoming := With("mentions", List(items));
    FieldsOf("mentions", List(items));
    SecondMentionWins(env, items);
    MessageRepeats(env, incoming, items);
    RestoringIsFixed(env, Message, "", incoming, None);
  }

  lemma MessageRepeats(env: Env, f: Fields, items: seq<Value>)
    requires At(f, "id") == Some(ONE) && At(f, "mentions") == Some(List(items))
    requires Flat(MENTIONS) && !Repeatable(env, MENTIONS, Some(List(items)), None)
    ensures !Repeats(env, Message, "", f, None)
  {
    PreparedFields(env, Message, f);
    RulesAreFlat(Message, "");
    RuleFields(Message, "", "mentions");
    var x := Prepared(env, Message, f);
    assert At(x, "id") == Some(ONE) && At(x, "mentions") == Some(List(items));
    assert BaseAt(RuleOf(Message, ""), Some(Obj(x)), None, "mentions") == None;
  }

  lemma SecondMentionWins(env: Env, items: seq<Value>)
    requires items == [Mention("0"), Mention("5")] && env.zero("0") && !env.zero("5")
    ensures Flat(MENTIONS) && !Repeatable(env, MENTIONS, Some(List(items)), None)
  {
    RulesAreFlat(Message, "");
    RuleFields(Message, "", "mentions");
    assert Flat(RuleOf(Message, "").fields["mentions"]);
    assert Find(items, ONE) == Some(items[1]);
    assert !ItemRepeats(env, MENTIONS.item, items[0], items[1], None) by {
      assert "flags" in MENTIONS.item.fields;
      assert !Known(env, Zero, At(items[0].fields, "flags")) && Known(env, Zero, At(items[1].fields, "flags"));
    }
  }
}
