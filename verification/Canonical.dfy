/**
 The one stored form of a provider payload (internal/store/canonical.go): what a payload is merged into
 when it is stored over an earlier observation of the same entity, and why REST and Gateway shapes of
 one entity stop rewriting each other.

 Payloads are decoded JSON objects.  Every edit of the merge is local to a key, so the merge is described
 by a rule per key; `CanonicalMerge` does it step by step.
 */
module Canonical {
  import opened Options

  datatype Value =
    | Null
    | Bool(b: bool)
    | Str(s: string)
    | Num(text: string)
    | List(items: seq<Value>)
    | Obj(fields: map<string, Value>)

  type Fields = map<string, Value>

  /** Whether a number's text is zero or representable, and the provider time normalisation. */
  datatype Env = Env(zero: string -> bool, finite: string -> bool, normalize: string -> string)

  /** What counts as not supplied by a transport. */
  datatype Placeholder = Zero | EmptyList | ZeroOrDeprecated

  /** The value read for a key: null when absent. */
  function ValueOf(v: Option<Value>): Value {
    if v.Some? then v.value else Null
  }

  function Get(f: Fields, key: string): Value {
    ValueOf(At(f, key))
  }

  predicate IsZero(env: Env, v: Value) {
    match v
    case Null => true
    case Bool(b) => !b
    case Str(s) => s == "" || s == "0001-01-01T00:00:00Z"
    case Num(text) => env.zero(text)
    case Obj(fields) => fields == map[]
    case List(_) => false
  }

  predicate IsPlaceholder(env: Env, p: Placeholder, v: Value) {
    match p
    case Zero => IsZero(env, v)
    case EmptyList => v == Null || v == List([])
    case ZeroOrDeprecated => IsZero(env, v) || v == Str("deprecated")
  }

  predicate Known(env: Env, p: Placeholder, v: Option<Value>) {
    !IsPlaceholder(env, p, ValueOf(v))
  }

  // ---------------------------------------------------------------- merge rules

  /** When two objects are observations of the same thing. */
  datatype Guard = Always | SameId | KnownId | KnownUserId

  datatype Rule =
    | Plain                                            // the incoming value
    | Keep(placeholder: Placeholder)                   // a known stored value unless the incoming one is known
    | Object(guard: Guard, fields: map<string, Rule>)  // field by field
    | Each(item: Rule)                                 // list items by id

  function Identity(guard: Guard, f: Fields): Value {
    match guard
    case Always => Null
    case SameId => Get(f, "id")
    case KnownId => Get(f, "id")
    case KnownUserId => if Get(f, "user").Obj? then Get(Get(f, "user").fields, "id") else Null
  }

  predicate Same(guard: Guard, a: Fields, b: Fields) {
    && Identity(guard, a) == Identity(guard, b)
    && (guard.KnownId? || guard.KnownUserId? ==> Identity(guard, a) != Null)
  }

  /** The last object with an id, as in a table filled from the list. */
  function Find(items: seq<Value>, id: Value): Option<Value> {
    if items == [] then None
    else
      var last := items[|items| - 1];
      if last.Obj? && Get(last.fields, "id") == id then Some(last) else Find(items[..|items| - 1], id)
  }

  function Prior(items: seq<Value>, v: Value): Option<Value> {
    if v.Obj? then Find(items, Get(v.fields, "id")) else None
  }

  /** A known stored value survives an incoming placeholder. */
  function Kept(env: Env, p: Placeholder, v: Option<Value>, w: Option<Value>): Option<Value> {
    if !Known(env, p, v) && Known(env, p, w) then w else v
  }

  function Merge(env: Env, rule: Rule, v: Option<Value>, w: Option<Value>): Option<Value>
    decreases rule
  {
    match rule
    case Plain => v
    case Keep(p) => Kept(env, p, v, w)
    case Object(guard, fields) =>
      if v.Some? && v.value.Obj? && w.Some? && w.value.Obj? && Same(guard, v.value.fields, w.value.fields) then
        var vf, wf := v.value.fields, w.value.fields;
        Some(Obj(map k | k in vf.Keys + fields.Keys
                       && (if k in fields then Merge(env, fields[k], At(vf, k), At(wf, k)).Some? else true)
                   :: if k in fields then Merge(env, fields[k], At(vf, k), At(wf, k)).value else vf[k]))
      else v
    case Each(item) =>
      if v.Some? && v.value.List? && w.Some? && w.value.List? then
        var vs, ws := v.value.items, w.value.items;
        Some(List(seq(|vs|, i requires 0 <= i < |vs| => ValueOf(Merge(env, item, Some(vs[i]), Prior(ws, vs[i]))))))
      else v
  }

  /** Rules keep the field that identifies an object. */
  predicate Proper(rule: Rule)
    decreases rule
  {
    match rule
    case Plain => true
    case Keep(_) => true
    case Object(guard, fields) =>
      && "id" !in fields
      && (guard.KnownUserId? && "user" in fields ==> fields["user"].Object?)
      && forall k :: k in fields ==> Proper(fields[k])
    case Each(item) => item.Object? && item.guard.SameId? && Proper(item)
  }

  // ---------------------------------------------------------------- the merge, seen from outside

  predicate IsObj(v: Option<Value>) {
    v.Some? && v.value.Obj?
  }

  predicate IsList(v: Option<Value>) {
    v.Some? && v.value.List?
  }

  /** The base of an object merge, nothing when it is another object. */
  function BaseAt(rule: Rule, v: Option<Value>, w: Option<Value>, k: string): Option<Value>
    requires rule.Object? && IsObj(v)
  {
    if IsObj(w) && Same(rule.guard, v.value.fields, w.value.fields) then At(w.value.fields, k) else None
  }

  lemma MergeNone(env: Env, rule: Rule, v: Option<Value>)
    ensures Merge(env, rule, v, None) == v
  {
  }

  /** An object merge is a merge of each field. */
  lemma ObjectMerge(env: Env, rule: Rule, v: Option<Value>, w: Option<Value>)
    requires rule.Object? && IsObj(v)
    ensures var m := Merge(env, rule, v, w);
      && IsObj(m)
      && forall k :: At(m.value.fields, k) ==
           if k in rule.fields then Merge(env, rule.fields[k], At(v.value.fields, k), BaseAt(rule, v, w, k))
           else At(v.value.fields, k)
  {
    var m := Merge(env, rule, v, w);
    if IsObj(w) && Same(rule.guard, v.value.fields, w.value.fields) {
    } else {
      forall k | k in rule.fields ensures Merge(env, rule.fields[k], At(v.value.fields, k), None) == At(v.value.fields, k) {
        MergeNone(env, rule.fields[k], At(v.value.fields, k));
      }
    }
  }

  lemma SameFields(a: Fields, b: Fields)
    requires forall k :: At(a, k) == At(b, k)
    ensures a == b
  {
    forall k ensures k in a <==> k in b {
      assert At(a, k) == At(b, k);
    }
    forall k | k in a ensures a[k] == b[k] {
      assert At(a, k) == At(b, k);
    }
  }

  /** Merging does not change what an object is an observation of. */
  lemma IdentityKept(env: Env, rule: Rule, v: Option<Value>, w: Option<Value>)
    requires rule.Object? && Proper(rule) && IsObj(v)
    ensures var m := Merge(env, rule, v, w);
      && IsObj(m) && Identity(rule.guard, m.value.fields) == Identity(rule.guard, v.value.fields)
      && Get(m.value.fields, "id") == Get(v.value.fields, "id")
  {
    ObjectMerge(env, rule, v, w);
    var m := Merge(env, rule, v, w);
    assert At(m.value.fields, "id") == At(v.value.fields, "id");
    if rule.guard.KnownUserId? {
      var u := At(v.value.fields, "user");
      if "user" in rule.fields {
        var user := rule.fields["user"];
        if IsObj(u) {
          ObjectMerge(env, user, u, BaseAt(rule, v, w, "user"));
          assert At(Merge(env, user, u, BaseAt(rule, v, w, "user")).value.fields, "id") == At(u.value.fields, "id");
        }
        assert At(m.value.fields, "user") == Merge(env, user, u, BaseAt(rule, v, w, "user"));
      } else {
        assert At(m.value.fields, "user") == u;
      }
    }
  }

  // ---------------------------------------------------------------- lists of identified objects

  predicate DistinctIds(items: seq<Value>) {
    forall i, j :: 0 <= i < j < |items| && items[i].Obj? && items[j].Obj? ==>
      Get(items[i].fields, "id") != Get(items[j].fields, "id")
  }

  lemma {:induction false} FindOnly(items: seq<Value>, i: nat)
    requires DistinctIds(items) && i < |items| && items[i].Obj?
    ensures Find(items, Get(items[i].fields, "id")) == Some(items[i])
    decreases |items|
  {
    var n := |items| - 1;
    if i < n {
      FindOnly(items[..n], i);
    }
  }

  /** A merged list has the same items by id. */
  lemma EachMerge(env: Env, rule: Rule, v: Option<Value>, w: Option<Value>)
    requires rule.Each? && Proper(rule) && IsList(v)
    ensures var m, base := Merge(env, rule, v, w), if IsList(w) then w.value.items else [];
      && IsList(m) && |m.value.items| == |v.value.items|
      && forall i :: 0 <= i < |v.value.items| ==>
           var x := v.value.items[i];
           && Some(m.value.items[i]) == Merge(env, rule.item, Some(x), Prior(base, x))
           && m.value.items[i].Obj? == x.Obj?
           && (x.Obj? ==> Get(m.value.items[i].fields, "id") == Get(x.fields, "id"))
  {
    var m, base := Merge(env, rule, v, w), if IsList(w) then w.value.items else [];
    forall i | 0 <= i < |v.value.items|
      ensures var x := v.value.items[i];
        && Some(m.value.items[i]) == Merge(env, rule.item, Some(x), Prior(base, x))
        && m.value.items[i].Obj? == x.Obj?
        && (x.Obj? ==> Get(m.value.items[i].fields, "id") == Get(x.fields, "id"))
    {
      var x := v.value.items[i];
      MergeNone(env, rule.item, Some(x));
      if x.Obj? {
        IdentityKept(env, rule.item, Some(x), Prior(base, x));
      }
    }
  }

  lemma EachMergeDistinct(env: Env, rule: Rule, v: Option<Value>, w: Option<Value>)
    requires rule.Each? && Proper(rule) && IsList(v) && DistinctIds(v.value.items)
    ensures var m := Merge(env, rule, v, w);
      && IsList(m) && DistinctIds(m.value.items)
      && forall i :: 0 <= i < |v.value.items| && v.value.items[i].Obj? ==>
           Prior(m.value.items, v.value.items[i]) == Some(m.value.items[i])
  {
    EachMerge(env, rule, v, w);
    var m := Merge(env, rule, v, w);
    forall i | 0 <= i < |v.value.items| && v.value.items[i].Obj?
      ensures Prior(m.value.items, v.value.items[i]) == Some(m.value.items[i])
    {
      FindOnly(m.value.items, i);
    }
  }

  /** Every list merged by id has distinct ids. */
  predicate WellKeyed(rule: Rule, v: Option<Value>)
    decreases rule
  {
    match rule
    case Plain => true
    case Keep(_) => true
    case Object(_, fields) => IsObj(v) ==> forall k :: k in fields ==> WellKeyed(fields[k], At(v.value.fields, k))
    case Each(item) =>
      IsList(v) ==>
        DistinctIds(v.value.items) && forall i :: 0 <= i < |v.value.items| ==> WellKeyed(item, Some(v.value.items[i]))
  }

  /** Merging a payload over its own merge changes nothing. */
  lemma {:induction false} MergeIsFixed(env: Env, rule: Rule, v: Option<Value>, w: Option<Value>)
    requires Proper(rule) && WellKeyed(rule, v)
    ensures Merge(env, rule, v, Merge(env, rule, v, w)) == Merge(env, rule, v, w)
    decreases rule
  {
    var m := Merge(env, rule, v, w);
    if rule.Object? && IsObj(v) {
      ObjectMerge(env, rule, v, w);
      ObjectMerge(env, rule, v, m);
      IdentityKept(env, rule, v, w);
      var again := Merge(env, rule, v, m);
      forall k ensures At(again.value.fields, k) == At(m.value.fields, k) {
        if k in rule.fields {
          MergeIsFixed(env, rule.fields[k], At(v.value.fields, k), BaseAt(rule, v, w, k));
          MergeNone(env, rule.fields[k], At(v.value.fields, k));
        }
      }
      SameFields(again.value.fields, m.value.fields);
    } else if rule.Each? && IsList(v) {
      EachMerge(env, rule, v, w);
      EachMergeDistinct(env, rule, v, w);
      EachMerge(env, rule, v, m);
      var again, base := Merge(env, rule, v, m), if IsList(w) then w.value.items else [];
      forall i | 0 <= i < |v.value.items| ensures again.value.items[i] == m.value.items[i] {
        var x := v.value.items[i];
        MergeNone(env, rule.item, Some(x));
        if x.Obj? {
          MergeIsFixed(env, rule.item, Some(x), Prior(base, x));
        }
      }
      assert again.value.items == m.value.items;
    }
  }

  // ---------------------------------------------------------------- lists with repeated ids

  /** Looking an id up in a merged list is merging what is looked up. */
  lemma {:induction false} FindMerged(env: Env, item: Rule, vs: seq<Value>, ws: seq<Value>, ms: seq<Value>, id: Value)
    requires item.Object? && item.guard.SameId? && Proper(item) && |ms| == |vs|
    requires forall i :: 0 <= i < |vs| ==>
      Some(ms[i]) == Merge(env, item, Some(vs[i]), Prior(ws, vs[i]))
      && ms[i].Obj? == vs[i].Obj? && (vs[i].Obj? ==> Get(ms[i].fields, "id") == Get(vs[i].fields, "id"))
    ensures Find(ms, id).None? <==> Find(vs, id).None?
    ensures Find(vs, id).Some? ==> Find(ms, id) == Merge(env, item, Find(vs, id), Find(ws, id))
    decreases |vs|
  {
    if vs != [] {
      var n := |vs| - 1;
      FindMerged(env, item, vs[..n], ws, ms[..n], id);
    }
  }

  lemma {:induction false} FindHasId(items: seq<Value>, id: Value)
    ensures var r := Find(items, id); r.Some? ==> r.value.Obj? && Get(r.value.fields, "id") == id
  {
    if items != [] {
      FindHasId(items[..|items| - 1], id);
    }
  }

  lemma {:induction false} FindSome(items: seq<Value>, i: nat)
    requires i < |items| && items[i].Obj?
    ensures Find(items, Get(items[i].fields, "id")).Some?
    decreases |items|
  {
    if i < |items| - 1 {
      FindSome(items[..|items| - 1], i);
    }
  }

  /** The items of merged lists only have kept fields. */
  predicate Flat(rule: Rule)
    decreases rule
  {
    match rule
    case Plain => true
    case Keep(_) => true
    case Object(_, fields) => forall k :: k in fields ==> Flat(fields[k])
    case Each(item) => item.Object? && forall k :: k in item.fields ==> item.fields[k].Keep?
  }

  /** An item and the last one with its id, in a list stored over another one. */
  predicate ItemRepeats(env: Env, item: Rule, x: Value, last: Value, prior: Option<Value>)
    requires item.Object? && x.Obj? && last.Obj? && forall k :: k in item.fields ==> item.fields[k].Keep?
  {
    forall k :: k in item.fields ==>
      var p := item.fields[k].placeholder;
      || Known(env, p, At(x.fields, k)) || !Known(env, p, At(last.fields, k))
      || BaseAt(item, Some(x), prior, k) == At(last.fields, k)
  }

  /**
   An item of a list that leaves out a value finds it in the last item with the same id only if the stored
   list has the very same value.
   */
  predicate Repeatable(env: Env, rule: Rule, v: Option<Value>, w: Option<Value>)
    requires Flat(rule)
    decreases rule
  {
    match rule
    case Plain => true
    case Keep(_) => true
    case Object(guard, fields) =>
      IsObj(v) && Same(guard, v.value.fields, v.value.fields) ==>
        forall k :: k in fields ==> Repeatable(env, fields[k], At(v.value.fields, k), BaseAt(rule, v, w, k))
    case Each(item) =>
      IsList(v) ==>
        var items, base := v.value.items, if IsList(w) then w.value.items else [];
        forall i :: 0 <= i < |items| && items[i].Obj? ==>
          var last := Find(items, Get(items[i].fields, "id"));
          IsObj(last) ==> ItemRepeats(env, item, items[i], last.value, Prior(base, items[i]))
  }

  lemma ItemAgain(env: Env, item: Rule, x: Value, last: Value, prior: Option<Value>)
    requires item.Object? && item.guard.SameId? && x.Obj? && last.Obj? && Get(x.fields, "id") == Get(last.fields, "id")
    requires Proper(item) && forall k :: k in item.fields ==> item.fields[k].Keep?
    ensures Merge(env, item, Some(x), Merge(env, item, Some(last), prior)) == Merge(env, item, Some(x), prior)
      <==> ItemRepeats(env, item, x, last, prior)
  {
    var inner := Merge(env, item, Some(last), prior);
    var again, m := Merge(env, item, Some(x), inner), Merge(env, item, Some(x), prior);
    ObjectMerge(env, item, Some(last), prior);
    IdentityKept(env, item, Some(last), prior);
    ObjectMerge(env, item, Some(x), inner);
    ObjectMerge(env, item, Some(x), prior);
    forall k | k in item.fields
      ensures At(again.value.fields, k) == At(m.value.fields, k) <==>
        var p := item.fields[k].placeholder;
        || Known(env, p, At(x.fields, k)) || !Known(env, p, At(last.fields, k))
        || BaseAt(item, Some(x), prior, k) == At(last.fields, k)
    {
      assert BaseAt(item, Some(last), prior, k) == BaseAt(item, Some(x), prior, k);
      assert BaseAt(item, Some(x), inner, k) == At(inner.value.fields, k);
    }
    if ItemRepeats(env, item, x, last, prior) {
      forall k ensures At(again.value.fields, k) == At(m.value.fields, k) {
      }
      SameFields(again.value.fields, m.value.fields);
    }
  }

  /** Merging a payload over its own merge changes nothing exactly when its lists are repeatable. */
  lemma {:induction false} MergeRepeats(env: Env, rule: Rule, v: Option<Value>, w: Option<Value>)
    requires Proper(rule) && Flat(rule)
    ensures Merge(env, rule, v, Merge(env, rule, v, w)) == Merge(env, rule, v, w) <==> Repeatable(env, rule, v, w)
    decreases rule
  {
    if rule.Object? && IsObj(v) {
      ObjectRepeats(env, rule, v, w);
    } else if rule.Each? && IsList(v) {
      EachRepeats(env, rule, v, w);
    }
  }

  lemma {:induction false} ObjectRepeats(env: Env, rule: Rule, v: Option<Value>, w: Option<Value>)
    requires Proper(rule) && Flat(rule) && rule.Object? && IsObj(v)
    ensures Merge(env, rule, v, Merge(env, rule, v, w)) == Merge(env, rule, v, w) <==> Repeatable(env, rule, v, w)
    decreases rule, 0
  {
    var m := Merge(env, rule, v, w);
    var again := Merge(env, rule, v, m);
    ObjectMerge(env, rule, v, w);
    ObjectMerge(env, rule, v, m);
    IdentityKept(env, rule, v, w);
    if !Same(rule.guard, v.value.fields, v.value.fields) {
      return;
    }
    forall k
      ensures At(again.value.fields, k) == At(m.value.fields, k) <==>
        (k in rule.fields ==> Repeatable(env, rule.fields[k], At(v.value.fields, k), BaseAt(rule, v, w, k)))
    {
      if k in rule.fields {
        MergeRepeats(env, rule.fields[k], At(v.value.fields, k), BaseAt(rule, v, w, k));
      }
    }
    if Repeatable(env, rule, v, w) {
      SameFields(again.value.fields, m.value.fields);
    }
  }

  lemma {:induction false} EachRepeats(env: Env, rule: Rule, v: Option<Value>, w: Option<Value>)
    requires Proper(rule) && Flat(rule) && rule.Each? && IsList(v)
    ensures Merge(env, rule, v, Merge(env, rule, v, w)) == Merge(env, rule, v, w) <==> Repeatable(env, rule, v, w)
    decreases rule, 0
  {
    var m := Merge(env, rule, v, w);
    var again := Merge(env, rule, v, m);
    var vs, ws := v.value.items, if IsList(w) then w.value.items else [];
    EachMerge(env, rule, v, w);
    EachMerge(env, rule, v, m);
    forall i | 0 <= i < |vs|
      ensures again.value.items[i] == m.value.items[i] <==>
        (vs[i].Obj? ==>
           var last := Find(vs, Get(vs[i].fields, "id"));
           IsObj(last) ==> ItemRepeats(env, rule.item, vs[i], last.value, Prior(ws, vs[i])))
    {
      MergeNone(env, rule.item, Some(vs[i]));
      if vs[i].Obj? {
        var id := Get(vs[i].fields, "id");
        FindSome(vs, i);
        FindHasId(vs, id);
        FindMerged(env, rule.item, vs, ws, m.value.items, id);
        ItemAgain(env, rule.item, vs[i], Find(vs, id).value, Prior(ws, vs[i]));
      }
    }
    if Repeatable(env, rule, v, w) {
      assert again.value.items == m.value.items;
    }
  }

  // ---------------------------------------------------------------- two shapes of one observation

  /**
   Storing `a`, then `b`, leaves what storing `a` again would not change.  For a kept field: the shapes are
   equal, exactly one of them knows a value, or neither does while the stored payload does.
   */
  predicate Settles(env: Env, rule: Rule, a: Option<Value>, b: Option<Value>, w: Option<Value>)
    decreases rule
  {
    match rule
    case Plain => a == b
    case Keep(p) =>
      a == b || Known(env, p, a) != Known(env, p, b) || (!Known(env, p, a) && !Known(env, p, b) && Known(env, p, w))
    case Object(guard, fields) =>
      if IsObj(a) && IsObj(b) && Same(guard, a.value.fields, b.value.fields) then
        && (forall k :: k in a.value.fields.Keys + b.value.fields.Keys && k !in fields ==>
              At(a.value.fields, k) == At(b.value.fields, k))
        && forall k :: k in fields ==>
             Settles(env, fields[k], At(a.value.fields, k), At(b.value.fields, k), BaseAt(rule, a, w, k))
      else a == b
    case Each(item) =>
      if IsList(a) && IsList(b) then
        && |a.value.items| == |b.value.items|
        && forall i :: 0 <= i < |a.value.items| ==>
             Settles(env, item, Some(a.value.items[i]), Some(b.value.items[i]),
                     Prior(if IsList(w) then w.value.items else [], a.value.items[i]))
      else a == b
  }

  /** After both shapes have been stored once, storing the first again changes nothing exactly when they settle. */
  lemma {:induction false} MergeSettles(env: Env, rule: Rule, a: Option<Value>, b: Option<Value>, w: Option<Value>)
    requires Proper(rule) && WellKeyed(rule, a) && WellKeyed(rule, b)
    ensures var settled := Merge(env, rule, b, Merge(env, rule, a, w));
      Merge(env, rule, a, settled) == settled <==> Settles(env, rule, a, b, w)
    decreases rule
  {
    if rule.Object? {
      if IsObj(a) && IsObj(b) && Same(rule.guard, a.value.fields, b.value.fields) {
        ObjectSettles(env, rule, a, b, w);
      } else {
        OthersAlternate(env, rule, a, b, w);
      }
    } else if rule.Each? {
      if IsList(a) && IsList(b) {
        EachSettles(env, rule, a, b, w);
      }
    }
  }

  /** Objects that are not observations of the same thing replace each other. */
  lemma OthersAlternate(env: Env, rule: Rule, a: Option<Value>, b: Option<Value>, w: Option<Value>)
    requires Proper(rule) && rule.Object? && !(IsObj(a) && IsObj(b) && Same(rule.guard, a.value.fields, b.value.fields))
    ensures var settled := Merge(env, rule, b, Merge(env, rule, a, w));
      settled == b && Merge(env, rule, a, settled) == a
  {
    if IsObj(a) {
      IdentityKept(env, rule, a, w);
    }
  }

  lemma {:induction false} ObjectSettles(env: Env, rule: Rule, a: Option<Value>, b: Option<Value>, w: Option<Value>)
    requires Proper(rule) && WellKeyed(rule, a) && WellKeyed(rule, b) && rule.Object?
    requires IsObj(a) && IsObj(b) && Same(rule.guard, a.value.fields, b.value.fields)
    ensures var settled := Merge(env, rule, b, Merge(env, rule, a, w));
      Merge(env, rule, a, settled) == settled <==> Settles(env, rule, a, b, w)
    decreases rule, 0
  {
    var first := Merge(env, rule, a, w);
    var settled := Merge(env, rule, b, first);
    var again := Merge(env, rule, a, settled);
    IdentityKept(env, rule, a, w);
    IdentityKept(env, rule, b, first);
    ObjectMerge(env, rule, a, w);
    ObjectMerge(env, rule, b, first);
    ObjectMerge(env, rule, a, settled);
    forall k
      ensures At(again.value.fields, k) == At(settled.value.fields, k) <==>
        if k in rule.fields
        then Settles(env, rule.fields[k], At(a.value.fields, k), At(b.value.fields, k), BaseAt(rule, a, w, k))
        else At(a.value.fields, k) == At(b.value.fields, k)
    {
      if k in rule.fields {
        MergeSettles(env, rule.fields[k], At(a.value.fields, k), At(b.value.fields, k), BaseAt(rule, a, w, k));
      }
    }
    if Settles(env, rule, a, b, w) {
      forall k ensures At(again.value.fields, k) == At(settled.value.fields, k) {
        if k !in rule.fields && k !in a.value.fields.Keys + b.value.fields.Keys {
          assert At(a.value.fields, k) == None == At(b.value.fields, k);
        }
      }
      SameFields(again.value.fields, settled.value.fields);
    }
  }

  lemma {:induction false} EachSettles(env: Env, rule: Rule, a: Option<Value>, b: Option<Value>, w: Option<Value>)
    requires Proper(rule) && WellKeyed(rule, a) && WellKeyed(rule, b) && rule.Each? && IsList(a) && IsList(b)
    ensures var settled := Merge(env, rule, b, Merge(env, rule, a, w));
      Merge(env, rule, a, settled) == settled <==> Settles(env, rule, a, b, w)
    decreases rule, 1
  {
    var first := Merge(env, rule, a, w);
    var settled := Merge(env, rule, b, first);
    var again := Merge(env, rule, a, settled);
    EachMerge(env, rule, a, w);
    EachMergeDistinct(env, rule, a, w);
    EachMerge(env, rule, b, first);
    EachMergeDistinct(env, rule, b, first);
    EachMerge(env, rule, a, settled);
    if |a.value.items| == |b.value.items| {
      forall i | 0 <= i < |a.value.items|
        ensures again.value.items[i] == settled.value.items[i] <==>
          Settles(env, rule.item, Some(a.value.items[i]), Some(b.value.items[i]),
                  Prior(if IsList(w) then w.value.items else [], a.value.items[i]))
      {
        ItemSettles(env, rule, a, b, w, i);
      }
      if Settles(env, rule, a, b, w) {
        assert again.value.items == settled.value.items;
      }
    }
  }

  lemma {:induction false} ItemSettles(env: Env, rule: Rule, a: Option<Value>, b: Option<Value>, w: Option<Value>, i: nat)
    requires Proper(rule) && WellKeyed(rule, a) && WellKeyed(rule, b) && rule.Each? && IsList(a) && IsList(b)
    requires |a.value.items| == |b.value.items| && i < |a.value.items|
    ensures var settled := Merge(env, rule, b, Merge(env, rule, a, w)); var again := Merge(env, rule, a, settled);
      && IsList(settled) && IsList(again) && |settled.value.items| == |again.value.items| == |a.value.items|
      && (again.value.items[i] == settled.value.items[i] <==>
            Settles(env, rule.item, Some(a.value.items[i]), Some(b.value.items[i]),
                    Prior(if IsList(w) then w.value.items else [], a.value.items[i])))
    decreases rule, 0
  {
    var first := Merge(env, rule, a, w);
    var settled := Merge(env, rule, b, first);
    var again := Merge(env, rule, a, settled);
    EachMerge(env, rule, a, w);
    EachMergeDistinct(env, rule, a, w);
    EachMerge(env, rule, b, first);
    EachMergeDistinct(env, rule, b, first);
    EachMerge(env, rule, a, settled);
    var x, y := a.value.items[i], b.value.items[i];
    MergeNone(env, rule.item, Some(x));
    MergeNone(env, rule.item, Some(y));
    if x.Obj? && y.Obj? && Get(x.fields, "id") == Get(y.fields, "id") {
      assert Prior(first.value.items, y) == Some(first.value.items[i]) by {
        assert Prior(first.value.items, x) == Some(first.value.items[i]);
      }
      assert Prior(settled.value.items, x) == Some(settled.value.items[i]) by {
        assert Prior(settled.value.items, y) == Some(settled.value.items[i]);
      }
      MergeSettles(env, rule.item, Some(x), Some(y), Prior(if IsList(w) then w.value.items else [], x));
    }
  }

  /** For one kept field. */
  lemma KeptFieldSettles(env: Env, p: Placeholder, a: Option<Value>, b: Option<Value>, w: Option<Value>)
    ensures var settled := Kept(env, p, b, Kept(env, p, a, w));
      Kept(env, p, a, settled) == settled <==>
        a == b || Known(env, p, a) != Known(env, p, b) || (!Known(env, p, a) && !Known(env, p, b) && Known(env, p, w))
  {
  }

  /** What settles over nothing settles over everything. */
  lemma {:induction false} SettlesOverMore(env: Env, rule: Rule, a: Option<Value>, b: Option<Value>, w: Option<Value>)
    requires Settles(env, rule, a, b, None)
    ensures Settles(env, rule, a, b, w)
    decreases rule
  {
    if rule.Object? && IsObj(a) && IsObj(b) && Same(rule.guard, a.value.fields, b.value.fields) {
      forall k | k in rule.fields
        ensures Settles(env, rule.fields[k], At(a.value.fields, k), At(b.value.fields, k), BaseAt(rule, a, w, k))
      {
        SettlesOverMore(env, rule.fields[k], At(a.value.fields, k), At(b.value.fields, k), BaseAt(rule, a, w, k));
      }
    } else if rule.Each? && IsList(a) && IsList(b) {
      forall i | 0 <= i < |a.value.items|
        ensures Settles(env, rule.item, Some(a.value.items[i]), Some(b.value.items[i]),
                        Prior(if IsList(w) then w.value.items else [], a.value.items[i]))
      {
        assert Prior([], a.value.items[i]) == None;
        SettlesOverMore(env, rule.item, Some(a.value.items[i]), Some(b.value.items[i]),
                        Prior(if IsList(w) then w.value.items else [], a.value.items[i]));
      }
    }
  }

  // ---------------------------------------------------------------- known values stay known

  /** Where a kept value is: in a field of an object, or in the last item of a list with some id. */
  datatype Place = Here | Under(key: string, rest: Place) | Of(id: Value, rest: Place)

  /** The payload knows the kept value at a place. */
  predicate KnownAt(env: Env, rule: Rule, v: Option<Value>, place: Place)
    decreases rule
  {
    match rule
    case Plain => false
    case Keep(p) => place.Here? && Known(env, p, v)
    case Object(_, fields) =>
      && place.Under? && IsObj(v) && place.key in fields
      && KnownAt(env, fields[place.key], At(v.value.fields, place.key), place.rest)
    case Each(item) => place.Of? && IsList(v) && KnownAt(env, item, Find(v.value.items, place.id), place.rest)
  }

  /**
   The incoming payload has what the place is in: an observation of the same object as the stored one, or
   an item with the id, all the way down.
   */
  predicate Carries(rule: Rule, v: Option<Value>, w: Option<Value>, place: Place)
    decreases rule
  {
    match rule
    case Plain => false
    case Keep(_) => place.Here?
    case Object(guard, fields) =>
      && place.Under? && IsObj(v) && IsObj(w) && Same(guard, v.value.fields, w.value.fields) && place.key in fields
      && Carries(fields[place.key], At(v.value.fields, place.key), At(w.value.fields, place.key), place.rest)
    case Each(item) =>
      && place.Of? && IsList(v) && IsList(w)
      && Carries(item, Find(v.value.items, place.id), Find(w.value.items, place.id), place.rest)
  }

  /**
   After a merge a value is known exactly when the incoming payload knows it, or the stored one does and
   the incoming one carries what it is in.
   */
  lemma {:induction false} KnownIsKept(env: Env, rule: Rule, v: Option<Value>, w: Option<Value>, place: Place)
    requires Proper(rule)
    ensures KnownAt(env, rule, Merge(env, rule, v, w), place) <==>
      KnownAt(env, rule, v, place) || (KnownAt(env, rule, w, place) && Carries(rule, v, w, place))
    decreases rule
  {
    if rule.Object? && IsObj(v) && place.Under? && place.key in rule.fields {
      var k := place.key;
      ObjectMerge(env, rule, v, w);
      KnownIsKept(env, rule.fields[k], At(v.value.fields, k), BaseAt(rule, v, w, k), place.rest);
      NothingIsUnknown(env, rule.fields[k], place.rest);
    } else if rule.Each? && IsList(v) && place.Of? {
      var vs, ws := v.value.items, if IsList(w) then w.value.items else [];
      EachMerge(env, rule, v, w);
      FindMerged(env, rule.item, vs, ws, Merge(env, rule, v, w).value.items, place.id);
      KnownIsKept(env, rule.item, Find(vs, place.id), Find(ws, place.id), place.rest);
      NothingIsUnknown(env, rule.item, place.rest);
      assert Find([], place.id) == None;
    }
  }

  lemma NothingIsUnknown(env: Env, rule: Rule, place: Place)
    ensures !KnownAt(env, rule, None, place)
  {
  }
}
