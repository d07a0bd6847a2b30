/**
 The order of unordered sets in canonical payloads (internal/store/canonical.go): guild features and
 permission overwrites.  `SortBy` is insertion sort, which is what any stable sort computes wherever the
 comparison is a total preorder (`StableSortIsSortBy`).
 */
module CanonicalOrder {
  import opened Options
  import opened Texts
  import opened Canonical

  // ---------------------------------------------------------------- stable sorting

  function Insert<T>(less: (T, T) -> bool, sorted: seq<T>, v: T): seq<T> {
    if sorted == [] || !less(v, sorted[|sorted| - 1]) then sorted + [v]
    else Insert(less, sorted[..|sorted| - 1], v) + [sorted[|sorted| - 1]]
  }

  function SortBy<T>(less: (T, T) -> bool, items: seq<T>): seq<T> {
    if items == [] then [] else Insert(less, SortBy(less, items[..|items| - 1]), items[|items| - 1])
  }

  predicate Adjacent<T(!new)>(less: (T, T) -> bool, s: seq<T>) {
    forall i :: 0 <= i < |s| - 1 ==> !less(s[i + 1], s[i])
  }

  ghost predicate Asymmetric<T(!new)>(less: (T, T) -> bool) {
    forall a, b :: less(a, b) ==> !less(b, a)
  }

  lemma {:induction false} InsertKeepsOrder<T(!new)>(less: (T, T) -> bool, sorted: seq<T>, v: T)
    requires Asymmetric(less) && Adjacent(less, sorted)
    ensures var r := Insert(less, sorted, v);
      Adjacent(less, r) && r != [] && (r[|r| - 1] == v || (sorted != [] && r[|r| - 1] == sorted[|sorted| - 1]))
    decreases |sorted|
  {
    if sorted != [] && less(v, sorted[|sorted| - 1]) {
      var n := |sorted| - 1;
      InsertKeepsOrder(less, sorted[..n], v);
    }
  }

  lemma {:induction false} SortIsAdjacent<T(!new)>(less: (T, T) -> bool, items: seq<T>)
    requires Asymmetric(less)
    ensures Adjacent(less, SortBy(less, items))
    decreases |items|
  {
    if items != [] {
      SortIsAdjacent(less, items[..|items| - 1]);
      InsertKeepsOrder(less, SortBy(less, items[..|items| - 1]), items[|items| - 1]);
    }
  }

  lemma {:induction false} SortKeepsSorted<T(!new)>(less: (T, T) -> bool, s: seq<T>)
    requires Adjacent(less, s)
    ensures SortBy(less, s) == s
    decreases |s|
  {
    if s != [] {
      SortKeepsSorted(less, s[..|s| - 1]);
      assert s == s[..|s| - 1] + [s[|s| - 1]];
    }
  }

  /** Sorting a sorted list changes nothing. */
  lemma SortIsIdempotent<T(!new)>(less: (T, T) -> bool, items: seq<T>)
    requires Asymmetric(less)
    ensures SortBy(less, SortBy(less, items)) == SortBy(less, items)
  {
    SortIsAdjacent(less, items);
    SortKeepsSorted(less, SortBy(less, items));
  }

  lemma {:induction false} InsertAdds<T(!new)>(less: (T, T) -> bool, sorted: seq<T>, v: T)
    ensures multiset(Insert(less, sorted, v)) == multiset(sorted) + multiset{v}
    decreases |sorted|
  {
    if sorted != [] && less(v, sorted[|sorted| - 1]) {
      InsertAdds(less, sorted[..|sorted| - 1], v);
      assert sorted == sorted[..|sorted| - 1] + [sorted[|sorted| - 1]];
    }
  }

  lemma {:induction false} SortPermutes<T(!new)>(less: (T, T) -> bool, items: seq<T>)
    ensures multiset(SortBy(less, items)) == multiset(items)
    decreases |items|
  {
    if items != [] {
      SortPermutes(less, items[..|items| - 1]);
      InsertAdds(less, SortBy(less, items[..|items| - 1]), items[|items| - 1]);
      assert items == items[..|items| - 1] + [items[|items| - 1]];
    }
  }

  /** A strict linear order on the elements of a list. */
  ghost predicate LinearOn<T(!new)>(less: (T, T) -> bool, s: multiset<T>) {
    && (forall a, b :: a in s && b in s && !less(a, b) && !less(b, a) ==> a == b)
    && TotalPreorderOn(less, s)
  }

  ghost predicate TotalPreorderOn<T(!new)>(less: (T, T) -> bool, s: multiset<T>) {
    forall a, b, c :: a in s && b in s && c in s && !less(b, a) && !less(c, b) ==> !less(c, a)
  }

  lemma {:induction false} AdjacentIsSorted<T(!new)>(less: (T, T) -> bool, s: seq<T>, i: nat)
    requires Asymmetric(less) && TotalPreorderOn(less, multiset(s)) && Adjacent(less, s) && i < |s|
    ensures !less(s[|s| - 1], s[i])
    decreases |s| - i
  {
    if i < |s| - 1 {
      assert s[i] in multiset(s) && s[i + 1] in multiset(s) && s[|s| - 1] in multiset(s);
      AdjacentIsSorted(less, s, i + 1);
    }
  }

  lemma SameLast<T(!new)>(less: (T, T) -> bool, a: seq<T>, b: seq<T>)
    requires Asymmetric(less) && LinearOn(less, multiset(a)) && multiset(a) == multiset(b)
    requires Adjacent(less, a) && Adjacent(less, b) && a != [] && b != []
    ensures a[|a| - 1] == b[|b| - 1]
  {
    var x, y := a[|a| - 1], b[|b| - 1];
    assert x in multiset(b) && y in multiset(a);
    var j :| 0 <= j < |b| && b[j] == x;
    var i :| 0 <= i < |a| && a[i] == y;
    AdjacentIsSorted(less, b, j);
    AdjacentIsSorted(less, a, i);
  }

  lemma WithoutLast<T>(s: seq<T>)
    requires s != []
    ensures multiset(s[..|s| - 1]) == multiset(s) - multiset{s[|s| - 1]}
    ensures s == s[..|s| - 1] + [s[|s| - 1]]
  {
    assert s == s[..|s| - 1] + [s[|s| - 1]];
  }

  lemma LinearOnFewer<T(!new)>(less: (T, T) -> bool, s: multiset<T>, t: multiset<T>)
    requires LinearOn(less, t) && s <= t
    ensures LinearOn(less, s)
  {
    assert forall a :: a in s ==> a in t;
  }

  lemma {:induction false} SortedOnce<T(!new)>(less: (T, T) -> bool, a: seq<T>, b: seq<T>)
    requires Asymmetric(less) && LinearOn(less, multiset(a)) && multiset(a) == multiset(b)
    requires Adjacent(less, a) && Adjacent(less, b)
    ensures a == b
    decreases |a|
  {
    assert |a| == |multiset(a)| && |b| == |multiset(b)|;
    if a != [] {
      SameLast(less, a, b);
      WithoutLast(a);
      WithoutLast(b);
      LinearOnFewer(less, multiset(a[..|a| - 1]), multiset(a));
      SortedOnce(less, a[..|a| - 1], b[..|b| - 1]);
    }
  }

  /** Any two orders of the same elements sort to the same list. */
  lemma SortIgnoresOrder<T(!new)>(less: (T, T) -> bool, a: seq<T>, b: seq<T>)
    requires Asymmetric(less) && LinearOn(less, multiset(a)) && multiset(a) == multiset(b)
    ensures SortBy(less, a) == SortBy(less, b)
  {
    SortIsAdjacent(less, a);
    SortIsAdjacent(less, b);
    SortPermutes(less, a);
    SortPermutes(less, b);
    SortedOnce(less, SortBy(less, a), SortBy(less, b));
  }

  // ---------------------------------------------------------------- any stable sort

  predicate Tie<T>(less: (T, T) -> bool, a: T, b: T) {
    !less(a, b) && !less(b, a)
  }

  /** The elements that compare equal to one, in their order. */
  function Ties<T>(less: (T, T) -> bool, s: seq<T>, v: T): seq<T> {
    if s == [] then []
    else Ties(less, s[..|s| - 1], v) + if Tie(less, s[|s| - 1], v) then [s[|s| - 1]] else []
  }

  /** What a stable sort may return: the elements in order, equal ones in the order they had. */
  ghost predicate StableSortOf<T(!new)>(less: (T, T) -> bool, items: seq<T>, r: seq<T>) {
    && multiset(r) == multiset(items) && Adjacent(less, r)
    && forall v :: v in multiset(items) ==> Ties(less, r, v) == Ties(less, items, v)
  }

  lemma TiesNext<T(!new)>(less: (T, T) -> bool, s: seq<T>, e: T, v: T)
    ensures Ties(less, s + [e], v) == Ties(less, s, v) + if Tie(less, e, v) then [e] else []
  {
    assert (s + [e])[..|s|] == s;
  }

  /** Inserting past a greater element swaps no two equal ones. */
  lemma {:induction false} InsertIsStable<T(!new)>(less: (T, T) -> bool, sorted: seq<T>, e: T, v: T, all: multiset<T>)
    requires TotalPreorderOn(less, all) && e in all && v in all && forall u :: u in sorted ==> u in all
    ensures Ties(less, Insert(less, sorted, e), v) == Ties(less, sorted + [e], v)
    decreases |sorted|
  {
    TiesNext(less, sorted, e, v);
    if sorted != [] && less(e, sorted[|sorted| - 1]) {
      var n, last := |sorted| - 1, sorted[|sorted| - 1];
      assert last in sorted;
      InsertIsStable(less, sorted[..n], e, v, all);
      TiesNext(less, sorted[..n], e, v);
      TiesNext(less, Insert(less, sorted[..n], e), last, v);
    }
  }

  lemma {:induction false} SortIsStable<T(!new)>(less: (T, T) -> bool, items: seq<T>, v: T, all: multiset<T>)
    requires TotalPreorderOn(less, all) && v in all && forall u :: u in items ==> u in all
    ensures Ties(less, SortBy(less, items), v) == Ties(less, items, v)
    decreases |items|
  {
    if items != [] {
      var n, e := |items| - 1, items[|items| - 1];
      var sorted := SortBy(less, items[..n]);
      SortIsStable(less, items[..n], v, all);
      SortPermutes(less, items[..n]);
      forall u | u in sorted ensures u in all {
        assert u in multiset(sorted) && u in items[..n];
      }
      InsertIsStable(less, sorted, e, v, all);
      TiesNext(less, sorted, e, v);
    }
  }

  lemma TiesEnd<T(!new)>(less: (T, T) -> bool, s: seq<T>, v: T)
    requires s != [] && Tie(less, s[|s| - 1], v)
    ensures var t := Ties(less, s, v); t != [] && t[|t| - 1] == s[|s| - 1]
  {
  }

  lemma TiesBeforeLast<T(!new)>(less: (T, T) -> bool, a: seq<T>, b: seq<T>, v: T)
    requires a != [] && b != [] && a[|a| - 1] == b[|b| - 1] && Ties(less, a, v) == Ties(less, b, v)
    ensures Ties(less, a[..|a| - 1], v) == Ties(less, b[..|b| - 1], v)
  {
    var c, d := Ties(less, a[..|a| - 1], v), Ties(less, b[..|b| - 1], v);
    if Tie(less, a[|a| - 1], v) {
      assert (c + [a[|a| - 1]])[..|c|] == c && (d + [b[|b| - 1]])[..|d|] == d;
    } else {
      assert c + [] == c && d + [] == d;
    }
  }

  lemma LastsTie<T(!new)>(less: (T, T) -> bool, a: seq<T>, b: seq<T>)
    requires Asymmetric(less) && TotalPreorderOn(less, multiset(a)) && multiset(a) == multiset(b)
    requires Adjacent(less, a) && Adjacent(less, b) && a != [] && b != []
    ensures Tie(less, b[|b| - 1], a[|a| - 1]) && Tie(less, a[|a| - 1], a[|a| - 1])
  {
    var x, y := a[|a| - 1], b[|b| - 1];
    assert x in multiset(b) && y in multiset(a);
    var j :| 0 <= j < |b| && b[j] == x;
    var i :| 0 <= i < |a| && a[i] == y;
    AdjacentIsSorted(less, b, j);
    AdjacentIsSorted(less, a, i);
  }

  ghost predicate SameTies<T(!new)>(less: (T, T) -> bool, a: seq<T>, b: seq<T>) {
    forall v :: v in multiset(a) ==> Ties(less, a, v) == Ties(less, b, v)
  }

  lemma SameTiesBeforeLast<T(!new)>(less: (T, T) -> bool, a: seq<T>, b: seq<T>)
    requires a != [] && b != [] && a[|a| - 1] == b[|b| - 1] && SameTies(less, a, b)
    ensures SameTies(less, a[..|a| - 1], b[..|b| - 1])
  {
    WithoutLast(a);
    var c, d := a[..|a| - 1], b[..|b| - 1];
    forall v | v in multiset(c) ensures Ties(less, c, v) == Ties(less, d, v) {
      assert v in multiset(a);
      TiesBeforeLast(less, a, b, v);
    }
  }

  lemma SameLastTie<T(!new)>(less: (T, T) -> bool, a: seq<T>, b: seq<T>)
    requires a != [] && b != [] && SameTies(less, a, b)
    requires Tie(less, b[|b| - 1], a[|a| - 1]) && Tie(less, a[|a| - 1], a[|a| - 1])
    ensures a[|a| - 1] == b[|b| - 1]
  {
    var x := a[|a| - 1];
    assert x in multiset(a);
    TiesEnd(less, a, x);
    TiesEnd(less, b, x);
  }

  lemma PreorderOnFewer<T(!new)>(less: (T, T) -> bool, s: multiset<T>, t: multiset<T>)
    requires TotalPreorderOn(less, t) && s <= t
    ensures TotalPreorderOn(less, s)
  {
    assert forall a :: a in s ==> a in t;
  }

  lemma {:induction false} StableOnce<T(!new)>(less: (T, T) -> bool, a: seq<T>, b: seq<T>)
    requires Asymmetric(less) && TotalPreorderOn(less, multiset(a)) && multiset(a) == multiset(b)
    requires Adjacent(less, a) && Adjacent(less, b) && SameTies(less, a, b)
    ensures a == b
    decreases |a|
  {
    assert |a| == |multiset(a)| && |b| == |multiset(b)|;
    if a != [] {
      LastsTie(less, a, b);
      SameLastTie(less, a, b);
      WithoutLast(a);
      WithoutLast(b);
      SameTiesBeforeLast(less, a, b);
      PreorderOnFewer(less, multiset(a[..|a| - 1]), multiset(a));
      StableOnce(less, a[..|a| - 1], b[..|b| - 1]);
    }
  }

  /** On a total preorder every stable sort returns what `SortBy` returns. */
  lemma StableSortIsSortBy<T(!new)>(less: (T, T) -> bool, items: seq<T>, r: seq<T>)
    requires Asymmetric(less) && TotalPreorderOn(less, multiset(items))
    ensures StableSortOf(less, items, r) <==> r == SortBy(less, items)
  {
    var sorted := SortBy(less, items);
    SortPermutes(less, items);
    SortIsAdjacent(less, items);
    forall v | v in multiset(items) ensures Ties(less, sorted, v) == Ties(less, items, v) {
      SortIsStable(less, items, v, multiset(items));
    }
    if StableSortOf(less, items, r) {
      StableOnce(less, r, sorted);
    }
  }

  // ---------------------------------------------------------------- snowflakes

  predicate IsDecimal(s: string) {
    s != "" && (|s| > 1 ==> s[0] != '0') && AllDigits(s)
  }

  function CompareSnowflake(a: string, b: string): int {
    if |a| != |b| && IsDecimal(a) && IsDecimal(b) then |a| - |b| else CompareText(a, b)
  }

  function Pow(n: nat): nat {
    if n == 0 then 1 else 10 * Pow(n - 1)
  }

  function Digit(c: char): nat
    requires '0' <= c <= '9'
  {
    c as int - '0' as int
  }

  /** The number a digit string denotes. */
  function Number(s: string): nat
    requires AllDigits(s)
  {
    if s == "" then 0 else Digit(s[0]) * Pow(|s| - 1) + Number(s[1..])
  }

  lemma DigitBound(d: nat, p: nat, rest: nat)
    requires d <= 9 && rest < p
    ensures d * p + rest < 10 * p
    ensures d > 0 ==> d * p + rest >= p
  {
    assert d * p <= 9 * p;
    if d > 0 {
      assert d * p == (d - 1) * p + p && (d - 1) * p >= 0;
    }
  }

  lemma {:induction false} NumberBelow(s: string)
    requires AllDigits(s)
    ensures Number(s) < Pow(|s|)
  {
    if s != "" {
      NumberBelow(s[1..]);
      DigitBound(Digit(s[0]), Pow(|s| - 1), Number(s[1..]));
    }
  }

  lemma {:induction false} PowGrows(m: nat, n: nat)
    requires m <= n
    ensures 1 <= Pow(m) <= Pow(n)
    decreases n
  {
    if m < n {
      PowGrows(m, n - 1);
    } else if m > 0 {
      PowGrows(m - 1, n - 1);
    }
  }

  /** The leading digit decides. */
  lemma LeadingDigit(x: nat, y: nat, p: nat, a: nat, b: nat)
    requires a < p && b < p
    ensures x < y ==> x * p + a < y * p + b
  {
    if x < y {
      assert (x + 1) * p <= y * p;
    }
  }

  lemma {:induction false} SameLengthNumbers(a: string, b: string)
    requires |a| == |b| && AllDigits(a) && AllDigits(b)
    ensures CompareText(a, b) < 0 <==> Number(a) < Number(b)
    ensures CompareText(a, b) == 0 <==> Number(a) == Number(b)
  {
    CompareEqual(a, b);
    CompareOpposite(a, b);
    if a != "" {
      SameLengthNumbers(a[1..], b[1..]);
      NumberBelow(a[1..]);
      NumberBelow(b[1..]);
      var x, y, p := Digit(a[0]), Digit(b[0]), Pow(|a| - 1);
      LeadingDigit(x, y, p, Number(a[1..]), Number(b[1..]));
      LeadingDigit(y, x, p, Number(b[1..]), Number(a[1..]));
      CompareFirst(a, b);
    }
  }

  lemma CompareFirst(a: string, b: string)
    requires a != "" && b != ""
    ensures a[0] < b[0] ==> CompareText(a, b) < 0
    ensures a[0] == b[0] ==> CompareText(a, b) == CompareText(a[1..], b[1..])
  {
    if a == b {
      assert a[1..] == b[1..];
    }
  }

  /** Canonical decimal ids are ordered as numbers. */
  lemma SnowflakesAreNumbers(a: string, b: string)
    requires IsDecimal(a) && IsDecimal(b)
    ensures CompareSnowflake(a, b) < 0 <==> Number(a) < Number(b)
    ensures CompareSnowflake(a, b) == 0 <==> Number(a) == Number(b)
  {
    if |a| == |b| {
      SameLengthNumbers(a, b);
    } else {
      var short, long := if |a| < |b| then a else b, if |a| < |b| then b else a;
      NumberBelow(short);
      PowGrows(|short|, |long| - 1);
      PowGrows(0, |long| - 1);
      NumberBelow(long[1..]);
      DigitBound(Digit(long[0]), Pow(|long| - 1), Number(long[1..]));
      assert |long| > 1 && long[0] != '0';
    }
  }

  /** With other ids among them the comparison is no order: it goes round in a circle. */
  lemma MixedIdsAreCyclic()
    ensures CompareSnowflake("9", "10") < 0 && CompareSnowflake("10", "1x") < 0 && CompareSnowflake("1x", "9") < 0
  {
    assert "10"[1..] == "0" && "1x"[1..] == "x";
    assert IsDecimal("9") && IsDecimal("10");
    assert !IsDecimal("1x") by {
      assert "1x"[1] == 'x';
    }
    assert CompareText("0", "x") == -1;
  }

  /**
   What makes the comparison go round: two decimal ids of different length and another id that, as a text,
   lies between the longer and the shorter one.
   */
  predicate Cycle(short: string, long: string, other: string) {
    && IsDecimal(short) && IsDecimal(long) && |short| < |long| && !IsDecimal(other)
    && CompareText(long, other) <= 0 && CompareText(other, short) <= 0
  }

  ghost predicate NoCycle(ids: set<string>) {
    forall a, b, x :: a in ids && b in ids && x in ids ==> !Cycle(a, b, x)
  }

  ghost predicate TransitiveOn(ids: set<string>) {
    forall a, b, c :: a in ids && b in ids && c in ids && CompareSnowflake(a, b) <= 0 && CompareSnowflake(b, c) <= 0 ==>
      CompareSnowflake(a, c) <= 0
  }

  lemma SnowflakeOpposite(a: string, b: string)
    ensures CompareSnowflake(a, b) == -CompareSnowflake(b, a)
    ensures CompareSnowflake(a, b) == 0 <==> a == b
  {
    CompareOpposite(a, b);
    CompareEqual(a, b);
  }

  lemma DecimalsAreTransitive(a: string, b: string, c: string)
    requires IsDecimal(a) && IsDecimal(b) && IsDecimal(c)
    requires CompareSnowflake(a, b) <= 0 && CompareSnowflake(b, c) <= 0
    ensures CompareSnowflake(a, c) <= 0
  {
    SnowflakesAreNumbers(a, b);
    SnowflakesAreNumbers(b, c);
    SnowflakesAreNumbers(a, c);
  }

  /** Three ids among which no cycle runs are in order. */
  lemma ThreeIdsAreTransitive(a: string, b: string, c: string)
    requires NoCycle({a, b, c}) && CompareSnowflake(a, b) <= 0 && CompareSnowflake(b, c) <= 0
    ensures CompareSnowflake(a, c) <= 0
  {
    if IsDecimal(a) && IsDecimal(b) && IsDecimal(c) {
      DecimalsAreTransitive(a, b, c);
    } else {
      CompareOpposite(a, b);
      CompareOpposite(b, c);
      CompareOpposite(a, c);
      assert !Cycle(a, b, c) && !Cycle(b, c, a) && !Cycle(c, a, b);
      if CompareText(a, b) <= 0 && CompareText(b, c) <= 0 {
        CompareTransitive(a, b, c);
      }
    }
  }

  /** The comparison is an order on exactly the sets of ids without a cycle. */
  lemma OrderedExactlyWithoutCycles(ids: set<string>)
    ensures TransitiveOn(ids) <==> NoCycle(ids)
  {
    if NoCycle(ids) {
      forall a, b, c | a in ids && b in ids && c in ids && CompareSnowflake(a, b) <= 0 && CompareSnowflake(b, c) <= 0
        ensures CompareSnowflake(a, c) <= 0
      {
        ThreeIdsAreTransitive(a, b, c);
      }
    } else {
      var a, b, x :| a in ids && b in ids && x in ids && Cycle(a, b, x);
      assert CompareSnowflake(b, x) <= 0 && CompareSnowflake(x, a) <= 0 && CompareSnowflake(b, a) > 0;
    }
  }

  // ---------------------------------------------------------------- features and overwrites

  function TextOf(v: Value): string {
    if v.Str? then v.s else ""
  }

  predicate FeatureLess(a: Value, b: Value) {
    CompareText(TextOf(a), TextOf(b)) < 0
  }

  function ObjectString(v: Value, key: string): string {
    if !v.Obj? then ""
    else
      match Get(v.fields, key)
      case Str(s) => s
      case Num(text) => text
      case _ => ""
  }

  function IdOf(v: Value): string {
    ObjectString(v, "id")
  }

  function TypeOf(v: Value): string {
    ObjectString(v, "type")
  }

  predicate OverwriteLess(a: Value, b: Value) {
    var c := CompareSnowflake(IdOf(a), IdOf(b));
    if c != 0 then c < 0 else CompareText(TypeOf(a), TypeOf(b)) < 0
  }

  lemma OrdersAreAsymmetric()
    ensures Asymmetric(FeatureLess) && Asymmetric(OverwriteLess)
  {
    forall a, b | FeatureLess(a, b) ensures !FeatureLess(b, a) {
      CompareOpposite(TextOf(a), TextOf(b));
    }
    forall a, b | OverwriteLess(a, b) ensures !OverwriteLess(b, a) {
      CompareOpposite(IdOf(a), IdOf(b));
      CompareOpposite(TypeOf(a), TypeOf(b));
    }
  }

  /** "features" that are strings. */
  lemma FeaturesAreLinear(s: seq<Value>)
    requires forall k :: 0 <= k < |s| ==> s[k].Str?
    ensures LinearOn(FeatureLess, multiset(s))
  {
    forall a, b | a in multiset(s) && b in multiset(s) && !FeatureLess(a, b) && !FeatureLess(b, a) ensures a == b {
      assert a in s && b in s;
      CompareOpposite(a.s, b.s);
      CompareEqual(a.s, b.s);
    }
    FeaturesArePreordered(s);
  }

  lemma FeaturesArePreordered(s: seq<Value>)
    ensures TotalPreorderOn(FeatureLess, multiset(s))
  {
    forall a, b, c | a in multiset(s) && b in multiset(s) && c in multiset(s) && !FeatureLess(b, a) && !FeatureLess(c, b)
      ensures !FeatureLess(c, a)
    {
      CompareOpposite(TextOf(a), TextOf(b));
      CompareOpposite(TextOf(b), TextOf(c));
      CompareOpposite(TextOf(a), TextOf(c));
      CompareTransitive(TextOf(a), TextOf(b), TextOf(c));
    }
  }

  function IdsOf(s: seq<Value>): set<string> {
    set k | 0 <= k < |s| :: IdOf(s[k])
  }

  /** No cycle among the ids, and no two overwrites for the same id and type. */
  ghost predicate SoundOverwrites(s: seq<Value>) {
    && NoCycle(IdsOf(s))
    && (forall a, b :: a in s && b in s && IdOf(a) == IdOf(b) && TypeOf(a) == TypeOf(b) ==> a == b)
  }

  lemma IdIn(s: seq<Value>, v: Value)
    requires v in s
    ensures IdOf(v) in IdsOf(s)
  {
  }

  /** Overwrites have one order exactly when they are sound. */
  lemma OverwritesAreLinear(s: seq<Value>)
    ensures SoundOverwrites(s) <==> LinearOn(OverwriteLess, multiset(s))
  {
    if SoundOverwrites(s) {
      SoundIsLinear(s);
    }
    if LinearOn(OverwriteLess, multiset(s)) {
      LinearHasNoCycle(s);
      forall a, b | a in s && b in s && IdOf(a) == IdOf(b) && TypeOf(a) == TypeOf(b) ensures a == b {
        assert a in multiset(s) && b in multiset(s);
        SnowflakeOpposite(IdOf(a), IdOf(b));
        CompareEqual(TypeOf(a), TypeOf(b));
        CompareOpposite(TypeOf(a), TypeOf(b));
      }
    }
  }

  lemma SoundIsLinear(s: seq<Value>)
    requires SoundOverwrites(s)
    ensures LinearOn(OverwriteLess, multiset(s))
  {
    forall a, b | a in multiset(s) && b in multiset(s) && !OverwriteLess(a, b) && !OverwriteLess(b, a) ensures a == b {
      assert a in s && b in s;
      OverwriteTotal(a, b);
    }
    TotallyPreordered(s);
  }

  lemma TotallyPreordered(s: seq<Value>)
    requires NoCycle(IdsOf(s))
    ensures TotalPreorderOn(OverwriteLess, multiset(s))
  {
    forall a, b, c | a in multiset(s) && b in multiset(s) && c in multiset(s) && !OverwriteLess(b, a) && !OverwriteLess(c, b)
      ensures !OverwriteLess(c, a)
    {
      IdIn(s, a);
      IdIn(s, b);
      IdIn(s, c);
      OverwriteTransitive(a, b, c);
    }
  }

  lemma LinearHasNoCycle(s: seq<Value>)
    requires TotalPreorderOn(OverwriteLess, multiset(s))
    ensures NoCycle(IdsOf(s))
  {
    forall i, j, k | 0 <= i < |s| && 0 <= j < |s| && 0 <= k < |s| ensures !Cycle(IdOf(s[i]), IdOf(s[j]), IdOf(s[k])) {
      assert s[i] in multiset(s) && s[j] in multiset(s) && s[k] in multiset(s);
      if Cycle(IdOf(s[i]), IdOf(s[j]), IdOf(s[k])) {
        CycleIsLess(s[i], s[j], s[k]);
        assert false;
      }
    }
  }

  lemma CycleIsLess(a: Value, b: Value, x: Value)
    requires Cycle(IdOf(a), IdOf(b), IdOf(x))
    ensures OverwriteLess(a, b) && !OverwriteLess(x, b) && !OverwriteLess(a, x)
  {
    SnowflakeOpposite(IdOf(b), IdOf(x));
    SnowflakeOpposite(IdOf(x), IdOf(a));
    SnowflakeOpposite(IdOf(b), IdOf(a));
  }

  lemma OverwriteTotal(a: Value, b: Value)
    requires !OverwriteLess(a, b) && !OverwriteLess(b, a)
    ensures IdOf(a) == IdOf(b) && TypeOf(a) == TypeOf(b)
  {
    SnowflakeOpposite(IdOf(a), IdOf(b));
    CompareOpposite(TypeOf(a), TypeOf(b));
    CompareEqual(TypeOf(a), TypeOf(b));
  }

  lemma OverwriteTransitive(a: Value, b: Value, c: Value)
    requires NoCycle({IdOf(a), IdOf(b), IdOf(c)})
    requires !OverwriteLess(b, a) && !OverwriteLess(c, b)
    ensures !OverwriteLess(c, a)
  {
    var x, y, z := IdOf(a), IdOf(b), IdOf(c);
    SnowflakeOpposite(x, y);
    SnowflakeOpposite(y, z);
    SnowflakeOpposite(x, z);
    ThreeIdsAreTransitive(x, y, z);
    if x == z {
      assert {z, y, x} == {x, y, z};
      ThreeIdsAreTransitive(z, x, y);
      var p, q, r := TypeOf(a), TypeOf(b), TypeOf(c);
      CompareOpposite(p, q);
      CompareOpposite(q, r);
      CompareOpposite(p, r);
      if CompareText(p, q) <= 0 && CompareText(q, r) <= 0 {
        CompareTransitive(p, q, r);
      }
    }
  }
}
