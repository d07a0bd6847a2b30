/**
 Extraction of JSON objects from arbitrary cache bytes (internal/discorddesktop/scan.go).

 The extractor tracks brace depth and string state byte by byte.  Whether a candidate is JSON is
 decided by encoding/json, which is the parameter `valid` here.  `FindsExactlyTheTopSpans` says what
 is returned for arbitrary bytes; `FindsEmbeddedObjects` that JSON objects between bytes without an
 opening brace are all found, in order.
 */
module ObjectExtractor {
  import opened Options
  import opened Json
  import opened Texts

  const MAX_OBJECT_BYTES: nat := 4 * 1024 * 1024
  const MAX_VALID_NESTING: nat := 10000  // encoding/json rejects deeper texts

  type Span = (nat, nat)

  /** The extractor's variables, with the spans closed so far instead of the kept bytes. */
  datatype Extract = Extract(depth: nat, start: int, inString: bool, escaped: bool, spans: seq<Span>)

  const START: Extract := Extract(0, -1, false, false, [])

  function Step(e: Extract, i: nat, c: char): Extract {
    if e.inString then
      if e.escaped then e.(escaped := false)
      else if c == '\\' then e.(escaped := true)
      else if c == '"' then e.(inString := false)
      else e
    else if c == '"' then e.(inString := e.depth > 0)
    else if c == '{' then e.(depth := e.depth + 1, start := if e.depth == 0 then i else e.start)
    else if c == '}' then
      if e.depth == 0 then e
      else if e.depth == 1 && e.start >= 0 then
        e.(depth := 0, start := -1, spans := e.spans + [(e.start, i + 1)])
      else e.(depth := e.depth - 1)
    else e
  }

  function Run(e: Extract, i: nat, p: Bytes): Extract
    decreases |p|
  {
    if p == [] then e else Run(Step(e, i, p[0]), i + 1, p[1..])
  }

  lemma {:induction false} RunAppend(e: Extract, i: nat, a: Bytes, b: Bytes)
    ensures Run(e, i, a + b) == Run(Run(e, i, a), i + |a|, b)
    decreases |a|
  {
    if a == [] {
      assert a + b == b;
    } else {
      assert (a + b)[1..] == a[1..] + b;
      RunAppend(Step(e, i, a[0]), i + 1, a[1..], b);
    }
  }

  predicate Fits(valid: Bytes -> bool, data: Bytes, s: Span) {
    s.0 <= s.1 <= |data| && s.1 - s.0 <= MAX_OBJECT_BYTES && valid(data[s.0..s.1])
  }

  /** The spans that are small enough and hold valid JSON. */
  function Kept(valid: Bytes -> bool, data: Bytes, spans: seq<Span>): seq<Span> {
    if spans == [] then []
    else
      var before := Kept(valid, data, spans[..|spans| - 1]);
      var last := spans[|spans| - 1];
      if Fits(valid, data, last) then before + [last] else before
  }

  predicate StartsWith(data: Bytes, p: Bytes) {
    |p| <= |data| && data[..|p|] == p
  }

  /** The span holds these bytes. */
  predicate Holds(data: Bytes, s: Span, p: Bytes) {
    s.0 <= s.1 <= |data| && data[s.0..s.1] == p
  }

  /** The byte strings are those of the spans, one by one. */
  predicate AllHold(data: Bytes, spans: seq<Span>, pieces: seq<Bytes>) {
    |pieces| == |spans| && forall k :: 0 <= k < |pieces| ==> Holds(data, spans[k], pieces[k])
  }

  lemma KeptNext(valid: Bytes -> bool, data: Bytes, spans: seq<Span>, s: Span)
    ensures Kept(valid, data, spans + [s]) == Kept(valid, data, spans) + if Fits(valid, data, s) then [s] else []
  {
    assert (spans + [s])[..|spans|] == spans;
  }

  // ---------------------------------------------------------------- state after a prefix

  function At(data: Bytes, i: nat): Extract
    requires i <= |data|
  {
    Run(START, 0, data[..i])
  }

  lemma AtNext(data: Bytes, i: nat)
    requires i < |data|
    ensures At(data, i + 1) == Step(At(data, i), i, data[i])
  {
    assert data[..i + 1] == data[..i] + [data[i]];
    RunAppend(START, 0, data[..i], [data[i]]);
    assert Run(At(data, i), i, [data[i]]) == Run(Step(At(data, i), i, data[i]), i + 1, [data[i]][1..]);
  }

  // ---------------------------------------------------------------- brace balance

  /** Depth and string state of a text on its own. */
  datatype Mark = Mark(depth: int, inString: bool, escaped: bool)

  function Move(m: Mark, c: char): Mark {
    if m.inString then Mark(m.depth, m.escaped || c != '"', !m.escaped && c == '\\')
    else if c == '"' then m.(inString := true)
    else if c == '{' then m.(depth := m.depth + 1)
    else if c == '}' then m.(depth := m.depth - 1)
    else m
  }

  function MarkAt(data: Bytes, a: nat, i: nat): Mark
    requires a <= i <= |data|
    decreases i - a
  {
    if a == i then Mark(0, false, false) else Move(MarkAt(data, a, i - 1), data[i - 1])
  }

  /** data[a..b] opens with a brace that its last byte, and no earlier one, closes. */
  ghost predicate Balanced(data: Bytes, a: nat, b: nat) {
    && a < b <= |data| && data[a] == '{'
    && MarkAt(data, a, b) == Mark(0, false, false)
    && forall k :: a < k < b ==> MarkAt(data, a, k).depth > 0
  }

  /** No object is open here: the place is reached from the start over other bytes and whole objects. */
  ghost predicate Free(data: Bytes, a: nat)
    decreases a
  {
    || a == 0
    || (a <= |data| && data[a - 1] != '{' && Free(data, a - 1))
    || (exists b: nat :: b < a && Balanced(data, b, a) && Free(data, b))
  }

  /** A balanced span that starts where no other object is open. */
  ghost predicate TopSpan(data: Bytes, a: nat, b: nat) {
    Balanced(data, a, b) && Free(data, a)
  }

  /** The same by the extractor's own depth. */
  ghost predicate OpenedAtTop(data: Bytes, a: nat, b: nat) {
    Balanced(data, a, b) && At(data, a).depth == 0
  }

  /** Between objects nothing is open; inside one the state is that of the text since its brace. */
  ghost predicate Tracked(data: Bytes, i: nat, e: Extract)
    requires i <= |data|
  {
    if e.depth == 0 then e.start == -1 && !e.inString && !e.escaped
    else
      && 0 <= e.start < i && data[e.start] == '{'
      && (e.escaped ==> e.inString)
      && At(data, e.start).depth == 0
      && MarkAt(data, e.start, i) == Mark(e.depth, e.inString, e.escaped)
      && forall k :: e.start < k <= i ==> MarkAt(data, e.start, k).depth > 0
  }

  ghost predicate SpansFound(data: Bytes, i: nat, e: Extract)
    requires i <= |data|
  {
    && (forall k :: 0 <= k < |e.spans| ==> e.spans[k].1 <= i && OpenedAtTop(data, e.spans[k].0, e.spans[k].1))
    && Ordered(e.spans)
    && (forall k :: 0 <= k < |e.spans| && e.depth > 0 ==> e.spans[k].1 <= e.start)
  }

  lemma TrackedNext(data: Bytes, i: nat)
    requires i < |data| && Tracked(data, i, At(data, i))
    ensures Tracked(data, i + 1, At(data, i + 1))
  {
    AtNext(data, i);
    var e, f := At(data, i), At(data, i + 1);
    if e.depth == 0 && f.depth > 0 {
      assert MarkAt(data, i, i) == Mark(0, false, false);
      assert MarkAt(data, i, i + 1) == Mark(1, false, false);
    } else if f.depth > 0 {
      assert MarkAt(data, e.start, i + 1) == Move(MarkAt(data, e.start, i), data[i]);
    }
  }

  lemma SpansNext(data: Bytes, i: nat)
    requires i < |data| && Tracked(data, i, At(data, i)) && SpansFound(data, i, At(data, i))
    ensures SpansFound(data, i + 1, At(data, i + 1))
  {
    AtNext(data, i);
    var e, f := At(data, i), At(data, i + 1);
    if f.spans != e.spans {
      assert MarkAt(data, e.start, i + 1) == Move(MarkAt(data, e.start, i), data[i]);
      assert OpenedAtTop(data, e.start, i + 1);
      assert f.spans == e.spans + [(e.start, i + 1)];
      assert f.depth == 0;
    } else if e.depth == 0 && f.depth > 0 {
      assert f.start == i;
    }
  }

  lemma {:induction false} PrefixTracked(data: Bytes, i: nat)
    requires i <= |data|
    ensures Tracked(data, i, At(data, i)) && SpansFound(data, i, At(data, i))
  {
    if i > 0 {
      PrefixTracked(data, i - 1);
      TrackedNext(data, i - 1);
      SpansNext(data, i - 1);
    }
  }

  /** Every top span is found when its last byte is read. */
  lemma {:induction false} TopSpanState(data: Bytes, a: nat, b: nat, i: nat)
    requires OpenedAtTop(data, a, b) && a < i < b
    ensures At(data, i).depth > 0 && At(data, i).start == a
    decreases i
  {
    PrefixTracked(data, i - 1);
    AtNext(data, i - 1);
    if i - 1 > a {
      TopSpanState(data, a, b, i - 1);
      PrefixTracked(data, i);
      assert MarkAt(data, a, i).depth > 0;
    }
  }

  lemma {:induction false} SpansGrow(data: Bytes, i: nat, j: nat)
    requires i <= j <= |data|
    ensures At(data, i).spans <= At(data, j).spans
    decreases j
  {
    if i < j {
      SpansGrow(data, i, j - 1);
      AtNext(data, j - 1);
    }
  }

  lemma TopSpanFound(data: Bytes, a: nat, b: nat)
    requires OpenedAtTop(data, a, b)
    ensures (a, b) in At(data, |data|).spans && At(data, b).depth == 0
  {
    assert b > a + 1 by {
      assert MarkAt(data, a, a + 1) == Move(MarkAt(data, a, a), data[a]);
    }
    TopSpanState(data, a, b, b - 1);
    PrefixTracked(data, b - 1);
    AtNext(data, b - 1);
    var f := At(data, b);
    assert f.spans[|f.spans| - 1] == (a, b);
    SpansGrow(data, b, |data|);
  }

  /** The extractor's depth is zero exactly outside objects. */
  lemma {:induction false} FreeIsDepthZero(data: Bytes, a: nat)
    requires a <= |data|
    ensures Free(data, a) <==> At(data, a).depth == 0
    decreases a
  {
    if a > 0 {
      AtNext(data, a - 1);
      FreeIsDepthZero(data, a - 1);
      PrefixTracked(data, a - 1);
      if At(data, a).depth == 0 && At(data, a - 1).depth > 0 {
        ClosedSpan(data, a);
        FreeIsDepthZero(data, At(data, a - 1).start);
      }
      forall b: nat | b < a && Balanced(data, b, a) && Free(data, b) ensures At(data, a).depth == 0 {
        FreeIsDepthZero(data, b);
        TopSpanFound(data, b, a);
      }
    }
  }

  lemma ClosedSpan(data: Bytes, a: nat)
    requires 0 < a <= |data| && At(data, a).depth == 0 && At(data, a - 1).depth > 0
    ensures var b := At(data, a - 1).start; 0 <= b < a && Balanced(data, b, a) && At(data, b).depth == 0
  {
    PrefixTracked(data, a - 1);
    AtNext(data, a - 1);
    var b := At(data, a - 1).start;
    assert MarkAt(data, b, a) == Move(MarkAt(data, b, a - 1), data[a - 1]);
  }

  /** Disjoint and in order. */
  predicate Ordered(spans: seq<Span>) {
    forall j, k :: 0 <= j < k < |spans| ==> spans[j].1 <= spans[k].0
  }

  lemma {:induction false} KeptSpans(valid: Bytes -> bool, data: Bytes, spans: seq<Span>)
    requires Ordered(spans)
    ensures forall s :: s in Kept(valid, data, spans) <==> s in spans && Fits(valid, data, s)
    ensures Ordered(Kept(valid, data, spans))
    decreases |spans|
  {
    if spans != [] {
      var rest, last := spans[..|spans| - 1], spans[|spans| - 1];
      KeptSpans(valid, data, rest);
      assert spans == rest + [last];
      var before := Kept(valid, data, rest);
      forall j | 0 <= j < |before| ensures before[j].1 <= last.0 {
        assert before[j] in rest;
      }
    }
  }

  /**
   What is found in arbitrary bytes: exactly the top spans within the size limit that hold valid
   JSON, in order and disjoint.
   */
  lemma FindsExactlyTheTopSpans(valid: Bytes -> bool, data: Bytes)
    ensures var kept := Kept(valid, data, At(data, |data|).spans);
      && (forall a: nat, b: nat :: (a, b) in kept <==>
            TopSpan(data, a, b) && b - a <= MAX_OBJECT_BYTES && valid(data[a..b]))
      && Ordered(kept)
  {
    var spans := At(data, |data|).spans;
    PrefixTracked(data, |data|);
    KeptSpans(valid, data, spans);
    forall a: nat, b: nat | Balanced(data, a, b) ensures TopSpan(data, a, b) <==> OpenedAtTop(data, a, b) {
      FreeIsDepthZero(data, a);
    }
    forall a: nat, b: nat | TopSpan(data, a, b) ensures (a, b) in spans {
      TopSpanFound(data, a, b);
    }
  }

  /** Keeps a finished object that is small enough and valid. */
  method Collect(valid: Bytes -> bool, data: Bytes, start: int, end: int, found: seq<Bytes>, ghost before: seq<Span>,
                 ghost all: seq<Span>)
    returns (out: seq<Bytes>, ghost spans: seq<Span>)
    requires 0 <= start <= end <= |data| && before == Kept(valid, data, all) && AllHold(data, before, found)
    ensures spans == Kept(valid, data, all + [(start, end)]) && AllHold(data, spans, out)
  {
    KeptNext(valid, data, all, (start, end));
    out, spans := found, before;
    if end - start <= MAX_OBJECT_BYTES {
      var candidate := data[start..end];
      if valid(candidate) {
        out, spans := out + [candidate], spans + [(start, end)];
      }
    }
  }

  /** The extraction loop. */
  method ExtractJSONObjects(valid: Bytes -> bool, data: Bytes) returns (out: seq<Bytes>, ghost spans: seq<Span>)
    ensures spans == Kept(valid, data, At(data, |data|).spans)
    ensures AllHold(data, spans, out)
  {
    out, spans := [], [];
    var depth: nat, start, inString, escaped := 0, -1, false, false;
    ghost var all: seq<Span> := [];
    var i := 0;
    while i < |data|
      invariant 0 <= i <= |data|
      invariant At(data, i) == Extract(depth, start, inString, escaped, all)
      invariant spans == Kept(valid, data, all)
      invariant AllHold(data, spans, out)
    {
      AtNext(data, i);
      PrefixTracked(data, i);
      var b := data[i];
      i := i + 1;
      if inString {
        if escaped {
          escaped := false;
        } else if b == '\\' {
          escaped := true;
        } else if b == '"' {
          inString := false;
        }
      } else if b == '"' {
        if depth > 0 {
          inString := true;
        }
      } else if b == '{' {
        if depth == 0 {
          start := i - 1;
        }
        depth := depth + 1;
      } else if b == '}' && depth > 0 {
        depth := depth - 1;
        if depth == 0 && start >= 0 {
          out, spans := Collect(valid, data, start, i, out, spans, all);
          all := all + [(start, i)];
          start := -1;
        }
      }
    }
  }

  // ---------------------------------------------------------------- embedded JSON objects

  /** Inside an open object, outside strings. */
  predicate Inside(e: Extract) {
    e.depth > 0 && !e.inString && !e.escaped
  }

  lemma {:induction false} QuietRun(e: Extract, i: nat, p: Bytes)
    requires Inside(e) && forall k :: 0 <= k < |p| ==> p[k] != '"' && p[k] != '{' && p[k] != '}'
    ensures Run(e, i, p) == e
    decreases |p|
  {
    if p != [] {
      QuietRun(e, i + 1, p[1..]);
    }
  }

  lemma UnitRun(e: Extract, i: nat, u: Unit)
    requires e.inString && !e.escaped && GoodUnit(u)
    ensures Run(e, i, UnitBytes(u)) == e
  {
    match u
    case Plain(c) => assert Run(e, i, [c]) == Run(Step(e, i, c), i + 1, [c][1..]);
    case Short(c) => EscapedRun(e, i, c);
    case Hex(digits) =>
      assert UnitBytes(u) == ['\\', 'u'] + digits;
      RunAppend(e, i, ['\\', 'u'], digits);
      EscapedRun(e, i, 'u');
      PlainRun(e, i + 2, digits);
  }

  lemma EscapedRun(e: Extract, i: nat, c: char)
    requires e.inString && !e.escaped
    ensures Run(e, i, ['\\', c]) == e
  {
    var p := ['\\', c];
    assert p[1..] == [c];
    assert Run(e, i, p) == Run(Step(e, i, '\\'), i + 1, [c]);
    assert Run(Step(e, i, '\\'), i + 1, [c]) == Run(Step(Step(e, i, '\\'), i + 1, c), i + 2, [c][1..]);
  }

  lemma {:induction false} PlainRun(e: Extract, i: nat, p: Bytes)
    requires e.inString && !e.escaped && forall k :: 0 <= k < |p| ==> p[k] != '"' && p[k] != '\\'
    ensures Run(e, i, p) == e
    decreases |p|
  {
    if p != [] {
      PlainRun(e, i + 1, p[1..]);
    }
  }

  lemma {:induction false} UnitsRun(e: Extract, i: nat, us: seq<Unit>)
    requires e.inString && !e.escaped && GoodText(us)
    ensures Run(e, i, UnitsBytes(us)) == e
    decreases |us|
  {
    if us != [] {
      RunAppend(e, i, UnitBytes(us[0]), UnitsBytes(us[1..]));
      UnitRun(e, i, us[0]);
      UnitsRun(e, i + |UnitBytes(us[0])|, us[1..]);
    }
  }

  lemma TextRun(e: Extract, i: nat, us: seq<Unit>)
    requires Inside(e) && GoodText(us)
    ensures Run(e, i, TextBytes(us)) == e
  {
    var body := UnitsBytes(us);
    var f := e.(inString := true);
    RunAppend(e, i, "\"" + body, "\"");
    RunAppend(e, i, "\"", body);
    assert Run(e, i, "\"") == Run(f, i + 1, "\""[1..]) == f;
    UnitsRun(f, i + 1, us);
    var j := i + 1 + |body|;
    assert Run(f, j, "\"") == Run(e, j + 1, "\""[1..]) == e;
  }

  lemma QuietNumber(v: Value)
    requires Good(v) && v.Number?
    ensures forall k :: 0 <= k < |NumberBytes(v)| ==>
      NumberBytes(v)[k] != '"' && NumberBytes(v)[k] != '{' && NumberBytes(v)[k] != '}'
  {
    QuietPart(v.fraction);
    QuietPart(v.exponent);
  }

  lemma QuietPart(s: Bytes)
    requires GoodFraction(s) || GoodExponent(s)
    ensures forall k :: 0 <= k < |s| ==> s[k] != '"' && s[k] != '{' && s[k] != '}'
  {
    forall k | 0 <= k < |s| ensures s[k] != '"' && s[k] != '{' && s[k] != '}' {
      if k >= 1 && AllDigits(s[1..]) {
        assert s[k] == s[1..][k - 1];
      } else if k >= 2 {
        assert s[k] == s[2..][k - 2];
      }
    }
  }

  /** A whole JSON value inside an object leaves the extractor where it was. */
  lemma {:induction false} ValueRun(e: Extract, i: nat, v: Value)
    requires Inside(e) && Good(v)
    ensures Run(e, i, Printed(v)) == e
    decreases v, 2
  {
    match v
    case Literal(w) => QuietRun(e, i, w);
    case Number(_, _, _, _) =>
      QuietNumber(v);
      QuietRun(e, i, NumberBytes(v));
    case Text(us) => TextRun(e, i, us);
    case Array(_, _) => ArrayRun(e, i, v);
    case Object(_, _) => NestedRun(e, i, v);
  }

  lemma ArrayRun(e: Extract, i: nat, v: Value)
    requires Inside(e) && Good(v) && v.Array?
    ensures Run(e, i, Printed(v)) == e
    decreases v, 0
  {
    var inner := if v.items.NoItems? then v.pad else PrintedItems(v.items);
    QuietRun(e, i, "[");
    if v.items.NoItems? {
      QuietRun(e, i + 1, inner);
    } else {
      ItemsRun(e, i + 1, v.items);
    }
    Then(e, i, "[", inner);
    QuietRun(e, i + 1 + |inner|, "]");
    Then(e, i, "[" + inner, "]");
  }

  lemma NestedRun(e: Extract, i: nat, v: Value)
    requires Inside(e) && Good(v) && v.Object?
    ensures Run(e, i, Printed(v)) == e
    decreases v, 1
  {
    var f, inner := e.(depth := e.depth + 1), InnerBytes(v);
    assert Printed(v) == "{" + (inner + "}");
    RunAppend(e, i, "{", inner + "}");
    assert Run(e, i, "{") == Run(f, i + 1, "{"[1..]) == f;
    RunAppend(f, i + 1, inner, "}");
    InnerRun(f, i + 1, v);
    var j := i + 1 + |inner|;
    assert Run(f, j, "}") == Run(Step(f, j, '}'), j + 1, "}"[1..]) == e;
  }

  function InnerBytes(v: Value): Bytes
    requires v.Object?
  {
    if v.members.NoMembers? then v.pad else PrintedMembers(v.members)
  }

  lemma InnerRun(e: Extract, i: nat, v: Value)
    requires Inside(e) && v.Object? && Good(v)
    ensures Run(e, i, InnerBytes(v)) == e
    decreases v, 0
  {
    if v.members.NoMembers? {
      QuietRun(e, i, v.pad);
    } else {
      MembersRun(e, i, v.members);
    }
  }

  lemma {:induction false} ItemsRun(e: Extract, i: nat, items: Items)
    requires Inside(e) && items.Item? && GoodItems(items)
    ensures Run(e, i, PrintedItems(items)) == e
    decreases items, 2
  {
    var a := items.before;
    var b := a + Printed(items.value);
    var c := b + items.after;
    var more := if items.rest.NoItems? then "" else "," + PrintedItems(items.rest);
    RunAppend(e, i, c, more);
    RunAppend(e, i, b, items.after);
    RunAppend(e, i, a, Printed(items.value));
    QuietRun(e, i, a);
    ValueRun(e, i + |a|, items.value);
    QuietRun(e, i + |b|, items.after);
    if items.rest.Item? {
      RunAppend(e, i + |c|, ",", PrintedItems(items.rest));
      QuietRun(e, i + |c|, ",");
      ItemsRun(e, i + |c| + 1, items.rest);
    }
  }

  lemma Then(e: Extract, i: nat, a: Bytes, b: Bytes)
    requires Run(e, i, a) == e && Run(e, i + |a|, b) == e
    ensures Run(e, i, a + b) == e
  {
    RunAppend(e, i, a, b);
  }

  function MemberHead(ms: Members): Bytes
    requires ms.Member?
  {
    ms.before + TextBytes(ms.key) + ms.mid + ":" + ms.post
  }

  lemma MemberHeadRun(e: Extract, i: nat, ms: Members)
    requires Inside(e) && ms.Member? && GoodMembers(ms)
    ensures Run(e, i, MemberHead(ms)) == e
  {
    var a := ms.before;
    var b := a + TextBytes(ms.key);
    var c := b + ms.mid;
    var d := c + ":";
    QuietRun(e, i, a);
    TextRun(e, i + |a|, ms.key);
    Then(e, i, a, TextBytes(ms.key));
    QuietRun(e, i + |b|, ms.mid);
    Then(e, i, b, ms.mid);
    QuietRun(e, i + |c|, ":");
    Then(e, i, c, ":");
    QuietRun(e, i + |d|, ms.post);
    Then(e, i, d, ms.post);
  }

  lemma {:induction false} MembersRun(e: Extract, i: nat, ms: Members)
    requires Inside(e) && ms.Member? && GoodMembers(ms)
    ensures Run(e, i, PrintedMembers(ms)) == e
    decreases ms, 2
  {
    var f := MemberHead(ms);
    var g := f + Printed(ms.value);
    var h := g + ms.after;
    MemberHeadRun(e, i, ms);
    ValueRun(e, i + |f|, ms.value);
    Then(e, i, f, Printed(ms.value));
    QuietRun(e, i + |g|, ms.after);
    Then(e, i, g, ms.after);
    if ms.rest.NoMembers? {
      assert PrintedMembers(ms) == h + "" == h;
    } else {
      QuietRun(e, i + |h|, ",");
      MembersRun(e, i + |h| + 1, ms.rest);
      Then(e, i + |h|, ",", PrintedMembers(ms.rest));
      Then(e, i, h, "," + PrintedMembers(ms.rest));
    }
  }

  /** Bytes between objects: no opening brace. */
  predicate Separator(p: Bytes) {
    forall k :: 0 <= k < |p| ==> p[k] != '{'
  }

  predicate Outside(e: Extract) {
    e.depth == 0 && e.start == -1 && !e.inString && !e.escaped
  }

  lemma {:induction false} SeparatorRun(e: Extract, i: nat, p: Bytes)
    requires Outside(e) && Separator(p)
    ensures Run(e, i, p) == e
    decreases |p|
  {
    if p != [] {
      SeparatorRun(e, i + 1, p[1..]);
    }
  }

  lemma ObjectRun(e: Extract, i: nat, v: Value)
    requires Outside(e) && v.Object? && Good(v)
    ensures Run(e, i, Printed(v)) == e.(spans := e.spans + [(i, i + |Printed(v)|)])
  {
    var f := e.(depth := 1, start := i);
    RunAppend(e, i, "{", InnerBytes(v) + "}");
    assert Printed(v) == "{" + (InnerBytes(v) + "}");
    assert Run(e, i, "{") == Run(f, i + 1, "{"[1..]) == f;
    RunAppend(f, i + 1, InnerBytes(v), "}");
    InnerRun(f, i + 1, v);
    var j := i + 1 + |InnerBytes(v)|;
    assert Run(f, j, "}") == Run(Step(f, j, '}'), j + 1, "}"[1..]);
  }

  /** Leading bytes, then objects, each followed by its gap. */
  function Embedded(lead: Bytes, objects: seq<Value>, gaps: seq<Bytes>): Bytes
    requires |objects| == |gaps|
  {
    if objects == [] then lead
    else
      var n := |objects| - 1;
      Embedded(lead, objects[..n], gaps[..n]) + Printed(objects[n]) + gaps[n]
  }

  /** Where the objects are. */
  function SpansOf(lead: Bytes, objects: seq<Value>, gaps: seq<Bytes>): (r: seq<Span>)
    requires |objects| == |gaps|
    ensures |r| == |objects|
  {
    if objects == [] then []
    else
      var n := |objects| - 1;
      var at := |Embedded(lead, objects[..n], gaps[..n])|;
      SpansOf(lead, objects[..n], gaps[..n]) + [(at, at + |Printed(objects[n])|)]
  }

  predicate AllObjects(objects: seq<Value>) {
    forall k :: 0 <= k < |objects| ==> objects[k].Object? && Good(objects[k])
  }

  predicate AllSeparators(gaps: seq<Bytes>) {
    forall k :: 0 <= k < |gaps| ==> Separator(gaps[k])
  }

  lemma AfterObject(s: Extract, e: Extract, before: Bytes, v: Value)
    requires Run(s, 0, before) == e && Outside(e) && v.Object? && Good(v)
    ensures Run(s, 0, before + Printed(v)) == e.(spans := e.spans + [(|before|, |before| + |Printed(v)|)])
  {
    RunAppend(s, 0, before, Printed(v));
    ObjectRun(e, |before|, v);
  }

  lemma AfterGap(s: Extract, e: Extract, before: Bytes, gap: Bytes)
    requires Run(s, 0, before) == e && Outside(e) && Separator(gap)
    ensures Run(s, 0, before + gap) == e
  {
    RunAppend(s, 0, before, gap);
    SeparatorRun(e, |before|, gap);
  }

  lemma {:induction false} EmbeddedRun(lead: Bytes, objects: seq<Value>, gaps: seq<Bytes>)
    requires |objects| == |gaps| && Separator(lead) && AllObjects(objects) && AllSeparators(gaps)
    ensures Run(START, 0, Embedded(lead, objects, gaps)) == START.(spans := SpansOf(lead, objects, gaps))
    decreases |objects|
  {
    if objects == [] {
      SeparatorRun(START, 0, lead);
    } else {
      var n := |objects| - 1;
      var before := Embedded(lead, objects[..n], gaps[..n]);
      EmbeddedRun(lead, objects[..n], gaps[..n]);
      var e := START.(spans := SpansOf(lead, objects[..n], gaps[..n]));
      AfterObject(START, e, before, objects[n]);
      AfterGap(START, START.(spans := SpansOf(lead, objects, gaps)), before + Printed(objects[n]), gaps[n]);
    }
  }

  lemma MiddleOf(data: Bytes, a: Bytes, b: Bytes, c: Bytes)
    requires StartsWith(data, a + b + c)
    ensures StartsWith(data, a) && Holds(data, (|a|, |a| + |b|), b)
  {
    var p := a + b + c;
    forall k | 0 <= k < |p| ensures data[k] == p[k] {
      assert data[..|p|][k] == data[k];
    }
    assert forall k :: 0 <= k < |a| ==> p[k] == a[k];
    assert forall k :: 0 <= k < |b| ==> p[|a| + k] == b[k];
    assert data[..|a|] == a;
    assert data[|a|..|a| + |b|] == b;
  }

  /** The spans hold the printed objects, whatever follows. */
  lemma {:induction false} SpanBytes(data: Bytes, lead: Bytes, objects: seq<Value>, gaps: seq<Bytes>, k: nat)
    requires k < |objects| == |gaps| && StartsWith(data, Embedded(lead, objects, gaps))
    ensures Holds(data, SpansOf(lead, objects, gaps)[k], Printed(objects[k]))
    decreases |objects|
  {
    var n := |objects| - 1;
    var before := Embedded(lead, objects[..n], gaps[..n]);
    MiddleOf(data, before, Printed(objects[n]), gaps[n]);
    if k < n {
      SpanBytes(data, lead, objects[..n], gaps[..n], k);
      assert objects[..n][k] == objects[k];
    }
  }

  lemma {:induction false} AllKept(valid: Bytes -> bool, data: Bytes, spans: seq<Span>)
    requires forall k :: 0 <= k < |spans| ==> Fits(valid, data, spans[k])
    ensures Kept(valid, data, spans) == spans
    decreases |spans|
  {
    if spans != [] {
      AllKept(valid, data, spans[..|spans| - 1]);
    }
  }

  /**
   JSON objects of at most 4 MiB between bytes without an opening brace are returned exactly and in
   order, given that encoding/json accepts every RFC 8259 text nested at most 10000 deep.
   */
  lemma FindsEmbeddedObjects(valid: Bytes -> bool, lead: Bytes, objects: seq<Value>, gaps: seq<Bytes>)
    requires forall v :: Good(v) && Nesting(v) <= MAX_VALID_NESTING ==> valid(Printed(v))
    requires |objects| == |gaps| && Separator(lead) && AllObjects(objects) && AllSeparators(gaps)
    requires forall k :: 0 <= k < |objects| ==>
      |Printed(objects[k])| <= MAX_OBJECT_BYTES && Nesting(objects[k]) <= MAX_VALID_NESTING
    ensures var data := Embedded(lead, objects, gaps);
      var kept := Kept(valid, data, At(data, |data|).spans);
      && |kept| == |objects|
      && forall k :: 0 <= k < |objects| ==> Holds(data, kept[k], Printed(objects[k]))
  {
    var data := Embedded(lead, objects, gaps);
    EmbeddedRun(lead, objects, gaps);
    assert data[..|data|] == data;
    forall k | 0 <= k < |objects|
      ensures Holds(data, SpansOf(lead, objects, gaps)[k], Printed(objects[k]))
    {
      SpanBytes(data, lead, objects, gaps, k);
    }
    AllKept(valid, data, SpansOf(lead, objects, gaps));
  }
}
