/**
 What the usage scanner ends with, for every JSON object in every chunking.

 `ScannerAgreesWithLookup` compares the automaton with a reader that parsed the whole object and
 looked up the last occurrence of each metadata name; `TooDeepDisables` is the other side of its
 nesting limit.
 */
module UsageScannerTheorems {
  import opened Options
  import opened Sequences
  import opened Json
  import opened Texts
  import opened UsageScanner

  // ---------------------------------------------------------------- effects of parsed values

  /** A string token as the bounded buffer delivers it. */
  function Buffered(us: seq<Unit>): Content
    requires GoodText(us)
  {
    if |TextBytes(us)| > TOKEN_LIMIT then [] else ContentOf(us)
  }

  function FieldName(scope: Scope, key: seq<Unit>): Content
    requires GoodText(key)
  {
    if scope == Skip then [] else Buffered(key)
  }

  /** A number counts only as an exact non-negative integer up to 2^53 - 1. */
  function Exact(v: Value): Option<nat>
    requires Good(v)
  {
    match v
    case Number(negative, whole, fraction, exponent) =>
      if negative || fraction != "" || exponent != "" || Decimal(whole) > EXACT_LIMIT then None
      else Some(Decimal(whole))
    case _ => None
  }

  function ValueEffect(f: Frame, v: Value, out: Telemetry): Telemetry
    requires Good(v)
    decreases v
  {
    match v
    case Literal(_) => out
    case Number(_, _, _, _) => NumberStored(f, Exact(v), out)
    case Text(us) => TextStored(f, Buffered(us), out)
    case Array(_, _) => out
    case Object(_, members) =>
      var scope := ChildScope(f, '{');
      MembersEffect(scope, members, OpenedOut(scope, out))
  }

  function MembersEffect(scope: Scope, ms: Members, out: Telemetry): Telemetry
    requires GoodMembers(ms)
    decreases ms
  {
    match ms
    case NoMembers => out
    case Member(_, key, _, _, value, _, rest) =>
      var f := Frame(true, false, FieldName(scope, key), scope);
      MembersEffect(scope, rest, ValueEffect(f, value, Cleared(f, out)))
  }

  lemma {:induction false} SkippedHasNoEffect(f: Frame, v: Value, out: Telemetry)
    requires Good(v) && f.scope == Skip
    ensures ValueEffect(f, v, out) == out
    decreases v, 0
  {
    if v.Object? {
      SkippedMembersHaveNoEffect(v.members, out);
    }
  }

  lemma {:induction false} SkippedMembersHaveNoEffect(ms: Members, out: Telemetry)
    requires GoodMembers(ms)
    ensures MembersEffect(Skip, ms, out) == out
    decreases ms, 1
  {
    if ms.Member? {
      SkippedHasNoEffect(Frame(true, false, [], Skip), ms.value, out);
      SkippedMembersHaveNoEffect(ms.rest, out);
    }
  }

  // ---------------------------------------------------------------- running over tokens

  predicate Ready(s: Scan) {
    !Stopped(s) && s.lex == Idle && s.stack != []
  }

  lemma {:induction false} SpacesRun(s: Scan, p: Bytes)
    requires s.lex == Idle && AllSpace(p)
    ensures Run(s, p) == s
    decreases |p|
  {
    if p != [] {
      SpacesRun(s, p[1..]);
    }
  }

  lemma RunOne(s: Scan, c: char)
    ensures Run(s, [c]) == Step(s, c)
  {
    assert Run(s, [c]) == Run(Step(s, c), [c][1..]);
  }

  function Shorter(a: nat, b: nat): nat {
    if a < b then a else b
  }

  /** `s` is `s0` inside a string whose bytes so far are `seen`, opening quote included. */
  predicate Reading(s0: Scan, s: Scan, keep: bool, seen: Bytes) {
    && s == s0.(lex := s.lex) && !Stopped(s0)
    && s.lex.InText? && s.lex.keep == keep && !s.lex.escape
    && Collected(keep, seen, s.lex.text, s.lex.overflow)
  }

  predicate Collected(keep: bool, seen: Bytes, text: Bytes, overflow: bool) {
    if keep then
      && |text| == Shorter(|seen|, TOKEN_LIMIT)
      && (overflow <==> |seen| > TOKEN_LIMIT)
      && (!overflow ==> text == seen)
    else text == [] && !overflow
  }

  lemma ReadChar(s0: Scan, s: Scan, keep: bool, seen: Bytes, c: char)
    requires Reading(s0, s, keep, seen) && c != '"' && c != '\\'
    ensures Reading(s0, Step(s, c), keep, seen + [c])
  {
  }

  lemma ReadEscaped(s0: Scan, s: Scan, keep: bool, seen: Bytes, c: char)
    requires Reading(s0, s, keep, seen)
    ensures Reading(s0, Run(s, ['\\', c]), keep, seen + ['\\', c])
  {
    assert ['\\', c] == ['\\'] + [c];
    RunAppend(s, ['\\'], [c]);
    RunOne(s, '\\');
    RunOne(Step(s, '\\'), c);
    assert seen + ['\\', c] == seen + ['\\'] + [c];
  }

  lemma {:induction false} ReadPlain(s0: Scan, s: Scan, keep: bool, seen: Bytes, p: Bytes)
    requires Reading(s0, s, keep, seen) && forall i :: 0 <= i < |p| ==> p[i] != '"' && p[i] != '\\'
    ensures Reading(s0, Run(s, p), keep, seen + p)
    decreases |p|
  {
    if p == [] {
      assert seen + p == seen;
    } else {
      ReadChar(s0, s, keep, seen, p[0]);
      ReadPlain(s0, Step(s, p[0]), keep, seen + [p[0]], p[1..]);
      assert seen + [p[0]] + p[1..] == seen + p;
    }
  }

  lemma ReadUnit(s0: Scan, s: Scan, keep: bool, seen: Bytes, u: Unit)
    requires Reading(s0, s, keep, seen) && GoodUnit(u)
    ensures Reading(s0, Run(s, UnitBytes(u)), keep, seen + UnitBytes(u))
  {
    match u
    case Plain(c) =>
      ReadChar(s0, s, keep, seen, c);
      RunOne(s, c);
    case Short(c) => ReadEscaped(s0, s, keep, seen, c);
    case Hex(digits) => ReadHex(s0, s, keep, seen, digits);
  }

  lemma ReadHex(s0: Scan, s: Scan, keep: bool, seen: Bytes, digits: Bytes)
    requires Reading(s0, s, keep, seen) && GoodUnit(Hex(digits))
    ensures Reading(s0, Run(s, "\\u" + digits), keep, seen + ("\\u" + digits))
  {
    var u := ['\\', 'u'];
    assert "\\u" == u;
    ReadEscaped(s0, s, keep, seen, 'u');
    RunAppend(s, u, digits);
    ReadPlain(s0, Run(s, u), keep, seen + u, digits);
    Regroup(seen, u, digits);
  }

  lemma {:induction false} ReadUnits(s0: Scan, s: Scan, keep: bool, seen: Bytes, us: seq<Unit>)
    requires Reading(s0, s, keep, seen) && GoodText(us)
    ensures Reading(s0, Run(s, UnitsBytes(us)), keep, seen + UnitsBytes(us))
    decreases |us|
  {
    if us == [] {
      assert seen + UnitsBytes(us) == seen;
    } else {
      ReadUnit(s0, s, keep, seen, us[0]);
      RunAppend(s, UnitBytes(us[0]), UnitsBytes(us[1..]));
      ReadUnits(s0, Run(s, UnitBytes(us[0])), keep, seen + UnitBytes(us[0]), us[1..]);
      assert seen + UnitBytes(us[0]) + UnitsBytes(us[1..]) == seen + UnitsBytes(us);
    }
  }

  /** A whole string token ends as `TextEnd` of its collected bytes. */
  lemma TextRun(s: Scan, us: seq<Unit>) returns (text: Bytes, overflow: bool)
    requires Ready(s) && GoodText(us)
    ensures Collected(KeepsText(s), TextBytes(us), text, overflow)
    ensures Run(s, TextBytes(us)) == TextEnd(s, KeepsText(s), text, overflow)
  {
    var keep, body := KeepsText(s), UnitsBytes(us);
    var a := Run(s, "\"");
    RunOne(s, '"');
    assert Reading(s, a, keep, "\"");
    ReadUnits(s, a, keep, "\"", us);
    var b := Run(a, body);
    RunOne(b, '"');
    RunAppend(s, "\"", body);
    RunAppend(s, "\"" + body, "\"");
    text := if keep then Pushed(b.lex.text, '"') else b.lex.text;
    overflow := if keep then Overflows(b.lex.text, b.lex.overflow) else b.lex.overflow;
    assert TextBytes(us) == "\"" + body + "\"";
    assert Step(b, '"') == TextEnd(b, keep, text, overflow) == TextEnd(s, keep, text, overflow);
  }

  lemma KeyRun(s: Scan, us: seq<Unit>)
    requires Ready(s) && GoodText(us) && Top(s).key
    ensures var g := Top(s).(field := FieldName(Top(s).scope, us), key := false);
      Run(s, TextBytes(us)) == WithTop(s, g).(out := Cleared(g, s.out))
  {
    var text, overflow := TextRun(s, us);
    TextRoundTrip(us);
  }

  lemma TextValueRun(s: Scan, us: seq<Unit>)
    requires Ready(s) && GoodText(us) && !Top(s).key
    ensures Run(s, TextBytes(us)) == s.(out := TextStored(Top(s), Buffered(us), s.out))
  {
    var text, overflow := TextRun(s, us);
    TextRoundTrip(us);
  }

  // ---------------------------------------------------------------- numbers and literals

  /** The bytes of a number or literal: none ends it and the first starts it. */
  predicate IsScalar(p: Bytes) {
    && p != [] && (forall i :: 0 <= i < |p| ==> !IsDelimiter(p[i]))
    && p[0] != ':' && p[0] != '{' && p[0] != '[' && p[0] != '"'
  }

  predicate ReadingNumber(s0: Scan, s: Scan, keep: bool, seen: Bytes) {
    && s == s0.(lex := s.lex) && !Stopped(s0)
    && s.lex.InNumber? && s.lex.keep == keep && Collected(keep, seen, s.lex.text, s.lex.overflow)
  }

  lemma {:induction false} ReadNumber(s0: Scan, s: Scan, keep: bool, seen: Bytes, p: Bytes)
    requires ReadingNumber(s0, s, keep, seen) && forall i :: 0 <= i < |p| ==> !IsDelimiter(p[i])
    ensures ReadingNumber(s0, Run(s, p), keep, seen + p)
    decreases |p|
  {
    if p == [] {
      assert seen + p == seen;
    } else {
      ReadNumber(s0, Step(s, p[0]), keep, seen + [p[0]], p[1..]);
      assert seen + [p[0]] + p[1..] == seen + p;
    }
  }

  lemma ScalarRead(s: Scan, p: Bytes)
    requires Ready(s) && IsScalar(p)
    ensures ReadingNumber(s, Run(s, p), NumericField(s), p)
  {
    var keep := NumericField(s);
    var a := Step(s, p[0]);
    assert ReadingNumber(s, a, keep, [p[0]]);
    ReadNumber(s, a, keep, [p[0]], p[1..]);
    assert [p[0]] + p[1..] == p;
  }

  /** The exact integer the bounded buffer makes of a token. */
  function BufferedExact(p: Bytes): Option<nat> {
    if |p| > TOKEN_LIMIT then None else ExactToken(p)
  }

  lemma ScalarEnd(s: Scan, b: Scan, p: Bytes)
    requires Ready(s) && ReadingNumber(s, b, NumericField(s), p)
    ensures NumberEnd(b, b.lex.keep, b.lex.text, b.lex.overflow)
      == s.(out := NumberStored(Top(s), BufferedExact(p), s.out))
  {
  }

  /** A number or literal takes effect at the delimiter after it. */
  lemma ScalarRun(s: Scan, p: Bytes, w: Bytes)
    requires Ready(s) && IsScalar(p) && w != [] && IsDelimiter(w[0])
    ensures Run(s, p + w) == Run(s.(out := NumberStored(Top(s), BufferedExact(p), s.out)), w)
  {
    ScalarRead(s, p);
    var b := Run(s, p);
    RunAppend(s, p, w);
    ScalarEnd(s, b, p);
    var t := s.(out := NumberStored(Top(s), BufferedExact(p), s.out));
    assert Step(b, w[0]) == Structural(t, w[0]) == Step(t, w[0]);
  }

  function Pow10(n: nat): nat {
    if n == 0 then 1 else 10 * Pow10(n - 1)
  }

  lemma {:induction false} DecimalAtLeast(s: Bytes)
    requires s != "" && AllDigits(s) && s[0] != '0'
    ensures Decimal(s) >= Pow10(|s| - 1)
    decreases |s|
  {
    if |s| > 1 {
      DecimalAtLeast(s[..|s| - 1]);
    } else {
      assert s[..0] == "";
    }
  }

  lemma {:induction false} Pow10Grows(n: nat)
    requires n >= 16
    ensures Pow10(n) > EXACT_LIMIT
  {
    if n == 16 {
      assert Pow10(4) == 10000;
      assert Pow10(8) == 1_0000_0000;
      assert Pow10(12) == 1_0000_0000_0000;
    } else {
      Pow10Grows(n - 1);
    }
  }

  /** The token of a number says exactly what its parsed form says, however long it is. */
  lemma NumberTokenExact(v: Value)
    requires Good(v) && v.Number?
    ensures IsScalar(NumberBytes(v))
    ensures BufferedExact(NumberBytes(v)) == Exact(v)
  {
    var p := NumberBytes(v);
    var k := (if v.negative then 1 else 0) + |v.whole|;
    NumberBytesScalar(v);
    if v.negative {
      assert p[0] == '-';
    } else if v.fraction != "" {
      assert p[k] == v.fraction[0] == '.';
    } else if v.exponent != "" {
      assert p[k] == v.exponent[0];
    } else {
      assert p == v.whole;
      if |p| > TOKEN_LIMIT {
        DecimalAtLeast(p);
        Pow10Grows(|p| - 1);
      }
    }
  }

  lemma NumberBytesScalar(v: Value)
    requires Good(v) && v.Number?
    ensures IsScalar(NumberBytes(v))
  {
    var p := NumberBytes(v);
    var a := if v.negative then "-" else "";
    assert p == a + (v.whole + (v.fraction + v.exponent));
    forall i | 0 <= i < |p| ensures !IsDelimiter(p[i]) {
      if i < |a| {
      } else if i < |a| + |v.whole| {
        assert p[i] == v.whole[i - |a|];
      } else if i < |a| + |v.whole| + |v.fraction| {
        PartChar(v.fraction, i - |a| - |v.whole|);
      } else {
        PartChar(v.exponent, i - |a| - |v.whole| - |v.fraction|);
      }
    }
    assert p[0] == if v.negative then '-' else v.whole[0];
  }

  lemma PartChar(s: Bytes, i: nat)
    requires (GoodFraction(s) || GoodExponent(s)) && i < |s|
    ensures !IsDelimiter(s[i])
  {
    if i >= 1 && AllDigits(s[1..]) {
      assert s[i] == s[1..][i - 1];
    } else if i >= 2 {
      assert s[i] == s[2..][i - 2];
    }
  }

  // ---------------------------------------------------------------- running over values

  /** A value read inside an object member or an array has its effect and leaves the rest to run. */
  lemma {:induction false} ValueRun(s: Scan, v: Value, w: Bytes)
    requires Ready(s) && !Top(s).key && Good(v)
    requires |s.stack| + Nesting(v) <= STACK_LIMIT
    requires w != [] && IsDelimiter(w[0])
    ensures Run(s, Printed(v) + w) == Run(s.(out := ValueEffect(Top(s), v, s.out)), w)
    decreases v, 1
  {
    match v
    case Literal(word) =>
      assert word[0] == 't' || word[0] == 'f' || word[0] == 'n';
      ScalarRun(s, word, w);
      assert !AllDigits(word) by {
        assert !IsDigit(word[0]);
      }
    case Number(_, _, _, _) =>
      NumberTokenExact(v);
      ScalarRun(s, NumberBytes(v), w);
    case Text(us) =>
      TextValueRun(s, us);
      RunAppend(s, TextBytes(us), w);
    case Array(pad, items) =>
      ArrayRun(s, v);
      RunAppend(s, Printed(v), w);
    case Object(pad, members) =>
      ObjectRun(s, v);
      RunAppend(s, Printed(v), w);
  }

  /** The opening bracket of a container that fits the stack, and what is left to read. */
  lemma OpenRun(s: Scan, open: char, rest: Bytes)
    requires !Stopped(s) && s.lex == Idle && (open == '{' || open == '[')
    ensures Run(s, [open] + rest) == Run(Opened(s, open), rest)
  {
    RunAppend(s, [open], rest);
    RunOne(s, open);
  }

  /** Closing a container gives back the stack it was opened on. */
  lemma OpenedThenClosed(s: Scan, open: char, out: Telemetry)
    requires !Stopped(s) && |s.stack| < STACK_LIMIT
    ensures Closed(Opened(s, open).(out := out)) == s.(out := out, done := s.stack == [])
  {
    assert Opened(s, open).stack[..|s.stack|] == s.stack;
  }

  lemma ArrayRun(s: Scan, v: Value)
    requires Ready(s) && v.Array? && Good(v)
    requires |s.stack| + Nesting(v) <= STACK_LIMIT
    ensures Run(s, Printed(v)) == s
    decreases v, 0
  {
    var inner := if v.items.NoItems? then v.pad else PrintedItems(v.items);
    var a := Opened(s, '[');
    Regroup("[", inner, "]");
    OpenRun(s, '[', inner + "]");
    OpenedThenClosed(s, '[', a.out);
    if v.items.NoItems? {
      CloseRun(a, inner, ']');
    } else {
      ItemsRun(a, v.items);
    }
  }

  lemma ObjectRun(s: Scan, v: Value)
    requires !Stopped(s) && s.lex == Idle && v.Object? && Good(v)
    requires |s.stack| + Nesting(v) <= STACK_LIMIT
    ensures var scope := if s.stack == [] then Root else ChildScope(Top(s), '{');
      Run(s, Printed(v)) == s.(out := MembersEffect(scope, v.members, OpenedOut(scope, s.out)), done := s.stack == [])
    decreases v, 0
  {
    var inner := if v.members.NoMembers? then v.pad else PrintedMembers(v.members);
    var a := Opened(s, '{');
    Regroup("{", inner, "}");
    OpenRun(s, '{', inner + "}");
    OpenedThenClosed(s, '{', MembersEffect(Top(a).scope, v.members, a.out));
    if v.members.NoMembers? {
      CloseRun(a, inner, '}');
    } else {
      MembersRun(a, v.members);
    }
  }

  /** What follows an item or member: the closing bracket, or a comma and the rest. */
  function Tail(rest: Bytes, last: bool, close: char): Bytes {
    if last then [close] else "," + (rest + [close])
  }

  lemma ItemsSplit(items: Items)
    requires items.Item?
    ensures PrintedItems(items) + "]" == items.before
      + (Printed(items.value) + (items.after + Tail(PrintedItems(items.rest), items.rest.NoItems?, ']')))
  {
    var v, rest := Printed(items.value), PrintedItems(items.rest);
    var more := if items.rest.NoItems? then "" else "," + rest;
    assert Tail(rest, items.rest.NoItems?, ']') == more + "]";
    Regroup(items.before + v + items.after, more, "]");
    Regroup(items.before + v, items.after, more + "]");
    Regroup(items.before, v, items.after + (more + "]"));
  }

  /** A member list and what follows it, grouped from the right the way it is scanned. */
  lemma MembersCut(ms: Members, w: Bytes)
    requires ms.Member?
    ensures var more := if ms.rest.NoMembers? then "" else "," + PrintedMembers(ms.rest);
      PrintedMembers(ms) + w == ms.before + (TextBytes(ms.key) + (ms.mid + (":" + (ms.post
        + (Printed(ms.value) + (ms.after + (more + w)))))))
  {
    var k, v := TextBytes(ms.key), Printed(ms.value);
    var more := if ms.rest.NoMembers? then "" else "," + PrintedMembers(ms.rest);
    var p1 := ms.before + k;
    var p2 := p1 + ms.mid;
    var p3 := p2 + ":";
    var p4 := p3 + ms.post;
    var p5 := p4 + v;
    var p6 := p5 + ms.after;
    Regroup(p6, more, w);
    Regroup(p5, ms.after, more + w);
    Regroup(p4, v, ms.after + (more + w));
    Regroup(p3, ms.post, v + (ms.after + (more + w)));
    Regroup(p2, ":", ms.post + (v + (ms.after + (more + w))));
    Regroup(p1, ms.mid, ":" + (ms.post + (v + (ms.after + (more + w)))));
    Regroup(ms.before, k, ms.mid + (":" + (ms.post + (v + (ms.after + (more + w))))));
  }

  lemma MembersSplit(ms: Members)
    requires ms.Member?
    ensures PrintedMembers(ms) + "}" == ms.before + (TextBytes(ms.key) + (ms.mid + (":" + (ms.post
      + (Printed(ms.value) + (ms.after + Tail(PrintedMembers(ms.rest), ms.rest.NoMembers?, '}')))))))
  {
    MembersCut(ms, "}");
    TailIsMore(PrintedMembers(ms.rest), ms.rest.NoMembers?, '}');
  }

  lemma TailIsMore(rest: Bytes, last: bool, close: char)
    ensures (if last then "" else "," + rest) + [close] == Tail(rest, last, close)
  {
  }

  /** The white space and comma between two items or members. */
  lemma CommaRun(s: Scan, after: Bytes, rest: Bytes)
    requires Ready(s) && AllSpace(after)
    ensures Run(s, after + ("," + rest)) == Run(Separated(s), rest)
  {
    RunAppend(s, after, "," + rest);
    SpacesRun(s, after);
    RunAppend(s, ",", rest);
    RunOne(s, ',');
  }

  lemma CloseRun(s: Scan, after: Bytes, close: char)
    requires Ready(s) && AllSpace(after) && (close == '}' || close == ']')
    ensures Run(s, after + [close]) == Closed(s)
  {
    RunAppend(s, after, [close]);
    SpacesRun(s, after);
    RunOne(s, close);
  }

  lemma {:induction false} ItemsRun(s: Scan, items: Items)
    requires Ready(s) && Top(s) == Frame(false, false, [], Skip) && items.Item? && GoodItems(items)
    requires |s.stack| + ItemsNesting(items) <= STACK_LIMIT
    ensures Run(s, PrintedItems(items) + "]") == Closed(s)
    decreases items, 2
  {
    var tail := Tail(PrintedItems(items.rest), items.rest.NoItems?, ']');
    var w := items.after + tail;
    ItemsSplit(items);
    RunAppend(s, items.before, Printed(items.value) + w);
    SpacesRun(s, items.before);
    ValueRun(s, items.value, w);
    SkippedHasNoEffect(Top(s), items.value, s.out);
    if items.rest.NoItems? {
      CloseRun(s, items.after, ']');
    } else {
      CommaRun(s, items.after, PrintedItems(items.rest) + "]");
      assert Separated(s) == s;
      ItemsRun(s, items.rest);
    }
  }

  lemma {:induction false} MembersRun(s: Scan, ms: Members)
    requires Ready(s) && Top(s).isObject && Top(s).key && Top(s).field == [] && ms.Member? && GoodMembers(ms)
    requires |s.stack| + MembersNesting(ms) <= STACK_LIMIT
    ensures Run(s, PrintedMembers(ms) + "}") == Closed(s.(out := MembersEffect(Top(s).scope, ms, s.out)))
    decreases ms, 2
  {
    var w := ms.after + Tail(PrintedMembers(ms.rest), ms.rest.NoMembers?, '}');
    var f := Frame(true, false, FieldName(Top(s).scope, ms.key), Top(s).scope);
    var a := WithTop(s, f).(out := Cleared(f, s.out));
    MembersSplit(ms);
    MemberHead(s, ms, Printed(ms.value) + w);
    ValueRun(a, ms.value, w);
    MembersRest(s, ms, a.(out := ValueEffect(f, ms.value, a.out)), w);
  }

  /** After a member, a comma brings back the frame a name is read in, and a bracket drops it. */
  lemma AfterMember(s: Scan, f: Frame, o: Telemetry)
    requires Ready(s) && Top(s) == Frame(true, true, [], f.scope) && f.isObject
    ensures Separated(WithTop(s, f).(out := o)) == s.(out := o)
    ensures Closed(WithTop(s, f).(out := o)) == Closed(s.(out := o))
  {
    var b := WithTop(s, f).(out := o);
    assert Separated(b).stack == s.stack;
    assert b.stack[..|b.stack| - 1] == s.stack[..|s.stack| - 1];
  }

  lemma MembersRest(s: Scan, ms: Members, b: Scan, w: Bytes)
    requires Ready(s) && Top(s).isObject && Top(s).key && Top(s).field == [] && ms.Member? && GoodMembers(ms)
    requires |s.stack| + MembersNesting(ms) <= STACK_LIMIT
    requires w == ms.after + Tail(PrintedMembers(ms.rest), ms.rest.NoMembers?, '}')
    requires var f := Frame(true, false, FieldName(Top(s).scope, ms.key), Top(s).scope);
      b == WithTop(s, f).(out := ValueEffect(f, ms.value, Cleared(f, s.out)))
    ensures Run(b, w) == Closed(s.(out := MembersEffect(Top(s).scope, ms, s.out)))
    decreases ms, 1
  {
    var f := Frame(true, false, FieldName(Top(s).scope, ms.key), Top(s).scope);
    var o := ValueEffect(f, ms.value, Cleared(f, s.out));
    AfterMember(s, f, o);
    if ms.rest.NoMembers? {
      CloseRun(b, ms.after, '}');
    } else {
      CommaRun(b, ms.after, PrintedMembers(ms.rest) + "}");
      MembersRun(s.(out := o), ms.rest);
    }
  }

  /** A member up to its value: the frame learns the name and the field it replaces is cleared. */
  lemma MemberHead(s: Scan, ms: Members, w: Bytes)
    requires Ready(s) && Top(s).key && ms.Member? && GoodMembers(ms)
    ensures var f := Top(s).(field := FieldName(Top(s).scope, ms.key), key := false);
      Run(s, ms.before + (TextBytes(ms.key) + (ms.mid + (":" + (ms.post + w)))))
        == Run(WithTop(s, f).(out := Cleared(f, s.out)), w)
  {
    var f := Top(s).(field := FieldName(Top(s).scope, ms.key), key := false);
    var a := WithTop(s, f).(out := Cleared(f, s.out));
    RunAppend(s, ms.before, TextBytes(ms.key) + (ms.mid + (":" + (ms.post + w))));
    SpacesRun(s, ms.before);
    RunAppend(s, TextBytes(ms.key), ms.mid + (":" + (ms.post + w)));
    KeyRun(s, ms.key);
    RunAppend(a, ms.mid, ":" + (ms.post + w));
    SpacesRun(a, ms.mid);
    RunAppend(a, ":", ms.post + w);
    RunOne(a, ':');
    RunAppend(a, ms.post, w);
    SpacesRun(a, ms.post);
  }

  // ---------------------------------------------------------------- last-occurrence lookup

  function ExactAt(ms: Members, name: string): Option<nat>
    requires GoodMembers(ms)
  {
    match Lookup(ms, name)
    case Some(v) => Exact(v)
    case None => None
  }

  /** The cached token count of a `prompt_tokens_details` value. */
  function DetailsCached(v: Value): Option<nat>
    requires Good(v)
  {
    if v.Object? then ExactAt(v.members, "cached_tokens") else None
  }

  function UsageCached(v: Value): Option<nat>
    requires Good(v)
  {
    if v.Object? then
      match Lookup(v.members, "prompt_tokens_details")
      case Some(d) => DetailsCached(d)
      case None => None
    else None
  }

  function UsageInput(v: Value): Option<nat>
    requires Good(v)
  {
    if v.Object? then ExactAt(v.members, "prompt_tokens") else None
  }

  /** A text field: its string when that is non-empty and fits the buffer, otherwise "unknown". */
  function TextField(v: Value): Content
    requires Good(v)
  {
    if v.Text? then KnownText(Buffered(v.units)) else Ascii("unknown")
  }

  /** What a reader of the parsed response takes from it. */
  function Parsed(root: Members): Telemetry
    requires GoodMembers(root)
  {
    Telemetry(
      match Lookup(root, "usage") { case Some(v) => UsageInput(v) case None => None },
      match Lookup(root, "usage") { case Some(v) => UsageCached(v) case None => None },
      match Lookup(root, "service_tier") { case Some(v) => TextField(v) case None => [] },
      match Lookup(root, "model") { case Some(v) => TextField(v) case None => [] })
  }

  /**
   The bounded buffer never loses a metadata name: even a name written wholly in \uXXXX escapes
   fits, and a longer key is none of them.
   */
  lemma NameSurvivesBuffer(key: seq<Unit>, scope: Scope, name: string)
    requires GoodText(key) && scope != Skip && 1 <= |name| <= 21
    ensures FieldName(scope, key) == Ascii(name) <==> ContentOf(key) == Ascii(name)
  {
    UnitsLength(key);
  }

  lemma ScopeNamesDiffer()
    ensures Ascii("usage") != Ascii("model") && Ascii("usage") != Ascii("service_tier")
    ensures Ascii("model") != Ascii("service_tier")
    ensures Ascii("prompt_tokens") != Ascii("prompt_tokens_details")
  {
    assert Ascii("usage")[0] != Ascii("model")[0];
  }

  lemma {:induction false} DetailsEffect(ms: Members, out: Telemetry)
    requires GoodMembers(ms)
    ensures MembersEffect(InDetails, ms, out) ==
      out.(cached := match Lookup(ms, "cached_tokens") { case Some(v) => Exact(v) case None => out.cached })
  {
    if ms.Member? {
      NameSurvivesBuffer(ms.key, InDetails, "cached_tokens");
      var f := Frame(true, false, FieldName(InDetails, ms.key), InDetails);
      if ms.value.Object? {
        SkippedMembersHaveNoEffect(ms.value.members, Cleared(f, out));
      }
      DetailsEffect(ms.rest, ValueEffect(f, ms.value, Cleared(f, out)));
    }
  }

  lemma UsageMemberEffect(key: seq<Unit>, v: Value, out: Telemetry)
    requires GoodText(key) && Good(v)
    ensures var f := Frame(true, false, FieldName(InUsage, key), InUsage);
      ValueEffect(f, v, Cleared(f, out)) ==
        if ContentOf(key) == Ascii("prompt_tokens") then out.(input := Exact(v))
        else if ContentOf(key) == Ascii("prompt_tokens_details") then out.(cached := DetailsCached(v))
        else out
  {
    ScopeNamesDiffer();
    NameSurvivesBuffer(key, InUsage, "prompt_tokens");
    NameSurvivesBuffer(key, InUsage, "prompt_tokens_details");
    var f := Frame(true, false, FieldName(InUsage, key), InUsage);
    if v.Object? {
      DetailsEffect(v.members, Cleared(f, out));
      SkippedMembersHaveNoEffect(v.members, Cleared(f, out));
    }
  }

  lemma {:induction false} UsageEffect(ms: Members, out: Telemetry)
    requires GoodMembers(ms)
    ensures MembersEffect(InUsage, ms, out) == out.(
      input := match Lookup(ms, "prompt_tokens") { case Some(v) => Exact(v) case None => out.input },
      cached := match Lookup(ms, "prompt_tokens_details") { case Some(v) => DetailsCached(v) case None => out.cached })
  {
    if ms.Member? {
      ScopeNamesDiffer();
      var f := Frame(true, false, FieldName(InUsage, ms.key), InUsage);
      UsageMemberEffect(ms.key, ms.value, out);
      UsageEffect(ms.rest, ValueEffect(f, ms.value, Cleared(f, out)));
    }
  }

  lemma RootMemberEffect(key: seq<Unit>, v: Value, out: Telemetry)
    requires GoodText(key) && Good(v)
    ensures var f := Frame(true, false, FieldName(Root, key), Root);
      ValueEffect(f, v, Cleared(f, out)) ==
        if ContentOf(key) == Ascii("usage") then out.(input := UsageInput(v), cached := UsageCached(v))
        else if ContentOf(key) == Ascii("service_tier") then out.(tier := TextField(v))
        else if ContentOf(key) == Ascii("model") then out.(model := TextField(v))
        else out
  {
    ScopeNamesDiffer();
    NameSurvivesBuffer(key, Root, "usage");
    NameSurvivesBuffer(key, Root, "service_tier");
    NameSurvivesBuffer(key, Root, "model");
    var f := Frame(true, false, FieldName(Root, key), Root);
    if v.Object? {
      UsageEffect(v.members, Cleared(f, out));
      SkippedMembersHaveNoEffect(v.members, Cleared(f, out));
    }
  }

  lemma {:induction false} RootEffect(ms: Members, out: Telemetry)
    requires GoodMembers(ms)
    ensures MembersEffect(Root, ms, out) == Telemetry(
      match Lookup(ms, "usage") { case Some(v) => UsageInput(v) case None => out.input },
      match Lookup(ms, "usage") { case Some(v) => UsageCached(v) case None => out.cached },
      match Lookup(ms, "service_tier") { case Some(v) => TextField(v) case None => out.tier },
      match Lookup(ms, "model") { case Some(v) => TextField(v) case None => out.model })
  {
    if ms.Member? {
      ScopeNamesDiffer();
      var f := Frame(true, false, FieldName(Root, ms.key), Root);
      RootMemberEffect(ms.key, ms.value, out);
      RootEffect(ms.rest, ValueEffect(f, ms.value, Cleared(f, out)));
    }
  }

  /**
   The main theorem: for every JSON object nested at most 64 deep, with any white space before it
   and any bytes after it, the scanner is done and holds exactly what the last occurrence of each
   metadata name says in the parsed object.
   */
  lemma ScannerAgreesWithLookup(before: Bytes, root: Value, after: Bytes)
    requires AllSpace(before) && Good(root) && root.Object? && Nesting(root) <= STACK_LIMIT
    ensures Run(START, before + Printed(root) + after) == Scan([], Idle, false, true, Parsed(root.members))
  {
    SpacesRun(START, before);
    RunAppend(START, before, Printed(root));
    ObjectRun(START, root);
    RootEffect(root.members, START.out);
    RunAppend(START, before + Printed(root), after);
    RunStopped(Run(START, before + Printed(root)), after);
  }

  // ---------------------------------------------------------------- beyond the nesting limit

  /** The scanner gave up and reports no token counts. */
  predicate GaveUp(s: Scan) {
    s.disabled && !s.done && s.out.input == None && s.out.cached == None
  }

  lemma {:induction false} DeepValueGivesUp(s: Scan, v: Value, w: Bytes)
    requires Ready(s) && !Top(s).key && Good(v)
    requires |s.stack| <= STACK_LIMIT < |s.stack| + Nesting(v)
    ensures GaveUp(Run(s, Printed(v) + w))
    decreases v, 1
  {
    DeepContainerGivesUp(s, v, w);
  }

  lemma DeepContainerGivesUp(s: Scan, v: Value, w: Bytes)
    requires !Stopped(s) && s.lex == Idle && (s.stack == [] ==> v.Object?) && Good(v)
    requires |s.stack| <= STACK_LIMIT < |s.stack| + Nesting(v)
    ensures GaveUp(Run(s, Printed(v) + w))
    decreases v, 0
  {
    var open := if v.Array? then '[' else '{';
    var close := if v.Array? then ']' else '}';
    var a, inner := Opened(s, open), Inner(v);
    Regroup([open] + inner, [close], w);
    Regroup([open], inner, [close] + w);
    RunAppend(s, [open], inner + ([close] + w));
    RunOne(s, open);
    if |s.stack| == STACK_LIMIT {
      RunStopped(a, inner + ([close] + w));
    } else if v.Array? {
      DeepItemsGiveUp(a, v.items, [close] + w);
    } else {
      DeepMembersGiveUp(a, v.members, [close] + w);
    }
  }

  /** What a container prints between its brackets. */
  function Inner(v: Value): Bytes
    requires v.Array? || v.Object?
  {
    if v.Array? then (if v.items.NoItems? then v.pad else PrintedItems(v.items))
    else (if v.members.NoMembers? then v.pad else PrintedMembers(v.members))
  }

  lemma {:induction false} DeepItemsGiveUp(s: Scan, items: Items, w: Bytes)
    requires Ready(s) && Top(s) == Frame(false, false, [], Skip) && GoodItems(items)
    requires |s.stack| <= STACK_LIMIT < |s.stack| + ItemsNesting(items)
    ensures GaveUp(Run(s, PrintedItems(items) + w))
    decreases items, 2
  {
    var more := if items.rest.NoItems? then "" else "," + PrintedItems(items.rest);
    var u := items.after + (more + w);
    var v := Printed(items.value);
    Regroup(items.before + v + items.after, more, w);
    Regroup(items.before + v, items.after, more + w);
    Regroup(items.before, v, u);
    RunAppend(s, items.before, v + u);
    SpacesRun(s, items.before);
    if |s.stack| + Nesting(items.value) > STACK_LIMIT {
      DeepValueGivesUp(s, items.value, u);
    } else {
      Regroup(",", PrintedItems(items.rest), w);
      ValueRun(s, items.value, u);
      SkippedHasNoEffect(Top(s), items.value, s.out);
      CommaRun(s, items.after, PrintedItems(items.rest) + w);
      assert Separated(s) == s;
      DeepItemsGiveUp(s, items.rest, w);
    }
  }

  lemma {:induction false} DeepMembersGiveUp(s: Scan, ms: Members, w: Bytes)
    requires Ready(s) && Top(s).isObject && Top(s).key && Top(s).field == [] && GoodMembers(ms)
    requires |s.stack| <= STACK_LIMIT < |s.stack| + MembersNesting(ms)
    ensures GaveUp(Run(s, PrintedMembers(ms) + w))
    decreases ms, 2
  {
    var more := if ms.rest.NoMembers? then "" else "," + PrintedMembers(ms.rest);
    var v, u := Printed(ms.value), ms.after + (more + w);
    MembersCut(ms, w);
    var f := Top(s).(field := FieldName(Top(s).scope, ms.key), key := false);
    var a := WithTop(s, f).(out := Cleared(f, s.out));
    MemberHead(s, ms, v + u);
    if |s.stack| + Nesting(ms.value) > STACK_LIMIT {
      DeepValueGivesUp(a, ms.value, u);
    } else {
      Regroup(",", PrintedMembers(ms.rest), w);
      ValueRun(a, ms.value, u);
      var o := ValueEffect(f, ms.value, a.out);
      CommaRun(a.(out := o), ms.after, PrintedMembers(ms.rest) + w);
      AfterMember(s, f, o);
      DeepMembersGiveUp(s.(out := o), ms.rest, w);
    }
  }

  /** An object nested deeper than the stack never yields token counts and never ends `done`. */
  lemma TooDeepDisables(before: Bytes, root: Value, after: Bytes)
    requires AllSpace(before) && Good(root) && root.Object? && Nesting(root) > STACK_LIMIT
    ensures GaveUp(Run(START, before + Printed(root) + after))
  {
    SpacesRun(START, before);
    assert before + Printed(root) + after == before + (Printed(root) + after);
    RunAppend(START, before, Printed(root) + after);
    DeepContainerGivesUp(START, root, after);
  }

  // ---------------------------------------------------------------- any chunking

  function Joined(chunks: seq<Bytes>): Bytes {
    if chunks == [] then "" else Joined(chunks[..|chunks| - 1]) + chunks[|chunks| - 1]
  }

  /** A body fed in chunks is a body fed at once. */
  method ScanBody(chunks: seq<Bytes>) returns (scanner: Scanner)
    ensures scanner.Valid() && scanner.View() == Run(START, Joined(chunks))
  {
    scanner := new Scanner();
    var i := 0;
    while i < |chunks|
      invariant 0 <= i <= |chunks|
      invariant fresh(scanner) && fresh(scanner.stack) && fresh(scanner.token)
      invariant scanner.Valid() && scanner.View() == Run(START, Joined(chunks[..i]))
    {
      RunAppend(START, Joined(chunks[..i]), chunks[i]);
      assert chunks[..i + 1][..i] == chunks[..i];
      scanner.Feed(chunks[i]);
      i := i + 1;
    }
    assert chunks[..i] == chunks;
  }
}
