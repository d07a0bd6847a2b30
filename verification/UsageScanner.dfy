/**
 The streaming usage scanner (internal/inferencemetrics/usage.go).

 The scanner sees a response body byte by byte, in any chunking, and keeps only a bounded token.
 `Step` is its transition on one byte and `Run` on many; the class `Scanner` holds the fields of the
 original and its `Feed` is proved to be `Run`.  What the scanner ends with for every JSON object is
 proved in UsageScannerTheorems.dfy.
 */
module UsageScanner {
  import opened Options
  import opened Json
  import opened Texts

  const STACK_LIMIT: nat := 64
  const TOKEN_LIMIT: nat := 128
  const EXACT_LIMIT: nat := 0x1F_FFFF_FFFF_FFFF  // 2^53 - 1

  /** Which part of the response an open container is; Skip covers all payload. */
  datatype Scope = Skip | Root | InUsage | InDetails

  datatype Frame = Frame(isObject: bool, key: bool, field: Content, scope: Scope)

  /** The token being read.  `text` stays empty unless `keep`. */
  datatype Lexeme =
    | Idle
    | InText(keep: bool, text: Bytes, overflow: bool, escape: bool)
    | InNumber(keep: bool, text: Bytes, overflow: bool)

  datatype Telemetry = Telemetry(input: Option<nat>, cached: Option<nat>, tier: Content, model: Content)

  datatype Scan = Scan(stack: seq<Frame>, lex: Lexeme, disabled: bool, done: bool, out: Telemetry)

  const START: Scan := Scan([], Idle, false, false, Telemetry(None, None, [], []))

  predicate Stopped(s: Scan) {
    s.disabled || s.done
  }

  function Top(s: Scan): Frame
    requires s.stack != []
  {
    s.stack[|s.stack| - 1]
  }

  function WithTop(s: Scan, f: Frame): Scan
    requires s.stack != []
  {
    s.(stack := s.stack[|s.stack| - 1 := f])
  }

  predicate Named(f: Frame, scope: Scope, name: string) {
    f.scope == scope && f.field == Ascii(name)
  }

  // ---------------------------------------------------------------- token buffer

  function Pushed(text: Bytes, c: char): Bytes {
    if |text| < TOKEN_LIMIT then text + [c] else text
  }

  predicate Overflows(text: Bytes, overflow: bool) {
    overflow || |text| >= TOKEN_LIMIT
  }

  // ---------------------------------------------------------------- ends of tokens

  /** Last occurrence wins, including a malformed or null replacement. */
  function Cleared(f: Frame, out: Telemetry): Telemetry {
    if Named(f, Root, "usage") then out.(input := None, cached := None)
    else if Named(f, Root, "service_tier") then out.(tier := Ascii("unknown"))
    else if Named(f, Root, "model") then out.(model := Ascii("unknown"))
    else if Named(f, InUsage, "prompt_tokens") then out.(input := None)
    else if Named(f, InUsage, "prompt_tokens_details") then out.(cached := None)
    else if Named(f, InDetails, "cached_tokens") then out.(cached := None)
    else out
  }

  function KnownText(value: Content): Content {
    if value == [] then Ascii("unknown") else value
  }

  function TextStored(f: Frame, value: Content, out: Telemetry): Telemetry {
    if Named(f, Root, "service_tier") then out.(tier := KnownText(value))
    else if Named(f, Root, "model") then out.(model := KnownText(value))
    else out
  }

  /** The scan after the closing quote was seen; the token is `text`. */
  function TextEnd(s: Scan, keep: bool, text: Bytes, overflow: bool): Scan {
    if s.stack == [] then s.(lex := Idle)
    else
      var f := Top(s);
      var value := if keep && !overflow then Decoded(text) else [];
      if f.key then
        var g := f.(field := value, key := false);
        WithTop(s, g).(out := Cleared(g, s.out), lex := Idle)
      else s.(out := TextStored(f, value, s.out), lex := Idle)
  }

  /** The exact non-negative integer a token denotes, if the metric can carry it. */
  function ExactToken(text: Bytes): Option<nat> {
    if text == "" || (|text| > 1 && text[0] == '0') || !AllDigits(text) || Decimal(text) > EXACT_LIMIT then None
    else Some(Decimal(text))
  }

  function NumberStored(f: Frame, n: Option<nat>, out: Telemetry): Telemetry {
    if n.None? then out
    else if Named(f, InUsage, "prompt_tokens") then out.(input := n)
    else if Named(f, InDetails, "cached_tokens") then out.(cached := n)
    else out
  }

  function NumberEnd(s: Scan, keep: bool, text: Bytes, overflow: bool): Scan {
    if !keep || overflow || s.stack == [] then s.(lex := Idle)
    else s.(out := NumberStored(Top(s), ExactToken(text), s.out), lex := Idle)
  }

  predicate NumericField(s: Scan) {
    s.stack != [] && (Named(Top(s), InUsage, "prompt_tokens") || Named(Top(s), InDetails, "cached_tokens"))
  }

  predicate KeepsText(s: Scan) {
    s.stack != [] && Top(s).scope != Skip &&
    (Top(s).key || Named(Top(s), Root, "service_tier") || Named(Top(s), Root, "model"))
  }

  // ---------------------------------------------------------------- transitions

  /** The scope a container opened inside frame `f` gets. */
  function ChildScope(f: Frame, c: char): Scope {
    if c == '{' && Named(f, Root, "usage") then InUsage
    else if c == '{' && Named(f, InUsage, "prompt_tokens_details") then InDetails
    else Skip
  }

  function OpenedOut(scope: Scope, out: Telemetry): Telemetry {
    match scope
    case InUsage => out.(input := None, cached := None)
    case InDetails => out.(cached := None)
    case _ => out
  }

  function Opened(s: Scan, c: char): Scan {
    if |s.stack| >= STACK_LIMIT then s.(disabled := true, out := s.out.(input := None, cached := None))
    else
      var scope := if s.stack == [] then (if c == '{' then Root else Skip) else ChildScope(Top(s), c);
      s.(stack := s.stack + [Frame(c == '{', c == '{', [], scope)], out := OpenedOut(scope, s.out))
  }

  function Closed(s: Scan): Scan {
    if s.stack == [] then s
    else s.(stack := s.stack[..|s.stack| - 1], done := |s.stack| == 1)
  }

  function Separated(s: Scan): Scan {
    if s.stack == [] then s
    else WithTop(s, Top(s).(key := Top(s).isObject, field := []))
  }

  /** The token a byte starts. */
  function Started(s: Scan, c: char): Lexeme {
    if c == '"' then InText(KeepsText(s), if KeepsText(s) then [c] else [], false, false)
    else InNumber(NumericField(s), if NumericField(s) then [c] else [], false)
  }

  /** A byte outside every token. */
  function Structural(s: Scan, c: char): Scan {
    if IsSpace(c) || c == ':' then s
    else if c == '{' || c == '[' then Opened(s, c)
    else if c == '}' || c == ']' then Closed(s)
    else if c == ',' then Separated(s)
    else s.(lex := Started(s, c))
  }

  /** The bytes that end a number or literal. */
  predicate IsDelimiter(c: char) {
    c == ',' || c == '}' || c == ']' || IsSpace(c)
  }

  function Step(s: Scan, c: char): Scan {
    if Stopped(s) then s
    else match s.lex
      case InText(keep, text, overflow, escape) =>
        var text' := if keep then Pushed(text, c) else text;
        var overflow' := if keep then Overflows(text, overflow) else overflow;
        if escape then s.(lex := InText(keep, text', overflow', false))
        else if c == '\\' then s.(lex := InText(keep, text', overflow', true))
        else if c == '"' then TextEnd(s, keep, text', overflow')
        else s.(lex := InText(keep, text', overflow', false))
      case InNumber(keep, text, overflow) =>
        if !IsDelimiter(c) then
          s.(lex := InNumber(keep, if keep then Pushed(text, c) else text,
                             if keep then Overflows(text, overflow) else overflow))
        else Structural(NumberEnd(s, keep, text, overflow), c)
      case Idle => Structural(s, c)
  }

  function Run(s: Scan, p: Bytes): Scan
    decreases |p|
  {
    if p == [] then s else Run(Step(s, p[0]), p[1..])
  }

  /** How the body is cut into chunks does not matter. */
  lemma {:induction false} RunAppend(s: Scan, a: Bytes, b: Bytes)
    ensures Run(s, a + b) == Run(Run(s, a), b)
    decreases |a|
  {
    if a == [] {
      assert a + b == b;
    } else {
      assert (a + b)[1..] == a[1..] + b;
      RunAppend(Step(s, a[0]), a[1..], b);
    }
  }

  lemma {:induction false} RunStopped(s: Scan, p: Bytes)
    requires Stopped(s)
    ensures Run(s, p) == s
    decreases |p|
  {
    if p != [] {
      RunStopped(s, p[1..]);
    }
  }

  // ---------------------------------------------------------------- the scanner's own fields

  class Scanner {
    const stack: array<Frame>
    const token: array<char>
    var depth: nat
    var lex: char      // '"' in a string, 'n' in a number or literal, ' ' between tokens
    var escape: bool
    var keep: bool
    var n: nat
    var overflow: bool
    var disabled: bool
    var done: bool
    var input: Option<nat>
    var cached: Option<nat>
    var tier: Content
    var model: Content

    ghost predicate Valid()
      reads this, stack, token
    {
      && stack.Length == STACK_LIMIT && token.Length == TOKEN_LIMIT
      && depth <= STACK_LIMIT && n <= TOKEN_LIMIT
      && (lex == '"' || lex == 'n' || lex == ' ')
      && (lex != ' ' && !keep ==> n == 0)
      && (escape ==> lex == '"')
    }

    ghost function Lex(): Lexeme
      reads this, token
      requires n <= token.Length
    {
      if lex == '"' then InText(keep, token[..n], overflow, escape)
      else if lex == 'n' then InNumber(keep, token[..n], overflow)
      else Idle
    }

    ghost function View(): Scan
      reads this, stack, token
      requires Valid()
    {
      Scan(stack[..depth], Lex(), disabled, done, Telemetry(input, cached, tier, model))
    }

    constructor ()
      ensures Valid() && View() == START && fresh(stack) && fresh(token)
    {
      stack := new Frame[STACK_LIMIT](_ => Frame(false, false, [], Skip));
      token := new char[TOKEN_LIMIT](_ => ' ');
      depth, lex, escape, keep, n, overflow := 0, ' ', false, false, 0, false;
      disabled, done, input, cached, tier, model := false, false, None, None, [], [];
    }

    method Append(c: char)
      requires Valid()
      modifies this`n, this`overflow, token
      ensures n <= TOKEN_LIMIT
      ensures token[..n] == Pushed(old(token[..n]), c)
      ensures overflow == Overflows(old(token[..n]), old(overflow))
    {
      if n < token.Length {
        token[n] := c;
        n := n + 1;
      } else {
        overflow := true;
      }
    }

    method ClearField(f: Frame)
      modifies this`input, this`cached, this`tier, this`model
      ensures Telemetry(input, cached, tier, model) == Cleared(f, old(Telemetry(input, cached, tier, model)))
    {
      if Named(f, Root, "usage") {
        input, cached := None, None;
      } else if Named(f, Root, "service_tier") {
        tier := Ascii("unknown");
      } else if Named(f, Root, "model") {
        model := Ascii("unknown");
      } else if Named(f, InUsage, "prompt_tokens") {
        input := None;
      } else if Named(f, InUsage, "prompt_tokens_details") || Named(f, InDetails, "cached_tokens") {
        cached := None;
      }
    }

    method StoreText(f: Frame, value: Content)
      modifies this`tier, this`model
      ensures Telemetry(input, cached, tier, model) == TextStored(f, value, old(Telemetry(input, cached, tier, model)))
    {
      if Named(f, Root, "service_tier") {
        tier := if value == [] then Ascii("unknown") else value;
      } else if Named(f, Root, "model") {
        model := if value == [] then Ascii("unknown") else value;
      }
    }

    method StringEnd()
      requires Valid() && lex == '"' && !escape
      modifies this`lex, this`input, this`cached, this`tier, this`model, stack
      ensures Valid()
      ensures View() == TextEnd(old(View()), keep, old(token[..n]), overflow)
    {
      lex := ' ';
      if depth == 0 {
        return;
      }
      var f := stack[depth - 1];
      var value := [];
      if keep && !overflow {
        value := Decoded(token[..n]);
      }
      if f.key {
        stack[depth - 1] := f.(field := value, key := false);
        ClearField(stack[depth - 1]);
        return;
      }
      StoreText(f, value);
    }

    method NumberFinished()
      requires Valid() && lex == 'n'
      modifies this`lex, this`input, this`cached
      ensures Valid()
      ensures View() == NumberEnd(old(View()), keep, old(token[..n]), overflow)
    {
      lex := ' ';
      if !keep || overflow || depth == 0 {
        return;
      }
      var value := ExactToken(token[..n]);
      if value.None? {
        return;
      }
      var f := stack[depth - 1];
      if Named(f, InUsage, "prompt_tokens") {
        input := value;
      } else if Named(f, InDetails, "cached_tokens") {
        cached := value;
      }
    }

    method Open(c: char)
      requires Valid() && lex == ' ' && (c == '{' || c == '[')
      modifies this`depth, this`disabled, this`input, this`cached, stack
      ensures Valid() && View() == Opened(old(View()), c)
    {
      if depth == stack.Length {
        disabled, input, cached := true, None, None;
        return;
      }
      var scope := Skip;
      if depth == 0 && c == '{' {
        scope := Root;
      }
      if depth > 0 && c == '{' {
        if Named(stack[depth - 1], Root, "usage") {
          scope, input, cached := InUsage, None, None;
        }
        if Named(stack[depth - 1], InUsage, "prompt_tokens_details") {
          scope, cached := InDetails, None;
        }
      }
      stack[depth] := Frame(c == '{', c == '{', [], scope);
      depth := depth + 1;
      assert stack[..depth] == old(stack[..depth]) + [stack[depth - 1]];
    }

    method StartToken(c: char)
      requires Valid() && lex == ' ' && !escape
      modifies this`lex, this`n, this`overflow, this`keep, token
      ensures Valid()
      ensures Lex() == Started(old(View()), c)
    {
      ghost var s := View();
      n, overflow, keep := 0, false, false;
      if depth > 0 {
        var f := stack[depth - 1];
        assert f == Top(s);
        if c == '"' {
          keep := f.scope != Skip && (f.key || Named(f, Root, "service_tier") || Named(f, Root, "model"));
        } else {
          keep := Named(f, InUsage, "prompt_tokens") || Named(f, InDetails, "cached_tokens");
        }
      }
      assert keep == if c == '"' then KeepsText(s) else NumericField(s);
      assert token[..n] == [];
      if keep {
        Append(c);
        assert token[..n] == [c];
      }
      lex := if c == '"' then '"' else 'n';
    }

    method FeedStructural(c: char)
      requires Valid() && lex == ' ' && !escape && !done
      modifies this, stack, token
      ensures Valid() && View() == Structural(old(View()), c)
    {
      if IsSpace(c) || c == ':' {
      } else if c == '{' || c == '[' {
        Open(c);
      } else if c == '}' || c == ']' {
        if depth > 0 {
          depth := depth - 1;
          assert stack[..depth] == old(stack[..depth])[..depth];
          if depth == 0 {
            done := true;
          }
        }
      } else if c == ',' {
        if depth > 0 {
          stack[depth - 1] := stack[depth - 1].(key := stack[depth - 1].isObject, field := []);
        }
      } else {
        StartToken(c);
      }
    }

    /** A byte of a string. */
    method FeedText(c: char)
      requires Valid() && !disabled && !done && lex == '"'
      modifies this, stack, token
      ensures Valid() && View() == Step(old(View()), c)
    {
      if keep {
        Append(c);
      }
      if escape {
        escape := false;
      } else if c == '\\' {
        escape := true;
      } else if c == '"' {
        StringEnd();
      }
    }

    /** A byte of a number or literal. */
    method FeedScalar(c: char)
      requires Valid() && !disabled && !done && lex == 'n' && !IsDelimiter(c)
      modifies this`n, this`overflow, token
      ensures Valid() && View() == Step(old(View()), c)
    {
      if keep {
        Append(c);
      }
    }

    /** One byte of an unfinished scan. */
    method FeedByte(c: char)
      requires Valid() && !disabled && !done
      modifies this, stack, token
      ensures Valid() && View() == Step(old(View()), c)
    {
      if lex == '"' {
        FeedText(c);
        return;
      }
      if lex == 'n' {
        if !IsDelimiter(c) {
          FeedScalar(c);
          return;
        }
        NumberFinished();
      }
      FeedStructural(c);
    }

    /** Feeds a chunk; the body may arrive in any number of them. */
    method Feed(p: Bytes)
      requires Valid()
      modifies this, stack, token
      ensures Valid() && View() == Run(old(View()), p)
    {
      var i := 0;
      while i < |p|
        invariant 0 <= i <= |p| && Valid()
        invariant Run(old(View()), p) == Run(View(), p[i..])
      {
        if disabled || done {
          RunStopped(View(), p[i..]);
          return;
        }
        ghost var s := View();
        FeedByte(p[i]);
        assert Run(s, p[i..]) == Run(Step(s, p[i]), p[i..][1..]);
        assert p[i..][1..] == p[i + 1..];
        i := i + 1;
      }
    }
  }
}
