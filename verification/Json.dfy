/**
 JSON texts as RFC 8259 defines them: a syntax tree that keeps the insignificant white space and the
 escapes of section 7, and its printer.  `Printed` of a well-formed tree is exactly a JSON text
 (sections 2, 4, 5, 6 and 7), so statements about every tree are statements about every JSON text.
 A `char` stands for one byte.
 */
module Json {
  import opened Options
  import opened Texts

  type Bytes = string

  /** One element of a JSON string: itself, a two-character escape or a \uXXXX escape. */
  datatype Unit = Plain(c: char) | Short(c: char) | Hex(digits: Bytes)

  /** What a unit stands for: a code unit, or one byte of a multi-byte UTF-8 sequence. */
  datatype Symbol = Code(n: nat) | Byte(b: char)

  type Content = seq<Symbol>

  datatype Value =
    | Literal(word: Bytes)
    | Number(negative: bool, whole: Bytes, fraction: Bytes, exponent: Bytes)
    | Text(units: seq<Unit>)
    | Array(pad: Bytes, items: Items)
    | Object(pad: Bytes, members: Members)

  datatype Items =
    | NoItems
    | Item(before: Bytes, value: Value, after: Bytes, rest: Items)

  datatype Members =
    | NoMembers
    | Member(before: Bytes, key: seq<Unit>, mid: Bytes, post: Bytes, value: Value, after: Bytes, rest: Members)

  // ---------------------------------------------------------------- well-formedness

  predicate IsSpace(c: char) {
    c == ' ' || c == '\n' || c == '\r' || c == '\t'
  }

  predicate AllSpace(s: Bytes) {
    forall i :: 0 <= i < |s| ==> IsSpace(s[i])
  }

  predicate IsHexDigit(c: char) {
    IsDigit(c) || 'a' <= c <= 'f' || 'A' <= c <= 'F'
  }

  predicate IsShortEscape(c: char) {
    c == '"' || c == '\\' || c == '/' || c == 'b' || c == 'f' || c == 'n' || c == 'r' || c == 't'
  }

  predicate GoodUnit(u: Unit) {
    match u
    case Plain(c) => c >= ' ' && c != '"' && c != '\\'
    case Short(c) => IsShortEscape(c)
    case Hex(digits) => |digits| == 4 && forall i :: 0 <= i < 4 ==> IsHexDigit(digits[i])
  }

  predicate GoodText(us: seq<Unit>) {
    forall i :: 0 <= i < |us| ==> GoodUnit(us[i])
  }

  predicate GoodFraction(s: Bytes) {
    s == "" || (|s| >= 2 && s[0] == '.' && AllDigits(s[1..]))
  }

  predicate GoodExponent(s: Bytes) {
    s == "" ||
    (|s| >= 2 && (s[0] == 'e' || s[0] == 'E') &&
     (AllDigits(s[1..]) || (|s| >= 3 && (s[1] == '+' || s[1] == '-') && AllDigits(s[2..]))))
  }

  predicate Good(v: Value) {
    match v
    case Literal(w) => w == "true" || w == "false" || w == "null"
    case Number(_, whole, fraction, exponent) =>
      && |whole| >= 1 && AllDigits(whole) && (whole[0] == '0' ==> |whole| == 1)
      && GoodFraction(fraction) && GoodExponent(exponent)
    case Text(us) => GoodText(us)
    case Array(pad, items) => AllSpace(pad) && GoodItems(items)
    case Object(pad, members) => AllSpace(pad) && GoodMembers(members)
  }

  predicate GoodItems(items: Items) {
    items.Item? ==> AllSpace(items.before) && Good(items.value) && AllSpace(items.after) && GoodItems(items.rest)
  }

  predicate GoodMembers(ms: Members) {
    ms.Member? ==>
      && AllSpace(ms.before) && GoodText(ms.key) && AllSpace(ms.mid) && AllSpace(ms.post)
      && Good(ms.value) && AllSpace(ms.after) && GoodMembers(ms.rest)
  }

  // ---------------------------------------------------------------- printing

  function UnitBytes(u: Unit): Bytes {
    match u
    case Plain(c) => [c]
    case Short(c) => ['\\', c]
    case Hex(digits) => "\\u" + digits
  }

  function UnitsBytes(us: seq<Unit>): Bytes {
    if us == [] then "" else UnitBytes(us[0]) + UnitsBytes(us[1..])
  }

  function TextBytes(us: seq<Unit>): Bytes {
    "\"" + UnitsBytes(us) + "\""
  }

  function NumberBytes(v: Value): Bytes
    requires v.Number?
  {
    (if v.negative then "-" else "") + v.whole + v.fraction + v.exponent
  }

  function Printed(v: Value): Bytes {
    match v
    case Literal(w) => w
    case Number(_, _, _, _) => NumberBytes(v)
    case Text(us) => TextBytes(us)
    case Array(pad, items) => "[" + (if items.NoItems? then pad else PrintedItems(items)) + "]"
    case Object(pad, members) => "{" + (if members.NoMembers? then pad else PrintedMembers(members)) + "}"
  }

  function PrintedItems(items: Items): Bytes {
    match items
    case NoItems => ""
    case Item(before, value, after, rest) =>
      before + Printed(value) + after + (if rest.NoItems? then "" else "," + PrintedItems(rest))
  }

  function PrintedMembers(ms: Members): Bytes {
    match ms
    case NoMembers => ""
    case Member(before, key, mid, post, value, after, rest) =>
      before + TextBytes(key) + mid + ":" + post + Printed(value) + after
      + (if rest.NoMembers? then "" else "," + PrintedMembers(rest))
  }

  /** How many arrays and objects enclose the deepest part of a value, itself included. */
  function Nesting(v: Value): nat {
    match v
    case Array(_, items) => 1 + ItemsNesting(items)
    case Object(_, members) => 1 + MembersNesting(members)
    case _ => 0
  }

  function ItemsNesting(items: Items): nat {
    match items
    case NoItems => 0
    case Item(_, value, _, rest) => Larger(Nesting(value), ItemsNesting(rest))
  }

  function MembersNesting(ms: Members): nat {
    match ms
    case NoMembers => 0
    case Member(_, _, _, _, value, _, rest) => Larger(Nesting(value), MembersNesting(rest))
  }

  function Larger(a: nat, b: nat): nat {
    if a < b then b else a
  }

  // ---------------------------------------------------------------- meaning of strings and numbers

  function HexValue(c: char): nat
    requires IsHexDigit(c)
  {
    if IsDigit(c) then c as int - '0' as int
    else if 'a' <= c then c as int - 'a' as int + 10
    else c as int - 'A' as int + 10
  }

  function Hex4(d: Bytes): nat
    requires |d| == 4 && forall i :: 0 <= i < 4 ==> IsHexDigit(d[i])
  {
    ((HexValue(d[0]) * 16 + HexValue(d[1])) * 16 + HexValue(d[2])) * 16 + HexValue(d[3])
  }

  function ShortValue(c: char): nat {
    match c
    case 'b' => 8
    case 'f' => 12
    case 'n' => 10
    case 'r' => 13
    case 't' => 9
    case _ => c as int
  }

  function PlainSymbol(c: char): Symbol {
    if c as int < 128 then Code(c as int) else Byte(c)
  }

  function Meaning(u: Unit): Symbol
    requires GoodUnit(u)
  {
    match u
    case Plain(c) => PlainSymbol(c)
    case Short(c) => Code(ShortValue(c))
    case Hex(digits) => Code(Hex4(digits))
  }

  function ContentOf(us: seq<Unit>): (r: Content)
    requires GoodText(us)
    ensures |r| == |us|
  {
    if us == [] then [] else [Meaning(us[0])] + ContentOf(us[1..])
  }

  /** The content of an ASCII string constant. */
  function Ascii(s: string): (r: Content)
    ensures |r| == |s|
  {
    seq(|s|, i requires 0 <= i < |s| => Code(s[i] as int))
  }

  function Decimal(s: Bytes): nat
    requires AllDigits(s)
  {
    if s == "" then 0 else Decimal(s[..|s| - 1]) * 10 + (s[|s| - 1] as int - '0' as int)
  }

  /** The last value an object gives for a name, the way a decoder that keeps duplicates reads it. */
  function Lookup(ms: Members, name: string): (r: Option<Value>)
    requires GoodMembers(ms)
    ensures r.Some? ==> Good(r.value)
  {
    match ms
    case NoMembers => None
    case Member(_, key, _, _, value, _, rest) =>
      match Lookup(rest, name)
      case Some(v) => Some(v)
      case None => if ContentOf(key) == Ascii(name) then Some(value) else None
  }

  // ---------------------------------------------------------------- reading a string token back

  /** Decodes the bytes between the quotes of a string token, None when they are not a JSON string. */
  function Units(s: Bytes): Option<Content> {
    if s == "" then Some([])
    else if s[0] == '\\' then
      if |s| < 2 then None
      else if s[1] == 'u' then
        if |s| < 6 || !(forall i :: 2 <= i < 6 ==> IsHexDigit(s[i])) then None
        else match Units(s[6..])
          case None => None
          case Some(rest) => Some([Code(Hex4(s[2..6]))] + rest)
      else if !IsShortEscape(s[1]) then None
      else match Units(s[2..])
        case None => None
        case Some(rest) => Some([Code(ShortValue(s[1]))] + rest)
    else if s[0] < ' ' || s[0] == '"' then None
    else match Units(s[1..])
      case None => None
      case Some(rest) => Some([PlainSymbol(s[0])] + rest)
  }

  /** The string a token denotes, empty when the token is not a JSON string. */
  function Decoded(token: Bytes): Content {
    if |token| < 2 || token[0] != '"' || token[|token| - 1] != '"' then []
    else match Units(token[1..|token| - 1])
      case None => []
      case Some(content) => content
  }

  /** Decoding inverts printing. */
  lemma {:induction false} UnitsRoundTrip(us: seq<Unit>)
    requires GoodText(us)
    ensures Units(UnitsBytes(us)) == Some(ContentOf(us))
  {
    if us != [] {
      UnitsRoundTrip(us[1..]);
      var s, head := UnitsBytes(us), UnitBytes(us[0]);
      assert s[|head|..] == UnitsBytes(us[1..]);
      if us[0].Hex? {
        assert s[2..6] == us[0].digits;
        assert forall i :: 2 <= i < 6 ==> s[i] == us[0].digits[i - 2];
      }
    }
  }

  lemma TextRoundTrip(us: seq<Unit>)
    requires GoodText(us)
    ensures Decoded(TextBytes(us)) == ContentOf(us)
  {
    UnitsRoundTrip(us);
    assert TextBytes(us)[1..|TextBytes(us)| - 1] == UnitsBytes(us);
  }

  /** Escaping makes a string at most six times as long. */
  lemma {:induction false} UnitsLength(us: seq<Unit>)
    requires GoodText(us)
    ensures |us| <= |UnitsBytes(us)| <= 6 * |us|
  {
    if us != [] {
      UnitsLength(us[1..]);
    }
  }
}
