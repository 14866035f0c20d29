/** The JSON text that travels on the wire (protocol.py through json.dumps and json.loads): objects with
    string keys, strings, integers and null, printed with ASCII escapes as section 7 of RFC 8259 allows.

    A Python string is a sequence of code points, surrogates included. `Dict` keeps insertion order. */
module Json {
  import opened Options

  type Byte = b: int | 0 <= b < 0x100
  type Code = c: int | 0 <= c < 0x110000
  type Unit16 = u: int | 0 <= u < 0x10000
  type Str = seq<Code>

  datatype Value = Null | Int(n: int) | Text(s: Str) | Dict(fields: Fields)

  datatype Fields = End | Field(key: Str, value: Value, rest: Fields)

  const QUOTE: Byte := 34
  const COMMA: Byte := 44
  const MINUS: Byte := 45
  const COLON: Byte := 58
  const BACKSLASH: Byte := 92
  const LETTER_U: Byte := 117
  const OPEN: Byte := 123
  const CLOSE: Byte := 125
  const SPACE: Byte := 32
  const NULL: seq<Byte> := [110, 117, 108, 108]

  predicate High(c: int) { 0xD800 <= c < 0xDC00 }

  predicate Low(c: int) { 0xDC00 <= c < 0xE000 }

  function Combine(high: int, low: int): Code
    requires High(high) && Low(low)
  {
    0x10000 + (high - 0xD800) * 0x400 + (low - 0xDC00)
  }

  // ---- printing: json.dumps ------------------------------------------------------------------------

  function HexDigit(d: int): Byte
    requires 0 <= d < 16
  {
    if d < 10 then 48 + d else 87 + d
  }

  /** The four hexadecimal digits of a code unit, most significant first. */
  function Nibbles(u: Unit16): (int, int, int, int) {
    (u / 16 / 16 / 16, u / 16 / 16 % 16, u / 16 % 16, u % 16)
  }

  function EscapeUnit(u: Unit16): (r: seq<Byte>)
    ensures |r| == 6
  {
    var (a, b, c, d) := Nibbles(u);
    [BACKSLASH, LETTER_U, HexDigit(a), HexDigit(b), HexDigit(c), HexDigit(d)]
  }

  /** The letter of a two-character escape, for the code points that have one. */
  function ShortEscape(c: Code): Option<Byte> {
    if c == 34 then Some(34) else if c == 92 then Some(92)
    else if c == 8 then Some(98) else if c == 9 then Some(116) else if c == 10 then Some(110)
    else if c == 12 then Some(102) else if c == 13 then Some(114) else None
  }

  function Escape(c: Code): seq<Byte> {
    if ShortEscape(c).Some? then [BACKSLASH, ShortEscape(c).value]
    else if 32 <= c <= 126 then [c]
    else if c < 0x10000 then EscapeUnit(c)
    else EscapeUnit(0xD800 + (c - 0x10000) / 0x400) + EscapeUnit(0xDC00 + (c - 0x10000) % 0x400)
  }

  function PrintChars(s: Str): seq<Byte> {
    if s == [] then [] else Escape(s[0]) + PrintChars(s[1..])
  }

  function PrintStr(s: Str): seq<Byte> {
    [QUOTE] + PrintChars(s) + [QUOTE]
  }

  function PrintNat(n: nat): seq<Byte> {
    if n < 10 then [48 + n] else PrintNat(n / 10) + [48 + n % 10]
  }

  function PrintInt(n: int): seq<Byte> {
    if n < 0 then [MINUS] + PrintNat(-n) else PrintNat(n)
  }

  function Print(v: Value): seq<Byte> {
    match v
    case Null => NULL
    case Int(n) => PrintInt(n)
    case Text(s) => PrintStr(s)
    case Dict(fields) => [OPEN] + PrintFields(fields) + [CLOSE]
  }

  function PrintFields(fs: Fields): seq<Byte> {
    match fs
    case End => []
    case Field(k, v, rest) =>
      PrintStr(k) + [COLON, SPACE] + Print(v) + (if rest.End? then [] else [COMMA, SPACE] + PrintFields(rest))
  }

  // ---- parsing: json.loads ----------------------------------------------------------------------------

  function HexValue(b: Byte): (r: Option<int>)
    ensures r.Some? ==> 0 <= r.value < 16
  {
    if 48 <= b <= 57 then Some(b as int - 48)
    else if 97 <= b <= 102 then Some(b as int - 87)
    else if 65 <= b <= 70 then Some(b as int - 55)
    else None
  }

  /** The code unit of a `\uXXXX` escape at the front of the text. */
  function UnitAt(b: seq<Byte>): Option<Unit16> {
    if |b| >= 6 && b[0] == BACKSLASH && b[1] == LETTER_U
       && HexValue(b[2]).Some? && HexValue(b[3]).Some? && HexValue(b[4]).Some? && HexValue(b[5]).Some?
    then Some(HexValue(b[2]).value * 0x1000 + HexValue(b[3]).value * 0x100
              + HexValue(b[4]).value * 16 + HexValue(b[5]).value)
    else None
  }

  function Unescape(letter: Byte): Option<Code> {
    if letter == 34 then Some(34) else if letter == 92 then Some(92) else if letter == 47 then Some(47)
    else if letter == 98 then Some(8) else if letter == 116 then Some(9) else if letter == 110 then Some(10)
    else if letter == 102 then Some(12) else if letter == 114 then Some(13) else None
  }

  function Cons(c: Code, r: Option<(Str, seq<Byte>)>): Option<(Str, seq<Byte>)> {
    if r.Some? then Some(([c] + r.value.0, r.value.1)) else None
  }

  /** The rest of a string literal, up to and including its closing quote. A high surrogate escape joins
      with a low surrogate escape right after it; any other surrogate stands for itself. */
  function ParseChars(b: seq<Byte>): (r: Option<(Str, seq<Byte>)>)
    ensures r.Some? ==> |r.value.1| < |b|
  {
    if b == [] then None
    else if b[0] == QUOTE then Some(([], b[1..]))
    else if b[0] == BACKSLASH then
      if UnitAt(b).Some? then
        var u := UnitAt(b).value;
        var next := UnitAt(b[6..]);
        if High(u) && next.Some? && Low(next.value) then Cons(Combine(u, next.value), ParseChars(b[12..]))
        else Cons(u, ParseChars(b[6..]))
      else if |b| >= 2 && Unescape(b[1]).Some? then Cons(Unescape(b[1]).value, ParseChars(b[2..]))
      else None
    else if b[0] < 32 || b[0] >= 128 then None
    else Cons(b[0], ParseChars(b[1..]))
  }

  predicate IsDigit(b: Byte) { 48 <= b <= 57 }

  function DigitRun(b: seq<Byte>): (n: nat)
    ensures n <= |b| && forall i | 0 <= i < n :: IsDigit(b[i])
  {
    if b == [] || !IsDigit(b[0]) then 0 else 1 + DigitRun(b[1..])
  }

  function DigitValue(b: Byte): nat
    requires IsDigit(b)
  {
    b - 48
  }

  function NatOf(digits: seq<Byte>): nat
    requires forall i | 0 <= i < |digits| :: IsDigit(digits[i])
  {
    if digits == [] then 0 else NatOf(digits[..|digits| - 1]) * 10 + DigitValue(digits[|digits| - 1])
  }

  /** Digits without a leading zero, other than zero itself. */
  function ParseNat(b: seq<Byte>): (r: Option<(nat, seq<Byte>)>)
    ensures r.Some? ==> |r.value.1| < |b|
  {
    var n := DigitRun(b);
    if n == 0 then None
    else if b[0] == 48 then Some((0, b[1..]))
    else Some((NatOf(b[..n]), b[n..]))
  }

  function SkipSpace(b: seq<Byte>): (r: seq<Byte>)
    ensures |r| <= |b|
  {
    if b != [] && b[0] in {32, 9, 10, 13} then SkipSpace(b[1..]) else b
  }

  function ParseValue(b: seq<Byte>): (r: Option<(Value, seq<Byte>)>)
    ensures r.Some? ==> |r.value.1| < |b|
    decreases |b|
  {
    if b == [] then None
    else if b[0] == QUOTE then
      var r := ParseChars(b[1..]);
      if r.Some? then Some((Text(r.value.0), r.value.1)) else None
    else if b[0] == OPEN then ParseObject(b[1..])
    else if |b| >= 4 && b[..4] == NULL then Some((Null, b[4..]))
    else ParseInt(b)
  }

  function ParseInt(b: seq<Byte>): (r: Option<(Value, seq<Byte>)>)
    requires b != []
    ensures r.Some? ==> |r.value.1| < |b|
  {
    var digits := ParseNat(if b[0] == MINUS then b[1..] else b);
    if digits.None? then None else
    var n: int := digits.value.0;
    Some((Int(if b[0] == MINUS then -n else n), digits.value.1))
  }

  /** The rest of an object, after its opening brace. */
  function ParseObject(b: seq<Byte>): (r: Option<(Value, seq<Byte>)>)
    ensures r.Some? ==> |r.value.1| < |b|
    decreases |b|
  {
    var b1 := SkipSpace(b);
    if b1 == [] then None
    else if b1[0] == CLOSE then Some((Dict(End), b1[1..]))
    else if b1[0] == QUOTE then
      var r := ParseMembers(b1[1..]);
      if r.Some? then Some((Dict(ToDict(End, r.value.0)), r.value.1)) else None
    else None
  }

  /** The rest of an object, after the opening quote of a key: the pairs in the order of the text. */
  function ParseMembers(b: seq<Byte>): (r: Option<(Fields, seq<Byte>)>)
    ensures r.Some? ==> |r.value.1| < |b|
    decreases |b|
  {
    var key := ParseChars(b);
    if key.None? then None else
    var b1 := SkipSpace(key.value.1);
    if b1 == [] || b1[0] != COLON then None else
    var val := ParseValue(SkipSpace(b1[1..]));
    if val.None? then None else
    var b2 := SkipSpace(val.value.1);
    if b2 == [] then None
    else if b2[0] == CLOSE then Some((Field(key.value.0, val.value.0, End), b2[1..]))
    else if b2[0] != COMMA then None else
    var b3 := SkipSpace(b2[1..]);
    if b3 == [] || b3[0] != QUOTE then None else
    var more := ParseMembers(b3[1..]);
    if more.Some? then Some((Field(key.value.0, val.value.0, more.value.0), more.value.1)) else None
  }

  /** A dictionary built pair by pair: a repeated key keeps its place and takes the new value. */
  function Insert(d: Fields, k: Str, v: Value): Fields {
    match d
    case End => Field(k, v, End)
    case Field(k0, v0, rest) => if k0 == k then Field(k, v, rest) else Field(k0, v0, Insert(rest, k, v))
  }

  function ToDict(d: Fields, pairs: Fields): Fields
    decreases pairs
  {
    match pairs
    case End => d
    case Field(k, v, rest) => ToDict(Insert(d, k, v), rest)
  }

  function Loads(b: seq<Byte>): Option<Value> {
    var r := ParseValue(SkipSpace(b));
    if r.Some? && SkipSpace(r.value.1) == [] then Some(r.value.0) else None
  }

  // ---- what survives the wire ------------------------------------------------------------------------------

  /** A string after the trip: each high surrogate joins with a low surrogate right after it. */
  function Merge(s: Str): Str {
    if s == [] then []
    else if |s| >= 2 && High(s[0]) && Low(s[1]) then [Combine(s[0], s[1])] + Merge(s[2..])
    else [s[0]] + Merge(s[1..])
  }

  function Received(v: Value): Value {
    match v
    case Text(s) => Text(Merge(s))
    case Dict(fields) => Dict(ToDict(End, ReceivedPairs(fields)))
    case _ => v
  }

  function ReceivedPairs(fs: Fields): Fields {
    match fs
    case End => End
    case Field(k, v, rest) => Field(Merge(k), Received(v), ReceivedPairs(rest))
  }

  predicate PairFree(s: Str) {
    forall i | 0 <= i < |s| - 1 :: !(High(s[i]) && Low(s[i + 1]))
  }

  predicate HasKey(fs: Fields, k: Str) {
    fs.Field? && (fs.key == k || HasKey(fs.rest, k))
  }

  /** Keys are unique, as in every Python dictionary, and no string holds an adjacent surrogate pair. */
  predicate WellFormed(v: Value) {
    match v
    case Text(s) => PairFree(s)
    case Dict(fields) => WellFormedFields(fields)
    case _ => true
  }

  predicate WellFormedFields(fs: Fields) {
    fs.Field? ==> PairFree(fs.key) && WellFormed(fs.value) && !HasKey(fs.rest, fs.key) && WellFormedFields(fs.rest)
  }
}
