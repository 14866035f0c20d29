/** The JSON grammar of RFC 8259, sections 2 to 7, as a relation between texts and values, for what this protocol
    sends and in ASCII; and the printer measured against it. Bytes are written as the standard writes them. */
module JsonGrammar {
  import opened Json
  import Framing

  // ---- the grammar ---------------------------------------------------------------------------------------------

  /** ws */
  predicate Whitespace(w: seq<Byte>) {
    forall i | 0 <= i < |w| :: w[i] == 0x20 || w[i] == 0x09 || w[i] == 0x0A || w[i] == 0x0D
  }

  predicate AroundAt(b: seq<Byte>, c: int, i: int) {
    0 <= i < |b| && b[i] == c && Whitespace(b[..i]) && Whitespace(b[i + 1..])
  }

  /** A structural character, with whitespace around it. */
  ghost predicate Structural(b: seq<Byte>, c: int) {
    exists i :: AroundAt(b, c, i)
  }

  /** HEXDIG, in either case. */
  predicate HexDigitText(b: int, d: int) {
    || (0 <= d <= 9 && b == 0x30 + d)
    || (10 <= d <= 15 && (b == 0x41 + (d - 10) || b == 0x61 + (d - 10)))
  }

  ghost predicate FourHex(b: seq<Byte>, u: int) {
    |b| == 4 && exists p, q, r, s ::
      && HexDigitText(b[0], p) && HexDigitText(b[1], q) && HexDigitText(b[2], r) && HexDigitText(b[3], s)
      && u == ((p * 16 + q) * 16 + r) * 16 + s
  }

  /** %x5C %x75 4HEXDIG */
  ghost predicate UnitText(b: seq<Byte>, u: int) {
    |b| == 6 && b[0] == 0x5C && b[1] == 0x75 && FourHex(b[2..], u)
  }

  /** The two-character escapes and what they stand for. */
  predicate ShortText(b: seq<Byte>, c: int) {
    && |b| == 2 && b[0] == 0x5C
    && (|| (b[1] == 0x22 && c == 0x22) || (b[1] == 0x5C && c == 0x5C) || (b[1] == 0x2F && c == 0x2F)
        || (b[1] == 0x62 && c == 0x08) || (b[1] == 0x66 && c == 0x0C) || (b[1] == 0x6E && c == 0x0A)
        || (b[1] == 0x72 && c == 0x0D) || (b[1] == 0x74 && c == 0x09))
  }

  /** The UTF-16 surrogate pair of a character outside the Basic Multilingual Plane. */
  ghost predicate PairText(b: seq<Byte>, c: int) {
    |b| == 12 && exists high, low ::
      && 0xD800 <= high <= 0xDBFF && 0xDC00 <= low <= 0xDFFF && c == 0x10000 + (high - 0xD800) * 0x400 + (low - 0xDC00)
      && UnitText(b[..6], high) && UnitText(b[6..], low)
  }

  /** char: unescaped, or one of the escapes. */
  ghost predicate CharText(b: seq<Byte>, c: int) {
    || (|b| == 1 && b[0] == c && (0x20 <= c <= 0x21 || 0x23 <= c <= 0x5B || 0x5D <= c <= 0x7F))
    || ShortText(b, c) || UnitText(b, c) || PairText(b, c)
  }

  ghost predicate CharsText(b: seq<Byte>, s: Str)
    decreases s
  {
    if s == [] then b == []
    else exists i :: 0 <= i <= |b| && CharText(b[..i], s[0]) && CharsText(b[i..], s[1..])
  }

  /** quotation-mark *char quotation-mark */
  ghost predicate StringText(b: seq<Byte>, s: Str) {
    |b| >= 2 && b[0] == 0x22 && b[|b| - 1] == 0x22 && CharsText(b[1..|b| - 1], s)
  }

  predicate Digits(b: seq<Byte>) {
    forall i | 0 <= i < |b| :: 0x30 <= b[i] <= 0x39
  }

  function Decimal(b: seq<Byte>): int {
    if b == [] then 0 else Decimal(b[..|b| - 1]) * 10 + (b[|b| - 1] as int) - 0x30
  }

  /** int: zero, or digits of which the first is not zero. */
  predicate NaturalText(b: seq<Byte>, n: int) {
    |b| >= 1 && Digits(b) && (|b| > 1 ==> b[0] != 0x30) && Decimal(b) == n
  }

  predicate NumberText(b: seq<Byte>, n: int) {
    NaturalText(b, n) || (|b| >= 1 && b[0] == 0x2D && NaturalText(b[1..], -n))
  }

  /** value: null, a number, a string or an object. */
  ghost predicate ValueText(b: seq<Byte>, v: Value)
    decreases v, 1
  {
    match v
    case Null => b == [0x6E, 0x75, 0x6C, 0x6C]
    case Int(n) => NumberText(b, n)
    case Text(s) => StringText(b, s)
    case Dict(fields) =>
      exists i, j :: 0 <= i <= j <= |b| && Structural(b[..i], 0x7B) && MembersText(b[i..j], fields)
                     && Structural(b[j..], 0x7D)
  }

  /** member *( value-separator member ), or nothing. */
  ghost predicate MembersText(b: seq<Byte>, fs: Fields)
    decreases fs, 0
  {
    match fs
    case End => b == []
    case Field(key, value, rest) =>
      if rest.End? then MemberText(b, key, value, rest)
      else exists i, j :: 0 <= i <= j <= |b| && MemberText(b[..i], key, value, rest) && Structural(b[i..j], 0x2C)
                          && MembersText(b[j..], rest)
  }

  /** string name-separator value */
  ghost predicate MemberText(b: seq<Byte>, key: Str, value: Value, rest: Fields)
    decreases Field(key, value, rest), -1
  {
    exists i, j :: 0 <= i <= j <= |b| && StringText(b[..i], key) && Structural(b[i..j], 0x3A)
                   && ValueText(b[j..], value)
  }

  // ---- the printer follows it ------------------------------------------------------------------------------------

  lemma UnitFollows(u: Unit16)
    ensures UnitText(EscapeUnit(u), u)
  {
    var (p, q, r, s) := Nibbles(u);
    var b := EscapeUnit(u)[2..];
    assert HexDigitText(b[0], p) && HexDigitText(b[1], q) && HexDigitText(b[2], r) && HexDigitText(b[3], s);
    assert u == ((p * 16 + q) * 16 + r) * 16 + s;
  }

  lemma CharFollows(c: Code)
    ensures CharText(Escape(c), c)
  {
    if c >= 0x10000 {
      PairFollows(c);
    } else if ShortEscape(c).None? && !(32 <= c <= 126) {
      UnitFollows(c);
    }
  }

  lemma PairFollows(c: Code)
    requires c >= 0x10000
    ensures PairText(Escape(c), c)
  {
    var high, low := 0xD800 + (c - 0x10000) / 0x400, 0xDC00 + (c - 0x10000) % 0x400;
    assert c == 0x10000 + (high - 0xD800) * 0x400 + (low - 0xDC00);
    UnitFollows(high);
    UnitFollows(low);
    Halves(EscapeUnit(high), EscapeUnit(low));
  }

  lemma Halves(a: seq<Byte>, b: seq<Byte>)
    ensures (a + b)[..|a|] == a && (a + b)[|a|..] == b
  {}

  lemma {:induction false} CharsFollow(s: Str)
    ensures CharsText(PrintChars(s), s)
  {
    if s != [] {
      CharFollows(s[0]);
      CharsFollow(s[1..]);
      Halves(Escape(s[0]), PrintChars(s[1..]));
    }
  }

  lemma StringFollows(s: Str)
    ensures StringText(PrintStr(s), s)
  {
    CharsFollow(s);
    assert PrintStr(s)[1..|PrintStr(s)| - 1] == PrintChars(s);
  }

  lemma {:induction false} NaturalFollows(n: nat)
    ensures NaturalText(PrintNat(n), n) && (n > 0 ==> PrintNat(n)[0] != 0x30)
  {
    if n >= 10 {
      NaturalFollows(n / 10);
      LastDigit(PrintNat(n / 10), 48 + n % 10);
    } else {
      assert [48 + n][..0] == [];
    }
  }

  lemma LastDigit(b: seq<Byte>, d: Byte)
    requires |b| >= 1 && Digits(b) && 0x30 <= d <= 0x39
    ensures Digits(b + [d]) && Decimal(b + [d]) == Decimal(b) * 10 + (d - 0x30) && (b + [d])[0] == b[0]
  {
    assert (b + [d])[..|b|] == b;
  }

  lemma NumberFollows(n: int)
    ensures NumberText(PrintInt(n), n)
  {
    NaturalFollows(if n < 0 then -n else n);
    if n < 0 { assert PrintInt(n)[1..] == PrintNat(-n); }
  }

  lemma Alone(b: seq<Byte>, c: int)
    requires b == [c] || b == [c, 0x20]
    ensures Structural(b, c)
  {
    assert AroundAt(b, c, 0);
  }

  /** What is sent is JSON: the printed text of every value is a text of that value in the grammar of the standard. */
  lemma {:induction false} PrintFollows(v: Value)
    ensures ValueText(Print(v), v)
    decreases v, 1
  {
    match v {
      case Null =>
      case Int(n) => NumberFollows(n);
      case Text(s) => StringFollows(s);
      case Dict(fields) =>
        MembersFollow(fields);
        Braces(PrintFields(fields), fields);
    }
  }

  lemma Braces(inner: seq<Byte>, fs: Fields)
    requires MembersText(inner, fs)
    ensures ValueText([OPEN] + inner + [CLOSE], Dict(fs))
  {
    var b := [OPEN] + inner + [CLOSE];
    Alone([OPEN], 0x7B);
    Alone([CLOSE], 0x7D);
    assert b[..1] == [OPEN] && b[1..1 + |inner|] == inner && b[1 + |inner|..] == [CLOSE];
  }

  lemma {:induction false} MembersFollow(fs: Fields)
    ensures MembersText(PrintFields(fs), fs)
    decreases fs, 0
  {
    if fs.Field? {
      StringFollows(fs.key);
      PrintFollows(fs.value);
      Member(fs.key, fs.value, fs.rest);
      if fs.rest.Field? {
        MembersFollow(fs.rest);
        More(PrintMember(fs.key, fs.value), fs);
      } else {
        assert PrintFields(fs) == PrintMember(fs.key, fs.value);
      }
    }
  }

  function PrintMember(key: Str, value: Value): seq<Byte> {
    PrintStr(key) + [COLON, SPACE] + Print(value)
  }

  lemma Member(key: Str, value: Value, rest: Fields)
    requires StringText(PrintStr(key), key) && ValueText(Print(value), value)
    ensures MemberText(PrintMember(key, value), key, value, rest)
  {
    var i := |PrintStr(key)|;
    Alone([COLON, SPACE], 0x3A);
    Thirds(PrintStr(key), [COLON, SPACE], Print(value));
  }

  lemma Thirds(a: seq<Byte>, b: seq<Byte>, c: seq<Byte>)
    ensures var s := a + b + c;
            && s[..|a|] == a && s[|a|..|a| + |b|] == b && s[|a| + |b|..] == c
            && s == a + (b + c)
  {}

  lemma More(member: seq<Byte>, fs: Fields)
    requires fs.Field? && fs.rest.Field? && member == PrintMember(fs.key, fs.value)
    requires MemberText(member, fs.key, fs.value, fs.rest) && MembersText(PrintFields(fs.rest), fs.rest)
    ensures MembersText(PrintFields(fs), fs)
  {
    Alone([COMMA, SPACE], 0x2C);
    Thirds(member, [COMMA, SPACE], PrintFields(fs.rest));
    assert PrintFields(fs) == member + ([COMMA, SPACE] + PrintFields(fs.rest));
  }

  /** And each message is one such text and the byte %x0A, which the text does not hold. */
  lemma {:induction false} EncodeFollows(m: Value)
    ensures |Framing.Encode(m)| >= 1
    ensures var b := Framing.Encode(m); var text := b[..|b| - 1];
            b[|b| - 1] == 0x0A && 0x0A !in text && ValueText(text, m)
  {
    PrintFollows(m);
    Framing.PartialHasNoNewline(m, Print(m));
    assert Framing.Encode(m)[..|Print(m)|] == Print(m);
  }
}
