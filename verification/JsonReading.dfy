/** What json.loads makes of any text at all: it reads exactly the texts of the grammar, each as the value that the
    grammar gives it, with surrogate pairs joined and the last of equal keys kept. */
module JsonReading {
  import opened Json
  import opened JsonGrammar
  import opened Options
  import Framing

  // ---- whitespace ------------------------------------------------------------------------------------------------

  lemma {:induction false} SkipPrefix(w: seq<Byte>, x: seq<Byte>)
    requires Whitespace(w)
    ensures SkipSpace(w + x) == SkipSpace(x)
  {
    if w == [] {
      assert w + x == x;
    } else {
      assert (w + x)[1..] == w[1..] + x;
      SkipPrefix(w[1..], x);
    }
  }

  lemma {:induction false} SkipSuffix(b: seq<Byte>)
    ensures var n := |b| - |SkipSpace(b)|; Whitespace(b[..n]) && b[n..] == SkipSpace(b)
  {
    if b != [] && b[0] in {32, 9, 10, 13} {
      SkipSuffix(b[1..]);
      var n := |b[1..]| - |SkipSpace(b[1..])|;
      assert b[..n + 1] == [b[0]] + b[1..][..n];
      assert b[n + 1..] == b[1..][n..];
    }
  }

  predicate Space(c: int) { c == 0x20 || c == 0x09 || c == 0x0A || c == 0x0D }

  /** A structural character is what is left when the whitespace before it is skipped. */
  lemma SkipToStructural(z: seq<Byte>, c: Byte, x: seq<Byte>) returns (tail: seq<Byte>)
    requires Structural(z, c) && !Space(c)
    ensures Whitespace(tail) && SkipSpace(z + x) == [c] + (tail + x)
  {
    var i :| AroundAt(z, c, i);
    tail := z[i + 1..];
    assert z + x == z[..i] + ([c] + (tail + x));
    SkipPrefix(z[..i], [c] + (tail + x));
  }

  lemma Split(t: seq<Byte>, i: nat, z: seq<Byte>)
    requires i <= |t|
    ensures t + z == t[..i] + (t[i..] + z) && (t + z)[i..] == t[i..] + z
  {}

  // ---- characters ------------------------------------------------------------------------------------------------

  lemma HexReads(b: Byte, d: int)
    ensures HexDigitText(b, d) <==> HexValue(b) == Some(d)
  {}

  lemma UnitReads(e: seq<Byte>, u: int, x: seq<Byte>)
    requires UnitText(e, u)
    ensures 0 <= u < 0x10000 && UnitAt(e + x) == Some(u) && (e + x)[6..] == x
  {
    var p, q, r, s :| HexDigitText(e[2..][0], p) && HexDigitText(e[2..][1], q) && HexDigitText(e[2..][2], r)
                      && HexDigitText(e[2..][3], s) && u == ((p * 16 + q) * 16 + r) * 16 + s;
    HexReads(e[2], p); HexReads(e[3], q); HexReads(e[4], r); HexReads(e[5], s);
  }

  lemma UnitFound(b: seq<Byte>)
    requires UnitAt(b).Some?
    ensures |b| >= 6 && UnitText(b[..6], UnitAt(b).value)
  {
    var p, q, r, s := HexValue(b[2]).value, HexValue(b[3]).value, HexValue(b[4]).value, HexValue(b[5]).value;
    HexReads(b[2], p); HexReads(b[3], q); HexReads(b[4], r); HexReads(b[5], s);
    var e := b[..6][2..];
    assert e[0] == b[2] && e[1] == b[3] && e[2] == b[4] && e[3] == b[5];
    assert UnitAt(b).value == ((p * 16 + q) * 16 + r) * 16 + s;
  }

  lemma PairReads(e: seq<Byte>, c: int, x: seq<Byte>)
    requires PairText(e, c)
    ensures 0x10000 <= c < 0x110000
    ensures UnitAt(e + x).Some? && High(UnitAt(e + x).value)
    ensures UnitAt((e + x)[6..]).Some? && Low(UnitAt((e + x)[6..]).value) && (e + x)[12..] == x
    ensures Combine(UnitAt(e + x).value, UnitAt((e + x)[6..]).value) == c
  {
    var high, low :| 0xD800 <= high <= 0xDBFF && 0xDC00 <= low <= 0xDFFF
                     && c == 0x10000 + (high - 0xD800) * 0x400 + (low - 0xDC00)
                     && UnitText(e[..6], high) && UnitText(e[6..], low);
    Split(e, 6, x);
    Split(e, 12, x);
    UnitReads(e[..6], high, e[6..] + x);
    UnitReads(e[6..], low, x);
  }

  lemma ShortReads(e: seq<Byte>, c: int, x: seq<Byte>)
    requires ShortText(e, c)
    ensures UnitAt(e + x).None? && Unescape(e[1]) == Some(c) && (e + x)[2..] == x && c < 0x80
  {
    assert (e + x)[1] == e[1];
  }

  /** The first escape ahead is a low surrogate exactly if the first character is one. */
  lemma LowAhead(e: seq<Byte>, c: int, y: seq<Byte>)
    requires CharText(e, c) && y != []
    ensures (UnitAt(e + y).Some? && Low(UnitAt(e + y).value)) <==> Low(c)
    ensures Low(c) ==> UnitAt(e + y) == Some(c) && |e| == 6
  {
    if UnitText(e, c) { UnitReads(e, c, y); }
    else if ShortText(e, c) { ShortReads(e, c, y); }
    else if PairText(e, c) { PairReads(e, c, y); }
    else { assert (e + y)[0] == e[0]; }
  }

  lemma LowFirst(t: seq<Byte>, s: Str, x: seq<Byte>)
    requires CharsText(t, s)
    ensures var next := UnitAt(t + ([QUOTE] + x));
            && ((next.Some? && Low(next.value)) <==> (s != [] && Low(s[0])))
            && (s != [] && Low(s[0]) ==> next == Some(s[0]) && |t| >= 6 && CharsText(t[6..], s[1..]))
  {
    if s == [] {
      assert (t + ([QUOTE] + x))[0] == QUOTE;
    } else {
      var i :| 0 <= i <= |t| && CharText(t[..i], s[0]) && CharsText(t[i..], s[1..]);
      Split(t, i, [QUOTE] + x);
      LowAhead(t[..i], s[0], t[i..] + ([QUOTE] + x));
    }
  }

  lemma SingleRead(e: seq<Byte>, c: Code, y: seq<Byte>, s: Str, x: seq<Byte>)
    requires UnitText(e, c) && ParseChars(y) == Some((s, x))
    requires !(High(c) && UnitAt(y).Some? && Low(UnitAt(y).value))
    ensures ParseChars(e + y) == Some(([c] + s, x))
  {
    UnitReads(e, c, y);
  }

  lemma TwoRead(e: seq<Byte>, c: Code, y: seq<Byte>, s: Str, x: seq<Byte>)
    requires UnitText(e, c) && High(c) && UnitAt(y).Some? && Low(UnitAt(y).value) && ParseChars(y[6..]) == Some((s, x))
    ensures ParseChars(e + y) == Some(([Combine(c, UnitAt(y).value)] + s, x))
  {
    UnitReads(e, c, y);
    assert (e + y)[12..] == y[6..];
  }

  lemma PairRead(e: seq<Byte>, c: Code, y: seq<Byte>, s: Str, x: seq<Byte>)
    requires PairText(e, c) && ParseChars(y) == Some((s, x))
    ensures ParseChars(e + y) == Some(([c] + s, x)) && c >= 0x10000
  {
    PairReads(e, c, y);
  }

  lemma PlainRead(e: seq<Byte>, c: Code, y: seq<Byte>, s: Str, x: seq<Byte>)
    requires ShortText(e, c) || (|e| == 1 && e[0] == c && (0x20 <= c <= 0x21 || 0x23 <= c <= 0x5B || 0x5D <= c <= 0x7F))
    requires ParseChars(y) == Some((s, x))
    ensures ParseChars(e + y) == Some(([c] + s, x)) && c < 0x80
  {
    if ShortText(e, c) { ShortReads(e, c, y); } else { assert (e + y)[1..] == y; }
  }

  lemma {:induction false} CharsRead(t: seq<Byte>, s: Str, x: seq<Byte>)
    requires CharsText(t, s)
    ensures ParseChars(t + ([QUOTE] + x)) == Some((Merge(s), x))
    decreases |s|
  {
    if s == [] {
      assert t + ([QUOTE] + x) == [QUOTE] + x;
    } else {
      var i :| 0 <= i <= |t| && CharText(t[..i], s[0]) && CharsText(t[i..], s[1..]);
      var e, y := t[..i], t[i..] + ([QUOTE] + x);
      Split(t, i, [QUOTE] + x);
      CharsRead(t[i..], s[1..], x);
      if UnitText(e, s[0]) {
        UnitRead(t, s, x, i);
      } else if PairText(e, s[0]) {
        PairRead(e, s[0], y, Merge(s[1..]), x);
      } else {
        PlainRead(e, s[0], y, Merge(s[1..]), x);
      }
    }
  }

  lemma {:induction false} UnitRead(t: seq<Byte>, s: Str, x: seq<Byte>, i: nat)
    requires s != [] && i <= |t| && UnitText(t[..i], s[0]) && CharsText(t[i..], s[1..])
    requires ParseChars(t[i..] + ([QUOTE] + x)) == Some((Merge(s[1..]), x))
    ensures ParseChars(t[..i] + (t[i..] + ([QUOTE] + x))) == Some((Merge(s), x))
    decreases |s|, 0
  {
    var y := t[i..] + ([QUOTE] + x);
    LowFirst(t[i..], s[1..], x);
    if High(s[0]) && |s| >= 2 && Low(s[1]) {
      assert s[1..][1..] == s[2..];
      CharsRead(t[i..][6..], s[2..], x);
      Split(t[i..], 6, [QUOTE] + x);
      TwoRead(t[..i], s[0], y, Merge(s[2..]), x);
    } else {
      SingleRead(t[..i], s[0], y, Merge(s[1..]), x);
    }
  }

  // ---- numbers ---------------------------------------------------------------------------------------------------

  predicate NoDigitAhead(x: seq<Byte>) { x == [] || !IsDigit(x[0]) }

  lemma {:induction false} RunOfDigits(t: seq<Byte>, x: seq<Byte>)
    requires Digits(t) && NoDigitAhead(x)
    ensures DigitRun(t + x) == |t|
  {
    if t == [] {
      assert t + x == x;
    } else {
      Split(t, 1, x);
      RunOfDigits(t[1..], x);
    }
  }

  lemma {:induction false} SameNumber(t: seq<Byte>)
    requires Digits(t)
    ensures (forall i | 0 <= i < |t| :: IsDigit(t[i])) && NatOf(t) == Decimal(t)
  {
    if t != [] { SameNumber(t[..|t| - 1]); }
  }

  /** What was read of a text, when `rest` is left. */
  function Front(b: seq<Byte>, rest: seq<Byte>): seq<Byte>
    requires |rest| <= |b|
  {
    b[..|b| - |rest|]
  }

  lemma NaturalRead(t: seq<Byte>, n: int, x: seq<Byte>)
    requires NaturalText(t, n) && NoDigitAhead(x)
    ensures n >= 0 && ParseNat(t + x) == Some((n, x))
  {
    RunOfDigits(t, x);
    SameNumber(t);
    Halves(t, x);
    assert (t + x)[0] == t[0];
    if t[0] == 48 { assert t == [48] && Decimal(t[..0]) == 0; }
  }

  lemma NaturalFound(b: seq<Byte>)
    requires ParseNat(b).Some?
    ensures var (n, x) := ParseNat(b).value; NaturalText(Front(b, x), n) && b == Front(b, x) + x
  {
    var (n, x) := ParseNat(b).value;
    var t := Front(b, x);
    SameNumber(t);
    if b[0] == 48 { assert t == [48] && Decimal(t[..0]) == 0; }
  }

  lemma IntRead(t: seq<Byte>, n: int, x: seq<Byte>)
    requires NumberText(t, n) && NoDigitAhead(x)
    ensures t != [] && (t[0] == MINUS || IsDigit(t[0])) && ParseInt(t + x) == Some((Int(n), x))
  {
    assert (t + x)[0] == t[0];
    if t[0] == MINUS {
      Split(t, 1, x);
      NaturalRead(t[1..], -n, x);
    } else {
      NaturalRead(t, n, x);
    }
  }

  lemma NumberRead(t: seq<Byte>, n: int, x: seq<Byte>)
    requires NumberText(t, n) && NoDigitAhead(x)
    ensures ParseValue(SkipSpace(t + x)) == Some((Int(n), x))
  {
    IntRead(t, n, x);
    var b := t + x;
    assert b[0] == t[0] && b[0] != NULL[0];
    assert SkipSpace(b) == b;
    assert |b| >= 4 ==> b[..4][0] == b[0];
  }

  lemma NumberFound(b: seq<Byte>)
    requires b != [] && ParseInt(b).Some?
    ensures var (v, x) := ParseInt(b).value; v.Int? && NumberText(Front(b, x), v.n) && b == Front(b, x) + x
  {
    var x := ParseInt(b).value.1;
    if b[0] == MINUS {
      NaturalFound(b[1..]);
      MinusBytes(b, Front(b[1..], x), x);
    } else {
      NaturalFound(b);
    }
  }

  lemma MinusBytes(b: seq<Byte>, t: seq<Byte>, x: seq<Byte>)
    requires b != [] && b[1..] == t + x
    ensures Front(b, x) == [b[0]] + t && Front(b, x)[1..] == t && b == Front(b, x) + x
  {
    assert b == [b[0]] + t + x;
  }

  // ---- strings, and back -----------------------------------------------------------------------------------------

  lemma ConsText(e: seq<Byte>, c: Code, t: seq<Byte>, s: Str)
    requires CharText(e, c) && CharsText(t, s)
    ensures CharsText(e + t, [c] + s)
  {
    Halves(e, t);
    assert ([c] + s)[1..] == s;
  }

  /** The character that the parser takes first, pairs joined. */
  lemma CharFound(b: seq<Byte>) returns (k: nat, c: Code)
    requires ParseChars(b).Some? && b[0] != QUOTE
    ensures 0 < k <= |b| && CharText(b[..k], c) && ParseChars(b[k..]).Some?
    ensures ParseChars(b).value == ([c] + ParseChars(b[k..]).value.0, ParseChars(b[k..]).value.1)
    ensures High(c) ==> !(UnitAt(b[k..]).Some? && Low(UnitAt(b[k..]).value))
  {
    if b[0] != BACKSLASH {
      k, c := 1, b[0];
    } else if UnitAt(b).None? {
      k, c := 2, Unescape(b[1]).value;
      assert ShortText(b[..2], c);
    } else {
      UnitFound(b);
      k, c := 6, UnitAt(b).value;
      if High(c) && UnitAt(b[6..]).Some? && Low(UnitAt(b[6..]).value) {
        UnitFound(b[6..]);
        k, c := 12, Combine(c, UnitAt(b[6..]).value);
        assert b[..12][..6] == b[..6] && b[..12][6..] == b[6..][..6];
        assert PairText(b[..12], c);
      }
    }
  }

  /** One character more in front of a text. */
  lemma CharBefore(b: seq<Byte>, k: nat, c: Code, t: seq<Byte>, s: Str, x: seq<Byte>)
    requires k <= |b| && b[k..] == t + ([QUOTE] + x) && CharText(b[..k], c) && CharsText(t, s)
    requires High(c) ==> !(UnitAt(b[k..]).Some? && Low(UnitAt(b[k..]).value))
    ensures CharsText(b[..k] + t, [c] + s) && b == b[..k] + t + ([QUOTE] + x) && Merge([c] + s) == [c] + Merge(s)
  {
    ConsText(b[..k], c, t, s);
    NoMerge(c, t, s, x, b[k..]);
    FrontBytes(b, k, t, x);
  }

  lemma FrontBytes(b: seq<Byte>, k: nat, t: seq<Byte>, x: seq<Byte>)
    requires k <= |b| && b[k..] == t + ([QUOTE] + x)
    ensures b == b[..k] + t + ([QUOTE] + x)
  {
    assert b == b[..k] + b[k..];
  }

  lemma NoMerge(c: Code, t: seq<Byte>, s: Str, x: seq<Byte>, y: seq<Byte>)
    requires CharsText(t, s) && y == t + ([QUOTE] + x)
    requires High(c) ==> !(UnitAt(y).Some? && Low(UnitAt(y).value))
    ensures Merge([c] + s) == [c] + Merge(s)
  {
    LowFirst(t, s, x);
    assert ([c] + s)[1..] == s;
  }

  lemma {:induction false} CharsFound(b: seq<Byte>) returns (t: seq<Byte>, s: Str)
    requires ParseChars(b).Some?
    ensures CharsText(t, s) && b == t + ([QUOTE] + ParseChars(b).value.1) && Merge(s) == ParseChars(b).value.0
    decreases |b|
  {
    if b[0] == QUOTE {
      t, s := [], [];
      assert b == [] + ([QUOTE] + b[1..]);
    } else {
      var k, c := CharFound(b);
      t, s := CharsFound(b[k..]);
      CharBefore(b, k, c, t, s, ParseChars(b).value.1);
      t, s := b[..k] + t, [c] + s;
    }
  }

  // ---- values ----------------------------------------------------------------------------------------------------

  lemma NoDigitFirst(z: seq<Byte>, c: Byte, x: seq<Byte>)
    requires Structural(z, c) && !IsDigit(c)
    ensures z != [] && NoDigitAhead(z + x)
  {
    var i :| AroundAt(z, c, i);
    assert (z + x)[0] == z[0];
    if i > 0 { assert z[0] == z[..i][0]; }
  }

  /** The parser finds a pair at the front of `b`, and `y` is left. */
  ghost predicate ReadsMember(b: seq<Byte>, key: Str, value: Value, y: seq<Byte>) {
    var k := ParseChars(b);
    && k.Some? && k.value.0 == key
    && var b1 := SkipSpace(k.value.1);
       b1 != [] && b1[0] == COLON && ParseValue(SkipSpace(b1[1..])) == Some((value, y))
  }

  /** What becomes of a pair when `b2` comes behind it. */
  function MoreMembers(key: Str, value: Value, b2: seq<Byte>): Option<(Fields, seq<Byte>)> {
    if b2 == [] then None
    else if b2[0] == CLOSE then Some((Field(key, value, End), b2[1..]))
    else if b2[0] != COMMA then None else
    var b3 := SkipSpace(b2[1..]);
    if b3 == [] || b3[0] != QUOTE then None else
    var more := ParseMembers(b3[1..]);
    if more.Some? then Some((Field(key, value, more.value.0), more.value.1)) else None
  }

  lemma AfterMember(b: seq<Byte>, key: Str, value: Value, y: seq<Byte>)
    requires ReadsMember(b, key, value, y)
    ensures ParseMembers(b) == MoreMembers(key, value, SkipSpace(y))
  {}

  lemma LastMember(b: seq<Byte>, key: Str, value: Value, y: seq<Byte>, tail: seq<Byte>)
    requires ReadsMember(b, key, value, y) && SkipSpace(y) == [CLOSE] + tail
    ensures ParseMembers(b) == Some((Field(key, value, End), tail))
  {
    AfterMember(b, key, value, y);
  }

  lemma CommaMember(key: Str, value: Value, tail: seq<Byte>, b3: seq<Byte>, more: Fields, x: seq<Byte>)
    requires SkipSpace(tail) == [QUOTE] + b3 && ParseMembers(b3) == Some((more, x))
    ensures MoreMembers(key, value, [COMMA] + tail) == Some((Field(key, value, more), x))
  {}

  lemma NextMember(b: seq<Byte>, key: Str, value: Value, y: seq<Byte>, tail: seq<Byte>, b3: seq<Byte>, more: Fields,
      x: seq<Byte>)
    requires ReadsMember(b, key, value, y) && SkipSpace(y) == [COMMA] + tail && SkipSpace(tail) == [QUOTE] + b3
    requires ParseMembers(b3) == Some((more, x))
    ensures ParseMembers(b) == Some((Field(key, value, more), x))
  {
    AfterMember(b, key, value, y);
    CommaMember(key, value, tail, b3, more, x);
  }

  lemma StringRead(t: seq<Byte>, s: Str, x: seq<Byte>)
    requires StringText(t, s)
    ensures t + x == [QUOTE] + (t[1..] + x) && ParseChars(t[1..] + x) == Some((Merge(s), x))
  {
    CharsRead(t[1..|t| - 1], s, x);
    StringBytes(t, x);
  }

  lemma StringBytes(t: seq<Byte>, x: seq<Byte>)
    requires |t| >= 2 && t[0] == QUOTE && t[|t| - 1] == QUOTE
    ensures t + x == [QUOTE] + (t[1..] + x) && t[1..] + x == t[1..|t| - 1] + ([QUOTE] + x)
  {
    var inner := t[1..|t| - 1];
    assert t[1..] == inner + [QUOTE];
    assert inner + [QUOTE] + x == inner + ([QUOTE] + x);
  }

  /** Every text of a value is read as that value, whatever follows that is not a digit, up to whitespace behind it. */
  lemma {:induction false} ValueRead(t: seq<Byte>, v: Value, x: seq<Byte>) returns (y: seq<Byte>)
    requires ValueText(t, v) && NoDigitAhead(x)
    ensures ParseValue(SkipSpace(t + x)) == Some((Received(v), y)) && SkipSpace(y) == SkipSpace(x)
    decreases v, 1
  {
    y := x;
    match v {
      case Null => Halves(t, x);
      case Int(n) => NumberRead(t, n, x);
      case Text(s) => StringRead(t, s, x);
      case Dict(fields) =>
        var i, j :| 0 <= i <= j <= |t| && Structural(t[..i], 0x7B) && MembersText(t[i..j], fields)
                    && Structural(t[j..], 0x7D);
        y := DictRead(t[..i], t[i..j], t[j..], fields, x);
        Regroup(t, i, j, x);
    }
  }

  lemma Regroup(t: seq<Byte>, i: nat, j: nat, x: seq<Byte>)
    requires i <= j <= |t|
    ensures t + x == t[..i] + (t[i..j] + (t[j..] + x))
  {}

  lemma {:induction false} DictRead(a: seq<Byte>, m: seq<Byte>, z: seq<Byte>, fs: Fields, x: seq<Byte>)
    returns (y: seq<Byte>)
    requires Structural(a, OPEN) && MembersText(m, fs) && Structural(z, CLOSE)
    ensures ParseValue(SkipSpace(a + (m + (z + x)))) == Some((Received(Dict(fs)), y)) && SkipSpace(y) == SkipSpace(x)
    decreases fs, 3
  {
    var tail := SkipToStructural(a, OPEN, m + (z + x));
    SkipPrefix(tail, m + (z + x));
    if fs.End? {
      assert m + (z + x) == z + x;
      y := SkipToStructural(z, CLOSE, x);
      SkipPrefix(y, x);
      y := y + x;
    } else {
      y := MembersRead(m, fs, z, x);
    }
  }

  lemma {:induction false} MembersRead(m: seq<Byte>, fs: Fields, z: seq<Byte>, x: seq<Byte>) returns (y: seq<Byte>)
    requires fs.Field? && MembersText(m, fs) && Structural(z, CLOSE)
    ensures m != [] && m + (z + x) == [QUOTE] + (m[1..] + (z + x))
    ensures ParseMembers(m[1..] + (z + x)) == Some((ReceivedPairs(fs), y)) && SkipSpace(y) == SkipSpace(x)
    decreases fs, 2
  {
    if fs.rest.End? {
      y := LastRead(m, fs, z, x);
    } else {
      var i, j :| 0 <= i <= j <= |m| && MemberText(m[..i], fs.key, fs.value, fs.rest) && Structural(m[i..j], 0x2C)
                  && MembersText(m[j..], fs.rest);
      y := MoreRead(m[..i], m[i..j], m[j..], fs, z, x);
      RegroupTail(m, i, j, z + x);
    }
  }

  lemma RegroupTail(m: seq<Byte>, i: nat, j: nat, x: seq<Byte>)
    requires 1 <= i <= j <= |m|
    ensures m[0] == m[..i][0] && m + x == [m[0]] + (m[1..] + x)
    ensures m[1..] + x == m[..i][1..] + (m[i..j] + (m[j..] + x))
  {}

  lemma {:induction false} LastRead(m: seq<Byte>, fs: Fields, z: seq<Byte>, x: seq<Byte>) returns (y: seq<Byte>)
    requires fs.Field? && fs.rest.End? && MemberText(m, fs.key, fs.value, fs.rest) && Structural(z, CLOSE)
    ensures m != [] && m + (z + x) == [QUOTE] + (m[1..] + (z + x))
    ensures ParseMembers(m[1..] + (z + x)) == Some((ReceivedPairs(fs), y)) && SkipSpace(y) == SkipSpace(x)
    decreases fs, 1
  {
    NoDigitFirst(z, CLOSE, x);
    var y' := MemberRead(m, fs.key, fs.value, fs.rest, z + x);
    var tail := SkipToStructural(z, CLOSE, x);
    LastMember(m[1..] + (z + x), Merge(fs.key), Received(fs.value), y', tail + x);
    SkipPrefix(tail, x);
    y := tail + x;
    RegroupTail(m, |m|, |m|, z + x);
  }

  lemma {:induction false} MoreRead(e: seq<Byte>, c: seq<Byte>, m: seq<Byte>, fs: Fields, z: seq<Byte>, x: seq<Byte>)
    returns (y: seq<Byte>)
    requires fs.Field? && fs.rest.Field? && MemberText(e, fs.key, fs.value, fs.rest) && Structural(c, COMMA)
    requires MembersText(m, fs.rest) && Structural(z, CLOSE)
    ensures e != [] && e[0] == QUOTE
    ensures ParseMembers(e[1..] + (c + (m + (z + x)))) == Some((ReceivedPairs(fs), y)) && SkipSpace(y) == SkipSpace(x)
    decreases fs, 1
  {
    var b := m + (z + x);
    NoDigitFirst(c, COMMA, b);
    var y' := MemberRead(e, fs.key, fs.value, fs.rest, c + b);
    var tail := SkipToStructural(c, COMMA, b);
    SkipPrefix(tail, b);
    y := MembersRead(m, fs.rest, z, x);
    NextMember(e[1..] + (c + b), Merge(fs.key), Received(fs.value), y', tail + b, m[1..] + (z + x),
               ReceivedPairs(fs.rest), y);
  }

  lemma {:induction false} MemberRead(t: seq<Byte>, key: Str, value: Value, rest: Fields, x: seq<Byte>)
    returns (y: seq<Byte>)
    requires MemberText(t, key, value, rest) && NoDigitAhead(x)
    ensures t != [] && t[0] == QUOTE && ReadsMember(t[1..] + x, Merge(key), Received(value), y)
    ensures SkipSpace(y) == SkipSpace(x)
    decreases Field(key, value, rest), 0
  {
    var i, j :| 0 <= i <= j <= |t| && StringText(t[..i], key) && Structural(t[i..j], 0x3A) && ValueText(t[j..], value);
    var c, v := t[i..j], t[j..];
    StringRead(t[..i], key, c + (v + x));
    RegroupTail(t, i, j, x);
    var tail := SkipToStructural(c, COLON, v + x);
    SkipPrefix(tail, v + x);
    y := ValueRead(v, value, x);
    PairIsMember(t[1..] + x, Merge(key), Received(value), c + (v + x), tail + (v + x), y);
  }

  lemma PairIsMember(b: seq<Byte>, key: Str, value: Value, w: seq<Byte>, tail: seq<Byte>, y: seq<Byte>)
    requires ParseChars(b) == Some((key, w)) && SkipSpace(w) == [COLON] + tail
    requires ParseValue(SkipSpace(tail)) == Some((value, y))
    ensures ReadsMember(b, key, value, y)
  {}

  // ---- and back --------------------------------------------------------------------------------------------------

  lemma Around(w: seq<Byte>, c: Byte, w': seq<Byte>)
    requires Whitespace(w) && Whitespace(w')
    ensures Structural(w + [c] + w', c)
  {
    Thirds(w, [c], w');
    assert AroundAt(w + [c] + w', c, |w|);
  }

  lemma BuildMember(k: seq<Byte>, c: seq<Byte>, v: seq<Byte>, key: Str, value: Value, rest: Fields)
    requires StringText(k, key) && Structural(c, 0x3A) && ValueText(v, value)
    ensures MemberText(k + c + v, key, value, rest)
  {
    Thirds(k, c, v);
  }

  lemma BuildMembers(e: seq<Byte>, c: seq<Byte>, m: seq<Byte>, fs: Fields)
    requires fs.Field? && fs.rest.Field? && MemberText(e, fs.key, fs.value, fs.rest)
    requires Structural(c, 0x2C) && MembersText(m, fs.rest)
    ensures MembersText(e + c + m, fs)
  {
    Thirds(e, c, m);
  }

  lemma BuildDict(a: seq<Byte>, m: seq<Byte>, z: seq<Byte>, fs: Fields)
    requires Structural(a, 0x7B) && MembersText(m, fs) && Structural(z, 0x7D)
    ensures ValueText(a + m + z, Dict(fs))
  {
    Thirds(a, m, z);
  }

  lemma BuildString(t: seq<Byte>, s: Str)
    requires CharsText(t, s)
    ensures StringText([QUOTE] + t + [QUOTE], s)
  {
    Thirds([QUOTE], t, [QUOTE]);
    assert ([QUOTE] + t + [QUOTE])[1..|t| + 1] == t;
  }

  function Skipped(b: seq<Byte>): seq<Byte> { b[..|b| - |SkipSpace(b)|] }

  lemma Spaces(b: seq<Byte>)
    ensures Whitespace(Skipped(b)) && b == Skipped(b) + SkipSpace(b)
  {
    SkipSuffix(b);
  }

  /** Whatever is read as a value is a text of the grammar for a value that is received as that one. */
  lemma {:induction false} ValueFound(b: seq<Byte>) returns (t: seq<Byte>, v: Value)
    requires ParseValue(b).Some?
    ensures ValueText(t, v) && b == t + ParseValue(b).value.1 && Received(v) == ParseValue(b).value.0
    decreases |b|
  {
    var x := ParseValue(b).value.1;
    if b[0] == QUOTE {
      t, v := StringFound(b);
    } else if b[0] == OPEN {
      t, v := DictFound(b);
    } else if |b| >= 4 && b[..4] == NULL {
      t, v := NULL, Null;
    } else {
      NumberFound(b);
      t, v := Front(b, x), ParseInt(b).value.0;
    }
  }

  lemma StringFound(b: seq<Byte>) returns (t: seq<Byte>, v: Value)
    requires ParseValue(b).Some? && b[0] == QUOTE
    ensures ValueText(t, v) && b == t + ParseValue(b).value.1 && Received(v) == ParseValue(b).value.0
  {
    var t', s := CharsFound(b[1..]);
    BuildString(t', s);
    t, v := [QUOTE] + t' + [QUOTE], Text(s);
    QuotedBytes(b, t', ParseChars(b[1..]).value.1);
  }

  lemma QuotedBytes(b: seq<Byte>, t: seq<Byte>, x: seq<Byte>)
    requires b != [] && b[0] == QUOTE && b[1..] == t + ([QUOTE] + x)
    ensures b == [QUOTE] + t + [QUOTE] + x
  {
    assert b == [QUOTE] + b[1..];
  }

  lemma ObjectSteps(b: seq<Byte>)
    requires ParseValue(b).Some? && b[0] == OPEN
    ensures var b1 := SkipSpace(b[1..]);
            && b1 != []
            && if b1[0] == CLOSE then ParseValue(b).value == (Dict(End), b1[1..])
               else && b1[0] == QUOTE && ParseMembers(b1[1..]).Some?
                    && var (pairs, x) := ParseMembers(b1[1..]).value;
                       ParseValue(b).value == (Dict(ToDict(End, pairs)), x)
  {}

  lemma {:induction false} DictFound(b: seq<Byte>) returns (t: seq<Byte>, v: Value)
    requires ParseValue(b).Some? && b[0] == OPEN
    ensures ValueText(t, v) && b == t + ParseValue(b).value.1 && Received(v) == ParseValue(b).value.0
    decreases |b|, 0
  {
    var w, b1 := Skipped(b[1..]), SkipSpace(b[1..]);
    ObjectSteps(b);
    Spaces(b[1..]);
    Around([], OPEN, w);
    var m, z, fs := [], [CLOSE], End;
    if b1[0] == CLOSE {
      Alone([CLOSE], CLOSE);
    } else {
      m, z, fs := MembersFound(b1[1..]);
    }
    BuildDict([] + [OPEN] + w, m, z, fs);
    t, v := [] + [OPEN] + w + m + z, Dict(fs);
    DictBytes(b, w, b1, m, z, ParseValue(b).value.1);
  }

  lemma DictBytes(b: seq<Byte>, w: seq<Byte>, b1: seq<Byte>, m: seq<Byte>, z: seq<Byte>, x: seq<Byte>)
    requires b != [] && b[0] == OPEN && b[1..] == w + b1 && b1 != []
    requires b1[0] == CLOSE ==> m == [] && z == [CLOSE] && x == b1[1..]
    requires b1[0] != CLOSE ==> b1[0] == QUOTE && [QUOTE] + b1[1..] == m + z + x
    ensures b == [] + [OPEN] + w + m + z + x
  {
    assert b == [OPEN] + (w + b1);
    assert b1 == m + z + x;
  }

  lemma MemberSteps(b: seq<Byte>, key: Str, value: Value, y: seq<Byte>) returns (w: seq<Byte>, tail: seq<Byte>)
    requires ReadsMember(b, key, value, y)
    ensures ParseChars(b) == Some((key, w)) && SkipSpace(w) == [COLON] + tail
    ensures ParseValue(SkipSpace(tail)) == Some((value, y)) && |w| < |b| && |tail| < |b|
  {
    w := ParseChars(b).value.1;
    tail := SkipSpace(w)[1..];
  }

  /** The text of one pair, up to the end of its value. */
  lemma {:induction false} MemberFound(b: seq<Byte>, key: Str, value: Value, y: seq<Byte>, rest: Fields)
    returns (e: seq<Byte>, k: Str, v: Value)
    requires ReadsMember(b, key, value, y)
    ensures MemberText(e, k, v, rest) && [QUOTE] + b == e + y && Merge(k) == key && Received(v) == value
    decreases |b|, 0
  {
    var w, tail := MemberSteps(b, key, value, y);
    var kt, vt;
    kt, k := CharsFound(b);
    Spaces(w);
    Spaces(tail);
    vt, v := ValueFound(SkipSpace(tail));
    var c := Skipped(w) + [COLON] + Skipped(tail);
    BuildString(kt, k);
    Around(Skipped(w), COLON, Skipped(tail));
    BuildMember([QUOTE] + kt + [QUOTE], c, vt, k, v, rest);
    e := [QUOTE] + kt + [QUOTE] + c + vt;
    MemberBytes(b, kt, w, Skipped(w), tail, Skipped(tail), vt, y);
  }

  lemma MemberBytes(b: seq<Byte>, kt: seq<Byte>, w: seq<Byte>, s: seq<Byte>, tail: seq<Byte>, s': seq<Byte>,
      vt: seq<Byte>, y: seq<Byte>)
    requires b == kt + ([QUOTE] + w) && w == s + ([COLON] + tail) && tail == s' + (vt + y)
    ensures [QUOTE] + b == [QUOTE] + kt + [QUOTE] + (s + [COLON] + s') + vt + y
  {}

  lemma MembersSteps(b: seq<Byte>) returns (y: seq<Byte>, tail: seq<Byte>, b3: seq<Byte>)
    requires ParseMembers(b).Some?
    ensures var (pairs, x) := ParseMembers(b).value;
            && pairs.Field? && ReadsMember(b, pairs.key, pairs.value, y) && |tail| < |b|
            && if pairs.rest.End? then SkipSpace(y) == [CLOSE] + x
               else SkipSpace(y) == [COMMA] + tail && SkipSpace(tail) == [QUOTE] + b3
                    && ParseMembers(b3) == Some((pairs.rest, x))
  {
    var (pairs, x) := ParseMembers(b).value;
    var b1 := SkipSpace(ParseChars(b).value.1);
    y := ParseValue(SkipSpace(b1[1..])).value.1;
    tail := SkipSpace(y)[1..];
    b3 := if pairs.rest.End? then [] else SkipSpace(tail)[1..];
  }

  lemma {:induction false} MembersFound(b: seq<Byte>) returns (m: seq<Byte>, z: seq<Byte>, fs: Fields)
    requires ParseMembers(b).Some?
    ensures fs.Field? && MembersText(m, fs) && Structural(z, 0x7D) && [QUOTE] + b == m + z + ParseMembers(b).value.1
    ensures ReceivedPairs(fs) == ParseMembers(b).value.0
    decreases |b|, 2
  {
    var (pairs, x) := ParseMembers(b).value;
    var y, tail, b3 := MembersSteps(b);
    if pairs.rest.End? {
      m, z, fs := LastFound(b, pairs, y, x);
    } else {
      m, z, fs := MembersFound(b3);
      m, z, fs := MoreFound(b, pairs, y, tail, b3, x, m, z, fs);
    }
  }

  lemma {:induction false} LastFound(b: seq<Byte>, pairs: Fields, y: seq<Byte>, x: seq<Byte>)
    returns (m: seq<Byte>, z: seq<Byte>, fs: Fields)
    requires pairs.Field? && pairs.rest.End? && ReadsMember(b, pairs.key, pairs.value, y) && SkipSpace(y) == [CLOSE] + x
    ensures fs.Field? && MembersText(m, fs) && Structural(z, 0x7D) && [QUOTE] + b == m + z + x
    ensures ReceivedPairs(fs) == pairs
    decreases |b|, 1
  {
    var k, v;
    m, k, v := MemberFound(b, pairs.key, pairs.value, y, End);
    Spaces(y);
    Around(Skipped(y), CLOSE, []);
    z, fs := Skipped(y) + [CLOSE] + [], Field(k, v, End);
    LastBytes(m, y, Skipped(y), x);
  }

  lemma LastBytes(e: seq<Byte>, y: seq<Byte>, s: seq<Byte>, x: seq<Byte>)
    requires y == s + ([CLOSE] + x)
    ensures e + y == e + (s + [CLOSE] + []) + x
  {}

  lemma {:induction false} MoreFound(b: seq<Byte>, pairs: Fields, y: seq<Byte>, tail: seq<Byte>, b3: seq<Byte>,
      x: seq<Byte>, m': seq<Byte>, z': seq<Byte>, fs': Fields)
    returns (m: seq<Byte>, z: seq<Byte>, fs: Fields)
    requires pairs.Field? && ReadsMember(b, pairs.key, pairs.value, y)
    requires SkipSpace(y) == [COMMA] + tail && SkipSpace(tail) == [QUOTE] + b3
    requires fs'.Field? && MembersText(m', fs') && Structural(z', 0x7D) && [QUOTE] + b3 == m' + z' + x
    requires ReceivedPairs(fs') == pairs.rest
    ensures fs.Field? && MembersText(m, fs) && Structural(z, 0x7D) && [QUOTE] + b == m + z + x
    ensures ReceivedPairs(fs) == pairs
    decreases |b|, 1
  {
    var e, k, v := MemberFound(b, pairs.key, pairs.value, y, fs');
    Spaces(y);
    Spaces(tail);
    var c := Skipped(y) + [COMMA] + Skipped(tail);
    Around(Skipped(y), COMMA, Skipped(tail));
    fs := Field(k, v, fs');
    BuildMembers(e, c, m', fs);
    m, z := e + c + m', z';
    MoreBytes(e, y, Skipped(y), tail, Skipped(tail), b3, m', z', x);
  }

  lemma MoreBytes(e: seq<Byte>, y: seq<Byte>, s: seq<Byte>, tail: seq<Byte>, s': seq<Byte>, b3: seq<Byte>,
      m: seq<Byte>, z: seq<Byte>, x: seq<Byte>)
    requires y == s + ([COMMA] + tail) && tail == s' + ([QUOTE] + b3) && [QUOTE] + b3 == m + z + x
    ensures e + y == e + (s + [COMMA] + s') + m + z + x
  {}

  // ---- the whole text --------------------------------------------------------------------------------------------

  /** JSON-text: a value with whitespace around it. */
  ghost predicate IsTextOf(b: seq<Byte>, u: Value) {
    exists i, j :: 0 <= i <= j <= |b| && Whitespace(b[..i]) && ValueText(b[i..j], u) && Whitespace(b[j..])
  }

  lemma TextRead(b: seq<Byte>, u: Value)
    requires IsTextOf(b, u)
    ensures Loads(b) == Some(Received(u))
  {
    var i, j :| 0 <= i <= j <= |b| && Whitespace(b[..i]) && ValueText(b[i..j], u) && Whitespace(b[j..]);
    var w := b[j..];
    AllSpace(w);
    var y := ValueRead(b[i..j], u, w);
    SkipPrefix(b[..i], b[i..j] + w);
    Pieces(b, i, j);
  }

  lemma Pieces(b: seq<Byte>, i: nat, j: nat)
    requires i <= j <= |b|
    ensures b == b[..i] + (b[i..j] + b[j..])
  {}

  lemma AllSpace(w: seq<Byte>)
    requires Whitespace(w)
    ensures SkipSpace(w) == [] && NoDigitAhead(w)
  {
    SkipPrefix(w, []);
    assert w + [] == w;
  }

  lemma TextFound(b: seq<Byte>) returns (u: Value)
    requires Loads(b).Some?
    ensures IsTextOf(b, u) && Received(u) == Loads(b).value
  {
    var b1 := SkipSpace(b);
    var x := ParseValue(b1).value.1;
    Spaces(b);
    Spaces(x);
    var t;
    t, u := ValueFound(b1);
    var w := Skipped(b);
    Thirds(w, t, x);
    assert b == w + t + x && Skipped(x) + [] == x;
  }

  /** The parser accepts exactly the texts of the grammar, and gives for each the value that the text stands for, as it
      is received: surrogate pairs joined, and of equal keys the last value at the place of the first. */
  lemma {:induction false} LoadsIff(b: seq<Byte>, v: Value)
    ensures Loads(b) == Some(v) <==> exists u :: IsTextOf(b, u) && Received(u) == v
  {
    if Loads(b) == Some(v) {
      var u := TextFound(b);
    }
    if u :| IsTextOf(b, u) && Received(u) == v {
      TextRead(b, u);
    }
  }

  /** So a line is reported as unreadable exactly if it is not a text of the grammar. */
  lemma {:induction false} UnreadableIff(line: seq<Byte>)
    ensures Framing.Decode(line) == Framing.Unreadable <==> !exists u :: IsTextOf(line, u)
  {
    if Loads(line).Some? {
      var u := TextFound(line);
    }
    if u :| IsTextOf(line, u) {
      TextRead(line, u);
    }
  }

  // ---- equal keys ------------------------------------------------------------------------------------------------

  /** The value under a key of a dictionary, and the last of the values that a text gives for it. */
  function Lookup(d: Fields, k: Str): Option<Value> {
    match d
    case End => None
    case Field(k0, v, rest) => if k0 == k then Some(v) else Lookup(rest, k)
  }

  function LastOf(pairs: Fields, k: Str): Option<Value> {
    match pairs
    case End => None
    case Field(k0, v, rest) => if LastOf(rest, k).None? && k0 == k then Some(v) else LastOf(rest, k)
  }

  /** Key `a` comes first before any `b`. */
  predicate Before(fs: Fields, a: Str, b: Str) {
    fs.Field? && fs.key != b && (fs.key == a || Before(fs.rest, a, b))
  }

  predicate UniqueKeys(d: Fields) {
    d.Field? ==> !HasKey(d.rest, d.key) && UniqueKeys(d.rest)
  }

  lemma {:induction false} InsertMeaning(d: Fields, k: Str, v: Value, a: Str, b: Str)
    requires UniqueKeys(d) && a != b
    ensures UniqueKeys(Insert(d, k, v)) && (HasKey(Insert(d, k, v), a) <==> HasKey(d, a) || k == a)
    ensures Lookup(Insert(d, k, v), a) == if a == k then Some(v) else Lookup(d, a)
    ensures Before(Insert(d, k, v), a, b) <==> Before(d, a, b) || (!HasKey(d, a) && !HasKey(d, b) && k == a)
  {
    if d.Field? {
      InsertMeaning(d.rest, k, v, a, b);
      if d.key != k { InsertHas(d.rest, k, v, d.key); }
    }
  }

  lemma {:induction false} InsertHas(d: Fields, k: Str, v: Value, a: Str)
    ensures HasKey(Insert(d, k, v), a) <==> HasKey(d, a) || k == a
  {
    if d.Field? { InsertHas(d.rest, k, v, a); }
  }

  lemma {:induction false} ToDictMeaning(d: Fields, pairs: Fields, a: Str, b: Str)
    requires UniqueKeys(d) && a != b
    ensures UniqueKeys(ToDict(d, pairs))
    ensures Lookup(ToDict(d, pairs), a) == if LastOf(pairs, a).Some? then LastOf(pairs, a) else Lookup(d, a)
    ensures Before(ToDict(d, pairs), a, b)
            <==> Before(d, a, b) || (!HasKey(d, a) && !HasKey(d, b) && Before(pairs, a, b))
    decreases pairs
  {
    if pairs.Field? {
      InsertMeaning(d, pairs.key, pairs.value, a, b);
      InsertHas(d, pairs.key, pairs.value, b);
      ToDictMeaning(Insert(d, pairs.key, pairs.value), pairs.rest, a, b);
      BeforeHas(d, a, b);
    }
  }

  lemma {:induction false} BeforeHas(d: Fields, a: Str, b: Str)
    ensures Before(d, a, b) ==> HasKey(d, a)
  {
    if d.Field? { BeforeHas(d.rest, a, b); }
  }

  /** What a received object is: each key once, in the order in which the keys first occur in the text, with the last
      value that the text gives for it. */
  lemma {:induction false} DictMeaning(fs: Fields, a: Str, b: Str)
    requires a != b
    ensures var pairs := ReceivedPairs(fs);
            && Received(Dict(fs)).Dict? && var d := Received(Dict(fs)).fields;
               && UniqueKeys(d) && Lookup(d, a) == LastOf(pairs, a) && (Before(d, a, b) <==> Before(pairs, a, b))
  {
    ToDictMeaning(End, ReceivedPairs(fs), a, b);
  }
}
