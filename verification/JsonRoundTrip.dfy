/** json.loads undoes json.dumps, exactly on the values in which no string holds an adjacent surrogate pair. */
module JsonRoundTrip {
  import opened Json
  import opened Options

  // ---- strings -------------------------------------------------------------------------------------------

  lemma HexInverse(d: int)
    requires 0 <= d < 16
    ensures HexValue(HexDigit(d)) == Some(d)
  {}

  lemma UnitRoundTrip(u: Unit16, rest: seq<Byte>)
    ensures UnitAt(EscapeUnit(u) + rest) == Some(u)
    ensures (EscapeUnit(u) + rest)[6..] == rest
  {
    NibblesSum(u);
    var (a, b, c, d) := Nibbles(u);
    HexInverse(a); HexInverse(b); HexInverse(c); HexInverse(d);
    var text := EscapeUnit(u) + rest;
    assert text[2] == HexDigit(a) && text[3] == HexDigit(b) && text[4] == HexDigit(c) && text[5] == HexDigit(d);
  }

  lemma NibblesSum(u: Unit16)
    ensures var (a, b, c, d) := Nibbles(u); u == a * 0x1000 + b * 0x100 + c * 16 + d
  {}

  predicate PrintsAsIs(c: Code) {
    ShortEscape(c).Some? || 32 <= c <= 126
  }

  lemma ParseUnit(u: Unit16, more: seq<Byte>)
    ensures var next := UnitAt(more);
            ParseChars(EscapeUnit(u) + more)
            == if High(u) && next.Some? && Low(next.value) then Cons(Combine(u, next.value), ParseChars(more[6..]))
               else Cons(u, ParseChars(more))
  {
    var b := EscapeUnit(u) + more;
    UnitRoundTrip(u, more);
    assert b[0] == BACKSLASH;
    assert UnitAt(more).Some? ==> b[12..] == more[6..];
  }

  lemma NoUnitAhead(c: Code, more: seq<Byte>)
    requires PrintsAsIs(c)
    ensures UnitAt(Escape(c) + more).None?
  {
    var b := Escape(c) + more;
    assert b[0] == Escape(c)[0];
    assert ShortEscape(c).Some? ==> b[1] == ShortEscape(c).value;
  }

  lemma WideUnits(c: Code, more: seq<Byte>) returns (high: Unit16, low: Unit16)
    requires c >= 0x10000
    ensures High(high) && Low(low) && Combine(high, low) == c
    ensures Escape(c) + more == EscapeUnit(high) + (EscapeUnit(low) + more)
  {
    high, low := 0xD800 + (c - 0x10000) / 0x400, 0xDC00 + (c - 0x10000) % 0x400;
    assert EscapeUnit(high) + EscapeUnit(low) + more == EscapeUnit(high) + (EscapeUnit(low) + more);
  }

  /** The text after a string's first escape is a low surrogate escape only for a low surrogate. */
  lemma LowAhead(s: Str, tail: seq<Byte>)
    requires tail != [] && tail[0] == QUOTE
    ensures var next := UnitAt(PrintChars(s) + tail);
            if s != [] && Low(s[0]) then next == Some(s[0]) else next.None? || !Low(next.value)
  {
    if s == [] {
      assert PrintChars(s) + tail == tail;
    } else {
      CharsLayout(s, tail);
      CharAhead(s[0], PrintChars(s[1..]) + tail);
    }
  }

  lemma CharsLayout(s: Str, tail: seq<Byte>)
    requires s != []
    ensures PrintChars(s) + tail == Escape(s[0]) + (PrintChars(s[1..]) + tail)
  {}

  lemma CharAhead(c: Code, more: seq<Byte>)
    ensures var next := UnitAt(Escape(c) + more);
            if Low(c) then next == Some(c) else next.None? || !Low(next.value)
  {
    if PrintsAsIs(c) {
      NoUnitAhead(c, more);
    } else if c >= 0x10000 {
      var high, low := WideUnits(c, more);
      UnitRoundTrip(high, EscapeUnit(low) + more);
    } else {
      UnitRoundTrip(c, more);
    }
  }

  lemma ShortRoundTrip(c: Code, more: seq<Byte>)
    requires PrintsAsIs(c)
    ensures ParseChars(Escape(c) + more) == Cons(c, ParseChars(more))
  {
    var b := Escape(c) + more;
    assert b[|Escape(c)|..] == more;
    if ShortEscape(c).Some? {
      assert b[0] == BACKSLASH && b[1] == ShortEscape(c).value;
      assert Unescape(b[1]) == Some(c);
    } else {
      assert b[0] == c;
    }
  }

  /** A code point above U+FFFF travels as two escapes and comes back as one. */
  lemma WideRoundTrip(c: Code, more: seq<Byte>)
    requires c >= 0x10000
    ensures ParseChars(Escape(c) + more) == Cons(c, ParseChars(more))
  {
    var high, low := WideUnits(c, more);
    ParseUnit(high, EscapeUnit(low) + more);
    UnitRoundTrip(low, more);
  }

  lemma UnitEscape(c: Code)
    requires !PrintsAsIs(c) && c < 0x10000
    ensures Escape(c) == EscapeUnit(c)
  {}

  predicate Joins(s: Str) {
    |s| >= 2 && High(s[0]) && Low(s[1])
  }

  lemma UnitCharRoundTrip(s: Str, tail: seq<Byte>)
    requires s != [] && !PrintsAsIs(s[0]) && s[0] < 0x10000 && tail != [] && tail[0] == QUOTE
    ensures ParseChars(Escape(s[0]) + (PrintChars(s[1..]) + tail))
            == if Joins(s) then Cons(Combine(s[0], s[1]), ParseChars(PrintChars(s[2..]) + tail))
               else Cons(s[0], ParseChars(PrintChars(s[1..]) + tail))
  {
    UnitEscape(s[0]);
    ParseUnit(s[0], PrintChars(s[1..]) + tail);
    LowAhead(s[1..], tail);
    if Joins(s) {
      SecondOfPair(s[1..], tail);
      assert s[1..][1..] == s[2..];
    }
  }

  lemma SecondOfPair(s: Str, tail: seq<Byte>)
    requires s != [] && Low(s[0])
    ensures (PrintChars(s) + tail)[6..] == PrintChars(s[1..]) + tail && |PrintChars(s) + tail| >= 6
  {
    CharsLayout(s, tail);
    UnitEscape(s[0]);
    UnitRoundTrip(s[0], PrintChars(s[1..]) + tail);
  }

  lemma LoneRoundTrip(c: Code, more: seq<Byte>)
    requires PrintsAsIs(c) || c >= 0x10000
    ensures ParseChars(Escape(c) + more) == Cons(c, ParseChars(more)) && !High(c)
  {
    if c >= 0x10000 { WideRoundTrip(c, more); } else { ShortRoundTrip(c, more); }
  }

  /** One step of the string's round trip: a lone code point, or a surrogate pair that joins. */
  lemma CharRoundTrip(s: Str, tail: seq<Byte>)
    requires s != [] && tail != [] && tail[0] == QUOTE
    ensures ParseChars(Escape(s[0]) + (PrintChars(s[1..]) + tail))
            == if Joins(s) then Cons(Combine(s[0], s[1]), ParseChars(PrintChars(s[2..]) + tail))
               else Cons(s[0], ParseChars(PrintChars(s[1..]) + tail))
  {
    if PrintsAsIs(s[0]) || s[0] >= 0x10000 {
      LoneRoundTrip(s[0], PrintChars(s[1..]) + tail);
    } else {
      UnitCharRoundTrip(s, tail);
    }
  }

  lemma {:induction false} CharsRoundTrip(s: Str, rest: seq<Byte>)
    ensures ParseChars(PrintChars(s) + ([QUOTE] + rest)) == Some((Merge(s), rest))
    decreases |s|
  {
    var tail := [QUOTE] + rest;
    if s == [] {
      assert PrintChars(s) + tail == tail;
    } else {
      CharsLayout(s, tail);
      CharRoundTrip(s, tail);
      if Joins(s) {
        CharsRoundTrip(s[2..], rest);
      } else {
        CharsRoundTrip(s[1..], rest);
      }
    }
  }

  // ---- integers ------------------------------------------------------------------------------------------

  lemma {:induction false} PrintedDigits(n: nat)
    ensures PrintNat(n) != [] && forall i | 0 <= i < |PrintNat(n)| :: IsDigit(PrintNat(n)[i])
    ensures NatOf(PrintNat(n)) == n
    ensures n > 0 ==> PrintNat(n)[0] != 48
  {
    if n >= 10 {
      PrintedDigits(n / 10);
      assert PrintNat(n)[..|PrintNat(n)| - 1] == PrintNat(n / 10);
    }
  }

  lemma {:induction false} RunOfDigits(digits: seq<Byte>, rest: seq<Byte>)
    requires forall i | 0 <= i < |digits| :: IsDigit(digits[i])
    requires rest == [] || !IsDigit(rest[0])
    ensures DigitRun(digits + rest) == |digits|
  {
    if digits == [] {
      assert digits + rest == rest;
    } else {
      assert (digits + rest)[1..] == digits[1..] + rest;
      RunOfDigits(digits[1..], rest);
    }
  }

  lemma NatRoundTrip(n: nat, rest: seq<Byte>)
    requires rest == [] || !IsDigit(rest[0])
    ensures ParseNat(PrintNat(n) + rest) == Some((n, rest))
  {
    var digits := PrintNat(n);
    PrintedDigits(n);
    RunOfDigits(digits, rest);
    assert (digits + rest)[..|digits|] == digits && (digits + rest)[|digits|..] == rest;
  }

  lemma IntRoundTrip(n: int, rest: seq<Byte>)
    requires rest == [] || !IsDigit(rest[0])
    ensures ParseValue(PrintInt(n) + rest) == Some((Int(n), rest))
  {
    if n < 0 {
      NegativeRoundTrip(-n, rest);
    } else {
      NatValueRoundTrip(n, rest);
    }
  }

  lemma NatValueRoundTrip(n: nat, rest: seq<Byte>)
    requires rest == [] || !IsDigit(rest[0])
    ensures ParseValue(PrintNat(n) + rest) == Some((Int(n), rest))
  {
    NatRoundTrip(n, rest);
    PrintedDigits(n);
    DigitAhead(PrintNat(n) + rest);
  }

  lemma PrintNegative(m: nat, rest: seq<Byte>)
    requires m > 0
    ensures PrintInt(0 - m) + rest == [MINUS] + (PrintNat(m) + rest)
  {
    assert PrintInt(0 - m) == [MINUS] + PrintNat(m);
  }

  lemma NegativeRoundTrip(m: nat, rest: seq<Byte>)
    requires rest == [] || !IsDigit(rest[0])
    requires m > 0
    ensures ParseValue(PrintInt(0 - m) + rest) == Some((Int(0 - m), rest))
  {
    NatRoundTrip(m, rest);
    PrintNegative(m, rest);
    MinusAhead(PrintNat(m) + rest, m, rest);
  }

  lemma MinusAhead(b: seq<Byte>, m: nat, rest: seq<Byte>)
    requires ParseNat(b) == Some((m, rest))
    ensures ParseValue([MINUS] + b) == Some((Int(0 - m), rest))
  {
    NumberAhead([MINUS] + b);
    assert ([MINUS] + b)[1..] == b;
  }

  lemma DigitAhead(b: seq<Byte>)
    requires b != [] && IsDigit(b[0]) && ParseNat(b).Some?
    ensures ParseValue(b) == Some((Int(ParseNat(b).value.0), ParseNat(b).value.1))
  {
    NumberAhead(b);
  }

  lemma NumberAhead(b: seq<Byte>)
    requires b != [] && (b[0] == MINUS || IsDigit(b[0]))
    ensures ParseValue(b) == ParseInt(b)
  {
    assert |b| >= 4 ==> b[..4][0] == b[0] != NULL[0];
  }

  // ---- values ----------------------------------------------------------------------------------------------

  lemma TextRoundTrip(s: Str, rest: seq<Byte>)
    ensures ParseValue(PrintStr(s) + rest) == Some((Text(Merge(s)), rest))
  {
    CharsRoundTrip(s, rest);
    assert (PrintStr(s) + rest)[1..] == PrintChars(s) + ([QUOTE] + rest);
  }

  lemma FirstByte(v: Value)
    ensures Print(v) != [] && Print(v)[0] !in {32, 9, 10, 13}
  {
    if v.Int? { PrintedDigits(if v.n < 0 then -v.n else v.n); }
  }

  lemma NoSpace(b: seq<Byte>)
    requires b == [] || b[0] !in {32, 9, 10, 13}
    ensures SkipSpace(b) == b && SkipSpace([SPACE] + b) == b
  {
    assert ([SPACE] + b)[1..] == b;
  }

  lemma {:induction false} ValueRoundTrip(v: Value, rest: seq<Byte>)
    requires rest == [] || !IsDigit(rest[0])
    ensures ParseValue(Print(v) + rest) == Some((Received(v), rest))
    decreases v, 1
  {
    match v {
      case Null => assert (NULL + rest)[..4] == NULL && (NULL + rest)[4..] == rest;
      case Int(n) => IntRoundTrip(n, rest);
      case Text(s) => TextRoundTrip(s, rest);
      case Dict(fields) => ObjectRoundTrip(fields, rest);
    }
  }

  lemma BraceAhead(inner: seq<Byte>)
    requires inner != [] && inner[0] in {QUOTE, CLOSE}
    ensures ParseValue([OPEN] + inner)
            == if inner[0] == CLOSE then Some((Dict(End), inner[1..]))
               else var r := ParseMembers(inner[1..]);
                    if r.Some? then Some((Dict(ToDict(End, r.value.0)), r.value.1)) else None
  {
    assert ([OPEN] + inner)[1..] == inner;
    NoSpace(inner);
  }

  lemma Wrap(inner: seq<Byte>, rest: seq<Byte>)
    ensures [OPEN] + inner + [CLOSE] + rest == [OPEN] + (inner + ([CLOSE] + rest))
    ensures inner != [] ==> (inner + ([CLOSE] + rest))[0] == inner[0]
    ensures inner == [] ==> (inner + ([CLOSE] + rest)) == [CLOSE] + rest && ([CLOSE] + rest)[1..] == rest
  {}

  lemma ObjectLayout(fs: Fields, rest: seq<Byte>)
    ensures Print(Dict(fs)) + rest == [OPEN] + (PrintFields(fs) + ([CLOSE] + rest))
    ensures (PrintFields(fs) + ([CLOSE] + rest))[0] == if fs.Field? then QUOTE else CLOSE
    ensures fs.End? ==> (PrintFields(fs) + ([CLOSE] + rest))[1..] == rest
  {
    Wrap(PrintFields(fs), rest);
    assert fs.Field? ==> PrintFields(fs)[0] == QUOTE;
  }

  lemma {:induction false} ObjectRoundTrip(fs: Fields, rest: seq<Byte>)
    ensures ParseValue(Print(Dict(fs)) + rest) == Some((Received(Dict(fs)), rest))
    decreases fs, 1
  {
    ObjectLayout(fs, rest);
    BraceAhead(PrintFields(fs) + ([CLOSE] + rest));
    if fs.Field? {
      MembersRoundTrip(fs, rest);
    }
  }

  /** One pair of an object, from the opening quote of its key. */
  lemma PairAhead(b: seq<Byte>, text: seq<Byte>, after: seq<Byte>, key: Str, v: Value)
    requires ParseChars(b) == Some((key, [COLON, SPACE] + text))
    requires text != [] && text[0] !in {32, 9, 10, 13} && ParseValue(text) == Some((v, after))
    requires after != [] && after[0] !in {32, 9, 10, 13}
    ensures after[0] == CLOSE ==> ParseMembers(b) == Some((Field(key, v, End), after[1..]))
    ensures after[0] == COMMA && |after| >= 3 && after[1] == SPACE && after[2] == QUOTE ==>
              ParseMembers(b) == var r := ParseMembers(after[3..]);
                                 if r.Some? then Some((Field(key, v, r.value.0), r.value.1)) else None
  {
    NoSpace([COLON, SPACE] + text);
    NoSpace(text);
    assert ([COLON, SPACE] + text)[1..] == [SPACE] + text;
    NoSpace(after);
    if after[0] == COMMA && |after| >= 3 && after[1] == SPACE && after[2] == QUOTE {
      assert after[1..] == [SPACE] + after[2..];
      NoSpace(after[2..]);
      assert after[2..][1..] == after[3..];
    }
  }

  /** What follows the value of the first pair of an object. */
  function AfterFirst(fs: Fields, rest: seq<Byte>): seq<Byte>
    requires fs.Field?
  {
    if fs.rest.End? then [CLOSE] + rest else [COMMA, SPACE] + (PrintFields(fs.rest) + ([CLOSE] + rest))
  }

  lemma Regroup(a: seq<Byte>, b: seq<Byte>, c: seq<Byte>, d: seq<Byte>, e: seq<Byte>)
    ensures ([QUOTE] + a + [QUOTE]) + b + c + d + e == [QUOTE] + (a + ([QUOTE] + (b + (c + (d + e)))))
  {}

  lemma MembersLayout(fs: Fields, rest: seq<Byte>)
    requires fs.Field?
    ensures (PrintFields(fs) + ([CLOSE] + rest))[1..]
            == PrintChars(fs.key) + ([QUOTE] + ([COLON, SPACE] + (Print(fs.value) + AfterFirst(fs, rest))))
  {
    var after := if fs.rest.End? then [] else [COMMA, SPACE] + PrintFields(fs.rest);
    Regroup(PrintChars(fs.key), [COLON, SPACE], Print(fs.value), after, [CLOSE] + rest);
    LastLayout(fs, rest, after);
  }

  lemma LastLayout(fs: Fields, rest: seq<Byte>, after: seq<Byte>)
    requires fs.Field? && after == if fs.rest.End? then [] else [COMMA, SPACE] + PrintFields(fs.rest)
    ensures after + ([CLOSE] + rest) == AfterFirst(fs, rest)
  {}

  lemma AfterLayout(fs: Fields, rest: seq<Byte>)
    requires fs.Field? && fs.rest.Field?
    ensures var after := AfterFirst(fs, rest);
            && |after| >= 3 && after[0] == COMMA && after[1] == SPACE && after[2] == QUOTE
            && after[3..] == (PrintFields(fs.rest) + ([CLOSE] + rest))[1..]
  {
    assert AfterFirst(fs, rest)[2..] == PrintFields(fs.rest) + ([CLOSE] + rest);
    assert AfterFirst(fs, rest)[3..] == AfterFirst(fs, rest)[2..][1..];
  }

  lemma {:induction false} MembersRoundTrip(fs: Fields, rest: seq<Byte>)
    requires fs.Field?
    ensures ParseMembers((PrintFields(fs) + ([CLOSE] + rest))[1..]) == Some((ReceivedPairs(fs), rest))
    decreases fs, 0
  {
    var after := AfterFirst(fs, rest);
    var text := Print(fs.value) + after;
    MembersLayout(fs, rest);
    CharsRoundTrip(fs.key, [COLON, SPACE] + text);
    FirstByte(fs.value);
    ValueRoundTrip(fs.value, after);
    PairAhead((PrintFields(fs) + ([CLOSE] + rest))[1..], text, after, Merge(fs.key), Received(fs.value));
    if fs.rest.Field? {
      AfterLayout(fs, rest);
      MembersRoundTrip(fs.rest, rest);
    } else {
      assert after[1..] == rest;
    }
  }

  /** Parsing the text of any value gives what the wire makes of it. */
  lemma DumpsLoads(v: Value)
    ensures Loads(Print(v)) == Some(Received(v))
  {
    FirstByte(v);
    NoSpace(Print(v));
    assert Print(v) + [] == Print(v);
    ValueRoundTrip(v, []);
    NoSpace([]);
  }

  // ---- exactly which values survive ---------------------------------------------------------------------------

  lemma {:induction false} MergeExact(s: Str)
    ensures |Merge(s)| <= |s|
    ensures Merge(s) == s <==> PairFree(s)
    decreases |s|
  {
    if |s| >= 2 && High(s[0]) && Low(s[1]) {
      MergeExact(s[2..]);
    } else if s != [] {
      MergeExact(s[1..]);
      assert [s[0]] + s[1..] == s;
      assert Merge(s)[1..] == Merge(s[1..]);
      assert PairFree(s) <==> PairFree(s[1..]) by {
        if PairFree(s[1..]) {
          forall i | 0 <= i < |s| - 1 ensures !(High(s[i]) && Low(s[i + 1])) {
            if i > 0 { assert s[1..][i - 1] == s[i] && s[1..][i] == s[i + 1]; }
          }
        }
      }
    }
  }

  function Size(fs: Fields): nat {
    if fs.End? then 0 else 1 + Size(fs.rest)
  }

  function Join(a: Fields, b: Fields): Fields {
    match a
    case End => b
    case Field(k, v, rest) => Field(k, v, Join(rest, b))
  }

  predicate Distinct(fs: Fields) {
    fs.Field? ==> !HasKey(fs.rest, fs.key) && Distinct(fs.rest)
  }

  lemma {:induction false} InsertSize(d: Fields, k: Str, v: Value)
    ensures Size(Insert(d, k, v)) == if HasKey(d, k) then Size(d) else Size(d) + 1
    ensures !HasKey(d, k) ==> Insert(d, k, v) == Join(d, Field(k, v, End))
  {
    if d.Field? && d.key != k { InsertSize(d.rest, k, v); }
  }

  lemma {:induction false} JoinMore(d: Fields, k: Str, v: Value, rest: Fields)
    ensures Join(Join(d, Field(k, v, End)), rest) == Join(d, Field(k, v, rest))
  {
    if d.Field? { JoinMore(d.rest, k, v, rest); }
  }

  lemma {:induction false} JoinKeys(d: Fields, k: Str, v: Value, k': Str)
    ensures HasKey(Join(d, Field(k, v, End)), k') <==> HasKey(d, k') || k' == k
  {
    if d.Field? { JoinKeys(d.rest, k, v, k'); }
  }

  ghost predicate Apart(d: Fields, fs: Fields) {
    forall k | HasKey(fs, k) :: !HasKey(d, k)
  }

  /** Building a dictionary loses a pair exactly when a key comes twice. */
  lemma {:induction false} ToDictExact(d: Fields, fs: Fields)
    ensures Size(ToDict(d, fs)) <= Size(d) + Size(fs)
    ensures Size(ToDict(d, fs)) == Size(d) + Size(fs) <==> Distinct(fs) && Apart(d, fs)
    ensures Distinct(fs) && Apart(d, fs) ==> ToDict(d, fs) == Join(d, fs)
    decreases fs
  {
    if fs.End? {
      JoinEnd(d);
    } else {
      var d' := Insert(d, fs.key, fs.value);
      InsertSize(d, fs.key, fs.value);
      ToDictExact(d', fs.rest);
      if HasKey(d, fs.key) {
        assert HasKey(fs, fs.key);
      } else {
        JoinMore(d, fs.key, fs.value, fs.rest);
        forall k ensures HasKey(d', k) <==> HasKey(d, k) || k == fs.key { JoinKeys(d, fs.key, fs.value, k); }
        assert forall k :: HasKey(fs, k) <==> k == fs.key || HasKey(fs.rest, k);
        assert HasKey(fs.rest, fs.key) ==> HasKey(d', fs.key);
      }
    }
  }

  lemma {:induction false} JoinEnd(d: Fields)
    ensures Join(d, End) == d
  {
    if d.Field? { JoinEnd(d.rest); }
  }

  lemma {:induction false} PairsSize(fs: Fields)
    ensures Size(ReceivedPairs(fs)) == Size(fs)
  {
    if fs.Field? { PairsSize(fs.rest); }
  }

  /** A value comes back as it was sent if and only if it is well-formed. */
  lemma {:induction false} SurvivesIff(v: Value)
    ensures Received(v) == v <==> WellFormed(v)
    decreases v, 1
  {
    match v {
      case Text(s) => MergeExact(s);
      case Dict(fields) =>
        FieldsSurviveIff(fields);
        PairsSize(fields);
        ToDictExact(End, ReceivedPairs(fields));
        assert Apart(End, ReceivedPairs(fields));
        assert Join(End, ReceivedPairs(fields)) == ReceivedPairs(fields);
      case _ =>
    }
  }

  /** A string that does not survive: two lone surrogates side by side come back as one character. */
  lemma PairBecomesOne(high: Code, low: Code)
    requires High(high) && Low(low)
    ensures Received(Text([high, low])) == Text([Combine(high, low)]) != Text([high, low])
  {
    assert Merge([high, low][2..]) == [];
  }

  lemma {:induction false} FieldsSurviveIff(fs: Fields)
    ensures ReceivedPairs(fs) == fs && Distinct(fs) <==> WellFormedFields(fs)
    decreases fs, 0
  {
    if fs.Field? {
      MergeExact(fs.key);
      SurvivesIff(fs.value);
      FieldsSurviveIff(fs.rest);
    }
  }

  // ---- what the text looks like --------------------------------------------------------------------------------

  predicate Printable(b: seq<Byte>) {
    forall i | 0 <= i < |b| :: 32 <= b[i] <= 126
  }

  lemma EscapePrintable(c: Code)
    ensures Printable(Escape(c))
  {}

  lemma {:induction false} CharsPrintable(s: Str)
    ensures Printable(PrintChars(s))
  {
    if s != [] { EscapePrintable(s[0]); CharsPrintable(s[1..]); }
  }

  /** The text of a value is printable ASCII: in particular it holds no newline. */
  lemma {:induction false} TextPrintable(v: Value)
    ensures Printable(Print(v))
    decreases v, 1
  {
    match v {
      case Null =>
      case Int(n) => PrintedDigits(if n < 0 then -n else n);
      case Text(s) => CharsPrintable(s);
      case Dict(fields) => FieldsPrintable(fields);
    }
  }

  lemma {:induction false} FieldsPrintable(fs: Fields)
    ensures Printable(PrintFields(fs))
    decreases fs, 0
  {
    if fs.Field? {
      CharsPrintable(fs.key);
      TextPrintable(fs.value);
      FieldsPrintable(fs.rest);
    }
  }
}
