/** The lines of the shared file as a reader sees them (data_layer.py): when, by whom, and what was written. */
module FileLines {
  import opened LockSystem
  import opened Linearizability
  import opened Options

  datatype Written = Written(stamp: string, userId: string, text: string)

  /** Where `c` first occurs, or the length. */
  function IndexOf(s: string, c: char): (n: nat)
    ensures n <= |s| && c !in s[..n] && (n < |s| ==> s[n] == c)
  {
    if s == [] || s[0] == c then 0 else
    var n := IndexOf(s[1..], c);
    assert s[..n + 1] == [s[0]] + s[1..][..n];
    n + 1
  }

  /** A reader of one line: newline and bracket, the stamp up to the first "]", the writer up to the first ":", and
      the text. */
  function ReadLine(line: string): Option<Written> {
    if |line| < 2 || line[0] != '\n' || line[1] != '[' then None else
    var rest := line[2..];
    var i := IndexOf(rest, ']');
    if |rest| < i + 2 || rest[i + 1] != ' ' then None else
    var named := rest[i + 2..];
    var j := IndexOf(named, ':');
    if |named| < j + 2 || named[j + 1] != ' ' then None else
    Some(Written(rest[..i], named[..j], named[j + 2..]))
  }

  lemma {:induction false} FirstIndex(a: string, c: char, b: string)
    requires c !in a
    ensures IndexOf(a + [c] + b, c) == |a|
  {
    if a != [] {
      assert (a + [c] + b)[1..] == a[1..] + [c] + b;
      FirstIndex(a[1..], c, b);
    }
  }

  lemma Slices(a: string, b: string, c: string)
    ensures var s := a + b + c; s[..|a|] == a && s[|a|..|a| + |b|] == b && s[|a| + |b|..] == c
  {}

  lemma ReadFrom(stamp: string, userId: string, text: string)
    requires ']' !in stamp && ':' !in userId
    ensures ReadLine("\n[" + (stamp + "] " + (userId + ": " + text))) == Some(Written(stamp, userId, text))
  {
    var named := userId + ": " + text;
    var rest := stamp + "] " + named;
    assert ("\n[" + rest)[2..] == rest;
    assert rest == stamp + [']'] + ([' '] + named);
    FirstIndex(stamp, ']', [' '] + named);
    Slices(stamp, "] ", named);
    assert named == userId + [':'] + ([' '] + text);
    FirstIndex(userId, ':', [' '] + text);
    Slices(userId, ": ", text);
  }

  lemma SameLine(stamp: string, op: Op)
    requires op.Write?
    ensures LineOf(stamp, op) == "\n[" + (stamp + "] " + (op.userId + ": " + op.text))
  {}

  /** A line tells exactly when, by whom and what was written, if and only if the stamp has no "]" and the name of the
      writer no ":". */
  lemma LineTells(stamp: string, op: Op)
    requires op.Write?
    ensures ReadLine(LineOf(stamp, op)) == Some(Written(stamp, op.userId, op.text))
            <==> ']' !in stamp && ':' !in op.userId
  {
    if ']' !in stamp && ':' !in op.userId {
      SameLine(stamp, op);
      ReadFrom(stamp, op.userId, op.text);
    }
  }

  /** `content` is `before`, the line that records `w`, and `after`. */
  predicate HoldsLine(content: string, before: string, w: Written, after: string) {
    content == before + "\n[" + w.stamp + "] " + w.userId + ": " + w.text + after
  }

  lemma LineHeld(before: string, stamp: string, op: Op, after: string)
    requires op.Write?
    ensures HoldsLine(before + LineOf(stamp, op) + after, before, Written(stamp, op.userId, op.text), after)
  {
    var head, tail := "\n[" + stamp + "] " + op.userId, ": " + op.text;
    assert before + (head + tail) == before + head + tail;
  }

  lemma SplitText(init: string, lines: seq<string>, v: nat, n: nat)
    requires 1 <= v <= n <= |lines|
    ensures Text(init, lines[..n]) == Text(init, lines[..v - 1]) + lines[v - 1] + Concat(lines[v..n])
  {
    assert lines[..n] == lines[..v - 1] + [lines[v - 1]] + lines[v..n];
    ConcatAppend(lines[..v - 1] + [lines[v - 1]], lines[v..n]);
    AppendText(init, lines[..v - 1], lines[v - 1]);
    assert init + (Concat(lines[..v - 1] + [lines[v - 1]]) + Concat(lines[v..n]))
        == init + Concat(lines[..v - 1] + [lines[v - 1]]) + Concat(lines[v..n]);
  }

  /** So the content itself shows the line, behind everything written before it. */
  lemma ContentHoldsLine(init: string, lines: seq<string>, v: nat, n: nat, op: Op) returns (w: Written, after: string)
    requires 1 <= v <= n <= |lines| && op.Write? && IsLineOf(lines[v - 1], op)
    ensures HoldsLine(Text(init, lines[..n]), Text(init, lines[..v - 1]), w, after)
    ensures w.userId == op.userId && w.text == op.text
  {
    var stamp :| lines[v - 1] == LineOf(stamp, op);
    SplitText(init, lines, v, n);
    w, after := Written(stamp, op.userId, op.text), Concat(lines[v..n]);
    LineHeld(Text(init, lines[..v - 1]), stamp, op, after);
  }

  /** The file tells who wrote what: line `v` of the log is read as the writer and the text of the write that
      returned version `v`, and the stamp it was given. */
  lemma {:induction false} LogTells(init: string, order: seq<Entry>, k: nat)
    requires LegalHistory(init, order) && k < |order| && order[k].result.Committed?
    requires ']' !in order[k].stamp && order[k].op.Write? && ':' !in order[k].op.userId
    ensures var v := order[k].result.version;
            1 <= v <= |Log(order)|
            && ReadLine(Log(order)[v - 1]) == Some(Written(order[k].stamp, order[k].op.userId, order[k].op.text))
  {
    assert AtomicAnswer(init, Log(order[..k]), order[k]);
    LogGrows(order, k + 1);
    assert order[..k + 1] == order[..k] + [order[k]];
    LogExtend(order[..k], order[k]);
    LineTells(order[k].stamp, order[k].op);
  }
}
