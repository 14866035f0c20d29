/** Newline-delimited framing over a byte stream (protocol.py): what one side encodes and sends, whole
    messages at a time under a send lock, the other side re-assembles from chunks of any size. */
module Framing {
  import opened Json
  import opened Options
  import opened JsonRoundTrip
  import opened Runs

  const NEWLINE: Byte := 10

  function Encode(m: Value): seq<Byte> {
    Print(m) + [NEWLINE]
  }

  function EncodeAll(ms: seq<Value>): seq<Byte> {
    if ms == [] then [] else Encode(ms[0]) + EncodeAll(ms[1..])
  }

  function Flatten(chunks: seq<seq<Byte>>): seq<Byte> {
    if chunks == [] then [] else chunks[0] + Flatten(chunks[1..])
  }

  /** What `read_message` gives its caller: None at the end of the stream, a ValueError, or a message. */
  datatype Incoming = Closed | Unreadable | Message(m: Value)

  function Decode(line: seq<Byte>): (r: Incoming)
    ensures !r.Closed?
  {
    match Loads(line)
    case Some(m) => Message(m)
    case None => Unreadable
  }

  /** Length of the text before the first newline. */
  function LineLength(b: seq<Byte>): (n: nat)
    ensures n <= |b|
    ensures NEWLINE !in b[..n] && (n < |b| ==> b[n] == NEWLINE)
    ensures n < |b| <==> NEWLINE in b
  {
    if b == [] || b[0] == NEWLINE then 0 else
    var n := LineLength(b[1..]);
    assert b[..n + 1] == [b[0]] + b[1..][..n];
    assert b == [b[0]] + b[1..];
    n + 1
  }

  /** Everything a receiver gets out of a byte stream before it ends or turns unreadable. */
  function Frames(b: seq<Byte>): seq<Incoming> {
    var n := LineLength(b);
    if n == |b| then []
    else if Decode(b[..n]).Unreadable? then [Unreadable]
    else [Decode(b[..n])] + Frames(b[n + 1..])
  }

  // ---- the receiver ---------------------------------------------------------------------------------

  /** A connected socket, as its reader sees it: the chunks that `recv` will return, then the empty one. */
  class Socket {
    var incoming: seq<seq<Byte>>

    ghost predicate Valid()
      reads this
    {
      forall i | 0 <= i < |incoming| :: incoming[i] != []
    }

    method Recv() returns (chunk: seq<Byte>)
      requires Valid()
      modifies this
      ensures Valid() && Flatten(old(incoming)) == chunk + Flatten(incoming)
      ensures chunk == [] ==> incoming == []
      ensures chunk != [] ==> |incoming| < |old(incoming)|
    {
      if incoming == [] { return []; }
      chunk := incoming[0];
      incoming := incoming[1..];
    }
  }

  class FramedReader {
    const sock: Socket
    var buffer: seq<Byte>

    constructor (sock: Socket)
      ensures this.sock == sock && buffer == []
    {
      this.sock := sock;
      buffer := [];
    }

    /** The bytes not yet turned into messages, buffered or still to be received. */
    ghost function Stream(): seq<Byte>
      reads this, sock
    {
      buffer + Flatten(sock.incoming)
    }

    /** One message, however the stream is cut into chunks; None only when no whole line is left. */
    method ReadMessage() returns (r: Incoming)
      requires sock.Valid()
      modifies this, sock
      ensures sock.Valid()
      ensures Reads(old(Stream()), r, Stream())
      ensures r.Closed? ==> sock.incoming == []
    {
      while NEWLINE !in buffer
        invariant sock.Valid() && Stream() == old(Stream())
        decreases |sock.incoming|
      {
        var chunk := sock.Recv();
        if chunk == [] {
          assert Stream() == buffer;
          return Closed;
        }
        buffer := buffer + chunk;
      }
      var n := LineLength(buffer);
      SameLine(buffer, Flatten(sock.incoming));
      r := Decode(buffer[..n]);
      buffer := buffer[n + 1..];
    }

    /** The loop around `read_message`, until the stream ends or a line cannot be read. */
    method ReadAll() returns (all: seq<Incoming>)
      requires sock.Valid()
      modifies this, sock
      ensures all == Frames(old(Stream()))
    {
      all := [];
      while true
        invariant sock.Valid() && all + Frames(Stream()) == Frames(old(Stream()))
        decreases |Stream()|
      {
        ghost var before := Stream();
        var r := ReadMessage();
        NextFrame(all, before, r, Stream());
        if r.Closed? { return; }
        all := all + [r];
        if r.Unreadable? { return; }
      }
    }
  }

  /** `r` is what `read_message` returns on the stream `b`, leaving `b'`. */
  predicate Reads(b: seq<Byte>, r: Incoming, b': seq<Byte>) {
    var n := LineLength(b);
    if n < |b| then r == Decode(b[..n]) && b' == b[n + 1..] else r == Closed && b' == b
  }

  lemma FrameStep(b: seq<Byte>, r: Incoming, b': seq<Byte>)
    requires Reads(b, r, b')
    ensures Frames(b) == if r.Closed? then [] else if r.Unreadable? then [r] else [r] + Frames(b')
    ensures !r.Closed? ==> |b'| < |b|
  {}

  lemma NextFrame(all: seq<Incoming>, b: seq<Byte>, r: Incoming, b': seq<Byte>)
    requires Reads(b, r, b')
    ensures all + Frames(b) == if r.Closed? then all else if r.Unreadable? then all + [r] else all + [r] + Frames(b')
    ensures !r.Closed? ==> |b'| < |b|
  {
    FrameStep(b, r, b');
    Prepend(all, r, Frames(b'));
  }

  lemma Prepend(all: seq<Incoming>, r: Incoming, more: seq<Incoming>)
    ensures all + [] == all && all + ([r] + more) == all + [r] + more
  {}

  lemma SameLine(front: seq<Byte>, back: seq<Byte>)
    requires NEWLINE in front
    ensures LineLength(front + back) == LineLength(front)
    ensures var n := LineLength(front);
            && (front + back)[..n] == front[..n]
            && (front + back)[n + 1..] == front[n + 1..] + back
  {
    var n := LineLength(front);
    assert (front + back)[..n] == front[..n];
    LineLengthIs(front + back, n);
  }

  lemma {:induction false} LineLengthIs(b: seq<Byte>, n: nat)
    requires n < |b| && b[n] == NEWLINE && NEWLINE !in b[..n]
    ensures LineLength(b) == n
  {
    if n > 0 {
      assert b[..n][0] == b[0];
      assert b[1..][..n - 1] == b[..n][1..];
      LineLengthIs(b[1..], n - 1);
    }
  }

  // ---- framing is undone by re-assembly ------------------------------------------------------------------

  /** What arrives when `ms` are sent. */
  function Arrivals(ms: seq<Value>): seq<Incoming> {
    seq(|ms|, i requires 0 <= i < |ms| => Message(Received(ms[i])))
  }

  lemma FirstLine(m: Value, rest: seq<Byte>)
    ensures var b := Encode(m) + rest; var n := |Print(m)|;
            LineLength(b) == n && b[..n] == Print(m) && b[n + 1..] == rest
    ensures Decode(Print(m)) == Message(Received(m))
  {
    TextPrintable(m);
    DumpsLoads(m);
    var b := Encode(m) + rest;
    assert NEWLINE !in Print(m);
    assert b[..|Print(m)|] == Print(m);
    LineLengthIs(b, |Print(m)|);
  }

  lemma FirstFrame(m: Value, rest: seq<Byte>)
    ensures Frames(Encode(m) + rest) == [Message(Received(m))] + Frames(rest)
  {
    FirstLine(m, rest);
  }

  /** Every whole message comes out, in order, and a last line without its newline does not. */
  lemma {:induction false} FramesOfEncodings(ms: seq<Value>, partial: seq<Byte>)
    requires NEWLINE !in partial
    ensures Frames(EncodeAll(ms) + partial) == Arrivals(ms)
  {
    if ms == [] {
      assert EncodeAll(ms) + partial == partial;
    } else {
      EncodeFirst(ms, partial);
      FirstFrame(ms[0], EncodeAll(ms[1..]) + partial);
      FramesOfEncodings(ms[1..], partial);
      ArriveFirst(ms);
    }
  }

  lemma EncodeFirst(ms: seq<Value>, partial: seq<Byte>)
    requires ms != []
    ensures EncodeAll(ms) + partial == Encode(ms[0]) + (EncodeAll(ms[1..]) + partial)
  {
    Associate(Encode(ms[0]), EncodeAll(ms[1..]), partial);
  }

  lemma Associate(a: seq<Byte>, b: seq<Byte>, c: seq<Byte>)
    ensures a + b + c == a + (b + c)
  {}

  lemma ArriveFirst(ms: seq<Value>)
    requires ms != []
    ensures Arrivals(ms) == [Message(Received(ms[0]))] + Arrivals(ms[1..])
  {}

  /** The first `n` bytes of a stream hold whole messages and the start of the next one. */
  lemma {:induction false} Cut(ms: seq<Value>, n: nat) returns (k: nat, partial: seq<Byte>)
    requires n <= |EncodeAll(ms)|
    ensures k <= |ms| && EncodeAll(ms)[..n] == EncodeAll(ms[..k]) + partial
    ensures k < |ms| ==> partial < Encode(ms[k])
    ensures k == |ms| ==> partial == []
  {
    if ms == [] {
      k, partial := 0, [];
    } else if n < |Encode(ms[0])| {
      k, partial := 0, Encode(ms[0])[..n];
    } else {
      var k', p := Cut(ms[1..], n - |Encode(ms[0])|);
      k, partial := k' + 1, p;
      TakeMore(Encode(ms[0]), EncodeAll(ms[1..]), n);
      assert ms[..k][1..] == ms[1..][..k'];
      EncodeFirst(ms[..k], p);
    }
  }

  lemma TakeMore(a: seq<Byte>, b: seq<Byte>, n: nat)
    requires |a| <= n <= |a| + |b|
    ensures (a + b)[..n] == a + b[..n - |a|]
  {}

  /** Of a truncated stream exactly the messages whose delimiter arrived come out. */
  lemma {:induction false} TruncatedStream(ms: seq<Value>, n: nat) returns (k: nat)
    requires n <= |EncodeAll(ms)|
    ensures k <= |ms| && Frames(EncodeAll(ms)[..n]) == Arrivals(ms[..k])
    ensures |EncodeAll(ms[..k])| <= n && (k < |ms| ==> n < |EncodeAll(ms[..k])| + |Encode(ms[k])|)
  {
    var partial;
    k, partial := Cut(ms, n);
    if k < |ms| { PartialHasNoNewline(ms[k], partial); }
    FramesOfEncodings(ms[..k], partial);
  }

  lemma PartialHasNoNewline(m: Value, partial: seq<Byte>)
    requires partial < Encode(m)
    ensures NEWLINE !in partial
  {
    TextPrintable(m);
    forall i | 0 <= i < |partial| ensures partial[i] != NEWLINE { assert partial[i] == Print(m)[i]; }
  }

  /** The framing claim for the messages Python can send unharmed: they arrive as they were sent. */
  lemma {:induction false} WellFormedArrive(ms: seq<Value>)
    requires forall i | 0 <= i < |ms| :: WellFormed(ms[i])
    ensures Frames(EncodeAll(ms)) == seq(|ms|, i requires 0 <= i < |ms| => Message(ms[i]))
  {
    FramesOfEncodings(ms, []);
    assert EncodeAll(ms) + [] == EncodeAll(ms);
    forall i | 0 <= i < |ms| ensures Received(ms[i]) == ms[i] { SurvivesIff(ms[i]); }
  }

  // ---- many senders, one socket -----------------------------------------------------------------------------

  type Sender = nat

  /** A send in progress: the lock holder, its message, and the bytes `sendall` has still to write. */
  datatype Holder = Nobody | Holder(owner: Sender, m: Value, left: seq<Byte>)

  /** `todo[s]` is what sender `s` will still send; `sent` lists completed sends in order. A send that
      fails, possibly half way, ends the connection. */
  datatype Link = Link(
    bytes: seq<Byte>, holder: Holder, dead: bool, sent: seq<(Sender, Value)>, todo: map<Sender, seq<Value>>)

  datatype LinkStep = Take(s: Sender) | WriteSome(n: nat) | Fail

  predicate CanStep(k: Link, x: LinkStep) {
    && !k.dead
    && match x
       case Take(s) => k.holder.Nobody? && s in k.todo && k.todo[s] != []
       case WriteSome(n) => k.holder.Holder? && 0 < n <= |k.holder.left|
       case Fail => k.holder.Holder?
  }

  function LinkNext(k: Link, x: LinkStep): Link
    requires CanStep(k, x)
  {
    match x
    case Take(s) => k.(holder := Holder(s, k.todo[s][0], Encode(k.todo[s][0])), todo := k.todo[s := k.todo[s][1..]])
    case WriteSome(n) =>
      var h := k.holder;
      var k' := k.(bytes := k.bytes + h.left[..n]);
      if n == |h.left| then k'.(holder := Nobody, sent := k.sent + [(h.owner, h.m)])
      else k'.(holder := h.(left := h.left[n..]))
    case Fail => k.(dead := true)
  }

  function Messages(sent: seq<(Sender, Value)>): seq<Value> {
    seq(|sent|, i requires 0 <= i < |sent| => sent[i].1)
  }

  /** What sender `s` contributed to `sent`, in order. */
  function By(sent: seq<(Sender, Value)>, s: Sender): seq<Value> {
    if sent == [] then []
    else By(sent[..|sent| - 1], s) + (if sent[|sent| - 1].0 == s then [sent[|sent| - 1].1] else [])
  }

  function Unfinished(h: Holder, s: Sender): seq<Value> {
    if h.Holder? && h.owner == s then [h.m] else []
  }

  /** The bytes written are whole frames and a proper part of the one in progress, and what a sender has
      sent, is sending and will send is its program. */
  ghost predicate LinkInv(program: map<Sender, seq<Value>>, k: Link) {
    && k.todo.Keys == program.Keys
    && (forall s | s in program :: By(k.sent, s) + Unfinished(k.holder, s) + k.todo[s] == program[s])
    && (k.holder.Nobody? ==> k.bytes == EncodeAll(Messages(k.sent)))
    && (k.holder.Holder? ==> exists done ::
          k.bytes == EncodeAll(Messages(k.sent)) + done && done + k.holder.left == Encode(k.holder.m)
              && k.holder.left != [])
  }

  lemma {:induction false} EncodeAllAppend(ms: seq<Value>, m: Value)
    ensures EncodeAll(ms + [m]) == EncodeAll(ms) + Encode(m)
  {
    if ms == [] {
      assert ms + [m] == [m] && EncodeAll([m][1..]) == [];
    } else {
      assert (ms + [m])[1..] == ms[1..] + [m];
      EncodeAllAppend(ms[1..], m);
    }
  }

  lemma ByAppend(sent: seq<(Sender, Value)>, s: Sender, m: Value, u: Sender)
    ensures By(sent + [(s, m)], u) == By(sent, u) + (if s == u then [m] else [])
  {
    assert (sent + [(s, m)])[..|sent|] == sent;
  }

  lemma TakeStep(program: map<Sender, seq<Value>>, k: Link, s: Sender)
    requires LinkInv(program, k) && CanStep(k, Take(s))
    ensures LinkInv(program, LinkNext(k, Take(s)))
  {
    var k' := LinkNext(k, Take(s));
    forall u | u in program ensures By(k'.sent, u) + Unfinished(k'.holder, u) + k'.todo[u] == program[u] {
      assert By(k.sent, u) + Unfinished(k.holder, u) + k.todo[u] == program[u];
      if u == s { assert k.todo[s] == [k.todo[s][0]] + k.todo[s][1..]; }
    }
    assert k'.bytes == EncodeAll(Messages(k'.sent)) + [] && [] + k'.holder.left == Encode(k'.holder.m);
  }

  lemma FinishStep(program: map<Sender, seq<Value>>, k: Link)
    requires LinkInv(program, k) && k.holder.Holder? && CanStep(k, WriteSome(|k.holder.left|))
    ensures LinkInv(program, LinkNext(k, WriteSome(|k.holder.left|)))
  {
    var k', h := LinkNext(k, WriteSome(|k.holder.left|)), k.holder;
    var done :| k.bytes == EncodeAll(Messages(k.sent)) + done && done + h.left == Encode(h.m);
    FinishBytes(k, h, done);
    forall u | u in program ensures By(k'.sent, u) + Unfinished(k'.holder, u) + k'.todo[u] == program[u] {
      assert By(k.sent, u) + Unfinished(k.holder, u) + k.todo[u] == program[u];
      ByAppend(k.sent, h.owner, h.m, u);
      assert By(k'.sent, u) == By(k.sent, u) + Unfinished(k.holder, u);
      assert By(k'.sent, u) + [] == By(k'.sent, u);
    }
  }

  lemma FinishBytes(k: Link, h: Holder, done: seq<Byte>)
    requires h.Holder? && k.bytes == EncodeAll(Messages(k.sent)) + done && done + h.left == Encode(h.m)
    ensures k.bytes + h.left[..|h.left|] == EncodeAll(Messages(k.sent + [(h.owner, h.m)]))
  {
    assert Messages(k.sent + [(h.owner, h.m)]) == Messages(k.sent) + [h.m];
    EncodeAllAppend(Messages(k.sent), h.m);
    assert h.left[..|h.left|] == h.left;
    Associate(EncodeAll(Messages(k.sent)), done, h.left);
  }

  lemma WriteStep(program: map<Sender, seq<Value>>, k: Link, n: nat)
    requires LinkInv(program, k) && CanStep(k, WriteSome(n))
    ensures LinkInv(program, LinkNext(k, WriteSome(n)))
  {
    var k', h := LinkNext(k, WriteSome(n)), k.holder;
    if n == |h.left| {
      FinishStep(program, k);
    } else {
      var done :| k.bytes == EncodeAll(Messages(k.sent)) + done && done + h.left == Encode(h.m);
      Advance(EncodeAll(Messages(k.sent)), done, h.left, n);
      forall u | u in program ensures By(k'.sent, u) + Unfinished(k'.holder, u) + k'.todo[u] == program[u] {
        assert By(k.sent, u) + Unfinished(k.holder, u) + k.todo[u] == program[u];
      }
    }
  }

  lemma Advance(whole: seq<Byte>, done: seq<Byte>, left: seq<Byte>, n: nat)
    requires n <= |left|
    ensures whole + done + left[..n] == whole + (done + left[..n])
    ensures (done + left[..n]) + left[n..] == done + left
  {}

  ghost predicate LinkTo(k: Link, x: LinkStep, k': Link) {
    CanStep(k, x) && k' == LinkNext(k, x)
  }

  ghost predicate IsLinkRun(program: map<Sender, seq<Value>>, links: seq<Link>, steps: seq<LinkStep>) {
    Follows(LinkTo, links, steps) && links[0] == Link([], Nobody, false, [], program)
  }

  lemma LinkInvStep(program: map<Sender, seq<Value>>, k: Link, x: LinkStep, k': Link)
    requires LinkInv(program, k) && LinkTo(k, x, k')
    ensures LinkInv(program, k')
  {
    match x {
      case Take(s) => TakeStep(program, k, s);
      case WriteSome(n) => WriteStep(program, k, n);
      case Fail =>
    }
  }

  lemma LinkInvInitial(program: map<Sender, seq<Value>>)
    ensures LinkInv(program, Link([], Nobody, false, [], program))
  {
    forall s | s in program ensures By([], s) + [] + program[s] == program[s] {}
  }

  lemma LinkInvAlways(program: map<Sender, seq<Value>>, links: seq<Link>, steps: seq<LinkStep>, i: nat)
    requires IsLinkRun(program, links, steps) && i < |links|
    ensures LinkInv(program, links[i])
  {
    LinkInvInitial(program);
    var P := (k: Link) => LinkInv(program, k);
    forall k, x, k' | P(k) && LinkTo(k, x, k') ensures P(k') { LinkInvStep(program, k, x, k'); }
    Always(LinkTo, links, steps, P, i);
  }

  /** Whatever the senders' interleaving and wherever a send fails, the receiver decodes exactly the
      completed sends, in order, and each sender's part of them is a prefix of its own program. */
  lemma {:induction false} InterleavedSenders(program: map<Sender, seq<Value>>, links: seq<Link>,
      steps: seq<LinkStep>, i: nat, s: Sender)
    requires IsLinkRun(program, links, steps) && i < |links| && s in program
    ensures Frames(links[i].bytes) == Arrivals(Messages(links[i].sent))
    ensures By(links[i].sent, s) <= program[s]
  {
    LinkInvAlways(program, links, steps, i);
    Decodes(program, links[i]);
    var k := links[i];
    assert By(k.sent, s) + Unfinished(k.holder, s) + k.todo[s] == program[s];
  }

  lemma Decodes(program: map<Sender, seq<Value>>, k: Link)
    requires LinkInv(program, k)
    ensures Frames(k.bytes) == Arrivals(Messages(k.sent))
  {
    if k.holder.Holder? {
      var done :| k.bytes == EncodeAll(Messages(k.sent)) + done && done + k.holder.left == Encode(k.holder.m)
          && k.holder.left != [];
      PartialHasNoNewline(k.holder.m, done);
      FramesOfEncodings(Messages(k.sent), done);
    } else {
      FramesOfEncodings(Messages(k.sent), []);
      assert k.bytes == EncodeAll(Messages(k.sent)) + [];
    }
  }
}
