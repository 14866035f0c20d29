/** From the messages of `Correlation` to bytes and back: what one side sends as objects on the stream, the other
    side reads off it as the same requests, responses and events. */
module MessagesOnWire {
  import opened Json
  import opened JsonRoundTrip
  import opened LockSystem
  import opened Messages
  import opened OperationMessages
  import opened Options
  import Framing
  import Net = Correlation

  lemma ScalarText(s: string)
    ensures PairFree(Codes(s))
  {}

  predicate WellFormedBody(b: Body) {
    WellFormedFields(b) && !HasKey(b, Codes("type")) && !HasKey(b, Codes("id"))
  }

  lemma FieldsPair(k: string, v: Value, rest: Fields)
    requires WellFormed(v) && WellFormedFields(rest) && !HasKey(rest, Codes(k))
    ensures WellFormedFields(Field(Codes(k), v, rest))
    ensures forall key :: HasKey(Field(Codes(k), v, rest), key) <==> key == Codes(k) || HasKey(rest, key)
  {
    ScalarText(k);
  }

  lemma WellFormedPair(k: string, v: Value, rest: Body)
    requires WellFormed(v) && WellFormedBody(rest) && !HasKey(rest, Codes(k))
    requires Codes(k) != Codes("type") && Codes(k) != Codes("id")
    ensures WellFormedBody(Field(Codes(k), v, rest))
    ensures forall key :: HasKey(Field(Codes(k), v, rest), key) <==> key == Codes(k) || HasKey(rest, key)
  {
    FieldsPair(k, v, rest);
  }

  lemma AskWellFormed(op: Op)
    ensures WellFormedBody(Ask(op))
  {
    Keys();
    ScalarText("READ"); ScalarText("WRITE");
    if op.Write? {
      ScalarText(op.text);
      WellFormedPair("content", JsonText(op.text), End);
      WellFormedPair("action", JsonText("WRITE"), Ask(op).rest);
    } else {
      WellFormedPair("action", JsonText("READ"), End);
    }
  }

  lemma ReplyWellFormed(op: Op, r: Result)
    ensures WellFormedBody(Reply(op, r))
  {
    Keys();
    ScalarText("OK");
    match r {
      case Snapshot(content, v) =>
        ScalarText(content);
        WellFormedPair("content", JsonText(content), End);
        WellFormedPair("version", Number(v), Reply(op, r).rest.rest);
        WellFormedPair("status", JsonText("OK"), Reply(op, r).rest);
      case Committed(v) =>
        ScalarText("Write committed");
        WellFormedPair("message", JsonText("Write committed"), End);
        WellFormedPair("version", Number(v), Reply(op, r).rest.rest);
        WellFormedPair("status", JsonText("OK"), Reply(op, r).rest);
      case LockTimeout(_) => ErrorWellFormed(TimeoutMessage(op));
    }
  }

  lemma ErrorWellFormed(message: string)
    ensures WellFormedBody(ErrorReply(message))
  {
    Keys();
    ScalarText(message); ScalarText("ERROR");
    WellFormedPair("message", JsonText(message), End);
    WellFormedPair("status", JsonText("ERROR"), ErrorReply(message).rest);
  }

  lemma MessageWellFormed(kind: string, id: nat, b: Body)
    requires WellFormedBody(b)
    ensures WellFormed(Message(kind, id, b))
  {
    Keys();
    ScalarText("type"); ScalarText("id"); ScalarText(kind);
    assert WellFormedFields(Field(Codes("id"), Number(id), b));
  }

  // ---- what receivers read in an object --------------------------------------------------------------------

  /** What an object holds beside its type and its id. */
  function Beside(fs: Fields): Body {
    match fs
    case End => End
    case Field(k, v, rest) =>
      if k == Codes("type") || k == Codes("id") then Beside(rest) else Field(k, v, Beside(rest))
  }

  function IdOf(fs: Fields): Option<nat> {
    match Get(fs, "id")
    case Some(Int(n)) => if n >= 0 then Some(n) else None
    case _ => None
  }

  predicate HasType(fs: Fields, kind: string) { Get(fs, "type") == Some(JsonText(kind)) }

  /** The dispatch of a handler: it ignores what is not a request. */
  function AsRequest(v: Value): Option<Net.Request> {
    if v.Dict? && HasType(v.fields, "REQUEST") && IdOf(v.fields).Some?
    then Some(Net.Request(IdOf(v.fields).value, Beside(v.fields)))
    else None
  }

  /** The demultiplexing of a listener: by type, and a response by its id. */
  function AsToClient(v: Value): Option<Net.ToClient> {
    if !v.Dict? then None
    else if HasType(v.fields, "RESPONSE") && IdOf(v.fields).Some?
    then Some(Net.Response(IdOf(v.fields).value, Beside(v.fields)))
    else if HasType(v.fields, "EVENT") then Some(Net.Event(Beside(v.fields)))
    else None
  }

  lemma {:induction false} BesideNothing(b: Fields)
    requires !HasKey(b, Codes("type")) && !HasKey(b, Codes("id"))
    ensures Beside(b) == b
  {
    if b.Field? { BesideNothing(b.rest); }
  }

  lemma {:induction false} NoKeyNoValue(b: Fields, key: string)
    requires !HasKey(b, Codes(key))
    ensures Get(b, key).None?
  {
    if b.Field? { NoKeyNoValue(b.rest, key); }
  }

  lemma KindsDiffer()
    ensures JsonText("REQUEST") != JsonText("RESPONSE") && JsonText("RESPONSE") != JsonText("EVENT")
  {
    TextInjective("REQUEST", "RESPONSE");
    TextInjective("RESPONSE", "EVENT");
  }

  lemma HeaderRead(kind: string, id: nat, b: Body)
    requires WellFormedBody(b)
    ensures var fs := Message(kind, id, b).fields;
            Get(fs, "type") == Some(JsonText(kind)) && IdOf(fs) == Some(id) && Beside(fs) == b
  {
    Keys();
    BesideNothing(b);
    assert Get(Field(Codes("id"), Number(id), b), "id") == Some(Number(id));
    assert Beside(Field(Codes("id"), Number(id), b)) == b;
  }

  /** Whoever receives a message finds in it the type, the id and the body that were put in, and an event has no id. */
  lemma {:induction false} ReadAsSent(id: nat, b: Body)
    requires WellFormedBody(b)
    ensures AsRequest(Message("REQUEST", id, b)) == Some(Net.Request(id, b))
    ensures AsToClient(Message("RESPONSE", id, b)) == Some(Net.Response(id, b))
    ensures AsToClient(EventMessage(b)) == Some(Net.Event(b)) && Get(EventMessage(b).fields, "id").None?
    ensures AsRequest(Message("RESPONSE", id, b)).None? && AsRequest(EventMessage(b)).None?
    ensures AsToClient(Message("REQUEST", id, b)).None?
  {
    KindsDiffer();
    TextInjective("REQUEST", "EVENT");
    HeaderRead("REQUEST", id, b);
    HeaderRead("RESPONSE", id, b);
    Keys();
    BesideNothing(b);
    NoKeyNoValue(b, "id");
  }

  /** Every other key of a message reads as in its body. */
  lemma {:induction false} KeysRead(kind: string, id: nat, b: Body, key: string)
    requires key != "type" && key != "id"
    ensures Get(Message(kind, id, b).fields, key) == Get(b, key) == Get(EventMessage(b).fields, key)
  {
    CodesInjective(key, "type");
    CodesInjective(key, "id");
    assert Get(Field(Codes("id"), Number(id), b), key) == Get(b, key);
  }

  // ---- both directions of a connection -----------------------------------------------------------------------

  function ToWire(m: Net.ToClient): Value {
    match m
    case Response(id, body) => Message("RESPONSE", id, body)
    case Event(body) => EventMessage(body)
  }

  function DownWire(down: seq<Net.ToClient>): seq<Value> {
    seq(|down|, i requires 0 <= i < |down| => ToWire(down[i]))
  }

  function UpWire(up: seq<Net.Request>): seq<Value> {
    seq(|up|, i requires 0 <= i < |up| => Message("REQUEST", up[i].id, up[i].body))
  }

  /** What a listener makes of the frames it gets. */
  function Heard(frames: seq<Framing.Incoming>): seq<Option<Net.ToClient>> {
    seq(|frames|, i requires 0 <= i < |frames| => if frames[i].Message? then AsToClient(frames[i].m) else None)
  }

  /** What a handler makes of them. */
  function Taken(frames: seq<Framing.Incoming>): seq<Option<Net.Request>> {
    seq(|frames|, i requires 0 <= i < |frames| => if frames[i].Message? then AsRequest(frames[i].m) else None)
  }

  lemma EventMessageWellFormed(b: Body)
    requires WellFormedBody(b)
    ensures WellFormed(EventMessage(b))
  {
    ScalarText("EVENT");
    FieldsPair("type", JsonText("EVENT"), b);
  }

  lemma {:induction false} WellFormedFrames(ms: seq<Value>, partial: seq<Byte>)
    requires (forall i | 0 <= i < |ms| :: WellFormed(ms[i])) && Framing.NEWLINE !in partial
    ensures Framing.Frames(Framing.EncodeAll(ms) + partial)
            == seq(|ms|, i requires 0 <= i < |ms| => Framing.Message(ms[i]))
  {
    Framing.FramesOfEncodings(ms, partial);
    forall i | 0 <= i < |ms| ensures Received(ms[i]) == ms[i] { SurvivesIff(ms[i]); }
  }

  /** A listener hears exactly the responses and events that the server wrote, in order, with their ids and bodies,
      whatever part of a next message has arrived. */
  lemma {:induction false} DownArrives(down: seq<Net.ToClient>, partial: seq<Byte>)
    requires (forall i | 0 <= i < |down| :: WellFormedBody(down[i].body)) && Framing.NEWLINE !in partial
    ensures Heard(Framing.Frames(Framing.EncodeAll(DownWire(down)) + partial))
            == seq(|down|, i requires 0 <= i < |down| => Some(down[i]))
  {
    forall i | 0 <= i < |down| ensures WellFormed(DownWire(down)[i]) && AsToClient(DownWire(down)[i]) == Some(down[i]) {
      match down[i] {
        case Response(id, body) => MessageWellFormed("RESPONSE", id, body); ReadAsSent(id, body);
        case Event(body) => EventMessageWellFormed(body); ReadAsSent(0, body);
      }
    }
    WellFormedFrames(DownWire(down), partial);
  }

  /** And a handler takes exactly the requests that the client wrote. */
  lemma {:induction false} UpArrives(up: seq<Net.Request>, partial: seq<Byte>)
    requires (forall i | 0 <= i < |up| :: WellFormedBody(up[i].body)) && Framing.NEWLINE !in partial
    ensures Taken(Framing.Frames(Framing.EncodeAll(UpWire(up)) + partial))
            == seq(|up|, i requires 0 <= i < |up| => Some(up[i]))
  {
    forall i | 0 <= i < |up| ensures WellFormed(UpWire(up)[i]) && AsRequest(UpWire(up)[i]) == Some(up[i]) {
      MessageWellFormed("REQUEST", up[i].id, up[i].body);
      ReadAsSent(up[i].id, up[i].body);
    }
    WellFormedFrames(UpWire(up), partial);
  }

  // ---- requests, replies and events about operations ---------------------------------------------------------

  /** What a handler sends to the client about an operation, and what asked for it, arrive byte for byte as they were
      sent, whatever is on the stream behind them, and are read as that request and that response. */
  lemma {:induction false} ExchangeArrives(id: nat, op: Op, r: Result, rest: seq<Byte>)
    ensures Framing.Frames(Framing.Encode(Message("REQUEST", id, Ask(op))) + rest)
            == [Framing.Message(Message("REQUEST", id, Ask(op)))] + Framing.Frames(rest)
    ensures Framing.Frames(Framing.Encode(Message("RESPONSE", id, Reply(op, r))) + rest)
            == [Framing.Message(Message("RESPONSE", id, Reply(op, r)))] + Framing.Frames(rest)
    ensures AsRequest(Message("REQUEST", id, Ask(op))) == Some(Net.Request(id, Ask(op)))
    ensures AsToClient(Message("RESPONSE", id, Reply(op, r))) == Some(Net.Response(id, Reply(op, r)))
  {
    AskWellFormed(op);
    ReplyWellFormed(op, r);
    ReadAsSent(id, Ask(op));
    ReadAsSent(id, Reply(op, r));
    ExchangeFrames(id, op, r, rest);
  }

  lemma {:induction false} ExchangeFrames(id: nat, op: Op, r: Result, rest: seq<Byte>)
    ensures Framing.Frames(Framing.Encode(Message("REQUEST", id, Ask(op))) + rest)
            == [Framing.Message(Message("REQUEST", id, Ask(op)))] + Framing.Frames(rest)
    ensures Framing.Frames(Framing.Encode(Message("RESPONSE", id, Reply(op, r))) + rest)
            == [Framing.Message(Message("RESPONSE", id, Reply(op, r)))] + Framing.Frames(rest)
  {
    AskWellFormed(op);
    ReplyWellFormed(op, r);
    MessageArrives("REQUEST", id, Ask(op), rest);
    MessageArrives("RESPONSE", id, Reply(op, r), rest);
  }

  lemma MessageArrives(kind: string, id: nat, b: Body, rest: seq<Byte>)
    requires WellFormedBody(b)
    ensures Framing.Frames(Framing.Encode(Message(kind, id, b)) + rest)
            == [Framing.Message(Message(kind, id, b))] + Framing.Frames(rest)
  {
    MessageWellFormed(kind, id, b);
    SurvivesIff(Message(kind, id, b));
    Framing.FirstFrame(Message(kind, id, b), rest);
  }

  lemma PayloadWellFormed(op: Op, v: int)
    requires op.Write?
    ensures WellFormed(Dict(Payload(op, v)))
  {
    EventKeys();
    ScalarText(op.userId); ScalarText(op.text);
    FieldsPair("summary", JsonText(op.text), End);
    FieldsPair("updated_by", JsonText(op.userId), Payload(op, v).rest.rest);
    FieldsPair("version", Number(v), Payload(op, v).rest);
  }

  lemma EventWellFormed(op: Op, v: int)
    requires op.Write?
    ensures WellFormedBody(Announce(op, v))
  {
    EventKeys();
    PayloadWellFormed(op, v);
    ScalarText("resource_update");
    WellFormedPair("payload", Dict(Payload(op, v)), End);
    WellFormedPair("topic", JsonText("resource_update"), Announce(op, v).rest);
  }

  /** So does the event that announces a committed write. */
  lemma {:induction false} EventArrives(op: Op, v: int, rest: seq<Byte>)
    requires op.Write?
    ensures Framing.Frames(Framing.Encode(EventMessage(Announce(op, v))) + rest)
            == [Framing.Message(EventMessage(Announce(op, v)))] + Framing.Frames(rest)
    ensures AsToClient(EventMessage(Announce(op, v))) == Some(Net.Event(Announce(op, v)))
    ensures EventVersion(Announce(op, v)) == Some(v)
  {
    EventWellFormed(op, v);
    EventMessageWellFormed(Announce(op, v));
    ReadAsSent(0, Announce(op, v));
    AnnounceTells(op, v);
    SurvivesIff(EventMessage(Announce(op, v)));
    Framing.FirstFrame(EventMessage(Announce(op, v)), rest);
  }
}
