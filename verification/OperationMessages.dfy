/** What the server and the nodes say to each other about operations of the data layer: requests, replies and
    events. */
module OperationMessages {
  import opened Json
  import opened LockSystem
  import opened Messages
  import opened Options

  /** The request that makes the server run an operation. */
  function Ask(op: Op): Body {
    match op
    case Read => Field(Codes("action"), JsonText("READ"), End)
    case Write(_, text) => Field(Codes("action"), JsonText("WRITE"), Field(Codes("content"), JsonText(text), End))
  }

  /** The dispatch of the server: the request makes its handler run `op`, whoever is logged in. */
  predicate Requests(b: Body, op: Op) {
    match op
    case Read => HasAction(b, "READ")
    case Write(_, text) =>
      && HasAction(b, "WRITE")
      && (Get(b, "content") == Some(JsonText(text)) || (Get(b, "content").None? && text == ""))
  }

  function TimeoutMessage(op: Op): string {
    if op.Read? then READ_TIMEOUT_MESSAGE else WRITE_TIMEOUT_MESSAGE
  }

  /** The reply of the server to an operation, as its outcome decides. */
  function Reply(op: Op, r: Result): Body {
    match r
    case Snapshot(content, v) =>
      Field(Codes("status"), JsonText("OK"), Field(Codes("version"), Number(v),
          Field(Codes("content"), JsonText(content), End)))
    case Committed(v) =>
      Field(Codes("status"), JsonText("OK"), Field(Codes("version"), Number(v),
          Field(Codes("message"), JsonText("Write committed"), End)))
    case LockTimeout(_) => ErrorReply(TimeoutMessage(op))
  }

  /** The event that is published after a committed write. */
  function Announce(op: Op, v: int): Body
    requires op.Write?
  {
    Field(Codes("topic"), JsonText("resource_update"), Field(Codes("payload"), Dict(Payload(op, v)), End))
  }

  function Payload(op: Op, v: int): Body
    requires op.Write?
  {
    Field(Codes("version"), Number(v), Field(Codes("updated_by"), JsonText(op.userId),
        Field(Codes("summary"), JsonText(op.text), End)))
  }

  /** A node reads back exactly the outcome of the operation from the reply: whether it succeeded, the version, for a
      read the content, and otherwise the message. */
  lemma ReplyTells(op: Op, r: Result)
    ensures IsOk(Reply(op, r)) <==> !r.LockTimeout?
    ensures r.LockTimeout? ==> Get(Reply(op, r), "status") == Some(JsonText("ERROR"))
    ensures !r.LockTimeout? ==> Get(Reply(op, r), "version") == Some(Number(r.version))
    ensures r.Snapshot? ==> forall content :: Get(Reply(op, r), "content") == Some(JsonText(content))
                                              <==> content == r.content
    ensures r.Committed? ==> Get(Reply(op, r), "message") == Some(JsonText("Write committed"))
    ensures r.LockTimeout? ==> Get(Reply(op, r), "message") == Some(JsonText(
              if op.Read? then "Timeout acquiring read lock (deadlock avoidance)"
              else "Timeout acquiring write lock (deadlock avoidance)"))
  {
    Keys();
    TextInjective("OK", "ERROR");
    if r.Committed? { CommittedTells(op, r); }
    if r.Snapshot? { SnapshotTells(op, r); }
  }

  lemma CommittedTells(op: Op, r: Result)
    requires r.Committed?
    ensures Get(Reply(op, r), "message") == Some(JsonText("Write committed"))
  {
    Keys();
    assert Get(Reply(op, r).rest.rest, "message") == Some(JsonText("Write committed"));
    assert Get(Reply(op, r).rest, "message") == Get(Reply(op, r).rest.rest, "message");
  }

  lemma SnapshotTells(op: Op, r: Result)
    requires r.Snapshot?
    ensures forall content :: Get(Reply(op, r), "content") == Some(JsonText(content)) <==> content == r.content
  {
    Keys();
    var last := Field(Codes("content"), JsonText(r.content), End);
    var rest := Field(Codes("version"), Number(r.version), last);
    assert Get(last, "content") == Some(JsonText(r.content));
    assert Get(rest, "content") == Get(last, "content");
    assert Get(Reply(op, r), "content") == Get(rest, "content");
    forall content ensures JsonText(r.content) == JsonText(content) <==> content == r.content {
      TextInjective(content, r.content);
    }
  }

  /** The server runs exactly the operation a node asked for: a read for a read, a write of that text for a write, and
      of the empty text for a write that names none. */
  lemma AskTells(op: Op, op': Op)
    ensures Requests(Ask(op), op') <==> if op.Read? then op'.Read? else op'.Write? && op.text == op'.text
    ensures Requests(Field(Codes("action"), JsonText("WRITE"), End), op') <==> op'.Write? && op'.text == ""
  {
    Keys();
    TextInjective("READ", "WRITE");
    if op.Write? && op'.Write? {
      TextInjective(op.text, op'.text);
      assert Get(Ask(op).rest, "content") == Some(JsonText(op.text));
      assert Get(Ask(op), "content") == Get(Ask(op).rest, "content");
    }
  }

  /** A heartbeat asks for no operation. */
  lemma PingAsksNothing(op: Op)
    ensures !Requests(PING, op)
  {
    TextInjective("PING", "READ");
    TextInjective("PING", "WRITE");
  }

  /** A node finds in the event of a write its topic, its version, who wrote and what. */
  lemma AnnounceTells(op: Op, v: int)
    requires op.Write?
    ensures EventVersion(Announce(op, v)) == Some(v)
    ensures Get(Announce(op, v), "topic") == Some(JsonText("resource_update"))
    ensures Get(Announce(op, v), "payload") == Some(Dict(Payload(op, v)))
    ensures Get(Payload(op, v), "updated_by") == Some(JsonText(op.userId))
    ensures Get(Payload(op, v), "summary") == Some(JsonText(op.text))
  {
    EventKeys();
    assert Get(Announce(op, v).rest, "payload") == Some(Dict(Payload(op, v)));
    assert Get(Payload(op, v).rest.rest, "summary") == Some(JsonText(op.text));
    assert Get(Payload(op, v).rest, "summary") == Get(Payload(op, v).rest.rest, "summary");
  }
}
