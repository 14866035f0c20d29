/** The messages of the protocol (protocol.py) as JSON objects: a type, an id and a body. Text of this program is
    Unicode scalar values. */
module Messages {
  import opened Json
  import opened Options

  /** What a message holds after its type and its id. */
  type Body = Fields

  function Codes(s: string): Str {
    seq(|s|, i requires 0 <= i < |s| => s[i] as int)
  }

  function JsonText(s: string): Value { Value.Text(Codes(s)) }

  function Number(n: int): Value { Int(n) }

  /** `message.get(key)`. */
  function Get(b: Body, key: string): Option<Value> {
    match b
    case End => None
    case Field(k, v, rest) => if k == Codes(key) then Some(v) else Get(rest, key)
  }

  const PING: Body := Field(Codes("action"), JsonText("PING"), End)

  predicate HasAction(b: Body, action: string) { Get(b, "action") == Some(JsonText(action)) }

  function ErrorReply(message: string): Body {
    Field(Codes("status"), JsonText("ERROR"), Field(Codes("message"), JsonText(message), End))
  }

  /** The version a node finds in an event. */
  function EventVersion(b: Body): Option<int> {
    match Get(b, "payload")
    case Some(Dict(fields)) =>
      (match Get(fields, "version")
       case Some(Int(v)) => Some(v)
       case _ => None)
    case _ => None
  }

  predicate IsOk(b: Body) { Get(b, "status") == Some(JsonText("OK")) }

  function Message(kind: string, id: nat, b: Body): Value {
    Dict(Field(Codes("type"), JsonText(kind), Field(Codes("id"), Number(id), b)))
  }

  function EventMessage(b: Body): Value {
    Dict(Field(Codes("type"), JsonText("EVENT"), b))
  }

  lemma CodesInjective(s: string, t: string)
    ensures Codes(s) == Codes(t) <==> s == t
  {
    if Codes(s) == Codes(t) {
      assert |Codes(s)| == |s| && |Codes(t)| == |t|;
      forall i | 0 <= i < |s| ensures s[i] == t[i] {
        assert Codes(s)[i] == Codes(t)[i];
      }
    }
  }

  lemma TextInjective(s: string, t: string)
    ensures JsonText(s) == JsonText(t) <==> s == t
  {
    CodesInjective(s, t);
  }

  /** The keys are nine different words. */
  lemma Keys()
    ensures Codes("type") != Codes("id") && Codes("type") != Codes("status") && Codes("type") != Codes("version")
    ensures Codes("type") != Codes("content") && Codes("type") != Codes("message") && Codes("type") != Codes("action")
    ensures Codes("id") != Codes("status") && Codes("id") != Codes("version") && Codes("id") != Codes("content")
    ensures Codes("id") != Codes("message") && Codes("id") != Codes("action")
    ensures Codes("status") != Codes("version") && Codes("status") != Codes("content")
    ensures Codes("status") != Codes("message")
    ensures Codes("version") != Codes("content") && Codes("version") != Codes("message")
    ensures Codes("action") != Codes("content")
  {
    assert Codes("type")[0] == 't' as int && Codes("id")[0] == 'i' as int && Codes("status")[0] == 's' as int;
    assert Codes("version")[0] == 'v' as int && Codes("content")[0] == 'c' as int;
    assert Codes("message")[0] == 'm' as int && Codes("action")[0] == 'a' as int;
  }

  lemma EventKeys()
    ensures Codes("type") != Codes("topic") && Codes("type") != Codes("payload") && Codes("topic") != Codes("payload")
    ensures Codes("id") != Codes("topic") && Codes("id") != Codes("payload")
    ensures Codes("version") != Codes("updated_by") && Codes("version") != Codes("summary")
    ensures Codes("updated_by") != Codes("summary")
  {
    assert Codes("id")[0] == 'i' as int && Codes("topic")[0] == 't' as int && Codes("payload")[0] == 'p' as int;
    assert Codes("type")[1] == 'y' as int && Codes("topic")[1] == 'o' as int && Codes("payload")[1] == 'a' as int;
    assert Codes("version")[0] == 'v' as int && Codes("updated_by")[0] == 'u' as int;
    assert Codes("summary")[0] == 's' as int;
  }
}
