/** Request and response correlation (connection.py against the dispatch loop of server.py): many callers, a
    heartbeat and one listener thread on the client, one handler per connection on the server, and
    connections that are replaced while requests are in flight. By the framing theorem a connection carries
    whole messages in order, so each direction is a sequence of messages here. */
module Correlation {
  import opened Options
  import opened Runs
  import Messages

  type Id = nat
  type Body = Messages.Body
  type CallId = nat
  type Conn = nat

  datatype Request = Request(id: Id, body: Body)

  datatype ToClient = Response(id: Id, body: Body) | Event(body: Body)

  /** What the listener puts into a slot. */
  datatype Filling = Replied(body: Body) | ConnectionLost

  /** What `request` returns: the reply, or one of three local errors. */
  datatype Answer = Answered(body: Body) | Unavailable | Lost | TimedOut

  datatype Pc =
    | Begun                    // id drawn, slot made
    | Registered               // slot in the pending table
    | SendFailed               // OSError, slot not yet withdrawn
    | Sent                     // waiting for the event
    | Expired                  // wait timed out, slot not yet withdrawn
    | Done(answer: Answer)

  /** A call of `request` and its slot. `fills` counts how often the slot was filled; `relogin` marks the
      call that the listener itself makes inside `_reconnect`. */
  datatype Call = Call(msg: Request, pc: Pc, response: Option<Filling>, isSet: bool, fills: nat, relogin: bool)

  /** One connection: all requests written to it, how many of them its handler has taken and answered, all
      messages the server has written back, and how many of those the listener has read. */
  datatype Channel = Channel(up: seq<Request>, taken: nat, answered: nat, down: seq<ToClient>, read: nat)

  datatype Listener =
    | Reading
    | Matched(k: CallId, body: Body)   // slot popped, response not yet stored
    | Stored(k: CallId)                  // response stored, event not yet set
    | Connecting
    | InRequest(k: CallId)               // waiting inside its own re-login

  datatype State = State(
    nextId: Id, calls: map<CallId, Call>, pending: map<Id, CallId>, heartbeat: Option<Id>,
    listener: Listener, conn: Conn, channels: map<Conn, Channel>)

  datatype Step =
    | Begin(k: CallId, body: Body)
    | Register(k: CallId)
    | Send(k: CallId, ok: bool, delivered: bool)
    | ReturnUnavailable(k: CallId)
    | Return(k: CallId)
    | Expire(k: CallId)
    | ReturnTimedOut(k: CallId)
    | DrawHeartbeat
    | SendHeartbeat(delivered: bool)
    | Receive
    | Store
    | SetEvent
    | Disconnect
    | Connect(login: Option<(CallId, Body)>)
    | ReloginReturned
    | Take(c: Conn)
    | Respond(c: Conn, body: Body)
    | Publish(c: Conn, body: Body)

  const NO_CHANNEL := Channel([], 0, 0, [], 0)

  function Chan(s: State, c: Conn): Channel {
    if c in s.channels then s.channels[c] else NO_CHANNEL
  }

  function SetChan(s: State, c: Conn, ch: Channel): State {
    s.(channels := s.channels[c := ch])
  }

  /** Write a request on the socket in use. */
  function Write(s: State, m: Request): State {
    SetChan(s, s.conn, Chan(s, s.conn).(up := Chan(s, s.conn).up + [m]))
  }

  function SetCall(s: State, k: CallId, c: Call): State {
    s.(calls := s.calls[k := c])
  }

  function NewCall(s: State, k: CallId, body: Body, relogin: bool): State {
    SetCall(s, k, Call(Request(s.nextId, body), Begun, None, false, 0, relogin)).(nextId := s.nextId + 1)
  }

  predicate IsPending(s: State, k: CallId) {
    k in s.calls && s.calls[k].msg.id in s.pending && s.pending[s.calls[k].msg.id] == k
  }

  function Fail(c: Call): Call {
    c.(response := Some(ConnectionLost), isSet := true, fills := c.fills + 1)
  }

  predicate HasPc(s: State, k: CallId, pc: Pc) {
    k in s.calls && s.calls[k].pc == pc
  }

  predicate Enabled(s: State, x: Step) {
    match x
    case Begin(k, _) => k !in s.calls
    case Register(k) => HasPc(s, k, Begun)
    case Send(k, _, _) => HasPc(s, k, Registered)
    case ReturnUnavailable(k) => HasPc(s, k, SendFailed)
    case Return(k) => HasPc(s, k, Sent) && s.calls[k].isSet
    case Expire(k) => HasPc(s, k, Sent) && !s.calls[k].isSet
    case ReturnTimedOut(k) => HasPc(s, k, Expired)
    case DrawHeartbeat => s.heartbeat.None?
    case SendHeartbeat(_) => s.heartbeat.Some?
    case Receive => s.listener.Reading? && Chan(s, s.conn).read < |Chan(s, s.conn).down|
    case Store => s.listener.Matched? && s.listener.k in s.calls
    case SetEvent => s.listener.Stored? && s.listener.k in s.calls
    case Disconnect => s.listener.Reading?
    case Connect(login) => s.listener.Connecting? && (login.Some? ==> login.value.0 !in s.calls)
    case ReloginReturned => s.listener.InRequest? && s.listener.k in s.calls && s.calls[s.listener.k].pc.Done?
    case Take(c) => Chan(s, c).taken == Chan(s, c).answered && Chan(s, c).taken < |Chan(s, c).up|
    case Respond(c, _) => Chan(s, c).taken == Chan(s, c).answered + 1 && Chan(s, c).answered < |Chan(s, c).up|
    case Publish(c, _) => true
  }

  function Received(s: State): State
    requires Enabled(s, Receive)
  {
    var ch := Chan(s, s.conn);
    var s' := SetChan(s, s.conn, ch.(read := ch.read + 1));
    match ch.down[ch.read]
    case Response(id, body) =>
      if id in s.pending then s'.(pending := s.pending - {id}, listener := Matched(s.pending[id], body)) else s'
    case Event(_) => s'
  }

  function Next(s: State, x: Step): State
    requires Enabled(s, x)
  {
    match x
    case Begin(k, body) => NewCall(s, k, body, false)
    case Register(k) =>
      SetCall(s, k, s.calls[k].(pc := Registered)).(pending := s.pending[s.calls[k].msg.id := k])
    case Send(k, ok, delivered) =>
      var s' := SetCall(s, k, s.calls[k].(pc := if ok then Sent else SendFailed));
      if ok || delivered then Write(s', s.calls[k].msg) else s'
    case ReturnUnavailable(k) =>
      SetCall(s, k, s.calls[k].(pc := Done(Unavailable))).(pending := s.pending - {s.calls[k].msg.id})
    case Return(k) =>
      SetCall(s, k, s.calls[k].(pc := Done(
        match s.calls[k].response
        case Some(Replied(body)) => Answered(body)
        case _ => Lost)))
    case Expire(k) => SetCall(s, k, s.calls[k].(pc := Expired))
    case ReturnTimedOut(k) =>
      SetCall(s, k, s.calls[k].(pc := Done(TimedOut))).(pending := s.pending - {s.calls[k].msg.id})
    case DrawHeartbeat => s.(heartbeat := Some(s.nextId), nextId := s.nextId + 1)
    case SendHeartbeat(delivered) =>
      var s' := s.(heartbeat := None);
      if delivered then Write(s', Request(s.heartbeat.value, Messages.PING)) else s'
    case Receive => Received(s)
    case Store =>
      var k := s.listener.k;
      SetCall(s, k, s.calls[k].(response := Some(Replied(s.listener.body)),
          fills := s.calls[k].fills + 1)).(listener := Stored(k))
    case SetEvent => SetCall(s, s.listener.k, s.calls[s.listener.k].(isSet := true)).(listener := Reading)
    case Disconnect =>
      s.(calls := map k | k in s.calls :: if IsPending(s, k) then Fail(s.calls[k]) else s.calls[k],
         pending := map[], listener := Connecting)
    case Connect(login) =>
      var s' := s.(conn := s.conn + 1, listener := Reading);
      if login.Some? then NewCall(s', login.value.0, login.value.1, true).(listener := InRequest(login.value.0)) else s'
    case ReloginReturned => s.(listener := Reading)
    case Take(c) => SetChan(s, c, Chan(s, c).(taken := Chan(s, c).taken + 1))
    case Respond(c, body) =>
      var ch := Chan(s, c);
      SetChan(s, c, ch.(down := ch.down + [Response(ch.up[ch.answered].id, body)], answered := ch.answered + 1))
    case Publish(c, body) => SetChan(s, c, Chan(s, c).(down := Chan(s, c).down + [Event(body)]))
  }

  ghost predicate Initial(s: State) {
    s == State(1, map[], map[], None, Reading, 0, map[])
  }

  ghost predicate StepTo(s: State, x: Step, s': State) {
    Enabled(s, x) && s' == Next(s, x)
  }

  ghost predicate IsRun(states: seq<State>, steps: seq<Step>) {
    Follows(StepTo, states, steps) && Initial(states[0])
  }

  // ---- the server answers each request of a connection once, in order ------------------------------------------

  function Replies(down: seq<ToClient>): seq<ToClient> {
    if down == [] then []
    else Replies(down[..|down| - 1]) + (if down[|down| - 1].Response? then [down[|down| - 1]] else [])
  }

  /** The responses on a connection are the answers to its first requests, one each, in their order. */
  ghost predicate ChannelFits(ch: Channel) {
    && ch.answered <= ch.taken <= |ch.up| && ch.taken <= ch.answered + 1 && ch.read <= |ch.down|
    && |Replies(ch.down)| == ch.answered
    && forall j | 0 <= j < ch.answered :: Replies(ch.down)[j].Response? && Replies(ch.down)[j].id == ch.up[j].id
  }

  lemma RepliesAppend(down: seq<ToClient>, m: ToClient)
    ensures Replies(down + [m]) == Replies(down) + (if m.Response? then [m] else [])
  {
    assert (down + [m])[..|down|] == down;
  }

  lemma {:induction false} ReplyAmong(down: seq<ToClient>, i: nat)
    requires i < |down| && down[i].Response?
    ensures down[i] in Replies(down)
  {
    if i < |down| - 1 { ReplyAmong(down[..|down| - 1], i); }
  }

  /** How one step may change a connection. */
  ghost predicate ChannelGrows(ch: Channel, ch': Channel) {
    && ch.up <= ch'.up && ch.answered <= ch'.answered && Replies(ch.down) <= Replies(ch'.down)
  }

  ghost predicate ChannelsFit(s: State) {
    forall c :: ChannelFits(Chan(s, c))
  }

  lemma OnlyWrites(s: State, x: Step, s': State, c: Conn)
    requires StepTo(s, x, s') && !x.Respond? && !x.Publish? && !x.Take? && !x.Receive?
    ensures Chan(s', c) == Chan(s, c).(up := Chan(s', c).up) && Chan(s, c).up <= Chan(s', c).up
  {}

  /** What one step adds to the answers on a connection: nothing, or a reply to its first unanswered request. */
  ghost predicate AnswersGrow(ch: Channel, ch': Channel, reply: Option<Body>) {
    && ch.up <= ch'.up
    && match reply
       case None => ch'.answered == ch.answered && Replies(ch'.down) == Replies(ch.down)
       case Some(body) =>
         && ch'.answered == ch.answered + 1 && ch.answered < |ch.up|
         && Replies(ch'.down) == Replies(ch.down) + [Response(ch.up[ch.answered].id, body)]
  }

  /** What step `x` replies on connection `c`, if anything. */
  function ReplyOn(x: Step, c: Conn): Option<Body> {
    if x.Respond? && x.c == c then Some(x.body) else None
  }

  lemma AnsweredStep(s: State, x: Step, s': State, c: Conn)
    requires StepTo(s, x, s') && ChannelFits(Chan(s, c))
    ensures AnswersGrow(Chan(s, c), Chan(s', c), ReplyOn(x, c))
  {
    if x.Respond? || x.Publish? {
      if x.c == c { ServerAnswers(s, x, s'); } else { assert Chan(s', c) == Chan(s, c); }
    } else if x.Take? || x.Receive? {
      assert Chan(s', c) == Chan(s, c).(taken := Chan(s', c).taken, read := Chan(s', c).read);
    } else {
      OnlyWrites(s, x, s', c);
    }
  }

  /** The server only adds to what it has written, and it adds an event only when it publishes that event. */
  lemma DownStep(s: State, x: Step, s': State, c: Conn)
    requires StepTo(s, x, s')
    ensures Chan(s, c).down <= Chan(s', c).down
    ensures forall i | |Chan(s, c).down| <= i < |Chan(s', c).down| && Chan(s', c).down[i].Event? ::
              x.Publish? && Chan(s', c).down[i].body == x.body
  {
    if !x.Respond? && !x.Publish? && !x.Take? && !x.Receive? { OnlyWrites(s, x, s', c); }
  }

  lemma ServerAnswers(s: State, x: Step, s': State)
    requires StepTo(s, x, s') && (x.Respond? || x.Publish?)
    ensures AnswersGrow(Chan(s, x.c), Chan(s', x.c), ReplyOn(x, x.c))
  {
    if x.Respond? { ResponseGrows(Chan(s, x.c), x.body); } else { EventGrows(Chan(s, x.c), x.body); }
  }

  lemma ResponseGrows(ch: Channel, body: Body)
    requires ch.answered < |ch.up|
    ensures AnswersGrow(ch, ch.(down := ch.down + [Response(ch.up[ch.answered].id, body)], answered := ch.answered + 1),
                        Some(body))
  {
    RepliesAppend(ch.down, Response(ch.up[ch.answered].id, body));
  }

  lemma EventGrows(ch: Channel, body: Body)
    ensures AnswersGrow(ch, ch.(down := ch.down + [Event(body)]), None)
  {
    RepliesAppend(ch.down, Event(body));
  }

  lemma CountsStep(s: State, x: Step, s': State, c: Conn)
    requires StepTo(s, x, s') && ChannelFits(Chan(s, c))
    ensures var ch := Chan(s', c);
            ch.answered <= ch.taken <= |ch.up| && ch.taken <= ch.answered + 1 && ch.read <= |ch.down|
  {
    if !x.Respond? && !x.Publish? && !x.Take? && !x.Receive? { OnlyWrites(s, x, s', c); }
  }

  lemma {:induction false} GrowthFits(ch: Channel, ch': Channel, reply: Option<Body>)
    requires ChannelFits(ch) && AnswersGrow(ch, ch', reply)
    requires ch'.answered <= ch'.taken <= |ch'.up| && ch'.taken <= ch'.answered + 1 && ch'.read <= |ch'.down|
    ensures ChannelFits(ch') && ChannelGrows(ch, ch')
  {}

  lemma {:induction false} ChannelStep(s: State, x: Step, s': State, c: Conn)
    requires StepTo(s, x, s') && ChannelFits(Chan(s, c))
    ensures ChannelFits(Chan(s', c)) && ChannelGrows(Chan(s, c), Chan(s', c))
  {
    AnsweredStep(s, x, s', c);
    CountsStep(s, x, s', c);
    GrowthFits(Chan(s, c), Chan(s', c), ReplyOn(x, c));
  }

  // ---- ids ---------------------------------------------------------------------------------------------------------

  /** A request number `j` on connection `c`. */
  ghost predicate Wrote(s: State, c: Conn, j: int, m: Request) {
    0 <= j < |Chan(s, c).up| && Chan(s, c).up[j] == m
  }

  ghost predicate CallIdsFit(s: State) {
    && (forall k | k in s.calls :: s.calls[k].msg.id < s.nextId)
    && (forall k, k' | k in s.calls && k' in s.calls && s.calls[k].msg.id == s.calls[k'].msg.id :: k == k')
    && (s.heartbeat.Some? ==>
          && s.heartbeat.value < s.nextId
          && forall k | k in s.calls :: s.calls[k].msg.id != s.heartbeat.value)
  }

  /** A request on a wire belongs to the call with its id, if there is one, and that call has sent it. */
  ghost predicate OwnedBy(s: State, m: Request) {
    && m.id < s.nextId && s.heartbeat != Some(m.id)
    && forall k | k in s.calls && s.calls[k].msg.id == m.id ::
         s.calls[k].msg == m && !s.calls[k].pc.Begun? && !s.calls[k].pc.Registered?
  }

  ghost predicate WrittenIdsFit(s: State) {
    && (forall c, j, m | Wrote(s, c, j, m) :: OwnedBy(s, m))
    && (forall c, j, m, c', j', m' | Wrote(s, c, j, m) && Wrote(s, c', j', m') && m.id == m'.id :: c == c' && j == j')
  }

  ghost predicate IdInv(s: State) {
    CallIdsFit(s) && WrittenIdsFit(s)
  }

  /** What a step may write: nothing, or one request on the connection in use. */
  predicate Writes(s: State, x: Step) {
    (x.Send? && (x.ok || x.delivered)) || (x.SendHeartbeat? && x.delivered)
  }

  function Written(s: State, x: Step): Request
    requires Enabled(s, x) && Writes(s, x)
  {
    if x.Send? then s.calls[x.k].msg else Request(s.heartbeat.value, Messages.PING)
  }

  lemma WireStep(s: State, x: Step, s': State, c: Conn)
    requires StepTo(s, x, s')
    ensures Chan(s', c).up == if Writes(s, x) && c == s.conn then Chan(s, c).up + [Written(s, x)] else Chan(s, c).up
  {}

  predicate HasSent(pc: Pc) { !pc.Begun? && !pc.Registered? }

  /** The effect of a step on ids: calls keep their requests and do not go back before the send, and a new
      call or heartbeat takes the next id. */
  ghost predicate IdEffect(s: State, s': State) {
    && s.nextId <= s'.nextId
    && (forall k | k in s.calls :: k in s'.calls && s'.calls[k].msg == s.calls[k].msg
                                   && (HasSent(s.calls[k].pc) ==> HasSent(s'.calls[k].pc)))
    && (forall k | k in s'.calls && k !in s.calls ::
          s'.calls[k].msg.id == s.nextId < s'.nextId && s'.heartbeat == s.heartbeat
              && s'.calls.Keys == s.calls.Keys + {k})
    && (s'.heartbeat == s.heartbeat || s'.heartbeat.None?
        || (s'.heartbeat == Some(s.nextId) && s.nextId < s'.nextId && s'.calls == s.calls))
  }

  lemma CallerIds(s: State, x: Step, s': State)
    requires StepTo(s, x, s') && CallerStep(x)
    ensures IdEffect(s, s')
  {}

  lemma OtherIds(s: State, x: Step, s': State)
    requires StepTo(s, x, s') && !CallerStep(x)
    ensures IdEffect(s, s')
  {}

  lemma CallIdsStep(s: State, s': State)
    requires CallIdsFit(s) && IdEffect(s, s')
    ensures CallIdsFit(s')
  {}

  lemma OwnershipStep(s: State, s': State, m: Request)
    requires CallIdsFit(s) && IdEffect(s, s') && OwnedBy(s, m)
    ensures OwnedBy(s', m)
  {}

  /** A request is written under an id that no wire carries yet, by its own call or heartbeat. */
  lemma FreshWrite(s: State, x: Step, s': State)
    requires IdInv(s) && StepTo(s, x, s') && Writes(s, x)
    ensures OwnedBy(s', Written(s, x))
    ensures forall c, j, m | Wrote(s, c, j, m) :: m.id != Written(s, x).id
  {
    forall c, j, m | Wrote(s, c, j, m) ensures m.id != Written(s, x).id {
      assert OwnedBy(s, m);
    }
  }

  lemma WroteBefore(s: State, x: Step, s': State, c: Conn, j: int, m: Request)
    requires StepTo(s, x, s') && Wrote(s', c, j, m)
    ensures Wrote(s, c, j, m) || (Writes(s, x) && c == s.conn && j == |Chan(s, c).up| && m == Written(s, x))
  {
    WireStep(s, x, s', c);
  }

  lemma IdStep(s: State, x: Step, s': State)
    requires IdInv(s) && StepTo(s, x, s')
    ensures IdInv(s')
  {
    if CallerStep(x) { CallerIds(s, x, s'); } else { OtherIds(s, x, s'); }
    CallIdsStep(s, s');
    if Writes(s, x) { FreshWrite(s, x, s'); }
    forall c, j, m | Wrote(s', c, j, m) ensures OwnedBy(s', m) {
      WroteBefore(s, x, s', c, j, m);
      if Wrote(s, c, j, m) { OwnershipStep(s, s', m); }
    }
    forall c, j, m, c', j', m' | Wrote(s', c, j, m) && Wrote(s', c', j', m') && m.id == m'.id
      ensures c == c' && j == j'
    {
      WroteBefore(s, x, s', c, j, m);
      WroteBefore(s, x, s', c', j', m');
    }
  }

  // ---- slots ------------------------------------------------------------------------------------------

  /** The server's answer to the very request `m`, on the connection it was written to. */
  ghost predicate AnswerTo(s: State, m: Request, body: Body) {
    exists c, j :: AnsweredAt(s, c, j, m, body)
  }

  ghost predicate AnsweredAt(s: State, c: Conn, j: int, m: Request, body: Body) {
    && Wrote(s, c, j, m) && j < |Replies(Chan(s, c).down)| && Replies(Chan(s, c).down)[j] == Response(m.id, body)
  }

  ghost predicate SlotEmpty(c: Call) {
    c.response.None? && !c.isSet && c.fills == 0
  }

  ghost predicate InProgress(pc: Pc) {
    pc.Registered? || pc.SendFailed? || pc.Sent? || pc.Expired?
  }

  ghost predicate PendingFits(s: State, id: Id)
    requires id in s.pending
  {
    var k := s.pending[id];
    k in s.calls && s.calls[k].msg.id == id && SlotEmpty(s.calls[k]) && InProgress(s.calls[k].pc)
  }

  /** The call whose slot the listener has taken out and is filling. */
  predicate BeingFilled(s: State, k: CallId) {
    (s.listener.Matched? || s.listener.Stored?) && s.listener.k == k
  }

  ghost predicate ListenerFits(s: State) {
    && (s.listener.Matched? || s.listener.Stored? ==>
          && s.listener.k in s.calls && s.calls[s.listener.k].msg.id !in s.pending && !s.calls[s.listener.k].relogin
          && !s.calls[s.listener.k].isSet && !s.calls[s.listener.k].pc.Begun?)
    && (s.listener.Matched? ==>
          && SlotEmpty(s.calls[s.listener.k])
          && AnswerTo(s, s.calls[s.listener.k].msg, s.listener.body))
    && (s.listener.Stored? ==> s.calls[s.listener.k].response.Some?)
  }

  /** A slot is filled at most once, and what it holds and what was returned from it is genuine. */
  ghost predicate SlotFits(s: State, k: CallId)
    requires k in s.calls
  {
    var c := s.calls[k];
    && c.fills <= 1 && (c.fills == 0 <==> c.response.None?) && (c.isSet ==> c.response.Some?)
    && (c.response.Some? && c.response.value.Replied? ==> AnswerTo(s, c.msg, c.response.value.body))
    && (c.pc.Done? && c.pc.answer.Answered? ==> c.response == Some(Replied(c.pc.answer.body)))
    && (c.pc.Done? && c.pc.answer.Lost? ==> c.response == Some(ConnectionLost))
    && (c.pc.Begun? ==> SlotEmpty(c) && c.msg.id !in s.pending)
  }

  /** The re-login of the listener is never filled: the one thread that could fill it is waiting in it. */
  ghost predicate ReloginFits(s: State, k: CallId)
    requires k in s.calls
  {
    var c := s.calls[k];
    c.relogin ==>
      && SlotEmpty(c)
      && (if c.pc.Done? then c.pc.answer.Unavailable? || c.pc.answer.TimedOut? else s.listener == InRequest(k))
  }

  ghost predicate SlotInv(s: State) {
    && (forall id | id in s.pending :: PendingFits(s, id))
    && ListenerFits(s)
    && (forall k | k in s.calls :: SlotFits(s, k) && ReloginFits(s, k))
  }

  ghost predicate Grows(s: State, s': State) {
    forall c :: ChannelGrows(Chan(s, c), Chan(s', c))
  }

  lemma AnswerKept(s: State, s': State, m: Request, body: Body)
    requires Grows(s, s') && AnswerTo(s, m, body)
    ensures AnswerTo(s', m, body)
  {
    var c, j :| AnsweredAt(s, c, j, m, body);
    assert ChannelGrows(Chan(s, c), Chan(s', c));
    assert AnsweredAt(s', c, j, m, body);
  }

  /** The response the listener reads under a pending id is the answer to that very request. */
  lemma ResponseIsGenuine(s: State)
    requires IdInv(s) && ChannelsFit(s) && SlotInv(s) && Enabled(s, Receive)
    requires var m := Chan(s, s.conn).down[Chan(s, s.conn).read]; m.Response? && m.id in s.pending
    ensures var m := Chan(s, s.conn).down[Chan(s, s.conn).read];
            PendingFits(s, m.id) && AnswerTo(s, s.calls[s.pending[m.id]].msg, m.body)
  {
    var ch := Chan(s, s.conn);
    var m := ch.down[ch.read];
    assert ChannelFits(ch);
    ReplyAmong(ch.down, ch.read);
    var j :| 0 <= j < |Replies(ch.down)| && Replies(ch.down)[j] == m;
    assert Wrote(s, s.conn, j, ch.up[j]);
    assert OwnedBy(s, ch.up[j]);
    assert PendingFits(s, m.id);
    assert AnsweredAt(s, s.conn, j, ch.up[j], m.body);
  }

  lemma ReceiveStep(s: State, s': State)
    requires IdInv(s) && ChannelsFit(s) && SlotInv(s) && StepTo(s, Receive, s') && Grows(s, s')
    ensures SlotInv(s')
  {
    var m := Chan(s, s.conn).down[Chan(s, s.conn).read];
    forall id | id in s'.pending ensures PendingFits(s', id) { assert PendingFits(s, id); }
    forall k | k in s'.calls ensures SlotFits(s', k) && ReloginFits(s', k) {
      SlotKept(s, s', k);
    }
    if m.Response? && m.id in s.pending {
      ResponseIsGenuine(s);
      AnswerKept(s, s', s.calls[s.pending[m.id]].msg, m.body);
      assert ReloginFits(s, s.pending[m.id]);
    }
  }

  /** A call that the step does not touch stays as it is. */
  lemma SlotKept(s: State, s': State, k: CallId)
    requires Grows(s, s') && k in s.calls && k in s'.calls && s'.calls[k] == s.calls[k] && SlotFits(s, k)
        && ReloginFits(s, k)
    requires s.calls[k].pc.Begun? && s.calls[k].msg.id in s'.pending ==> s.calls[k].msg.id in s.pending
    requires s.listener == InRequest(k) && !s.calls[k].pc.Done? ==> s'.listener == s.listener
    ensures SlotFits(s', k) && ReloginFits(s', k)
  {
    var c := s.calls[k];
    if c.response.Some? && c.response.value.Replied? { AnswerKept(s, s', c.msg, c.response.value.body); }
  }

  predicate CallerStep(x: Step) {
    x.Begin? || x.Register? || x.Send? || x.ReturnUnavailable? || x.Return? || x.Expire? || x.ReturnTimedOut?
  }

  lemma CallerKeeps(s: State, x: Step, s': State)
    requires IdInv(s) && SlotInv(s) && StepTo(s, x, s') && Grows(s, s') && CallerStep(x)
    ensures SlotInv(s')
  {
    CallerOwn(s, x, s');
    forall id | id in s'.pending ensures PendingFits(s', id) { CallerPending(s, x, s', id); }
    forall k | k in s'.calls ensures SlotFits(s', k) && ReloginFits(s', k) {
      if k != x.k { assert SlotFits(s, k) && ReloginFits(s, k); SlotKept(s, s', k); }
    }
    CallerListener(s, x, s');
  }

  lemma CallerOwn(s: State, x: Step, s': State)
    requires IdInv(s) && SlotInv(s) && StepTo(s, x, s') && Grows(s, s') && CallerStep(x)
    ensures x.k in s'.calls && SlotFits(s', x.k) && ReloginFits(s', x.k)
  {
    if x.Begin? {
      forall id | id in s.pending ensures id != s.nextId { assert PendingFits(s, id); }
    } else {
      assert SlotFits(s, x.k) && ReloginFits(s, x.k);
      var c := s.calls[x.k];
      if c.response.Some? && c.response.value.Replied? { AnswerKept(s, s', c.msg, c.response.value.body); }
    }
  }

  lemma CallerPending(s: State, x: Step, s': State, id: Id)
    requires IdInv(s) && SlotInv(s) && StepTo(s, x, s') && CallerStep(x) && id in s'.pending
    ensures PendingFits(s', id)
  {
    if id in s.pending { assert PendingFits(s, id); }
    if x.Register? { assert SlotFits(s, x.k); }
  }

  lemma CallerListener(s: State, x: Step, s': State)
    requires IdInv(s) && SlotInv(s) && StepTo(s, x, s') && Grows(s, s') && CallerStep(x)
    ensures ListenerFits(s')
  {
    if s.listener.Matched? { AnswerKept(s, s', s.calls[s.listener.k].msg, s.listener.body); }
    if s.listener.Matched? || s.listener.Stored? { FilledKept(s, x, s', s.listener.k); }
  }

  /** A caller does nothing to a slot that the listener is filling. */
  lemma FilledKept(s: State, x: Step, s': State, k: CallId)
    requires StepTo(s, x, s') && CallerStep(x) && k in s.calls && !s.calls[k].pc.Begun?
    requires s.calls[k].msg.id !in s.pending
    requires forall j | j in s.calls && s.calls[j].msg.id == s.calls[k].msg.id :: j == k
    ensures s'.listener == s.listener && k in s'.calls && s'.calls[k] == s.calls[k].(pc := s'.calls[k].pc)
    ensures !s'.calls[k].pc.Begun? && s'.calls[k].msg.id !in s'.pending
  {}

  lemma StoreStep(s: State, s': State)
    requires IdInv(s) && SlotInv(s) && StepTo(s, Store, s') && Grows(s, s')
    ensures SlotInv(s')
  {
    var k := s.listener.k;
    assert SlotFits(s, k) && ReloginFits(s, k);
    forall id | id in s'.pending ensures PendingFits(s', id) { assert PendingFits(s, id); }
    forall j | j in s'.calls && j != k ensures SlotFits(s', j) && ReloginFits(s', j) { SlotKept(s, s', j); }
    var c := s'.calls[k];
    AnswerKept(s, s', c.msg, s.listener.body);
  }

  lemma SetEventStep(s: State, s': State)
    requires IdInv(s) && SlotInv(s) && StepTo(s, SetEvent, s') && Grows(s, s')
    ensures SlotInv(s')
  {
    var k := s.listener.k;
    assert SlotFits(s, k) && ReloginFits(s, k);
    forall id | id in s'.pending ensures PendingFits(s', id) { assert PendingFits(s, id); }
    forall j | j in s'.calls && j != k ensures SlotFits(s', j) && ReloginFits(s', j) { SlotKept(s, s', j); }
    var c := s'.calls[k];
    if c.response.value.Replied? { AnswerKept(s, s', c.msg, c.response.value.body); }
  }

  lemma DisconnectStep(s: State, s': State)
    requires IdInv(s) && SlotInv(s) && StepTo(s, Disconnect, s') && Grows(s, s')
    ensures SlotInv(s')
  {
    forall k | k in s'.calls ensures SlotFits(s', k) && ReloginFits(s', k) {
      assert SlotFits(s, k) && ReloginFits(s, k);
      if IsPending(s, k) {
        assert PendingFits(s, s.calls[k].msg.id);
      } else {
        SlotKept(s, s', k);
      }
    }
  }

  lemma ConnectStep(s: State, x: Step, s': State)
    requires IdInv(s) && SlotInv(s) && StepTo(s, x, s') && Grows(s, s') && (x.Connect? || x.ReloginReturned?)
    ensures SlotInv(s')
  {
    forall id | id in s'.pending ensures PendingFits(s', id) { assert PendingFits(s, id); }
    forall k | k in s'.calls ensures SlotFits(s', k) && ReloginFits(s', k) {
      if k in s.calls {
        assert SlotFits(s, k) && ReloginFits(s, k);
        SlotKept(s, s', k);
      } else {
        forall id | id in s.pending ensures id != s.nextId { assert PendingFits(s, id); }
      }
    }
  }

  lemma QuietStep(s: State, x: Step, s': State)
    requires IdInv(s) && SlotInv(s) && StepTo(s, x, s') && Grows(s, s')
    requires s'.calls == s.calls && s'.pending == s.pending && s'.listener == s.listener
    ensures SlotInv(s')
  {
    forall id | id in s'.pending ensures PendingFits(s', id) { assert PendingFits(s, id); }
    forall k | k in s'.calls ensures SlotFits(s', k) && ReloginFits(s', k) { SlotKept(s, s', k); }
    if s.listener.Matched? { AnswerKept(s, s', s.calls[s.listener.k].msg, s.listener.body); }
  }

  /** A caller whose slot is still empty can be woken: its slot is in the table or in the listener's hands. */
  ghost predicate NoOrphan(s: State, k: CallId)
    requires k in s.calls
  {
    InProgress(s.calls[k].pc) && !s.calls[k].isSet ==> IsPending(s, k) || BeingFilled(s, k)
  }

  predicate Awaiting(s: State, k: CallId) {
    k in s.calls && s.calls[k].pc in {Registered, SendFailed, Sent, Expired} && !s.calls[k].isSet
  }

  lemma StartsAwaiting(s: State, x: Step, s': State, k: CallId)
    requires StepTo(s, x, s') && Awaiting(s', k) && !Awaiting(s, k)
    ensures IsPending(s', k)
  {}

  lemma {:induction false} NoOrphanStep(s: State, x: Step, s': State, k: CallId)
    requires StepTo(s, x, s') && k in s'.calls && CallIdsFit(s)
    requires forall id | id in s.pending :: PendingFits(s, id)
    requires k in s.calls ==> NoOrphan(s, k) && SlotFits(s, k)
    ensures NoOrphan(s', k)
  {
    if Awaiting(s', k) {
      if Awaiting(s, k) {
        if CallerStep(x) { CallerNoOrphan(s, x, s', k); } else { OtherNoOrphan(s, x, s', k); }
      } else {
        StartsAwaiting(s, x, s', k);
      }
    }
  }

  lemma CallerNoOrphan(s: State, x: Step, s': State, k: CallId)
    requires CallIdsFit(s) && StepTo(s, x, s') && CallerStep(x) && k in s.calls
    requires IsPending(s, k) || BeingFilled(s, k)
    ensures NoOrphan(s', k)
  {}

  lemma OtherNoOrphan(s: State, x: Step, s': State, k: CallId)
    requires CallIdsFit(s) && StepTo(s, x, s') && !CallerStep(x) && k in s.calls
    requires IsPending(s, k) || BeingFilled(s, k)
    requires forall id | id in s.pending :: PendingFits(s, id)
    ensures NoOrphan(s', k)
  {}

  ghost predicate Inv(s: State) {
    ChannelsFit(s) && IdInv(s) && SlotInv(s) && forall k | k in s.calls :: NoOrphan(s, k)
  }

  lemma InvStep(s: State, x: Step, s': State)
    requires Inv(s) && StepTo(s, x, s')
    ensures Inv(s')
  {
    forall k | k in s'.calls ensures NoOrphan(s', k) {
      if k in s.calls { assert NoOrphan(s, k) && SlotFits(s, k); }
      NoOrphanStep(s, x, s', k);
    }
    forall c ensures ChannelFits(Chan(s', c)) && ChannelGrows(Chan(s, c), Chan(s', c)) { ChannelStep(s, x, s', c); }
    IdStep(s, x, s');
    SlotStep(s, x, s');
  }

  lemma SlotStep(s: State, x: Step, s': State)
    requires Inv(s) && StepTo(s, x, s') && Grows(s, s')
    ensures SlotInv(s')
  {
    if CallerStep(x) {
      CallerKeeps(s, x, s');
    } else if x.Receive? {
      ReceiveStep(s, s');
    } else if x.Store? {
      StoreStep(s, s');
    } else if x.SetEvent? {
      SetEventStep(s, s');
    } else if x.Disconnect? {
      DisconnectStep(s, s');
    } else if x.Connect? || x.ReloginReturned? {
      ConnectStep(s, x, s');
    } else {
      QuietStep(s, x, s');
    }
  }

  lemma InvInitial(s: State)
    requires Initial(s)
    ensures Inv(s)
  {}

  lemma InvAlways(states: seq<State>, steps: seq<Step>, i: nat)
    requires IsRun(states, steps) && i < |states|
    ensures Inv(states[i])
  {
    InvInitial(states[0]);
    var P := (s: State) => Inv(s);
    forall s, x, s' | P(s) && StepTo(s, x, s') ensures P(s') { InvStep(s, x, s'); }
    Always(StepTo, states, steps, P, i);
  }

  // ---- what callers get ---------------------------------------------------------------------------------------------

  /** A call that returns a reply returns the server's answer to its very request, read off the connection
      that request was written to; it reports a lost connection only when the listener failed its slot; and
      otherwise it returns one of the other two local errors. Each slot is filled at most once. */
  lemma EndToEnd(states: seq<State>, steps: seq<Step>, i: nat, k: CallId)
    requires IsRun(states, steps) && i < |states| && k in states[i].calls
    ensures var c := states[i].calls[k];
            && c.fills <= 1
            && (c.pc.Done? && c.pc.answer.Answered? ==> AnswerTo(states[i], c.msg, c.pc.answer.body))
            && (c.pc.Done? && c.pc.answer.Lost? ==> c.response == Some(ConnectionLost))
  {
    InvAlways(states, steps, i);
    assert SlotFits(states[i], k);
  }

  /** No caller is left waiting on a slot that nobody can fill: while its event is not set, the slot is in the
      pending table, where a reply or a reconnect finds it, or the listener is filling it right now. */
  lemma {:induction false} NobodyForgotten(states: seq<State>, steps: seq<Step>, i: nat, k: CallId)
    requires IsRun(states, steps) && i < |states|
    requires k in states[i].calls && states[i].calls[k].pc.Sent? && !states[i].calls[k].isSet
    ensures IsPending(states[i], k) || BeingFilled(states[i], k)
  {
    InvAlways(states, steps, i);
    assert NoOrphan(states[i], k);
  }

  /** Ids are never reused, by calls, by heartbeats or across connections. */
  lemma IdsAreUnique(states: seq<State>, steps: seq<Step>, i: nat)
    requires IsRun(states, steps) && i < |states|
    ensures var s := states[i];
            && (forall k, k' | k in s.calls && k' in s.calls && k != k' :: s.calls[k].msg.id != s.calls[k'].msg.id)
            && (forall c, j, m, c', j', m' | Wrote(s, c, j, m) && Wrote(s, c', j', m') && (c != c' || j != j') ::
                  m.id != m'.id)
  {
    InvAlways(states, steps, i);
  }

  /** On every connection the ids of the responses are the ids of the first requests, in order, once each. */
  lemma AnsweredInOrder(states: seq<State>, steps: seq<Step>, i: nat, c: Conn)
    requires IsRun(states, steps) && i < |states|
    ensures var ch := Chan(states[i], c); var replies := Replies(ch.down);
            && ch.taken - 1 <= |replies| <= ch.taken <= |ch.up|
            && forall j | 0 <= j < |replies| :: replies[j].Response? && replies[j].id == ch.up[j].id
  {
    InvAlways(states, steps, i);
    assert ChannelFits(Chan(states[i], c));
  }

  /** A late reply, a reply to a heartbeat, or any other response that no unfinished call waits for, alters no
      slot: the listener only moves on. */
  lemma StrayReplyIgnored(states: seq<State>, steps: seq<Step>, i: nat)
    requires IsRun(states, steps) && i < |steps| && steps[i].Receive?
    requires Enabled(states[i], Receive)
    requires var m := Chan(states[i], states[i].conn).down[Chan(states[i], states[i].conn).read];
             m.Event? || forall k | k in states[i].calls && states[i].calls[k].msg.id == m.id ::
                           states[i].calls[k].pc.Done?
    ensures states[i + 1].calls == states[i].calls && states[i + 1].pending == states[i].pending
        && states[i + 1].listener.Reading?
  {
    InvAlways(states, steps, i);
    assert StepTo(states[i], steps[i], states[i + 1]);
    var m := Chan(states[i], states[i].conn).down[Chan(states[i], states[i].conn).read];
    forall id | id in states[i].pending ensures PendingFits(states[i], id) {}
  }

  /** The re-login inside `_reconnect` never gets the server's reply: it ends as unavailable or timed out. */
  lemma ReloginNeverAnswered(states: seq<State>, steps: seq<Step>, i: nat, k: CallId)
    requires IsRun(states, steps) && i < |states|
    requires k in states[i].calls && states[i].calls[k].relogin && states[i].calls[k].pc.Done?
    ensures states[i].calls[k].pc.answer in {Unavailable, TimedOut}
  {
    InvAlways(states, steps, i);
    assert ReloginFits(states[i], k);
  }

  /** And that loses real answers: any run whose listener is reading goes on with a reconnect in which the server
      answers the re-login, and the re-login still times out. */
  lemma ReloginInVain(states: seq<State>, steps: seq<Step>, k: CallId, ask: Body, reply: Body)
    returns (states': seq<State>, steps': seq<Step>)
    requires IsRun(states, steps)
    requires var s := states[|steps|]; s.listener.Reading? && k !in s.calls && Chan(s, s.conn + 1) == NO_CHANNEL
    ensures IsRun(states', steps') && k in states'[|steps'|].calls
    ensures var s := states'[|steps'|]; var c := s.calls[k];
            && c.relogin && c.msg.body == ask && c.pc == Done(TimedOut)
            && AnswerTo(s, c.msg, reply)
  {
    states', steps' := ReloginSent(states, steps, k, ask);
    states', steps' := ReloginServed(states', steps', k, reply);
    states', steps' := Extend(states', steps', Expire(k));
    states', steps' := Extend(states', steps', ReturnTimedOut(k));
    var s := states'[|steps'|];
    assert Wrote(s, s.conn, 0, s.calls[k].msg);
    assert AnsweredAt(s, s.conn, 0, s.calls[k].msg, reply);
  }

  /** The re-login `k` with body `ask` is the only request on its connection, and waits. */
  predicate OnlyRelogin(s: State, k: CallId, ask: Body) {
    && HasPc(s, k, Sent) && s.calls[k].relogin && s.calls[k].msg.body == ask && !s.calls[k].isSet
    && Chan(s, s.conn).up == [s.calls[k].msg]
  }

  lemma ReloginSent(states: seq<State>, steps: seq<Step>, k: CallId, ask: Body)
    returns (states': seq<State>, steps': seq<Step>)
    requires IsRun(states, steps)
    requires var s := states[|steps|]; s.listener.Reading? && k !in s.calls && Chan(s, s.conn + 1) == NO_CHANNEL
    ensures IsRun(states', steps') && OnlyRelogin(states'[|steps'|], k, ask)
    ensures var ch := Chan(states'[|steps'|], states'[|steps'|].conn); ch == NO_CHANNEL.(up := ch.up)
  {
    states', steps' := Extend(states, steps, Disconnect);
    states', steps' := Extend(states', steps', Connect(Some((k, ask))));
    states', steps' := Extend(states', steps', Register(k));
    states', steps' := Extend(states', steps', Send(k, true, true));
  }

  lemma ReloginServed(states: seq<State>, steps: seq<Step>, k: CallId, reply: Body)
    returns (states': seq<State>, steps': seq<Step>)
    requires IsRun(states, steps) && k in states[|steps|].calls
    requires var s := states[|steps|]; var ch := Chan(s, s.conn);
             OnlyRelogin(s, k, s.calls[k].msg.body) && ch == NO_CHANNEL.(up := ch.up)
    ensures IsRun(states', steps')
    ensures var s, s' := states[|steps|], states'[|steps'|];
            && s'.calls == s.calls && s'.conn == s.conn
            && Chan(s', s.conn).up == [s.calls[k].msg]
            && Replies(Chan(s', s.conn).down) == [Response(s.calls[k].msg.id, reply)]
  {
    var c := states[|steps|].conn;
    states', steps' := Extend(states, steps, Take(c));
    RepliesAppend([], Response(states[|steps|].calls[k].msg.id, reply));
    states', steps' := Extend(states', steps', Respond(c, reply));
  }

  // ---- an exchange ------------------------------------------------------------------------------------------

  lemma Extend(states: seq<State>, steps: seq<Step>, x: Step) returns (states': seq<State>, steps': seq<Step>)
    requires IsRun(states, steps) && Enabled(states[|steps|], x)
    ensures IsRun(states', steps') && |steps'| == |steps| + 1
    ensures states'[|steps'|] == Next(states[|steps|], x)
  {
    states', steps' := states + [Next(states[|steps|], x)], steps + [x];
    Longer(StepTo, states, steps, x, Next(states[|steps|], x));
  }

  /** Any quiet run goes on with a request that is answered: a caller asks, the handler answers with any body,
      and the caller gets that body. */
  lemma Exchange(states: seq<State>, steps: seq<Step>, k: CallId, ask: Body, reply: Body)
    returns (states': seq<State>, steps': seq<Step>)
    requires IsRun(states, steps)
    requires var s := states[|steps|]; var ch := Chan(s, s.conn);
             k !in s.calls && s.listener.Reading? && ch.read == |ch.down| && ch.taken == ch.answered == |ch.up|
    ensures IsRun(states', steps') && k in states'[|steps'|].calls
    ensures states'[|steps'|].calls[k].pc == Done(Answered(reply))
  {
    states', steps' := Asked(states, steps, k, ask);
    states', steps' := Served(states', steps', k, reply);
    states', steps' := Extend(states', steps', Store);
    states', steps' := Extend(states', steps', SetEvent);
    states', steps' := Extend(states', steps', Return(k));
  }

  lemma Asked(states: seq<State>, steps: seq<Step>, k: CallId, ask: Body)
    returns (states': seq<State>, steps': seq<Step>)
    requires IsRun(states, steps) && k !in states[|steps|].calls
    ensures IsRun(states', steps')
    ensures var s, s' := states[|steps|], states'[|steps'|];
            && HasPc(s', k, Sent) && IsPending(s', k) && s'.listener == s.listener && s'.conn == s.conn
            && Chan(s', s.conn) == Chan(s, s.conn).(up := Chan(s, s.conn).up + [s'.calls[k].msg])
  {
    states', steps' := Extend(states, steps, Begin(k, ask));
    states', steps' := Extend(states', steps', Register(k));
    states', steps' := Extend(states', steps', Send(k, true, true));
  }

  lemma Served(states: seq<State>, steps: seq<Step>, k: CallId, reply: Body)
    returns (states': seq<State>, steps': seq<Step>)
    requires IsRun(states, steps)
    requires var s := states[|steps|]; var ch := Chan(s, s.conn);
             && HasPc(s, k, Sent) && IsPending(s, k) && s.listener.Reading? && ch.read == |ch.down|
             && ch.taken == ch.answered == |ch.up| - 1 && ch.up[ch.answered] == s.calls[k].msg
    ensures IsRun(states', steps') && HasPc(states'[|steps'|], k, Sent)
    ensures states'[|steps'|].listener == Matched(k, reply)
  {
    var c := states[|steps|].conn;
    states', steps' := Extend(states, steps, Take(c));
    states', steps' := Extend(states', steps', Respond(c, reply));
    assert Chan(states'[|steps'|], c).down
        == Chan(states[|steps|], c).down + [Response(states[|steps|].calls[k].msg.id, reply)];
    states', steps' := Extend(states', steps', Receive);
  }
}
