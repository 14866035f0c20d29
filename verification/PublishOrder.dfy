/** What a server handler does after the data layer has answered (server.py): it replies to its own client, and
    after a committed write it publishes one event to a snapshot of the registry of subscribers. Every handler
    runs concurrently with the data layer, with every other handler, and with logins and logouts. */
module PublishOrder {
  import opened ReadWriteLocks
  import opened LockSystem
  import opened Linearizability
  import opened Options
  import opened Runs
  import Broker = PubSub

  /** A connection; its delivery callback writes to it. */
  type Conn = Broker.Callback

  datatype Message = Response(t: Tid, result: Result) | Event(t: Tid, version: int)

  datatype Phase =
    | Working                         // not replied yet
    | Replied                         // the reply has been sent, publishing not begun
    | Publishing(targets: Broker.Registry)  // inside publish, these subscribers still to be served
    | Done
    | ReplyFailed                     // the send of the reply raised

  /** `wire[c]` is what has been sent to connection `c`. `published` observes the publish calls in order. */
  datatype World = World(
    sys: State, phase: map<Tid, Phase>, wire: map<Conn, seq<Message>>, subscribers: Broker.Registry,
    published: seq<Tid>)

  datatype Action =
    | Data(l: Label)
    | Reply(t: Tid)
    | FailReply(t: Tid)
    | Publish(t: Tid)
    | Deliver(t: Tid)
    | FailDelivery(t: Tid)
    | Finish(t: Tid)
    | Resubscribe(change: Broker.Change)   // a login, a logout or a disconnect

  function Wire(w: World, c: Conn): seq<Message> {
    if c in w.wire then w.wire[c] else []
  }

  function Send(w: World, c: Conn, m: Message): World {
    w.(wire := w.wire[c := Wire(w, c) + [m]])
  }

  predicate CommittedWrite(w: World, t: Tid) {
    t in w.sys.ops && w.sys.ops[t].pc.Returned? && w.sys.ops[t].pc.result.Committed?
  }

  predicate Serving(w: World, t: Tid) {
    t in w.phase && w.phase[t].Publishing? && w.phase[t].targets != [] && CommittedWrite(w, t)
  }

  predicate Able(w: World, a: Action) {
    match a
    case Data(l) => Enabled(w.sys, l)
    case Reply(t) => t in w.phase && w.phase[t].Working? && HasReturned(w.sys, t)
    case FailReply(t) => t in w.phase && w.phase[t].Working? && HasReturned(w.sys, t)
    case Publish(t) => t in w.phase && w.phase[t].Replied? && CommittedWrite(w, t)
    case Deliver(t) => Serving(w, t)
    case FailDelivery(t) => Serving(w, t)
    case Finish(t) => t in w.phase && w.phase[t] == Publishing([])
    case Resubscribe(_) => true
  }

  /** `home` says which connection's handler runs an operation. */
  function Act(home: Tid -> Conn, w: World, a: Action): World
    requires Able(w, a)
  {
    match a
    case Data(l) => w.(sys := Next(w.sys, l))
    case Reply(t) =>
      Send(w, home(t), Response(t, w.sys.ops[t].pc.result)).(
        phase := w.phase[t := if CommittedWrite(w, t) then Replied else Done])
    case FailReply(t) => w.(phase := w.phase[t := ReplyFailed])
    case Publish(t) => w.(phase := w.phase[t := Publishing(w.subscribers)], published := w.published + [t])
    case Deliver(t) =>
      Send(w, w.phase[t].targets[0].1, Event(t, w.sys.ops[t].pc.result.version)).(
        phase := w.phase[t := Publishing(w.phase[t].targets[1..])])
    case FailDelivery(t) =>
      w.(phase := w.phase[t := Publishing(w.phase[t].targets[1..])],
          subscribers := Broker.After(w.subscribers, Broker.Unsubscribe(w.phase[t].targets[0].0)))
    case Finish(t) => w.(phase := w.phase[t := Done])
    case Resubscribe(change) => w.(subscribers := Broker.After(w.subscribers, change))
  }

  ghost predicate InitialWorld(init: string, w: World) {
    && Initial(init, w.sys) && w.phase.Keys == w.sys.ops.Keys
    && (forall t | t in w.phase :: w.phase[t].Working?)
    && w.wire == map[] && w.subscribers == [] && w.published == []
  }

  ghost predicate Moves(home: Tid -> Conn, w: World, a: Action, w': World) {
    Able(w, a) && w' == Act(home, w, a)
  }

  ghost function MovesAt(home: Tid -> Conn): (World, Action, World) -> bool {
    (w, a, w') => Moves(home, w, a, w')
  }

  ghost predicate IsWorldRun(init: string, home: Tid -> Conn, worlds: seq<World>, actions: seq<Action>) {
    Follows(MovesAt(home), worlds, actions) && InitialWorld(init, worlds[0])
  }

  // ---- the invariant -----------------------------------------------------------------------------------

  predicate HasReplied(p: Phase) { p.Replied? || p.Publishing? || p.Done? }

  /** Everything on a wire is true: a response carries the answer its operation returned and was sent by the
      handler of that operation; an event announces the version of a committed write being published. */
  ghost predicate Truthful(home: Tid -> Conn, w: World, c: Conn, m: Message) {
    && HasReturned(w.sys, m.t) && m.t in w.phase
    && match m
       case Response(t, r) => home(t) == c && w.sys.ops[t].pc.result == r && HasReplied(w.phase[t])
       case Event(t, v) => w.sys.ops[t].pc.result == Committed(v) && (w.phase[t].Publishing? || w.phase[t].Done?)
                           && t in w.published
  }

  predicate IsReplyTo(m: Message, t: Tid) { m.Response? && m.t == t }

  ghost predicate RepliedOn(msgs: seq<Message>, t: Tid) {
    exists i :: 0 <= i < |msgs| && IsReplyTo(msgs[i], t)
  }

  /** On the writer's own connection every event of a write comes after the reply to it. */
  ghost predicate ReplyFirst(home: Tid -> Conn, msgs: seq<Message>, c: Conn) {
    forall j | 0 <= j < |msgs| && msgs[j].Event? && home(msgs[j].t) == c :: RepliedOn(msgs[..j], msgs[j].t)
  }

  ghost predicate OneReplyEach(msgs: seq<Message>) {
    forall i, j | 0 <= i < j < |msgs| && msgs[i].Response? && msgs[j].Response? :: msgs[i].t != msgs[j].t
  }

  ghost predicate WireInv(home: Tid -> Conn, w: World, c: Conn) {
    var msgs := Wire(w, c);
    && (forall i | 0 <= i < |msgs| :: Truthful(home, w, c, msgs[i]))
    && ReplyFirst(home, msgs, c) && OneReplyEach(msgs)
  }

  ghost predicate PhaseInv(home: Tid -> Conn, w: World, t: Tid)
    requires t in w.phase
  {
    && (HasReplied(w.phase[t]) ==> HasReturned(w.sys, t) && RepliedOn(Wire(w, home(t)), t))
    && (w.phase[t].Replied? || w.phase[t].Publishing? ==> CommittedWrite(w, t))
    && (t in w.published <==> w.phase[t].Publishing? || (w.phase[t].Done? && CommittedWrite(w, t)))
  }

  ghost predicate PublishedOnce(w: World) {
    && (forall i, j | 0 <= i < j < |w.published| :: w.published[i] != w.published[j])
    && (forall t | t in w.published :: t in w.phase)
  }

  ghost predicate HandlersInv(home: Tid -> Conn, w: World) {
    && w.phase.Keys == w.sys.ops.Keys
    && (forall c :: WireInv(home, w, c))
    && (forall t | t in w.phase :: PhaseInv(home, w, t))
    && PublishedOnce(w)
  }

  lemma DataKeeps(home: Tid -> Conn, w: World, l: Label, w': World)
    requires Able(w, Data(l)) && w' == Act(home, w, Data(l))
    ensures w'.sys.ops.Keys == w.sys.ops.Keys
    ensures forall t | HasReturned(w.sys, t) :: HasReturned(w'.sys, t) && w'.sys.ops[t] == w.sys.ops[t]
  {}

  lemma DataMoves(home: Tid -> Conn, w: World, l: Label)
    requires HandlersInv(home, w) && Able(w, Data(l))
    ensures HandlersInv(home, Act(home, w, Data(l)))
  {
    DataKeeps(home, w, l, Act(home, w, Data(l)));
    KeepsWorld(home, w, Act(home, w, Data(l)));
  }

  lemma KeepsWorld(home: Tid -> Conn, w: World, w': World)
    requires w' == w.(sys := w'.sys, subscribers := w'.subscribers) && w.phase.Keys == w.sys.ops.Keys == w'.sys.ops.Keys
    requires forall t | HasReturned(w.sys, t) :: HasReturned(w'.sys, t) && w'.sys.ops[t] == w.sys.ops[t]
    requires (forall c :: WireInv(home, w, c)) && (forall t | t in w.phase :: PhaseInv(home, w, t))
    ensures (forall c :: WireInv(home, w', c)) && (forall t | t in w'.phase :: PhaseInv(home, w', t))
  {
    forall c ensures WireInv(home, w', c) {
      assert WireInv(home, w, c);
      forall i | 0 <= i < |Wire(w', c)| ensures Truthful(home, w', c, Wire(w', c)[i]) {
        assert Truthful(home, w, c, Wire(w, c)[i]);
      }
    }
    forall t | t in w'.phase ensures PhaseInv(home, w', t) {
      assert PhaseInv(home, w, t);
    }
  }

  lemma ResubscribeKeeps(home: Tid -> Conn, w: World, change: Broker.Change)
    requires HandlersInv(home, w)
    ensures HandlersInv(home, Act(home, w, Resubscribe(change)))
  {
    KeepsWorld(home, w, Act(home, w, Resubscribe(change)));
  }

  /** The wire of `c` after `m` has been sent on it. */
  lemma WireExtend(home: Tid -> Conn, w: World, w': World, c: Conn, m: Message)
    requires WireInv(home, w, c) && Wire(w', c) == Wire(w, c) + [m] && Truthful(home, w', c, m)
    requires forall i | 0 <= i < |Wire(w, c)| :: Truthful(home, w', c, Wire(w, c)[i])
    requires m.Event? && home(m.t) == c ==> RepliedOn(Wire(w, c), m.t)
    requires m.Response? ==> !RepliedOn(Wire(w, c), m.t)
    ensures WireInv(home, w', c)
  {
    var before, after := Wire(w, c), Wire(w', c);
    forall j | 0 <= j < |after| && after[j].Event? && home(after[j].t) == c ensures RepliedOn(after[..j], after[j].t) {
      if j < |before| {
        assert after[..j] == before[..j];
        assert after[j] == before[j];
      } else {
        assert after[..j] == before;
      }
    }
    forall i, j | 0 <= i < j < |after| && after[i].Response? && after[j].Response? ensures after[i].t != after[j].t {
      assert IsReplyTo(before[i], before[i].t);
    }
  }

  /** A step of handler `t` that sends at most `m` to `c` keeps what every wire and every other phase says. */
  ghost predicate HandlerMoves(w: World, w': World, t: Tid) {
    && t in w.phase && w'.sys == w.sys && w'.phase.Keys == w.phase.Keys && w'.phase == w.phase[t := w'.phase[t]]
    && (HasReplied(w.phase[t]) ==> HasReplied(w'.phase[t]))
    && (w.phase[t].Publishing? || w.phase[t].Done? ==> w'.phase[t].Publishing? || w'.phase[t].Done?)
    && w.published <= w'.published
  }

  lemma StillTruthful(home: Tid -> Conn, w: World, w': World, t: Tid, c: Conn, m: Message)
    requires HandlerMoves(w, w', t) && Truthful(home, w, c, m)
    ensures Truthful(home, w', c, m)
  {}

  lemma WiresKept(home: Tid -> Conn, w: World, w': World, t: Tid)
    requires HandlerMoves(w, w', t) && w'.wire == w.wire && forall c :: WireInv(home, w, c)
    ensures forall c :: WireInv(home, w', c)
  {
    forall c ensures WireInv(home, w', c) {
      assert WireInv(home, w, c);
      forall i | 0 <= i < |Wire(w, c)| ensures Truthful(home, w', c, Wire(w', c)[i]) {
        StillTruthful(home, w, w', t, c, Wire(w, c)[i]);
      }
    }
  }

  lemma WiresSent(home: Tid -> Conn, w: World, w': World, t: Tid, d: Conn, m: Message)
    requires HandlerMoves(w, w', t) && w'.wire == Send(w, d, m).wire && (forall c :: WireInv(home, w, c))
    requires Truthful(home, w', d, m)
    requires m.Event? && home(m.t) == d ==> RepliedOn(Wire(w, d), m.t)
    requires m.Response? ==> !RepliedOn(Wire(w, d), m.t)
    ensures forall c :: WireInv(home, w', c)
  {
    forall c ensures WireInv(home, w', c) {
      assert WireInv(home, w, c);
      forall i | 0 <= i < |Wire(w, c)| ensures Truthful(home, w', c, Wire(w, c)[i]) {
        StillTruthful(home, w, w', t, c, Wire(w, c)[i]);
      }
      if c == d {
        WireExtend(home, w, w', c, m);
      } else {
        assert Wire(w', c) == Wire(w, c);
      }
    }
  }

  lemma StillReplied(w: World, w': World, c: Conn, t: Tid)
    requires Wire(w, c) <= Wire(w', c) && RepliedOn(Wire(w, c), t)
    ensures RepliedOn(Wire(w', c), t)
  {
    var i :| 0 <= i < |Wire(w, c)| && IsReplyTo(Wire(w, c)[i], t);
    assert IsReplyTo(Wire(w', c)[i], t);
  }

  lemma OtherPhases(home: Tid -> Conn, w: World, w': World, t: Tid)
    requires HandlerMoves(w, w', t) && (forall c :: Wire(w, c) <= Wire(w', c))
    requires forall u | u in w.phase :: PhaseInv(home, w, u)
    requires w'.published == w.published || w'.published == w.published + [t]
    ensures forall u | u in w'.phase && u != t :: PhaseInv(home, w', u)
  {
    forall u | u in w'.phase && u != t ensures PhaseInv(home, w', u) {
      assert PhaseInv(home, w, u);
      if HasReplied(w.phase[u]) { StillReplied(w, w', home(u), u); }
      assert u in w'.published <==> u in w.published;
    }
  }

  lemma NotRepliedYet(home: Tid -> Conn, w: World, t: Tid)
    requires WireInv(home, w, home(t)) && t in w.phase && w.phase[t].Working?
    ensures !RepliedOn(Wire(w, home(t)), t)
  {
    forall i | 0 <= i < |Wire(w, home(t))| ensures !IsReplyTo(Wire(w, home(t))[i], t) {
      assert Truthful(home, w, home(t), Wire(w, home(t))[i]);
    }
  }

  lemma ReplyStep(home: Tid -> Conn, w: World, t: Tid)
    requires HandlersInv(home, w) && Able(w, Reply(t))
    ensures HandlersInv(home, Act(home, w, Reply(t)))
  {
    var w' := Act(home, w, Reply(t));
    var m := Response(t, w.sys.ops[t].pc.result);
    assert WireInv(home, w, home(t)) && PhaseInv(home, w, t);
    NotRepliedYet(home, w, t);
    WiresSent(home, w, w', t, home(t), m);
    OtherPhases(home, w, w', t);
    assert IsReplyTo(Wire(w', home(t))[|Wire(w, home(t))|], t);
    assert PhaseInv(home, w', t);
  }

  lemma DeliverStep(home: Tid -> Conn, w: World, t: Tid)
    requires HandlersInv(home, w) && Able(w, Deliver(t))
    ensures HandlersInv(home, Act(home, w, Deliver(t)))
  {
    var w' := Act(home, w, Deliver(t));
    assert PhaseInv(home, w, t);
    WiresSent(home, w, w', t, w.phase[t].targets[0].1, Event(t, w.sys.ops[t].pc.result.version));
    OtherPhases(home, w, w', t);
    StillReplied(w, w', home(t), t);
    assert PhaseInv(home, w', t);
  }

  lemma QuietStep(home: Tid -> Conn, w: World, a: Action)
    requires HandlersInv(home, w) && Able(w, a) && (a.FailReply? || a.Publish? || a.FailDelivery? || a.Finish?)
    ensures HandlersInv(home, Act(home, w, a))
  {
    var w' := Act(home, w, a);
    assert PhaseInv(home, w, a.t);
    WiresKept(home, w, w', a.t);
    assert forall c :: Wire(w, c) == Wire(w', c);
    OtherPhases(home, w, w', a.t);
    assert PhaseInv(home, w', a.t);
  }

  lemma HandlersStep(home: Tid -> Conn, w: World, a: Action, w': World)
    requires HandlersInv(home, w) && Moves(home, w, a, w')
    ensures HandlersInv(home, w')
  {
    match a {
      case Data(l) => DataMoves(home, w, l);
      case Reply(t) => ReplyStep(home, w, t);
      case Deliver(t) => DeliverStep(home, w, t);
      case Resubscribe(change) => ResubscribeKeeps(home, w, change);
      case _ => QuietStep(home, w, a);
    }
  }

  lemma SysMoves(home: Tid -> Conn, w: World, a: Action, w': World)
    requires Moves(home, w, a, w')
    ensures if a.Data? then StepTo(w.sys, a.l, w'.sys) else w'.sys == w.sys
  {}

  lemma HandlersInitially(init: string, home: Tid -> Conn, w: World)
    requires InitialWorld(init, w)
    ensures HandlersInv(home, w)
  {}

  lemma HandlersInvAlways(init: string, home: Tid -> Conn, worlds: seq<World>, actions: seq<Action>, i: nat)
    requires IsWorldRun(init, home, worlds, actions) && i < |worlds|
    ensures HandlersInv(home, worlds[i])
  {
    HandlersInitially(init, home, worlds[0]);
    var P := (w: World) => HandlersInv(home, w);
    forall w, a, w' | P(w) && MovesAt(home)(w, a, w') ensures P(w') { HandlersStep(home, w, a, w'); }
    Always(MovesAt(home), worlds, actions, P, i);
  }

  lemma DataLayerInvAlways(init: string, home: Tid -> Conn, worlds: seq<World>, actions: seq<Action>, i: nat)
    requires IsWorldRun(init, home, worlds, actions) && i < |worlds|
    ensures SystemInv(init, worlds[i].sys)
  {
    SystemInvInitial(init, worlds[0].sys);
    var P := (w: World) => SystemInv(init, w.sys);
    forall w, a, w' | P(w) && MovesAt(home)(w, a, w') ensures P(w') {
      SysMoves(home, w, a, w');
      if a.Data? { SystemInvStep(init, w.sys, a.l, w'.sys); }
    }
    Always(MovesAt(home), worlds, actions, P, i);
  }

  // ---- who is subscribed -----------------------------------------------------------------------------------

  /** Action `a` concerns the registration of `id`: a delivery to it fails, or it is subscribed or unsubscribed. */
  predicate Concerns(w: World, a: Action, id: Broker.Id) {
    match a
    case FailDelivery(t) => Serving(w, t) && w.phase[t].targets[0].0 == id
    case Resubscribe(change) => change.id == id
    case _ => false
  }

  /** A failed delivery to an id takes its registration away, a change that names an id does what it says, and
      nothing else touches the registration of that id. */
  lemma {:induction false} RegistrationStep(home: Tid -> Conn, w: World, a: Action, w': World, id: Broker.Id)
    requires Broker.Unique(w.subscribers) && Moves(home, w, a, w')
    ensures !Concerns(w, a, id) ==> Broker.CallbackOf(w'.subscribers, id) == Broker.CallbackOf(w.subscribers, id)
    ensures Concerns(w, a, id) && a.FailDelivery? ==> Broker.CallbackOf(w'.subscribers, id).None?
    ensures Concerns(w, a, id) && a.Resubscribe? ==>
              Broker.CallbackOf(w'.subscribers, id)
              == if a.change.Subscribe? then Some(a.change.deliver) else None
  {
    if a.FailDelivery? {
      Broker.ChangeMeaning(w.subscribers, Broker.Unsubscribe(w.phase[a.t].targets[0].0), id);
    } else if a.Resubscribe? {
      Broker.ChangeMeaning(w.subscribers, a.change, id);
    }
  }

  /** Nothing between moments `j` and `i` of the run concerns `id`. */
  ghost predicate Undisturbed(worlds: seq<World>, actions: seq<Action>, j: nat, i: nat, id: Broker.Id)
    requires i <= |actions| < |worlds|
  {
    forall k {:trigger actions[k]} | j <= k < i :: !Concerns(worlds[k], actions[k], id)
  }

  /** Whoever is subscribed stays subscribed, with the same callback, until its own delivery fails or its own
      subscription is changed. */
  lemma {:induction false} StaysSubscribed(init: string, home: Tid -> Conn, worlds: seq<World>, actions: seq<Action>,
      j: nat, i: nat, id: Broker.Id)
    requires IsWorldRun(init, home, worlds, actions) && j <= i < |worlds| && Undisturbed(worlds, actions, j, i, id)
    ensures Broker.CallbackOf(worlds[i].subscribers, id) == Broker.CallbackOf(worlds[j].subscribers, id)
    decreases i
  {
    if j < i {
      StaysSubscribed(init, home, worlds, actions, j, i - 1, id);
      UniqueAlways(init, home, worlds, actions, i - 1);
      assert MovesAt(home)(worlds[i - 1], actions[i - 1], worlds[i]);
      assert !Concerns(worlds[i - 1], actions[i - 1], id);
      RegistrationStep(home, worlds[i - 1], actions[i - 1], worlds[i], id);
    }
  }

  // ---- who gets an event -----------------------------------------------------------------------------------

  lemma UniqueAlways(init: string, home: Tid -> Conn, worlds: seq<World>, actions: seq<Action>, i: nat)
    requires IsWorldRun(init, home, worlds, actions) && i < |worlds|
    ensures Broker.Unique(worlds[i].subscribers)
  {
    var P := (w: World) => Broker.Unique(w.subscribers);
    forall w, a, w' | P(w) && MovesAt(home)(w, a, w') ensures P(w') { UniqueStep(home, w, a, w'); }
    Always(MovesAt(home), worlds, actions, P, i);
  }

  lemma UniqueStep(home: Tid -> Conn, w: World, a: Action, w': World)
    requires Broker.Unique(w.subscribers) && Moves(home, w, a, w')
    ensures Broker.Unique(w'.subscribers)
  {
    if a.FailDelivery? { Broker.ChangeMeaning(w.subscribers, Broker.Unsubscribe(w.phase[a.t].targets[0].0), ""); }
    if a.Resubscribe? { Broker.ChangeMeaning(w.subscribers, a.change, ""); }
  }

  ghost predicate EventOn(msgs: seq<Message>, t: Tid) {
    exists i :: 0 <= i < |msgs| && msgs[i].Event? && msgs[i].t == t
  }

  /** Subscriber `x` is still to be served by the publish of write `t`. */
  predicate Due(w: World, t: Tid, x: (Broker.Id, Conn)) {
    t in w.phase && w.phase[t].Publishing? && x in w.phase[t].targets
  }

  /** Step `k` tried to deliver the event of write `t` to `x`, and the callback raised. */
  predicate RaisesAt(worlds: seq<World>, actions: seq<Action>, k: nat, t: Tid, x: (Broker.Id, Conn)) {
    && k < |actions| && k < |worlds| && actions[k] == FailDelivery(t)
    && Serving(worlds[k], t) && worlds[k].phase[t].targets[0] == x
  }

  ghost predicate RaisedBetween(worlds: seq<World>, actions: seq<Action>, j: nat, i: nat, t: Tid,
      x: (Broker.Id, Conn))
  {
    exists k: nat :: j < k < i && RaisesAt(worlds, actions, k, t, x)
  }

  lemma EventStays(w: World, w': World, t: Tid, c: Conn)
    requires Wire(w, c) <= Wire(w', c) && EventOn(Wire(w, c), t)
    ensures EventOn(Wire(w', c), t)
  {
    var i :| 0 <= i < |Wire(w, c)| && Wire(w, c)[i].Event? && Wire(w, c)[i].t == t;
    assert Wire(w', c)[i].t == t;
  }

  lemma WiresGrow(home: Tid -> Conn, w: World, a: Action, w': World, c: Conn)
    requires Moves(home, w, a, w')
    ensures Wire(w, c) <= Wire(w', c)
  {}

  /** A subscriber that is due stays due until it is served or its callback raises. */
  lemma ServeStep(home: Tid -> Conn, w: World, a: Action, w': World, t: Tid, x: (Broker.Id, Conn))
    requires Moves(home, w, a, w') && Due(w, t, x)
    ensures Due(w', t, x) || EventOn(Wire(w', x.1), t)
            || (a == FailDelivery(t) && Serving(w, t) && w.phase[t].targets[0] == x)
  {
    if a == Deliver(t) && x == w.phase[t].targets[0] {
      assert Wire(w', x.1)[|Wire(w, x.1)|] == Event(t, w.sys.ops[t].pc.result.version);
    }
  }

  lemma {:induction false} ServedOrDue(init: string, home: Tid -> Conn, worlds: seq<World>, actions: seq<Action>,
      j: nat, i: nat, t: Tid, x: (Broker.Id, Conn))
    requires IsWorldRun(init, home, worlds, actions) && j < i < |worlds|
    requires actions[j] == Publish(t) && x in worlds[j].subscribers
    ensures Due(worlds[i], t, x) || EventOn(Wire(worlds[i], x.1), t) || RaisedBetween(worlds, actions, j, i, t, x)
    decreases i
  {
    assert MovesAt(home)(worlds[i - 1], actions[i - 1], worlds[i]);
    if j < i - 1 {
      ServedOrDue(init, home, worlds, actions, j, i - 1, t, x);
      if Due(worlds[i - 1], t, x) {
        ServeStep(home, worlds[i - 1], actions[i - 1], worlds[i], t, x);
        if RaisesAt(worlds, actions, i - 1, t, x) { assert j < i - 1 < i; }
      } else if EventOn(Wire(worlds[i - 1], x.1), t) {
        WiresGrow(home, worlds[i - 1], actions[i - 1], worlds[i], x.1);
        EventStays(worlds[i - 1], worlds[i], t, x.1);
      } else {
        var k: nat :| j < k < i - 1 && RaisesAt(worlds, actions, k, t, x);
        assert j < k < i;
      }
    }
  }

  /** Whoever is subscribed when a publish begins has the event of that write on its wire when the publish has
      finished, unless its delivery raised; what happens to its subscription meanwhile does not matter. */
  lemma {:induction false} EveryoneServed(init: string, home: Tid -> Conn, worlds: seq<World>, actions: seq<Action>,
      j: nat, i: nat, t: Tid, id: Broker.Id, c: Conn)
    requires IsWorldRun(init, home, worlds, actions) && j < i < |worlds| && actions[j] == Publish(t)
    requires Broker.CallbackOf(worlds[j].subscribers, id) == Some(c)
    requires t in worlds[i].phase && worlds[i].phase[t].Done?
    ensures EventOn(Wire(worlds[i], c), t) || RaisedBetween(worlds, actions, j, i, t, (id, c))
  {
    Broker.CallbackListed(worlds[j].subscribers, id, c);
    ServedOrDue(init, home, worlds, actions, j, i, t, (id, c));
  }

  /** Once subscribed, always served: whoever is subscribed at moment `s`, and is neither unsubscribed nor failed
      until a later publish begins, has the event of that write when the publish has finished, unless its delivery
      raised; whatever happens to all other subscribers. */
  lemma {:induction false} SubscriberServed(init: string, home: Tid -> Conn, worlds: seq<World>, actions: seq<Action>,
      s: nat, j: nat, i: nat, t: Tid, id: Broker.Id, c: Conn)
    requires IsWorldRun(init, home, worlds, actions) && s <= j < i < |worlds| && actions[j] == Publish(t)
    requires Broker.CallbackOf(worlds[s].subscribers, id) == Some(c) && Undisturbed(worlds, actions, s, j, id)
    requires t in worlds[i].phase && worlds[i].phase[t].Done?
    ensures EventOn(Wire(worlds[i], c), t) || RaisedBetween(worlds, actions, j, i, t, (id, c))
  {
    StaysSubscribed(init, home, worlds, actions, s, j, id);
    EveryoneServed(init, home, worlds, actions, j, i, t, id, c);
  }

  /** Step `j` began to publish write `t` while `x` was subscribed. */
  ghost predicate SnapshotAt(worlds: seq<World>, actions: seq<Action>, j: nat, t: Tid, x: (Broker.Id, Conn)) {
    && j < |actions| && j < |worlds| && actions[j] == Publish(t)
    && Broker.CallbackOf(worlds[j].subscribers, x.0) == Some(x.1)
  }

  lemma {:induction false} DueFromSnapshot(init: string, home: Tid -> Conn, worlds: seq<World>, actions: seq<Action>,
      i: nat, t: Tid, x: (Broker.Id, Conn)) returns (j: nat)
    requires IsWorldRun(init, home, worlds, actions) && i < |worlds| && Due(worlds[i], t, x)
    ensures j < i && SnapshotAt(worlds, actions, j, t, x)
  {
    assert i > 0;
    assert MovesAt(home)(worlds[i - 1], actions[i - 1], worlds[i]);
    if actions[i - 1] == Publish(t) {
      j := i - 1;
      UniqueAlways(init, home, worlds, actions, j);
      Broker.ListedIsCallback(worlds[j].subscribers, x.0, x.1);
    } else {
      j := DueFromSnapshot(init, home, worlds, actions, i - 1, t, x);
    }
  }

  /** And nobody else gets it: a connection that has the event was subscribed when that write's publish began. */
  lemma {:induction false} OnlySubscribersServed(init: string, home: Tid -> Conn, worlds: seq<World>,
      actions: seq<Action>, i: nat, t: Tid, c: Conn) returns (j: nat, id: Broker.Id)
    requires IsWorldRun(init, home, worlds, actions) && i < |worlds| && EventOn(Wire(worlds[i], c), t)
    ensures j < i && SnapshotAt(worlds, actions, j, t, (id, c))
  {
    assert i > 0;
    var w, a, w' := worlds[i - 1], actions[i - 1], worlds[i];
    assert MovesAt(home)(w, a, w');
    if EventOn(Wire(w, c), t) {
      j, id := OnlySubscribersServed(init, home, worlds, actions, i - 1, t, c);
    } else {
      NewEvent(home, w, a, w', t, c);
      id := w.phase[t].targets[0].0;
      j := DueFromSnapshot(init, home, worlds, actions, i - 1, t, (id, c));
    }
  }

  lemma NewEvent(home: Tid -> Conn, w: World, a: Action, w': World, t: Tid, c: Conn)
    requires Moves(home, w, a, w') && EventOn(Wire(w', c), t) && !EventOn(Wire(w, c), t)
    ensures a == Deliver(t) && Serving(w, t) && w.phase[t].targets[0].1 == c
  {
    var i :| 0 <= i < |Wire(w', c)| && Wire(w', c)[i].Event? && Wire(w', c)[i].t == t;
    assert i >= |Wire(w, c)|;
  }

  // ---- commit and publish order ---------------------------------------------------------------------------

  /** An event announces a version that was committed before, by a line of its writer; and on the writer's
      own connection the reply to that write comes before it. */
  ghost predicate EventFollowsCommit(home: Tid -> Conn, w: World, c: Conn, j: nat)
    requires j < |Wire(w, c)|
  {
    var m := Wire(w, c)[j];
    && m.Event? && m.t in w.sys.ops && w.sys.ops[m.t].op.Write?
    && 1 <= m.version <= |Log(w.sys.order)| && IsLineOf(Log(w.sys.order)[m.version - 1], w.sys.ops[m.t].op)
    && (home(m.t) == c ==> RepliedOn(Wire(w, c)[..j], m.t))
  }

  lemma {:induction false} EventsFollowCommits(init: string, home: Tid -> Conn, worlds: seq<World>,
      actions: seq<Action>, i: nat, c: Conn, j: nat)
    requires IsWorldRun(init, home, worlds, actions) && i < |worlds|
    requires j < |Wire(worlds[i], c)| && Wire(worlds[i], c)[j].Event?
    ensures EventFollowsCommit(home, worlds[i], c, j)
  {
    HandlersInvAlways(init, home, worlds, actions, i);
    DataLayerInvAlways(init, home, worlds, actions, i);
    assert WireInv(home, worlds[i], c);
    EventTruth(home, worlds[i], c, j);
    ReturnedEntry(init, worlds[i].sys, Wire(worlds[i], c)[j].t);
    EventMeaning(init, home, worlds[i], c, j);
  }

  lemma EventMeaning(init: string, home: Tid -> Conn, w: World, c: Conn, j: nat)
    requires j < |Wire(w, c)| && Wire(w, c)[j].Event?
    requires var m := Wire(w, c)[j];
             && HasReturned(w.sys, m.t) && w.sys.ops[m.t].pc.result == Committed(m.version)
             && AnswerHolds(init, Log(w.sys.order), w.sys.ops[m.t].op, w.sys.ops[m.t].pc.result)
             && (home(m.t) == c ==> RepliedOn(Wire(w, c)[..j], m.t))
    ensures EventFollowsCommit(home, w, c, j)
  {}

  lemma EventTruth(home: Tid -> Conn, w: World, c: Conn, j: nat)
    requires WireInv(home, w, c) && j < |Wire(w, c)| && Wire(w, c)[j].Event?
    ensures var m := Wire(w, c)[j];
            && HasReturned(w.sys, m.t) && w.sys.ops[m.t].pc.result == Committed(m.version)
            && (home(m.t) == c ==> RepliedOn(Wire(w, c)[..j], m.t))
  {
    assert Truthful(home, w, c, Wire(w, c)[j]);
  }

  /** Every reply on a wire was sent by the handler of its operation and is what the atomic log answered. */
  lemma {:induction false} RepliesAreAnswers(
    init: string, home: Tid -> Conn, worlds: seq<World>, actions: seq<Action>, i: nat, c: Conn, j: nat)
    requires IsWorldRun(init, home, worlds, actions) && i < |worlds|
    requires j < |Wire(worlds[i], c)| && Wire(worlds[i], c)[j].Response?
    ensures var w := worlds[i]; var m := Wire(w, c)[j];
            m.t in w.sys.ops && home(m.t) == c && AnswerHolds(init, Log(w.sys.order), w.sys.ops[m.t].op, m.result)
  {
    HandlersInvAlways(init, home, worlds, actions, i);
    DataLayerInvAlways(init, home, worlds, actions, i);
    ReplyMeaning(init, home, worlds[i], c, j);
  }

  lemma ReplyMeaning(init: string, home: Tid -> Conn, w: World, c: Conn, j: nat)
    requires HandlersInv(home, w) && DataInv(init, w.sys) && j < |Wire(w, c)| && Wire(w, c)[j].Response?
    ensures var m := Wire(w, c)[j];
            m.t in w.sys.ops && home(m.t) == c && AnswerHolds(init, Log(w.sys.order), w.sys.ops[m.t].op, m.result)
  {
    assert WireInv(home, w, c);
    assert Truthful(home, w, c, Wire(w, c)[j]);
    ReturnedEntry(init, w.sys, Wire(w, c)[j].t);
  }

  /** No version is published twice. */
  lemma {:induction false} VersionsPublishedOnce(init: string, home: Tid -> Conn, worlds: seq<World>,
      actions: seq<Action>, i: nat, a: nat, b: nat)
    requires IsWorldRun(init, home, worlds, actions) && i < |worlds|
    requires a < b < |worlds[i].published|
    ensures var w := worlds[i];
            && CommittedWrite(w, w.published[a]) && CommittedWrite(w, w.published[b])
            && w.sys.ops[w.published[a]].pc.result != w.sys.ops[w.published[b]].pc.result
  {
    HandlersInvAlways(init, home, worlds, actions, i);
    DataLayerInvAlways(init, home, worlds, actions, i);
    PublishedApart(init, home, worlds[i], a, b);
  }

  lemma {:induction false} PublishedApart(init: string, home: Tid -> Conn, w: World, a: nat, b: nat)
    requires HandlersInv(home, w) && DataInv(init, w.sys) && a < b < |w.published|
    ensures CommittedWrite(w, w.published[a]) && CommittedWrite(w, w.published[b])
    ensures w.sys.ops[w.published[a]].pc.result != w.sys.ops[w.published[b]].pc.result
  {
    assert PhaseInv(home, w, w.published[a]) && PhaseInv(home, w, w.published[b]);
    DistinctCommits(init, w.sys, w.published[a], w.published[b]);
  }

  lemma DistinctCommits(init: string, s: State, t: Tid, u: Tid)
    requires DataInv(init, s) && HasReturned(s, t) && HasReturned(s, u) && t != u
    requires s.ops[t].pc.result.Committed? && s.ops[u].pc.result.Committed?
    ensures s.ops[t].pc.result != s.ops[u].pc.result
  {
    ReturnedIsAnswered(init, s, t);
    ReturnedIsAnswered(init, s, u);
    var j :| At(s.order, t, j) && s.ops[t].pc == Returned(s.order[j].result);
    var k :| At(s.order, u, k) && s.ops[u].pc == Returned(s.order[k].result);
    if j < k { CommitsApart(init, s.order, j, k); } else { CommitsApart(init, s.order, k, j); }
  }

  predicate Quiet(w: World) {
    forall t | t in w.phase :: w.phase[t].Done? || w.phase[t].ReplyFailed?
  }

  /** Publishing is skipped exactly when the reply could not be sent: once every handler is done, a committed
      write has been published if and only if the reply to it is on its client's wire. */
  lemma {:induction false} PublishedIffReplied(init: string, home: Tid -> Conn, worlds: seq<World>,
      actions: seq<Action>, i: nat, t: Tid)
    requires IsWorldRun(init, home, worlds, actions) && i < |worlds|
    requires Quiet(worlds[i]) && CommittedWrite(worlds[i], t)
    ensures t in worlds[i].published <==> RepliedOn(Wire(worlds[i], home(t)), t)
  {
    HandlersInvAlways(init, home, worlds, actions, i);
    var w := worlds[i];
    assert PhaseInv(home, w, t) && WireInv(home, w, home(t));
    forall k | 0 <= k < |Wire(w, home(t))| ensures Truthful(home, w, home(t), Wire(w, home(t))[k]) {}
  }
  // ---- a committed write that is not published ---------------------------------------------------------------

  lemma ExtendWorlds(init: string, home: Tid -> Conn, worlds: seq<World>, actions: seq<Action>, a: Action)
    returns (worlds': seq<World>, actions': seq<Action>)
    requires IsWorldRun(init, home, worlds, actions) && Able(worlds[|actions|], a)
    ensures IsWorldRun(init, home, worlds', actions') && |actions'| == |actions| + 1
    ensures worlds'[|actions'|] == Act(home, worlds[|actions|], a)
  {
    worlds', actions' := worlds + [Act(home, worlds[|actions|], a)], actions + [a];
    Longer(MovesAt(home), worlds, actions, a, Act(home, worlds[|actions|], a));
  }

  /** Any run in which the lock is free goes on with a write that is committed and never published, because its
      reply cannot be sent; if it was the only operation, every handler has ended then. */
  lemma {:induction false} CommittedUnpublished(init: string, home: Tid -> Conn, worlds: seq<World>,
      actions: seq<Action>, t: Tid)
    returns (worlds': seq<World>, actions': seq<Action>)
    requires IsWorldRun(init, home, worlds, actions)
    requires var w := worlds[|actions|]; Writer(w, t, Idle) && w.sys.lock.Free()
    ensures IsWorldRun(init, home, worlds', actions')
    ensures var w := worlds'[|actions'|];
            CommittedWrite(w, t) && t !in w.published && (w.phase.Keys == {t} ==> Quiet(w))
  {
    worlds', actions' := CommitAlone(init, home, worlds, actions, t);
    worlds', actions' := ExtendWorlds(init, home, worlds', actions', FailReply(t));
    HandlersInvAlways(init, home, worlds', actions', |actions'|);
    assert PhaseInv(home, worlds'[|actions'|], t);
  }

  /** The handler of write `t` is still working, and its thread is at `pc`. */
  predicate Writer(w: World, t: Tid, pc: Pc) {
    && t in w.phase && w.phase[t].Working?
    && t in w.sys.ops && w.sys.ops[t].op.Write? && w.sys.ops[t].pc == pc
  }

  lemma {:induction false} CommitAlone(init: string, home: Tid -> Conn, worlds: seq<World>, actions: seq<Action>,
      t: Tid)
    returns (worlds': seq<World>, actions': seq<Action>)
    requires IsWorldRun(init, home, worlds, actions)
    requires var w := worlds[|actions|]; Writer(w, t, Idle) && w.sys.lock.Free()
    ensures IsWorldRun(init, home, worlds', actions')
    ensures var w := worlds'[|actions'|];
            CommittedWrite(w, t) && Writer(w, t, w.sys.ops[t].pc) && w.phase == worlds[|actions|].phase
  {
    var l := Label(worlds[|actions|].sys.now, Invoke(t, 10));
    worlds', actions' := ExtendWorlds(init, home, worlds, actions, Data(l));
    worlds', actions' := CommitCalled(init, home, worlds', actions', t);
  }

  lemma {:induction false} CommitCalled(init: string, home: Tid -> Conn, worlds: seq<World>, actions: seq<Action>,
      t: Tid)
    returns (worlds': seq<World>, actions': seq<Action>)
    requires IsWorldRun(init, home, worlds, actions)
    requires var w := worlds[|actions|]; Writer(w, t, Start) && w.sys.lock.Free()
    ensures IsWorldRun(init, home, worlds', actions')
    ensures var w := worlds'[|actions'|];
            CommittedWrite(w, t) && Writer(w, t, w.sys.ops[t].pc) && w.phase == worlds[|actions|].phase
  {
    var now := worlds[|actions|].sys.now;
    worlds', actions' := ExtendWorlds(init, home, worlds, actions, Data(Label(now, Pass(t))));
    assert Writer(worlds'[|actions'|], t, Holding);
    worlds', actions' := ExtendWorlds(init, home, worlds', actions', Data(Label(now, AccessFile(t, ""))));
    worlds', actions' := CommitAppended(init, home, worlds', actions', t);
  }

  lemma {:induction false} CommitAppended(init: string, home: Tid -> Conn, worlds: seq<World>, actions: seq<Action>,
      t: Tid)
    returns (worlds': seq<World>, actions': seq<Action>)
    requires IsWorldRun(init, home, worlds, actions) && Writer(worlds[|actions|], t, FileAppended(""))
    ensures IsWorldRun(init, home, worlds', actions')
    ensures var w := worlds'[|actions'|];
            CommittedWrite(w, t) && Writer(w, t, w.sys.ops[t].pc) && w.phase == worlds[|actions|].phase
  {
    var s := worlds[|actions|].sys;
    worlds', actions' := ExtendWorlds(init, home, worlds, actions, Data(Label(s.now, AccessVersion(t))));
    assert Writer(worlds'[|actions'|], t, Finished(Committed(s.version + 1)));
    var pick: Tid := 0;
    if s.lock.writersOk != {} { pick :| pick in s.lock.writersOk; }
    worlds', actions' := ExtendWorlds(init, home, worlds', actions', Data(Label(s.now, Release(t, pick))));
  }
}
