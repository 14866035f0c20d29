/** Server and nodes together: any number of client nodes, each with its connection and its cached snapshot, send
    requests to the handlers of one server, which run them as operations of the data layer, reply with what these
    returned and announce committed writes. Operations of other clients and every network failure happen in between. */
module Cluster {
  import opened FileLines
  import opened ReadWriteLocks
  import opened LockSystem
  import opened Linearizability
  import opened Options
  import opened Runs
  import CallAnswers
  import Net = Correlation
  import Node = ClientCache
  import M = Messages
  import O = OperationMessages

  type NodeId = nat

  /** Request number `j` on connection `c` of node `n`. */
  datatype Job = Job(n: NodeId, c: Net.Conn, j: nat)

  /** `ran` says which operation the server ran for a request; `heard` is the event in the hands of a listener;
      `shown` says which calls have come back to the user. */
  datatype World = World(
    sys: State, nets: map<NodeId, Net.State>, ran: map<Job, Tid>, heard: map<NodeId, M.Body>,
    views: map<NodeId, Node.Cache>, shown: set<(NodeId, Net.CallId)>)

  datatype Move =
    | Data(l: Label)                                     // any step of the data layer
    | Run(n: NodeId, c: Net.Conn, l: Label)              // a handler runs an operation for the request it has taken
    | Network(n: NodeId, x: Net.Step)                    // any step of a connection, its callers or its handler
    | Show(n: NodeId, k: Net.CallId, i: Node.Input)      // a call has returned and updates the view
    | Notice(n: NodeId)                                  // the listener's event callback updates the view

  function Channel(w: World, n: NodeId, c: Net.Conn): Net.Channel
    requires n in w.nets
  {
    Net.Chan(w.nets[n], c)
  }

  predicate Serving(w: World, n: NodeId, c: Net.Conn) {
    && n in w.nets && Channel(w, n, c).taken == Channel(w, n, c).answered + 1
    && Channel(w, n, c).answered < |Channel(w, n, c).up|
  }

  predicate AsksOperation(b: M.Body) { M.HasAction(b, "READ") || M.HasAction(b, "WRITE") }

  /** A handler replies to a request with the outcome of the operation it ran for it. If it ran none, because nobody
      is logged in, the reply is an error; requests that ask for no operation are answered in any way. */
  predicate MayReply(w: World, n: NodeId, c: Net.Conn, body: M.Body)
    requires Serving(w, n, c)
  {
    var job := Job(n, c, Channel(w, n, c).answered);
    if job in w.ran then
      HasReturned(w.sys, w.ran[job]) && body == O.Reply(w.sys.ops[w.ran[job]].op, w.sys.ops[w.ran[job]].pc.result)
    else AsksOperation(Channel(w, n, c).up[job.j].body) ==> !M.IsOk(body)
  }

  /** An event announces a committed write of the log. */
  ghost predicate Announced(s: State, body: M.Body) {
    exists t :: AnnouncedBy(s, body, t)
  }

  predicate AnnouncedBy(s: State, body: M.Body, t: Tid) {
    && HasReturned(s, t) && s.ops[t].op.Write? && s.ops[t].pc.result.Committed?
    && body == O.Announce(s.ops[t].op, s.ops[t].pc.result.version)
  }

  /** The event that step `x` hands to the callback of a node. */
  function Hears(s: Net.State, x: Net.Step): Option<M.Body>
    requires Net.Enabled(s, x)
  {
    if !x.Receive? then None else
    match Net.Chan(s, s.conn).down[Net.Chan(s, s.conn).read]
    case Event(body) => Some(body)
    case Response(_, _) => None
  }

  predicate GotOk(c: Net.Call) { c.pc.Done? && c.pc.answer.Answered? && M.IsOk(c.pc.answer.body) }

  /** What the view is told when call `c` has returned. */
  predicate ShowsAs(c: Net.Call, i: Node.Input) {
    && c.pc.Done? && !c.relogin
    && match i
       case OnRead(ok, content, v) =>
         M.HasAction(c.msg.body, "READ") && (ok <==> GotOk(c))
         && (ok ==> M.Get(c.pc.answer.body, "version") == Some(M.Number(v))
                    && M.Get(c.pc.answer.body, "content") == Some(M.JsonText(content)))
       case OnWrite(ok, v) =>
         M.HasAction(c.msg.body, "WRITE") && (ok <==> GotOk(c))
         && (ok ==> M.Get(c.pc.answer.body, "version") == Some(M.Number(v)))
       case OnLogin(ok, v) =>
         M.HasAction(c.msg.body, "LOGIN") && (ok <==> GotOk(c))
         && (ok ==> M.Get(c.pc.answer.body, "version") == Some(M.Number(v)))
       case OnLogout => M.HasAction(c.msg.body, "LOGOUT")
       case OnEvent(_) => false
  }

  ghost predicate Able(w: World, m: Move) {
    match m
    case Data(l) => Enabled(w.sys, l)
    case Run(n, c, l) =>
      && Serving(w, n, c) && Job(n, c, Channel(w, n, c).answered) !in w.ran
      && Enabled(w.sys, l) && l.step.Invoke?
      && O.Requests(Channel(w, n, c).up[Channel(w, n, c).answered].body, w.sys.ops[l.step.t].op)
    case Network(n, x) =>
      && n in w.nets && Net.Enabled(w.nets[n], x)
      && (x.Respond? ==> MayReply(w, n, x.c, x.body))
      && (x.Publish? ==> Announced(w.sys, x.body))
      && (x.Receive? || x.Disconnect? ==> n !in w.heard)
    case Show(n, k, i) =>
      && n in w.nets && n in w.views && k in w.nets[n].calls && (n, k) !in w.shown && ShowsAs(w.nets[n].calls[k], i)
    case Notice(n) => n in w.views && n in w.heard && M.EventVersion(w.heard[n]).Some?
  }

  function Act(w: World, m: Move): World
    requires Able(w, m)
  {
    match m
    case Data(l) => w.(sys := Next(w.sys, l))
    case Run(n, c, l) =>
      w.(sys := Next(w.sys, l), ran := w.ran[Job(n, c, Channel(w, n, c).answered) := l.step.t])
    case Network(n, x) =>
      var heard := if Hears(w.nets[n], x).Some? then w.heard[n := Hears(w.nets[n], x).value] else w.heard;
      w.(nets := w.nets[n := Net.Next(w.nets[n], x)], heard := heard)
    case Show(n, k, i) => w.(views := w.views[n := Node.Handle(w.views[n], i)], shown := w.shown + {(n, k)})
    case Notice(n) =>
      var i := Node.OnEvent(M.EventVersion(w.heard[n]).value);
      w.(views := w.views[n := Node.Handle(w.views[n], i)], heard := w.heard - {n})
  }

  ghost predicate Moves(w: World, m: Move, w': World) {
    Able(w, m) && w' == Act(w, m)
  }

  ghost predicate InitialWorld(init: string, w: World) {
    && Initial(init, w.sys) && (forall n | n in w.nets :: Net.Initial(w.nets[n])) && w.ran == map[]
    && w.heard == map[] && (forall n | n in w.views :: w.views[n] == Node.EMPTY) && w.shown == {}
  }

  ghost predicate IsWorldRun(init: string, ws: seq<World>, ms: seq<Move>) {
    Follows(Moves, ws, ms) && InitialWorld(init, ws[0])
  }

  // ---- the invariant ---------------------------------------------------------------------------------------

  /** The operation run for a request has been called, and is the one the request asks for. */
  ghost predicate RanFits(w: World, job: Job)
    requires job in w.ran
  {
    var t := w.ran[job];
    && job.n in w.nets
    && var ch := Channel(w, job.n, job.c);
       && job.j <= ch.answered && job.j < |ch.up|
       && t in w.sys.ops && !w.sys.ops[t].pc.Idle? && O.Requests(ch.up[job.j].body, w.sys.ops[t].op)
  }

  /** A request that has been answered was answered with what its operation returned, and otherwise, if it asked
      for an operation, with an error. */
  ghost predicate AnswerFits(w: World, job: Job)
    requires job.n in w.nets
  {
    var ch := Channel(w, job.n, job.c);
    job.j < ch.answered && job.j < |ch.up| && job.j < |Net.Replies(ch.down)| ==>
      var body := Net.Replies(ch.down)[job.j].body;
      if job in w.ran then
        HasReturned(w.sys, w.ran[job]) && body == O.Reply(w.sys.ops[w.ran[job]].op, w.sys.ops[w.ran[job]].pc.result)
      else AsksOperation(ch.up[job.j].body) ==> !M.IsOk(body)
  }

  ghost predicate ServerFits(w: World) {
    && (forall job | job in w.ran :: RanFits(w, job))
    && (forall job: Job | job.n in w.nets :: AnswerFits(w, job))
  }

  ghost predicate NetsFit(w: World) {
    forall n | n in w.nets :: Net.Inv(w.nets[n])
  }

  ghost predicate ViewsHold(init: string, w: World) {
    forall n | n in w.views :: Node.CacheHolds(init, Log(w.sys.order), w.views[n])
  }

  ghost predicate WorldInv(init: string, w: World) {
    SystemInv(init, w.sys) && NetsFit(w) && ServerFits(w) && EventsTrue(w) && ViewsHold(init, w)
  }

  ghost predicate EventsOn(s: State, down: seq<Net.ToClient>) {
    forall i | 0 <= i < |down| && down[i].Event? :: Announced(s, down[i].body)
  }

  /** Every event on a wire or in a listener's hands announces a committed write. */
  ghost predicate EventsTrue(w: World) {
    && (forall n, c | n in w.nets :: EventsOn(w.sys, Channel(w, n, c).down))
    && (forall n | n in w.heard :: Announced(w.sys, w.heard[n]))
  }

  lemma SysStep(s: State, l: Label)
    requires Enabled(s, l)
    ensures SysLater(s, Next(s, l))
  {}

  /** A later state of the data layer: the order only grows, operations are not called back, and answers stay. */
  ghost predicate SysLater(s: State, s': State) {
    && s.order <= s'.order && s.ops.Keys == s'.ops.Keys
    && forall t | t in s.ops ::
         && s'.ops[t].op == s.ops[t].op && (s'.ops[t].pc.Idle? ==> s.ops[t].pc.Idle?)
         && (s.ops[t].pc.Returned? ==> s'.ops[t] == s.ops[t])
  }

  lemma RanKept(w: World, w': World, job: Job)
    requires job in w.ran && RanFits(w, job) && SysLater(w.sys, w'.sys) && w'.nets == w.nets
    requires job in w'.ran && w'.ran[job] == w.ran[job]
    ensures RanFits(w', job)
  {}

  lemma AnswerKept(w: World, w': World, job: Job)
    requires job.n in w.nets && AnswerFits(w, job) && SysLater(w.sys, w'.sys) && w'.nets == w.nets
    requires job in w.ran ==> job in w'.ran && w'.ran[job] == w.ran[job] && w.ran[job] in w.sys.ops
    requires job in w'.ran && job !in w.ran ==> job.j >= Channel(w, job.n, job.c).answered
    ensures AnswerFits(w', job)
  {}

  lemma ServerKept(w: World, w': World)
    requires ServerFits(w) && SysLater(w.sys, w'.sys) && w'.nets == w.nets && w'.ran == w.ran
    ensures ServerFits(w')
  {
    forall job | job in w'.ran ensures RanFits(w', job) { RanKept(w, w', job); }
    forall job: Job | job.n in w'.nets ensures AnswerFits(w', job) {
      if job in w.ran { assert RanFits(w, job); }
      AnswerKept(w, w', job);
    }
  }

  lemma RunStep(w: World, w': World, n: NodeId, c: Net.Conn, l: Label)
    requires ServerFits(w) && Able(w, Run(n, c, l))
    requires w' == w.(sys := Next(w.sys, l), ran := w.ran[Job(n, c, Channel(w, n, c).answered) := l.step.t])
    ensures ServerFits(w')
  {
    SysStep(w.sys, l);
    RanJobs(w, w', Job(n, c, Channel(w, n, c).answered), l.step.t);
  }

  lemma RanJobs(w: World, w': World, added: Job, t: Tid)
    requires ServerFits(w) && SysLater(w.sys, w'.sys) && w'.nets == w.nets && w'.ran == w.ran[added := t]
    requires added !in w.ran && added.n in w.nets && added.j == Channel(w, added.n, added.c).answered
    requires added.j < |Channel(w, added.n, added.c).up| && t in w'.sys.ops && !w'.sys.ops[t].pc.Idle?
    requires O.Requests(Channel(w, added.n, added.c).up[added.j].body, w'.sys.ops[t].op)
    ensures ServerFits(w')
  {
    forall job | job in w'.ran ensures RanFits(w', job) {
      if job in w.ran { RanKept(w, w', job); }
    }
    AnswersKept(w, w', added);
  }

  lemma AnswersKept(w: World, w': World, added: Job)
    requires ServerFits(w) && SysLater(w.sys, w'.sys) && w'.nets == w.nets
    requires added !in w.ran && added in w'.ran && w'.ran == w.ran[added := w'.ran[added]]
    requires added.n in w.nets && added.j == Channel(w, added.n, added.c).answered
    ensures forall job: Job | job.n in w'.nets :: AnswerFits(w', job)
  {
    forall job: Job | job.n in w'.nets ensures AnswerFits(w', job) {
      assert AnswerFits(w, job) && (job in w.ran ==> RanFits(w, job));
      AnswerKept(w, w', job);
    }
  }

  lemma NetworkStep(w: World, w': World, n: NodeId, x: Net.Step)
    requires NetsFit(w) && ServerFits(w) && Able(w, Network(n, x))
    requires w' == w.(nets := w.nets[n := Net.Next(w.nets[n], x)], heard := w'.heard)
    ensures ServerFits(w')
  {
    NetGrowsStep(w.nets[n], x, w'.nets[n]);
    JobsKept(w, w', n, x);
  }

  /** What step `x` does to the answers on each connection of a node. */
  ghost predicate NetGrows(s: Net.State, x: Net.Step, s': Net.State) {
    forall c :: Net.ChannelFits(Net.Chan(s, c)) && Net.AnswersGrow(Net.Chan(s, c), Net.Chan(s', c), Net.ReplyOn(x, c))
  }

  lemma NetGrowsStep(s: Net.State, x: Net.Step, s': Net.State)
    requires Net.Inv(s) && Net.StepTo(s, x, s')
    ensures NetGrows(s, x, s')
  {
    forall c ensures Net.ChannelFits(Net.Chan(s, c))
        && Net.AnswersGrow(Net.Chan(s, c), Net.Chan(s', c), Net.ReplyOn(x, c))
    {
      assert Net.ChannelFits(Net.Chan(s, c));
      Net.AnsweredStep(s, x, s', c);
    }
  }

  lemma JobsKept(w: World, w': World, n: NodeId, x: Net.Step)
    requires ServerFits(w) && n in w.nets && n in w'.nets
    requires w' == w.(nets := w.nets[n := w'.nets[n]], heard := w'.heard)
    requires NetGrows(w.nets[n], x, w'.nets[n])
    requires x.Respond? ==> Serving(w, n, x.c) && MayReply(w, n, x.c, x.body)
    ensures ServerFits(w')
  {
    forall job: Job | job.n in w.nets ensures AnswerFits(w', job) && (job in w.ran ==> RanFits(w', job)) {
      assert AnswerFits(w, job) && (job in w.ran ==> RanFits(w, job));
      if job.n == n {
        assert Net.AnswersGrow(Channel(w, n, job.c), Channel(w', n, job.c), Net.ReplyOn(x, job.c));
        NetworkJob(w, w', job, Net.ReplyOn(x, job.c));
      }
    }
    forall job | job in w'.ran ensures RanFits(w', job) { assert RanFits(w, job); }
  }

  /** One request while at most the reply to the first unanswered one is added. */
  lemma NetworkJob(w: World, w': World, job: Job, reply: Option<M.Body>)
    requires w'.sys == w.sys && w'.ran == w.ran && job.n in w.nets && job.n in w'.nets
    requires AnswerFits(w, job) && (job in w.ran ==> RanFits(w, job))
    requires Net.ChannelFits(Channel(w, job.n, job.c))
    requires Net.AnswersGrow(Channel(w, job.n, job.c), Channel(w', job.n, job.c), reply)
    requires reply.Some? ==> Serving(w, job.n, job.c) && MayReply(w, job.n, job.c, reply.value)
    ensures AnswerFits(w', job) && (job in w.ran ==> RanFits(w', job))
  {}

  lemma NetsStep(w: World, m: Move)
    requires NetsFit(w) && Able(w, m)
    ensures NetsFit(Act(w, m))
  {
    if m.Network? { Net.InvStep(w.nets[m.n], m.x, Net.Next(w.nets[m.n], m.x)); }
  }

  lemma ServerStep(w: World, m: Move)
    requires NetsFit(w) && ServerFits(w) && Able(w, m)
    ensures ServerFits(Act(w, m))
  {
    match m {
      case Data(l) => SysStep(w.sys, l); ServerKept(w, Act(w, m));
      case Run(n, c, l) => RunStep(w, Act(w, m), n, c, l);
      case Network(n, x) => NetworkStep(w, Act(w, m), n, x);
      case _ => ServerKept(w, Act(w, m));
    }
  }

  /** The server ran operation `t` for call `k` of node `n`, and has replied. */
  ghost predicate RanFor(w: World, n: NodeId, k: Net.CallId, t: Tid) {
    && n in w.nets && k in w.nets[n].calls
    && exists c, j :: RanAs(w, Job(n, c, j), w.nets[n].calls[k].msg, t)
  }

  ghost predicate RanAs(w: World, job: Job, msg: Net.Request, t: Tid) {
    && job in w.ran && w.ran[job] == t && job.n in w.nets
    && Net.Wrote(w.nets[job.n], job.c, job.j, msg) && job.j < Channel(w, job.n, job.c).answered
  }

  /** A call that came back with success was run by the server as the operation it asked for, and carries exactly
      what that operation returned. */
  lemma OkIsOperation(w: World, n: NodeId, k: Net.CallId) returns (t: Tid)
    requires NetsFit(w) && ServerFits(w) && n in w.nets && k in w.nets[n].calls
    requires GotOk(w.nets[n].calls[k]) && AsksOperation(w.nets[n].calls[k].msg.body)
    ensures RanFor(w, n, k, t) && HasReturned(w.sys, t)
    ensures O.Requests(w.nets[n].calls[k].msg.body, w.sys.ops[t].op)
    ensures w.nets[n].calls[k].pc.answer.body == O.Reply(w.sys.ops[t].op, w.sys.ops[t].pc.result)
  {
    var s, call := w.nets[n], w.nets[n].calls[k];
    assert Net.SlotFits(s, k);
    var c, j :| Net.AnsweredAt(s, c, j, call.msg, call.pc.answer.body);
    assert Net.ChannelFits(Net.Chan(s, c));
    var job := Job(n, c, j);
    assert AnswerFits(w, job);
    assert job in w.ran;
    t := w.ran[job];
    assert RanFits(w, job);
    assert RanAs(w, job, call.msg, t);
  }

  /** A successful read reply carries a state of the log. */
  lemma ReadShows(init: string, w: World, n: NodeId, k: Net.CallId, content: string, v: int)
    requires WorldInv(init, w) && n in w.nets && k in w.nets[n].calls
    requires ShowsAs(w.nets[n].calls[k], Node.OnRead(true, content, v))
    ensures var lines := Log(w.sys.order); 0 <= v <= |lines| && content == Text(init, lines[..v])
  {
    var t := OkIsOperation(w, n, k);
    ReturnedEntry(init, w.sys, t);
    OutcomeOfRead(w.nets[n].calls[k].msg.body, w.sys.ops[t].op, w.sys.ops[t].pc.result, content, v);
  }

  lemma OutcomeOfRead(ask: M.Body, op: Op, r: Result, content: string, v: int)
    requires M.HasAction(ask, "READ") && O.Requests(ask, op) && M.IsOk(O.Reply(op, r))
    requires r.Committed? ==> op.Write?
    requires M.Get(O.Reply(op, r), "version") == Some(M.Number(v))
    requires M.Get(O.Reply(op, r), "content") == Some(M.JsonText(content))
    ensures op.Read? && r == Snapshot(content, v)
  {
    M.TextInjective("READ", "WRITE");
    O.ReplyTells(op, r);
  }

  lemma LogLater(s: State, s': State)
    requires SysLater(s, s')
    ensures Log(s.order) <= Log(s'.order)
  {
    assert s'.order[..|s.order|] == s.order;
    LogGrows(s'.order, |s.order|);
  }

  lemma AnnouncedKept(s: State, s': State, body: M.Body)
    requires SysLater(s, s') && Announced(s, body)
    ensures Announced(s', body)
  {
    var t :| AnnouncedBy(s, body, t);
    assert AnnouncedBy(s', body, t);
  }

  lemma EventsKept(w: World, w': World)
    requires EventsTrue(w) && SysLater(w.sys, w'.sys) && w'.nets == w.nets
    requires forall n | n in w'.heard :: n in w.heard && w'.heard[n] == w.heard[n]
    ensures EventsTrue(w')
  {
    forall n, c | n in w'.nets ensures EventsOn(w'.sys, Channel(w', n, c).down) {
      var down := Channel(w, n, c).down;
      assert EventsOn(w.sys, down);
      forall i | 0 <= i < |down| && down[i].Event? ensures Announced(w'.sys, down[i].body) {
        AnnouncedKept(w.sys, w'.sys, down[i].body);
      }
    }
    forall n | n in w'.heard ensures Announced(w'.sys, w'.heard[n]) { AnnouncedKept(w.sys, w'.sys, w.heard[n]); }
  }

  /** A step of a connection sends only announcements as events. */
  lemma EventsSent(sys: State, s: Net.State, x: Net.Step, s': Net.State, c: Net.Conn)
    requires Net.StepTo(s, x, s') && EventsOn(sys, Net.Chan(s, c).down) && (x.Publish? ==> Announced(sys, x.body))
    ensures EventsOn(sys, Net.Chan(s', c).down)
  {
    Net.DownStep(s, x, s', c);
  }

  lemma EventHeard(sys: State, s: Net.State, x: Net.Step)
    requires Net.Enabled(s, x) && EventsOn(sys, Net.Chan(s, s.conn).down) && Hears(s, x).Some?
    ensures Announced(sys, Hears(s, x).value)
  {}

  lemma EventsStep(w: World, m: Move)
    requires EventsTrue(w) && Able(w, m)
    ensures EventsTrue(Act(w, m))
  {
    match m {
      case Data(l) => SysStep(w.sys, l); EventsKept(w, Act(w, m));
      case Run(_, _, l) => SysStep(w.sys, l); EventsKept(w, Act(w, m));
      case Network(n, x) => EventsMove(w, Act(w, m), n, x);
      case _ => SysSame(w.sys); EventsKept(w, Act(w, m));
    }
  }

  lemma EventsMove(w: World, w': World, n: NodeId, x: Net.Step)
    requires EventsTrue(w) && n in w.nets && Net.Enabled(w.nets[n], x) && (x.Publish? ==> Announced(w.sys, x.body))
    requires w' == w.(nets := w.nets[n := Net.Next(w.nets[n], x)], heard := w'.heard)
    requires w'.heard == if Hears(w.nets[n], x).Some? then w.heard[n := Hears(w.nets[n], x).value] else w.heard
    ensures EventsTrue(w')
  {
    forall k, c | k in w'.nets ensures EventsOn(w'.sys, Channel(w', k, c).down) {
      assert EventsOn(w.sys, Channel(w, k, c).down);
      if k == n { EventsSent(w.sys, w.nets[n], x, w'.nets[n], c); }
    }
    assert EventsOn(w.sys, Channel(w, n, w.nets[n].conn).down);
    if Hears(w.nets[n], x).Some? { EventHeard(w.sys, w.nets[n], x); }
  }

  lemma ViewsKept(init: string, w: World, w': World)
    requires ViewsHold(init, w) && SysLater(w.sys, w'.sys) && w'.views == w.views
    ensures ViewsHold(init, w')
  {
    LogLater(w.sys, w'.sys);
    forall n | n in w'.views ensures Node.CacheHolds(init, Log(w'.sys.order), w'.views[n]) {
      Node.CacheKept(init, Log(w.sys.order), Log(w'.sys.order), w.views[n]);
    }
  }

  lemma ViewUpdated(init: string, w: World, w': World, n: NodeId, i: Node.Input)
    requires ViewsHold(init, w) && w'.sys == w.sys && n in w.views
    requires w'.views == w.views[n := Node.Handle(w.views[n], i)]
    requires var lines := Log(w.sys.order);
             i.OnRead? && i.ok ==> 0 <= i.version <= |lines| && i.content == Text(init, lines[..i.version])
    ensures ViewsHold(init, w')
  {
    Node.HandleKeeps(init, Log(w.sys.order), w.views[n], i);
  }

  lemma ViewsStep(init: string, w: World, m: Move)
    requires WorldInv(init, w) && Able(w, m)
    ensures ViewsHold(init, Act(w, m))
  {
    match m {
      case Data(l) =>
        SysStep(w.sys, l);
        ViewsKept(init, w, Act(w, m));
      case Run(_, _, l) =>
        SysStep(w.sys, l);
        ViewsKept(init, w, Act(w, m));
      case Network(_, _) =>
      case Show(n, k, i) =>
        if i.OnRead? && i.ok { ReadShows(init, w, n, k, i.content, i.version); }
        ViewUpdated(init, w, Act(w, m), n, i);
      case Notice(n) => ViewUpdated(init, w, Act(w, m), n, Node.OnEvent(M.EventVersion(w.heard[n]).value));
    }
  }

  lemma WorldInvStep(init: string, w: World, m: Move, w': World)
    requires WorldInv(init, w) && Moves(w, m, w')
    ensures WorldInv(init, w')
  {
    if m.Data? || m.Run? { SystemInvStep(init, w.sys, m.l, w'.sys); }
    NetsStep(w, m);
    ServerStep(w, m);
    EventsStep(w, m);
    ViewsStep(init, w, m);
  }

  lemma WorldInvInitial(init: string, w: World)
    requires InitialWorld(init, w)
    ensures WorldInv(init, w)
  {
    SystemInvInitial(init, w.sys);
    forall n | n in w.nets ensures Net.Inv(w.nets[n]) { Net.InvInitial(w.nets[n]); }
  }

  lemma {:induction false} WorldInvAlways(init: string, ws: seq<World>, ms: seq<Move>, i: nat)
    requires IsWorldRun(init, ws, ms) && i < |ws|
    ensures WorldInv(init, ws[i])
  {
    WorldInvInitial(init, ws[0]);
    var P := (w: World) => WorldInv(init, w);
    forall w, m, w' | P(w) && Moves(w, m, w') ensures P(w') { WorldInvStep(init, w, m, w'); }
    Always(Moves, ws, ms, P, i);
  }

  /** In every interleaving of the server's work, network failures, events and user actions the content a node
      displays is a state the server's file really had, namely the one its version says. */
  lemma CacheIsSnapshot(init: string, ws: seq<World>, ms: seq<Move>, i: nat, n: NodeId)
    requires IsWorldRun(init, ws, ms) && i < |ws| && n in ws[i].views
    ensures Node.CacheHolds(init, Log(ws[i].sys.order), ws[i].views[n])
  {
    WorldInvAlways(init, ws, ms, i);
  }

  // ---- only calls run operations ---------------------------------------------------------------------------

  ghost predicate NetsExplained(w: World) {
    forall n | n in w.nets :: CallAnswers.WiresExplained(w.nets[n])
  }

  lemma ExplainedMove(w: World, m: Move, w': World)
    requires NetsExplained(w) && Moves(w, m, w')
    ensures NetsExplained(w')
  {
    if m.Network? { CallAnswers.ExplainedStep(w.nets[m.n], m.x, w'.nets[m.n]); }
  }

  lemma {:induction false} NetsExplainedAlways(init: string, ws: seq<World>, ms: seq<Move>, i: nat)
    requires IsWorldRun(init, ws, ms) && i < |ws|
    ensures NetsExplained(ws[i])
  {
    var P := (w: World) => NetsExplained(w);
    forall w, m, w' | P(w) && Moves(w, m, w') ensures P(w') { ExplainedMove(w, m, w'); }
    Always(Moves, ws, ms, P, i);
  }

  /** Every operation the server runs for a node was asked for by a call of that node: no heartbeat runs anything. */
  lemma {:induction false} OnlyCallsRun(init: string, ws: seq<World>, ms: seq<Move>, i: nat, job: Job)
    requires IsWorldRun(init, ws, ms) && i < |ws| && job in ws[i].ran
    ensures job.n in ws[i].nets && job.j < |Channel(ws[i], job.n, job.c).up|
    ensures CallAnswers.CalledFor(ws[i].nets[job.n], Channel(ws[i], job.n, job.c).up[job.j])
  {
    WorldInvAlways(init, ws, ms, i);
    NetsExplainedAlways(init, ws, ms, i);
    JobCalledFor(ws[i], job);
  }

  lemma JobCalledFor(w: World, job: Job)
    requires ServerFits(w) && NetsExplained(w) && job in w.ran
    ensures job.n in w.nets && job.j < |Channel(w, job.n, job.c).up|
    ensures CallAnswers.CalledFor(w.nets[job.n], Channel(w, job.n, job.c).up[job.j])
  {
    assert RanFits(w, job);
    assert Net.Wrote(w.nets[job.n], job.c, job.j, Channel(w, job.n, job.c).up[job.j]);
    O.PingAsksNothing(w.sys.ops[w.ran[job]].op);
  }

  // ---- what users see is linearizable ----------------------------------------------------------------------

  /** A later state of a connection: calls keep their requests, new calls take new ids, wires only grow. */
  ghost predicate NetLater(s: Net.State, s': Net.State) {
    && s.nextId <= s'.nextId
    && (forall k | k in s.calls :: k in s'.calls && s'.calls[k].msg == s.calls[k].msg)
    && (forall k | k in s'.calls && k !in s.calls :: s'.calls[k].msg.id >= s.nextId)
    && (forall c :: Net.Chan(s, c).up <= Net.Chan(s', c).up && Net.Chan(s, c).answered <= Net.Chan(s', c).answered)
  }

  /** A later state of the whole: requests keep their operations, and an operation run since was not called yet and
      serves a request that was not answered yet. */
  ghost predicate RanLater(w: World, w': World) {
    && (forall job | job in w.ran :: job in w'.ran && w'.ran[job] == w.ran[job])
    && (forall job | job in w'.ran && job !in w.ran :: NotCalled(w.sys, w'.ran[job]))
  }

  ghost predicate Later(w: World, w': World) {
    && SysLater(w.sys, w'.sys) && w.nets.Keys == w'.nets.Keys
    && (forall n | n in w.nets :: NetLater(w.nets[n], w'.nets[n]))
    && RanLater(w, w')
  }

  lemma NetStepLater(s: Net.State, x: Net.Step, s': Net.State)
    requires Net.Inv(s) && Net.StepTo(s, x, s')
    ensures NetLater(s, s')
  {
    if Net.CallerStep(x) { Net.CallerIds(s, x, s'); } else { Net.OtherIds(s, x, s'); }
    forall c ensures Net.Chan(s, c).up <= Net.Chan(s', c).up && Net.Chan(s, c).answered <= Net.Chan(s', c).answered {
      assert Net.ChannelFits(Net.Chan(s, c));
      Net.AnsweredStep(s, x, s', c);
    }
  }

  lemma NetSame(s: Net.State)
    ensures NetLater(s, s)
  {}

  lemma SysSame(s: State)
    ensures SysLater(s, s)
  {}

  lemma LaterByParts(w: World, w': World, n: NodeId)
    requires SysLater(w.sys, w'.sys) && w.nets.Keys == w'.nets.Keys && RanLater(w, w')
    requires forall u | u in w.nets && u != n :: w'.nets[u] == w.nets[u]
    requires n in w.nets ==> NetLater(w.nets[n], w'.nets[n])
    ensures Later(w, w')
  {
    forall u | u in w.nets ensures NetLater(w.nets[u], w'.nets[u]) {
      if u != n { NetSame(w.nets[u]); }
    }
  }

  lemma StepLater(w: World, m: Move, w': World)
    requires NetsFit(w) && Moves(w, m, w')
    ensures Later(w, w')
  {
    match m {
      case Network(n, x) =>
        assert Net.Inv(w.nets[n]);
        NetStepLater(w.nets[n], x, w'.nets[n]);
        NetworkLater(w, w', n);
      case Data(l) => DataLater(w, w', l, 0);
      case Run(n, c, l) =>
        NewJob(w, w', n, c, l);
        DataLater(w, w', l, n);
      case _ => SameLater(w, w', 0);
    }
  }

  lemma NetworkLater(w: World, w': World, n: NodeId)
    requires n in w.nets && n in w'.nets && NetLater(w.nets[n], w'.nets[n])
    requires w' == w.(nets := w.nets[n := w'.nets[n]], heard := w'.heard)
    ensures Later(w, w')
  {
    SysSame(w.sys);
    LaterByParts(w, w', n);
  }

  lemma NewJob(w: World, w': World, n: NodeId, c: Net.Conn, l: Label)
    requires Able(w, Run(n, c, l)) && w'.ran == w.ran[Job(n, c, Channel(w, n, c).answered) := l.step.t]
    ensures RanLater(w, w')
  {}

  lemma SameLater(w: World, w': World, n: NodeId)
    requires w'.sys == w.sys && w'.nets == w.nets && w'.ran == w.ran
    ensures Later(w, w')
  {
    SysSame(w.sys);
    if n in w.nets { NetSame(w.nets[n]); }
    LaterByParts(w, w', n);
  }

  lemma DataLater(w: World, w': World, l: Label, n: NodeId)
    requires Enabled(w.sys, l) && w'.sys == Next(w.sys, l) && w'.nets == w.nets && RanLater(w, w')
    ensures Later(w, w')
  {
    SysStep(w.sys, l);
    if n in w.nets { NetSame(w.nets[n]); }
    LaterByParts(w, w', n);
  }

  lemma NetLaterTwice(s: Net.State, s': Net.State, s'': Net.State)
    requires NetLater(s, s') && NetLater(s', s'')
    ensures NetLater(s, s'')
  {
    forall k | k in s''.calls && k !in s.calls ensures s''.calls[k].msg.id >= s.nextId {
      if k in s'.calls { assert s''.calls[k].msg == s'.calls[k].msg; }
    }
    forall c ensures Net.Chan(s, c).up <= Net.Chan(s'', c).up && Net.Chan(s, c).answered <= Net.Chan(s'', c).answered {
      assert Net.Chan(s', c).up <= Net.Chan(s'', c).up;
    }
  }

  lemma SysLaterTwice(s: State, s': State, s'': State)
    requires SysLater(s, s') && SysLater(s', s'')
    ensures SysLater(s, s'')
  {}

  lemma RanLaterTwice(w: World, w': World, w'': World)
    requires SysLater(w.sys, w'.sys) && RanLater(w, w') && RanLater(w', w'')
    ensures RanLater(w, w'')
  {
    forall job | job in w''.ran && job !in w.ran ensures NotCalled(w.sys, w''.ran[job]) {
      if job in w'.ran { assert w''.ran[job] == w'.ran[job]; }
    }
  }

  lemma LaterTwice(w: World, w': World, w'': World)
    requires Later(w, w') && Later(w', w'')
    ensures Later(w, w'')
  {
    SysLaterTwice(w.sys, w'.sys, w''.sys);
    RanLaterTwice(w, w', w'');
    forall n | n in w.nets ensures NetLater(w.nets[n], w''.nets[n]) {
      NetLaterTwice(w.nets[n], w'.nets[n], w''.nets[n]);
    }
  }

  lemma LaterSelf(w: World)
    ensures Later(w, w)
  {
    SameLater(w, w, 0);
  }

  lemma RunLater(init: string, ws: seq<World>, ms: seq<Move>, i: nat, j: nat)
    requires IsWorldRun(init, ws, ms) && i <= j < |ws|
    ensures Later(ws[i], ws[j])
  {
    var inv := (w: World) => NetsFit(w);
    var R := (w: World, w': World) => Later(w, w');
    forall k | 0 <= k < |ws| ensures inv(ws[k]) { WorldInvAlways(init, ws, ms, k); }
    forall w ensures R(w, w) { LaterSelf(w); }
    forall w, m, w' | inv(w) && Moves(w, m, w') ensures R(w, w') { StepLater(w, m, w'); }
    forall w, w', w'' | R(w, w') && R(w', w'') ensures R(w, w'') { LaterTwice(w, w', w''); }
    Onwards(Moves, ws, ms, inv, R, i, j);
  }

  lemma WrittenBefore(s: Net.State, s': Net.State, c: Net.Conn, j: nat, m: Net.Request)
    requires Net.WrittenIdsFit(s) && NetLater(s, s') && Net.Wrote(s', c, j, m) && j < |Net.Chan(s, c).up|
    ensures m.id < s.nextId
  {
    assert Net.Chan(s, c).up <= Net.Chan(s', c).up;
    assert Net.Wrote(s, c, j, m);
    assert Net.OwnedBy(s, m);
  }

  /** A request of a call that had not begun was not on any wire. */
  lemma NotWrittenBefore(s: Net.State, s': Net.State, c: Net.Conn, j: nat, k: Net.CallId)
    requires Net.WrittenIdsFit(s) && NetLater(s, s') && k !in s.calls && k in s'.calls
    requires Net.Wrote(s', c, j, s'.calls[k].msg)
    ensures j >= |Net.Chan(s, c).up|
  {
    if j < |Net.Chan(s, c).up| { WrittenBefore(s, s', c, j, s'.calls[k].msg); }
  }

  lemma NotRanBefore(w: World, s': Net.State, job: Job, k: Net.CallId)
    requires ServerFits(w) && job.n in w.nets && Net.WrittenIdsFit(w.nets[job.n]) && NetLater(w.nets[job.n], s')
    requires k !in w.nets[job.n].calls && k in s'.calls && Net.Wrote(s', job.c, job.j, s'.calls[k].msg)
    ensures job !in w.ran
  {
    assert job in w.ran ==> RanFits(w, job) && job.j < |Channel(w, job.n, job.c).up|;
    NotWrittenBefore(w.nets[job.n], s', job.c, job.j, k);
  }

  lemma NetIds(w: World, n: NodeId)
    requires NetsFit(w) && n in w.nets
    ensures Net.WrittenIdsFit(w.nets[n])
  {
    assert Net.Inv(w.nets[n]);
  }

  /** An operation run for a call is called after the call has begun. */
  lemma NotCalledBefore(w: World, w': World, n: NodeId, k: Net.CallId, t: Tid)
    requires NetsFit(w) && ServerFits(w) && Later(w, w')
    requires n in w.nets && k !in w.nets[n].calls && RanFor(w', n, k, t)
    ensures NotCalled(w.sys, t)
  {
    NetIds(w, n);
    CalledSince(w, w', n, k, t);
  }

  lemma CalledSince(w: World, w': World, n: NodeId, k: Net.CallId, t: Tid)
    requires ServerFits(w) && n in w.nets && n in w'.nets && Net.WrittenIdsFit(w.nets[n])
    requires NetLater(w.nets[n], w'.nets[n]) && RanLater(w, w') && k !in w.nets[n].calls && RanFor(w', n, k, t)
    ensures NotCalled(w.sys, t)
  {
    var c, j :| RanAs(w', Job(n, c, j), w'.nets[n].calls[k].msg, t);
    NotRanBefore(w, w'.nets[n], Job(n, c, j), k);
  }

  /** A reply carries an outcome that has been returned. */
  lemma RepliedReturned(w: World, n: NodeId, k: Net.CallId, t: Tid)
    requires NetsFit(w) && ServerFits(w) && RanFor(w, n, k, t)
    ensures HasReturned(w.sys, t)
  {
    var c, j :| RanAs(w, Job(n, c, j), w.nets[n].calls[k].msg, t);
    assert AnswerFits(w, Job(n, c, j));
    assert Net.ChannelFits(Channel(w, n, c));
  }

  /** Real time across all nodes: if the server has replied to one call before another call begins, at the same node
      or any other, then the operation of the first comes before the operation of the second in the log's order. */
  lemma {:induction false} CallsInOrder(init: string, ws: seq<World>, ms: seq<Move>, i: nat, n: NodeId, a: Net.CallId,
      ta: Tid, m: NodeId, b: Net.CallId, tb: Tid, x: int, y: int)
    requires IsWorldRun(init, ws, ms) && i < |ws|
    requires RanFor(ws[i], n, a, ta) && m in ws[i].nets && b !in ws[i].nets[m].calls
    requires RanFor(ws[|ws| - 1], m, b, tb)
    requires var order := ws[|ws| - 1].sys.order; At(order, ta, x) && At(order, tb, y)
    ensures x < y
  {
    var now, last := ws[i], ws[|ws| - 1];
    WorldInvAlways(init, ws, ms, i);
    WorldInvAlways(init, ws, ms, |ws| - 1);
    RunLater(init, ws, ms, i, |ws| - 1);
    RepliedReturned(now, n, a, ta);
    NotCalledBefore(now, last, m, b, tb);
    EarlierInOrder(init, now.sys, last.sys.order, ta, tb, x, y);
  }

  // ---- what a user may rely on -----------------------------------------------------------------------------

  /** Call `k` of node `n` has come back with success and carries `version`. */
  predicate Succeeded(w: World, n: NodeId, k: Net.CallId, action: string, version: int) {
    && n in w.nets && k in w.nets[n].calls && GotOk(w.nets[n].calls[k])
    && M.HasAction(w.nets[n].calls[k].msg.body, action) && action in {"READ", "WRITE"}
    && M.Get(w.nets[n].calls[k].pc.answer.body, "version") == Some(M.Number(version))
  }

  predicate Carries(w: World, n: NodeId, k: Net.CallId, content: string)
    requires n in w.nets && k in w.nets[n].calls && GotOk(w.nets[n].calls[k])
  {
    M.Get(w.nets[n].calls[k].pc.answer.body, "content") == Some(M.JsonText(content))
  }

  /** Entry `e` is what the server did for call `c`, which came back with success. */
  ghost predicate IsEntryOf(c: Net.Call, action: string, version: int, e: Entry) {
    && GotOk(c) && e.result.version == version && (e.op.Read? <==> action == "READ")
    && O.Requests(c.msg.body, e.op) && c.pc.answer.body == O.Reply(e.op, e.result)
  }

  /** What a successful call has seen or done, as an entry of the order. */
  lemma SucceededEntry(init: string, w: World, n: NodeId, k: Net.CallId, action: string, version: int)
    returns (t: Tid, x: nat)
    requires WorldInv(init, w) && Succeeded(w, n, k, action, version)
    ensures RanFor(w, n, k, t) && At(w.sys.order, t, x) && EntryFits(w.sys.ops, w.sys.order[x])
    ensures IsEntryOf(w.nets[n].calls[k], action, version, w.sys.order[x])
  {
    t := OkIsOperation(w, n, k);
    ReturnedIsAnswered(init, w.sys, t);
    x :| At(w.sys.order, t, x) && w.sys.order[x].op == w.sys.ops[t].op
        && w.sys.ops[t].pc == Returned(w.sys.order[x].result);
    assert EntryFits(w.sys.ops, w.sys.order[x]);
    M.TextInjective("READ", "WRITE");
    O.ReplyTells(w.sys.order[x].op, w.sys.order[x].result);
  }

  /** Entry `y` of a legal history finds at least what entry `x` before it has seen or written. */
  lemma {:induction false} VersionsFollow(init: string, order: seq<Entry>, x: nat, y: nat)
    requires LegalHistory(init, order) && x < y < |order|
    ensures order[x].result.version <= order[y].result.version
    ensures order[y].result.Committed? ==> order[x].result.version < order[y].result.version
  {
    assert AtomicAnswer(init, Log(order[..x]), order[x]);
    assert AtomicAnswer(init, Log(order[..y]), order[y]);
    LogGrows(order[..y], x + 1);
    assert order[..y][..x + 1] == order[..x + 1];
    assert order[..x + 1][..x] == order[..x];
  }

  lemma {:induction false} TextGrows(init: string, lines: seq<string>, lines': seq<string>)
    requires lines <= lines'
    ensures Text(init, lines) <= Text(init, lines')
  {
    var rest := lines'[|lines|..];
    assert lines' == lines + rest;
    ConcatAppend(lines, rest);
    PrefixOf(init, Concat(lines), Concat(rest));
  }

  lemma PrefixOf(a: string, b: string, c: string)
    ensures a + b <= a + (b + c)
  {
    assert a + (b + c) == a + b + c;
  }

  lemma HistoryGrows(init: string, order: seq<Entry>, x: nat, y: nat)
    requires x <= y <= |order|
    ensures Text(init, Log(order[..x])) <= Text(init, Log(order[..y]))
  {
    LogGrows(order[..y], x);
    assert order[..y][..x] == order[..x];
    TextGrows(init, Log(order[..x]), Log(order[..y]));
  }

  /** Two successful calls, the second begun, at any node, after the first had come back: their entries in the
      order of the log, each with the operation asked for and the reply it carries. */
  lemma {:induction false} EntriesInOrder(init: string, ws: seq<World>, ms: seq<Move>, i: nat,
      n: NodeId, a: Net.CallId, first: string, v: int, m: NodeId, b: Net.CallId, second: string, v': int)
    returns (x: nat, y: nat)
    requires IsWorldRun(init, ws, ms) && i < |ws| && Succeeded(ws[i], n, a, first, v)
    requires m in ws[i].nets && b !in ws[i].nets[m].calls && Succeeded(ws[|ws| - 1], m, b, second, v')
    ensures var order := ws[|ws| - 1].sys.order;
            && x < y < |order| && LegalHistory(init, order)
            && IsEntryOf(ws[i].nets[n].calls[a], first, v, order[x])
            && IsEntryOf(ws[|ws| - 1].nets[m].calls[b], second, v', order[y])
  {
    var now, last := ws[i], ws[|ws| - 1];
    WorldInvAlways(init, ws, ms, i);
    WorldInvAlways(init, ws, ms, |ws| - 1);
    var ta, tb;
    ta, x := SucceededEntry(init, now, n, a, first, v);
    tb, y := SucceededEntry(init, last, m, b, second, v');
    RunLater(init, ws, ms, i, |ws| - 1);
    assert last.sys.order[x] == now.sys.order[x];
    CallsInOrder(init, ws, ms, i, n, a, ta, m, b, tb, x, y);
  }

  /** Versions go up: a call that begins after a successful one has come back, at the same node or another, never sees
      an older version, and if it writes, it makes a newer one. */
  lemma {:induction false} VersionsGrow(init: string, ws: seq<World>, ms: seq<Move>, i: nat,
      n: NodeId, a: Net.CallId, first: string, v: int, m: NodeId, b: Net.CallId, second: string, v': int)
    requires IsWorldRun(init, ws, ms) && i < |ws| && Succeeded(ws[i], n, a, first, v)
    requires m in ws[i].nets && b !in ws[i].nets[m].calls && Succeeded(ws[|ws| - 1], m, b, second, v')
    ensures v <= v' && (second == "WRITE" ==> v < v')
  {
    var x, y := EntriesInOrder(init, ws, ms, i, n, a, first, v, m, b, second, v');
    VersionsFollow(init, ws[|ws| - 1].sys.order, x, y);
    OutcomeKind(init, ws[|ws| - 1].sys.order, y, ws[|ws| - 1].nets[m].calls[b], second, v');
  }

  /** Reads only ever add: what a user saw in one read is the beginning of what any later read shows. */
  lemma {:induction false} ReadsGrow(init: string, ws: seq<World>, ms: seq<Move>, i: nat,
      n: NodeId, a: Net.CallId, v: int, content: string, m: NodeId, b: Net.CallId, v': int, content': string)
    requires IsWorldRun(init, ws, ms) && i < |ws| && Succeeded(ws[i], n, a, "READ", v) && Carries(ws[i], n, a, content)
    requires m in ws[i].nets && b !in ws[i].nets[m].calls && Succeeded(ws[|ws| - 1], m, b, "READ", v')
    requires Carries(ws[|ws| - 1], m, b, content')
    ensures content <= content'
  {
    var x, y := EntriesInOrder(init, ws, ms, i, n, a, "READ", v, m, b, "READ", v');
    var order := ws[|ws| - 1].sys.order;
    ReadContent(init, order, x, ws[i].nets[n].calls[a], v, content);
    ReadContent(init, order, y, ws[|ws| - 1].nets[m].calls[b], v', content');
    HistoryGrows(init, order, x, y);
  }

  /** Every committed write is there: a read that begins after a write call has come back with success, at any node,
      shows the server's log up to its version; line `v` of that log is the line of the write; and the content itself
      holds the text of that write, stamped and signed, behind the first `v - 1` lines. */
  lemma {:induction false} WritesAreRead(init: string, ws: seq<World>, ms: seq<Move>, i: nat,
      n: NodeId, a: Net.CallId, v: int, text: string, m: NodeId, b: Net.CallId, v': int, content: string)
    returns (line: Written, after: string)
    requires IsWorldRun(init, ws, ms) && i < |ws| && Succeeded(ws[i], n, a, "WRITE", v)
    requires M.Get(ws[i].nets[n].calls[a].msg.body, "content") == Some(M.JsonText(text))
    requires m in ws[i].nets && b !in ws[i].nets[m].calls && Succeeded(ws[|ws| - 1], m, b, "READ", v')
    requires Carries(ws[|ws| - 1], m, b, content)
    ensures var log := Log(ws[|ws| - 1].sys.order);
            && 1 <= v <= v' <= |log| && content == Text(init, log[..v'])
            && (exists op: Op :: op.Write? && op.text == text && IsLineOf(log[v - 1], op))
            && HoldsLine(content, Text(init, log[..v - 1]), line, after) && line.text == text
  {
    var x, y := EntriesInOrder(init, ws, ms, i, n, a, "WRITE", v, m, b, "READ", v');
    var order := ws[|ws| - 1].sys.order;
    ReadContent(init, order, y, ws[|ws| - 1].nets[m].calls[b], v', content);
    WrittenLine(init, order, x, y, ws[i].nets[n].calls[a], v, text);
    LogGrows(order, y);
    assert Log(order)[..v'] == Log(order[..y]);
    assert Log(order)[v - 1] == Log(order[..y])[v - 1];
    line, after := ContentHoldsLine(init, Log(order), v, v', order[x].op);
  }

  lemma OutcomeKind(init: string, order: seq<Entry>, y: nat, c: Net.Call, action: string, v: int)
    requires LegalHistory(init, order) && y < |order| && IsEntryOf(c, action, v, order[y])
    ensures if action == "READ" then order[y].result.Snapshot? else order[y].result.Committed?
  {
    assert AtomicAnswer(init, Log(order[..y]), order[y]);
    O.ReplyTells(order[y].op, order[y].result);
  }

  lemma ReadContent(init: string, order: seq<Entry>, y: nat, c: Net.Call, v: int, content: string)
    requires LegalHistory(init, order) && y < |order| && IsEntryOf(c, "READ", v, order[y])
    requires M.Get(c.pc.answer.body, "content") == Some(M.JsonText(content))
    ensures content == Text(init, Log(order[..y])) && v == |Log(order[..y])|
  {
    OutcomeKind(init, order, y, c, "READ", v);
    assert AtomicAnswer(init, Log(order[..y]), order[y]);
    O.ReplyTells(order[y].op, order[y].result);
  }

  lemma WrittenLine(init: string, order: seq<Entry>, x: nat, y: nat, c: Net.Call, v: int, text: string)
    requires LegalHistory(init, order) && x < y < |order| && IsEntryOf(c, "WRITE", v, order[x])
    requires M.Get(c.msg.body, "content") == Some(M.JsonText(text))
    ensures order[x].op.Write? && order[x].op.text == text
    ensures 1 <= v <= |Log(order[..y])| && IsLineOf(Log(order[..y])[v - 1], order[x].op)
  {
    OutcomeKind(init, order, x, c, "WRITE", v);
    M.TextInjective(order[x].op.text, text);
    assert AtomicAnswer(init, Log(order[..x]), order[x]);
    LineInLog(order[..y], x);
    assert order[..y][..x] == order[..x];
  }

  // ---- a read that is served -------------------------------------------------------------------------------

  lemma Extend(init: string, ws: seq<World>, ms: seq<Move>, m: Move) returns (ws': seq<World>, ms': seq<Move>)
    requires IsWorldRun(init, ws, ms) && Able(ws[|ms|], m)
    ensures IsWorldRun(init, ws', ms') && |ms'| == |ms| + 1 && ws'[|ms'|] == Act(ws[|ms|], m)
  {
    ws', ms' := ws + [Act(ws[|ms|], m)], ms + [m];
    Longer(Moves, ws, ms, m, Act(ws[|ms|], m));
  }

  /** A step of node `n` other than a reply of its handler. */
  lemma ExtendNode(init: string, ws: seq<World>, ms: seq<Move>, n: NodeId, x: Net.Step)
    returns (ws': seq<World>, ms': seq<Move>)
    requires IsWorldRun(init, ws, ms) && n in ws[|ms|].nets && Net.Enabled(ws[|ms|].nets[n], x)
    requires !x.Respond? && !x.Publish? && !x.Receive? && !x.Disconnect?
    ensures IsWorldRun(init, ws', ms') && |ms'| == |ms| + 1
    ensures ws'[|ms'|] == ws[|ms|].(nets := ws[|ms|].nets[n := Net.Next(ws[|ms|].nets[n], x)])
  {
    ws', ms' := Extend(init, ws, ms, Network(n, x));
  }

  /** Everything that was written on the connection in use has been answered and read. */
  predicate QuietNode(w: World, n: NodeId) {
    && n in w.nets && n in w.views && n !in w.heard && w.nets[n].listener.Reading?
    && var ch := Channel(w, n, w.nets[n].conn);
       ch.read == |ch.down| && ch.taken == ch.answered == |ch.up|
  }

  /** Call `k` of node `n` waits for the reply to a READ that its handler has taken. */
  predicate Asking(w: World, n: NodeId, k: Net.CallId) {
    && n in w.nets && n in w.views && n !in w.heard
    && var s := w.nets[n]; var ch := Channel(w, n, s.conn);
       && s.listener.Reading? && Net.HasPc(s, k, Net.Sent) && Net.IsPending(s, k)
       && s.calls[k].msg.body == O.Ask(Read) && !s.calls[k].relogin
       && ch.read == |ch.down| && ch.taken == ch.answered + 1 == |ch.up| && ch.up[ch.answered] == s.calls[k].msg
  }

  lemma Asks(init: string, ws: seq<World>, ms: seq<Move>, n: NodeId, k: Net.CallId)
    returns (ws': seq<World>, ms': seq<Move>)
    requires IsWorldRun(init, ws, ms) && QuietNode(ws[|ms|], n) && k !in ws[|ms|].nets[n].calls
    ensures IsWorldRun(init, ws', ms') && Asking(ws'[|ms'|], n, k)
    ensures var w, w' := ws[|ms|], ws'[|ms'|];
            && w' == w.(nets := w'.nets) && w'.nets[n].conn == w.nets[n].conn
            && Channel(w', n, w.nets[n].conn).answered == Channel(w, n, w.nets[n].conn).answered
  {
    ws', ms' := Sends(init, ws, ms, n, k);
    ws', ms' := ExtendNode(init, ws', ms', n, Net.Take(ws[|ms|].nets[n].conn));
  }

  lemma Sends(init: string, ws: seq<World>, ms: seq<Move>, n: NodeId, k: Net.CallId)
    returns (ws': seq<World>, ms': seq<Move>)
    requires IsWorldRun(init, ws, ms) && n in ws[|ms|].nets && k !in ws[|ms|].nets[n].calls
    ensures IsWorldRun(init, ws', ms')
    ensures var w, w' := ws[|ms|], ws'[|ms'|];
            && w' == w.(nets := w'.nets) && n in w'.nets
            && var s, s' := w.nets[n], w'.nets[n];
               && s'.listener == s.listener && s'.conn == s.conn && Net.HasPc(s', k, Net.Sent) && Net.IsPending(s', k)
               && s'.calls[k].msg.body == O.Ask(Read) && !s'.calls[k].relogin
               && Net.Chan(s', s.conn) == Net.Chan(s, s.conn).(up := Net.Chan(s, s.conn).up + [s'.calls[k].msg])
  {
    ws', ms' := ExtendNode(init, ws, ms, n, Net.Begin(k, O.Ask(Read)));
    ws', ms' := ExtendNode(init, ws', ms', n, Net.Register(k));
    ws', ms' := ExtendNode(init, ws', ms', n, Net.Send(k, true, true));
  }

  /** Read `t` is at `pc`. */
  predicate Reader(s: State, t: Tid, pc: Pc) {
    t in s.ops && s.ops[t].op.Read? && s.ops[t].pc == pc
  }

  /** An undisturbed read, from the call to the return. */
  lemma ReadsAlone(init: string, ws: seq<World>, ms: seq<Move>, t: Tid) returns (ws': seq<World>, ms': seq<Move>)
    requires IsWorldRun(init, ws, ms) && Reader(ws[|ms|].sys, t, Start) && ws[|ms|].sys.lock.GateOpen()
    ensures IsWorldRun(init, ws', ms')
    ensures var w, w' := ws[|ms|], ws'[|ms'|];
            && w' == w.(sys := w'.sys) && w'.sys.version == w.sys.version
            && Reader(w'.sys, t, Returned(Snapshot(w.sys.file, w.sys.version)))
  {
    var s := ws[|ms|].sys;
    ws', ms' := Extend(init, ws, ms, Data(Label(s.now, Pass(t))));
    ws', ms' := Extend(init, ws', ms', Data(Label(s.now, AccessFile(t, ""))));
    assert Reader(ws'[|ms'|].sys, t, FileRead(s.file));
    ws', ms' := Extend(init, ws', ms', Data(Label(s.now, AccessVersion(t))));
    ws', ms' := ReaderLeaves(init, ws', ms', t, Snapshot(s.file, s.version));
  }

  lemma ReaderLeaves(init: string, ws: seq<World>, ms: seq<Move>, t: Tid, r: Result)
    returns (ws': seq<World>, ms': seq<Move>)
    requires IsWorldRun(init, ws, ms) && Reader(ws[|ms|].sys, t, Finished(r))
    ensures IsWorldRun(init, ws', ms')
    ensures var w, w' := ws[|ms|], ws'[|ms'|];
            w' == w.(sys := w'.sys) && w'.sys.version == w.sys.version && Reader(w'.sys, t, Returned(r))
  {
    var s := ws[|ms|].sys;
    var pick: Tid := 0;
    if s.lock.writersOk != {} { pick :| pick in s.lock.writersOk; }
    ws', ms' := Extend(init, ws, ms, Data(Label(s.now, Release(t, pick))));
  }

  /** The reply reaches the call. */
  lemma ReplyComesBack(init: string, ws: seq<World>, ms: seq<Move>, n: NodeId, k: Net.CallId, body: M.Body)
    returns (ws': seq<World>, ms': seq<Move>)
    requires IsWorldRun(init, ws, ms) && Asking(ws[|ms|], n, k)
    requires Able(ws[|ms|], Network(n, Net.Respond(ws[|ms|].nets[n].conn, body)))
    ensures IsWorldRun(init, ws', ms')
    ensures var w, w' := ws[|ms|], ws'[|ms'|];
            && w' == w.(nets := w'.nets) && n in w'.nets && k in w'.nets[n].calls
            && w'.nets[n].calls[k].pc == Net.Done(Net.Answered(body))
            && w'.nets[n].calls[k].msg.body == O.Ask(Read) && !w'.nets[n].calls[k].relogin
  {
    ws', ms' := ReplyMatched(init, ws, ms, n, k, body);
    ws', ms' := ExtendNode(init, ws', ms', n, Net.Store);
    ws', ms' := ExtendNode(init, ws', ms', n, Net.SetEvent);
    ws', ms' := ExtendNode(init, ws', ms', n, Net.Return(k));
  }

  lemma ReplyMatched(init: string, ws: seq<World>, ms: seq<Move>, n: NodeId, k: Net.CallId, body: M.Body)
    returns (ws': seq<World>, ms': seq<Move>)
    requires IsWorldRun(init, ws, ms) && Asking(ws[|ms|], n, k)
    requires Able(ws[|ms|], Network(n, Net.Respond(ws[|ms|].nets[n].conn, body)))
    ensures IsWorldRun(init, ws', ms')
    ensures var w, w' := ws[|ms|], ws'[|ms'|];
            && w' == w.(nets := w'.nets) && n in w'.nets && w'.nets[n].listener == Net.Matched(k, body)
            && w'.nets[n].calls == w.nets[n].calls
  {
    ws', ms' := Replied(init, ws, ms, n, k, body);
    ws', ms' := Extend(init, ws', ms', Network(n, Net.Receive));
  }

  lemma Replied(init: string, ws: seq<World>, ms: seq<Move>, n: NodeId, k: Net.CallId, body: M.Body)
    returns (ws': seq<World>, ms': seq<Move>)
    requires IsWorldRun(init, ws, ms) && Asking(ws[|ms|], n, k)
    requires Able(ws[|ms|], Network(n, Net.Respond(ws[|ms|].nets[n].conn, body)))
    ensures IsWorldRun(init, ws', ms')
    ensures var w, w' := ws[|ms|], ws'[|ms'|];
            && w' == w.(nets := w'.nets) && n in w'.nets
            && var s, s' := w.nets[n], w'.nets[n]; var ch := Net.Chan(s', s'.conn);
               && s' == s.(channels := s'.channels) && ch.read < |ch.down|
               && ch.down[ch.read] == Net.Response(s.calls[k].msg.id, body)
  {
    var s := ws[|ms|].nets[n];
    ws', ms' := Extend(init, ws, ms, Network(n, Net.Respond(s.conn, body)));
    assert Channel(ws'[|ms'|], n, s.conn).down
        == Net.Chan(s, s.conn).down + [Net.Response(s.calls[k].msg.id, body)];
  }

  lemma {:induction false} NotRanYet(w: World, n: NodeId)
    requires ServerFits(w) && QuietNode(w, n)
    ensures Job(n, w.nets[n].conn, Channel(w, n, w.nets[n].conn).answered) !in w.ran
  {
    var job := Job(n, w.nets[n].conn, Channel(w, n, w.nets[n].conn).answered);
    assert job in w.ran ==> RanFits(w, job);
  }

  /** Reading works: any run in which node `n` is quiet, the gate of the lock is open and read `t` has not been called
      goes on, without anybody's help, with a read that shows the user the whole log as it is then. */
  lemma {:induction false} ReadIsServed(init: string, ws: seq<World>, ms: seq<Move>, n: NodeId, k: Net.CallId, t: Tid)
    returns (ws': seq<World>, ms': seq<Move>)
    requires IsWorldRun(init, ws, ms) && QuietNode(ws[|ms|], n)
    requires k !in ws[|ms|].nets[n].calls && (n, k) !in ws[|ms|].shown
    requires Reader(ws[|ms|].sys, t, Idle) && ws[|ms|].sys.lock.GateOpen()
    ensures IsWorldRun(init, ws', ms') && n in ws'[|ms'|].views
    ensures var w := ws'[|ms'|];
            && w.views[n].contentLoaded && !w.views[n].contentStale && w.views[n].contentVersion == |Log(w.sys.order)|
            && w.views[n].content == Text(init, Log(w.sys.order))
  {
    WorldInvAlways(init, ws, ms, |ms|);
    NotRanYet(ws[|ms|], n);
    var s, v := ws[|ms|].sys, ws[|ms|].sys.version;
    ws', ms' := Asks(init, ws, ms, n, k);
    ws', ms' := Answers(init, ws', ms', n, k, t);
    ws', ms' := Shows(init, ws', ms', n, k, s.file, v);
    WorldInvAlways(init, ws', ms', |ms'|);
    assert Log(ws'[|ms'|].sys.order)[..v] == Log(ws'[|ms'|].sys.order);
  }

  lemma Answers(init: string, ws: seq<World>, ms: seq<Move>, n: NodeId, k: Net.CallId, t: Tid)
    returns (ws': seq<World>, ms': seq<Move>)
    requires IsWorldRun(init, ws, ms) && Asking(ws[|ms|], n, k)
    requires Job(n, ws[|ms|].nets[n].conn, Channel(ws[|ms|], n, ws[|ms|].nets[n].conn).answered) !in ws[|ms|].ran
    requires Reader(ws[|ms|].sys, t, Idle) && ws[|ms|].sys.lock.GateOpen()
    ensures IsWorldRun(init, ws', ms')
    ensures var w, w' := ws[|ms|], ws'[|ms'|];
            && w'.views == w.views && w'.shown == w.shown && w'.sys.version == w.sys.version
            && n in w'.nets && k in w'.nets[n].calls
            && w'.nets[n].calls[k].pc == Net.Done(Net.Answered(O.Reply(Read, Snapshot(w.sys.file, w.sys.version))))
            && w'.nets[n].calls[k].msg.body == O.Ask(Read) && !w'.nets[n].calls[k].relogin
  {
    var s, c := ws[|ms|].sys, ws[|ms|].nets[n].conn;
    O.AskTells(Read, Read);
    ws', ms' := Extend(init, ws, ms, Run(n, c, Label(s.now, Invoke(t, 10))));
    ws', ms' := ReadsAlone(init, ws', ms', t);
    ws', ms' := ReplyComesBack(init, ws', ms', n, k, O.Reply(Read, Snapshot(s.file, s.version)));
  }

  lemma Shows(init: string, ws: seq<World>, ms: seq<Move>, n: NodeId, k: Net.CallId, content: string, v: int)
    returns (ws': seq<World>, ms': seq<Move>)
    requires IsWorldRun(init, ws, ms)
    requires var w := ws[|ms|];
             && n in w.nets && n in w.views && k in w.nets[n].calls && (n, k) !in w.shown
             && w.nets[n].calls[k].pc == Net.Done(Net.Answered(O.Reply(Read, Snapshot(content, v))))
             && w.nets[n].calls[k].msg.body == O.Ask(Read) && !w.nets[n].calls[k].relogin
    ensures IsWorldRun(init, ws', ms')
    ensures var w, w' := ws[|ms|], ws'[|ms'|];
            w'.sys == w.sys && n in w'.views && w'.views[n] == Node.Cache(v, true, content, v, true, false)
  {
    O.AskTells(Read, Read);
    O.ReplyTells(Read, Snapshot(content, v));
    ws', ms' := Extend(init, ws, ms, Show(n, k, Node.OnRead(true, content, v)));
  }
}
