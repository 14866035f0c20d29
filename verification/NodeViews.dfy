/** What a node (client_node.py) displays, and what its stale mark says about the log of the server, over runs of the
    whole. */
module NodeViews {
  import opened Cluster
  import opened LockSystem
  import opened Linearizability
  import opened Options
  import opened Runs
  import opened ReadWriteLocks
  import Net = Correlation
  import Node = ClientCache
  import M = Messages
  import O = OperationMessages

  /** The version that move `m` tells node `n` without showing it the content: by an event or by the reply to a
      write. */
  function Told(w: World, m: Move, n: NodeId): Option<int> {
    match m
    case Notice(k) => if k == n && n in w.heard then M.EventVersion(w.heard[n]) else None
    case Show(k, _, OnWrite(true, v)) => if k == n then Some(v) else None
    case _ => None
  }

  /** Moves that load or clear the snapshot of node `n`. */
  predicate Reloads(m: Move, n: NodeId) {
    m.Show? && m.n == n && (m.i.OnLogout? || (m.i.OnLogin? && m.i.ok) || (m.i.OnRead? && m.i.ok))
  }

  lemma ViewMoves(w: World, m: Move, w': World, n: NodeId)
    requires Moves(w, m, w') && n in w.views && !Reloads(m, n)
    ensures n in w'.views
    ensures w'.views[n] == match Told(w, m, n) case Some(v) => Node.Record(w.views[n], v) case None => w.views[n]
  {}

  /** Node `n` has read version `cv` at step `r`, and neither read again nor logged in or out before state `i`. */
  ghost predicate SnapshotSince(ws: seq<World>, ms: seq<Move>, r: nat, i: nat, n: NodeId, content: string, cv: int) {
    && r < i <= |ms| < |ws| && ms[r].Show? && ms[r].n == n && ms[r].i == Node.OnRead(true, content, cv)
    && forall k {:trigger ms[k]} | r < k < i :: !Reloads(ms[k], n)
  }

  /** Since then node `n` was told version `v` at step `k`. */
  ghost predicate ToldAt(ws: seq<World>, ms: seq<Move>, r: nat, i: nat, n: NodeId, k: int, v: int) {
    r < k < i && k < |ms| && k < |ws| && Told(ws[k], ms[k], n) == Some(v)
  }

  ghost predicate ToldOther(ws: seq<World>, ms: seq<Move>, r: nat, i: nat, n: NodeId, cv: int) {
    exists k, v :: ToldAt(ws, ms, r, i, n, k, v) && v != cv
  }

  lemma ToldOtherLonger(ws: seq<World>, ms: seq<Move>, r: nat, i: nat, n: NodeId, cv: int)
    requires r < i < |ms| && |ms| < |ws|
    ensures ToldOther(ws, ms, r, i + 1, n, cv)
            <==> ToldOther(ws, ms, r, i, n, cv)
                 || (Told(ws[i], ms[i], n).Some? && Told(ws[i], ms[i], n).value != cv)
  {
    if ToldOther(ws, ms, r, i, n, cv) {
      var k, v :| ToldAt(ws, ms, r, i, n, k, v) && v != cv;
      assert ToldAt(ws, ms, r, i + 1, n, k, v);
    }
    if Told(ws[i], ms[i], n).Some? && Told(ws[i], ms[i], n).value != cv {
      assert ToldAt(ws, ms, r, i + 1, n, i, Told(ws[i], ms[i], n).value);
    }
    if ToldOther(ws, ms, r, i + 1, n, cv) {
      var k, v :| ToldAt(ws, ms, r, i + 1, n, k, v) && v != cv;
      assert k < i ==> ToldAt(ws, ms, r, i, n, k, v);
    }
  }

  predicate Shows(c: Node.Cache, content: string, cv: int, stale: bool) {
    c.contentLoaded && c.content == content && c.contentVersion == cv && (c.contentStale <==> stale)
  }

  lemma ReadMoves(w: World, m: Move, w': World, n: NodeId, content: string, cv: int)
    requires Moves(w, m, w') && m.Show? && m.n == n && m.i == Node.OnRead(true, content, cv)
    ensures n in w'.views && Shows(w'.views[n], content, cv, false)
  {}

  lemma MarkMoves(w: World, m: Move, w': World, n: NodeId, content: string, cv: int, stale: bool)
    requires Moves(w, m, w') && n in w.views && !Reloads(m, n) && Shows(w.views[n], content, cv, stale)
    ensures n in w'.views
    ensures Shows(w'.views[n], content, cv, stale || (Told(w, m, n).Some? && Told(w, m, n).value != cv))
  {
    ViewMoves(w, m, w', n);
  }

  /** A snapshot stays as it was read, and is marked stale if and only if the node has been told another version. */
  lemma {:induction false} MarkedIff(init: string, ws: seq<World>, ms: seq<Move>, r: nat, i: nat, n: NodeId,
      content: string, cv: int)
    requires IsWorldRun(init, ws, ms) && SnapshotSince(ws, ms, r, i, n, content, cv)
    ensures n in ws[i].views && Shows(ws[i].views[n], content, cv, ToldOther(ws, ms, r, i, n, cv))
    decreases i
  {
    if r < i - 1 {
      MarkedIff(init, ws, ms, r, i - 1, n, content, cv);
      ToldOtherLonger(ws, ms, r, i - 1, n, cv);
      MarkNext(init, ws, ms, i - 1, n, content, cv, ToldOther(ws, ms, r, i - 1, n, cv));
    } else {
      ReadNext(init, ws, ms, r, n, content, cv);
    }
  }

  lemma MarkNext(init: string, ws: seq<World>, ms: seq<Move>, k: nat, n: NodeId, content: string, cv: int, stale: bool)
    requires IsWorldRun(init, ws, ms) && k < |ms|
    requires n in ws[k].views && !Reloads(ms[k], n) && Shows(ws[k].views[n], content, cv, stale)
    ensures n in ws[k + 1].views
    ensures Shows(ws[k + 1].views[n], content, cv,
                  stale || (Told(ws[k], ms[k], n).Some? && Told(ws[k], ms[k], n).value != cv))
  {
    assert Moves(ws[k], ms[k], ws[k + 1]);
    MarkMoves(ws[k], ms[k], ws[k + 1], n, content, cv, stale);
  }

  lemma ReadNext(init: string, ws: seq<World>, ms: seq<Move>, k: nat, n: NodeId, content: string, cv: int)
    requires IsWorldRun(init, ws, ms) && k < |ms|
    requires ms[k].Show? && ms[k].n == n && ms[k].i == Node.OnRead(true, content, cv)
    ensures n in ws[k + 1].views && Shows(ws[k + 1].views[n], content, cv, false)
  {
    assert Moves(ws[k], ms[k], ws[k + 1]);
    ReadMoves(ws[k], ms[k], ws[k + 1], n, content, cv);
  }

  /** What a node is told is a version of the log. */
  lemma ToldVersion(init: string, w: World, m: Move, n: NodeId)
    requires WorldInv(init, w) && Able(w, m) && Told(w, m, n).Some?
    ensures 1 <= Told(w, m, n).value <= |Log(w.sys.order)|
  {
    if m.Notice? {
      EventVersionHolds(init, w, w.heard[n]);
    } else {
      WriteVersionHolds(init, w, n, m.k, m.i.version);
    }
  }

  lemma EventVersionHolds(init: string, w: World, body: M.Body)
    requires SystemInv(init, w.sys) && Announced(w.sys, body) && M.EventVersion(body).Some?
    ensures 1 <= M.EventVersion(body).value <= |Log(w.sys.order)|
  {
    var t :| AnnouncedBy(w.sys, body, t);
    O.AnnounceTells(w.sys.ops[t].op, w.sys.ops[t].pc.result.version);
    ReturnedEntry(init, w.sys, t);
  }

  lemma WriteVersionHolds(init: string, w: World, n: NodeId, k: Net.CallId, v: int)
    requires WorldInv(init, w) && n in w.nets && k in w.nets[n].calls
    requires ShowsAs(w.nets[n].calls[k], Node.OnWrite(true, v))
    ensures 1 <= v <= |Log(w.sys.order)|
  {
    var t := OkIsOperation(w, n, k);
    ReturnedEntry(init, w.sys, t);
    M.TextInjective("READ", "WRITE");
    O.ReplyTells(w.sys.ops[t].op, w.sys.ops[t].pc.result);
  }

  lemma ToldInLog(init: string, ws: seq<World>, ms: seq<Move>, r: nat, i: nat, n: NodeId, k: int, v: int)
    requires IsWorldRun(init, ws, ms) && i < |ws| && ToldAt(ws, ms, r, i, n, k, v)
    ensures 1 <= v <= |Log(ws[i].sys.order)|
  {
    assert Moves(ws[k], ms[k], ws[k + 1]);
    WorldInvAlways(init, ws, ms, k);
    ToldVersion(init, ws[k], ms[k], n);
    RunLater(init, ws, ms, k, i);
    LogLater(ws[k].sys, ws[i].sys);
  }

  ghost predicate ToldOlder(ws: seq<World>, ms: seq<Move>, r: nat, i: nat, n: NodeId, cv: int) {
    exists k, v :: ToldAt(ws, ms, r, i, n, k, v) && v < cv
  }

  ghost predicate ToldNewer(ws: seq<World>, ms: seq<Move>, r: nat, i: nat, n: NodeId, cv: int) {
    exists k, v :: ToldAt(ws, ms, r, i, n, k, v) && v > cv
  }

  /** Exactly what the mark says. Whoever is told a newer version has an outdated snapshot, and it is marked. But a
      snapshot that is still the whole log is marked too, if and only if an older version was told since it was read;
      so a mark means that the log has really moved unless an older version was told. */
  lemma {:induction false} MarkMeaning(init: string, ws: seq<World>, ms: seq<Move>, r: nat, i: nat, n: NodeId,
      content: string, cv: int)
    requires IsWorldRun(init, ws, ms) && SnapshotSince(ws, ms, r, i, n, content, cv)
    ensures n in ws[i].views && cv <= |Log(ws[i].sys.order)|
    ensures ToldNewer(ws, ms, r, i, n, cv) ==> ws[i].views[n].contentStale && |Log(ws[i].sys.order)| > cv
    ensures |Log(ws[i].sys.order)| == cv ==>
              (ws[i].views[n].contentStale <==> ToldOlder(ws, ms, r, i, n, cv))
    ensures ws[i].views[n].contentStale && !ToldOlder(ws, ms, r, i, n, cv) ==> |Log(ws[i].sys.order)| > cv
  {
    MarkedIff(init, ws, ms, r, i, n, content, cv);
    CacheIsSnapshot(init, ws, ms, i, n);
    forall k, v | ToldAt(ws, ms, r, i, n, k, v) ensures v <= |Log(ws[i].sys.order)| {
      ToldInLog(init, ws, ms, r, i, n, k, v);
    }
    if ToldOther(ws, ms, r, i, n, cv) {
      var k, v :| ToldAt(ws, ms, r, i, n, k, v) && v != cv;
      assert v < cv ==> ToldOlder(ws, ms, r, i, n, cv);
    }
  }

  // ---- what a node displays ----------------------------------------------------------------------------------

  predicate ShowsRead(m: Move, n: NodeId) { m.Show? && m.n == n && m.i.OnRead? && m.i.ok }

  /** A successful read was shown at node `n` at step `r`, and since then it has neither read again nor logged in or
      out. */
  ghost predicate ReadSince(ms: seq<Move>, r: nat, i: nat, n: NodeId) {
    && r < i <= |ms| && ShowsRead(ms[r], n)
    && forall k {:trigger ms[k]} | r < k < i :: !Reloads(ms[k], n)
  }

  ghost predicate HasRead(ms: seq<Move>, i: nat, n: NodeId) {
    exists r: nat :: ReadSince(ms, r, i, n)
  }

  lemma HasReadLonger(ms: seq<Move>, i: nat, n: NodeId)
    requires i < |ms|
    ensures HasRead(ms, i + 1, n) <==> ShowsRead(ms[i], n) || (HasRead(ms, i, n) && !Reloads(ms[i], n))
  {
    if ShowsRead(ms[i], n) {
      assert ReadSince(ms, i, i + 1, n);
    } else if HasRead(ms, i, n) && !Reloads(ms[i], n) {
      var r: nat :| ReadSince(ms, r, i, n);
      assert ReadSince(ms, r, i + 1, n);
    } else if HasRead(ms, i + 1, n) {
      var r: nat :| ReadSince(ms, r, i + 1, n);
      ReadBefore(ms, r, i, n);
    }
  }

  lemma ReadBefore(ms: seq<Move>, r: nat, i: nat, n: NodeId)
    requires ReadSince(ms, r, i + 1, n)
    ensures if r == i then ShowsRead(ms[i], n) else ReadSince(ms, r, i, n) && !Reloads(ms[i], n)
  {}

  lemma DisplayMoves(w: World, m: Move, w': World, n: NodeId)
    requires Moves(w, m, w') && n in w'.views
    ensures n in w.views
    ensures w'.views[n].contentLoaded <==> ShowsRead(m, n) || (w.views[n].contentLoaded && !Reloads(m, n))
  {}

  lemma DisplayNext(init: string, ws: seq<World>, ms: seq<Move>, k: nat, n: NodeId)
    requires IsWorldRun(init, ws, ms) && k < |ms| && n in ws[k + 1].views
    ensures n in ws[k].views
    ensures ws[k + 1].views[n].contentLoaded
            <==> ShowsRead(ms[k], n) || (ws[k].views[n].contentLoaded && !Reloads(ms[k], n))
  {
    assert Moves(ws[k], ms[k], ws[k + 1]);
    DisplayMoves(ws[k], ms[k], ws[k + 1], n);
  }

  lemma {:induction false} LoadedIff(init: string, ws: seq<World>, ms: seq<Move>, i: nat, n: NodeId)
    requires IsWorldRun(init, ws, ms) && i < |ws| && n in ws[i].views
    ensures ws[i].views[n].contentLoaded <==> HasRead(ms, i, n)
  {
    if i > 0 {
      DisplayNext(init, ws, ms, i - 1, n);
      LoadedIff(init, ws, ms, i - 1, n);
      HasReadLonger(ms, i - 1, n);
    }
  }

  /** A node displays content if and only if a successful read was shown there with no login and no logout since; it is
      the content of the last such read, with its version; and otherwise it displays nothing and no mark. */
  lemma {:induction false} DisplaysIff(init: string, ws: seq<World>, ms: seq<Move>, i: nat, n: NodeId)
    requires IsWorldRun(init, ws, ms) && i < |ws| && n in ws[i].views
    ensures var c := ws[i].views[n];
            && (c.contentLoaded <==> HasRead(ms, i, n))
            && (forall r: nat | ReadSince(ms, r, i, n) ::
                  c.content == ms[r].i.content && c.contentVersion == ms[r].i.version)
            && (!c.contentLoaded ==> c.content == "" && !c.contentStale)
  {
    LoadedIff(init, ws, ms, i, n);
    CacheIsSnapshot(init, ws, ms, i, n);
    forall r: nat | ReadSince(ms, r, i, n)
      ensures ws[i].views[n].content == ms[r].i.content && ws[i].views[n].contentVersion == ms[r].i.version
    {
      MarkedIff(init, ws, ms, r, i, n, ms[r].i.content, ms[r].i.version);
    }
  }

  predicate LogsOut(m: Move, n: NodeId) { m.Show? && m.n == n && m.i.OnLogout? }

  /** The version that move `m` gives node `n`, in whatever way. */
  function Gives(w: World, m: Move, n: NodeId): Option<int> {
    match m
    case Show(k, _, OnRead(true, _, v)) => if k == n then Some(v) else None
    case Show(k, _, OnLogin(true, v)) => if k == n then Some(v) else None
    case _ => Told(w, m, n)
  }

  /** Step `k` gave node `n` version `v`, and since then it was given no other and has not logged out. */
  ghost predicate GivenSince(ws: seq<World>, ms: seq<Move>, k: nat, i: nat, n: NodeId, v: int) {
    && k < i <= |ms| && |ms| < |ws| && Gives(ws[k], ms[k], n) == Some(v)
    && forall j {:trigger ms[j]} | k < j < i :: Gives(ws[j], ms[j], n).None? && !LogsOut(ms[j], n)
  }

  ghost predicate Given(ws: seq<World>, ms: seq<Move>, i: nat, n: NodeId, v: int) {
    exists k: nat :: GivenSince(ws, ms, k, i, n, v)
  }

  lemma GivenLonger(ws: seq<World>, ms: seq<Move>, i: nat, n: NodeId, v: int)
    requires i < |ms| < |ws|
    ensures Given(ws, ms, i + 1, n, v)
            <==> match Gives(ws[i], ms[i], n)
                 case Some(u) => u == v
                 case None => Given(ws, ms, i, n, v) && !LogsOut(ms[i], n)
  {
    if Gives(ws[i], ms[i], n) == Some(v) {
      assert GivenSince(ws, ms, i, i + 1, n, v);
    } else if Gives(ws[i], ms[i], n).None? && Given(ws, ms, i, n, v) && !LogsOut(ms[i], n) {
      var k: nat :| GivenSince(ws, ms, k, i, n, v);
      assert GivenSince(ws, ms, k, i + 1, n, v);
    } else if Given(ws, ms, i + 1, n, v) {
      var k: nat :| GivenSince(ws, ms, k, i + 1, n, v);
      GivenBefore(ws, ms, k, i, n, v);
    }
  }

  lemma GivenBefore(ws: seq<World>, ms: seq<Move>, k: nat, i: nat, n: NodeId, v: int)
    requires i < |ms| && GivenSince(ws, ms, k, i + 1, n, v)
    ensures if k == i then Gives(ws[i], ms[i], n) == Some(v)
            else GivenSince(ws, ms, k, i, n, v) && Gives(ws[i], ms[i], n).None? && !LogsOut(ms[i], n)
  {}

  predicate Displays(c: Node.Cache, v: int) { c.hasVersion && c.version == v }

  lemma VersionMoves(w: World, m: Move, w': World, n: NodeId, v: int)
    requires Moves(w, m, w') && n in w'.views
    ensures n in w.views
    ensures Displays(w'.views[n], v)
            <==> match Gives(w, m, n)
                 case Some(u) => u == v
                 case None => Displays(w.views[n], v) && !LogsOut(m, n)
  {}

  lemma VersionNext(init: string, ws: seq<World>, ms: seq<Move>, k: nat, n: NodeId, v: int)
    requires IsWorldRun(init, ws, ms) && k < |ms| && n in ws[k + 1].views
    ensures n in ws[k].views
    ensures Displays(ws[k + 1].views[n], v)
            <==> match Gives(ws[k], ms[k], n)
                 case Some(u) => u == v
                 case None => Displays(ws[k].views[n], v) && !LogsOut(ms[k], n)
  {
    assert Moves(ws[k], ms[k], ws[k + 1]);
    VersionMoves(ws[k], ms[k], ws[k + 1], n, v);
  }

  /** A node displays a version if and only if that version is the last it was given, by a login, a read, a write or an
      event, and it has not logged out since. */
  lemma {:induction false} VersionIff(init: string, ws: seq<World>, ms: seq<Move>, i: nat, n: NodeId, v: int)
    requires IsWorldRun(init, ws, ms) && i < |ws| && n in ws[i].views
    ensures Displays(ws[i].views[n], v) <==> Given(ws, ms, i, n, v)
  {
    if i > 0 {
      VersionNext(init, ws, ms, i - 1, n, v);
      VersionIff(init, ws, ms, i - 1, n, v);
      GivenLonger(ws, ms, i - 1, n, v);
    }
  }

  // ---- each event and each reply once ------------------------------------------------------------------------

  /** The events that the listener of node `n` has read before state `i`. */
  function HeardEvents(ws: seq<World>, ms: seq<Move>, i: nat, n: NodeId): seq<M.Body>
    requires i <= |ms| && i <= |ws|
  {
    if i == 0 then [] else HeardEvents(ws, ms, i - 1, n) + HeardBy(ws[i - 1], ms[i - 1], n)
  }

  function HeardBy(w: World, m: Move, n: NodeId): seq<M.Body> {
    if m.Network? && m.n == n && n in w.nets && Net.Enabled(w.nets[n], m.x) && Hears(w.nets[n], m.x).Some?
    then [Hears(w.nets[n], m.x).value]
    else []
  }

  /** The events with which the callback of node `n` has run before state `i`. */
  function NotedEvents(ws: seq<World>, ms: seq<Move>, i: nat, n: NodeId): seq<M.Body>
    requires i <= |ms| && i <= |ws|
  {
    if i == 0 then [] else NotedEvents(ws, ms, i - 1, n) + NotedBy(ws[i - 1], ms[i - 1], n)
  }

  function NotedBy(w: World, m: Move, n: NodeId): seq<M.Body> {
    if m == Notice(n) && n in w.heard then [w.heard[n]] else []
  }

  function InHand(w: World, n: NodeId): seq<M.Body> {
    if n in w.heard then [w.heard[n]] else []
  }

  lemma HandMoves(w: World, m: Move, w': World, n: NodeId)
    requires Moves(w, m, w')
    ensures InHand(w, n) + HeardBy(w, m, n) == NotedBy(w, m, n) + InHand(w', n)
  {}

  /** No event is lost, doubled or reordered between the listener of a node and its view: the callback has run with
      exactly the events that the listener has read, once each and in order, but for the one in its hands. */
  lemma {:induction false} EventsNoted(init: string, ws: seq<World>, ms: seq<Move>, i: nat, n: NodeId)
    requires IsWorldRun(init, ws, ms) && i < |ws|
    ensures HeardEvents(ws, ms, i, n) == NotedEvents(ws, ms, i, n) + InHand(ws[i], n)
  {
    if i > 0 {
      EventsNoted(init, ws, ms, i - 1, n);
      assert Moves(ws[i - 1], ms[i - 1], ws[i]);
      HandMoves(ws[i - 1], ms[i - 1], ws[i], n);
      Shift(NotedEvents(ws, ms, i - 1, n), InHand(ws[i - 1], n), HeardBy(ws[i - 1], ms[i - 1], n),
            NotedBy(ws[i - 1], ms[i - 1], n), InHand(ws[i], n));
    }
  }

  lemma Shift<T>(a: seq<T>, b: seq<T>, c: seq<T>, b': seq<T>, c': seq<T>)
    requires b + c == b' + c'
    ensures a + b + c == a + b' + c'
  {
    assert a + b + c == a + (b + c);
    assert a + b' + c' == a + (b' + c');
  }

  /** What a call that asked for `action` and has returned does to a view: a reply with status OK is shown as it is,
      whatever else a call returned leaves the view alone, and a logout clears it in any case. */
  ghost predicate ShowsReply(c: Net.Call, v: Node.Cache, v': Node.Cache) {
    var b := if c.pc.Done? && c.pc.answer.Answered? then c.pc.answer.body else M.ErrorReply("");
    var ok := M.Get(b, "status") == Some(M.JsonText("OK"));
    && (M.HasAction(c.msg.body, "LOGOUT") ==> !v'.contentLoaded && v'.content == "" && !v'.hasVersion)
    && (!M.HasAction(c.msg.body, "LOGOUT") && !ok ==> v' == v)
    && (!M.HasAction(c.msg.body, "LOGOUT") && ok ==> v'.hasVersion && M.Get(b, "version") == Some(M.Number(v'.version)))
    && (M.HasAction(c.msg.body, "READ") && ok ==>
          && v'.contentLoaded && !v'.contentStale && v'.contentVersion == v'.version
          && M.Get(b, "content") == Some(M.JsonText(v'.content)))
    && (M.HasAction(c.msg.body, "WRITE") && ok ==>
          v'.contentLoaded == v.contentLoaded && v'.content == v.content && v'.contentVersion == v.contentVersion)
    && (M.HasAction(c.msg.body, "LOGIN") && ok ==> !v'.contentLoaded && v'.content == "")
  }

  lemma ActionsDiffer()
    ensures M.JsonText("READ") != M.JsonText("WRITE") && M.JsonText("READ") != M.JsonText("LOGIN")
    ensures M.JsonText("READ") != M.JsonText("LOGOUT") && M.JsonText("WRITE") != M.JsonText("LOGIN")
    ensures M.JsonText("WRITE") != M.JsonText("LOGOUT") && M.JsonText("LOGIN") != M.JsonText("LOGOUT")
    ensures M.JsonText("OK") != M.JsonText("ERROR")
  {
    M.TextInjective("READ", "WRITE"); M.TextInjective("READ", "LOGIN"); M.TextInjective("READ", "LOGOUT");
    M.TextInjective("WRITE", "LOGIN"); M.TextInjective("WRITE", "LOGOUT"); M.TextInjective("LOGIN", "LOGOUT");
    M.TextInjective("OK", "ERROR");
  }

  lemma ReplyMoves(w: World, m: Move, w': World)
    requires Moves(w, m, w') && m.Show?
    ensures m.n in w.nets && m.k in w.nets[m.n].calls && m.n in w.views && m.n in w'.views
    ensures ShowsReply(w.nets[m.n].calls[m.k], w.views[m.n], w'.views[m.n])
  {
    ActionsDiffer();
  }

  /** Whatever a user sees after a call is what the reply to that call says. */
  lemma {:induction false} RepliesAreShown(init: string, ws: seq<World>, ms: seq<Move>, i: nat, n: NodeId,
      k: Net.CallId)
    requires IsWorldRun(init, ws, ms) && i < |ms| && ms[i].Show? && ms[i].n == n && ms[i].k == k
    ensures n in ws[i].nets && k in ws[i].nets[n].calls && n in ws[i].views && n in ws[i + 1].views
    ensures ShowsReply(ws[i].nets[n].calls[k], ws[i].views[n], ws[i + 1].views[n])
  {
    assert Moves(ws[i], ms[i], ws[i + 1]);
    ReplyMoves(ws[i], ms[i], ws[i + 1]);
  }

  lemma {:induction false} ShownStays(init: string, ws: seq<World>, ms: seq<Move>, i: nat, j: nat)
    requires IsWorldRun(init, ws, ms) && i < j < |ws| && ms[i].Show?
    ensures (ms[i].n, ms[i].k) in ws[j].shown
    decreases j
  {
    assert Moves(ws[j - 1], ms[j - 1], ws[j]);
    if i < j - 1 { ShownStays(init, ws, ms, i, j - 1); }
  }

  /** A call that has come back updates the view of its node at most once. */
  lemma {:induction false} ShownOnce(init: string, ws: seq<World>, ms: seq<Move>, i: nat, j: nat)
    requires IsWorldRun(init, ws, ms) && i < j < |ms| && ms[i].Show? && ms[j].Show? && ms[i].n == ms[j].n
    ensures ms[i].k != ms[j].k
  {
    ShownStays(init, ws, ms, i, j);
    assert Moves(ws[j], ms[j], ws[j + 1]);
  }

  // ---- a current snapshot that is marked stale ---------------------------------------------------------------

  /** It does happen: any run in which a quiet node shows the whole log, unmarked, while the event of an earlier write
      is still to be delivered to it, goes on with that event, and the snapshot is marked though nothing has changed. */
  lemma {:induction false} LateEventAlarms(init: string, ws: seq<World>, ms: seq<Move>, n: NodeId, t: Tid)
    returns (ws': seq<World>, ms': seq<Move>)
    requires IsWorldRun(init, ws, ms) && QuietNode(ws[|ms|], n)
    requires var w := ws[|ms|];
             && w.views[n].contentLoaded && !w.views[n].contentStale && w.views[n].contentVersion == |Log(w.sys.order)|
             && HasReturned(w.sys, t) && w.sys.ops[t].op.Write? && w.sys.ops[t].pc.result.Committed?
             && w.sys.ops[t].pc.result.version < |Log(w.sys.order)|
             && Net.Event(O.Announce(w.sys.ops[t].op, w.sys.ops[t].pc.result.version))
                !in Channel(w, n, w.nets[n].conn).down
    ensures IsWorldRun(init, ws', ms') && n in ws'[|ms'|].views
    ensures var w := ws'[|ms'|];
            w.sys == ws[|ms|].sys && w.views[n].contentStale && w.views[n].contentVersion == |Log(w.sys.order)|
  {
    var s, op, v := ws[|ms|].nets[n], ws[|ms|].sys.ops[t].op, ws[|ms|].sys.ops[t].pc.result.version;
    assert AnnouncedBy(ws[|ms|].sys, O.Announce(op, v), t);
    O.AnnounceTells(op, v);
    ws', ms' := Delivered(init, ws, ms, n, O.Announce(op, v));
    ws', ms' := Extend(init, ws', ms', Notice(n));
  }

  lemma Delivered(init: string, ws: seq<World>, ms: seq<Move>, n: NodeId, body: M.Body)
    returns (ws': seq<World>, ms': seq<Move>)
    requires IsWorldRun(init, ws, ms) && QuietNode(ws[|ms|], n) && Announced(ws[|ms|].sys, body)
    ensures IsWorldRun(init, ws', ms')
    ensures var w, w' := ws[|ms|], ws'[|ms'|];
            w'.sys == w.sys && w'.views == w.views && n in w'.heard && w'.heard[n] == body
  {
    var s := ws[|ms|].nets[n];
    ws', ms' := Extend(init, ws, ms, Network(n, Net.Publish(s.conn, body)));
    assert Channel(ws'[|ms'|], n, s.conn).down == Net.Chan(s, s.conn).down + [Net.Event(body)];
    ws', ms' := Extend(init, ws', ms', Network(n, Net.Receive));
  }
}
