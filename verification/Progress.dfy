/** Completion. Every step of any run lowers a measure, and as long as no write acquire has timed out some
    unfinished thread can always move without help from a deadline. */
module Progress {
  import opened ReadWriteLocks
  import opened LockSystem
  import opened LockTheorems

  /** Phases an operation still has before it. */
  function Rank(th: Thread): nat {
    match th.pc
    case Idle => 6
    case Start => 5
    case Waiting => 4
    case Holding => 3
    case FileRead(_) => 2
    case FileAppended(_) => 2
    case Finished(_) => 1
    case GaveUp => 1
    case Returned(_) => 0
  }

  function AtLeast(ops: map<Tid, Thread>, k: nat): set<Tid> {
    set t | t in ops && Rank(ops[t]) >= k
  }

  /** The sum of the ranks, counted by levels. */
  function Phases(ops: map<Tid, Thread>): nat {
    |AtLeast(ops, 1)| + |AtLeast(ops, 2)| + |AtLeast(ops, 3)|
    + |AtLeast(ops, 4)| + |AtLeast(ops, 5)| + |AtLeast(ops, 6)|
  }

  function NotifiedThreads(s: State): set<Tid> {
    set t | t in s.ops && Notified(s, t)
  }

  function Measure(s: State): nat {
    Phases(s.ops) * (|s.ops| + 1) + |NotifiedThreads(s)|
  }

  lemma LevelFalls(ops: map<Tid, Thread>, t: Tid, th: Thread, k: nat)
    requires t in ops && Rank(th) <= Rank(ops[t])
    ensures |AtLeast(ops[t := th], k)| <= |AtLeast(ops, k)|
    ensures Rank(th) < k <= Rank(ops[t]) ==> |AtLeast(ops[t := th], k)| < |AtLeast(ops, k)|
    ensures Rank(th) == Rank(ops[t]) ==> AtLeast(ops[t := th], k) == AtLeast(ops, k)
  {
    SubsetSize(AtLeast(ops[t := th], k), AtLeast(ops, k));
    if Rank(th) < k <= Rank(ops[t]) {
      assert t in AtLeast(ops, k) && t !in AtLeast(ops[t := th], k);
    }
  }

  lemma PhasesFall(ops: map<Tid, Thread>, t: Tid, th: Thread)
    requires t in ops && Rank(th) <= Rank(ops[t])
    ensures Phases(ops[t := th]) <= Phases(ops)
    ensures Rank(th) < Rank(ops[t]) ==> Phases(ops[t := th]) < Phases(ops)
  {
    LevelFalls(ops, t, th, 1); LevelFalls(ops, t, th, 2); LevelFalls(ops, t, th, 3);
    LevelFalls(ops, t, th, 4); LevelFalls(ops, t, th, 5); LevelFalls(ops, t, th, 6);
  }

  /** The one step that completes no phase: a notified thread finds its guard blocked and waits again. */
  predicate WaitsAgain(s: State, l: Label, s': State) {
    var t := l.step.t;
    && Notified(s, t) && s'.ops == s.ops
    && s'.lock.readersOk + s'.lock.writersOk == s.lock.readersOk + s.lock.writersOk + {t}
  }

  lemma PhaseOrWait(s: State, l: Label, s': State)
    requires StepTo(s, l, s')
    ensures s'.ops == s.ops[l.step.t := s'.ops[l.step.t]]
    ensures Rank(s'.ops[l.step.t]) < Rank(s.ops[l.step.t]) || WaitsAgain(s, l, s')
  {
    if l.step.Pass? && s'.ops[l.step.t].pc.Waiting? && s.ops[l.step.t].pc.Waiting? {
      assert s'.ops[l.step.t] == s.ops[l.step.t];
    }
  }

  /** Every step, timeouts included, lowers (phases left, notified threads) lexicographically. */
  lemma StepLowers(s: State, l: Label, s': State)
    requires StepTo(s, l, s')
    ensures Phases(s'.ops) < Phases(s.ops)
            || (Phases(s'.ops) == Phases(s.ops) && |NotifiedThreads(s')| < |NotifiedThreads(s)|)
    ensures |s'.ops| == |s.ops|
  {
    PhaseOrWait(s, l, s');
    assert s'.ops.Keys == s.ops.Keys;
    SameSize(s.ops, s'.ops);
    if WaitsAgain(s, l, s') {
      FewerNotified(s, l, s');
    } else {
      PhasesFall(s.ops, l.step.t, s'.ops[l.step.t]);
    }
  }

  lemma SameSize(a: map<Tid, Thread>, b: map<Tid, Thread>)
    requires a.Keys == b.Keys
    ensures |a| == |b|
  {
    assert |a.Keys| == |a| && |b.Keys| == |b|;
  }

  lemma FewerNotified(s: State, l: Label, s': State)
    requires WaitsAgain(s, l, s')
    ensures |NotifiedThreads(s')| < |NotifiedThreads(s)|
  {
    var t := l.step.t;
    assert t in NotifiedThreads(s) && t !in NotifiedThreads(s');
    forall u | u in NotifiedThreads(s') ensures u in NotifiedThreads(s) {
      assert u !in s'.lock.readersOk + s'.lock.writersOk;
      assert u !in s.lock.readersOk + s.lock.writersOk;
    }
    SubsetSize(NotifiedThreads(s'), NotifiedThreads(s));
  }

  lemma NotifiedBound(s: State)
    ensures |NotifiedThreads(s)| <= |s.ops|
  {
    SubsetSize(NotifiedThreads(s), s.ops.Keys);
    assert |s.ops.Keys| == |s.ops|;
  }

  lemma MeasureFalls(s: State, l: Label, s': State)
    requires StepTo(s, l, s')
    ensures Measure(s') < Measure(s)
  {
    StepLowers(s, l, s');
    NotifiedBound(s');
    var n := |s.ops| + 1;
    if Phases(s'.ops) < Phases(s.ops) {
      Scale(Phases(s'.ops), Phases(s.ops), n);
    }
  }

  lemma OneMore(a: nat, n: nat)
    ensures (a + 1) * n == a * n + n
  {}

  lemma {:induction false} Scale(a: nat, b: nat, n: nat)
    requires a < b
    ensures a * n + n <= b * n
  {
    OneMore(b - 1, n);
    if a < b - 1 { Scale(a, b - 1, n); }
  }

  lemma {:induction false} Descends(init: string, states: seq<State>, labels: seq<Label>, f: State -> nat, i: nat)
    requires IsRun(init, states, labels) && i < |states|
    requires forall s, l, s' :: StepTo(s, l, s') ==> f(s') < f(s)
    ensures f(states[i]) + i <= f(states[0])
  {
    if i > 0 {
      Descends(init, states, labels, f, i - 1);
      assert StepTo(states[i - 1], labels[i - 1], states[i]);
    }
  }

  lemma InitialMeasure(init: string, s: State)
    requires Initial(init, s)
    ensures Measure(s) == 6 * |s.ops| * (|s.ops| + 1)
  {
    forall k: nat | k <= 6 ensures AtLeast(s.ops, k) == s.ops.Keys {}
    assert |s.ops.Keys| == |s.ops|;
    assert NotifiedThreads(s) == {};
  }

  /** No run over n operations is longer than 6n(n + 1) steps. */
  lemma {:induction false} RunsAreShort(init: string, states: seq<State>, labels: seq<Label>)
    requires IsRun(init, states, labels)
    ensures var n := |states[0].ops|; |labels| <= 6 * n * (n + 1)
  {
    forall s, l, s' | StepTo(s, l, s') ensures Measure(s') < Measure(s) { MeasureFalls(s, l, s'); }
    Descends(init, states, labels, Measure, |labels|);
    InitialMeasure(init, states[0]);
  }

  /** A thread that wakes by its deadline alone, without having been notified. */
  predicate DeadlineWake(s: State, l: Label) {
    && l.step.Pass? && l.step.t in s.ops && s.ops[l.step.t].pc.Waiting? && !Notified(s, l.step.t)
  }

  predicate AllReturned(s: State) {
    forall t | t in s.ops :: s.ops[t].pc.Returned?
  }

  ghost predicate CanMove(s: State, t: Tid) {
    exists l: Label :: l.step.t == t && Enabled(s, l) && !DeadlineWake(s, l)
  }

  lemma MovesUnlessQueued(s: State, t: Tid)
    requires t in s.ops && !s.ops[t].pc.Returned? && t !in s.lock.readersOk + s.lock.writersOk
    ensures CanMove(s, t)
  {
    var pick: Tid := 0;
    if s.lock.writersOk != {} { pick :| pick in s.lock.writersOk; }
    var step :=
      match s.ops[t].pc
      case Idle => Invoke(t, 0)
      case Start => Pass(t)
      case Waiting => Pass(t)
      case Holding => AccessFile(t, "")
      case Finished(_) => Release(t, pick)
      case _ => AccessVersion(t);
    var l := Label(s.now, step);
    assert l.step.t == t && Enabled(s, l) && !DeadlineWake(s, l);
  }

  /** No deadlock behind the timeouts: unless a write acquire has timed out, an unfinished system always
      has a thread that can move without waiting for a deadline. */
  lemma {:induction false} SomeoneMoves(s: State)
    requires LockInv(s) && !s.writeTimedOut && !AllReturned(s)
    ensures exists t :: CanMove(s, t)
  {
    if exists t | t in s.ops :: !s.ops[t].pc.Returned? && t !in s.lock.readersOk + s.lock.writersOk {
      var t :| t in s.ops && !s.ops[t].pc.Returned? && t !in s.lock.readersOk + s.lock.writersOk;
      MovesUnlessQueued(s, t);
    } else {
      AllQueued(s);
    }
  }

  ghost predicate EveryoneQueued(s: State) {
    forall t | t in s.ops && !s.ops[t].pc.Returned? :: t in s.lock.readersOk + s.lock.writersOk
  }

  lemma {:induction false} QueuedLockIsFree(s: State)
    requires LockInv(s) && EveryoneQueued(s)
    ensures s.lock.Free() && s.lock.writersOk == {}
  {
    forall t | t in s.ops ensures RoleOf(s.ops[t]) !in {Reading, Writing} {
      QueuedRole(s, t);
    }
    assert Threads(s.ops, Reading) == {} && Threads(s.ops, Writing) == {};
    forall u ensures !Notified(s, u) {
      if u in s.ops && s.ops[u].pc.Waiting? { assert u in s.lock.readersOk + s.lock.writersOk; }
    }
  }

  lemma QueuedRole(s: State, t: Tid)
    requires QueuesHoldWaiters(s) && EveryoneQueued(s) && t in s.ops
    ensures RoleOf(s.ops[t]) !in {Reading, Writing}
  {
    if !s.ops[t].pc.Returned? {
      assert t in Threads(s.ops, WantsRead) || t in Threads(s.ops, WantsWrite);
    }
  }

  lemma {:induction false} AllQueued(s: State)
    requires LockInv(s) && EveryoneQueued(s) && !AllReturned(s)
    ensures s.writeTimedOut
  {
    QueuedLockIsFree(s);
    forall t | t in s.ops && !s.ops[t].pc.Returned? ensures t in s.lock.readersOk && RoleOf(s.ops[t]) == WantsRead {
      assert t in Threads(s.ops, WantsRead);
    }
    assert Threads(s.ops, WantsWrite) == {};
  }

  /** Completion: a run in which no write acquire timed out, and which no step other than a deadline
      wake-up can extend, has answered every operation. */
  lemma {:induction false} Completes(init: string, states: seq<State>, labels: seq<Label>)
    requires IsRun(init, states, labels)
    requires forall j | 0 <= j < |labels| :: !WriteFails(states[j], labels[j])
    requires forall t :: !CanMove(states[|labels|], t)
    ensures AllReturned(states[|labels|])
  {
    LockInvAlways(init, states, labels, |labels|);
    if states[|labels|].writeTimedOut {
      var j := FlagMeaning(init, states, labels, |labels|);
    } else if !AllReturned(states[|labels|]) {
      SomeoneMoves(states[|labels|]);
    }
  }

  /** Deadlock avoidance: whatever has timed out, an unfinished operation can always be moved, if need be by
      its own deadline. */
  lemma NeverStuck(s: State, t: Tid)
    requires LockInv(s) && t in s.ops && !s.ops[t].pc.Returned?
    ensures exists l: Label :: l.step.t == t && Enabled(s, l)
  {
    if s.ops[t].pc.Waiting? {
      var l := Label(if s.now < s.ops[t].deadline then s.ops[t].deadline else s.now, Pass(t));
      assert l.step.t == t && Enabled(s, l);
    } else {
      assert t !in s.lock.readersOk + s.lock.writersOk by {
        assert t !in Threads(s.ops, WantsRead) && t !in Threads(s.ops, WantsWrite);
      }
      MovesUnlessQueued(s, t);
    }
  }

  /** So every run that cannot be extended has answered every operation. */
  lemma {:induction false} MaximalRunsComplete(init: string, states: seq<State>, labels: seq<Label>)
    requires IsRun(init, states, labels)
    requires forall l :: !Enabled(states[|labels|], l)
    ensures AllReturned(states[|labels|])
  {
    LockInvAlways(init, states, labels, |labels|);
    forall t | t in states[|labels|].ops ensures states[|labels|].ops[t].pc.Returned? {
      if !states[|labels|].ops[t].pc.Returned? {
        NeverStuck(states[|labels|], t);
      }
    }
  }
}
