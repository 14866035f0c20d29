/** What the lock promises over whole runs: exclusion, sound timeouts, wake-ups and writer preference. */
module LockTheorems {
  import opened ReadWriteLocks
  import opened LockSystem

  predicate Plays(s: State, t: Tid, r: Role) { t in s.ops && RoleOf(s.ops[t]) == r }

  /** At most one thread writes, and none reads while one writes. */
  lemma MutualExclusion(init: string, states: seq<State>, labels: seq<Label>, i: nat, a: Tid, b: Tid)
    requires IsRun(init, states, labels) && i < |states|
    requires Plays(states[i], a, Writing) && (Plays(states[i], b, Writing) || Plays(states[i], b, Reading))
    ensures a == b
  {
    LockInvAlways(init, states, labels, i);
    var s := states[i];
    assert a in Threads(s.ops, Writing);
    assert b !in Threads(s.ops, Reading);
    assert a != b ==> |{a, b}| == 2;
    assert {a, b} <= Threads(s.ops, Writing);
    SubsetSize({a, b}, Threads(s.ops, Writing));
  }

  // ---- timeouts ------------------------------------------------------------------------------------

  /** Step `l` makes `acquire` return False in thread `t`. */
  predicate FailsIn(s: State, l: Label, t: Tid) {
    && Enabled(s, l) && l.step == Pass(t)
    && LockPass(s, t, s.ops[t].deadline <= l.now).1 == TimedOut
  }

  predicate InvokedAt(labels: seq<Label>, j: nat, t: Tid, deadline: int) {
    j < |labels| && labels[j].step.Invoke? && labels[j].step.t == t
        && deadline == labels[j].now + labels[j].step.timeout
  }

  lemma {:induction false} DeadlineFromCall(init: string, states: seq<State>, labels: seq<Label>, i: nat, t: Tid)
    returns (j: nat)
    requires IsRun(init, states, labels) && i < |states|
    requires t in states[i].ops && !states[i].ops[t].pc.Idle?
    ensures j < i && InvokedAt(labels, j, t, states[i].ops[t].deadline)
  {
    assert i > 0;
    assert StepTo(states[i - 1], labels[i - 1], states[i]);
    if states[i - 1].ops[t].pc.Idle? {
      j := i - 1;
    } else {
      j := DeadlineFromCall(init, states, labels, i - 1, t);
    }
  }

  /** Failing happens at or after the deadline, while the guard is blocked at that instant. */
  ghost predicate FailsJustly(s: State, l: Label, t: Tid) {
    && t in s.ops && s.ops[t].deadline <= l.now
    && (s.ops[t].op.Read? ==> exists w :: Plays(s, w, Writing) || Plays(s, w, WantsWrite))
    && (s.ops[t].op.Write? ==> exists w :: Plays(s, w, Writing) || Plays(s, w, Reading))
  }

  /** Failing admits nobody and leaves nothing of the failed thread behind. */
  ghost predicate FailsCleanly(s: State, s': State, t: Tid) {
    && Threads(s'.ops, Reading) == Threads(s.ops, Reading) && Threads(s'.ops, Writing) == Threads(s.ops, Writing)
    && s'.lock.activeReaders == s.lock.activeReaders && s'.lock.activeWriters == s.lock.activeWriters
    && s'.lock.waitingWriters == |Threads(s.ops, WantsWrite) - {t}|
    && s'.lock.readersOk == s.lock.readersOk - {t} && s'.lock.writersOk == s.lock.writersOk - {t}
  }

  /** An acquire returns False only at or after call time plus timeout, justly and cleanly. */
  lemma TimeoutSound(init: string, states: seq<State>, labels: seq<Label>, i: nat, t: Tid) returns (j: nat)
    requires IsRun(init, states, labels) && i < |labels| && FailsIn(states[i], labels[i], t)
    ensures j < i && InvokedAt(labels, j, t, states[i].ops[t].deadline)
    ensures labels[j].now + labels[j].step.timeout <= labels[i].now
    ensures FailsJustly(states[i], labels[i], t) && FailsCleanly(states[i], states[i + 1], t)
  {
    assert StepTo(states[i], labels[i], states[i + 1]);
    LockInvAlways(init, states, labels, i);
    j := DeadlineFromCall(init, states, labels, i, t);
    BlockedGuard(states[i], t);
    CleanFailure(states[i], labels[i], t);
  }

  lemma FailedLock(s: State, l: Label, t: Tid)
    requires LockInv(s) && FailsIn(s, l, t)
    ensures var s' := Next(s, l);
            && s'.ops == s.ops[t := s.ops[t].(pc := GaveUp)]
            && s'.lock == s.lock.(waitingWriters := s'.lock.waitingWriters,
                                  readersOk := s.lock.readersOk - {t}, writersOk := s.lock.writersOk - {t})
  {
    assert t in s.lock.readersOk ==> t in Threads(s.ops, WantsRead);
    assert t in s.lock.writersOk ==> t in Threads(s.ops, WantsWrite);
  }

  lemma CleanFailure(s: State, l: Label, t: Tid)
    requires LockInv(s) && FailsIn(s, l, t)
    ensures FailsCleanly(s, Next(s, l), t)
  {
    CountersStep(s, l);
    FailedLock(s, l, t);
    FailedThread(s.ops, t);
  }

  lemma FailedThread(ops: map<Tid, Thread>, t: Tid)
    requires t in ops && ops[t].pc in {Start, Waiting}
    ensures var ops' := ops[t := ops[t].(pc := GaveUp)];
            && Threads(ops', Reading) == Threads(ops, Reading) && Threads(ops', Writing) == Threads(ops, Writing)
            && Threads(ops', WantsWrite) == Threads(ops, WantsWrite) - {t}
  {}

  lemma BlockedGuard(s: State, t: Tid)
    requires LockInv(s) && t in s.ops
    ensures !s.lock.GateOpen() ==> exists w :: Plays(s, w, Writing) || Plays(s, w, WantsWrite)
    ensures !s.lock.Free() ==> exists w :: Plays(s, w, Writing) || Plays(s, w, Reading)
  {
    if s.lock.activeWriters > 0 { var w :| w in Threads(s.ops, Writing); assert Plays(s, w, Writing); }
    if s.lock.waitingWriters > 0 { var w :| w in Threads(s.ops, WantsWrite); assert Plays(s, w, WantsWrite); }
    if s.lock.activeReaders > 0 { var w :| w in Threads(s.ops, Reading); assert Plays(s, w, Reading); }
  }

  // ---- wake-ups ------------------------------------------------------------------------------------

  predicate WriteFails(s: State, l: Label) {
    Enabled(s, l) && FailsIn(s, l, l.step.t) && s.ops[l.step.t].op.Write?
  }

  predicate WriteReleases(s: State, l: Label) {
    Enabled(s, l) && l.step.Release? && s.ops[l.step.t].op.Write?
  }

  /** No write lock is released strictly between steps `j` and `i`. */
  ghost predicate NoWriteReleased(states: seq<State>, labels: seq<Label>, j: int, i: int)
    requires 0 <= j < i <= |labels| < |states|
  {
    forall k {:trigger labels[k]} | j < k < i :: !WriteReleases(states[k], labels[k])
  }

  lemma FlagStep(s: State, l: Label, s': State)
    requires StepTo(s, l, s') && s'.writeTimedOut
    ensures WriteFails(s, l) || (s.writeTimedOut && !WriteReleases(s, l))
  {}

  /** The flag of the state means what it says: step `j` timed out a write, and no write was released since. */
  lemma {:induction false} FlagMeaning(init: string, states: seq<State>, labels: seq<Label>, i: nat) returns (j: nat)
    requires IsRun(init, states, labels) && i < |states| && states[i].writeTimedOut
    ensures j < i <= |labels| && WriteFails(states[j], labels[j])
    ensures NoWriteReleased(states, labels, j, i)
  {
    assert i > 0;
    assert StepTo(states[i - 1], labels[i - 1], states[i]);
    FlagStep(states[i - 1], labels[i - 1], states[i]);
    j := i - 1;
    if !WriteFails(states[i - 1], labels[i - 1]) {
      j := FlagMeaning(init, states, labels, i - 1);
      LongerGap(states, labels, j, i);
    }
  }

  lemma LongerGap(states: seq<State>, labels: seq<Label>, j: nat, i: nat)
    requires 0 <= j < i - 1 < |labels| < |states|
    requires NoWriteReleased(states, labels, j, i - 1) && !WriteReleases(states[i - 1], labels[i - 1])
    ensures NoWriteReleased(states, labels, j, i)
  {}

  ghost predicate QueuedBehindOpenGate(s: State) {
    s.lock.GateOpen() && s.lock.readersOk != {}
  }

  /** The step at which readers are left behind: a write acquire times out while readers are queued, nobody writes
      and no other writer waits. Its thread withdraws, which opens the gate, and notifies nobody. */
  predicate LeavesReadersBehind(s: State, l: Label) {
    && WriteFails(s, l) && s.lock.readersOk != {}
    && s.lock.activeWriters == 0 && Threads(s.ops, WantsWrite) <= {l.step.t}
  }

  /** The steps that end it: the last queued reader admits itself at its own deadline, or a writer arrives that is
      admitted or starts to wait. */
  predicate EndsWait(s: State, l: Label) {
    && Enabled(s, l) && l.step.Pass?
    && if s.ops[l.step.t].op.Read? then s.lock.readersOk == {l.step.t}
       else s.lock.Free() || l.now < s.ops[l.step.t].deadline
  }

  lemma GateByThreads(s: State)
    requires LockInv(s)
    ensures s.lock.GateOpen() <==> s.lock.activeWriters == 0 && Threads(s.ops, WantsWrite) == {}
    ensures s.lock.GateOpen() ==> Threads(s.ops, Writing) == {}
  {
    EmptyCount(s.ops, WantsWrite);
    EmptyCount(s.ops, Writing);
  }

  /** A write acquire that times out opens the gate exactly if nobody writes and no other writer waits. */
  lemma FailureOpensGate(s: State, l: Label)
    requires LockInv(s) && WriteFails(s, l)
    ensures Next(s, l).lock.GateOpen() <==> s.lock.activeWriters == 0 && Threads(s.ops, WantsWrite) <= {l.step.t}
    ensures Next(s, l).lock.readersOk == s.lock.readersOk
  {
    var t := l.step.t;
    FailedLock(s, l, t);
    CleanFailure(s, l, t);
    EmptySet(Threads(s.ops, WantsWrite) - {t});
    assert t !in s.lock.readersOk by { assert t !in Threads(s.ops, WantsRead); }
  }

  lemma EmptySet(threads: set<Tid>)
    ensures |threads| == 0 <==> threads == {}
  {}

  /** While nobody is left behind, a step leaves readers behind if and only if it is such a timeout. */
  lemma {:induction false} BeginsIff(s: State, l: Label)
    requires LockInv(s) && Enabled(s, l) && !QueuedBehindOpenGate(s)
    ensures QueuedBehindOpenGate(Next(s, l)) <==> LeavesReadersBehind(s, l)
  {
    if WriteFails(s, l) {
      FailureOpensGate(s, l);
    } else {
      OnlyFailuresOpen(s, l);
    }
  }

  /** Any other step that opens the gate is a write release, which leaves no reader queued. */
  lemma OnlyFailuresOpen(s: State, l: Label)
    requires LockInv(s) && Enabled(s, l) && !QueuedBehindOpenGate(s) && !WriteFails(s, l)
    ensures !QueuedBehindOpenGate(Next(s, l))
  {}

  /** While readers are left behind, a step ends that if and only if it is one of those named. */
  lemma {:induction false} EndsIff(s: State, l: Label)
    requires LockInv(s) && Enabled(s, l) && QueuedBehindOpenGate(s)
    ensures !QueuedBehindOpenGate(Next(s, l)) <==> EndsWait(s, l)
    ensures LeavesReadersBehind(s, l) ==> !EndsWait(s, l)
    ensures !WriteReleases(s, l)
  {
    GateByThreads(s);
    var t := l.step.t;
    if l.step.Pass? {
      if s.ops[t].op.Read? {
        assert s.lock.readersOk - {t} == {} <==> s.lock.readersOk == {t};
      } else {
        assert t !in Threads(s.ops, WantsWrite);
        assert t !in s.lock.readersOk by { assert t !in Threads(s.ops, WantsRead); }
      }
    } else if l.step.Release? {
      assert t !in Threads(s.ops, Writing);
    }
  }

  /** Step `j` left readers behind, and no step before `i` has ended that. */
  ghost predicate LeftBehindSince(states: seq<State>, labels: seq<Label>, j: nat, i: nat)
    requires i <= |labels| < |states|
  {
    && j < i && LeavesReadersBehind(states[j], labels[j])
    && forall k {:trigger labels[k]} | j < k < i :: !EndsWait(states[k], labels[k])
  }

  ghost predicate LeftBehind(states: seq<State>, labels: seq<Label>, i: nat)
    requires i <= |labels| < |states|
  {
    exists j: nat :: LeftBehindSince(states, labels, j, i)
  }

  lemma LeftBehindLonger(states: seq<State>, labels: seq<Label>, i: nat)
    requires i < |labels| < |states|
    ensures LeftBehind(states, labels, i + 1)
            <==> LeavesReadersBehind(states[i], labels[i])
                 || (LeftBehind(states, labels, i) && !EndsWait(states[i], labels[i]))
  {
    if LeavesReadersBehind(states[i], labels[i]) {
      assert LeftBehindSince(states, labels, i, i + 1);
    } else if LeftBehind(states, labels, i) && !EndsWait(states[i], labels[i]) {
      var j: nat :| LeftBehindSince(states, labels, j, i);
      assert LeftBehindSince(states, labels, j, i + 1);
    } else if LeftBehind(states, labels, i + 1) {
      var j: nat :| LeftBehindSince(states, labels, j, i + 1);
      assert LeftBehindSince(states, labels, j, i);
    }
  }

  /** Exactly when a reader is queued behind an open gate: if and only if some step left readers behind and none
      has ended that since. */
  lemma {:induction false} LateReaderIff(init: string, states: seq<State>, labels: seq<Label>, i: nat)
    requires IsRun(init, states, labels) && i <= |labels|
    ensures QueuedBehindOpenGate(states[i]) <==> LeftBehind(states, labels, i)
  {
    if i > 0 {
      var s, l := states[i - 1], labels[i - 1];
      assert StepTo(s, l, states[i]);
      LockInvAlways(init, states, labels, i - 1);
      LateReaderIff(init, states, labels, i - 1);
      LeftBehindLonger(states, labels, i - 1);
      if QueuedBehindOpenGate(s) { EndsIff(s, l); } else { BeginsIff(s, l); }
    }
  }

  lemma {:induction false} NoReleaseWhileLeft(init: string, states: seq<State>, labels: seq<Label>, j: nat, i: nat)
    requires IsRun(init, states, labels) && i <= |labels| && LeftBehindSince(states, labels, j, i)
    ensures NoWriteReleased(states, labels, j, i)
  {
    forall k {:trigger labels[k]} | j < k < i ensures !WriteReleases(states[k], labels[k]) {
      assert LeftBehindSince(states, labels, j, k);
      LateReaderIff(init, states, labels, k);
      LockInvAlways(init, states, labels, k);
      if Enabled(states[k], labels[k]) { EndsIff(states[k], labels[k]); }
    }
  }

  /** So a reader still queued behind an open gate has a timed-out write to blame, with no write released since.
      Its own deadline admits it: the wake-up rechecks the gate before failing. */
  lemma {:induction false} ReaderWakeUp(init: string, states: seq<State>, labels: seq<Label>, i: nat, t: Tid, now: int)
    returns (j: nat)
    requires IsRun(init, states, labels) && i < |states|
    requires t in states[i].lock.readersOk && states[i].lock.GateOpen()
    requires t in states[i].ops ==> states[i].ops[t].deadline <= now && states[i].now <= now
    ensures i <= |labels| && LeftBehindSince(states, labels, j, i)
    ensures WriteFails(states[j], labels[j]) && NoWriteReleased(states, labels, j, i)
    ensures var l := Label(now, Pass(t));
            Enabled(states[i], l) && t in Next(states[i], l).ops && Next(states[i], l).ops[t].pc.Holding?
  {
    LockInvAlways(init, states, labels, i);
    assert t in Threads(states[i].ops, WantsRead);
    LateReaderIff(init, states, labels, i);
    j :| LeftBehindSince(states, labels, j, i);
    NoReleaseWhileLeft(init, states, labels, j, i);
  }

  /** A free lock with a queued writer always has a notified writer that has not resumed. */
  lemma NoLostWriterWakeUp(init: string, states: seq<State>, labels: seq<Label>, i: nat, w: Tid)
    requires IsRun(init, states, labels) && i < |states|
    requires Plays(states[i], w, WantsWrite)
    requires Threads(states[i].ops, Reading) == {} && Threads(states[i].ops, Writing) == {}
    ensures exists u :: Notified(states[i], u) && states[i].ops[u].op.Write?
  {
    LockInvAlways(init, states, labels, i);
    assert w !in Threads(states[i].ops, WantsRead);
    if w !in states[i].lock.writersOk {
      assert Notified(states[i], w);
    }
  }

  // ---- writer preference ---------------------------------------------------------------------------

  /** From state `i` to state `j` thread `w` is announced and neither admitted nor timed out. */
  ghost predicate WaitsThroughout(states: seq<State>, i: nat, j: nat, w: Tid) {
    i <= j < |states| && forall k | i <= k <= j :: Plays(states[k], w, WantsWrite)
  }

  predicate ReadReleases(s: State, l: Label) {
    Enabled(s, l) && l.step.Release? && s.ops[l.step.t].op.Read?
  }

  function ReaderReleases(states: seq<State>, labels: seq<Label>, i: nat, j: nat): nat
    requires i <= j <= |labels| && |states| == |labels| + 1
    decreases j
  {
    if i == j then 0
    else ReaderReleases(states, labels, i, j - 1) + Unit(ReadReleases(states[j - 1], labels[j - 1]))
  }

  lemma NoAdmission(s: State, l: Label, s': State, w: Tid)
    requires LockInv(s) && StepTo(s, l, s') && Plays(s, w, WantsWrite)
    ensures Threads(s'.ops, Reading) <= Threads(s.ops, Reading)
    ensures |Threads(s'.ops, Reading)| == |Threads(s.ops, Reading)| - Unit(ReadReleases(s, l))
  {
    assert w in Threads(s.ops, WantsWrite);
    CountsAfter(s, l, Reading);
    var t := l.step.t;
    assert t in Threads(s'.ops, Reading) ==> t in Threads(s.ops, Reading);
  }

  /** Writer preference: while a writer waits, no reader is admitted, so the readers only drain, one for
      each release; once as many have left as were inside and no writer is inside, a writer is notified. */
  lemma {:induction false} WriterPreferred(init: string, states: seq<State>, labels: seq<Label>, i: nat, j: nat, w: Tid)
    requires IsRun(init, states, labels) && WaitsThroughout(states, i, j, w)
    ensures Threads(states[j].ops, Reading) <= Threads(states[i].ops, Reading)
    ensures |Threads(states[j].ops, Reading)|
            == |Threads(states[i].ops, Reading)| - ReaderReleases(states, labels, i, j)
    ensures ReaderReleases(states, labels, i, j) >= |Threads(states[i].ops, Reading)|
            && Threads(states[j].ops, Writing) == {} ==>
              exists u :: Notified(states[j], u) && states[j].ops[u].op.Write?
    decreases j
  {
    if i < j {
      assert StepTo(states[j - 1], labels[j - 1], states[j]);
      WriterPreferred(init, states, labels, i, j - 1, w);
      LockInvAlways(init, states, labels, j - 1);
      NoAdmission(states[j - 1], labels[j - 1], states[j], w);
    }
    WokenWhenEmpty(init, states, labels, j, w);
  }

  lemma WokenWhenEmpty(init: string, states: seq<State>, labels: seq<Label>, j: nat, w: Tid)
    requires IsRun(init, states, labels) && j < |states| && Plays(states[j], w, WantsWrite)
    ensures |Threads(states[j].ops, Reading)| == 0 && Threads(states[j].ops, Writing) == {} ==>
              exists u :: Notified(states[j], u) && states[j].ops[u].op.Write?
  {
    if |Threads(states[j].ops, Reading)| == 0 && Threads(states[j].ops, Writing) == {} {
      NoLostWriterWakeUp(init, states, labels, j, w);
    }
  }

  // ---- the loops of the class are the passes of the run -----------------------------------------------

  /** The wake-ups of `t` from step `i` on: the clock and the lock each of its passes finds. */
  function WakesFrom(states: seq<State>, labels: seq<Label>, t: Tid, i: nat): seq<Wake>
    requires i <= |labels| < |states|
    decreases |labels| - i
  {
    if i == |labels| then []
    else if labels[i].step == Pass(t) then [Wake(labels[i].now, states[i].lock)] + WakesFrom(states, labels, t, i + 1)
    else WakesFrom(states, labels, t, i + 1)
  }

  /** What `acquire` has returned to a thread that has made its first pass, if it has returned. */
  function AcquireOutcome(pc: Pc): Outcome {
    match pc
    case Waiting => Blocked
    case GaveUp => TimedOut
    case Returned(LockTimeout(_)) => TimedOut
    case _ => Admitted
  }

  predicate Inside(th: Thread) {
    th.pc.Holding? || th.pc.FileRead? || th.pc.FileAppended? || th.pc.GaveUp?
    || (th.pc.Finished? && !th.pc.result.LockTimeout?) || th.pc.Returned?
  }

  lemma OutcomeStays(s: State, l: Label, s': State, t: Tid)
    requires StepTo(s, l, s') && t in s.ops && Inside(s.ops[t])
    ensures t in s'.ops && Inside(s'.ops[t]) && AcquireOutcome(s'.ops[t].pc) == AcquireOutcome(s.ops[t].pc)
    ensures l.step != Pass(t)
  {}

  lemma {:induction false} OutcomeKept(init: string, states: seq<State>, labels: seq<Label>, t: Tid, i: nat)
    requires IsRun(init, states, labels) && i <= |labels| && t in states[i].ops && Inside(states[i].ops[t])
    ensures t in states[|labels|].ops
    ensures AcquireOutcome(states[|labels|].ops[t].pc) == AcquireOutcome(states[i].ops[t].pc)
    decreases |labels| - i
  {
    if i < |labels| {
      assert StepTo(states[i], labels[i], states[i + 1]);
      OutcomeStays(states[i], labels[i], states[i + 1], t);
      OutcomeKept(init, states, labels, t, i + 1);
    }
  }

  /** What step `l` does to a waiting thread: nothing, or one pass. */
  lemma WaitingStep(s: State, l: Label, s': State, t: Tid)
    requires StepTo(s, l, s') && t in s.ops && s.ops[t].pc.Waiting?
    ensures t in s'.ops && s'.ops[t].deadline == s.ops[t].deadline && s'.ops[t].op == s.ops[t].op
    ensures if l.step == Pass(t)
            then s'.ops[t].pc == AfterPass(LoopPass(s.lock, t, s.ops[t].op.Write?, s.ops[t].deadline <= l.now).1)
            else s'.ops[t].pc.Waiting?
  {}

  lemma {:induction false} WaitingFollows(init: string, states: seq<State>, labels: seq<Label>, t: Tid, i: nat)
    requires IsRun(init, states, labels) && i <= |labels| && t in states[i].ops && states[i].ops[t].pc.Waiting?
    ensures t in states[|labels|].ops
    ensures var w := WakesFrom(states, labels, t, i); var th := states[i].ops[t];
            AcquireOutcome(states[|labels|].ops[t].pc)
            == if w == [] then Blocked else AcquireLoop(w[0].lock, t, th.op.Write?, w[0].now, th.deadline, w[1..]).1
    decreases |labels| - i
  {
    if i < |labels| {
      assert StepTo(states[i], labels[i], states[i + 1]);
      WaitingStep(states[i], labels[i], states[i + 1], t);
      if states[i + 1].ops[t].pc.Waiting? {
        WaitingFollows(init, states, labels, t, i + 1);
      } else {
        OutcomeKept(init, states, labels, t, i + 1);
      }
    }
  }

  /** Every acquire of every run is the loop of the class, fed with the wake-ups of that run: it has
      returned, and returned the same, exactly when the loop has. */
  lemma AcquireIsLoop(init: string, states: seq<State>, labels: seq<Label>, t: Tid, i: nat)
    requires IsRun(init, states, labels) && i < |labels|
    requires t in states[i].ops && states[i].ops[t].pc.Start? && labels[i].step == Pass(t)
    ensures t in states[|labels|].ops
    ensures AcquireOutcome(states[|labels|].ops[t].pc)
            == AcquireLoop(LockAtPass(states[i], t), t, states[i].ops[t].op.Write?, labels[i].now,
                           states[i].ops[t].deadline, WakesFrom(states, labels, t, i + 1)).1
  {
    assert StepTo(states[i], labels[i], states[i + 1]);
    if states[i + 1].ops[t].pc.Waiting? {
      WaitingFollows(init, states, labels, t, i + 1);
    } else {
      OutcomeKept(init, states, labels, t, i + 1);
    }
  }

  // ---- the late reader -----------------------------------------------------------------------------

  /** A state of the run below: reader 0, writer 1 with one second to wait, reader 2. */
  function Late(init: string, now: int, k: Lock, pcs: (Pc, Pc, Pc), failed: bool): State {
    State(k, init, 0, now,
      map[0 := Thread(Read, if pcs.0.Idle? then 0 else 10, pcs.0),
          1 := Thread(Write("", ""), if pcs.1.Idle? then 0 else 1, pcs.1),
          2 := Thread(Read, if pcs.2.Idle? then 0 else 10, pcs.2)], [], failed)
  }

  /** Prompt wake-up of readers is not guaranteed: reader 0 reads, writer 1 waits, reader 2 queues behind
      writer 1, writer 1 times out, and nobody wakes reader 2 although the gate is open. */
  lemma LateReader(init: string) returns (states: seq<State>, labels: seq<Label>)
    ensures IsRun(init, states, labels) && QueuedBehindOpenGate(states[|states| - 1])
  {
    labels := [Label(0, Invoke(0, 10)), Label(0, Pass(0)), Label(0, Invoke(1, 1)), Label(0, Pass(1)),
               Label(0, Invoke(2, 10)), Label(0, Pass(2)), Label(1, Pass(1))];
    states := [Late(init, 0, UNLOCKED, (Idle, Idle, Idle), false),
               Late(init, 0, UNLOCKED, (Start, Idle, Idle), false),
               Late(init, 0, Lock(1, 0, 0, {}, {}), (Holding, Idle, Idle), false),
               Late(init, 0, Lock(1, 0, 0, {}, {}), (Holding, Start, Idle), false),
               Late(init, 0, Lock(1, 0, 1, {}, {1}), (Holding, Waiting, Idle), false),
               Late(init, 0, Lock(1, 0, 1, {}, {1}), (Holding, Waiting, Start), false),
               Late(init, 0, Lock(1, 0, 1, {2}, {1}), (Holding, Waiting, Waiting), false),
               Late(init, 1, Lock(1, 0, 0, {2}, {}), (Holding, GaveUp, Waiting), true)];
    LateStart(init);
    LateEnd(init);
    forall i {:trigger labels[i]} | 0 <= i < |labels| ensures StepTo(states[i], labels[i], states[i + 1]) {}
  }

  lemma LateStart(init: string)
    ensures StepTo(Late(init, 0, UNLOCKED, (Idle, Idle, Idle), false), Label(0, Invoke(0, 10)),
                   Late(init, 0, UNLOCKED, (Start, Idle, Idle), false))
    ensures StepTo(Late(init, 0, UNLOCKED, (Start, Idle, Idle), false), Label(0, Pass(0)),
                   Late(init, 0, Lock(1, 0, 0, {}, {}), (Holding, Idle, Idle), false))
    ensures StepTo(Late(init, 0, Lock(1, 0, 0, {}, {}), (Holding, Idle, Idle), false), Label(0, Invoke(1, 1)),
                   Late(init, 0, Lock(1, 0, 0, {}, {}), (Holding, Start, Idle), false))
  {}

  lemma LateEnd(init: string)
    ensures StepTo(Late(init, 0, Lock(1, 0, 0, {}, {}), (Holding, Start, Idle), false), Label(0, Pass(1)),
                   Late(init, 0, Lock(1, 0, 1, {}, {1}), (Holding, Waiting, Idle), false))
    ensures StepTo(Late(init, 0, Lock(1, 0, 1, {}, {1}), (Holding, Waiting, Idle), false), Label(0, Invoke(2, 10)),
                   Late(init, 0, Lock(1, 0, 1, {}, {1}), (Holding, Waiting, Start), false))
    ensures StepTo(Late(init, 0, Lock(1, 0, 1, {}, {1}), (Holding, Waiting, Start), false), Label(0, Pass(2)),
                   Late(init, 0, Lock(1, 0, 1, {2}, {1}), (Holding, Waiting, Waiting), false))
    ensures StepTo(Late(init, 0, Lock(1, 0, 1, {2}, {1}), (Holding, Waiting, Waiting), false), Label(1, Pass(1)),
                   Late(init, 1, Lock(1, 0, 0, {2}, {}), (Holding, GaveUp, Waiting), true))
  {}
}
