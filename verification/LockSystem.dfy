/** The data layer under concurrency (data_layer.py over rwlock.py): a transition system over any finite
    set of operations, each run by its own thread. A mutex-held region is one step; inside the critical
    section the access to the file and the access to the version counter are separate steps. The clock is
    carried by the steps and never goes back. */
module LockSystem {
  import opened ReadWriteLocks
  import opened Runs

  datatype Op = Read | Write(userId: string, text: string)

  /** What `read_resource` and `write_resource` return. */
  datatype Result =
    | Snapshot(content: string, version: int)
    | Committed(version: int)
    | LockTimeout(version: int)

  const READ_TIMEOUT_MESSAGE := "Timeout acquiring read lock (deadlock avoidance)"
  const WRITE_TIMEOUT_MESSAGE := "Timeout acquiring write lock (deadlock avoidance)"

  datatype Pc =
    | Idle                          // not called yet
    | Start                         // deadline computed, mutex not yet taken
    | Waiting                       // inside Condition.wait, or woken and not yet back in the mutex
    | Holding                       // admitted
    | FileRead(content: string)     // reader: file read
    | FileAppended(stamp: string)   // writer: line appended, version not yet bumped
    | Finished(result: Result)      // version accessed, lock still held
    | GaveUp                        // acquire returned False, version not yet read
    | Returned(result: Result)

  datatype Thread = Thread(op: Op, deadline: int, pc: Pc)

  /** An operation that has accessed the version counter, in the order of those accesses. */
  datatype Entry = Entry(t: Tid, op: Op, stamp: string, result: Result)

  /** `order` and `writeTimedOut` only observe the run: no step depends on them. `writeTimedOut` says
      that a write acquire has timed out since the last `release_write`. */
  datatype State = State(
    lock: Lock, file: string, version: int, now: int,
    ops: map<Tid, Thread>, order: seq<Entry>, writeTimedOut: bool)

  datatype Step =
    | Invoke(t: Tid, timeout: int)
    | Pass(t: Tid)
    | AccessFile(t: Tid, stamp: string)
    | AccessVersion(t: Tid)
    | Release(t: Tid, pick: Tid)

  datatype Label = Label(now: int, step: Step)

  function LineOf(stamp: string, op: Op): string
    requires op.Write?
  {
    "\n[" + stamp + "] " + op.userId + ": " + op.text
  }

  ghost predicate Initial(init: string, s: State) {
    && s.lock == UNLOCKED && s.file == init && s.version == 0
    && (forall t | t in s.ops :: s.ops[t].pc.Idle?)
    && s.order == [] && !s.writeTimedOut
  }

  predicate Notified(s: State, t: Tid) {
    && t in s.ops && s.ops[t].pc.Waiting?
    && t !in s.lock.readersOk && t !in s.lock.writersOk
  }

  predicate Enabled(s: State, l: Label) {
    && s.now <= l.now && l.step.t in s.ops
    && var th := s.ops[l.step.t];
       match l.step
       case Invoke(_, _) => th.pc.Idle?
       case Pass(t) => th.pc.Start? || Notified(s, t) || (th.pc.Waiting? && th.deadline <= l.now)
       case AccessFile(_, _) => th.pc.Holding?
       case AccessVersion(_) => th.pc.FileRead? || th.pc.FileAppended? || th.pc.GaveUp?
       case Release(_, pick) => th.pc.Finished? && MayNotify(s.lock.writersOk, pick)
  }

  function AfterPass(o: Outcome): Pc {
    match o
    case Admitted => Holding
    case TimedOut => GaveUp
    case Blocked => Waiting
  }

  function LockPass(s: State, t: Tid, expired: bool): (Lock, Outcome)
    requires t in s.ops
  {
    LoopPass(LockAtPass(s, t), t, s.ops[t].op.Write?, expired)
  }

  /** The lock as the pass of `t` finds it: a writer announces itself before its first pass. */
  function LockAtPass(s: State, t: Tid): Lock
    requires t in s.ops
  {
    if s.ops[t].op.Write? && s.ops[t].pc.Start? then Announce(s.lock) else s.lock
  }

  function Next(s: State, l: Label): (s': State)
    requires Enabled(s, l)
  {
    var t := l.step.t;
    var th := s.ops[t];
    var s0 := s.(now := l.now);
    match l.step
    case Invoke(_, timeout) =>
      s0.(ops := s.ops[t := th.(deadline := l.now + timeout, pc := Start)])
    case Pass(_) =>
      var (k, o) := LockPass(s, t, th.deadline <= l.now);
      s0.(lock := k, ops := s.ops[t := th.(pc := AfterPass(o))],
          writeTimedOut := s.writeTimedOut || (th.op.Write? && o == TimedOut))
    case AccessFile(_, stamp) =>
      if th.op.Read? then s0.(ops := s.ops[t := th.(pc := FileRead(s.file))])
      else s0.(file := s.file + LineOf(stamp, th.op), ops := s.ops[t := th.(pc := FileAppended(stamp))])
    case AccessVersion(_) =>
      (match th.pc
       case FileRead(content) =>
         var r := Snapshot(content, s.version);
         s0.(ops := s.ops[t := th.(pc := Finished(r))], order := s.order + [Entry(t, th.op, "", r)])
       case FileAppended(stamp) =>
         var r := Committed(s.version + 1);
         s0.(version := s.version + 1, ops := s.ops[t := th.(pc := Finished(r))],
             order := s.order + [Entry(t, th.op, stamp, r)])
       case _ =>
         var r := LockTimeout(s.version);
         s0.(ops := s.ops[t := th.(pc := Returned(r))], order := s.order + [Entry(t, th.op, "", r)]))
    case Release(_, pick) =>
      if th.op.Read? then
        s0.(lock := AfterReleaseRead(s.lock, pick), ops := s.ops[t := th.(pc := Returned(th.pc.result))])
      else
        s0.(lock := AfterReleaseWrite(s.lock, pick), ops := s.ops[t := th.(pc := Returned(th.pc.result))],
            writeTimedOut := false)
  }

  ghost predicate StepTo(s: State, l: Label, s': State) {
    Enabled(s, l) && s' == Next(s, l)
  }

  /** A run: labels, and the states they lead through. */
  ghost predicate IsRun(init: string, states: seq<State>, labels: seq<Label>) {
    Follows(StepTo, states, labels) && Initial(init, states[0])
  }

  // ---- thread sets -------------------------------------------------------------------------------

  datatype Role = Outside | WantsRead | WantsWrite | Reading | Writing

  function RoleOf(th: Thread): Role {
    match th.pc
    case Waiting => if th.op.Read? then WantsRead else WantsWrite
    case Holding | FileRead(_) | FileAppended(_) | Finished(_) => if th.op.Read? then Reading else Writing
    case _ => Outside
  }

  function Threads(ops: map<Tid, Thread>, r: Role): set<Tid> {
    set t | t in ops && RoleOf(ops[t]) == r
  }

  lemma SubsetSize<T>(small: set<T>, big: set<T>)
    requires small <= big
    ensures |small| <= |big|
    ensures small != big ==> |small| < |big|
  {
    assert big == small + (big - small);
  }

  function Unit(b: bool): nat { if b then 1 else 0 }

  lemma RoleUpdate(ops: map<Tid, Thread>, t: Tid, th: Thread, r: Role)
    requires t in ops
    ensures |Threads(ops[t := th], r)| == |Threads(ops, r)| - Unit(RoleOf(ops[t]) == r) + Unit(RoleOf(th) == r)
    ensures Threads(ops[t := th], r) - {t} == Threads(ops, r) - {t}
  {
    var before, after := Threads(ops, r), Threads(ops[t := th], r);
    assert after - {t} == before - {t};
    assert |before - {t}| == |before| - Unit(t in before);
    assert |after - {t}| == |after| - Unit(t in after);
  }

  // ---- the lock invariant --------------------------------------------------------------------------

  /** The counters are the sizes of the sets of threads that are reading, writing and waiting to write. */
  ghost predicate CountersExact(s: State) {
    && s.lock.activeReaders == |Threads(s.ops, Reading)|
    && s.lock.activeWriters == |Threads(s.ops, Writing)|
    && s.lock.waitingWriters == |Threads(s.ops, WantsWrite)|
  }

  ghost predicate Exclusion(s: State) {
    && |Threads(s.ops, Writing)| <= 1
    && (Threads(s.ops, Writing) != {} ==> Threads(s.ops, Reading) == {})
  }

  ghost predicate QueuesHoldWaiters(s: State) {
    && s.lock.readersOk <= Threads(s.ops, WantsRead)
    && s.lock.writersOk <= Threads(s.ops, WantsWrite)
  }

  /** No lost wake-up: a free lock with a queued writer has another writer on its way. */
  ghost predicate WriterOnItsWay(s: State) {
    s.lock.Free() && s.lock.writersOk != {} ==> exists t :: Notified(s, t) && s.ops[t].op.Write?
  }

  /** Queued readers are behind a closed gate, unless a write acquire timed out since the last release. */
  ghost predicate ReadersBehindGate(s: State) {
    s.lock.GateOpen() && s.lock.readersOk != {} ==> s.writeTimedOut
  }

  ghost predicate LockInv(s: State) {
    CountersExact(s) && Exclusion(s) && QueuesHoldWaiters(s) && WriterOnItsWay(s) && ReadersBehindGate(s)
  }

  lemma LockInvInitial(init: string, s: State)
    requires Initial(init, s)
    ensures LockInv(s)
  {
    forall r: Role | r != Outside ensures Threads(s.ops, r) == {} {}
  }

  lemma CountsAfter(s: State, l: Label, r: Role)
    requires Enabled(s, l)
    ensures var t := l.step.t; var s' := Next(s, l);
            && t in s'.ops && s'.ops.Keys == s.ops.Keys
            && (forall u | u in s.ops && u != t :: s'.ops[u] == s.ops[u])
            && s'.ops[t].op == s.ops[t].op
            && |Threads(s'.ops, r)| == |Threads(s.ops, r)| - Unit(RoleOf(s.ops[t]) == r) + Unit(RoleOf(s'.ops[t]) == r)
            && Threads(s'.ops, r) - {t} == Threads(s.ops, r) - {t}
  {
    var t, s' := l.step.t, Next(s, l);
    assert s'.ops == s.ops[t := s'.ops[t]];
    RoleUpdate(s.ops, t, s'.ops[t], r);
  }

  lemma EmptyCount(ops: map<Tid, Thread>, r: Role)
    ensures |Threads(ops, r)| == 0 <==> Threads(ops, r) == {}
  {}

  /** A step changes each counter exactly as it changes the role of its thread, and admits a thread only
      through an open guard. */
  lemma CounterDelta(s: State, l: Label)
    requires Enabled(s, l)
    ensures var was, is' := RoleOf(s.ops[l.step.t]), RoleOf(Next(s, l).ops[l.step.t]);
            var k, k' := s.lock, Next(s, l).lock;
            && k'.activeReaders == k.activeReaders - Unit(was == Reading) + Unit(is' == Reading)
            && k'.activeWriters == k.activeWriters - Unit(was == Writing) + Unit(is' == Writing)
            && k'.waitingWriters == k.waitingWriters - Unit(was == WantsWrite) + Unit(is' == WantsWrite)
            && (was != Reading && is' == Reading ==> k.GateOpen())
            && (was != Writing && is' == Writing ==> k.Free())
  {}

  lemma CountersStep(s: State, l: Label)
    requires LockInv(s) && Enabled(s, l)
    ensures CountersExact(Next(s, l)) && Exclusion(Next(s, l))
  {
    CounterDelta(s, l);
    CountsAfter(s, l, Reading); CountsAfter(s, l, Writing); CountsAfter(s, l, WantsWrite);
    ExclusionByCount(s);
    ExclusionByCount(Next(s, l));
  }

  lemma ExclusionByCount(s: State)
    ensures Exclusion(s) <==>
              |Threads(s.ops, Writing)| <= 1 && (|Threads(s.ops, Writing)| == 0 || |Threads(s.ops, Reading)| == 0)
  {
    EmptyCount(s.ops, Reading); EmptyCount(s.ops, Writing);
  }

  lemma QueuesStep(s: State, l: Label)
    requires LockInv(s) && Enabled(s, l)
    ensures QueuesHoldWaiters(Next(s, l))
  {
    CountsAfter(s, l, WantsRead); CountsAfter(s, l, WantsWrite);
    var t, s' := l.step.t, Next(s, l);
    forall u | u in s'.lock.readersOk ensures u in Threads(s'.ops, WantsRead) {
      if u != t { assert u in s.lock.readersOk; assert u in Threads(s.ops, WantsRead) - {t}; }
    }
    forall u | u in s'.lock.writersOk ensures u in Threads(s'.ops, WantsWrite) {
      if u != t { assert u in s.lock.writersOk; assert u in Threads(s.ops, WantsWrite) - {t}; }
    }
  }

  lemma WriterOnItsWayStep(s: State, l: Label)
    requires LockInv(s) && Enabled(s, l)
    ensures WriterOnItsWay(Next(s, l))
  {
    CountersStep(s, l);
    var t, s' := l.step.t, Next(s, l);
    if s'.lock.Free() && s'.lock.writersOk != {} {
      if l.step.Release? && !s.lock.Free() {
        NotifiesOne(s, l);
      } else {
        var u :| Notified(s, u) && s.ops[u].op.Write?;
        StaysNotified(s, l, u);
      }
    }
  }

  /** A notified writer resumes only to take the lock. */
  lemma StaysNotified(s: State, l: Label, u: Tid)
    requires Enabled(s, l) && Notified(s, u) && s.ops[u].op.Write?
    requires s.lock.Free() && Next(s, l).lock.Free() && s.lock.activeWriters >= 0
    ensures Notified(Next(s, l), u) && Next(s, l).ops[u].op.Write?
  {}

  lemma NotifiesOne(s: State, l: Label)
    requires LockInv(s) && Enabled(s, l) && l.step.Release?
    requires Next(s, l).lock.Free() && Next(s, l).lock.writersOk != {} && CountersExact(Next(s, l))
    ensures Notified(Next(s, l), l.step.pick) && Next(s, l).ops[l.step.pick].op.Write?
  {
    assert l.step.pick in s.lock.writersOk;
    assert l.step.pick in Threads(s.ops, WantsWrite) && l.step.pick !in Threads(s.ops, WantsRead);
  }

  lemma ReadersBehindGateStep(s: State, l: Label)
    requires LockInv(s) && Enabled(s, l)
    ensures ReadersBehindGate(Next(s, l))
  {
    CountersStep(s, l);
  }

  lemma LockInvStep(s: State, l: Label)
    requires LockInv(s) && Enabled(s, l)
    ensures LockInv(Next(s, l))
  {
    CountersStep(s, l);
    QueuesStep(s, l);
    WriterOnItsWayStep(s, l);
    ReadersBehindGateStep(s, l);
  }

  lemma LockInvAlways(init: string, states: seq<State>, labels: seq<Label>, i: nat)
    requires IsRun(init, states, labels) && i < |states|
    ensures LockInv(states[i])
  {
    LockInvInitial(init, states[0]);
    var P := (s: State) => LockInv(s);
    forall s, l, s' | P(s) && StepTo(s, l, s') ensures P(s') { LockInvStep(s, l); }
    Always(StepTo, states, labels, P, i);
  }
}
