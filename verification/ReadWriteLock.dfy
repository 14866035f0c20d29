/** The writer-preferring, timeout-bounded readers-writer lock (rwlock.py).

    The lock is a monitor: every region that holds the mutex is one atomic step. `Lock` is the value of
    the lock object between two regions; the functions below say what each region does to it, and the
    class `ReadWriteLock` does the same in place. A thread inside `Condition.wait` is a member of the
    queue of that condition until it is notified, or until it has retaken the mutex after a timeout. */
module ReadWriteLocks {

  type Tid = nat

  datatype Outcome = Admitted | TimedOut | Blocked

  datatype Lock = Lock(
    activeReaders: int, activeWriters: int, waitingWriters: int,
    readersOk: set<Tid>, writersOk: set<Tid>)
  {
    /** Negation of the guard of the reader's wait loop. */
    predicate GateOpen() {
      !(activeWriters > 0 || waitingWriters > 0)
    }

    /** Negation of the guard of the writer's wait loop. */
    predicate Free() {
      !(activeReaders > 0 || activeWriters > 0)
    }
  }

  const UNLOCKED := Lock(0, 0, 0, {}, {})

  /** A thread that `notify` may wake: any member of a non-empty queue. */
  predicate MayNotify(queue: set<Tid>, pick: Tid) {
    queue != {} ==> pick in queue
  }

  /** One pass through the wait loop of `acquire_read`, entered from the call or from a wake-up. */
  function ReaderPass(k: Lock, t: Tid, expired: bool): (Lock, Outcome) {
    var back := k.(readersOk := k.readersOk - {t});
    if k.GateOpen() then (back.(activeReaders := k.activeReaders + 1), Admitted)
    else if expired then (back, TimedOut)
    else (k.(readersOk := k.readersOk + {t}), Blocked)
  }

  /** The announcement a writer makes before its first pass. */
  function Announce(k: Lock): Lock {
    k.(waitingWriters := k.waitingWriters + 1)
  }

  /** One pass through the wait loop of `acquire_write`; leaving it withdraws the announcement. */
  function WriterPass(k: Lock, t: Tid, expired: bool): (Lock, Outcome) {
    var back := k.(writersOk := k.writersOk - {t});
    var left := back.(waitingWriters := k.waitingWriters - 1);
    if k.Free() then (left.(activeWriters := k.activeWriters + 1), Admitted)
    else if expired then (left, TimedOut)
    else (k.(writersOk := k.writersOk + {t}), Blocked)
  }

  function AfterReleaseRead(k: Lock, pick: Tid): Lock {
    var k' := k.(activeReaders := k.activeReaders - 1);
    if k'.activeReaders == 0 then k'.(writersOk := k.writersOk - {pick}) else k'
  }

  function AfterReleaseWrite(k: Lock, pick: Tid): Lock {
    k.(activeWriters := k.activeWriters - 1, readersOk := {}, writersOk := k.writersOk - {pick})
  }

  /** What a thread finds when `wait` returns: the clock, and the lock as the other threads left it. */
  datatype Wake = Wake(now: int, lock: Lock)

  function LoopPass(k: Lock, t: Tid, write: bool, expired: bool): (Lock, Outcome) {
    if write then WriterPass(k, t, expired) else ReaderPass(k, t, expired)
  }

  /** A whole acquire: passes until admitted or timed out, or still waiting after the last wake-up. */
  function AcquireLoop(k: Lock, t: Tid, write: bool, now: int, deadline: int, wakes: seq<Wake>): (Lock, Outcome)
    decreases |wakes|
  {
    var (k', o) := LoopPass(k, t, write, deadline <= now);
    if o != Blocked || wakes == [] then (k', o)
    else AcquireLoop(wakes[0].lock, t, write, wakes[0].now, deadline, wakes[1..])
  }

  class ReadWriteLock {
    var activeReaders: int
    var activeWriters: int
    var waitingWriters: int
    var readersOk: set<Tid>
    var writersOk: set<Tid>

    function Value(): Lock
      reads this
    {
      Lock(activeReaders, activeWriters, waitingWriters, readersOk, writersOk)
    }

    constructor ()
      ensures Value() == UNLOCKED
    {
      activeReaders, activeWriters, waitingWriters := 0, 0, 0;
      readersOk, writersOk := {}, {};
    }

    /** The other threads run while this one is inside `wait`. */
    method Interfere(k: Lock)
      modifies this
      ensures Value() == k
    {
      activeReaders, activeWriters, waitingWriters := k.activeReaders, k.activeWriters, k.waitingWriters;
      readersOk, writersOk := k.readersOk, k.writersOk;
    }

    method AcquireRead(t: Tid, start: int, timeout: int, wakes: seq<Wake>) returns (o: Outcome)
      modifies this
      ensures (Value(), o) == AcquireLoop(old(Value()), t, false, start, start + timeout, wakes)
    {
      var deadline := start + timeout;
      var now, i := start, 0;
      while activeWriters > 0 || waitingWriters > 0
        invariant 0 <= i <= |wakes|
        invariant AcquireLoop(old(Value()), t, false, start, deadline, wakes)
                  == AcquireLoop(Value(), t, false, now, deadline, wakes[i..])
        decreases |wakes| - i
      {
        var remaining := deadline - now;
        if remaining <= 0 {
          readersOk := readersOk - {t};
          return TimedOut;
        }
        readersOk := readersOk + {t};
        if i == |wakes| {
          return Blocked;
        }
        now := wakes[i].now;
        Interfere(wakes[i].lock);
        i := i + 1;
      }
      readersOk := readersOk - {t};
      activeReaders := activeReaders + 1;
      o := Admitted;
    }

    method ReleaseRead() returns (ghost pick: Tid)
      modifies this
      ensures MayNotify(old(writersOk), pick)
      ensures Value() == AfterReleaseRead(old(Value()), pick)
    {
      pick := 0;
      activeReaders := activeReaders - 1;
      if writersOk != {} {
        var first :| first in writersOk;
        pick := first;
        if activeReaders == 0 {
          writersOk := writersOk - {first};
        }
      }
    }

    method AcquireWrite(t: Tid, start: int, timeout: int, wakes: seq<Wake>) returns (o: Outcome)
      modifies this
      ensures (Value(), o) == AcquireLoop(Announce(old(Value())), t, true, start, start + timeout, wakes)
    {
      var deadline := start + timeout;
      waitingWriters := waitingWriters + 1;
      ghost var announced := Value();
      var now, i := start, 0;
      while activeReaders > 0 || activeWriters > 0
        invariant 0 <= i <= |wakes|
        invariant AcquireLoop(announced, t, true, start, deadline, wakes)
                  == AcquireLoop(Value(), t, true, now, deadline, wakes[i..])
        decreases |wakes| - i
      {
        var remaining := deadline - now;
        if remaining <= 0 {
          writersOk := writersOk - {t};
          waitingWriters := waitingWriters - 1;
          return TimedOut;
        }
        writersOk := writersOk + {t};
        if i == |wakes| {
          return Blocked;
        }
        now := wakes[i].now;
        Interfere(wakes[i].lock);
        i := i + 1;
      }
      writersOk := writersOk - {t};
      activeWriters := activeWriters + 1;
      waitingWriters := waitingWriters - 1;
      o := Admitted;
    }

    method ReleaseWrite() returns (ghost pick: Tid)
      modifies this
      ensures MayNotify(old(writersOk), pick)
      ensures Value() == AfterReleaseWrite(old(Value()), pick)
    {
      pick := 0;
      activeWriters := activeWriters - 1;
      readersOk := {};
      if writersOk != {} {
        var first :| first in writersOk;
        pick := first;
        writersOk := writersOk - {first};
      }
    }
  }
}
