/** The data layer object (data_layer.py): the shared file and its version stamp behind the lock. */
module DataLayers {
  import opened ReadWriteLocks
  import opened LockSystem
  import opened Linearizability

  datatype Reply = StillWaiting | Reply(ok: bool, text: string, version: int)

  class DataLayer {
    const rwLock: ReadWriteLock
    const init: string
    var file: string
    var version: int
    ghost var lines: seq<string>

    /** The file is the initial text and one line per version. */
    ghost predicate Valid()
      reads this
    {
      file == Text(init, lines) && version == |lines|
    }

    constructor (text: string)
      ensures Valid() && lines == [] && init == text && fresh(rwLock) && rwLock.Value() == UNLOCKED
    {
      rwLock := new ReadWriteLock();
      init, file, version, lines := text, text, 0, [];
    }

    /** Other threads commit `others` while this one waits for the lock. */
    method Others(others: seq<string>)
      requires Valid()
      modifies this
      ensures Valid() && lines == old(lines) + others
    {
      ConcatAppend(lines, others);
      assert init + Concat(lines) + Concat(others) == init + (Concat(lines) + Concat(others));
      file := file + Concat(others);
      version := version + |others|;
      lines := lines + others;
    }

    /** `wakes` and `others` are what the other threads do to the lock and to the file meanwhile. */
    method ReadResource(t: Tid, now: int, wakes: seq<Wake>, others: seq<string>) returns (r: Reply)
      requires Valid()
      modifies this, rwLock
      ensures Valid() && lines == old(lines) + others
      ensures var (k, o) := AcquireLoop(old(rwLock.Value()), t, false, now, now + 10, wakes);
              match o
              case Admitted => r == Reply(true, Text(init, lines), |lines|)
                               && exists pick :: rwLock.Value() == AfterReleaseRead(k, pick)
                                   && MayNotify(k.writersOk, pick)
              case TimedOut => r == Reply(false, READ_TIMEOUT_MESSAGE, |lines|) && rwLock.Value() == k
              case Blocked => r == StillWaiting && rwLock.Value() == k
    {
      var o := rwLock.AcquireRead(t, now, 10, wakes);
      Others(others);
      match o {
        case Blocked => r := StillWaiting;
        case TimedOut => r := Reply(false, READ_TIMEOUT_MESSAGE, version);
        case Admitted =>
          var content := file;
          r := Reply(true, content, version);
          var pick := rwLock.ReleaseRead();
      }
    }

    method WriteResource(t: Tid, userId: string, text: string, stamp: string, now: int, wakes: seq<Wake>,
        others: seq<string>)
      returns (r: Reply)
      requires Valid()
      modifies this, rwLock
      ensures Valid()
      ensures var (k, o) := AcquireLoop(Announce(old(rwLock.Value())), t, true, now, now + 10, wakes);
              match o
              case Admitted => lines == old(lines) + others + ["\n[" + stamp + "] " + userId + ": " + text]
                               && file == Text(init, old(lines) + others) + "\n[" + stamp + "] " + userId + ": " + text
                               && r == Reply(true, "Write committed", |lines|)
                               && exists pick :: rwLock.Value() == AfterReleaseWrite(k, pick)
                                   && MayNotify(k.writersOk, pick)
              case TimedOut => lines == old(lines) + others
                               && r == Reply(false, WRITE_TIMEOUT_MESSAGE, |lines|) && rwLock.Value() == k
              case Blocked => lines == old(lines) + others && r == StillWaiting && rwLock.Value() == k
    {
      var o := rwLock.AcquireWrite(t, now, 10, wakes);
      Others(others);
      match o {
        case Blocked => r := StillWaiting;
        case TimedOut => r := Reply(false, WRITE_TIMEOUT_MESSAGE, version);
        case Admitted =>
          var line := "\n[" + stamp + "] " + userId + ": " + text;
          AppendText(init, lines, line);
          file := file + line;
          assert init + Concat(lines) + line == init + Concat(lines) + "\n[" + stamp + "] " + userId + ": " + text;
          version := version + 1;
          lines := lines + [line];
          r := Reply(true, "Write committed", version);
          var pick := rwLock.ReleaseWrite();
      }
    }
  }
}
