/** Every concurrent run of the data layer refines an atomic append-only log. Operations take effect in
    the order in which they access the version counter. */
module Linearizability {
  import opened ReadWriteLocks
  import opened LockSystem
  import opened Runs

  // ---- the sequential specification: an append-only log of lines ------------------------------------

  function Concat(lines: seq<string>): string {
    if lines == [] then "" else Concat(lines[..|lines| - 1]) + lines[|lines| - 1]
  }

  lemma {:induction false} ConcatAppend(a: seq<string>, b: seq<string>)
    ensures Concat(a + b) == Concat(a) + Concat(b)
  {
    if b == [] {
      assert a + b == a;
    } else {
      var front, line := b[..|b| - 1], b[|b| - 1];
      assert (a + b)[..|a + b| - 1] == a + front;
      ConcatAppend(a, front);
    }
  }

  /** The content of the shared file once `lines` have been appended. */
  function Text(init: string, lines: seq<string>): string { init + Concat(lines) }

  /** What an atomic log holding `lines` does with one operation: its new contents, and whether `e`
      carries the right answer. A timed-out operation changes nothing. */
  predicate AtomicAnswer(init: string, lines: seq<string>, e: Entry) {
    match e.result
    case Snapshot(content, version) => e.op.Read? && content == Text(init, lines) && version == |lines|
    case Committed(version) => e.op.Write? && version == |lines| + 1
    case LockTimeout(version) => version == |lines|
  }

  function AtomicAppend(lines: seq<string>, e: Entry): seq<string> {
    if e.result.Committed? && e.op.Write? then lines + [LineOf(e.stamp, e.op)] else lines
  }

  function Log(order: seq<Entry>): seq<string> {
    if order == [] then [] else AtomicAppend(Log(order[..|order| - 1]), order[|order| - 1])
  }

  /** `order` is a legal history of the atomic log, started empty. */
  ghost predicate LegalHistory(init: string, order: seq<Entry>) {
    forall k | 0 <= k < |order| :: AtomicAnswer(init, Log(order[..k]), order[k])
  }

  lemma LogExtend(order: seq<Entry>, e: Entry)
    ensures Log(order + [e]) == AtomicAppend(Log(order), e)
  {
    assert (order + [e])[..|order|] == order;
  }

  lemma {:induction false} LogGrows(order: seq<Entry>, k: nat)
    requires k <= |order|
    ensures Log(order[..k]) <= Log(order)
  {
    if k < |order| {
      var front := order[..|order| - 1];
      LogGrows(front, k);
      assert front[..k] == order[..k];
    } else {
      assert order[..k] == order;
    }
  }

  // ---- the invariant ---------------------------------------------------------------------------------

  function OutcomeOf(pc: Pc): set<Result> {
    if pc.Finished? || pc.Returned? then {pc.result} else {}
  }

  ghost predicate NoneAppended(ops: map<Tid, Thread>) {
    forall t | t in ops :: !ops[t].pc.FileAppended?
  }

  /** What a thread inside the critical section knows: a reader holds the whole log, and a writer that has
      appended its line is exactly that line ahead of it. */
  ghost predicate ThreadFits(text: string, file: string, th: Thread) {
    && (th.pc.FileAppended? ==> th.op.Write? && file == text + LineOf(th.pc.stamp, th.op))
    && (th.pc.FileRead? ==> th.op.Read? && th.pc.content == text)
  }

  /** The file and the counter agree with the log, except between a writer's two accesses. */
  ghost predicate DataMatchesLog(init: string, s: State) {
    && s.version == |Log(s.order)|
    && (forall t | t in s.ops :: ThreadFits(Text(init, Log(s.order)), s.file, s.ops[t]))
    && (NoneAppended(s.ops) ==> s.file == Text(init, Log(s.order)))
  }

  ghost predicate Listed(order: seq<Entry>, t: Tid) {
    exists i :: 0 <= i < |order| && order[i].t == t
  }

  ghost predicate NoRepeats(order: seq<Entry>) {
    forall i, j | 0 <= i < j < |order| :: order[i].t != order[j].t
  }

  ghost predicate EntryFits(ops: map<Tid, Thread>, e: Entry) {
    e.t in ops && e.op == ops[e.t].op && OutcomeOf(ops[e.t].pc) == {e.result}
  }

  /** Each operation that has accessed the counter has exactly one entry, and the entry holds its answer. */
  ghost predicate OrderMatchesOps(s: State) {
    && NoRepeats(s.order)
    && (forall i | 0 <= i < |s.order| :: EntryFits(s.ops, s.order[i]))
    && (forall t | t in s.ops && OutcomeOf(s.ops[t].pc) != {} :: Listed(s.order, t))
  }

  ghost predicate DataInv(init: string, s: State) {
    DataMatchesLog(init, s) && OrderMatchesOps(s) && LegalHistory(init, s.order)
  }

  lemma NoWriterBesideReader(s: State, t: Tid)
    requires LockInv(s) && t in s.ops && RoleOf(s.ops[t]) in {Reading, Writing}
    ensures forall u | u in s.ops && u != t && RoleOf(s.ops[u]) == Writing :: false
    ensures RoleOf(s.ops[t]) == Writing ==> forall u | u in s.ops :: RoleOf(s.ops[u]) != Reading
  {
    assert t in Threads(s.ops, RoleOf(s.ops[t]));
    forall u | u in s.ops && u != t && RoleOf(s.ops[u]) == Writing ensures false {
      assert u in Threads(s.ops, Writing);
      if RoleOf(s.ops[t]) == Writing {
        assert {t, u} <= Threads(s.ops, Writing);
        assert |{t, u}| == 2;
        SubsetSize({t, u}, Threads(s.ops, Writing));
      }
    }
    if RoleOf(s.ops[t]) == Writing {
      forall u | u in s.ops ensures RoleOf(s.ops[u]) != Reading {
        assert u !in Threads(s.ops, Reading);
      }
    }
  }

  lemma OrderStep(s: State, l: Label)
    requires OrderMatchesOps(s) && Enabled(s, l)
    ensures OrderMatchesOps(Next(s, l))
  {
    var t, s' := l.step.t, Next(s, l);
    assert s'.ops == s.ops[t := s'.ops[t]];
    if l.step.AccessVersion? {
      assert OutcomeOf(s.ops[t].pc) == {};
      assert EntryFits(s'.ops, s'.order[|s.order|]);
      OrderExtend(s, s', s'.order[|s.order|]);
    } else {
      assert OutcomeOf(s'.ops[t].pc) == OutcomeOf(s.ops[t].pc);
    }
  }

  lemma OrderExtend(s: State, s': State, e: Entry)
    requires OrderMatchesOps(s) && s'.order == s.order + [e]
    requires e.t in s.ops && OutcomeOf(s.ops[e.t].pc) == {} && EntryFits(s'.ops, e)
    requires s'.ops.Keys == s.ops.Keys
    requires forall u | u in s.ops && u != e.t :: s'.ops[u] == s.ops[u]
    ensures OrderMatchesOps(s')
  {
    forall i | 0 <= i < |s.order| ensures s.order[i].t != e.t && EntryFits(s'.ops, s'.order[i]) {
      assert EntryFits(s.ops, s.order[i]);
    }
    forall u | u in s'.ops && OutcomeOf(s'.ops[u].pc) != {} ensures Listed(s'.order, u) {
      if u == e.t {
        assert s'.order[|s.order|].t == u;
      } else {
        assert Listed(s.order, u);
        var i :| 0 <= i < |s.order| && s.order[i].t == u;
        assert s'.order[i].t == u;
      }
    }
  }

  lemma {:induction false} LegalExtend(init: string, order: seq<Entry>, e: Entry)
    requires LegalHistory(init, order) && AtomicAnswer(init, Log(order), e)
    ensures LegalHistory(init, order + [e])
  {
    var longer := order + [e];
    forall k | 0 <= k < |longer| ensures AtomicAnswer(init, Log(longer[..k]), longer[k]) {
      assert longer[..k] == order[..k];
      if k == |order| { assert order[..k] == order; }
    }
  }

  lemma DataStep(init: string, s: State, l: Label)
    requires LockInv(s) && DataInv(init, s) && Enabled(s, l)
    ensures DataInv(init, Next(s, l))
  {
    OrderStep(s, l);
    if l.step.AccessFile? {
      FileStep(init, s, l);
    } else if l.step.AccessVersion? {
      VersionStep(init, s, l);
    } else {
      OtherStep(init, s, l);
    }
  }

  lemma OtherStep(init: string, s: State, l: Label)
    requires DataMatchesLog(init, s) && LegalHistory(init, s.order) && Enabled(s, l)
    requires !l.step.AccessFile? && !l.step.AccessVersion?
    ensures DataMatchesLog(init, Next(s, l)) && LegalHistory(init, Next(s, l).order)
  {
    SameData(init, s, Next(s, l), l.step.t);
  }

  lemma FileStep(init: string, s: State, l: Label)
    requires LockInv(s) && DataMatchesLog(init, s) && Enabled(s, l) && l.step.AccessFile?
    ensures DataMatchesLog(init, Next(s, l))
  {
    var t, s' := l.step.t, Next(s, l);
    NoWriterBesideReader(s, t);
    var text := Text(init, Log(s.order));
    forall u | u in s.ops ensures !s.ops[u].pc.FileAppended? {
      assert ThreadFits(text, s.file, s.ops[u]);
      assert u != t ==> RoleOf(s.ops[u]) != Writing;
    }
    assert NoneAppended(s.ops);
    forall u | u in s'.ops ensures ThreadFits(text, s'.file, s'.ops[u]) {
      assert ThreadFits(text, s.file, s.ops[u]);
      if u != t && s.ops[t].op.Write? { assert RoleOf(s.ops[u]) != Reading; }
    }
    if s.ops[t].op.Write? { assert !NoneAppended(s'.ops) by { assert s'.ops[t].pc.FileAppended?; } }
  }

  lemma VersionStep(init: string, s: State, l: Label)
    requires LockInv(s) && DataMatchesLog(init, s) && LegalHistory(init, s.order)
    requires Enabled(s, l) && l.step.AccessVersion?
    ensures DataMatchesLog(init, Next(s, l)) && LegalHistory(init, Next(s, l).order)
  {
    LegalStep(init, s, l);
    if s.ops[l.step.t].pc.FileAppended? {
      BumpStep(init, s, l);
    } else {
      ReadVersionStep(init, s, l);
    }
  }

  lemma {:induction false} LegalStep(init: string, s: State, l: Label)
    requires DataMatchesLog(init, s) && LegalHistory(init, s.order) && Enabled(s, l) && l.step.AccessVersion?
    ensures LegalHistory(init, Next(s, l).order)
  {
    assert ThreadFits(Text(init, Log(s.order)), s.file, s.ops[l.step.t]);
    LegalExtend(init, s.order, Next(s, l).order[|s.order|]);
  }

  lemma ReadVersionStep(init: string, s: State, l: Label)
    requires DataMatchesLog(init, s)
    requires Enabled(s, l) && l.step.AccessVersion? && !s.ops[l.step.t].pc.FileAppended?
    ensures DataMatchesLog(init, Next(s, l))
  {
    ReadVersionLog(s, l);
    ReadVersionQuiet(s, l);
    SameData(init, s, Next(s, l), l.step.t);
  }

  lemma ReadVersionQuiet(s: State, l: Label)
    requires Enabled(s, l) && l.step.AccessVersion? && !s.ops[l.step.t].pc.FileAppended?
    ensures var t, s' := l.step.t, Next(s, l);
            && s'.file == s.file && s'.version == s.version && s'.ops.Keys == s.ops.Keys
            && (forall u | u in s.ops && u != t :: s'.ops[u] == s.ops[u])
            && !s'.ops[t].pc.FileAppended? && !s'.ops[t].pc.FileRead?
  {}

  lemma ReadVersionLog(s: State, l: Label)
    requires Enabled(s, l) && l.step.AccessVersion? && !s.ops[l.step.t].pc.FileAppended?
    ensures Log(Next(s, l).order) == Log(s.order)
  {
    LogExtend(s.order, Next(s, l).order[|s.order|]);
  }

  lemma BumpStep(init: string, s: State, l: Label)
    requires LockInv(s) && DataMatchesLog(init, s)
    requires Enabled(s, l) && l.step.AccessVersion? && s.ops[l.step.t].pc.FileAppended?
    ensures DataMatchesLog(init, Next(s, l))
  {
    BumpLog(init, s, l);
    WriterAlone(init, s, l.step.t);
    var s' := Next(s, l);
    forall u | u in s'.ops ensures !s'.ops[u].pc.FileAppended? && !s'.ops[u].pc.FileRead? {
      if u != l.step.t { assert s'.ops[u] == s.ops[u]; }
    }
  }

  lemma BumpLog(init: string, s: State, l: Label)
    requires DataMatchesLog(init, s)
    requires Enabled(s, l) && l.step.AccessVersion? && s.ops[l.step.t].pc.FileAppended?
    ensures var s' := Next(s, l);
            s'.file == Text(init, Log(s'.order)) && s'.version == |Log(s'.order)|
  {
    var th, v := s.ops[l.step.t], s.version + 1;
    var e := Entry(l.step.t, th.op, th.pc.stamp, Committed(v));
    assert ThreadFits(Text(init, Log(s.order)), s.file, th);
    assert Next(s, l).order == s.order + [e] && Next(s, l).version == v && Next(s, l).file == s.file;
    BumpText(init, s.order, e);
  }

  lemma BumpText(init: string, order: seq<Entry>, e: Entry)
    requires e.op.Write? && e.result.Committed?
    ensures Text(init, Log(order + [e])) == Text(init, Log(order)) + LineOf(e.stamp, e.op)
    ensures |Log(order + [e])| == |Log(order)| + 1
  {
    LogExtend(order, e);
    AppendText(init, Log(order), LineOf(e.stamp, e.op));
  }

  /** Beside a writer between its two accesses nobody else is between theirs. */
  lemma WriterAlone(init: string, s: State, t: Tid)
    requires LockInv(s) && DataMatchesLog(init, s) && t in s.ops && s.ops[t].pc.FileAppended?
    ensures forall u | u in s.ops && u != t :: !s.ops[u].pc.FileAppended? && !s.ops[u].pc.FileRead?
  {
    var text := Text(init, Log(s.order));
    assert ThreadFits(text, s.file, s.ops[t]);
    NoWriterBesideReader(s, t);
    forall u | u in s.ops && u != t ensures !s.ops[u].pc.FileAppended? && !s.ops[u].pc.FileRead? {
      assert ThreadFits(text, s.file, s.ops[u]);
      assert RoleOf(s.ops[u]) != Reading && RoleOf(s.ops[u]) != Writing;
    }
  }

  lemma AppendText(init: string, lines: seq<string>, line: string)
    ensures Text(init, lines + [line]) == Text(init, lines) + line
  {
    assert (lines + [line])[..|lines|] == lines;
    assert init + (Concat(lines) + line) == init + Concat(lines) + line;
  }

  lemma SameData(init: string, s: State, s': State, t: Tid)
    requires DataMatchesLog(init, s) && t in s.ops && !s.ops[t].pc.FileAppended?
    requires s'.file == s.file && s'.version == s.version && Log(s'.order) == Log(s.order)
    requires s'.ops.Keys == s.ops.Keys && (forall u | u in s.ops && u != t :: s'.ops[u] == s.ops[u])
    requires !s'.ops[t].pc.FileAppended? && !s'.ops[t].pc.FileRead?
    ensures DataMatchesLog(init, s')
  {
    StillNoneAppended(s.ops, s'.ops, t);
    forall u | u in s'.ops ensures ThreadFits(Text(init, Log(s'.order)), s'.file, s'.ops[u]) {
      assert ThreadFits(Text(init, Log(s.order)), s.file, s.ops[u]);
    }
  }

  lemma StillNoneAppended(ops: map<Tid, Thread>, ops': map<Tid, Thread>, t: Tid)
    requires t in ops && !ops[t].pc.FileAppended? && ops'.Keys == ops.Keys
    requires forall u | u in ops && u != t :: ops'[u] == ops[u]
    ensures NoneAppended(ops') ==> NoneAppended(ops)
  {
    if NoneAppended(ops') {
      forall u | u in ops ensures !ops[u].pc.FileAppended? {
        if u != t { assert ops'[u] == ops[u]; }
      }
    }
  }

  lemma SystemInvInitial(init: string, s: State)
    requires Initial(init, s)
    ensures SystemInv(init, s)
  {
    LockInvInitial(init, s);
  }

  ghost predicate SystemInv(init: string, s: State) {
    LockInv(s) && DataInv(init, s)
  }

  lemma SystemInvStep(init: string, s: State, l: Label, s': State)
    requires SystemInv(init, s) && StepTo(s, l, s')
    ensures SystemInv(init, s')
  {
    LockInvStep(s, l);
    DataStep(init, s, l);
  }

  lemma SystemInvAlways(init: string, states: seq<State>, labels: seq<Label>, i: nat)
    requires IsRun(init, states, labels) && i < |states|
    ensures SystemInv(init, states[i])
  {
    SystemInvInitial(init, states[0]);
    var P := (s: State) => SystemInv(init, s);
    forall s, l, s' | P(s) && StepTo(s, l, s') ensures P(s') { SystemInvStep(init, s, l, s'); }
    Always(StepTo, states, labels, P, i);
  }

  // ---- what it means for a run -----------------------------------------------------------------------

  lemma {:induction false} OrderOnlyGrows(init: string, states: seq<State>, labels: seq<Label>, i: nat, j: nat)
    requires IsRun(init, states, labels) && i <= j < |states|
    ensures states[i].order <= states[j].order
    ensures states[i].ops.Keys == states[j].ops.Keys
    ensures forall t | t in states[i].ops && states[i].ops[t].pc.Returned? :: states[j].ops[t] == states[i].ops[t]
    decreases j
  {
    if i < j {
      OrderOnlyGrows(init, states, labels, i, j - 1);
      assert StepTo(states[j - 1], labels[j - 1], states[j]);
    }
  }

  ghost predicate At(order: seq<Entry>, t: Tid, k: int) {
    0 <= k < |order| && order[k].t == t
  }

  /** Operation `a` has returned in a state of the run in which `b` has not been called yet, or earlier. */
  ghost predicate ReturnedBeforeCall(states: seq<State>, a: Tid, b: Tid) {
    exists i, j :: 0 <= i <= j < |states| && HasReturned(states[i], a) && NotCalled(states[j], b)
  }

  predicate HasReturned(s: State, t: Tid) { t in s.ops && s.ops[t].pc.Returned? }

  predicate NotCalled(s: State, t: Tid) { t in s.ops && s.ops[t].pc.Idle? }

  ghost predicate Answered(order: seq<Entry>, t: Tid, th: Thread) {
    exists k :: At(order, t, k) && order[k].op == th.op && th.pc == Returned(order[k].result)
  }

  /** Linearizability. The order of a run is a legal history of the atomic log; it holds only operations of this
      run, each at most once and with the answer it has or will return, and every operation that has returned;
      and an operation that returned before another was called comes before it. */
  lemma {:induction false} Linearizable(init: string, states: seq<State>, labels: seq<Label>)
    requires IsRun(init, states, labels)
    ensures var last := states[|states| - 1];
            && LegalHistory(init, last.order) && NoRepeats(last.order)
            && (forall k | 0 <= k < |last.order| :: EntryFits(last.ops, last.order[k]))
            && (forall t | HasReturned(last, t) :: Answered(last.order, t, last.ops[t]))
            && (forall a, b, x, y | ReturnedBeforeCall(states, a, b) && At(last.order, a, x)
                && At(last.order, b, y) :: x < y)
  {
    var last := states[|states| - 1];
    SystemInvAlways(init, states, labels, |states| - 1);
    forall t | HasReturned(last, t) ensures Answered(last.order, t, last.ops[t]) {
      ReturnedIsAnswered(init, last, t);
    }
    forall a, b, x, y | ReturnedBeforeCall(states, a, b) && At(last.order, a, x) && At(last.order, b, y) ensures x < y {
      RealTimeOrder(init, states, labels, a, b, x, y);
    }
  }

  lemma ReturnedIsAnswered(init: string, s: State, t: Tid)
    requires DataInv(init, s) && HasReturned(s, t)
    ensures Answered(s.order, t, s.ops[t])
  {
    assert s.ops[t].pc.result in OutcomeOf(s.ops[t].pc);
    assert Listed(s.order, t);
    var k :| 0 <= k < |s.order| && s.order[k].t == t;
    assert EntryFits(s.ops, s.order[k]) && At(s.order, t, k);
    assert s.order[k].result in OutcomeOf(s.ops[t].pc);
  }

  lemma NoRepeatsAlways(init: string, states: seq<State>, labels: seq<Label>, i: nat)
    requires IsRun(init, states, labels) && i < |states|
    ensures NoRepeats(states[i].order)
  {
    SystemInvAlways(init, states, labels, i);
  }

  lemma RealTimeOrder(init: string, states: seq<State>, labels: seq<Label>, a: Tid, b: Tid, x: int, y: int)
    requires IsRun(init, states, labels) && ReturnedBeforeCall(states, a, b)
    requires var order := states[|states| - 1].order; At(order, a, x) && At(order, b, y)
    ensures x < y
  {
    var i, j :| 0 <= i <= j < |states| && HasReturned(states[i], a) && NotCalled(states[j], b);
    StaysReturned(init, states, labels, i, j, a);
    NoRepeatsAlways(init, states, labels, |states| - 1);
    EarlierAt(init, states, labels, j, a, b, x, y);
  }

  lemma StaysReturned(init: string, states: seq<State>, labels: seq<Label>, i: nat, j: nat, t: Tid)
    requires IsRun(init, states, labels) && i <= j < |states| && HasReturned(states[i], t)
    ensures HasReturned(states[j], t)
  {
    OrderOnlyGrows(init, states, labels, i, j);
  }

  lemma EarlierAt(init: string, states: seq<State>, labels: seq<Label>, j: nat, a: Tid, b: Tid, x: int, y: int)
    requires IsRun(init, states, labels) && j < |states| && HasReturned(states[j], a) && NotCalled(states[j], b)
    requires var order := states[|states| - 1].order; NoRepeats(order) && At(order, a, x) && At(order, b, y)
    ensures x < y
  {
    OrderOnlyGrows(init, states, labels, j, |states| - 1);
    SystemInvAlways(init, states, labels, j);
    EarlierInOrder(init, states[j], states[|states| - 1].order, a, b, x, y);
  }

  lemma EarlierInOrder(init: string, now: State, order: seq<Entry>, a: Tid, b: Tid, x: int, y: int)
    requires DataInv(init, now) && HasReturned(now, a) && NotCalled(now, b)
    requires now.order <= order && NoRepeats(order) && At(order, a, x) && At(order, b, y)
    ensures x < y
  {
    ReturnedIsAnswered(init, now, a);
    var x0 :| At(now.order, a, x0);
    assert x0 == x by { assert order[x0].t == order[x].t; }
    forall z | 0 <= z < |now.order| ensures order[z].t != b {
      assert EntryFits(now.ops, now.order[z]);
    }
  }

  /** What an answer says about the log at any later time. */
  ghost predicate AnswerHolds(init: string, lines: seq<string>, op: Op, r: Result) {
    match r
    case Snapshot(content, v) => op.Read? && 0 <= v <= |lines| && content == Text(init, lines[..v])
    case Committed(v) => op.Write? && 1 <= v <= |lines| && IsLineOf(lines[v - 1], op)
    case LockTimeout(v) => 0 <= v <= |lines|
  }

  ghost predicate IsLineOf(line: string, op: Op)
    requires op.Write?
  {
    exists stamp :: line == LineOf(stamp, op)
  }

  lemma {:induction false} EntryMeaning(init: string, order: seq<Entry>, k: nat)
    requires LegalHistory(init, order) && k < |order|
    ensures AnswerHolds(init, Log(order), order[k].op, order[k].result)
  {
    var before := Log(order[..k]);
    LogGrows(order, k);
    assert AtomicAnswer(init, before, order[k]);
    assert Log(order)[..|before|] == before;
    if order[k].result.Committed? {
      LineInLog(order, k);
    }
  }

  lemma LineInLog(order: seq<Entry>, k: nat)
    requires k < |order| && order[k].op.Write? && order[k].result.Committed?
    ensures var n := |Log(order[..k])|; n < |Log(order)| && IsLineOf(Log(order)[n], order[k].op)
  {
    LogGrows(order, k + 1);
    assert order[..k + 1] == order[..k] + [order[k]];
    LogExtend(order[..k], order[k]);
    assert Log(order)[|Log(order[..k])|] == LineOf(order[k].stamp, order[k].op);
  }

  /** A successful read returned the initial text and the first `version` lines of the log, whatever has
      been appended since; a successful write's line is line `version` of the log. */
  lemma {:induction false} ReturnedMeaning(init: string, states: seq<State>, labels: seq<Label>, i: nat, t: Tid)
    requires IsRun(init, states, labels) && i < |states|
    requires HasReturned(states[i], t)
    ensures AnswerHolds(init, Log(states[i].order), states[i].ops[t].op, states[i].ops[t].pc.result)
  {
    SystemInvAlways(init, states, labels, i);
    ReturnedEntry(init, states[i], t);
  }

  lemma ReturnedEntry(init: string, s: State, t: Tid)
    requires DataInv(init, s) && HasReturned(s, t)
    ensures AnswerHolds(init, Log(s.order), s.ops[t].op, s.ops[t].pc.result)
  {
    ReturnedIsAnswered(init, s, t);
    var k :| At(s.order, t, k) && s.order[k].op == s.ops[t].op && s.ops[t].pc == Returned(s.order[k].result);
    EntryMeaning(init, s.order, k);
  }

  ghost predicate IsCommit(order: seq<Entry>, v: int, k: int) {
    0 <= k < |order| && order[k].result == Committed(v)
  }

  ghost predicate HasCommit(order: seq<Entry>, v: int) {
    exists k :: IsCommit(order, v, k)
  }

  /** The versions returned by successful writes are exactly 1..n, each returned once. */
  lemma {:induction false} VersionsExact(init: string, order: seq<Entry>)
    requires LegalHistory(init, order)
    ensures forall v :: HasCommit(order, v) <==> 1 <= v <= |Log(order)|
    ensures forall v, j, k | IsCommit(order, v, j) && IsCommit(order, v, k) :: j == k
  {
    forall v | 1 <= v <= |Log(order)| ensures HasCommit(order, v) {
      CommitOf(init, order, v);
    }
    forall v, k | IsCommit(order, v, k) ensures 1 <= v <= |Log(order)| {
      CommitInLog(init, order, k);
    }
    forall v, j, k | IsCommit(order, v, j) && IsCommit(order, v, k) ensures j == k {
      if j < k { CommitsApart(init, order, j, k); } else if k < j { CommitsApart(init, order, k, j); }
    }
  }

  lemma {:induction false} CommitInLog(init: string, order: seq<Entry>, k: nat)
    requires LegalHistory(init, order) && k < |order| && order[k].result.Committed?
    ensures 1 <= order[k].result.version <= |Log(order)|
  {
    assert AtomicAnswer(init, Log(order[..k]), order[k]);
    LogGrows(order, k + 1);
    assert order[..k + 1][..k] == order[..k];
  }

  lemma {:induction false} CommitOf(init: string, order: seq<Entry>, v: int)
    requires LegalHistory(init, order) && 1 <= v <= |Log(order)|
    ensures HasCommit(order, v)
  {
    var front := order[..|order| - 1];
    if v <= |Log(front)| {
      assert LegalHistory(init, front) by {
        forall k | 0 <= k < |front| ensures AtomicAnswer(init, Log(front[..k]), front[k]) {
          assert front[..k] == order[..k];
        }
      }
      CommitOf(init, front, v);
      var k :| IsCommit(front, v, k);
      assert IsCommit(order, v, k);
    } else {
      assert AtomicAnswer(init, Log(front), order[|order| - 1]);
      assert IsCommit(order, v, |order| - 1);
    }
  }

  lemma {:induction false} CommitsApart(init: string, order: seq<Entry>, j: nat, k: nat)
    requires LegalHistory(init, order) && j < k < |order|
    requires order[j].result.Committed? && order[k].result.Committed?
    ensures order[j].result.version < order[k].result.version
  {
    assert AtomicAnswer(init, Log(order[..j]), order[j]);
    assert AtomicAnswer(init, Log(order[..k]), order[k]);
    LogGrows(order[..k], j + 1);
    assert order[..k][..j + 1] == order[..j + 1];
    assert order[..j + 1][..j] == order[..j];
  }
}
