/** What a logged-in connection may rely on (server.py): when its engineer is listed as active and subscribed. Other
    connections, logged in as the same engineer after a race, and failed deliveries can take that away. */
module Sessions {
  import opened Admission
  import opened Options
  import opened Runs

  /** Handler `c` is in its request loop or in a further LOGIN, with the login of `u` behind it. */
  predicate LoggedInAs(s: Server, c: Cid, u: Engineer) {
    && c in s.handlers && s.handlers[c].loggedIn && s.handlers[c].userId == u
    && (s.handlers[c].pc.Idle? || s.handlers[c].pc.Checking? || s.handlers[c].pc.Acquiring?)
  }

  /** Handler `c` works for `u`: its step `x` concerns that engineer. */
  predicate WorksFor(s: Server, x: Step, u: Engineer) {
    x.c in s.handlers && s.handlers[x.c].userId == u
  }

  predicate Registers(s: Server, x: Step, u: Engineer) { x.Register? && WorksFor(s, x, u) }

  predicate Unregisters(s: Server, x: Step, u: Engineer) { x.Unregister? && WorksFor(s, x, u) }

  predicate Subscribes(s: Server, x: Step, u: Engineer) { x.Subscribe? && WorksFor(s, x, u) }

  /** An unsubscription on the way out, or a delivery that failed. */
  predicate Unsubscribes(s: Server, x: Step, u: Engineer) {
    (x.Unsubscribe? && WorksFor(s, x, u) && s.handlers[x.c].loggedIn) || (x.DropSubscriber? && x.user == u)
  }

  lemma ListingStep(s: Server, x: Step, s': Server, u: Engineer)
    requires StepTo(s, x, s')
    ensures u in s'.active <==> Registers(s, x, u) || (u in s.active && !Unregisters(s, x, u))
    ensures u in s'.subscribers <==> Subscribes(s, x, u) || (u in s.subscribers && !Unsubscribes(s, x, u))
  {}

  /** Step `j` registered handler `c` as `u`, step `q` subscribed it, and it has not begun to leave since. */
  ghost predicate OwnLogin(states: seq<Server>, steps: seq<Step>, j: nat, q: nat, i: nat, c: Cid, u: Engineer)
    requires i <= |steps| < |states|
  {
    && j < q < i && steps[j] == Register(c) && Registers(states[j], steps[j], u)
    && steps[q] == Subscribe(c) && Subscribes(states[q], steps[q], u)
    && forall k {:trigger steps[k]} | j < k < i && steps[k].c == c :: !steps[k].Unsubscribe? && !steps[k].Unregister?
  }

  ghost predicate OwnRegistration(states: seq<Server>, steps: seq<Step>, j: nat, i: nat, c: Cid, u: Engineer)
    requires i <= |steps| < |states|
  {
    && j < i && steps[j] == Register(c) && Registers(states[j], steps[j], u)
    && forall k {:trigger steps[k]} | j < k < i && steps[k].c == c :: !steps[k].Unsubscribe? && !steps[k].Unregister?
  }

  lemma BeforeSubscribing(s: Server, x: Step, s': Server, c: Cid)
    requires StepTo(s, x, s') && c in s'.handlers && s'.handlers[c].pc.Subscribing?
    ensures c in s.handlers && s'.handlers[c].userId == s.handlers[c].userId
    ensures x == Register(c) || s.handlers[c].pc.Subscribing?
    ensures x.c == c ==> !x.Unsubscribe? && !x.Unregister?
  {}

  lemma {:induction false} FindRegistration(states: seq<Server>, steps: seq<Step>, i: nat, c: Cid) returns (j: nat)
    requires IsRun(states, steps) && i < |states| && c in states[i].handlers && states[i].handlers[c].pc.Subscribing?
    ensures OwnRegistration(states, steps, j, i, c, states[i].handlers[c].userId)
  {
    assert i > 0;
    assert StepTo(states[i - 1], steps[i - 1], states[i]);
    BeforeSubscribing(states[i - 1], steps[i - 1], states[i], c);
    if steps[i - 1] == Register(c) {
      j := i - 1;
    } else {
      j := FindRegistration(states, steps, i - 1, c);
    }
  }

  lemma BeforeLoggedIn(s: Server, x: Step, s': Server, c: Cid, u: Engineer)
    requires StepTo(s, x, s') && HandlerFits(s, x.c) && LoggedInAs(s', c, u)
    ensures c in s.handlers
    ensures if x == Subscribe(c) then s.handlers[c].pc.Subscribing? && s.handlers[c].userId == u
            else LoggedInAs(s, c, u)
    ensures x.c == c ==> !x.Unsubscribe? && !x.Unregister?
  {}

  /** Whoever is logged in has registered and subscribed itself, and has not left since. */
  lemma {:induction false} FindLogin(states: seq<Server>, steps: seq<Step>, i: nat, c: Cid, u: Engineer)
    returns (j: nat, q: nat)
    requires IsRun(states, steps) && i < |states| && LoggedInAs(states[i], c, u)
    ensures OwnLogin(states, steps, j, q, i, c, u)
  {
    assert i > 0;
    assert StepTo(states[i - 1], steps[i - 1], states[i]);
    InvAlways(states, steps, i - 1);
    BeforeLoggedIn(states[i - 1], steps[i - 1], states[i], c, u);
    if steps[i - 1] == Subscribe(c) {
      q := i - 1;
      j := FindRegistration(states, steps, i - 1, c);
    } else {
      j, q := FindLogin(states, steps, i - 1, c, u);
    }
  }

  /** Since step `from` another handler has unregistered `u`, and nobody has registered `u` again. */
  ghost predicate Delisted(states: seq<Server>, steps: seq<Step>, from: nat, i: nat, c: Cid, u: Engineer)
    requires i <= |steps| < |states|
  {
    exists k :: from <= k < i && DelistedAt(states, steps, k, i, c, u)
  }

  ghost predicate DelistedAt(states: seq<Server>, steps: seq<Step>, k: nat, i: nat, c: Cid, u: Engineer)
    requires k < i <= |steps| < |states|
  {
    && Unregisters(states[k], steps[k], u) && steps[k].c != c
    && forall m {:trigger steps[m]} | k < m < i :: !Registers(states[m], steps[m], u)
  }

  /** Since step `from` another handler has unsubscribed `u`, or a delivery to `u` has failed, and nobody has
      subscribed `u` again. */
  ghost predicate Unheard(states: seq<Server>, steps: seq<Step>, from: nat, i: nat, c: Cid, u: Engineer)
    requires i <= |steps| < |states|
  {
    exists k :: from <= k < i && UnheardAt(states, steps, k, i, c, u)
  }

  ghost predicate UnheardAt(states: seq<Server>, steps: seq<Step>, k: nat, i: nat, c: Cid, u: Engineer)
    requires k < i <= |steps| < |states|
  {
    && Unsubscribes(states[k], steps[k], u) && (steps[k].c != c || steps[k].DropSubscriber?)
    && forall m {:trigger steps[m]} | k < m < i :: !Subscribes(states[m], steps[m], u)
  }

  ghost function UnregistersOf(u: Engineer): (Server, Step) -> bool { (s, x) => Unregisters(s, x, u) }

  ghost function RegistersOf(u: Engineer): (Server, Step) -> bool { (s, x) => Registers(s, x, u) }

  ghost function UnsubscribesOf(u: Engineer): (Server, Step) -> bool { (s, x) => Unsubscribes(s, x, u) }

  ghost function SubscribesOf(u: Engineer): (Server, Step) -> bool { (s, x) => Subscribes(s, x, u) }

  lemma ActiveUnlessUndone(states: seq<Server>, steps: seq<Step>, j: nat, i: nat, u: Engineer)
    requires IsRun(states, steps) && j <= i < |states| && u in states[j].active
    ensures u in states[i].active <==> !Undone(states, steps, UnregistersOf(u), RegistersOf(u), j, i)
  {
    var P := (s: Server) => u in s.active;
    forall s, x, s' | StepTo(s, x, s') ensures P(s') <==> RegistersOf(u)(s, x) || (P(s) && !UnregistersOf(u)(s, x)) {
      ListingStep(s, x, s', u);
    }
    HoldsUnlessUndone(StepTo, states, steps, P, UnregistersOf(u), RegistersOf(u), j, i);
  }

  lemma SubscribedUnlessUndone(states: seq<Server>, steps: seq<Step>, j: nat, i: nat, u: Engineer)
    requires IsRun(states, steps) && j <= i < |states| && u in states[j].subscribers
    ensures u in states[i].subscribers <==> !Undone(states, steps, UnsubscribesOf(u), SubscribesOf(u), j, i)
  {
    var P := (s: Server) => u in s.subscribers;
    forall s, x, s' | StepTo(s, x, s') ensures P(s') <==> SubscribesOf(u)(s, x) || (P(s) && !UnsubscribesOf(u)(s, x)) {
      ListingStep(s, x, s', u);
    }
    HoldsUnlessUndone(StepTo, states, steps, P, UnsubscribesOf(u), SubscribesOf(u), j, i);
  }

  lemma DelistedByOther(states: seq<Server>, steps: seq<Step>, j: nat, q: nat, i: nat, c: Cid, u: Engineer)
    requires i <= |steps| < |states| && OwnLogin(states, steps, j, q, i, c, u)
    ensures Undone(states, steps, UnregistersOf(u), RegistersOf(u), j + 1, i)
            <==> Delisted(states, steps, j + 1, i, c, u)
  {
    forall k | j + 1 <= k < i
      ensures UndoneAt(states, steps, UnregistersOf(u), RegistersOf(u), k, i) <==> DelistedAt(states, steps, k, i, c, u)
    {
      assert steps[k].c == c ==> !steps[k].Unregister?;
    }
  }

  lemma UnheardByOther(states: seq<Server>, steps: seq<Step>, j: nat, q: nat, i: nat, c: Cid, u: Engineer)
    requires i <= |steps| < |states| && OwnLogin(states, steps, j, q, i, c, u)
    ensures Undone(states, steps, UnsubscribesOf(u), SubscribesOf(u), q + 1, i)
            <==> Unheard(states, steps, q + 1, i, c, u)
  {
    forall k | q + 1 <= k < i
      ensures UndoneAt(states, steps, UnsubscribesOf(u), SubscribesOf(u), k, i)
              <==> UnheardAt(states, steps, k, i, c, u)
    {
      assert steps[k].c == c ==> !steps[k].Unsubscribe?;
    }
  }

  /** Exactly when a logged-in connection is listed: its engineer is active if and only if no other handler has
      unregistered that engineer since its own registration without somebody registering again; and subscribed if and
      only if, since its own subscription, nobody else has unsubscribed that engineer and no delivery to it has failed,
      without somebody subscribing again. */
  lemma {:induction false} ListedIff(states: seq<Server>, steps: seq<Step>, i: nat, c: Cid, u: Engineer)
    returns (j: nat, q: nat)
    requires IsRun(states, steps) && i < |states| && LoggedInAs(states[i], c, u)
    ensures OwnLogin(states, steps, j, q, i, c, u)
    ensures u in states[i].active <==> !Delisted(states, steps, j + 1, i, c, u)
    ensures u in states[i].subscribers <==> !Unheard(states, steps, q + 1, i, c, u)
  {
    j, q := FindLogin(states, steps, i, c, u);
    assert StepTo(states[j], steps[j], states[j + 1]);
    assert StepTo(states[q], steps[q], states[q + 1]);
    ListingStep(states[j], steps[j], states[j + 1], u);
    ListingStep(states[q], steps[q], states[q + 1], u);
    ActiveUnlessUndone(states, steps, j + 1, i, u);
    SubscribedUnlessUndone(states, steps, q + 1, i, u);
    DelistedByOther(states, steps, j, q, i, c, u);
    UnheardByOther(states, steps, j, q, i, c, u);
  }

  /** It does happen: two connections log in as the same engineer at the same time, and when one of them leaves, the
      other still holds its session but is neither active nor subscribed. */
  lemma RaceDelists(u: Engineer) returns (states: seq<Server>, steps: seq<Step>)
    ensures IsRun(states, steps)
    ensures var s := states[|steps|];
            LoggedInAs(s, 0, u) && s.handlers[0].holdsSession && u !in s.active && u !in s.subscribers
  {
    states, steps := BothAdmitted(u);
    states, steps := Extend(states, steps, Register(0));
    states, steps := Extend(states, steps, Subscribe(0));
    states, steps := Extend(states, steps, Register(1));
    states, steps := Extend(states, steps, Subscribe(1));
    states, steps := LeavesBeside(states, steps, 1, 0, u);
  }

  /** Handler `c` is past its checks and holds a slot, about to register `u`. */
  predicate Admitted(s: Server, c: Cid, u: Engineer) {
    && c in s.handlers && s.handlers[c].pc.Registering? && !s.handlers[c].closing
    && s.handlers[c].userId == u && s.handlers[c].loggedIn && s.handlers[c].holdsSession
  }

  lemma BothAdmitted(u: Engineer) returns (states: seq<Server>, steps: seq<Step>)
    ensures IsRun(states, steps) && Admitted(states[|steps|], 0, u) && Admitted(states[|steps|], 1, u)
  {
    states, steps := [Server(MAX_SESSIONS, {}, {}, map[0 := NewHandler(), 1 := NewHandler()], map[])], [];
    states, steps := Extend(states, steps, Login(0, u, true));
    states, steps := Extend(states, steps, Login(1, u, true));
    states, steps := Extend(states, steps, Check(0));
    states, steps := Extend(states, steps, Check(1));
    states, steps := Extend(states, steps, Acquire(0));
    states, steps := Extend(states, steps, Acquire(1));
  }

  /** Handler `d` leaves, and takes the registration of its engineer with it, whoever else is logged in as the same. */
  lemma LeavesBeside(states: seq<Server>, steps: seq<Step>, d: Cid, c: Cid, u: Engineer)
    returns (states': seq<Server>, steps': seq<Step>)
    requires IsRun(states, steps) && c != d
    requires var s := states[|steps|];
             LoggedInAs(s, c, u) && LoggedInAs(s, d, u) && s.handlers[d].pc.Idle? && s.handlers[c].holdsSession
    ensures IsRun(states', steps')
    ensures var s := states'[|steps'|];
            LoggedInAs(s, c, u) && s.handlers[c].holdsSession && u !in s.active && u !in s.subscribers
  {
    states', steps' := Extend(states, steps, Logout(d));
    states', steps' := Extend(states', steps', Unsubscribe(d));
    states', steps' := Extend(states', steps', Unregister(d));
    states', steps' := Extend(states', steps', Free(d));
  }

  // ---- how a LOGIN is answered, with everybody else at work ---------------------------------------------------

  predicate StillChecking(s: Server, x: Step, c: Cid, u: Engineer) {
    x == Check(c) && c in s.handlers && s.handlers[c].pc == Checking(u)
  }

  predicate StillAcquiring(s: Server, x: Step, c: Cid, u: Engineer) {
    x == Acquire(c) && c in s.handlers && s.handlers[c].pc == Acquiring(u)
  }

  /** At step `k` handler `c` asked whether `u` is active, and was told `active`. */
  ghost predicate CheckedAt(states: seq<Server>, steps: seq<Step>, k: int, c: Cid, u: Engineer, active: bool) {
    && 0 <= k < |steps| && k < |states| && StillChecking(states[k], steps[k], c, u)
    && (u in states[k].active <==> active)
  }

  /** At step `k` handler `c` tried the semaphore for `u`, and got a slot or not. */
  ghost predicate TriedAt(states: seq<Server>, steps: seq<Step>, k: int, c: Cid, u: Engineer, got: bool) {
    && 0 <= k < |steps| && k < |states| && StillAcquiring(states[k], steps[k], c, u)
    && (states[k].free > 0 <==> got)
  }

  ghost predicate WasChecked(states: seq<Server>, steps: seq<Step>, j: nat, i: nat, c: Cid, u: Engineer, active: bool) {
    exists k :: j < k < i && CheckedAt(states, steps, k, c, u, active)
  }

  ghost predicate WasTried(states: seq<Server>, steps: seq<Step>, j: nat, i: nat, c: Cid, u: Engineer, got: bool) {
    exists k :: j < k < i && TriedAt(states, steps, k, c, u, got)
  }

  lemma WitnessesGrow(states: seq<Server>, steps: seq<Step>, j: nat, i: nat, c: Cid, u: Engineer, b: bool)
    ensures WasChecked(states, steps, j, i, c, u, b) ==> WasChecked(states, steps, j, i + 1, c, u, b)
    ensures WasTried(states, steps, j, i, c, u, b) ==> WasTried(states, steps, j, i + 1, c, u, b)
    ensures j < i && CheckedAt(states, steps, i, c, u, b) ==> WasChecked(states, steps, j, i + 1, c, u, b)
    ensures j < i && TriedAt(states, steps, i, c, u, b) ==> WasTried(states, steps, j, i + 1, c, u, b)
  {
    if WasChecked(states, steps, j, i, c, u, b) {
      var k :| j < k < i && CheckedAt(states, steps, k, c, u, b);
      assert j < k < i + 1;
    }
    if WasTried(states, steps, j, i, c, u, b) {
      var k :| j < k < i && TriedAt(states, steps, k, c, u, b);
      assert j < k < i + 1;
    }
  }

  /** What has become of a LOGIN, as its handler `h` shows it: what it was answered, and whether it took a slot.
      `before` is the number of slots the connection had taken until then, and the four flags say what its checks and
      its try at the semaphore have found. */
  predicate LoginShows(h: Handler, before: nat, u: Engineer, authentic: bool, active: bool, clear: bool,
      full: bool, got: bool)
  {
    var took := h.taken == before + 1;
    && (h.answer == Some(AuthenticationFailed) <==> !authentic)
    && (h.answer == Some(AlreadyLoggedIn) ==> active)
    && (h.answer == Some(AtCapacity) ==> clear && full)
    && (h.answer == Some(LoggedIn) || h.pc.Registering? || h.pc.Subscribing? ==> took && clear && got)
    && (h.answer.Some? && h.answer != Some(LoggedIn) ==> h.taken == before)
    && (h.pc.Checking? ==> h.pc.user == u && h.taken == before && h.answer.None?)
    && (h.pc.Acquiring? ==> h.pc.user == u && h.taken == before && h.answer.None? && clear)
    && (h.pc.Registering? || h.pc.Subscribing? ==> h.answer.None?)
  }

  lemma LoginShowsBegin(s: Server, x: Step, s': Server, c: Cid, u: Engineer, authentic: bool)
    requires StepTo(s, x, s') && x == Login(c, u, authentic)
    ensures c in s.handlers && c in s'.handlers
    ensures LoginShows(s'.handlers[c], s.handlers[c].taken, u, authentic, false, false, false, false)
  {}

  lemma LoginShowsStep(s: Server, x: Step, s': Server, c: Cid, before: nat, u: Engineer, authentic: bool, active: bool,
      clear: bool, full: bool, got: bool)
    requires StepTo(s, x, s') && !(x.Login? && x.c == c) && c in s.handlers
    requires LoginShows(s.handlers[c], before, u, authentic, active, clear, full, got)
    ensures c in s'.handlers
    ensures LoginShows(s'.handlers[c], before, u, authentic,
                       active || (StillChecking(s, x, c, u) && u in s.active),
                       clear || (StillChecking(s, x, c, u) && u !in s.active),
                       full || (StillAcquiring(s, x, c, u) && s.free <= 0),
                       got || (StillAcquiring(s, x, c, u) && s.free > 0))
  {
    if x.c == c {
      OwnLoginStep(s, x, s', before, u, authentic, active, clear, full, got);
    } else {
      assert s'.handlers[c] == s.handlers[c];
    }
  }

  lemma OwnLoginStep(s: Server, x: Step, s': Server, before: nat, u: Engineer, authentic: bool, active: bool,
      clear: bool, full: bool, got: bool)
    requires StepTo(s, x, s') && !x.Login?
    requires LoginShows(s.handlers[x.c], before, u, authentic, active, clear, full, got)
    ensures x.c in s'.handlers
    ensures LoginShows(s'.handlers[x.c], before, u, authentic,
                       active || (StillChecking(s, x, x.c, u) && u in s.active),
                       clear || (StillChecking(s, x, x.c, u) && u !in s.active),
                       full || (StillAcquiring(s, x, x.c, u) && s.free <= 0),
                       got || (StillAcquiring(s, x, x.c, u) && s.free > 0))
  {}

  predicate NoLoginBetween(steps: seq<Step>, j: nat, i: nat, c: Cid)
    requires i <= |steps|
  {
    forall k {:trigger steps[k]} | j < k < i :: !(steps[k].Login? && steps[k].c == c)
  }

  /** Every answer to a LOGIN, in every interleaving, is given for its own cause: the credentials were wrong; or the
      connection found the engineer active; or it did not, and found no free slot; or it found neither, and took one. */
  lemma {:induction false} LoginAnswered(states: seq<Server>, steps: seq<Step>, j: nat, i: nat, c: Cid, u: Engineer,
      authentic: bool)
    requires IsRun(states, steps) && j < i < |states| && steps[j] == Login(c, u, authentic)
    requires NoLoginBetween(steps, j, i, c)
    ensures c in states[j].handlers && c in states[i].handlers
    ensures LoginShows(states[i].handlers[c], states[j].handlers[c].taken, u, authentic,
                       WasChecked(states, steps, j, i, c, u, true), WasChecked(states, steps, j, i, c, u, false),
                       WasTried(states, steps, j, i, c, u, false), WasTried(states, steps, j, i, c, u, true))
    decreases i
  {
    assert StepTo(states[i - 1], steps[i - 1], states[i]);
    if i - 1 == j {
      LoginShowsBegin(states[j], steps[j], states[i], c, u, authentic);
    } else {
      LoginAnswered(states, steps, j, i - 1, c, u, authentic);
      LoginShowsStep(states[i - 1], steps[i - 1], states[i], c, states[j].handlers[c].taken, u, authentic,
                     WasChecked(states, steps, j, i - 1, c, u, true), WasChecked(states, steps, j, i - 1, c, u, false),
                     WasTried(states, steps, j, i - 1, c, u, false), WasTried(states, steps, j, i - 1, c, u, true));
      WitnessesGrow(states, steps, j, i - 1, c, u, true);
      WitnessesGrow(states, steps, j, i - 1, c, u, false);
    }
  }

  /** So a LOGIN that was answered "logged in" took exactly one slot for its engineer, and any other none. */
  lemma {:induction false} LoggedInIff(states: seq<Server>, steps: seq<Step>, j: nat, i: nat, c: Cid, u: Engineer,
      authentic: bool)
    requires IsRun(states, steps) && j < i < |states| && steps[j] == Login(c, u, authentic)
    requires NoLoginBetween(steps, j, i, c)
    requires c in states[i].handlers && states[i].handlers[c].answer.Some?
    ensures c in states[j].handlers
    ensures states[i].handlers[c].answer == Some(LoggedIn)
            <==> states[i].handlers[c].taken == states[j].handlers[c].taken + 1
    ensures states[i].handlers[c].answer != Some(LoggedIn)
            <==> states[i].handlers[c].taken == states[j].handlers[c].taken
    ensures !authentic <==> states[i].handlers[c].answer == Some(AuthenticationFailed)
  {
    LoginAnswered(states, steps, j, i, c, u, authentic);
  }
}
