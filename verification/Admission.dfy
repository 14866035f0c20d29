/** Session admission (server.py): a bounded semaphore, the registry of active users and the subscribers of
    the broker, each touched in a separate step by handlers that run concurrently. */
module Admission {
  import opened Options
  import opened Runs

  type Cid = nat
  type Engineer = string

  const MAX_SESSIONS := 5

  /** Where a handler is between two steps that other threads can see. */
  datatype Pc =
    | Idle                          // in the request loop: reading, or answering
    | Checking(user: Engineer)      // authenticated, about to call is_active
    | Acquiring(user: Engineer)     // not a duplicate, about to try the semaphore
    | Registering                   // slot held, fields set, about to register_session
    | Subscribing                   // registered, about to subscribe
    | Releasing                     // entered _release_session
    | Unregistering                 // unsubscribed, about to unregister_session
    | Freeing                       // about to return the slot if one is held
    | Ended

  /** The `k`-th slot a connection has taken. */
  type Slot = (Cid, nat)

  /** What a LOGIN is answered. */
  datatype Reply = LoggedIn | AuthenticationFailed | AlreadyLoggedIn | AtCapacity

  /** `slot` is the slot taken last, `taken` the number of slots taken so far; `closing` says that the
      release under way is the one of `_cleanup`; `answer` is the answer to the last LOGIN, once it is given. */
  datatype Handler = Handler(
    userId: string, loggedIn: bool, holdsSession: bool, slot: Slot, taken: nat, pc: Pc, closing: bool,
    answer: Option<Reply>)

  /** `slots` labels every slot that is out with the engineer it was taken for. It only observes the run. */
  datatype Server = Server(
    free: int, active: set<Engineer>, subscribers: set<Engineer>,
    handlers: map<Cid, Handler>, slots: map<Slot, Engineer>)

  datatype Step =
    | Login(c: Cid, user: Engineer, authentic: bool)
    | Check(c: Cid)
    | Acquire(c: Cid)
    | Register(c: Cid)
    | Subscribe(c: Cid)
    | Logout(c: Cid)
    | Raise(c: Cid)                 // disconnect, failed send or any other exception: go to cleanup
    | Unsubscribe(c: Cid)
    | Unregister(c: Cid)
    | Free(c: Cid)
    | DropSubscriber(c: Cid, user: Engineer)  // another thread's publish failed to deliver to `user`

  function NewHandler(): Handler {
    Handler("", false, false, (0, 0), 0, Idle, false, None)
  }

  ghost predicate Initial(s: Server) {
    && s.free == MAX_SESSIONS && s.active == {} && s.subscribers == {} && s.slots == map[]
    && forall c | c in s.handlers :: s.handlers[c] == NewHandler()
  }

  predicate Enabled(s: Server, x: Step) {
    && x.c in s.handlers
    && var h := s.handlers[x.c];
       match x
       case Login(_, _, _) => h.pc.Idle?
       case Check(_) => h.pc.Checking?
       case Acquire(_) => h.pc.Acquiring?
       case Register(_) => h.pc.Registering?
       case Subscribe(_) => h.pc.Subscribing?
       case Logout(_) => h.pc.Idle?
       case Raise(_) => h.pc.Idle? || h.pc.Checking? || h.pc.Acquiring? || h.pc.Registering? || h.pc.Subscribing?
       case Unsubscribe(_) => h.pc.Releasing?
       case Unregister(_) => h.pc.Unregistering?
       case Free(_) => h.pc.Freeing?
       case DropSubscriber(_, _) => true
  }

  function Set(s: Server, c: Cid, h: Handler): Server {
    s.(handlers := s.handlers[c := h])
  }

  function Next(s: Server, x: Step): Server
    requires Enabled(s, x)
  {
    var c := x.c;
    var h := s.handlers[c];
    match x
    case Login(_, user, authentic) =>
      if authentic then Set(s, c, h.(pc := Checking(user), answer := None))
      else Set(s, c, h.(answer := Some(AuthenticationFailed)))
    case Check(_) =>
      if h.pc.user in s.active then Set(s, c, h.(pc := Idle, answer := Some(AlreadyLoggedIn)))
      else Set(s, c, h.(pc := Acquiring(h.pc.user)))
    case Acquire(_) =>
      if s.free <= 0 then Set(s, c, h.(pc := Idle, answer := Some(AtCapacity)))
      else Set(s, c, h.(userId := h.pc.user, loggedIn := true, holdsSession := true,
                        slot := (c, h.taken), taken := h.taken + 1, pc := Registering)).(
             free := s.free - 1, slots := s.slots[(c, h.taken) := h.pc.user])
    case Register(_) => Set(s, c, h.(pc := Subscribing)).(active := s.active + {h.userId})
    case Subscribe(_) => Set(s, c, h.(pc := Idle, answer := Some(LoggedIn))).(subscribers := s.subscribers + {h.userId})
    case Logout(_) => Set(s, c, h.(pc := Releasing))
    case Raise(_) => Set(s, c, h.(pc := Releasing, closing := true))
    case Unsubscribe(_) =>
      if h.loggedIn then Set(s, c, h.(pc := Unregistering)).(subscribers := s.subscribers - {h.userId})
      else Set(s, c, h.(pc := Freeing))
    case Unregister(_) => Set(s, c, h.(loggedIn := false, pc := Freeing)).(active := s.active - {h.userId})
    case Free(_) =>
      var s' := Set(s, c, h.(holdsSession := false, pc := if h.closing then Ended else Idle));
      if h.holdsSession then s'.(free := s.free + 1, slots := s.slots - {h.slot}) else s'
    case DropSubscriber(_, user) => s.(subscribers := s.subscribers - {user})
  }

  ghost predicate StepTo(s: Server, x: Step, s': Server) {
    Enabled(s, x) && s' == Next(s, x)
  }

  ghost predicate IsRun(states: seq<Server>, steps: seq<Step>) {
    Follows(StepTo, states, steps) && Initial(states[0])
  }

  // ---- the invariant ---------------------------------------------------------------------------------------

  /** A slot is held while its handler can still return it. */
  predicate Held(s: Server, x: Slot) {
    x in s.slots && x.0 in s.handlers && s.handlers[x.0].holdsSession && s.handlers[x.0].slot == x
  }

  /** What a handler knows about itself. */
  ghost predicate HandlerFits(s: Server, c: Cid)
    requires c in s.handlers
  {
    var h := s.handlers[c];
    && (h.holdsSession ==> h.slot in s.slots && h.slot.0 == c)
    && (h.loggedIn ==> h.holdsSession && h.slot in s.slots && s.slots[h.slot] == h.userId)
    && (h.holdsSession && !h.pc.Freeing? ==> h.loggedIn)
    && (h.pc.Registering? || h.pc.Subscribing? || h.pc.Unregistering? ==> h.loggedIn)
    && (h.pc.Freeing? || h.pc.Ended? ==> !h.loggedIn)
    && (h.pc.Ended? ==> !h.holdsSession)
  }

  ghost predicate SlotsFit(s: Server) {
    && s.free == MAX_SESSIONS - |s.slots| && s.free >= 0
    && (forall x | x in s.slots :: x.0 in s.handlers && x.1 < s.handlers[x.0].taken)
  }

  /** The slot is out for `user`, and its handler has not yet unregistered on its way to returning it. */
  predicate BacksActive(s: Server, x: Slot, user: Engineer) {
    x in s.slots && s.slots[x] == user && !(Held(s, x) && s.handlers[x.0].pc.Freeing?)
  }

  predicate BacksSubscriber(s: Server, x: Slot, user: Engineer) {
    && x in s.slots && s.slots[x] == user
    && !(Held(s, x) && (s.handlers[x.0].pc.Freeing? || s.handlers[x.0].pc.Unregistering?))
  }

  ghost predicate ActiveBacked(s: Server, user: Engineer) {
    exists x :: BacksActive(s, x, user)
  }

  ghost predicate SubscriberBacked(s: Server, user: Engineer) {
    exists x :: BacksSubscriber(s, x, user)
  }

  ghost predicate Inv(s: Server) {
    && SlotsFit(s)
    && (forall c | c in s.handlers :: HandlerFits(s, c))
    && (forall u | u in s.active :: ActiveBacked(s, u))
    && (forall u | u in s.subscribers :: SubscriberBacked(s, u))
  }

  lemma SlotCount(slots: map<Slot, Engineer>, x: Slot, u: Engineer)
    ensures x !in slots ==> |slots[x := u]| == |slots| + 1
    ensures x in slots ==> |slots - {x}| == |slots| - 1
  {
    assert x in slots ==> slots.Keys == (slots - {x}).Keys + {x};
  }

  /** What a step does to the slots: one is taken under a fresh name, one is returned, or none moves. */
  lemma SlotsMove(s: Server, x: Step)
    requires SlotsFit(s) && Enabled(s, x) && HandlerFits(s, x.c)
    ensures var s', h := Next(s, x), s.handlers[x.c];
            if x.Acquire? && s.free > 0 then
              (x.c, h.taken) !in s.slots && s'.slots == s.slots[(x.c, h.taken) := h.pc.user] && s'.free == s.free - 1
            else if x.Free? && h.holdsSession then
              h.slot in s.slots && s'.slots == s.slots - {h.slot} && s'.free == s.free + 1
            else s'.slots == s.slots && s'.free == s.free
    ensures forall c | c in s.handlers ::
              c in Next(s, x).handlers && s.handlers[c].taken <= Next(s, x).handlers[c].taken
    ensures x.Acquire? && s.free > 0 ==> Next(s, x).handlers[x.c].taken == s.handlers[x.c].taken + 1
  {}

  lemma SlotsStep(s: Server, x: Step)
    requires SlotsFit(s) && Enabled(s, x) && HandlerFits(s, x.c)
    ensures SlotsFit(Next(s, x))
    ensures x.Free? && s.handlers[x.c].holdsSession ==> s.free < MAX_SESSIONS
  {
    SlotsMove(s, x);
    var h := s.handlers[x.c];
    if x.Acquire? && s.free > 0 {
      SlotCount(s.slots, (x.c, h.taken), h.pc.user);
    } else if x.Free? && h.holdsSession {
      SlotCount(s.slots, h.slot, "");
    }
  }

  lemma HandlersStep(s: Server, x: Step, c: Cid)
    requires SlotsFit(s) && Enabled(s, x) && c in s.handlers && HandlerFits(s, c) && HandlerFits(s, x.c)
    ensures c in Next(s, x).handlers && HandlerFits(Next(s, x), c)
  {
    if c != x.c { OtherStep(s, x, c); } else if Enters(x) { OwnEntry(s, x); } else { OwnExit(s, x); }
  }

  predicate Enters(x: Step) {
    x.Login? || x.Check? || x.Acquire? || x.Register? || x.Subscribe?
  }

  lemma OwnEntry(s: Server, x: Step)
    requires SlotsFit(s) && Enabled(s, x) && HandlerFits(s, x.c) && Enters(x)
    ensures x.c in Next(s, x).handlers && HandlerFits(Next(s, x), x.c)
  {}

  lemma OwnExit(s: Server, x: Step)
    requires SlotsFit(s) && Enabled(s, x) && HandlerFits(s, x.c) && !Enters(x)
    ensures x.c in Next(s, x).handlers && HandlerFits(Next(s, x), x.c)
  {}

  lemma OtherStep(s: Server, x: Step, c: Cid)
    requires SlotsFit(s) && Enabled(s, x) && c in s.handlers && c != x.c && HandlerFits(s, c) && HandlerFits(s, x.c)
    ensures c in Next(s, x).handlers && HandlerFits(Next(s, x), c)
  {}

  /** A slot stays behind a user unless this very step takes it away. */
  lemma ActiveStep(s: Server, x: Step, u: Engineer)
    requires SlotsFit(s) && (forall c | c in s.handlers :: HandlerFits(s, c)) && Enabled(s, x)
    requires u in s.active ==> ActiveBacked(s, u)
    ensures u in Next(s, x).active ==> ActiveBacked(Next(s, x), u)
  {
    var s' := Next(s, x);
    assert HandlerFits(s, x.c);
    if u in s'.active {
      if x.Register? && u == s.handlers[x.c].userId {
        assert BacksActive(s', s.handlers[x.c].slot, u);
      } else {
        var y :| BacksActive(s, y, u);
        StillBacksActive(s, x, y, u);
      }
    }
  }

  lemma StillBacksActive(s: Server, x: Step, y: Slot, u: Engineer)
    requires SlotsFit(s) && Enabled(s, x) && HandlerFits(s, x.c) && BacksActive(s, y, u)
    requires x.Unregister? ==> u != s.handlers[x.c].userId
    ensures BacksActive(Next(s, x), y, u)
  {}

  lemma SubscriberStep(s: Server, x: Step, u: Engineer)
    requires SlotsFit(s) && (forall c | c in s.handlers :: HandlerFits(s, c)) && Enabled(s, x)
    requires u in s.subscribers ==> SubscriberBacked(s, u)
    ensures u in Next(s, x).subscribers ==> SubscriberBacked(Next(s, x), u)
  {
    var s' := Next(s, x);
    assert HandlerFits(s, x.c);
    if u in s'.subscribers {
      if x.Subscribe? && u == s.handlers[x.c].userId {
        assert BacksSubscriber(s', s.handlers[x.c].slot, u);
      } else {
        var y :| BacksSubscriber(s, y, u);
        StillBacksSubscriber(s, x, y, u);
      }
    }
  }

  lemma StillBacksSubscriber(s: Server, x: Step, y: Slot, u: Engineer)
    requires SlotsFit(s) && Enabled(s, x) && HandlerFits(s, x.c) && BacksSubscriber(s, y, u)
    requires x.Unsubscribe? && s.handlers[x.c].loggedIn ==> u != s.handlers[x.c].userId
    ensures BacksSubscriber(Next(s, x), y, u)
  {}

  lemma InvStep(s: Server, x: Step, s': Server)
    requires Inv(s) && StepTo(s, x, s')
    ensures Inv(s')
  {
    assert HandlerFits(s, x.c);
    SlotsStep(s, x);
    forall c | c in s'.handlers ensures HandlerFits(s', c) { HandlersStep(s, x, c); }
    forall u | u in s'.active ensures ActiveBacked(s', u) { ActiveStep(s, x, u); }
    forall u | u in s'.subscribers ensures SubscriberBacked(s', u) { SubscriberStep(s, x, u); }
  }

  lemma InvInitial(s: Server)
    requires Initial(s)
    ensures Inv(s)
  {}

  lemma InvAlways(states: seq<Server>, steps: seq<Step>, i: nat)
    requires IsRun(states, steps) && i < |states|
    ensures Inv(states[i])
  {
    InvInitial(states[0]);
    var P := (s: Server) => Inv(s);
    forall s, x, s' | P(s) && StepTo(s, x, s') ensures P(s') { InvStep(s, x, s'); }
    Always(StepTo, states, steps, P, i);
  }

  // ---- the admission bound ------------------------------------------------------------------------------------

  lemma {:induction false} ImageSize<K, V>(m: map<K, V>, values: set<V>)
    requires forall v | v in values :: exists k :: k in m && m[k] == v
    ensures |values| <= |m|
    decreases |values|
  {
    if values != {} {
      var v :| v in values;
      var k :| k in m && m[k] == v;
      var m' := m - {k};
      assert m.Keys == m'.Keys + {k} && |m| == |m.Keys| && |m'| == |m'.Keys|;
      forall w | w in values - {v} ensures exists j :: j in m' && m'[j] == w {
        var j :| j in m && m[j] == w;
        assert j in m' && m'[j] == w;
      }
      ImageSize(m', values - {v});
    }
  }

  ghost predicate Labels(s: Server, users: set<Engineer>) {
    forall u | u in users :: exists x :: x in s.slots && s.slots[x] == u
  }

  /** In every interleaving, with racing and repeated logins, every active user and every subscriber is the
      label of a slot that is out; so there are at most five of each, and the semaphore never holds fewer than
      no slots or more than five. */
  lemma AdmissionBound(states: seq<Server>, steps: seq<Step>, i: nat)
    requires IsRun(states, steps) && i < |states|
    ensures var s := states[i];
            && Labels(s, s.active) && Labels(s, s.subscribers)
            && |s.active| <= 5 && |s.subscribers| <= 5 && 0 <= s.free <= 5
  {
    InvAlways(states, steps, i);
    var s := states[i];
    forall u | u in s.active ensures exists x :: x in s.slots && s.slots[x] == u {
      assert ActiveBacked(s, u);
      var x :| BacksActive(s, x, u);
      assert x in s.slots && s.slots[x] == u;
    }
    forall u | u in s.subscribers ensures exists x :: x in s.slots && s.slots[x] == u {
      assert SubscriberBacked(s, u);
      var x :| BacksSubscriber(s, x, u);
      assert x in s.slots && s.slots[x] == u;
    }
    ImageSize(s.slots, s.active);
    ImageSize(s.slots, s.subscribers);
  }

  /** A slot is only ever returned while fewer than all are free: BoundedSemaphore never complains. */
  lemma NeverOverReleased(states: seq<Server>, steps: seq<Step>, i: nat)
    requires IsRun(states, steps) && i < |steps|
    requires states[i + 1].free > states[i].free
    ensures steps[i].Free? && states[i].free < MAX_SESSIONS && states[i + 1].free == states[i].free + 1
  {
    assert StepTo(states[i], steps[i], states[i + 1]);
    InvAlways(states, steps, i);
    assert HandlerFits(states[i], steps[i].c);
    SlotsMove(states[i], steps[i]);
    SlotsStep(states[i], steps[i]);
  }

  // ---- slot conservation ---------------------------------------------------------------------------------------

  function Holders(s: Server): set<Cid> {
    set c | c in s.handlers && s.handlers[c].holdsSession
  }

  /** A LOGIN that takes a slot for a handler that holds one already: the old slot is forgotten. */
  predicate TakesSecond(s: Server, x: Step) {
    Enabled(s, x) && x.Acquire? && s.free > 0 && s.handlers[x.c].holdsSession
  }

  function SecondLogins(states: seq<Server>, steps: seq<Step>, i: nat): nat
    requires i <= |steps| < |states|
  {
    if i == 0 then 0
    else SecondLogins(states, steps, i - 1) + (if TakesSecond(states[i - 1], steps[i - 1]) then 1 else 0)
  }

  function HolderCount(h: Handler): nat {
    if h.holdsSession then 1 else 0
  }

  lemma HoldersUpdate(s: Server, s': Server, c: Cid)
    requires c in s.handlers && c in s'.handlers && s'.handlers == s.handlers[c := s'.handlers[c]]
    ensures |Holders(s')| == |Holders(s)| - HolderCount(s.handlers[c]) + HolderCount(s'.handlers[c])
  {
    assert Holders(s') - {c} == Holders(s) - {c};
    assert |Holders(s) - {c}| == |Holders(s)| - HolderCount(s.handlers[c]);
    assert |Holders(s') - {c}| == |Holders(s')| - HolderCount(s'.handlers[c]);
  }

  lemma FreeStep(s: Server, x: Step, s': Server)
    requires StepTo(s, x, s') && HandlerFits(s, x.c)
    ensures s'.handlers == s.handlers[x.c := s'.handlers[x.c]]
    ensures s'.free - s.free
            == HolderCount(s.handlers[x.c]) - HolderCount(s'.handlers[x.c]) - (if TakesSecond(s, x) then 1 else 0)
  {}

  lemma HoldersStep(s: Server, x: Step, s': Server)
    requires Inv(s) && StepTo(s, x, s')
    ensures s'.free + |Holders(s')| + (if TakesSecond(s, x) then 1 else 0) == s.free + |Holders(s)|
  {
    assert HandlerFits(s, x.c);
    FreeStep(s, x, s');
    HoldersUpdate(s, s', x.c);
  }

  lemma HoldersAlong(states: seq<Server>, steps: seq<Step>, i: nat)
    requires IsRun(states, steps) && i < |steps|
    ensures states[i + 1].free + |Holders(states[i + 1])| + (if TakesSecond(states[i], steps[i]) then 1 else 0)
            == states[i].free + |Holders(states[i])|
  {
    InvAlways(states, steps, i);
    assert StepTo(states[i], steps[i], states[i + 1]);
    HoldersStep(states[i], steps[i], states[i + 1]);
  }

  /** Slots are conserved: the free ones, the ones held by handlers and the ones forgotten by a second LOGIN
      on the same connection are MAX_SESSIONS at every step. Without a second LOGIN none is ever lost, and
      each one is lost for good. */
  lemma {:induction false} SlotsConserved(states: seq<Server>, steps: seq<Step>, i: nat)
    requires IsRun(states, steps) && i < |states|
    ensures states[i].free + |Holders(states[i])| + SecondLogins(states, steps, i) == MAX_SESSIONS
  {
    if i == 0 {
      assert Holders(states[0]) == {};
    } else {
      SlotsConserved(states, steps, i - 1);
      HoldersAlong(states, steps, i - 1);
    }
  }

  predicate AllEnded(s: Server) {
    forall c | c in s.handlers :: s.handlers[c].pc.Ended?
  }

  /** When every handler has ended, the pool is whole again if and only if no handler took a second slot; and
      then both registries are empty. */
  lemma NothingLeaks(states: seq<Server>, steps: seq<Step>, i: nat)
    requires IsRun(states, steps) && i < |states| && AllEnded(states[i])
    ensures states[i].free == MAX_SESSIONS <==> SecondLogins(states, steps, i) == 0
    ensures states[i].free == MAX_SESSIONS ==> states[i].active == {} && states[i].subscribers == {}
  {
    SlotsConserved(states, steps, i);
    InvAlways(states, steps, i);
    AdmissionBound(states, steps, i);
    var s := states[i];
    forall c | c in s.handlers ensures !s.handlers[c].holdsSession { assert HandlerFits(s, c); }
    assert Holders(s) == {};
    if s.free == MAX_SESSIONS {
      assert s.slots == map[];
    }
  }

  // ---- one handler undisturbed, and the objects of the source ----------------------------------------------------

  /** What one handler sees of the server and of itself. */
  datatype View = View(
    free: int, active: set<Engineer>, subscribers: set<Engineer>, userId: string, loggedIn: bool, holdsSession: bool)

  function ViewOf(s: Server, c: Cid): View
    requires c in s.handlers
  {
    var h := s.handlers[c];
    View(s.free, s.active, s.subscribers, h.userId, h.loggedIn, h.holdsSession)
  }

  /** `_handle_login` with no other thread in between. */
  function LoginAlone(v: View, user: Engineer, authentic: bool): (View, Reply) {
    if !authentic then (v, AuthenticationFailed)
    else if user in v.active then (v, AlreadyLoggedIn)
    else if v.free <= 0 then (v, AtCapacity)
    else (View(v.free - 1, v.active + {user}, v.subscribers + {user}, user, true, true), LoggedIn)
  }

  /** `_release_session` with no other thread in between. */
  function ReleaseAlone(v: View): View {
    var out :=
      if v.loggedIn
      then v.(subscribers := v.subscribers - {v.userId}, active := v.active - {v.userId}, loggedIn := false)
      else v;
    if out.holdsSession then out.(free := out.free + 1, holdsSession := false) else out
  }

  class DistResServer {
    var free: int
    var active: set<Engineer>
    var subscribers: set<Engineer>

    constructor ()
      ensures free == MAX_SESSIONS && active == {} && subscribers == {}
    {
      free, active, subscribers := MAX_SESSIONS, {}, {};
    }

    method TryAcquire() returns (ok: bool)
      modifies this`free
      ensures ok == (old(free) > 0) && free == if ok then old(free) - 1 else old(free)
    {
      ok := free > 0;
      if ok { free := free - 1; }
    }
  }

  class ClientHandler {
    const server: DistResServer
    var userId: string
    var loggedIn: bool
    var holdsSession: bool

    constructor (server: DistResServer)
      ensures this.server == server && !loggedIn && !holdsSession
    {
      this.server := server;
      userId, loggedIn, holdsSession := "", false, false;
    }

    function Value(): View
      reads this, server
    {
      View(server.free, server.active, server.subscribers, userId, loggedIn, holdsSession)
    }

    method HandleLogin(user: Engineer, authentic: bool) returns (r: Reply)
      modifies this, server
      ensures (Value(), r) == LoginAlone(old(Value()), user, authentic)
      ensures r == LoggedIn <==> authentic && user !in old(server.active) && old(server.free) > 0
      ensures r == AuthenticationFailed <==> !authentic
      ensures r == AlreadyLoggedIn <==> authentic && user in old(server.active)
      ensures r == AtCapacity <==> authentic && user !in old(server.active) && old(server.free) <= 0
      ensures r == LoggedIn ==>
                && holdsSession && loggedIn && userId == user && server.free == old(server.free) - 1
                && server.active == old(server.active) + {user}
                && server.subscribers == old(server.subscribers) + {user}
      ensures r != LoggedIn ==> Value() == old(Value())
    {
      if !authentic { return AuthenticationFailed; }
      if user in server.active { return AlreadyLoggedIn; }
      var ok := server.TryAcquire();
      if !ok { return AtCapacity; }
      holdsSession := true;
      userId, loggedIn := user, true;
      server.active := server.active + {user};
      server.subscribers := server.subscribers + {user};
      r := LoggedIn;
    }

    method ReleaseSession()
      modifies this, server
      ensures Value() == ReleaseAlone(old(Value()))
      ensures !loggedIn && !holdsSession
      ensures server.free == old(server.free) + if old(holdsSession) then 1 else 0
      ensures server.active == old(server.active) - if old(loggedIn) then {old(userId)} else {}
      ensures server.subscribers == old(server.subscribers) - if old(loggedIn) then {old(userId)} else {}
    {
      if loggedIn {
        server.subscribers := server.subscribers - {userId};
        server.active := server.active - {userId};
        loggedIn := false;
      }
      if holdsSession {
        server.free := server.free + 1;
        holdsSession := false;
      }
    }
  }

  lemma Extend(states: seq<Server>, steps: seq<Step>, x: Step) returns (states': seq<Server>, steps': seq<Step>)
    requires IsRun(states, steps) && Enabled(states[|steps|], x)
    ensures IsRun(states', steps') && |steps'| == |steps| + 1
    ensures states'[|steps'|] == Next(states[|steps|], x)
  {
    states', steps' := states + [Next(states[|steps|], x)], steps + [x];
    Longer(StepTo, states, steps, x, Next(states[|steps|], x));
  }

  /** Any run goes on with an undisturbed login of an idle handler, and does what the object's method does. */
  lemma LoginContinues(states: seq<Server>, steps: seq<Step>, c: Cid, user: Engineer, authentic: bool)
    returns (states': seq<Server>, steps': seq<Step>)
    requires IsRun(states, steps)
    requires var s := states[|steps|]; c in s.handlers && s.handlers[c].pc.Idle?
    ensures IsRun(states', steps')
    ensures var s, s' := states[|steps|], states'[|steps'|];
            && s'.handlers.Keys == s.handlers.Keys
            && s'.handlers[c].pc.Idle? && s'.handlers[c].closing == s.handlers[c].closing
            && (ViewOf(s', c), s'.handlers[c].answer)
               == (LoginAlone(ViewOf(s, c), user, authentic).0, Some(LoginAlone(ViewOf(s, c), user, authentic).1))
  {
    states', steps' := Extend(states, steps, Login(c, user, authentic));
    if authentic {
      states', steps' := Extend(states', steps', Check(c));
      if user !in states[|steps|].active {
        states', steps' := Extend(states', steps', Acquire(c));
        if states[|steps|].free > 0 {
          states', steps' := Extend(states', steps', Register(c));
          states', steps' := Extend(states', steps', Subscribe(c));
        }
      }
    }
  }

  /** Any run goes on with a logout (`closing` false) or a cleanup of an idle handler. */
  lemma ReleaseContinues(states: seq<Server>, steps: seq<Step>, c: Cid, closing: bool)
    returns (states': seq<Server>, steps': seq<Step>)
    requires IsRun(states, steps)
    requires var s := states[|steps|]; c in s.handlers && s.handlers[c].pc.Idle? && !s.handlers[c].closing
    ensures IsRun(states', steps')
    ensures var s, s' := states[|steps|], states'[|steps'|];
            && s'.handlers.Keys == s.handlers.Keys && s'.handlers[c].pc == (if closing then Ended else Idle)
            && ViewOf(s', c) == ReleaseAlone(ViewOf(s, c))
  {
    states', steps' := Extend(states, steps, if closing then Raise(c) else Logout(c));
    states', steps' := Extend(states', steps', Unsubscribe(c));
    if states[|steps|].handlers[c].loggedIn {
      states', steps' := Extend(states', steps', Unregister(c));
    }
    states', steps' := Extend(states', steps', Free(c));
  }

  /** A second LOGIN really does lose a slot: one connection logs in as two engineers and leaves, and the
      pool is one short, with the first engineer still listed and nobody connected. */
  lemma SecondLoginLeaks(a: Engineer, b: Engineer) returns (states: seq<Server>, steps: seq<Step>)
    requires a != b
    ensures IsRun(states, steps)
    ensures AllEnded(states[|steps|]) && states[|steps|].free == MAX_SESSIONS - 1 && a in states[|steps|].active
  {
    var s0 := Server(MAX_SESSIONS, {}, {}, map[0 := NewHandler()], map[]);
    states, steps := [s0], [];
    states, steps := LoginContinues(states, steps, 0, a, true);
    states, steps := LoginContinues(states, steps, 0, b, true);
    states, steps := ReleaseContinues(states, steps, 0, true);
  }
}
