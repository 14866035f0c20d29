/** Why a call of `request` (connection.py) returned what it did: the exact cause of each answer, over whole runs. */
module CallAnswers {
  import opened Correlation
  import opened Options
  import opened Runs
  import Messages

  // ---- what happens to one call ------------------------------------------------------------------------------

  /** The send of call `k` raises. */
  ghost function SendFails(k: CallId): (State, Step) -> bool { (s: State, x: Step) => x.Send? && x.k == k && !x.ok }

  /** The wait of call `k` times out while its event is not set. */
  ghost function Expires(k: CallId): (State, Step) -> bool {
    (s: State, x: Step) => x == Expire(k) && k in s.calls && !s.calls[k].isSet
  }

  /** A reconnect finds the slot of call `k` in the table. */
  ghost function LosesSlot(k: CallId): (State, Step) -> bool { (s: State, x: Step) => x.Disconnect? && IsPending(s, k) }

  /** The listener puts the reply `body` into the slot of call `k`. */
  ghost function Fills(k: CallId, body: Body): (State, Step) -> bool {
    (s: State, x: Step) => x.Store? && s.listener == Matched(k, body)
  }

  predicate FailedToSend(s: State, k: CallId) {
    k in s.calls && (s.calls[k].pc.SendFailed? || s.calls[k].pc == Done(Unavailable))
  }

  predicate HasRunOut(s: State, k: CallId) {
    k in s.calls && (s.calls[k].pc.Expired? || s.calls[k].pc == Done(TimedOut))
  }

  ghost function HasFailedToSend(k: CallId): State -> bool { (s: State) => FailedToSend(s, k) }

  ghost function HasExpired(k: CallId): State -> bool { (s: State) => HasRunOut(s, k) }

  ghost function HasLost(k: CallId): State -> bool {
    (s: State) => k in s.calls && s.calls[k].response == Some(ConnectionLost)
  }

  ghost function HasReply(k: CallId, body: Body): State -> bool {
    (s: State) => k in s.calls && s.calls[k].response == Some(Replied(body))
  }

  /** Only its own caller moves a call on. */
  lemma OthersLeavePc(s: State, x: Step, s': State, k: CallId)
    requires StepTo(s, x, s') && !CallerStep(x)
    ensures k in s.calls ==> k in s'.calls && s'.calls[k].pc == s.calls[k].pc
    ensures k in s'.calls && k !in s.calls ==> s'.calls[k].pc.Begun?
  {}

  lemma CallersLeavePc(s: State, x: Step, s': State, k: CallId)
    requires StepTo(s, x, s') && CallerStep(x) && x.k != k
    ensures k in s.calls <==> k in s'.calls
    ensures k in s.calls ==> s'.calls[k] == s.calls[k]
  {}

  lemma OwnMove(s: State, x: Step, s': State)
    requires StepTo(s, x, s') && CallerStep(x)
    ensures FailedToSend(s', x.k) <==> FailedToSend(s, x.k) || (x.Send? && !x.ok)
    ensures HasRunOut(s', x.k) <==> HasRunOut(s, x.k) || (x.Expire? && !s.calls[x.k].isSet)
  {}

  lemma MoveStep(s: State, x: Step, s': State, k: CallId)
    requires StepTo(s, x, s')
    ensures FailedToSend(s', k) <==> FailedToSend(s, k) || (x.Send? && x.k == k && !x.ok)
    ensures HasRunOut(s', k) <==> HasRunOut(s, k) || (x == Expire(k) && !s.calls[k].isSet)
  {
    if !CallerStep(x) {
      OthersLeavePc(s, x, s', k);
    } else if x.k != k {
      CallersLeavePc(s, x, s', k);
    } else {
      OwnMove(s, x, s');
    }
  }

  /** Only the listener writes into a slot. */
  lemma SlotWritten(s: State, x: Step, s': State, k: CallId)
    requires StepTo(s, x, s') && k in s'.calls
    ensures k !in s.calls ==> s'.calls[k].response.None?
    ensures x.Store? && s.listener.k == k && k in s.calls ==> s'.calls[k].response == Some(Replied(s.listener.body))
    ensures x.Disconnect? && IsPending(s, k) ==> s'.calls[k].response == Some(ConnectionLost)
    ensures k in s.calls && !(x.Store? && s.listener.k == k) && !(x.Disconnect? && IsPending(s, k)) ==>
              s'.calls[k].response == s.calls[k].response
  {}

  lemma FillStep(s: State, x: Step, s': State, k: CallId, body: Body)
    requires Inv(s) && StepTo(s, x, s')
    ensures HasLost(k)(s') <==> HasLost(k)(s) || LosesSlot(k)(s, x)
    ensures HasReply(k, body)(s') <==> HasReply(k, body)(s) || Fills(k, body)(s, x)
  {
    CallsStay(s, x, s', k);
    if k in s'.calls { SlotWritten(s, x, s', k); }
    SlotsEmpty(s, x, k);
  }

  lemma CallsStay(s: State, x: Step, s': State, k: CallId)
    requires StepTo(s, x, s')
    ensures k in s.calls ==> k in s'.calls && s'.calls[k].msg == s.calls[k].msg
  {
    if CallerStep(x) { CallerIds(s, x, s'); } else { OtherIds(s, x, s'); }
  }

  /** A slot is empty before it is written. */
  lemma SlotsEmpty(s: State, x: Step, k: CallId)
    requires Inv(s) && Enabled(s, x)
    ensures x.Store? && s.listener.k == k ==> k in s.calls && s.calls[k].response.None?
    ensures x.Disconnect? && IsPending(s, k) ==> s.calls[k].response.None?
  {
    if IsPending(s, k) { assert PendingFits(s, s.calls[k].msg.id); }
  }

  lemma SendHistory(states: seq<State>, steps: seq<Step>, i: nat, k: CallId)
    requires IsRun(states, steps) && i < |states|
    ensures HasFailedToSend(k)(states[i]) <==> Ever(states, steps, SendFails(k), i)
    ensures HasExpired(k)(states[i]) <==> Ever(states, steps, Expires(k), i)
  {
    var inv := (s: State) => true;
    forall s, x, s' | StepTo(s, x, s')
      ensures HasFailedToSend(k)(s') <==> HasFailedToSend(k)(s) || SendFails(k)(s, x)
      ensures HasExpired(k)(s') <==> HasExpired(k)(s) || Expires(k)(s, x)
    {
      MoveStep(s, x, s', k);
    }
    EverIff(StepTo, states, steps, inv, HasFailedToSend(k), SendFails(k), i);
    EverIff(StepTo, states, steps, inv, HasExpired(k), Expires(k), i);
  }

  lemma FillHistory(states: seq<State>, steps: seq<Step>, i: nat, k: CallId, body: Body)
    requires IsRun(states, steps) && i < |states|
    ensures HasLost(k)(states[i]) <==> Ever(states, steps, LosesSlot(k), i)
    ensures HasReply(k, body)(states[i]) <==> Ever(states, steps, Fills(k, body), i)
  {
    var inv := (s: State) => Inv(s);
    forall j | 0 <= j < |states| ensures inv(states[j]) { InvAlways(states, steps, j); }
    forall s, x, s' | inv(s) && StepTo(s, x, s')
      ensures HasLost(k)(s') <==> HasLost(k)(s) || LosesSlot(k)(s, x)
      ensures HasReply(k, body)(s') <==> HasReply(k, body)(s) || Fills(k, body)(s, x)
    {
      FillStep(s, x, s', k, body);
    }
    EverIff(StepTo, states, steps, inv, HasLost(k), LosesSlot(k), i);
    EverIff(StepTo, states, steps, inv, HasReply(k, body), Fills(k, body), i);
  }

  /** Exactly why a call returned what it did: unavailable if and only if its send failed; timed out if and only if its
      wait expired; and otherwise the reply that the listener put into its slot, or lost, if and only if a reconnect
      found the slot in the table. */
  lemma {:induction false} AnswerIff(states: seq<State>, steps: seq<Step>, i: nat, k: CallId, body: Body)
    requires IsRun(states, steps) && i < |states| && k in states[i].calls && states[i].calls[k].pc.Done?
    ensures var a := states[i].calls[k].pc.answer;
            var unsent, expired := Ever(states, steps, SendFails(k), i), Ever(states, steps, Expires(k), i);
            && (a == Unavailable <==> unsent)
            && (a == TimedOut <==> expired)
            && (a == Lost <==> !unsent && !expired && Ever(states, steps, LosesSlot(k), i))
            && (a == Answered(body) <==> !unsent && !expired && Ever(states, steps, Fills(k, body), i))
  {
    SendHistory(states, steps, i, k);
    FillHistory(states, steps, i, k, body);
    InvAlways(states, steps, i);
    DoneFits(states[i], k, body);
  }

  lemma DoneFits(s: State, k: CallId, body: Body)
    requires Inv(s) && k in s.calls && s.calls[k].pc.Done?
    ensures var a := s.calls[k].pc.answer;
            && (a == Lost ==> HasLost(k)(s)) && (a == Answered(body) ==> HasReply(k, body)(s))
            && !(HasLost(k)(s) && HasReply(k, body)(s))
            && (a.Answered? ==> s.calls[k].response == Some(Replied(a.body)))
  {
    assert SlotFits(s, k);
  }

  /** A reconnect leaves nobody of the old connection waiting: once it has begun, the event of every caller that has
      sent its request is set, so every such caller returns without its timeout. */
  lemma {:induction false} ReconnectWakesAll(states: seq<State>, steps: seq<Step>, i: nat, k: CallId)
    requires IsRun(states, steps) && i < |steps| && steps[i].Disconnect?
    requires k in states[i + 1].calls && states[i + 1].calls[k].pc.Sent?
    ensures states[i + 1].calls[k].isSet && states[i + 1].pending == map[]
  {
    assert StepTo(states[i], steps[i], states[i + 1]);
    if !states[i + 1].calls[k].isSet { NobodyForgotten(states, steps, i + 1, k); }
  }

  // ---- what is written -----------------------------------------------------------------------------------------

  /** The send of call `k` succeeds, or raises after the whole request has gone out. */
  ghost function Delivers(k: CallId): (State, Step) -> bool {
    (s: State, x: Step) => x.Send? && x.k == k && (x.ok || x.delivered)
  }

  ghost predicate OnSomeWire(s: State, m: Request) {
    exists c, j :: Wrote(s, c, j, m)
  }

  ghost function HasWritten(k: CallId): State -> bool {
    (s: State) => k in s.calls && OnSomeWire(s, s.calls[k].msg)
  }

  lemma WireKept(s: State, x: Step, s': State, m: Request)
    requires StepTo(s, x, s') && OnSomeWire(s, m)
    ensures OnSomeWire(s', m)
  {
    var c, j :| Wrote(s, c, j, m);
    WireStep(s, x, s', c);
    assert Wrote(s', c, j, m);
  }

  lemma SendWrites(s: State, x: Step, s': State)
    requires StepTo(s, x, s') && x.Send? && (x.ok || x.delivered)
    ensures OnSomeWire(s', s.calls[x.k].msg)
  {
    assert Wrote(s', s.conn, |Chan(s, s.conn).up|, s.calls[x.k].msg);
  }

  /** A request that is new on the wires is that of the call that sends. */
  lemma WrittenByOwn(s: State, x: Step, s': State, k: CallId)
    requires Inv(s) && StepTo(s, x, s') && k in s.calls
    requires OnSomeWire(s', s.calls[k].msg) && !OnSomeWire(s, s.calls[k].msg)
    ensures Delivers(k)(s, x)
  {
    var m := s.calls[k].msg;
    var c, j :| Wrote(s', c, j, m);
    WroteBefore(s, x, s', c, j, m);
    assert !Wrote(s, c, j, m);
  }

  lemma Unowned(s: State, m: Request)
    requires IdInv(s) && !OwnedBy(s, m)
    ensures !OnSomeWire(s, m)
  {}

  /** The request of a new call is on no wire yet. */
  lemma NewIsUnwritten(s: State, x: Step, s': State, k: CallId)
    requires Inv(s) && StepTo(s, x, s') && k in s'.calls && k !in s.calls
    ensures !OnSomeWire(s', s'.calls[k].msg)
  {
    var m := s'.calls[k].msg;
    if CallerStep(x) { CallerIds(s, x, s'); } else { OtherIds(s, x, s'); }
    Unowned(s, m);
    forall c, j ensures !Wrote(s', c, j, m) {
      if Wrote(s', c, j, m) { WroteBefore(s, x, s', c, j, m); }
    }
  }

  lemma WrittenStep(s: State, x: Step, s': State, k: CallId)
    requires Inv(s) && StepTo(s, x, s')
    ensures HasWritten(k)(s') <==> HasWritten(k)(s) || Delivers(k)(s, x)
  {
    CallsStay(s, x, s', k);
    if k in s.calls {
      OldWritten(s, x, s', k);
    } else if k in s'.calls {
      NewIsUnwritten(s, x, s', k);
    }
  }

  lemma OldWritten(s: State, x: Step, s': State, k: CallId)
    requires Inv(s) && StepTo(s, x, s') && k in s.calls
    ensures var m := s.calls[k].msg; OnSomeWire(s', m) <==> OnSomeWire(s, m) || Delivers(k)(s, x)
  {
    if OnSomeWire(s, s.calls[k].msg) { WireKept(s, x, s', s.calls[k].msg); }
    else if Delivers(k)(s, x) { SendWrites(s, x, s'); }
    else if OnSomeWire(s', s.calls[k].msg) { WrittenByOwn(s, x, s', k); }
  }

  /** The request of a call is on a wire if and only if its send has succeeded, or has raised after it had gone out. */
  lemma {:induction false} WrittenIff(states: seq<State>, steps: seq<Step>, i: nat, k: CallId)
    requires IsRun(states, steps) && i < |states| && k in states[i].calls
    ensures OnSomeWire(states[i], states[i].calls[k].msg) <==> Ever(states, steps, Delivers(k), i)
  {
    var inv := (s: State) => Inv(s);
    forall j | 0 <= j < |states| ensures inv(states[j]) { InvAlways(states, steps, j); }
    forall s, x, s' | inv(s) && StepTo(s, x, s')
      ensures HasWritten(k)(s') <==> HasWritten(k)(s) || Delivers(k)(s, x)
    {
      WrittenStep(s, x, s', k);
    }
    EverIff(StepTo, states, steps, inv, HasWritten(k), Delivers(k), i);
  }

  /** A heartbeat that has gone out is a PING under a fresh id on the connection in use. */
  lemma {:induction false} HeartbeatWritten(states: seq<State>, steps: seq<Step>, i: nat)
    requires IsRun(states, steps) && i < |steps| && steps[i] == SendHeartbeat(true)
    ensures states[i].heartbeat.Some?
    ensures var m := Request(states[i].heartbeat.value, Messages.PING);
            Wrote(states[i + 1], states[i].conn, |Chan(states[i], states[i].conn).up|, m) && !OnSomeWire(states[i], m)
  {
    var s, x, s' := states[i], steps[i], states[i + 1];
    assert StepTo(s, x, s');
    WireStep(s, x, s', s.conn);
    InvAlways(states, steps, i);
    var m := Request(s.heartbeat.value, Messages.PING);
    Unowned(s, m);
  }

  // ---- what is read ------------------------------------------------------------------------------------------

  /** What step `x` reads on connection `c`. */
  function ReadBy(s: State, x: Step, c: Conn): seq<ToClient> {
    if x.Receive? && Enabled(s, x) && s.conn == c then [Chan(s, c).down[Chan(s, c).read]] else []
  }

  function ReadOn(states: seq<State>, steps: seq<Step>, i: nat, c: Conn): seq<ToClient>
    requires i <= |steps| && i <= |states|
  {
    if i == 0 then [] else ReadOn(states, steps, i - 1, c) + ReadBy(states[i - 1], steps[i - 1], c)
  }

  lemma ReadStep(s: State, x: Step, s': State, c: Conn)
    requires ChannelFits(Chan(s, c)) && StepTo(s, x, s')
    ensures var ch, ch' := Chan(s, c), Chan(s', c);
            ch'.read <= |ch'.down| && ch'.down[..ch'.read] == ch.down[..ch.read] + ReadBy(s, x, c)
  {
    ReadMoves(s, x, s', c);
    var ch, ch' := Chan(s, c), Chan(s', c);
    assert ch'.down[..ch.read] == ch.down[..ch.read];
  }

  lemma ReadMoves(s: State, x: Step, s': State, c: Conn)
    requires StepTo(s, x, s')
    ensures Chan(s, c).down <= Chan(s', c).down
    ensures Chan(s', c).read == Chan(s, c).read + if x.Receive? && s.conn == c then 1 else 0
  {}

  /** On every connection the listener has read the first messages that the server wrote there, each once, in order. */
  lemma {:induction false} ReadInOrder(states: seq<State>, steps: seq<Step>, i: nat, c: Conn)
    requires IsRun(states, steps) && i < |states|
    ensures var ch := Chan(states[i], c); ch.read <= |ch.down| && ReadOn(states, steps, i, c) == ch.down[..ch.read]
  {
    if i > 0 {
      ReadInOrder(states, steps, i - 1, c);
      InvAlways(states, steps, i - 1);
      assert StepTo(states[i - 1], steps[i - 1], states[i]);
      ReadStep(states[i - 1], steps[i - 1], states[i], c);
    }
  }

  // ---- heartbeats --------------------------------------------------------------------------------------------

  ghost predicate CalledFor(s: State, m: Request) {
    exists k :: k in s.calls && s.calls[k].msg == m
  }

  /** Every request on a wire is that of a call, or a heartbeat, which asks for nothing but PING. */
  ghost predicate WiresExplained(s: State) {
    forall c, j, m | Wrote(s, c, j, m) :: CalledFor(s, m) || m.body == Messages.PING
  }

  lemma CallsKept(s: State, x: Step, s': State, m: Request)
    requires StepTo(s, x, s') && CalledFor(s, m)
    ensures CalledFor(s', m)
  {
    var k :| k in s.calls && s.calls[k].msg == m;
    if CallerStep(x) { CallerIds(s, x, s'); } else { OtherIds(s, x, s'); }
    assert k in s'.calls && s'.calls[k].msg == m;
  }

  lemma NewlyWritten(s: State, x: Step, s': State)
    requires StepTo(s, x, s') && Writes(s, x)
    ensures CalledFor(s', Written(s, x)) || Written(s, x).body == Messages.PING
  {
    if x.Send? { assert s'.calls[x.k].msg == Written(s, x); }
  }

  lemma ExplainedStep(s: State, x: Step, s': State)
    requires WiresExplained(s) && StepTo(s, x, s')
    ensures WiresExplained(s')
  {
    forall c, j, m | Wrote(s', c, j, m) ensures CalledFor(s', m) || m.body == Messages.PING {
      WroteBefore(s, x, s', c, j, m);
      if Wrote(s, c, j, m) {
        if CalledFor(s, m) { CallsKept(s, x, s', m); }
      } else {
        NewlyWritten(s, x, s');
      }
    }
  }

  lemma {:induction false} ExplainedAlways(states: seq<State>, steps: seq<Step>, i: nat)
    requires IsRun(states, steps) && i < |states|
    ensures WiresExplained(states[i])
  {
    var P := (s: State) => WiresExplained(s);
    forall s, x, s' | P(s) && StepTo(s, x, s') ensures P(s') { ExplainedStep(s, x, s'); }
    Always(StepTo, states, steps, P, i);
  }
}
