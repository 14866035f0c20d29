/** The client's connection object (connection.py): the id counter, the pending table and its slots. What the
    listener thread does while a caller waits is handed to `Request` as a list of acts. */
module Connections {
  import opened Correlation
  import opened Options

  class PendingRequest {
    var isSet: bool
    var response: Option<Filling>

    constructor ()
      ensures !isSet && response.None?
    {
      isSet, response := false, None;
    }
  }

  datatype Act = Incoming(m: ToClient) | Reconnect

  /** The first act that concerns the waiting caller decides what it gets. */
  function Resolve(id: Id, acts: seq<Act>): Answer {
    if acts == [] then TimedOut
    else if acts[0] == Reconnect then Lost
    else if acts[0].m.Response? && acts[0].m.id == id then Answered(acts[0].m.body)
    else Resolve(id, acts[1..])
  }

  ghost predicate Earlier(id: Id, acts: seq<Act>, i: nat)
    requires i <= |acts|
  {
    forall j | 0 <= j < i :: acts[j].Incoming? && !(acts[j].m.Response? && acts[j].m.id == id)
  }

  /** `request` gives exactly the first reply under its own id, if no reconnect comes before it. */
  lemma {:induction false} ResolveMeaning(id: Id, acts: seq<Act>, body: Body)
    ensures Resolve(id, acts) == Answered(body) <==>
              exists i: nat :: i < |acts| && Earlier(id, acts, i) && acts[i] == Incoming(Response(id, body))
    ensures Resolve(id, acts) == Lost <==> exists i: nat :: i < |acts| && Earlier(id, acts, i) && acts[i] == Reconnect
    ensures Resolve(id, acts) == TimedOut <==> Earlier(id, acts, |acts|)
    ensures Resolve(id, acts) != Unavailable
  {
    if acts != [] {
      var first, rest := acts[0], acts[1..];
      if first == Reconnect || (first.m.Response? && first.m.id == id) {
        assert Earlier(id, acts, 0);
        forall i: nat | 0 < i <= |acts| ensures !Earlier(id, acts, i) {
          assert first == acts[0];
        }
      } else {
        ResolveMeaning(id, rest, body);
        forall i: nat | i <= |rest| ensures Earlier(id, rest, i) <==> Earlier(id, acts, i + 1) {
          if Earlier(id, acts, i + 1) {
            forall j | 0 <= j < i
              ensures rest[j].Incoming? && !(rest[j].m.Response? && rest[j].m.id == id)
            {
              assert rest[j] == acts[j + 1];
            }
          }
        }
        forall i: nat | i < |rest| ensures rest[i] == acts[i + 1] {}
        if exists i: nat :: i < |rest| && Earlier(id, rest, i) && rest[i] == Incoming(Response(id, body)) {
          var i: nat :| i < |rest| && Earlier(id, rest, i) && rest[i] == Incoming(Response(id, body));
          assert Earlier(id, acts, i + 1) && acts[i + 1] == Incoming(Response(id, body));
        }
        if exists i: nat :: i < |rest| && Earlier(id, rest, i) && rest[i] == Reconnect {
          var i: nat :| i < |rest| && Earlier(id, rest, i) && rest[i] == Reconnect;
          assert Earlier(id, acts, i + 1) && acts[i + 1] == Reconnect;
        }
        forall i: nat | i < |acts| && Earlier(id, acts, i)
                        && (acts[i] == Reconnect || acts[i] == Incoming(Response(id, body)))
          ensures i > 0 && Earlier(id, rest, i - 1) && rest[i - 1] == acts[i]
        {
          assert acts[i] != first;
        }
      }
    }
  }

  lemma ResolveFirst(id: Id, acts: seq<Act>)
    requires acts != []
    ensures Resolve(id, acts)
            == if Resolve(id, [acts[0]]).TimedOut? then Resolve(id, acts[1..]) else Resolve(id, [acts[0]])
  {}

  class ServerConnection {
    var nextId: Id
    var pending: map<Id, PendingRequest>

    /** Every slot in the table is its own, unfilled, and under an id already drawn. */
    ghost predicate Valid()
      reads this, pending.Values
    {
      && (forall id | id in pending :: id < nextId && !pending[id].isSet)
      && (forall id, id' | id in pending && id' in pending && pending[id] == pending[id'] :: id == id')
    }

    constructor ()
      ensures Valid() && nextId == 1 && pending == map[]
    {
      nextId, pending := 1, map[];
    }

    /** A response fills the slot under its id, takes it out of the table, and touches no other slot. */
    method HandleIncoming(m: ToClient)
      requires Valid()
      modifies this`pending, pending.Values
      ensures Valid()
      ensures if m.Response? && m.id in old(pending)
              then var p := old(pending)[m.id];
                   pending == old(pending) - {m.id} && p.isSet && p.response == Some(Replied(m.body))
              else pending == old(pending)
      ensures forall p | p in old(pending.Values)
                         && !(m.Response? && m.id in old(pending) && p == old(pending)[m.id]) ::
                p.isSet == old(p.isSet) && p.response == old(p.response)
    {
      if m.Response? && m.id in pending {
        var slot := pending[m.id];
        pending := pending - {m.id};
        slot.response := Some(Replied(m.body));
        slot.isSet := true;
      }
    }

    /** On a lost connection every slot in the table is failed, and the table is emptied. */
    method FailPending()
      requires Valid()
      modifies this`pending, pending.Values
      ensures Valid() && pending == map[]
      ensures forall p | p in old(pending.Values) :: p.isSet && p.response == Some(ConnectionLost)
    {
      var slots := pending.Values;
      ghost var failed: set<PendingRequest> := {};
      while slots != {}
        invariant slots + failed == old(pending.Values) && pending == old(pending)
        invariant forall p | p in failed :: p.isSet && p.response == Some(ConnectionLost)
        decreases |slots|
      {
        var slot :| slot in slots;
        slot.response := Some(ConnectionLost);
        slot.isSet := true;
        slots, failed := slots - {slot}, failed + {slot};
      }
      pending := map[];
    }

    /** One act of the listener, as the caller waiting under any registered id sees it: its slot is filled
        with what the act resolves it to, or it stays registered and empty. */
    method Listen(a: Act)
      requires Valid()
      modifies this`pending, pending.Values
      ensures Valid() && pending.Keys <= old(pending.Keys) && pending.Values <= old(pending.Values)
      ensures forall id | id in old(pending) :: SlotAfter(id, old(pending)[id], a)
    {
      match a {
        case Incoming(m) => HandleIncoming(m);
        case Reconnect => FailPending();
      }
      forall id | id in old(pending) ensures SlotAfter(id, old(pending)[id], a) {
        assert old(pending)[id] in old(pending.Values);
        if a.Incoming? && a.m.Response? && a.m.id in old(pending) && a.m.id != id {
          assert old(pending)[id] != old(pending)[a.m.id];
        }
      }
    }

    ghost predicate SlotAfter(id: Id, slot: PendingRequest, a: Act)
      reads this, slot
    {
      var r := Resolve(id, [a]);
      if r.TimedOut? then id in pending && pending[id] == slot && !slot.isSet
      else id !in pending && slot.isSet && slot.response.Some? && AnswerIn(slot.response.value) == r
    }

    /** Wait on the event of a registered slot, and withdraw it if nothing fills it. */
    method Await(id: Id, slot: PendingRequest, acts: seq<Act>) returns (answer: Answer)
      requires Valid() && id in pending && pending[id] == slot
      modifies this`pending, pending.Values
      ensures Valid() && id !in pending && pending.Keys <= old(pending.Keys)
      ensures answer == Resolve(id, acts)
    {
      var i := 0;
      while i < |acts| && !slot.isSet
        invariant 0 <= i <= |acts| && Valid()
        invariant pending.Keys <= old(pending.Keys) && pending.Values <= old(pending.Values)
        invariant if slot.isSet then id !in pending && slot.response.Some?
            && AnswerIn(slot.response.value) == Resolve(id, acts)
                  else id in pending && pending[id] == slot && Resolve(id, acts) == Resolve(id, acts[i..])
      {
        ResolveFirst(id, acts[i..]);
        Listen(acts[i]);
        i := i + 1;
      }
      if slot.isSet {
        answer := AnswerIn(slot.response.value);
      } else {
        pending := pending - {id};
        answer := TimedOut;
      }
    }

    /** A whole request: draw an id, register a slot, send, and wait while the listener acts. The slot never
        stays in the table. */
    method Request(sendOk: bool, acts: seq<Act>) returns (id: Id, answer: Answer)
      requires Valid()
      modifies this, pending.Values
      ensures Valid() && id == old(nextId) && nextId == id + 1
      ensures id !in pending && pending.Keys <= old(pending.Keys)
      ensures answer == if sendOk then Resolve(id, acts) else Unavailable
    {
      id := nextId;
      nextId := nextId + 1;
      var slot := new PendingRequest();
      pending := pending[id := slot];
      if !sendOk {
        pending := pending - {id};
        return id, Unavailable;
      }
      answer := Await(id, slot, acts);
    }
  }

  function AnswerIn(f: Filling): Answer {
    match f
    case Replied(body) => Answered(body)
    case ConnectionLost => Lost
  }
}
