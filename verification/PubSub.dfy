/** The publish-subscribe broker (pubsub.py): a registry of callbacks keyed by subscriber, and a fan-out
    that delivers outside the lock, so that other threads may change the registry between deliveries. */
module PubSub {
  import opened Options

  type Id = string
  type Callback = nat

  /** The registry, in the insertion order of the dictionary. */
  type Registry = seq<(Id, Callback)>

  datatype Change = Subscribe(id: Id, deliver: Callback) | Unsubscribe(id: Id)

  ghost predicate Unique(r: Registry) {
    forall i, j | 0 <= i < j < |r| :: r[i].0 != r[j].0
  }

  predicate Registered(r: Registry, id: Id) {
    exists i :: 0 <= i < |r| && r[i].0 == id
  }

  /** Assigning a key keeps its place in the dictionary, or appends it. */
  function Put(r: Registry, id: Id, d: Callback): Registry {
    if r == [] then [(id, d)]
    else if r[0].0 == id then [(id, d)] + r[1..]
    else [r[0]] + Put(r[1..], id, d)
  }

  function Drop(r: Registry, id: Id): Registry {
    if r == [] then []
    else if r[0].0 == id then r[1..]
    else [r[0]] + Drop(r[1..], id)
  }

  function After(r: Registry, c: Change): Registry {
    match c
    case Subscribe(id, d) => Put(r, id, d)
    case Unsubscribe(id) => Drop(r, id)
  }

  function AfterAll(r: Registry, cs: seq<Change>): Registry {
    if cs == [] then r else After(AfterAll(r, cs[..|cs| - 1]), cs[|cs| - 1])
  }

  /** What happens to the registry while the first `n` targets are served: the other threads' changes around
      each delivery, and the removal of a target whose callback raised. */
  function Trace(targets: Registry, others: nat -> seq<Change>, raises: nat -> bool, n: nat): seq<Change>
    requires n <= |targets|
  {
    if n == 0 then []
    else Trace(targets, others, raises, n - 1) + others(n - 1)
         + (if raises(n - 1) then [Unsubscribe(targets[n - 1].0)] else [])
  }

  function Good(raises: nat -> bool, n: nat): set<nat> {
    set i: nat | i < n && !raises(i)
  }

  lemma {:induction false} AfterConcat(r: Registry, a: seq<Change>, b: seq<Change>)
    ensures AfterAll(r, a + b) == AfterAll(AfterAll(r, a), b)
  {
    if b == [] {
      assert a + b == a;
    } else {
      assert (a + b)[..|a + b| - 1] == a + b[..|b| - 1];
      AfterConcat(r, a, b[..|b| - 1]);
    }
  }

  lemma AfterOne(r: Registry, c: Change)
    ensures AfterAll(r, [c]) == After(r, c)
  {
    assert [c][..0] == [];
  }

  lemma TraceStep(r: Registry, targets: Registry, others: nat -> seq<Change>, raises: nat -> bool, n: nat)
    requires n < |targets|
    ensures var now := AfterAll(AfterAll(r, Trace(targets, others, raises, n)), others(n));
            AfterAll(r, Trace(targets, others, raises, n + 1)) == if raises(n) then Drop(now, targets[n].0) else now
  {
    var before := Trace(targets, others, raises, n);
    AfterConcat(r, before, others(n));
    if raises(n) {
      AfterConcat(r, before + others(n), [Unsubscribe(targets[n].0)]);
      AfterOne(AfterAll(r, before + others(n)), Unsubscribe(targets[n].0));
    } else {
      assert before + others(n) + [] == before + others(n);
    }
  }

  lemma GoodGrows(raises: nat -> bool, n: nat)
    ensures |Good(raises, n + 1)| == |Good(raises, n)| + if raises(n) then 0 else 1
  {
    assert Good(raises, n + 1) == Good(raises, n) + if raises(n) then {} else {n};
  }

  class PubSubBroker {
    var subscribers: Registry

    ghost predicate Valid()
      reads this
    {
      Unique(subscribers)
    }

    constructor ()
      ensures Valid() && subscribers == []
    {
      subscribers := [];
    }

    /** From now on `id` has this callback. Every other id keeps its own, and nobody changes place in the order
        of delivery: a new id comes last. */
    method Subscribe(id: Id, deliver: Callback)
      requires Valid()
      modifies this
      ensures Valid()
      ensures forall x :: CallbackOf(subscribers, x)
                          == if x == id then Some(deliver) else CallbackOf(old(subscribers), x)
      ensures Ids(subscribers) == Ids(old(subscribers)) + if id in Ids(old(subscribers)) then [] else [id]
    {
      PutMeaningAll(subscribers, id, deliver);
      PutIds(subscribers, id, deliver);
      subscribers := Put(subscribers, id, deliver);
    }

    /** From now on `id` has no callback, whether it had one or not. Every other id keeps its own and its place. */
    method Unsubscribe(id: Id)
      requires Valid()
      modifies this
      ensures Valid()
      ensures forall x :: CallbackOf(subscribers, x) == if x == id then None else CallbackOf(old(subscribers), x)
      ensures Ids(subscribers) == Without(Ids(old(subscribers)), id)
    {
      DropMeaningAll(subscribers, id);
      DropIds(subscribers, id);
      subscribers := Drop(subscribers, id);
    }

    /** One change, by whatever thread. */
    method Apply(c: Change)
      requires Valid()
      modifies this
      ensures Valid() && subscribers == After(old(subscribers), c)
    {
      match c {
        case Subscribe(id, d) =>
          Subscribe(id, d);
          SubscribeDetermined(old(subscribers), id, d, subscribers);
        case Unsubscribe(id) =>
          Unsubscribe(id);
          UnsubscribeDetermined(old(subscribers), id, subscribers);
      }
    }

    /** Other threads subscribe and unsubscribe. */
    method Others(cs: seq<Change>)
      requires Valid()
      modifies this
      ensures Valid() && subscribers == AfterAll(old(subscribers), cs)
    {
      for i := 0 to |cs|
        invariant Valid() && subscribers == AfterAll(old(subscribers), cs[..i])
      {
        Apply(cs[i]);
        assert cs[..i + 1][..i] == cs[..i];
      }
      assert cs[..|cs|] == cs;
    }

    /** `raises(i)` says whether the callback of target `i` raises; `others(i)` is what the other threads do
        to the registry around that delivery. Every callback of the snapshot is called once, in order; one that
        raises stops nobody else, and costs whatever registration its id has by then. */
    method Publish(others: nat -> seq<Change>, raises: nat -> bool) returns (delivered: nat, calls: Registry)
      requires Valid()
      modifies this
      ensures Valid()
      ensures calls == old(subscribers)
      ensures delivered == |Good(raises, |calls|)|
      ensures subscribers == AfterAll(old(subscribers), Trace(calls, others, raises, |calls|))
    {
      var targets := subscribers;
      delivered, calls := 0, [];
      for i := 0 to |targets|
        invariant Valid() && calls == targets[..i]
        invariant delivered == |Good(raises, i)|
        invariant subscribers == AfterAll(old(subscribers), Trace(targets, others, raises, i))
      {
        Others(others(i));
        calls := calls + [targets[i]];
        GoodGrows(raises, i);
        TraceStep(old(subscribers), targets, others, raises, i);
        if raises(i) {
          Apply(Change.Unsubscribe(targets[i].0));
        } else {
          delivered := delivered + 1;
        }
      }
      assert targets[..|targets|] == targets;
    }
  }

  // ---- who is registered, and with which callback ----------------------------------------------------------

  /** The callback under an id. */
  function CallbackOf(r: Registry, x: Id): Option<Callback> {
    if r == [] then None
    else if r[0].0 == x then Some(r[0].1)
    else CallbackOf(r[1..], x)
  }

  /** The ids in the order of delivery. */
  function Ids(r: Registry): seq<Id> {
    if r == [] then [] else [r[0].0] + Ids(r[1..])
  }

  function Without(ids: seq<Id>, id: Id): seq<Id> {
    if ids == [] then []
    else (if ids[0] == id then [] else [ids[0]]) + Without(ids[1..], id)
  }

  lemma {:induction false} RegisteredHasCallback(r: Registry, x: Id)
    ensures Registered(r, x) <==> CallbackOf(r, x).Some?
  {
    if r != [] {
      RegisteredHasCallback(r[1..], x);
      RegisteredSplit(r, x);
    }
  }

  lemma RegisteredSplit(r: Registry, x: Id)
    requires r != []
    ensures Registered(r, x) <==> r[0].0 == x || Registered(r[1..], x)
  {
    if Registered(r, x) && r[0].0 != x {
      var i :| 0 <= i < |r| && r[i].0 == x;
      assert r[1..][i - 1].0 == x;
    }
    if Registered(r[1..], x) {
      var i :| 0 <= i < |r[1..]| && r[1..][i].0 == x;
      assert r[i + 1].0 == x;
    }
  }

  lemma UniqueSplit(r: Registry)
    requires r != []
    ensures Unique(r) <==> CallbackOf(r[1..], r[0].0).None? && Unique(r[1..])
  {
    RegisteredHasCallback(r[1..], r[0].0);
    if !Registered(r[1..], r[0].0) && Unique(r[1..]) {
      forall i, j | 0 <= i < j < |r| ensures r[i].0 != r[j].0 {
        assert r[1..][j - 1] == r[j];
        if i > 0 { assert r[1..][i - 1] == r[i]; }
      }
    }
    if Unique(r) {
      forall j | 0 <= j < |r[1..]| ensures r[1..][j].0 != r[0].0 { assert r[1..][j] == r[j + 1]; }
    }
  }

  lemma {:induction false} PutMeaning(r: Registry, id: Id, d: Callback, x: Id)
    ensures CallbackOf(Put(r, id, d), x) == if x == id then Some(d) else CallbackOf(r, x)
    ensures Unique(r) ==> Unique(Put(r, id, d))
  {
    if r == [] {
      assert CallbackOf([(id, d)][1..], x).None?;
    } else {
      PutMeaning(r[1..], id, d, x);
      PutMeaning(r[1..], id, d, r[0].0);
      UniqueSplit(r);
      UniqueSplit(Put(r, id, d));
    }
  }

  lemma {:induction false} DropMeaning(r: Registry, id: Id, x: Id)
    requires Unique(r)
    ensures CallbackOf(Drop(r, id), x) == if x == id then None else CallbackOf(r, x)
    ensures Unique(Drop(r, id))
  {
    if r != [] {
      UniqueSplit(r);
      if r[0].0 != id {
        DropMeaning(r[1..], id, x);
        DropMeaning(r[1..], id, r[0].0);
        UniqueSplit(Drop(r, id));
      }
    }
  }

  lemma {:induction false} IdsCallbacks(r: Registry, x: Id)
    ensures x in Ids(r) <==> CallbackOf(r, x).Some?
  {
    if r != [] { IdsCallbacks(r[1..], x); }
  }

  lemma {:induction false} PutIds(r: Registry, id: Id, d: Callback)
    ensures Ids(Put(r, id, d)) == Ids(r) + if id in Ids(r) then [] else [id]
  {
    if r != [] && r[0].0 != id {
      PutIds(r[1..], id, d);
      assert [r[0].0] + (Ids(r[1..]) + [id]) == [r[0].0] + Ids(r[1..]) + [id];
    }
  }

  lemma {:induction false} WithoutAbsent(ids: seq<Id>, id: Id)
    requires id !in ids
    ensures Without(ids, id) == ids
  {
    if ids != [] { WithoutAbsent(ids[1..], id); }
  }

  lemma {:induction false} DropIds(r: Registry, id: Id)
    requires Unique(r)
    ensures Ids(Drop(r, id)) == Without(Ids(r), id)
  {
    if r != [] {
      UniqueSplit(r);
      assert Ids(r)[1..] == Ids(r[1..]);
      if r[0].0 == id {
        IdsCallbacks(r[1..], id);
        WithoutAbsent(Ids(r[1..]), id);
      } else {
        DropIds(r[1..], id);
      }
    }
  }

  /** The ids in order and their callbacks are all there is to a registry. */
  lemma {:induction false} Determined(a: Registry, b: Registry)
    requires Unique(a) && Unique(b) && Ids(a) == Ids(b)
    requires forall x :: CallbackOf(a, x) == CallbackOf(b, x)
    ensures a == b
  {
    if a != [] && b != [] {
      UniqueSplit(a);
      UniqueSplit(b);
      assert Ids(a)[0] == Ids(b)[0] && Ids(a)[1..] == Ids(a[1..]) && Ids(b)[1..] == Ids(b[1..]);
      assert CallbackOf(a, a[0].0) == CallbackOf(b, a[0].0);
      forall x ensures CallbackOf(a[1..], x) == CallbackOf(b[1..], x) {
        assert CallbackOf(a, x) == CallbackOf(b, x);
      }
      Determined(a[1..], b[1..]);
      assert a == [a[0]] + a[1..] && b == [b[0]] + b[1..];
    }
  }

  lemma PutMeaningAll(r: Registry, id: Id, d: Callback)
    requires Unique(r)
    ensures Unique(Put(r, id, d))
    ensures forall x :: CallbackOf(Put(r, id, d), x) == if x == id then Some(d) else CallbackOf(r, x)
  {
    forall x ensures CallbackOf(Put(r, id, d), x) == if x == id then Some(d) else CallbackOf(r, x) {
      PutMeaning(r, id, d, x);
    }
    PutMeaning(r, id, d, id);
  }

  lemma DropMeaningAll(r: Registry, id: Id)
    requires Unique(r)
    ensures Unique(Drop(r, id))
    ensures forall x :: CallbackOf(Drop(r, id), x) == if x == id then None else CallbackOf(r, x)
  {
    forall x ensures CallbackOf(Drop(r, id), x) == if x == id then None else CallbackOf(r, x) {
      DropMeaning(r, id, x);
    }
    DropMeaning(r, id, id);
  }

  lemma SubscribeDetermined(r: Registry, id: Id, d: Callback, r': Registry)
    requires Unique(r) && Unique(r') && Ids(r') == Ids(r) + if id in Ids(r) then [] else [id]
    requires forall x :: CallbackOf(r', x) == if x == id then Some(d) else CallbackOf(r, x)
    ensures r' == Put(r, id, d)
  {
    PutMeaningAll(r, id, d);
    PutIds(r, id, d);
    Determined(r', Put(r, id, d));
  }

  lemma UnsubscribeDetermined(r: Registry, id: Id, r': Registry)
    requires Unique(r) && Unique(r') && Ids(r') == Without(Ids(r), id)
    requires forall x :: CallbackOf(r', x) == if x == id then None else CallbackOf(r, x)
    ensures r' == Drop(r, id)
  {
    DropMeaningAll(r, id);
    DropIds(r, id);
    Determined(r', Drop(r, id));
  }

  /** The last change that names an id. */
  function LastChange(cs: seq<Change>, x: Id): Option<Change> {
    if cs == [] then None
    else if cs[|cs| - 1].id == x then Some(cs[|cs| - 1])
    else LastChange(cs[..|cs| - 1], x)
  }

  /** What that change says about the callback of the id; without one the callback stays what it was. */
  function LastWord(before: Option<Callback>, cs: seq<Change>, x: Id): Option<Callback> {
    match LastChange(cs, x)
    case None => before
    case Some(Subscribe(_, d)) => Some(d)
    case Some(Unsubscribe(_)) => None
  }

  lemma ChangeMeaning(r: Registry, c: Change, x: Id)
    requires Unique(r)
    ensures CallbackOf(After(r, c), x) == if x != c.id then CallbackOf(r, x)
                                          else if c.Subscribe? then Some(c.deliver) else None
    ensures Unique(After(r, c))
  {
    match c {
      case Subscribe(id, d) => PutMeaning(r, id, d, x);
      case Unsubscribe(id) => DropMeaning(r, id, x);
    }
  }

  /** The last change that names an id decides whether it is registered, and with which callback. */
  lemma {:induction false} RegistryMeaning(r: Registry, cs: seq<Change>, x: Id)
    requires Unique(r)
    ensures CallbackOf(AfterAll(r, cs), x) == LastWord(CallbackOf(r, x), cs, x)
    ensures Unique(AfterAll(r, cs))
  {
    if cs != [] {
      RegistryMeaning(r, cs[..|cs| - 1], x);
      ChangeMeaning(AfterAll(r, cs[..|cs| - 1]), cs[|cs| - 1], x);
    }
  }

  // ---- who leaves during a publish, and why -----------------------------------------------------------------

  /** Change `p` of the trace takes `x` out while target `i` is served: another thread unsubscribes it, or
      the delivery to target `i` has raised and `x` is its id. */
  ghost predicate CausedAt(targets: Registry, others: nat -> seq<Change>, raises: nat -> bool, i: nat, p: int, x: Id)
    requires i < |targets|
  {
    var start := |Trace(targets, others, raises, i)|;
    || (start <= p < start + |others(i)| && others(i)[p - start] == Unsubscribe(x))
    || (p == start + |others(i)| && raises(i) && targets[i].0 == x)
  }

  ghost predicate Caused(targets: Registry, others: nat -> seq<Change>, raises: nat -> bool, n: nat, p: int, x: Id)
    requires n <= |targets|
  {
    exists i: nat :: i < n && CausedAt(targets, others, raises, i, p, x)
  }

  lemma {:induction false} CauseInside(targets: Registry, others: nat -> seq<Change>, raises: nat -> bool, i: nat,
      n: nat, p: int, x: Id)
    requires i < n <= |targets| && CausedAt(targets, others, raises, i, p, x)
    ensures |Trace(targets, others, raises, i)| <= p < |Trace(targets, others, raises, n)|
  {
    if i < n - 1 { CauseInside(targets, others, raises, i, n - 1, p, x); }
  }

  lemma {:induction false} CauseOf(targets: Registry, others: nat -> seq<Change>, raises: nat -> bool, n: nat, p: nat,
      x: Id)
    requires n <= |targets| && p < |Trace(targets, others, raises, n)|
    ensures Trace(targets, others, raises, n)[p] == Unsubscribe(x) <==> Caused(targets, others, raises, n, p, x)
  {
    var start := |Trace(targets, others, raises, n - 1)|;
    if p < start {
      CauseOf(targets, others, raises, n - 1, p, x);
    } else {
      forall i: nat | i < n - 1 ensures !CausedAt(targets, others, raises, i, p, x) {
        if CausedAt(targets, others, raises, i, p, x) { CauseInside(targets, others, raises, i, n - 1, p, x); }
      }
      LastPart(targets, others, raises, n - 1, p, x);
    }
  }

  lemma LastPart(targets: Registry, others: nat -> seq<Change>, raises: nat -> bool, i: nat, p: nat, x: Id)
    requires i < |targets|
    requires |Trace(targets, others, raises, i)| <= p < |Trace(targets, others, raises, i + 1)|
    ensures Trace(targets, others, raises, i + 1)[p] == Unsubscribe(x) <==> CausedAt(targets, others, raises, i, p, x)
  {}

  /** At any moment of a publish a registered id leaves with the next change if and only if that change is an
      explicit unsubscribe of it by another thread or follows a failed delivery to it. */
  lemma {:induction false} LeavesIff(r: Registry, others: nat -> seq<Change>, raises: nat -> bool, p: nat, x: Id)
    requires Unique(r) && p < |Trace(r, others, raises, |r|)|
    requires Registered(AfterAll(r, Trace(r, others, raises, |r|)[..p]), x)
    ensures !Registered(AfterAll(r, Trace(r, others, raises, |r|)[..p + 1]), x)
            <==> Caused(r, others, raises, |r|, p, x)
  {
    var trace := Trace(r, others, raises, |r|);
    var before, after := AfterAll(r, trace[..p]), AfterAll(r, trace[..p + 1]);
    assert trace[..p + 1][..p] == trace[..p];
    RegistryMeaning(r, trace[..p], x);
    ChangeMeaning(before, trace[p], x);
    RegisteredHasCallback(before, x);
    RegisteredHasCallback(after, x);
    CauseOf(r, others, raises, |r|, p, x);
  }

  /** So an id that is registered at one moment of a publish, from the start or not, and no longer at a later
      one has left for one of those two causes in between. */
  lemma {:induction false} LeavesOnlyForCause(r: Registry, others: nat -> seq<Change>, raises: nat -> bool, p: nat,
      q: nat, x: Id)
    requires Unique(r) && p <= q <= |Trace(r, others, raises, |r|)|
    requires Registered(AfterAll(r, Trace(r, others, raises, |r|)[..p]), x)
    requires !Registered(AfterAll(r, Trace(r, others, raises, |r|)[..q]), x)
    ensures exists k :: p <= k < q && Caused(r, others, raises, |r|, k, x)
    decreases q
  {
    if Registered(AfterAll(r, Trace(r, others, raises, |r|)[..q - 1]), x) {
      LeavesIff(r, others, raises, q - 1, x);
    } else {
      LeavesOnlyForCause(r, others, raises, p, q - 1, x);
    }
  }

  // ---- the registration a failed delivery takes away ----------------------------------------------------------

  /** What the other threads do to the registry while the first `n` targets are served. */
  function OthersUpTo(others: nat -> seq<Change>, n: nat): seq<Change> {
    if n == 0 then [] else OthersUpTo(others, n - 1) + others(n - 1)
  }

  lemma {:induction false} LastOfBoth(a: seq<Change>, b: seq<Change>, x: Id)
    ensures LastChange(a + b, x) == if LastChange(b, x).Some? then LastChange(b, x) else LastChange(a, x)
  {
    if b == [] {
      assert a + b == a;
    } else {
      assert (a + b)[..|a + b| - 1] == a + b[..|b| - 1];
      LastOfBoth(a, b[..|b| - 1], x);
    }
  }

  /** Until target `i` is served only the other threads name its id. */
  lemma {:induction false} OnlyOthersName(r: Registry, others: nat -> seq<Change>, raises: nat -> bool, n: nat, x: Id)
    requires n <= |r| && forall i | 0 <= i < n :: r[i].0 != x
    ensures LastChange(Trace(r, others, raises, n), x) == LastChange(OthersUpTo(others, n), x)
  {
    if n > 0 {
      var before := Trace(r, others, raises, n - 1);
      var removal := if raises(n - 1) then [Unsubscribe(r[n - 1].0)] else [];
      OnlyOthersName(r, others, raises, n - 1, x);
      LastOfBoth(before, others(n - 1), x);
      LastOfBoth(before + others(n - 1), removal, x);
      LastOfBoth(OthersUpTo(others, n - 1), others(n - 1), x);
      assert removal == [] || removal[..0] == [];
    }
  }

  lemma {:induction false} CallbackAt(r: Registry, i: nat)
    requires Unique(r) && i < |r|
    ensures CallbackOf(r, r[i].0) == Some(r[i].1)
  {
    if i > 0 {
      UniqueSplit(r);
      assert r[1..][i - 1] == r[i];
      CallbackAt(r[1..], i - 1);
    }
  }

  lemma {:induction false} CallbackListed(r: Registry, x: Id, d: Callback)
    requires CallbackOf(r, x) == Some(d)
    ensures (x, d) in r
  {
    if r[0].0 != x { CallbackListed(r[1..], x, d); }
  }

  lemma {:induction false} ListedIsCallback(r: Registry, x: Id, d: Callback)
    requires Unique(r) && (x, d) in r
    ensures CallbackOf(r, x) == Some(d)
  {
    var i :| 0 <= i < |r| && r[i] == (x, d);
    CallbackAt(r, i);
  }

  /** The registry when the callback of target `i` has raised, just before the broker unsubscribes its id. */
  function BeforeRemoval(r: Registry, others: nat -> seq<Change>, raises: nat -> bool, i: nat): Registry
    requires i < |r|
  {
    AfterAll(r, Trace(r, others, raises, i) + others(i))
  }

  /** Until target `i` is removed, its callback is what the other threads have made of it since the snapshot. */
  lemma {:induction false} BeforeRemovalMeaning(r: Registry, others: nat -> seq<Change>, raises: nat -> bool, i: nat)
    requires Unique(r) && i < |r|
    ensures Unique(BeforeRemoval(r, others, raises, i))
    ensures CallbackOf(BeforeRemoval(r, others, raises, i), r[i].0)
            == LastWord(Some(r[i].1), OthersUpTo(others, i + 1), r[i].0)
  {
    var x, before := r[i].0, Trace(r, others, raises, i);
    CallbackAt(r, i);
    OnlyOthersName(r, others, raises, i, x);
    LastOfBoth(before, others(i), x);
    LastOfBoth(OthersUpTo(others, i), others(i), x);
    RegistryMeaning(r, before + others(i), x);
  }

  /** A failed delivery takes away whatever registration its id has by then. */
  lemma {:induction false} FailureRemoves(r: Registry, others: nat -> seq<Change>, raises: nat -> bool, i: nat)
    requires Unique(r) && i < |r| && raises(i)
    ensures CallbackOf(AfterAll(r, Trace(r, others, raises, i + 1)), r[i].0).None?
  {
    BeforeRemovalMeaning(r, others, raises, i);
    AfterConcat(r, Trace(r, others, raises, i), others(i));
    TraceStep(r, r, others, raises, i);
    DropMeaning(BeforeRemoval(r, others, raises, i), r[i].0, r[i].0);
  }

  /** Exactly when that is a callback newer than the one that failed: if and only if the last change naming that id,
      by any thread since the snapshot, subscribed it with that callback. */
  lemma {:induction false} StaleFailureIff(r: Registry, others: nat -> seq<Change>, raises: nat -> bool, i: nat,
      d: Callback)
    requires Unique(r) && i < |r| && raises(i) && d != r[i].1
    ensures CallbackOf(BeforeRemoval(r, others, raises, i), r[i].0) == Some(d)
            <==> LastChange(OthersUpTo(others, i + 1), r[i].0) == Some(Subscribe(r[i].0, d))
  {
    BeforeRemovalMeaning(r, others, raises, i);
    LastNames(OthersUpTo(others, i + 1), r[i].0);
  }

  lemma {:induction false} LastNames(cs: seq<Change>, x: Id)
    ensures LastChange(cs, x).Some? ==> LastChange(cs, x).value.id == x
  {
    if cs != [] { LastNames(cs[..|cs| - 1], x); }
  }

  /** It does happen: a subscriber that reconnected while its old callback was being served loses the new
      registration, because a failed delivery removes by id, not by callback. */
  lemma StaleFailure(x: Id) returns (others: nat -> seq<Change>, raises: nat -> bool)
    ensures others(0) == [Unsubscribe(x), Subscribe(x, 2)] && raises(0)
    ensures CallbackOf(AfterAll([(x, 1)], Trace([(x, 1)], others, raises, 1)), x).None?
  {
    others := i => [Unsubscribe(x), Subscribe(x, 2)];
    raises := i => true;
    var r: Registry := [(x, 1)];
    RegistryMeaning(r, Trace(r, others, raises, 1), x);
    assert Trace(r, others, raises, 1)[2] == Unsubscribe(x);
  }
}
