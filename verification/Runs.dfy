/** Runs of a labelled transition system, and the induction over them. */
module Runs {

  /** `labels` lead through `states`, one step each. */
  ghost predicate Follows<S(!new), L(!new)>(step: (S, L, S) -> bool, states: seq<S>, labels: seq<L>) {
    && |states| == |labels| + 1
    && forall i {:trigger labels[i]} | 0 <= i < |labels| :: step(states[i], labels[i], states[i + 1])
  }

  /** What holds at first and is kept by every step holds throughout. */
  lemma {:induction false} Always<S(!new), L(!new)>(
    step: (S, L, S) -> bool, states: seq<S>, labels: seq<L>, P: S -> bool, i: nat)
    requires Follows(step, states, labels) && i < |states| && P(states[0])
    requires forall s, l, s' :: P(s) && step(s, l, s') ==> P(s')
    ensures P(states[i])
  {
    if i > 0 {
      Always(step, states, labels, P, i - 1);
      assert step(states[i - 1], labels[i - 1], states[i]);
    }
  }

  /** Some step before state `i` was such an act. */
  ghost predicate Ever<S(!new), L(!new)>(states: seq<S>, labels: seq<L>, act: (S, L) -> bool, i: nat)
    requires i <= |labels| && i <= |states|
  {
    exists j {:trigger labels[j]} :: 0 <= j < i && act(states[j], labels[j])
  }

  /** What only such acts bring about, and nothing undoes, holds if and only if there has been such an act. */
  lemma {:induction false} EverIff<S(!new), L(!new)>(step: (S, L, S) -> bool, states: seq<S>, labels: seq<L>,
      inv: S -> bool, P: S -> bool, act: (S, L) -> bool, i: nat)
    requires Follows(step, states, labels) && i < |states| && !P(states[0])
    requires forall k | 0 <= k < |states| :: inv(states[k])
    requires forall s, l, s' :: inv(s) && step(s, l, s') ==> (P(s') <==> P(s) || act(s, l))
    ensures P(states[i]) <==> Ever(states, labels, act, i)
  {
    if i > 0 {
      EverIff(step, states, labels, inv, P, act, i - 1);
      assert step(states[i - 1], labels[i - 1], states[i]);
      EverLonger(states, labels, act, i - 1);
    }
  }

  lemma EverLonger<S(!new), L(!new)>(states: seq<S>, labels: seq<L>, act: (S, L) -> bool, i: nat)
    requires i < |labels| && i < |states|
    ensures Ever(states, labels, act, i + 1) <==> Ever(states, labels, act, i) || act(states[i], labels[i])
  {
    if Ever(states, labels, act, i) {
      var j {:trigger labels[j]} :| 0 <= j < i && act(states[j], labels[j]);
      assert 0 <= j < i + 1;
    }
  }

  /** Between states `j` and `i` some step undid a property and none has restored it since. */
  ghost predicate Undone<S(!new), L(!new)>(states: seq<S>, labels: seq<L>, undo: (S, L) -> bool,
      redo: (S, L) -> bool, j: nat, i: nat)
    requires i <= |labels| && i <= |states|
  {
    exists k :: j <= k < i && UndoneAt(states, labels, undo, redo, k, i)
  }

  ghost predicate UndoneAt<S(!new), L(!new)>(states: seq<S>, labels: seq<L>, undo: (S, L) -> bool,
      redo: (S, L) -> bool, k: nat, i: nat)
    requires k < i <= |labels| && i <= |states|
  {
    undo(states[k], labels[k]) && forall m {:trigger labels[m]} | k < m < i :: !redo(states[m], labels[m])
  }

  /** A property that only `undo` steps end and `redo` steps restore holds if and only if it is not undone. */
  lemma {:induction false} HoldsUnlessUndone<S(!new), L(!new)>(step: (S, L, S) -> bool, states: seq<S>, labels: seq<L>,
      P: S -> bool, undo: (S, L) -> bool, redo: (S, L) -> bool, j: nat, i: nat)
    requires Follows(step, states, labels) && j <= i < |states| && P(states[j])
    requires forall s, l :: !(undo(s, l) && redo(s, l))
    requires forall s, l, s' :: step(s, l, s') ==> (P(s') <==> redo(s, l) || (P(s) && !undo(s, l)))
    ensures P(states[i]) <==> !Undone(states, labels, undo, redo, j, i)
    decreases i
  {
    if j < i {
      HoldsUnlessUndone(step, states, labels, P, undo, redo, j, i - 1);
      assert step(states[i - 1], labels[i - 1], states[i]);
      UndoneLonger(states, labels, undo, redo, j, i - 1);
    }
  }

  lemma UndoneLonger<S(!new), L(!new)>(states: seq<S>, labels: seq<L>, undo: (S, L) -> bool, redo: (S, L) -> bool,
      j: nat, i: nat)
    requires j <= i < |labels| && i < |states| && !(undo(states[i], labels[i]) && redo(states[i], labels[i]))
    ensures Undone(states, labels, undo, redo, j, i + 1)
            <==> undo(states[i], labels[i])
                 || (Undone(states, labels, undo, redo, j, i) && !redo(states[i], labels[i]))
  {
    if undo(states[i], labels[i]) {
      assert UndoneAt(states, labels, undo, redo, i, i + 1);
    } else if Undone(states, labels, undo, redo, j, i) && !redo(states[i], labels[i]) {
      var k :| j <= k < i && UndoneAt(states, labels, undo, redo, k, i);
      assert UndoneAt(states, labels, undo, redo, k, i + 1);
    } else if Undone(states, labels, undo, redo, j, i + 1) {
      var k :| j <= k < i + 1 && UndoneAt(states, labels, undo, redo, k, i + 1);
      UndoneBefore(states, labels, undo, redo, k, i);
    }
  }

  lemma UndoneBefore<S(!new), L(!new)>(states: seq<S>, labels: seq<L>, undo: (S, L) -> bool, redo: (S, L) -> bool,
      k: nat, i: nat)
    requires k <= i < |labels| && i < |states| && UndoneAt(states, labels, undo, redo, k, i + 1)
    ensures if k == i then undo(states[i], labels[i])
            else UndoneAt(states, labels, undo, redo, k, i) && !redo(states[i], labels[i])
  {}

  /** A run goes on with any step from its last state. */
  lemma Longer<S(!new), L(!new)>(step: (S, L, S) -> bool, states: seq<S>, labels: seq<L>, l: L, s: S)
    requires Follows(step, states, labels) && step(states[|labels|], l, s)
    ensures Follows(step, states + [s], labels + [l])
  {
    var states', labels' := states + [s], labels + [l];
    forall i {:trigger labels'[i]} | 0 <= i < |labels'| ensures step(states'[i], labels'[i], states'[i + 1]) {
      if i < |labels| { assert labels'[i] == labels[i] && step(states[i], labels[i], states[i + 1]); }
    }
  }

  /** What holds from each state to itself and to the next, and composes, holds from every state to every later one. */
  lemma {:induction false} Onwards<S(!new), L(!new)>(step: (S, L, S) -> bool, states: seq<S>, labels: seq<L>,
      inv: S -> bool, R: (S, S) -> bool, i: nat, j: nat)
    requires Follows(step, states, labels) && i <= j < |states| && forall k | 0 <= k < |states| :: inv(states[k])
    requires forall s :: R(s, s)
    requires forall s, l, s' :: inv(s) && step(s, l, s') ==> R(s, s')
    requires forall s, s', s'' :: R(s, s') && R(s', s'') ==> R(s, s'')
    ensures R(states[i], states[j])
    decreases j
  {
    if i < j {
      Onwards(step, states, labels, inv, R, i, j - 1);
      assert step(states[j - 1], labels[j - 1], states[j]);
    }
  }
}
