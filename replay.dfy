// Replaying a transition function over a sequence of actions.

module Replay {

  /** The state reached by applying `actions`, oldest first, starting from `s`. */
  function Fold<S, A>(reducer: (S, A) -> S, s: S, actions: seq<A>): S
    decreases |actions|
  {
    if actions == [] then s else Fold(reducer, reducer(s, actions[0]), actions[1..])
  }

  /** Every state visited while replaying: `s`, then the state after each action. */
  function Walk<S, A>(reducer: (S, A) -> S, s: S, actions: seq<A>): (w: seq<S>)
    ensures |w| == |actions| + 1 && w[0] == s
    decreases |actions|
  {
    if actions == [] then [s] else [s] + Walk(reducer, reducer(s, actions[0]), actions[1..])
  }

  /** Each state of `states` after the first is what the reducer makes of the
      state before it and the action between them. */
  ghost predicate Linked<S, A>(reducer: (S, A) -> S, states: seq<S>, actions: seq<A>)
    decreases |actions|
  {
    && |states| == |actions| + 1
    && (|actions| == 0 ||
        (states[1] == reducer(states[0], actions[0]) && Linked(reducer, states[1..], actions[1..])))
  }

  /** Appending one action to a replay applies the reducer once more. */
  lemma {:induction false} FoldAppend<S, A>(reducer: (S, A) -> S, s: S, actions: seq<A>, a: A)
    ensures Fold(reducer, s, actions + [a]) == reducer(Fold(reducer, s, actions), a)
    decreases |actions|
  {
    if actions == [] {
      assert [] + [a] == [a];
    } else {
      assert (actions + [a])[1..] == actions[1..] + [a];
      FoldAppend(reducer, reducer(s, actions[0]), actions[1..], a);
    }
  }

  /** Appending one action to a walk adds exactly the state that action produces. */
  lemma {:induction false} WalkAppend<S, A>(reducer: (S, A) -> S, s: S, actions: seq<A>, a: A)
    ensures Walk(reducer, s, actions + [a]) == Walk(reducer, s, actions) + [reducer(Fold(reducer, s, actions), a)]
    decreases |actions|
  {
    if actions == [] {
      assert [] + [a] == [a];
    } else {
      assert (actions + [a])[1..] == actions[1..] + [a];
      WalkAppend(reducer, reducer(s, actions[0]), actions[1..], a);
    }
  }

  /** A sequence of states is linked by `actions` exactly when it is the walk
      of those actions from its first state. */
  lemma {:induction false} LinkedIsWalk<S, A>(reducer: (S, A) -> S, states: seq<S>, actions: seq<A>)
    requires |states| > 0
    ensures Linked(reducer, states, actions) <==> states == Walk(reducer, states[0], actions)
    decreases |actions|
  {
    if actions != [] && |states| > 1 {
      LinkedIsWalk(reducer, states[1..], actions[1..]);
      assert states == [states[0]] + states[1..];
    }
  }

  /** Each step of a linked sequence applies the reducer. */
  lemma {:induction false} LinkedAt<S, A>(reducer: (S, A) -> S, states: seq<S>, actions: seq<A>, i: nat)
    requires Linked(reducer, states, actions) && i < |actions|
    ensures states[i + 1] == reducer(states[i], actions[i])
    decreases i
  {
    if i > 0 {
      LinkedAt(reducer, states[1..], actions[1..], i - 1);
    }
  }

  /** The last state of a linked sequence is the replay of its actions over its first state. */
  lemma {:induction false} LinkedEndsInFold<S, A>(reducer: (S, A) -> S, states: seq<S>, actions: seq<A>)
    requires Linked(reducer, states, actions)
    ensures states[|actions|] == Fold(reducer, states[0], actions)
    decreases |actions|
  {
    if actions != [] {
      LinkedEndsInFold(reducer, states[1..], actions[1..]);
    }
  }

  /** A walk is linked by its actions. */
  lemma WalkIsLinked<S, A>(reducer: (S, A) -> S, s: S, actions: seq<A>)
    ensures Linked(reducer, Walk(reducer, s, actions), actions)
  {
    LinkedIsWalk(reducer, Walk(reducer, s, actions), actions);
  }

  /** Extending a linked sequence by one action and the state it produces. */
  lemma {:induction false} LinkedSnoc<S, A>(reducer: (S, A) -> S, states: seq<S>, actions: seq<A>, a: A)
    requires Linked(reducer, states, actions)
    ensures Linked(reducer, states + [reducer(states[|actions|], a)], actions + [a])
    decreases |actions|
  {
    var x := reducer(states[|actions|], a);
    if actions == [] {
      assert Linked(reducer, [x], []);
      assert (states + [x])[1..] == [x];
      assert (actions + [a])[1..] == [];
    } else {
      LinkedSnoc(reducer, states[1..], actions[1..], a);
      assert (states + [x])[1..] == states[1..] + [x];
      assert (actions + [a])[1..] == actions[1..] + [a];
    }
  }

  /** Putting a state and an action in front of a linked sequence that starts
      with what they produce. */
  lemma LinkedCons<S, A>(reducer: (S, A) -> S, s: S, a: A, states: seq<S>, actions: seq<A>)
    requires Linked(reducer, states, actions) && states[0] == reducer(s, a)
    ensures Linked(reducer, [s] + states, [a] + actions)
  {
    assert ([s] + states)[1..] == states;
    assert ([a] + actions)[1..] == actions;
  }

  /** Dropping the first `k` steps of a linked sequence. */
  lemma {:induction false} LinkedSuffix<S, A>(reducer: (S, A) -> S, states: seq<S>, actions: seq<A>, k: nat)
    requires Linked(reducer, states, actions) && k <= |actions|
    ensures Linked(reducer, states[k..], actions[k..])
    decreases k
  {
    if k > 0 {
      LinkedSuffix(reducer, states[1..], actions[1..], k - 1);
      assert states[1..][k - 1..] == states[k..];
      assert actions[1..][k - 1..] == actions[k..];
    }
  }

  /** Keeping only the first `k` steps of a linked sequence. */
  lemma {:induction false} LinkedPrefix<S, A>(reducer: (S, A) -> S, states: seq<S>, actions: seq<A>, k: nat)
    requires Linked(reducer, states, actions) && k <= |actions|
    ensures Linked(reducer, states[..k + 1], actions[..k])
    decreases k
  {
    if k > 0 {
      LinkedPrefix(reducer, states[1..], actions[1..], k - 1);
      assert states[..k + 1][1..] == states[1..][..k];
      assert actions[..k][1..] == actions[1..][..k - 1];
    }
  }
}
