// The counting reducer the engine is exercised with.

module Counter {
  import opened Replay

  datatype CountAction = Increment | Decrement

  /** One step up on an increment, one step down on a decrement. */
  function CountReducer(count: int, action: CountAction): (r: int)
    ensures action == Increment ==> r == count + 1
    ensures action == Decrement ==> r == count - 1
  {
    match action
    case Increment => count + 1
    case Decrement => count - 1
  }

  /** How many increments `actions` holds beyond its decrements. */
  function Net(actions: seq<CountAction>): int {
    (multiset(actions)[Increment] as int) - multiset(actions)[Decrement]
  }

  /** Replaying counter actions moves the count by their net number of increments,
      whatever their order. */
  lemma {:induction false} CountFold(count: int, actions: seq<CountAction>)
    ensures Fold(CountReducer, count, actions) == count + Net(actions)
    decreases |actions|
  {
    if actions != [] {
      CountFold(CountReducer(count, actions[0]), actions[1..]);
      assert actions == [actions[0]] + actions[1..];
      assert multiset(actions) == multiset([actions[0]]) + multiset(actions[1..]);
    }
  }

  /** `n` increments in a row. */
  function Increments(n: nat): (s: seq<CountAction>)
    ensures |s| == n && forall i :: 0 <= i < n ==> s[i] == Increment
  {
    seq(n, _ => Increment)
  }

  /** `n` increments add `n` to the count. */
  lemma {:induction false} IncrementsNet(n: nat)
    ensures Net(Increments(n)) == n
  {
    if n > 0 {
      IncrementsNet(n - 1);
      assert Increments(n) == Increments(n - 1) + [Increment];
      assert multiset(Increments(n)) == multiset(Increments(n - 1)) + multiset{Increment};
    }
  }
}
