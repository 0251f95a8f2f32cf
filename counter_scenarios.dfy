// The counter scenarios that pin down the engine's behaviour, each driving a fresh
// engine and returning what it observed.

module CounterScenarios {
  import opened Replay
  import opened HistoryLog
  import opened Rewindable
  import opened Counter

  /** What a scenario reads back after each step: the state and the past actions. */
  datatype Observation = Observation(state: int, pastActions: seq<CountAction>)

  method Observe(e: Engine<int, CountAction>) returns (o: Observation)
    ensures o == Observation(e.state, e.pastActions)
  {
    o := Observation(e.state, e.pastActions);
  }

  /** A new counting engine starting at 0, without persistence. */
  method NewCounter(limit: Option<nat>) returns (e: Engine<int, CountAction>)
    ensures fresh(e) && e.Valid()
    ensures e.reducer == CountReducer && e.initial == 0 && e.historyLimit == limit && e.persist == None
    ensures e.Snapshot() == Started(0)
  {
    e := new Engine(CountReducer, 0, limit, None);
    RehydratedNothing<int, CountAction>(CountReducer, limit, 0);
  }

  /** One dispatch, then one undo back to the start. */
  method CanUndoAfterOne() returns (seen: seq<Observation>)
    ensures seen == [Observation(0, []), Observation(1, [Increment]), Observation(0, [])]
  {
    assert Dispatch(CountReducer, None, Started<int, CountAction>(0), Increment) == Log(1, [Increment], [0], [], []);
    var e := NewCounter(None);
    var o0 := Observe(e);
    e.Dispatch(Increment);
    var o1 := Observe(e);
    e.Undo();
    var o2 := Observe(e);
    seen := [o0, o1, o2];
  }

  /** Ten dispatches under a history limit of 5: the state counts all ten, the
      past keeps five. */
  method HistoryLimitsPastActions() returns (start: Observation, state: int, pastActionCount: nat, pastStateCount: nat)
    ensures start == Observation(0, [])
    ensures state == 10 && pastActionCount == 5 && pastStateCount == 5
  {
    var e := NewCounter(Some(5));
    start := Observe(e);
    var i := 0;
    while i < 10
      invariant 0 <= i <= 10
      invariant e.Valid()
      invariant e.state == i
      invariant |e.pastActions| == if i < 5 then i else 5
    {
      e.Dispatch(Increment);
      i := i + 1;
    }
    state, pastActionCount, pastStateCount := e.state, |e.pastActions|, |e.pastStates|;
  }

  /** Evicting from a past made only of increments leaves only increments. */
  lemma TrimIncrements(m: nat, limit: Option<nat>)
    ensures TrimFront(Increments(m) + [Increment], limit) == Increments(|TrimFront(Increments(m) + [Increment], limit)|)
  {
    TrimFrontIsSuffix(Increments(m) + [Increment], limit);
  }

  /** Undoing the last of a past made only of increments steps the count back
      by one and leaves only increments. */
  lemma UndoIncrement(limit: Option<nat>, h: Log<int, CountAction>)
    requires Inv(CountReducer, limit, h) && |h.pastActions| > 0
    requires h.pastActions == Increments(|h.pastActions|)
    ensures
      var u := Undo(limit, h);
      u.state == h.state - 1 && u.pastActions == Increments(|h.pastActions| - 1)
  {
    var n := |h.pastActions|;
    LinkedAt(CountReducer, h.pastStates + [h.state], h.pastActions, n - 1);
    assert Increments(n)[..n - 1] == Increments(n - 1);
  }

  /** Where `j` undos take a counter that reached 10 under a history limit of 5:
      each undo steps back one increment until the five retained ones are used up. */
  ghost predicate UndoneSoFar(h: Log<int, CountAction>, j: nat) {
    var undone := if j < 5 then j else 5;
    && h.state == 10 - undone
    && h.pastActions == Increments(5 - undone)
    && |h.futureActions| == undone
  }

  /** One more undo moves from `j` undos to `j + 1`. */
  lemma UndoOneMore(h: Log<int, CountAction>, j: nat)
    requires Inv(CountReducer, Some(5), h) && UndoneSoFar(h, j)
    ensures UndoneSoFar(Undo(Some(5), h), j + 1)
  {
    if |h.pastActions| > 0 {
      UndoIncrement(Some(5), h);
    }
  }

  /** Ten dispatches and eight undos under a history limit of 5: only five undos
      have an effect, and the future keeps five entries. */
  method HistoryLimitsFutureActions() returns (start: Observation, state: int, pastActionCount: nat, futureActionCount: nat, futureStateCount: nat)
    ensures start == Observation(0, [])
    ensures state == 5 && pastActionCount == 0 && futureActionCount == 5 && futureStateCount == 5
  {
    var e := NewCounter(Some(5));
    start := Observe(e);
    var i := 0;
    while i < 10
      invariant 0 <= i <= 10
      invariant e.Valid() && e.futureActions == []
      invariant e.state == i
      invariant e.pastActions == Increments(if i < 5 then i else 5)
    {
      TrimIncrements(|e.pastActions|, Some(5));
      e.Dispatch(Increment);
      i := i + 1;
    }
    var j := 0;
    while j < 8
      invariant 0 <= j <= 8
      invariant e.Valid() && e.historyLimit == Some(5) && e.reducer == CountReducer
      invariant UndoneSoFar(e.Snapshot(), j)
    {
      UndoOneMore(e.Snapshot(), j);
      e.Undo();
      j := j + 1;
    }
    state, pastActionCount := e.state, |e.pastActions|;
    futureActionCount, futureStateCount := |e.futureActions|, |e.futureStates|;
  }

  /** The logs three increments pass through. */
  lemma CountToThreeLogs()
    ensures Dispatch(CountReducer, None, Started<int, CountAction>(0), Increment) == Log(1, [Increment], [0], [], [])
    ensures Dispatch(CountReducer, None, Log(1, [Increment], [0], [], []), Increment)
         == Log(2, [Increment, Increment], [0, 1], [], [])
    ensures Dispatch(CountReducer, None, Log(2, [Increment, Increment], [0, 1], [], []), Increment)
         == Log(3, [Increment, Increment, Increment], [0, 1, 2], [], [])
  {
  }

  /** The logs three undos pass through after three increments. */
  lemma UndoThreeLogs()
    ensures Undo(None, Log(3, [Increment, Increment, Increment], [0, 1, 2], [], []))
         == Log(2, [Increment, Increment], [0, 1], [Increment], [3])
    ensures Undo(None, Log(2, [Increment, Increment], [0, 1], [Increment], [3]))
         == Log(1, [Increment], [0], [Increment, Increment], [2, 3])
    ensures Undo(None, Log(1, [Increment], [0], [Increment, Increment], [2, 3]))
         == Log(0, [], [], [Increment, Increment, Increment], [1, 2, 3])
  {
  }

  /** The logs three redos pass through after those undos. */
  lemma RedoThreeLogs()
    ensures Redo(None, Log(0, [], [], [Increment, Increment, Increment], [1, 2, 3]))
         == Log(1, [Increment], [0], [Increment, Increment], [2, 3])
    ensures Redo(None, Log(1, [Increment], [0], [Increment, Increment], [2, 3]))
         == Log(2, [Increment, Increment], [0, 1], [Increment], [3])
    ensures Redo(None, Log(2, [Increment, Increment], [0, 1], [Increment], [3]))
         == Log(3, [Increment, Increment, Increment], [0, 1, 2], [], [])
  {
    assert [Increment, Increment, Increment][1..] == [Increment, Increment];
    assert [Increment, Increment][1..] == [Increment];
    assert [1, 2, 3][1..] == [2, 3] && [2, 3][1..] == [3];
  }

  /** Three dispatches, three undos, three redos, then a reset. */
  method UndoThreeRedoThreeThenReset() returns (seen: seq<Observation>)
    ensures seen == [
      Observation(0, []),
      Observation(3, [Increment, Increment, Increment]),
      Observation(2, [Increment, Increment]),
      Observation(1, [Increment]),
      Observation(0, []),
      Observation(1, [Increment]),
      Observation(2, [Increment, Increment]),
      Observation(3, [Increment, Increment, Increment]),
      Observation(0, [])]
  {
    CountToThreeLogs();
    UndoThreeLogs();
    RedoThreeLogs();
    var e := NewCounter(None);
    var o0 := Observe(e);
    e.Dispatch(Increment);
    e.Dispatch(Increment);
    e.Dispatch(Increment);
    var o1 := Observe(e);
    e.Undo();
    var o2 := Observe(e);
    e.Undo();
    var o3 := Observe(e);
    e.Undo();
    var o4 := Observe(e);
    e.Redo();
    var o5 := Observe(e);
    e.Redo();
    var o6 := Observe(e);
    e.Redo();
    var o7 := Observe(e);
    e.Reset();
    var o8 := Observe(e);
    seen := [o0, o1, o2, o3, o4, o5, o6, o7, o8];
  }

  /** Undo on a fresh engine changes nothing. */
  method UndoAtStart() returns (before: Log<int, CountAction>, after: Log<int, CountAction>)
    ensures before == after == Started(0)
  {
    var e := NewCounter(None);
    before := e.Snapshot();
    e.Undo();
    after := e.Snapshot();
  }

  /** Redo on a fresh engine changes nothing. */
  method RedoAtStart() returns (before: Log<int, CountAction>, after: Log<int, CountAction>)
    ensures before == after == Started(0)
  {
    var e := NewCounter(None);
    before := e.Snapshot();
    e.Redo();
    after := e.Snapshot();
  }

  /** Reset on a fresh engine changes nothing. */
  method ResetAtStart() returns (before: Log<int, CountAction>, after: Log<int, CountAction>)
    ensures before == after == Started(0)
  {
    var e := NewCounter(None);
    before := e.Snapshot();
    e.Reset();
    after := e.Snapshot();
  }

  /** The logs of a dispatch, an undo, another dispatch and a redo. */
  lemma RedoAfterUndoAndDispatchLogs()
    ensures Dispatch(CountReducer, None, Started<int, CountAction>(0), Increment) == Log(1, [Increment], [0], [], [])
    ensures Undo(None, Log(1, [Increment], [0], [], [])) == Log(0, [], [], [Increment], [1])
    ensures Dispatch(CountReducer, None, Log(0, [], [], [Increment], [1]), Decrement)
         == Log(-1, [Decrement], [0], [], [])
    ensures Redo(None, Log(-1, [Decrement], [0], [], [])) == Log(-1, [Decrement], [0], [], [])
  {
  }

  /** A dispatch after an undo drops the undone action, so the redo that follows
      has nothing to replay. */
  method RedoAfterUndoAndDispatch() returns (seen: seq<Observation>)
    ensures seen == [
      Observation(0, []),
      Observation(1, [Increment]),
      Observation(0, []),
      Observation(-1, [Decrement]),
      Observation(-1, [Decrement])]
  {
    RedoAfterUndoAndDispatchLogs();
    var e := NewCounter(None);
    var o0 := Observe(e);
    e.Dispatch(Increment);
    var o1 := Observe(e);
    e.Undo();
    var o2 := Observe(e);
    e.Dispatch(Decrement);
    var o3 := Observe(e);
    e.Redo();
    var o4 := Observe(e);
    seen := [o0, o1, o2, o3, o4];
  }

  /** A second engine with the same key resumes where the first one left off. */
  method Resume() returns (seen: seq<Observation>)
    ensures seen == [Observation(0, []), Observation(1, [Increment]), Observation(1, [Increment])]
  {
    assert Dispatch(CountReducer, None, Started<int, CountAction>(0), Increment) == Log(1, [Increment], [0], [], []);
    assert Rehydrated(CountReducer, None, 0, [Increment]) == Log(1, [Increment], [0], [], []);
    var store := new Store<CountAction>();
    var binding := Some(Persistence("test", store));
    var first := new Engine(CountReducer, 0, None, binding);
    RehydratedNothing<int, CountAction>(CountReducer, None, 0);
    var o0 := Observe(first);
    first.Dispatch(Increment);
    var o1 := Observe(first);
    var second := new Engine(CountReducer, 0, None, binding);
    var o2 := Observe(second);
    seen := [o0, o1, o2];
  }

  /** The logs two increments and an undo pass through. */
  lemma ResumeAfterUndoLogs()
    ensures Dispatch(CountReducer, None, Started<int, CountAction>(0), Increment) == Log(1, [Increment], [0], [], [])
    ensures Dispatch(CountReducer, None, Log(1, [Increment], [0], [], []), Increment)
         == Log(2, [Increment, Increment], [0, 1], [], [])
    ensures Undo(None, Log(2, [Increment, Increment], [0, 1], [], []))
         == Log(1, [Increment], [0], [Increment], [2])
  {
  }

  /** Resuming after an undo: the second engine starts from the state and past
      the first one was left with, not from the future it could still redo. */
  method ResumeAfterUndo() returns (left: Observation, resumed: Observation)
    ensures left == resumed == Observation(1, [Increment])
  {
    ResumeAfterUndoLogs();
    var store := new Store<CountAction>();
    var binding := Some(Persistence("test", store));
    var first := new Engine(CountReducer, 0, None, binding);
    RehydratedNothing<int, CountAction>(CountReducer, None, 0);
    first.Dispatch(Increment);
    first.Dispatch(Increment);
    first.Undo();
    left := Observe(first);
    ReplayFromInitial(CountReducer, None, 0, first.Snapshot());
    var second := new Engine(CountReducer, 0, None, binding);
    resumed := Observe(second);
  }

  /** The logs the example page passes through. */
  lemma QuickstartLogs()
    ensures Dispatch(CountReducer, None, Started<int, CountAction>(0), Increment) == Log(1, [Increment], [0], [], [])
    ensures Dispatch(CountReducer, None, Log(1, [Increment], [0], [], []), Decrement)
         == Log(0, [Increment, Decrement], [0, 1], [], [])
    ensures Undo(None, Log(0, [Increment, Decrement], [0, 1], [], []))
         == Log(1, [Increment], [0], [Decrement], [0])
    ensures Redo(None, Log(1, [Increment], [0], [Decrement], [0]))
         == Log(0, [Increment, Decrement], [0, 1], [], [])
    ensures Undo(None, Log(1, [Increment], [0], [Decrement], [0]))
         == Log(0, [], [], [Increment, Decrement], [1, 0])
  {
  }

  /** What the counter example page shows: the count and the number of past
      states, after increment, decrement, undo, redo, undo, undo. */
  method Quickstart() returns (shown: seq<(int, nat)>)
    ensures shown == [(0, 0), (1, 1), (0, 2), (1, 1), (0, 2), (1, 1), (0, 0)]
  {
    QuickstartLogs();
    var e := NewCounter(None);
    var s0 := (e.state, |e.pastStates|);
    e.Dispatch(Increment);
    var s1 := (e.state, |e.pastStates|);
    e.Dispatch(Decrement);
    var s2 := (e.state, |e.pastStates|);
    e.Undo();
    var s3 := (e.state, |e.pastStates|);
    e.Redo();
    var s4 := (e.state, |e.pastStates|);
    e.Undo();
    var s5 := (e.state, |e.pastStates|);
    e.Undo();
    var s6 := (e.state, |e.pastStates|);
    shown := [s0, s1, s2, s3, s4, s5, s6];
  }

  /** Replaying n increments from 0 reaches n, whatever the limit, and keeps
      only increments in the past. */
  lemma RehydratedIncrements(n: nat, limit: Option<nat>)
    ensures
      var h := Rehydrated(CountReducer, limit, 0, Increments(n));
      && h.state == n
      && h.pastActions == Increments(|h.pastActions|)
  {
    RehydratedShape(CountReducer, limit, 0, Increments(n));
    CountFold(0, Increments(n));
    IncrementsNet(n);
  }

  /** Resuming does not restore the state once the history limit has evicted
      actions: ten increments under a limit of 5 reach 10, but the five saved
      actions replay from 0 to 5. */
  lemma ResumeAfterEviction()
    ensures
      var h := DispatchAll(CountReducer, Some(5), Started<int, CountAction>(0), Increments(10));
      && h.state == 10
      && h.pastActions == Increments(5)
      && Rehydrated(CountReducer, Some(5), 0, h.pastActions).state == 5
  {
    DispatchAllFromStart(CountReducer, Some(5), 0, Increments(10));
    RehydratedIncrements(10, Some(5));
    RehydratedIncrements(5, Some(5));
  }
}
