// The observable history of a rewindable reducer, as a value, and the effect
// of each operation on it.

module HistoryLog {
  import opened Replay

  datatype Option<T> = None | Some(value: T)

  /** What the engine exposes: the current state, the past log (oldest first,
      `pastStates[i]` is the state `pastActions[i]` was applied to) and the
      future log (`futureActions[0]` is replayed next by a redo, and
      `futureStates[i]` is the state `futureActions[i]` produces). */
  datatype Log<S, A> = Log(
    state: S,
    pastActions: seq<A>,
    pastStates: seq<S>,
    futureActions: seq<A>,
    futureStates: seq<S>)

  /** A length respects the history limit; no limit means unbounded. */
  predicate WithinLimit(limit: Option<nat>, n: nat) {
    limit.None? || n <= limit.value
  }

  /** How many of `n` entries a log keeps under the limit. */
  function Kept(limit: Option<nat>, n: nat): nat {
    if WithinLimit(limit, n) then n else limit.value
  }

  /** Evicts the oldest entries of a past log: the newest entries, as many as the
      limit allows. */
  function TrimFront<T>(s: seq<T>, limit: Option<nat>): (r: seq<T>)
    ensures WithinLimit(limit, |r|)
    ensures |r| == Kept(limit, |s|)
  {
    if WithinLimit(limit, |s|) then s else s[|s| - limit.value..]
  }

  /** Evicts the farthest entries of a future log: the entries nearest to the
      present, as many as the limit allows. */
  function TrimBack<T>(s: seq<T>, limit: Option<nat>): (r: seq<T>)
    ensures WithinLimit(limit, |r|)
    ensures |r| == Kept(limit, |s|)
  {
    if WithinLimit(limit, |s|) then s else s[..limit.value]
  }

  /** What eviction keeps of a past log is one of its suffixes. */
  lemma TrimFrontIsSuffix<T>(s: seq<T>, limit: Option<nat>)
    ensures TrimFront(s, limit) == s[|s| - |TrimFront(s, limit)|..]
  {
    assert s[0..] == s;
  }

  /** What eviction keeps of a future log is one of its prefixes. */
  lemma TrimBackIsPrefix<T>(s: seq<T>, limit: Option<nat>)
    ensures TrimBack(s, limit) == s[..|TrimBack(s, limit)|]
  {
    assert s[..|s|] == s;
  }

  /** A freshly created engine: the initial state and empty logs. */
  function Started<S, A>(initial: S): Log<S, A> {
    Log(initial, [], [], [], [])
  }

  /** The logs are parallel: one recorded state per recorded action. */
  predicate Parallel<S, A>(h: Log<S, A>) {
    |h.pastStates| == |h.pastActions| && |h.futureStates| == |h.futureActions|
  }

  /** The engine invariant: parallel logs within the limit, the past states
      followed by the current state linked by the past actions, and the current
      state followed by the future states linked by the future actions. The
      future only ever holds actions taken back from the past, so the two logs
      together stay within the limit as well. */
  ghost predicate Inv<S, A>(reducer: (S, A) -> S, limit: Option<nat>, h: Log<S, A>) {
    && Parallel(h)
    && WithinLimit(limit, |h.pastActions|)
    && WithinLimit(limit, |h.futureActions|)
    && WithinLimit(limit, |h.pastActions| + |h.futureActions|)
    && Linked(reducer, h.pastStates + [h.state], h.pastActions)
    && Linked(reducer, [h.state] + h.futureStates, h.futureActions)
  }

  /** dispatch: apply the reducer, record the action and the state it was applied
      to, evict the oldest entry when over the limit, and drop the future. */
  function Dispatch<S, A>(reducer: (S, A) -> S, limit: Option<nat>, h: Log<S, A>, action: A): (r: Log<S, A>)
    ensures r.state == reducer(h.state, action)
    ensures |r.pastActions| == Kept(limit, |h.pastActions| + 1)
    ensures |r.pastActions| > 0 ==> r.pastActions[|r.pastActions| - 1] == action
    ensures r.futureActions == [] && r.futureStates == []
    ensures Parallel(h) ==> Parallel(r)
  {
    Log(reducer(h.state, action),
        TrimFront(h.pastActions + [action], limit),
        TrimFront(h.pastStates + [h.state], limit),
        [], [])
  }

  /** undo: nothing without a past; otherwise return to the state recorded before
      the last action and move that action to the front of the future. */
  function Undo<S, A>(limit: Option<nat>, h: Log<S, A>): (r: Log<S, A>)
    requires Parallel(h)
    ensures Parallel(r)
    ensures |h.pastActions| == 0 ==> r == h
    ensures |h.pastActions| > 0 ==>
      && |r.pastActions| == |h.pastActions| - 1
      && r.state == h.pastStates[|h.pastActions| - 1]
      && |r.futureActions| == Kept(limit, |h.futureActions| + 1)
      && (|r.futureActions| > 0 ==>
            r.futureActions[0] == h.pastActions[|h.pastActions| - 1] && r.futureStates[0] == h.state)
  {
    if |h.pastActions| == 0 then h
    else
      var n := |h.pastActions| - 1;
      Log(h.pastStates[n],
          h.pastActions[..n],
          h.pastStates[..n],
          TrimBack([h.pastActions[n]] + h.futureActions, limit),
          TrimBack([h.state] + h.futureStates, limit))
  }

  /** redo: nothing without a future; otherwise move to the first future state and
      record its action at the end of the past, with the same eviction as dispatch. */
  function Redo<S, A>(limit: Option<nat>, h: Log<S, A>): (r: Log<S, A>)
    requires Parallel(h)
    ensures Parallel(r)
    ensures |h.futureActions| == 0 ==> r == h
    ensures |h.futureActions| > 0 ==>
      && r.state == h.futureStates[0]
      && |r.futureActions| == |h.futureActions| - 1
      && |r.pastActions| == Kept(limit, |h.pastActions| + 1)
      && (|r.pastActions| > 0 ==>
            r.pastActions[|r.pastActions| - 1] == h.futureActions[0] && r.pastStates[|r.pastStates| - 1] == h.state)
  {
    if |h.futureActions| == 0 then h
    else
      Log(h.futureStates[0],
          TrimFront(h.pastActions + [h.futureActions[0]], limit),
          TrimFront(h.pastStates + [h.state], limit),
          h.futureActions[1..],
          h.futureStates[1..])
  }

  /** The log an engine starts from when `saved` was persisted: the saved actions
      replayed over the initial state, within the limit, with no future. */
  function Rehydrated<S, A>(reducer: (S, A) -> S, limit: Option<nat>, initial: S, saved: seq<A>): (r: Log<S, A>)
    ensures Parallel(r) && r.futureActions == [] && r.futureStates == []
    ensures |r.pastActions| == Kept(limit, |saved|)
    ensures WithinLimit(limit, |saved|) ==> r.pastActions == saved && Origin(r) == initial
  {
    Log(Fold(reducer, initial, saved),
        TrimFront(saved, limit),
        TrimFront(Walk(reducer, initial, saved)[..|saved|], limit),
        [], [])
  }

  /** Dispatching `actions` one after the other. */
  function DispatchAll<S, A>(reducer: (S, A) -> S, limit: Option<nat>, h: Log<S, A>, actions: seq<A>): (r: Log<S, A>)
    ensures Parallel(h) ==> Parallel(r)
    ensures actions != [] ==> r.futureActions == [] && r.futureStates == []
    decreases |actions|
  {
    if actions == [] then h
    else DispatchAll(reducer, limit, Dispatch(reducer, limit, h, actions[0]), actions[1..])
  }

  /** The state the retained past starts from: its oldest recorded state, or the
      current state when the past is empty. */
  function Origin<S, A>(h: Log<S, A>): S {
    if |h.pastStates| == 0 then h.state else h.pastStates[0]
  }

  // ---------------------------------------------------------------------------
  // Eviction keeps a linked sequence linked.

  lemma LinkedTrimFront<S, A>(reducer: (S, A) -> S, limit: Option<nat>, states: seq<S>, actions: seq<A>)
    requires Linked(reducer, states, actions)
    ensures Linked(reducer, TrimFront(states[..|actions|], limit) + [states[|actions|]], TrimFront(actions, limit))
  {
    TrimFrontPair(states, actions, limit);
    LinkedSuffix(reducer, states, actions, |actions| - |TrimFront(actions, limit)|);
  }

  /** Evicting from a past log and from its states, followed by the current
      state, keeps the same suffix of both. */
  lemma TrimFrontPair<S, A>(states: seq<S>, actions: seq<A>, limit: Option<nat>)
    requires |states| == |actions| + 1
    ensures
      var k := |actions| - |TrimFront(actions, limit)|;
      && TrimFront(actions, limit) == actions[k..]
      && TrimFront(states[..|actions|], limit) + [states[|actions|]] == states[k..]
  {
    var n := |actions|;
    var k := n - |TrimFront(actions, limit)|;
    TrimFrontIsSuffix(actions, limit);
    TrimFrontIsSuffix(states[..n], limit);
    assert states[..n][k..] + [states[n]] == states[k..];
  }

  lemma LinkedTrimBack<S, A>(reducer: (S, A) -> S, limit: Option<nat>, states: seq<S>, actions: seq<A>)
    requires Linked(reducer, states, actions)
    ensures Linked(reducer, [states[0]] + TrimBack(states[1..], limit), TrimBack(actions, limit))
  {
    var m := |TrimBack(actions, limit)|;
    assert TrimBack(states[1..], limit) == states[1..m + 1];
    assert [states[0]] + states[1..m + 1] == states[..m + 1];
    LinkedPrefix(reducer, states, actions, m);
  }

  lemma TrimFrontAppend<T>(s: seq<T>, x: T, limit: Option<nat>)
    ensures TrimFront(TrimFront(s, limit) + [x], limit) == TrimFront(s + [x], limit)
  {
    if !WithinLimit(limit, |s| + 1) {
      var n := limit.value;
      if |s| <= n {
        assert TrimFront(s, limit) == s;
      } else {
        assert (s[|s| - n..] + [x])[1..] == (s + [x])[|s| + 1 - n..];
      }
    }
  }

  // ---------------------------------------------------------------------------
  // Every operation preserves the invariant.

  /** An engine starts out satisfying its invariant. */
  lemma StartedInv<S, A>(reducer: (S, A) -> S, limit: Option<nat>, initial: S)
    ensures Inv(reducer, limit, Started<S, A>(initial))
  {
  }

  lemma {:induction false} DispatchKeepsInv<S, A>(reducer: (S, A) -> S, limit: Option<nat>, h: Log<S, A>, action: A)
    requires Inv(reducer, limit, h)
    ensures Inv(reducer, limit, Dispatch(reducer, limit, h, action))
  {
    var past := h.pastStates + [h.state];
    LinkedSnoc(reducer, past, h.pastActions, action);
    var states := past + [reducer(h.state, action)];
    assert states[..|h.pastActions| + 1] == past;
    LinkedTrimFront(reducer, limit, states, h.pastActions + [action]);
  }

  lemma {:induction false} UndoKeepsInv<S, A>(reducer: (S, A) -> S, limit: Option<nat>, h: Log<S, A>)
    requires Inv(reducer, limit, h)
    ensures Inv(reducer, limit, Undo(limit, h))
  {
    var n := |h.pastActions|;
    if n > 0 {
      var past := h.pastStates + [h.state];
      LinkedPrefix(reducer, past, h.pastActions, n - 1);
      assert past[..n] == h.pastStates[..n - 1] + [h.pastStates[n - 1]];
      var future := [h.state] + h.futureStates;
      assert future[0] == reducer(h.pastStates[n - 1], h.pastActions[n - 1]) by {
        LinkedAt(reducer, past, h.pastActions, n - 1);
      }
      LinkedCons(reducer, h.pastStates[n - 1], h.pastActions[n - 1], future, h.futureActions);
      var states := [h.pastStates[n - 1]] + future;
      assert states[1..] == future;
      LinkedTrimBack(reducer, limit, states, [h.pastActions[n - 1]] + h.futureActions);
    }
  }

  lemma {:induction false} RedoKeepsInv<S, A>(reducer: (S, A) -> S, limit: Option<nat>, h: Log<S, A>)
    requires Inv(reducer, limit, h)
    ensures Inv(reducer, limit, Redo(limit, h))
  {
    if |h.futureActions| > 0 {
      var past := h.pastStates + [h.state];
      var future := [h.state] + h.futureStates;
      assert h.futureStates[0] == reducer(h.state, h.futureActions[0]) by {
        LinkedAt(reducer, future, h.futureActions, 0);
      }
      LinkedSnoc(reducer, past, h.pastActions, h.futureActions[0]);
      var states := past + [h.futureStates[0]];
      assert states[..|h.pastActions| + 1] == past;
      LinkedTrimFront(reducer, limit, states, h.pastActions + [h.futureActions[0]]);
      LinkedSuffix(reducer, future, h.futureActions, 1);
      assert future[1..] == [h.futureStates[0]] + h.futureStates[1..];
    }
  }

  // ---------------------------------------------------------------------------
  // What the invariant means.

  /** The current state is the replay of the retained past over its origin, and
      the farthest future state is the replay of the future over the current
      state; the recorded past states are the states that replay passes through. */
  lemma StateIsReplay<S, A>(reducer: (S, A) -> S, limit: Option<nat>, h: Log<S, A>)
    requires Inv(reducer, limit, h)
    ensures h.state == Fold(reducer, Origin(h), h.pastActions)
    ensures h.pastStates + [h.state] == Walk(reducer, Origin(h), h.pastActions)
    ensures |h.futureActions| > 0 ==>
      h.futureStates[|h.futureStates| - 1] == Fold(reducer, h.state, h.futureActions)
  {
    var past := h.pastStates + [h.state];
    assert past[0] == Origin(h);
    LinkedEndsInFold(reducer, past, h.pastActions);
    LinkedIsWalk(reducer, past, h.pastActions);
    LinkedEndsInFold(reducer, [h.state] + h.futureStates, h.futureActions);
  }

  // ---------------------------------------------------------------------------
  // Without eviction the retained past starts at the initial state.

  /** A dispatch that evicts nothing keeps the oldest retained state. */
  lemma DispatchKeepsOrigin<S, A>(reducer: (S, A) -> S, limit: Option<nat>, h: Log<S, A>, action: A)
    requires Parallel(h) && WithinLimit(limit, |h.pastActions| + 1)
    ensures Origin(Dispatch(reducer, limit, h, action)) == Origin(h)
  {
  }

  /** An undo never evicts from the past, so it keeps the oldest retained state. */
  lemma UndoKeepsOrigin<S, A>(limit: Option<nat>, h: Log<S, A>)
    requires Parallel(h)
    ensures Origin(Undo(limit, h)) == Origin(h)
  {
  }

  /** A redo that evicts nothing keeps the oldest retained state. */
  lemma RedoKeepsOrigin<S, A>(limit: Option<nat>, h: Log<S, A>)
    requires Parallel(h) && WithinLimit(limit, |h.pastActions| + 1)
    ensures Origin(Redo(limit, h)) == Origin(h)
  {
  }

  /** When the retained past starts at the initial state, the current state is
      the fold of the past actions over the initial state, and rehydrating the
      past actions without a limit gives back the state and the whole past, with
      no future. */
  lemma ReplayFromInitial<S, A>(reducer: (S, A) -> S, limit: Option<nat>, initial: S, h: Log<S, A>)
    requires Inv(reducer, limit, h) && Origin(h) == initial
    ensures h.state == Fold(reducer, initial, h.pastActions)
    ensures Rehydrated(reducer, None, initial, h.pastActions) == h.(futureActions := [], futureStates := [])
  {
    StateIsReplay(reducer, limit, h);
    var n := |h.pastActions|;
    assert Walk(reducer, initial, h.pastActions)[..n] == h.pastStates;
  }

  // ---------------------------------------------------------------------------
  // Undo and redo move one entry across the present.

  /** Under the invariant the entry that undo or redo moves across the present
      always fits: neither of them ever evicts. */
  lemma UndoRedoFit<S, A>(reducer: (S, A) -> S, limit: Option<nat>, h: Log<S, A>)
    requires Inv(reducer, limit, h)
    ensures |h.pastActions| > 0 ==> WithinLimit(limit, |h.futureActions| + 1)
    ensures |h.futureActions| > 0 ==> WithinLimit(limit, |h.pastActions| + 1)
  {
  }

  /** A redo right after an undo gives back exactly the log before the undo. */
  lemma UndoThenRedo<S, A>(reducer: (S, A) -> S, limit: Option<nat>, h: Log<S, A>)
    requires Inv(reducer, limit, h) && |h.pastActions| > 0
    ensures Redo(limit, Undo(limit, h)) == h
  {
    var n := |h.pastActions|;
    assert h.pastActions[..n - 1] + [h.pastActions[n - 1]] == h.pastActions;
    assert h.pastStates[..n - 1] + [h.pastStates[n - 1]] == h.pastStates;
  }

  /** An undo right after a redo gives back exactly the log before the redo. */
  lemma RedoThenUndo<S, A>(reducer: (S, A) -> S, limit: Option<nat>, h: Log<S, A>)
    requires Inv(reducer, limit, h) && |h.futureActions| > 0
    ensures Undo(limit, Redo(limit, h)) == h
  {
    var n := |h.pastActions|;
    assert [h.futureActions[0]] + h.futureActions[1..] == h.futureActions;
    assert [h.futureStates[0]] + h.futureStates[1..] == h.futureStates;
    assert (h.pastActions + [h.futureActions[0]])[..n] == h.pastActions;
    assert (h.pastStates + [h.state])[..n] == h.pastStates;
  }

  /** Undoing a dispatch goes back to the state and past before it; the
      dispatched action and the state it produced become the future, which
      keeps them unless the limit is 0. */
  lemma DispatchThenUndo<S, A>(reducer: (S, A) -> S, limit: Option<nat>, h: Log<S, A>, action: A)
    requires Parallel(h) && WithinLimit(limit, |h.pastActions| + 1)
    ensures
      var u := Undo(limit, Dispatch(reducer, limit, h, action));
      && u.state == h.state
      && u.pastActions == h.pastActions
      && u.pastStates == h.pastStates
      && u.futureActions == TrimBack([action], limit)
      && u.futureStates == TrimBack([reducer(h.state, action)], limit)
  {
    var n := |h.pastActions|;
    assert (h.pastActions + [action])[..n] == h.pastActions;
    assert (h.pastStates + [h.state])[..n] == h.pastStates;
    assert [action] + [] == [action];
    assert [reducer(h.state, action)] + [] == [reducer(h.state, action)];
  }

  /** A dispatch leaves nothing to redo: a redo right after it changes nothing. */
  lemma RedoAfterDispatch<S, A>(reducer: (S, A) -> S, limit: Option<nat>, h: Log<S, A>, action: A)
    requires Parallel(h)
    ensures
      var d := Dispatch(reducer, limit, h, action);
      d.futureActions == [] && Redo(limit, d) == d
  {
  }

  /** Undo only shifts the timeline `pastActions + futureActions` across the
      present: it keeps its order, and only an eviction shortens it at the far end. */
  lemma UndoKeepsTimeline<S, A>(limit: Option<nat>, h: Log<S, A>)
    requires Parallel(h)
    ensures
      var u := Undo(limit, h);
      var before, after := h.pastActions + h.futureActions, u.pastActions + u.futureActions;
      && after == before[..|after|]
      && (WithinLimit(limit, |h.futureActions| + 1) ==> after == before)
  {
    var n := |h.pastActions|;
    if n > 0 {
      var u := Undo(limit, h);
      var before := h.pastActions + h.futureActions;
      var moved := [h.pastActions[n - 1]] + h.futureActions;
      assert before == h.pastActions[..n - 1] + moved;
      assert u.pastActions + u.futureActions == (h.pastActions[..n - 1] + moved)[..n - 1 + |u.futureActions|];
    }
  }

  /** Redo only shifts the timeline across the present: it keeps its order, and
      only an eviction shortens it at the oldest end. */
  lemma RedoKeepsTimeline<S, A>(limit: Option<nat>, h: Log<S, A>)
    requires Parallel(h)
    ensures
      var r := Redo(limit, h);
      var before, after := h.pastActions + h.futureActions, r.pastActions + r.futureActions;
      && after == before[|before| - |after|..]
      && (WithinLimit(limit, |h.pastActions| + 1) ==> after == before)
  {
    if |h.futureActions| > 0 {
      var r := Redo(limit, h);
      var grown := h.pastActions + [h.futureActions[0]];
      var before := h.pastActions + h.futureActions;
      assert before == grown + h.futureActions[1..];
      var k := |grown| - |r.pastActions|;
      assert r.pastActions + r.futureActions == (grown + h.futureActions[1..])[k..];
    }
  }

  /** A dispatch after an undo drops the undone branch: the future is empty and
      the past is the past left by the undo followed by the new action. */
  lemma UndoThenDispatch<S, A>(reducer: (S, A) -> S, limit: Option<nat>, h: Log<S, A>, action: A)
    requires Inv(reducer, limit, h) && |h.pastActions| > 0
    ensures
      var n := |h.pastActions| - 1;
      var d := Dispatch(reducer, limit, Undo(limit, h), action);
      && d.futureActions == [] && d.futureStates == []
      && d.state == reducer(h.pastStates[n], action)
      && d.pastActions == h.pastActions[..n] + [action]
      && d.pastStates == h.pastStates
  {
    var n := |h.pastActions| - 1;
    assert h.pastStates[..n] + [h.pastStates[n]] == h.pastStates;
  }

  /** Undoing the last action and dispatching it again gives back the same
      present and past; only the future is gone. So dispatching the undone
      action reaches what redoing it reaches, except for the future. */
  lemma UndoThenDispatchSame<S, A>(reducer: (S, A) -> S, limit: Option<nat>, h: Log<S, A>)
    requires Inv(reducer, limit, h) && |h.pastActions| > 0
    ensures
      var last := h.pastActions[|h.pastActions| - 1];
      Dispatch(reducer, limit, Undo(limit, h), last) == h.(futureActions := [], futureStates := [])
    ensures
      var last := h.pastActions[|h.pastActions| - 1];
      var u := Undo(limit, h);
      Dispatch(reducer, limit, u, last) == Redo(limit, u).(futureActions := [], futureStates := [])
  {
    UndoThenRedo(reducer, limit, h);
    var n := |h.pastActions|;
    LinkedAt(reducer, h.pastStates + [h.state], h.pastActions, n - 1);
    assert h.pastActions[..n - 1] + [h.pastActions[n - 1]] == h.pastActions;
    assert h.pastStates[..n - 1] + [h.pastStates[n - 1]] == h.pastStates;
  }

  /** Undoing `k` times in a row. */
  function UndoTimes<S, A>(limit: Option<nat>, h: Log<S, A>, k: nat): (r: Log<S, A>)
    requires Parallel(h)
    ensures Parallel(r)
    decreases k
  {
    if k == 0 then h else UndoTimes(limit, Undo(limit, h), k - 1)
  }

  /** `k` undos take back as many actions as the past holds, up to `k`; each of
      them grows the future by one entry until it reaches the limit. */
  lemma {:induction false} UndoTimesLengths<S, A>(limit: Option<nat>, h: Log<S, A>, k: nat)
    requires Parallel(h) && WithinLimit(limit, |h.futureActions|)
    ensures
      var r := UndoTimes(limit, h, k);
      var undone := if k <= |h.pastActions| then k else |h.pastActions|;
      && |r.pastActions| == |h.pastActions| - undone
      && |r.futureActions| == |r.futureStates| == Kept(limit, |h.futureActions| + undone)
    decreases k
  {
    if k > 0 {
      UndoTimesLengths(limit, Undo(limit, h), k - 1);
    }
  }

  /** Any number of undos keeps the oldest retained state. */
  lemma {:induction false} UndoTimesOrigin<S, A>(limit: Option<nat>, h: Log<S, A>, k: nat)
    requires Parallel(h)
    ensures Origin(UndoTimes(limit, h, k)) == Origin(h)
    decreases k
  {
    if k > 0 {
      var u := Undo(limit, h);
      assert UndoTimes(limit, h, k) == UndoTimes(limit, u, k - 1);
      UndoKeepsOrigin(limit, h);
      UndoTimesOrigin(limit, u, k - 1);
    }
  }

  // ---------------------------------------------------------------------------
  // Dispatching from a fresh engine, and rehydrating from what it saved.

  /** Rehydrating nothing gives a fresh engine. */
  lemma RehydratedNothing<S, A>(reducer: (S, A) -> S, limit: Option<nat>, initial: S)
    ensures Rehydrated(reducer, limit, initial, []) == Started<S, A>(initial)
  {
  }

  /** The walk of one more action is the old walk with the state the old
      actions reached appended, so the recorded past states agree too. */
  lemma WalkStep<S, A>(reducer: (S, A) -> S, initial: S, saved: seq<A>, a: A)
    ensures Walk(reducer, initial, saved + [a])[..|saved| + 1]
         == Walk(reducer, initial, saved)[..|saved|] + [Fold(reducer, initial, saved)]
  {
    var n := |saved|;
    var w, f := Walk(reducer, initial, saved), Fold(reducer, initial, saved);
    var x := reducer(f, a);
    assert w[n] == f by {
      WalkIsLinked(reducer, initial, saved);
      LinkedEndsInFold(reducer, w, saved);
    }
    WalkAppend(reducer, initial, saved, a);
    PrefixOfSnoc(w, x);
  }

  /** Dropping the element appended to a non-empty sequence, seen as its own
      prefix followed by its last element. */
  lemma PrefixOfSnoc<T>(w: seq<T>, x: T)
    requires |w| > 0
    ensures (w + [x])[..|w|] == w[..|w| - 1] + [w[|w| - 1]]
  {
    assert (w + [x])[..|w|] == w;
  }

  /** Dispatching one more action after rehydrating `saved` is rehydrating
      `saved` extended by that action: replay and dispatch agree. */
  lemma RehydrateStep<S, A>(reducer: (S, A) -> S, limit: Option<nat>, initial: S, saved: seq<A>, a: A)
    ensures Dispatch(reducer, limit, Rehydrated(reducer, limit, initial, saved), a)
         == Rehydrated(reducer, limit, initial, saved + [a])
  {
    var w := Walk(reducer, initial, saved);
    FoldAppend(reducer, initial, saved, a);
    WalkStep(reducer, initial, saved, a);
    TrimFrontAppend(saved, a, limit);
    TrimFrontAppend(w[..|saved|], Fold(reducer, initial, saved), limit);
  }

  /** A rehydrated engine satisfies the invariant. */
  lemma {:induction false} RehydratedInv<S, A>(reducer: (S, A) -> S, limit: Option<nat>, initial: S, saved: seq<A>)
    ensures Inv(reducer, limit, Rehydrated(reducer, limit, initial, saved))
    decreases |saved|
  {
    if saved == [] {
      RehydratedNothing<S, A>(reducer, limit, initial);
      StartedInv<S, A>(reducer, limit, initial);
    } else {
      var n := |saved| - 1;
      RehydratedInv(reducer, limit, initial, saved[..n]);
      DispatchKeepsInv(reducer, limit, Rehydrated(reducer, limit, initial, saved[..n]), saved[n]);
      RehydrateStep(reducer, limit, initial, saved[..n], saved[n]);
      assert saved[..n] + [saved[n]] == saved;
    }
  }

  /** Dispatching more actions after rehydrating `saved` is rehydrating the
      concatenation. */
  lemma {:induction false} DispatchAllAfterRehydrated<S, A>(reducer: (S, A) -> S, limit: Option<nat>, initial: S, saved: seq<A>, actions: seq<A>)
    ensures DispatchAll(reducer, limit, Rehydrated(reducer, limit, initial, saved), actions)
         == Rehydrated(reducer, limit, initial, saved + actions)
    decreases |actions|
  {
    if actions == [] {
      assert saved + [] == saved;
    } else {
      var a, rest := actions[0], actions[1..];
      var next := saved + [a];
      assert next + rest == saved + actions;
      calc {
        DispatchAll(reducer, limit, Rehydrated(reducer, limit, initial, saved), actions);
        DispatchAll(reducer, limit, Dispatch(reducer, limit, Rehydrated(reducer, limit, initial, saved), a), rest);
        { RehydrateStep(reducer, limit, initial, saved, a); }
        DispatchAll(reducer, limit, Rehydrated(reducer, limit, initial, next), rest);
        { DispatchAllAfterRehydrated(reducer, limit, initial, next, rest); }
        Rehydrated(reducer, limit, initial, saved + actions);
      }
    }
  }

  /** Dispatching actions one by one on a fresh engine gives the same log as
      rehydrating those actions. */
  lemma DispatchAllFromStart<S, A>(reducer: (S, A) -> S, limit: Option<nat>, initial: S, actions: seq<A>)
    ensures DispatchAll(reducer, limit, Started<S, A>(initial), actions) == Rehydrated(reducer, limit, initial, actions)
  {
    RehydratedNothing<S, A>(reducer, limit, initial);
    DispatchAllAfterRehydrated(reducer, limit, initial, [], actions);
    assert [] + actions == actions;
  }

  /** Without a history limit, dispatching N actions on a fresh engine records
      all N of them, records the N states they were applied to, and reaches the
      fold of all N over the initial state. */
  lemma DispatchAllUnbounded<S, A>(reducer: (S, A) -> S, initial: S, actions: seq<A>)
    ensures
      var h := DispatchAll(reducer, None, Started<S, A>(initial), actions);
      && h.pastActions == actions
      && h.state == Fold(reducer, initial, actions)
      && h.pastStates + [h.state] == Walk(reducer, initial, actions)
      && h.futureActions == [] && h.futureStates == []
  {
    var n := |actions|;
    var w := Walk(reducer, initial, actions);
    DispatchAllFromStart(reducer, None, initial, actions);
    RehydratedShape(reducer, None, initial, actions);
    WalkIsLinked(reducer, initial, actions);
    LinkedEndsInFold(reducer, w, actions);
    assert actions[0..] == actions;
    assert w[..n] + [w[n]] == w;
  }

  /** Replaying N actions reaches the fold of all N over the initial state,
      whatever the limit; the past keeps the last N actions, or the last `limit`
      of them; the future is empty. */
  lemma RehydratedShape<S, A>(reducer: (S, A) -> S, limit: Option<nat>, initial: S, actions: seq<A>)
    ensures
      var h := Rehydrated(reducer, limit, initial, actions);
      && h.state == Fold(reducer, initial, actions)
      && |h.pastActions| == |h.pastStates| == Kept(limit, |actions|)
      && h.pastActions == actions[|actions| - |h.pastActions|..]
      && h.pastStates == Walk(reducer, initial, actions)[|actions| - |h.pastStates|..|actions|]
      && h.futureActions == [] && h.futureStates == []
  {
    assert |Walk(reducer, initial, actions)[..|actions|]| == |actions|;
    TrimFrontIsSuffix(actions, limit);
    TrimFrontIsSuffix(Walk(reducer, initial, actions)[..|actions|], limit);
  }

  /** Persistence round trip: an engine rehydrated from the past actions that a
      fresh engine reached by dispatching has that engine's state and logs, as
      long as nothing was evicted. */
  lemma ResumeRestores<S, A>(reducer: (S, A) -> S, limit: Option<nat>, initial: S, actions: seq<A>)
    requires WithinLimit(limit, |actions|)
    ensures
      var h := DispatchAll(reducer, limit, Started<S, A>(initial), actions);
      Rehydrated(reducer, limit, initial, h.pastActions) == h
  {
    DispatchAllFromStart(reducer, limit, initial, actions);
    RehydratedShape(reducer, limit, initial, actions);
    assert actions[0..] == actions;
  }

  /** Under a history limit L, dispatching at least L actions on a fresh engine
      keeps exactly L of them; undoing at least L times from there empties the
      past, leaves exactly L future entries, and returns to the oldest retained
      state. */
  lemma LimitedUndos<S, A>(reducer: (S, A) -> S, L: nat, initial: S, actions: seq<A>, k: nat)
    requires L <= |actions| && L <= k
    ensures
      var h := DispatchAll(reducer, Some(L), Started<S, A>(initial), actions);
      var r := UndoTimes(Some(L), h, k);
      && |h.pastActions| == |h.pastStates| == L
      && |r.pastActions| == 0
      && |r.futureActions| == |r.futureStates| == L
      && r.state == Origin(h)
  {
    var h := DispatchAll(reducer, Some(L), Started<S, A>(initial), actions);
    DispatchAllFromStart(reducer, Some(L), initial, actions);
    RehydratedShape(reducer, Some(L), initial, actions);
    UndoTimesLengths(Some(L), h, k);
    UndoTimesOrigin(Some(L), h, k);
  }
}
