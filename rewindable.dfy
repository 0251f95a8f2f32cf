// The rewindable history engine: an object holding the current state and the
// past and future logs, updated in place by dispatch, undo, redo and reset, and
// optionally mirroring its past actions into a key-value store.

module Rewindable {
  import opened Replay
  import opened HistoryLog

  /** The injected save/retrieve port: a dictionary from keys to saved past
      actions. The encoding of the saved value is not modelled; what is saved is
      what is retrieved. */
  class Store<A> {
    var values: map<string, seq<A>>

    constructor ()
      ensures values == map[]
    {
      values := map[];
    }

    method Save(key: string, value: seq<A>)
      modifies this
      ensures values == old(values)[key := value]
    {
      values := values[key := value];
    }

    method Retrieve(key: string) returns (found: Option<seq<A>>)
      ensures key in values ==> found == Some(values[key])
      ensures key !in values ==> found == None
    {
      found := if key in values then Some(values[key]) else None;
    }
  }

  /** Where an engine persists its past actions. */
  datatype Persistence<A> = Persistence(saveKey: string, store: Store<A>)

  class Engine<S(==), A> {
    const reducer: (S, A) -> S
    const initial: S
    const historyLimit: Option<nat>
    const persist: Option<Persistence<A>>

    var state: S
    var pastActions: seq<A>
    var pastStates: seq<S>
    var futureActions: seq<A>
    var futureStates: seq<S>

    /** The observable history as a value. */
    function Snapshot(): Log<S, A>
      reads this
    {
      Log(state, pastActions, pastStates, futureActions, futureStates)
    }

    /** The engine invariant; without a history limit nothing is ever evicted,
        so the retained past also starts at the initial state. */
    ghost predicate Valid()
      reads this
    {
      && Inv(reducer, historyLimit, Snapshot())
      && (historyLimit.None? ==> Origin(Snapshot()) == initial)
    }

    /** The store this engine writes to, if any. */
    function Stores(): set<object> {
      if persist.Some? then {persist.value.store} else {}
    }

    /** What the store holds; nothing when the engine does not persist. */
    ghost function StoreContents(): map<string, seq<A>>
      reads Stores()
    {
      if persist.Some? then persist.value.store.values else map[]
    }

    /** The store contents after saving `past` under this engine's key. */
    ghost function Saving(contents: map<string, seq<A>>, past: seq<A>): map<string, seq<A>> {
      if persist.Some? then contents[persist.value.saveKey := past] else contents
    }

    /** The past actions saved under this engine's key, or none. */
    ghost function SavedPast(): seq<A>
      reads Stores()
    {
      if persist.Some? && persist.value.saveKey in persist.value.store.values
      then persist.value.store.values[persist.value.saveKey] else []
    }

    /** Creates an engine; if the store holds past actions under the key, they are
        replayed over the initial state before the engine is returned. */
    constructor (reducer: (S, A) -> S, initial: S, historyLimit: Option<nat>, persist: Option<Persistence<A>>)
      ensures this.reducer == reducer && this.initial == initial
      ensures this.historyLimit == historyLimit && this.persist == persist
      ensures Valid()
      ensures Snapshot() == Rehydrated(reducer, historyLimit, initial, SavedPast())
    {
      this.reducer := reducer;
      this.initial := initial;
      this.historyLimit := historyLimit;
      this.persist := persist;
      state := initial;
      pastActions, pastStates := [], [];
      futureActions, futureStates := [], [];
      new;
      var saved: seq<A> := [];
      if persist.Some? {
        var found := persist.value.store.Retrieve(persist.value.saveKey);
        if found.Some? {
          saved := found.value;
        }
      }
      assert saved == SavedPast();
      Rehydrate(saved);
      assert Valid() by {
        RehydratedInv(reducer, historyLimit, initial, saved);
      }
    }

    /** Replays saved past actions over a fresh engine, without saving. */
    method Rehydrate(saved: seq<A>)
      requires Snapshot() == Started(initial)
      modifies this
      ensures Snapshot() == Rehydrated(reducer, historyLimit, initial, saved)
    {
      RehydratedNothing<S, A>(reducer, historyLimit, initial);
      var i := 0;
      while i < |saved|
        invariant 0 <= i <= |saved|
        invariant Snapshot() == Rehydrated(reducer, historyLimit, initial, saved[..i])
      {
        ghost var prefix := saved[..i];
        Step(saved[i]);
        assert Snapshot() == Rehydrated(reducer, historyLimit, initial, prefix + [saved[i]]) by {
          RehydrateStep(reducer, historyLimit, initial, prefix, saved[i]);
        }
        assert prefix + [saved[i]] == saved[..i + 1];
        i := i + 1;
      }
      assert saved[..i] == saved;
    }

    /** The in-memory part of dispatch, also used to replay saved actions. */
    method Step(action: A)
      modifies this
      ensures Snapshot() == HistoryLog.Dispatch(reducer, historyLimit, old(Snapshot()), action)
    {
      pastActions := TrimFront(pastActions + [action], historyLimit);
      pastStates := TrimFront(pastStates + [state], historyLimit);
      state := reducer(state, action);
      futureActions, futureStates := [], [];
    }

    /** Saves the current past actions under this engine's key. */
    method Persist()
      modifies Stores()
      ensures StoreContents() == Saving(old(StoreContents()), pastActions)
    {
      if persist.Some? {
        persist.value.store.Save(persist.value.saveKey, pastActions);
      }
    }

    method Dispatch(action: A)
      requires Valid()
      modifies this, Stores()
      ensures Valid()
      ensures Snapshot() == HistoryLog.Dispatch(reducer, historyLimit, old(Snapshot()), action)
      ensures state == reducer(old(state), action)
      ensures futureActions == [] && futureStates == []
      ensures StoreContents() == Saving(old(StoreContents()), pastActions)
    {
      DispatchKeepsInv(reducer, historyLimit, Snapshot(), action);
      Step(action);
      Persist();
    }

    method Undo()
      requires Valid()
      modifies this, Stores()
      ensures Valid()
      ensures Snapshot() == HistoryLog.Undo(historyLimit, old(Snapshot()))
      ensures StoreContents() ==
        if |old(pastActions)| == 0 then old(StoreContents()) else Saving(old(StoreContents()), pastActions)
    {
      UndoKeepsInv(reducer, historyLimit, Snapshot());
      var n := |pastActions|;
      if n == 0 {
        return;
      }
      futureActions := TrimBack([pastActions[n - 1]] + futureActions, historyLimit);
      futureStates := TrimBack([state] + futureStates, historyLimit);
      state := pastStates[n - 1];
      pastActions := pastActions[..n - 1];
      pastStates := pastStates[..n - 1];
      Persist();
    }

    method Redo()
      requires Valid()
      modifies this, Stores()
      ensures Valid()
      ensures Snapshot() == HistoryLog.Redo(historyLimit, old(Snapshot()))
      ensures StoreContents() ==
        if |old(futureActions)| == 0 then old(StoreContents()) else Saving(old(StoreContents()), pastActions)
    {
      if |futureActions| == 0 {
        return;
      }
      ghost var before := Snapshot();
      pastActions := TrimFront(pastActions + [futureActions[0]], historyLimit);
      pastStates := TrimFront(pastStates + [state], historyLimit);
      state := futureStates[0];
      futureActions := futureActions[1..];
      futureStates := futureStates[1..];
      assert Snapshot() == HistoryLog.Redo(historyLimit, before);
      assert Valid() by {
        RedoKeepsInv(reducer, historyLimit, before);
      }
      Persist();
    }

    /** Back to the initial state with empty logs; nothing happens, and nothing is
        saved, when the engine is already there. */
    method Reset()
      requires Valid()
      modifies this, Stores()
      ensures Valid()
      ensures Snapshot() == Started(initial)
      ensures StoreContents() ==
        if old(Snapshot()) == Started(initial) then old(StoreContents()) else Saving(old(StoreContents()), [])
    {
      if |pastActions| == 0 && |futureActions| == 0 && state == initial {
        return;
      }
      state := initial;
      pastActions, pastStates := [], [];
      futureActions, futureStates := [], [];
      StartedInv<S, A>(reducer, historyLimit, initial);
      Persist();
    }
  }
}
