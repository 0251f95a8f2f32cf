# Rewindable reducer history engine, in Dafny

This project models the history engine behind `useRewindableReducer`. The engine
wraps a reducer `(state, action) -> state` and an initial state. It keeps:

- the current state;
- the past log: `pastActions`, each paired in `pastStates` with the state it was applied to;
- the future log: `futureActions`, each paired in `futureStates` with the state it produces;
- an optional history limit on the length of each log;
- an optional persistence binding: a key plus a save/retrieve store, which mirrors `pastActions`.

Its operations are `dispatch`, `undo`, `redo` and `reset`. On construction it
rehydrates by replaying whatever the store holds under its key. The engine's
own implementation file (`src/use_rewindable_reducer.ts`) is not part of this
model. Its behaviour is taken from the assertions of
`src/use_rewindable_reducer.test.ts`, which drives it with `countReducer`, and
from the example page in `src/quickstart.test.tsx`.

Modules, one per file:

- `Replay` (`replay.dfy`) — replaying a reducer over actions. `Fold` is the state
  reached; `Walk` is every state visited. `Linked` says a sequence of states is
  produced step by step by a sequence of actions.
- `HistoryLog` (`history_log.dfy`) — the observable history as a value (`Log`).
  One function per operation (`Dispatch`, `Undo`, `Redo`, `Rehydrated`), with
  eviction (`TrimFront` for the past, `TrimBack` for the future). Also the
  engine invariant `Inv`, and the lemmas relating the operations.
- `Rewindable` (`rewindable.dfy`) — the engine as a class whose methods update
  its fields in place. Also the key-value `Store` class the engine persists to.
  Each engine method's contract states the new `Snapshot()` as the matching
  `HistoryLog` function of the old one, plus what the store now holds.
- `Counter` (`counter.dfy`) — `countReducer` over a two-constructor action type,
  and what replaying it computes.
- `CounterScenarios` (`counter_scenarios.dfy`) — each test as a method. The
  method drives fresh engines and returns what the test reads back; its
  `ensures` is the test's expectations. The counting loops of the tests are
  `while` loops with invariants.

Behaviour the tests do not pin down, and how the model resolves it:

- **The invariant is relative to the oldest retained state, not to the initial state.**
  The natural reading of the invariant is that the current state is the fold of
  `pastActions` over the initial state. That fails once eviction has happened.
  Under a limit of 5, ten increments leave state 10 with five retained actions
  (`src/use_rewindable_reducer.test.ts:37-38`), and folding five increments over 0 gives 5.
  - `HistoryLog.Inv` links `pastStates + [state]` by `pastActions`.
  - `HistoryLog.StateIsReplay` states the current state as the fold of `pastActions` from `pastStates[0]`.
  - `CounterScenarios.ResumeAfterEviction` proves the counter case: state 10, yet the rehydrated state is 5.
  - Without a history limit nothing is evicted, and the natural reading holds after every operation.
    `Rewindable.Engine.Valid` then also requires the oldest retained state to be the initial state, and
    every engine operation keeps it. `HistoryLog.ReplayFromInitial` turns that into "the state is the fold of
    `pastActions` over the initial state, and rehydrating `pastActions` gives back the state and the past".
- **Only dispatch ever evicts.** Undo is modelled with the future eviction of the
  design: when the future is full, the tail, farthest from the present, is dropped.
  Redo is modelled with the past eviction of dispatch. Neither fires from a log
  a constructed engine can reach. The future only holds actions taken back from
  the past, so the two logs together never exceed the limit; `HistoryLog.Inv`
  says so. Then the entry that undo or redo moves always fits (`HistoryLog.UndoRedoFit`).
  The five future entries of `src/use_rewindable_reducer.test.ts:59-61` are the
  five retained past entries moved across, not the result of an eviction.
- **No-ops do not save.** An `undo` with an empty past does not save, and neither
  does a `redo` with an empty future. A `reset` of an engine already at its
  fresh configuration is a no-op too. Every other operation saves the resulting
  `pastActions` under the key.
- **Rehydration replays through the dispatch step.** The saved actions are
  replayed one by one through the in-memory dispatch step, so the history limit
  applies while replaying. Nothing is saved during rehydration.
- **Store contents are values.** A key with no saved value rehydrates nothing.
  The saved value is the action sequence itself, so it round-trips exactly.

## Model

| member | source | states |
|---|---|---|
| Counter.CountReducer | src/use_rewindable_reducer.test.ts:4-7 | an increment adds one to the count and a decrement subtracts one; the two ensures are the definition itself |
| Counter.CountFold | src/use_rewindable_reducer.test.ts:4-7 | replaying counter actions moves the count by the number of increments minus the number of decrements, whatever their order |
| HistoryLog.TrimFront | src/use_rewindable_reducer.test.ts:26-40 | past eviction keeps the newest entries; the length is the original length when within the limit, else exactly the limit |
| HistoryLog.TrimFrontIsSuffix | src/use_rewindable_reducer.test.ts:26-40 | what past eviction keeps is a suffix of the log: the oldest entries go first |
| HistoryLog.TrimBack | src/use_rewindable_reducer.test.ts:19-23 | undo's future eviction keeps at most the limit; the length is the original length when within it, else exactly the limit (it never fires from a reachable log, see UndoRedoFit) |
| HistoryLog.TrimBackIsPrefix | src/use_rewindable_reducer.test.ts:19-23 | what future eviction keeps is a prefix of the log: the farthest entries go first |
| HistoryLog.Dispatch | src/use_rewindable_reducer.test.ts:14-18 | the new state is the reducer applied to the old state and the action; the past grows by one entry up to the limit and ends with the action; the future is empty; parallel logs stay parallel |
| HistoryLog.Undo | src/use_rewindable_reducer.test.ts:19-23 | nothing changes without a past; otherwise the past loses one entry, the state is the last recorded past state, and the future grows by exactly one entry up to the limit, led by the undone action and the state it had produced |
| HistoryLog.Redo | src/use_rewindable_reducer.test.ts:91-95 | nothing changes without a future; otherwise the state is the first future state, the future loses one entry, and the past grows by one entry up to the limit, ending with the redone action and the pre-redo state |
| HistoryLog.Rehydrated | src/use_rewindable_reducer.test.ts:190-192 | a rehydrated log has parallel logs, no future, and as many past entries as the limit keeps of the saved ones; within the limit its past is exactly the saved actions and starts at the initial state |
| HistoryLog.DispatchAll | src/use_rewindable_reducer.test.ts:69-73 | a run of dispatches keeps the logs parallel and, when it dispatches anything, leaves no future |
| HistoryLog.StartedInv | src/use_rewindable_reducer.test.ts:10-13 | a new engine with empty logs satisfies the invariant: parallel logs, each within the limit and both together within it, each recorded state producing the next |
| HistoryLog.DispatchKeepsInv | src/use_rewindable_reducer.test.ts:14-18 | dispatch, with its eviction, keeps the invariant |
| HistoryLog.UndoKeepsInv | src/use_rewindable_reducer.test.ts:19-23 | undo, with its future eviction, keeps the invariant |
| HistoryLog.RedoKeepsInv | src/use_rewindable_reducer.test.ts:91-95 | redo, with its past eviction, keeps the invariant |
| HistoryLog.StateIsReplay | src/use_rewindable_reducer.test.ts:37-38 | under the invariant the state is the fold of pastActions from the oldest retained state, pastStates plus the state is that replay's walk, and the last future state is the fold of the future from the state |
| HistoryLog.DispatchKeepsOrigin | src/use_rewindable_reducer.test.ts:14-18 | a dispatch that evicts nothing keeps the oldest retained state |
| HistoryLog.UndoKeepsOrigin | src/use_rewindable_reducer.test.ts:19-23 | an undo keeps the oldest retained state, under any limit |
| HistoryLog.RedoKeepsOrigin | src/use_rewindable_reducer.test.ts:91-95 | a redo that evicts nothing keeps the oldest retained state |
| HistoryLog.ReplayFromInitial | src/use_rewindable_reducer.test.ts:64-111 | when the retained past starts at the initial state, the state is the fold of pastActions over the initial state, and rehydrating pastActions without a limit gives back the state and the whole past, with no future |
| HistoryLog.UndoRedoFit | src/use_rewindable_reducer.test.ts:53-61 | under the invariant, an undo from a non-empty past and a redo from a non-empty future both stay within the limit, so neither evicts |
| HistoryLog.UndoThenRedo | src/use_rewindable_reducer.test.ts:76-105 | from any log satisfying the invariant with a non-empty past, a redo after an undo gives back exactly the log |
| HistoryLog.RedoThenUndo | src/quickstart.test.tsx:46-52 | from any log satisfying the invariant with a non-empty future, an undo after a redo gives back exactly the log |
| HistoryLog.DispatchThenUndo | src/use_rewindable_reducer.test.ts:14-23 | undoing a dispatch that evicted nothing returns to the previous state and past, with the dispatched action and its result as the future |
| HistoryLog.RedoAfterDispatch | src/use_rewindable_reducer.test.ts:163-172 | a dispatch empties the future, so a redo right after it changes nothing |
| HistoryLog.UndoThenDispatch | src/use_rewindable_reducer.test.ts:158-172 | a dispatch after an undo leaves no future, applies the reducer to the state the undo returned to, and makes the past the undone past followed by the new action |
| HistoryLog.UndoThenDispatchSame | src/quickstart.test.tsx:42-48 | after an undo such as the one at quickstart 42-44, dispatching the undone action again instead of redoing it as at 46-48 reaches the same state and past as the redo and as before the undo; only the future is empty |
| HistoryLog.UndoKeepsTimeline | src/use_rewindable_reducer.test.ts:76-90 | undo leaves pastActions followed by futureActions in order, shortened only at the far end by eviction |
| HistoryLog.RedoKeepsTimeline | src/use_rewindable_reducer.test.ts:91-105 | redo leaves pastActions followed by futureActions in order, shortened only at the old end by eviction |
| HistoryLog.UndoTimes | src/use_rewindable_reducer.test.ts:53-57 | any number of undos in a row keeps the logs parallel |
| HistoryLog.UndoTimesLengths | src/use_rewindable_reducer.test.ts:53-61 | k undos take back min(k, past length) actions; the future grows by that many entries, up to exactly the limit |
| HistoryLog.UndoTimesOrigin | src/use_rewindable_reducer.test.ts:53-59 | any number of undos keeps the oldest retained state |
| HistoryLog.LimitedUndos | src/use_rewindable_reducer.test.ts:42-62 | under limit L, at least L dispatches from a fresh engine keep exactly L past entries; at least L undos from there empty the past, leave exactly L future actions and states, and return to the oldest retained state |
| HistoryLog.RehydratedNothing | src/use_rewindable_reducer.test.ts:180-183 | rehydrating an empty saved history gives a fresh engine |
| HistoryLog.WalkStep | src/use_rewindable_reducer.test.ts:184-192 | the states recorded while replaying one more action are the old recorded states followed by the state the old actions reached |
| HistoryLog.RehydrateStep | src/use_rewindable_reducer.test.ts:184-192 | dispatching after rehydrating some actions equals rehydrating them with that action appended |
| HistoryLog.RehydratedInv | src/use_rewindable_reducer.test.ts:190-192 | a rehydrated engine satisfies the invariant for every saved history |
| HistoryLog.DispatchAllAfterRehydrated | src/use_rewindable_reducer.test.ts:184-192 | dispatching actions after rehydrating a history equals rehydrating the concatenation |
| HistoryLog.DispatchAllFromStart | src/use_rewindable_reducer.test.ts:175-193 | dispatching actions one by one on a fresh engine equals rehydrating them |
| HistoryLog.DispatchAllUnbounded | src/use_rewindable_reducer.test.ts:69-75 | without a limit, N dispatches keep all N actions, record their N before-states, reach the fold over the initial state and leave no future actions or states |
| HistoryLog.RehydratedShape | src/use_rewindable_reducer.test.ts:26-40 | replaying N actions reaches their fold whatever the limit, keeps the last min(N, limit) actions and the states they were applied to, and has no future |
| HistoryLog.ResumeRestores | src/use_rewindable_reducer.test.ts:175-193 | when nothing was evicted, rehydrating the past actions of an engine built by dispatching gives back exactly that engine's log |
| Rewindable.Store.constructor | src/use_rewindable_reducer.test.ts:176 | the store starts empty |
| Rewindable.Store.Save | src/use_rewindable_reducer.test.ts:177 | saving maps the key to the value and leaves other keys alone |
| Rewindable.Store.Retrieve | src/use_rewindable_reducer.test.ts:178 | retrieving gives the saved value, or nothing for an unknown key |
| Rewindable.Engine.constructor | src/use_rewindable_reducer.test.ts:190-192 | a new engine satisfies the invariant (without a limit, its retained past starts at the initial state) and its log is the rehydration of what the store holds under its key |
| Rewindable.Engine.Rehydrate | src/use_rewindable_reducer.test.ts:190-192 | the replay loop turns a fresh engine into the rehydration of the saved actions |
| Rewindable.Engine.Step | src/use_rewindable_reducer.test.ts:14-18 | the in-memory part of dispatch changes the log exactly as HistoryLog.Dispatch |
| Rewindable.Engine.Persist | src/use_rewindable_reducer.test.ts:177 | saving writes the current pastActions under the engine's key, or nothing without a binding |
| Rewindable.Engine.Dispatch | src/use_rewindable_reducer.test.ts:14-18 | the new state is the reducer applied to the old state and action; the log changes as HistoryLog.Dispatch; the future is empty; the invariant is kept; pastActions are saved |
| Rewindable.Engine.Undo | src/use_rewindable_reducer.test.ts:19-23 | the log changes as HistoryLog.Undo and the invariant is kept; pastActions are saved unless the past was empty |
| Rewindable.Engine.Redo | src/use_rewindable_reducer.test.ts:91-95 | the log changes as HistoryLog.Redo and the invariant is kept; pastActions are saved unless the future was empty |
| Rewindable.Engine.Reset | src/use_rewindable_reducer.test.ts:106-110 | from any valid configuration the engine is back to the initial state with empty logs; an empty past is saved unless it was already there |
| CounterScenarios.NewCounter | src/use_rewindable_reducer.test.ts:10 | a new counting engine without persistence starts at 0 with empty logs |
| CounterScenarios.CanUndoAfterOne | src/use_rewindable_reducer.test.ts:9-24 | observations (0, []), (1, [increment]), (0, []) |
| CounterScenarios.HistoryLimitsPastActions | src/use_rewindable_reducer.test.ts:26-40 | the engine starts at (0, []); ten dispatches under limit 5 give state 10 and five past actions and states |
| CounterScenarios.UndoIncrement | src/use_rewindable_reducer.test.ts:53-57 | undoing the last of a past made only of increments steps the count back by one and leaves only increments |
| CounterScenarios.UndoOneMore | src/use_rewindable_reducer.test.ts:53-57 | from a counter at 10 under limit 5, each further undo takes back one retained increment until none is left, growing the future by one each time |
| CounterScenarios.HistoryLimitsFutureActions | src/use_rewindable_reducer.test.ts:42-62 | the engine starts at (0, []); ten dispatches and then eight undos under limit 5 give state 5, an empty past and five future actions and states |
| CounterScenarios.UndoThreeRedoThreeThenReset | src/use_rewindable_reducer.test.ts:64-111 | the nine observations of three dispatches, three undos, three redos and a reset |
| CounterScenarios.UndoAtStart | src/use_rewindable_reducer.test.ts:113-123 | undo on a fresh engine leaves the fresh log |
| CounterScenarios.RedoAtStart | src/use_rewindable_reducer.test.ts:125-135 | redo on a fresh engine leaves the fresh log |
| CounterScenarios.ResetAtStart | src/use_rewindable_reducer.test.ts:137-146 | reset on a fresh engine leaves the fresh log |
| CounterScenarios.RedoAfterUndoAndDispatch | src/use_rewindable_reducer.test.ts:148-173 | observations (0, []), (1, [increment]), (0, []), (-1, [decrement]), (-1, [decrement]) |
| CounterScenarios.Resume | src/use_rewindable_reducer.test.ts:175-193 | a second engine on the same store and key observes (1, [increment]) after the first dispatched one increment |
| CounterScenarios.ResumeAfterUndo | src/use_rewindable_reducer.test.ts:175-193 | the resume test with two increments and an undo before the second engine is built: both engines observe (1, [increment]) |
| CounterScenarios.Quickstart | src/quickstart.test.tsx:28-57 | count and number of past states after each click: (0,0), (1,1), (0,2), (1,1), (0,2), (1,1), (0,0) |
| CounterScenarios.RehydratedIncrements | src/use_rewindable_reducer.test.ts:26-40 | replaying n increments from 0 reaches n under any limit and keeps only increments |
| CounterScenarios.ResumeAfterEviction | src/use_rewindable_reducer.test.ts:37-38 | ten increments under limit 5 reach 10 and keep five increments, whose replay from 0 reaches only 5 |

## Left out

- The engine's implementation file `src/use_rewindable_reducer.ts` is not part of this model. The operations are modelled from the test assertions.
- The React binding (`renderHook`, `act`, re-rendering) is not modelled. It is framework glue around the engine; each `act` block is a plain method call here.
- `src/quickstart.test.tsx` renders a page and clicks its buttons. Only the resulting count and number of past states are modelled (`CounterScenarios.Quickstart`), not the DOM.
- The string encoding of saved history is not modelled. The store keeps the action sequence itself, which is the exact round trip the persistence contract asks for.
- Exceptions thrown by the reducer or by save/retrieve are not modelled. Neither is a policy for malformed saved data. There is no code that states either.
- Counter.CountReducer: the count is a JavaScript `number`, a double; the model uses an unbounded `int`. The two agree while the count stays below 2^53 in magnitude. At or beyond it `count + 1` can equal `count` in the source, so there `CountFold` is not the program's behaviour.
- `countReducer`'s third branch (any other action leaves the count unchanged) is not modelled. It cannot be reached once the action type has exactly the two constructors `Increment` and `Decrement`, as its TypeScript type says.
- Concurrent use of one engine is not modelled; the engine is single-owner and synchronous.
