# Spectrum-sharing channel allocation, modelled in Dafny

`main.py` implements a non-cooperative spectrum-sharing engine. A pool of five
channels is shared between primary users (PU, privileged) and secondary users (SU,
opportunistic). All state is module-level and changed in place:
- the channel list;
- one id counter per class;
- a FIFO wait queue per class;
- the occupancy table, from user id to seconds held;
- the history of Jain's fairness index.

An arriving user takes the first empty channel:
- a PU scans the channels in ascending order;
- an SU scans them in a random permutation.

When no channel is empty, a PU evicts the SU on the lowest channel an SU holds. That SU
goes to the tail of the SU queue. A user who finds no channel and cannot preempt is
queued. A departing user frees its channel, the queues are drained into the empty
channels (PUs first), and then occupancy is ticked and the fairness recorded.

The project is split by concern:
- `users.dfy`: user ids (`UserId(cls, seqNo)` stands for the string `PU3`) and `Option`.
- `fairness.dfy`: Jain's index over exact rationals and its bounds.
- `occupancy.dfy`: the occupancy dict as an insertion-ordered sequence of entries.
- `state.dfy`: the engine's state as a value (`Snapshot`) and the invariant it keeps.
  - `Coherent` is the invariant within an operation: every id was minted, no id is in
    two places, and every occupancy key is on a channel or in the SU queue.
  - `Settled` adds the invariant between operations: nobody waits while a channel is
    free.
  - It also holds the elementary state changes, each proved to keep the invariant.
- `operations.dfy`: channel assignment, SU preemption, queueing, arrival and one pass
  of the drain, as functions on `Snapshot` with the lemmas stating what each promises.
- `drain.dfy`: the queue drain as a relation `DrainedBy` between the state before and
  after serving `d` users.
- `departures.dfy`: `remove_user` and what it promises.
- `engine.dfy`: the class `Engine`.
  - Its fields are the module-level state; the channels are an `array`.
  - One method per function of `main.py`, each updating the fields in place.
  - Each method is proved equal to the operation function it is named after. The drain
    is proved to satisfy the `Drained` relation, and to be a sequence of `Serve` passes.

The code is modelled as written, where it departs from the design it describes:
- A PU that preempts an SU (main.py:114-115) takes the channel with no occupancy
  entry, no tick and no fairness value. It is therefore never counted in the fairness
  and cannot later be removed ("not found").
- The evicted SU keeps its occupancy entry (main.py:80-81). When it is served again,
  its time is reset to 0 in place.
- Occupancy keys are thus not the channel contents. The invariant proved is weaker:
  every key is on a channel or in the SU queue.
- `remove_user` needs the id both in the occupancy table and on a channel.

## Model

| member | source | states |
|---|---|---|
| Fairness.JainsIndex | main.py:15-22 | Jain's index (Σx)²/(n·Σx²), 0 for no users or zero sum of squares, always within [0, 1] |
| Fairness.JainsIndexIsZero | main.py:15-22 | for non-negative shares the index is 0 exactly when there are no users or every share is 0 |
| Fairness.JainsIndexOfEqualShares | main.py:15-22 | equal positive shares give index 1 |
| Fairness.JainsIndexOfSingleShare | main.py:15-22 | a single positive share among n gives index 1/n |
| Fairness.JainsIndexAtLeastOneShare | main.py:15-22 | non-negative shares, not all zero, give an index of at least 1/n |
| Fairness.CauchySchwarz | main.py:20-22 | (Σx)² ≤ n·Σx², which keeps the index at most 1 |
| Occupancy.LookupSpec | main.py:11 | a key has a value exactly when it is in the table, and the value is its entry's |
| Occupancy.PutSpec | main.py:57 | storing adds the key; a new key is appended last; storing an existing key keeps the table's length |
| Occupancy.PutInPlace | main.py:57 | storing an existing key overwrites its entry where it stands, so no entry moves |
| Occupancy.PutKeepsKeysDistinct | main.py:57 | storing never creates a second entry for a key |
| Occupancy.LookupPut | main.py:57 | after storing, the key maps to the new value and every other key is unchanged |
| Occupancy.PopSpec | main.py:159 | popping a missing key changes nothing; popping a present key removes exactly it and keeps keys distinct |
| Occupancy.LookupPop | main.py:159 | after popping, the key is missing and every other key is unchanged |
| Occupancy.TickedSpec | main.py:25-28 | a tick keeps every entry in place under its key, adds 1 to users on a channel and leaves the others |
| Occupancy.LookupTicked | main.py:25-28 | a tick changes no key and adds exactly 1 second to each key held on a channel |
| EngineState.FreeCount | main.py:40-41 | the number of empty channels; positive exactly when some channel is empty |
| EngineState.FreeCountUpdate | main.py:58 | filling an empty channel removes one free channel; vacating a held one adds one |
| EngineState.FullAfterFailedScan | main.py:36-37 | a scan over a permutation of the five indices that meets no empty channel proves every channel occupied |
| EngineState.MintIsFresh | main.py:53-54 | a freshly minted id is nowhere in the engine, since counters only grow |
| EngineState.PlaceKeepsCoherent | main.py:57-58 | placing a pending user on an empty channel keeps the invariant |
| EngineState.SeatKeepsCoherent | main.py:115 | seating an untracked fresh PU keeps the invariant |
| EngineState.TickKeepsCoherent | main.py:25-28 | a tick keeps the invariant |
| EngineState.RecordKeepsCoherent | main.py:63 | appending a fairness value in [0, 1] keeps the invariant |
| EngineState.EvictKeepsCoherent | main.py:80-81 | moving an SU from its channel to the SU queue keeps the invariant, even though its entry stays |
| EngineState.DequeueKeepsCoherent | main.py:135 | taking the head of a queue makes it the one pending user, in no other place |
| EngineState.EnqueueKeepsCoherent | main.py:89-94 | queueing a fresh untracked user keeps the invariant |
| EngineState.VacateKeepsCoherent | main.py:158-159 | vacating a channel and popping its user's entry keeps the invariant and removes the user from every channel |
| EngineState.UntrackedWhenAbsent | main.py:80-81 | a user on no channel and not in the SU queue has no occupancy entry |
| Operations.FairnessOf | main.py:31-33 | the fairness of the occupancy values is within [0, 1] and is 0 with nobody tracked |
| Operations.FirstEmptySpec | main.py:50-51 | the scan passes only occupied channels before it stops |
| Operations.FirstEmptyIsFirst | main.py:50-51 | the first position whose channel is empty, or the end, is where the scan stops |
| Operations.ChooseSpec | main.py:44-51 | a channel is chosen exactly when one is empty; a PU gets the lowest empty channel, an SU the first empty one of its permutation |
| Operations.TakeSpec | main.py:56-63 | the user takes the channel and is tracked with 1 second; one fairness value of the new state is appended; queues and counters are untouched |
| Operations.TakeTicksOthers | main.py:59 | every other tracked user gains a second when on a channel and keeps its time otherwise |
| Operations.AssignSpec | main.py:44-73 | success exactly when a channel is empty. On success exactly one channel changes, to the supplied or next id; that user is at 1 second; one fairness value is appended; the counter grows only when no id was supplied. On failure nothing changes |
| Operations.AssignKeepsCoherent | main.py:44-73 | a successful assignment of a pending or fresh user keeps the invariant |
| Operations.FirstSUSpec | main.py:77-78 | the scan finds a channel exactly when an SU holds one, and finds the lowest |
| Operations.FirstSUIsFirst | main.py:77-78 | the first index held by an SU, or the end, is what the scan returns |
| Operations.ReassignSpec | main.py:76-83 | a channel is freed exactly when an SU holds one: the lowest; its SU joins the tail of the SU queue; nothing else changes |
| Operations.ReassignKeepsCoherent | main.py:76-83 | eviction keeps the invariant |
| Operations.QueueUp | main.py:86-94 | a user with the next id of its class joins only its class's queue; that counter grows by 1 and the other is unchanged; channels, occupancy and history are untouched |
| Operations.QueueUpKeepsCoherent | main.py:86-94 | queueing keeps the invariant |
| Operations.ArriveSpec | main.py:105-124 | the arriving user gets the next id of its class. Placed exactly when a channel is empty. A PU preempts exactly when every channel is held and some SU holds one: it takes the lowest SU channel, the SU joins the SU queue, occupancy and history are untouched. Otherwise it is queued |
| Operations.ArriveKeepsSettled | main.py:105-124 | an arrival keeps the between-operations invariant; a preempting PU has no occupancy entry |
| Operations.PreemptKeepsSettled | main.py:112-116 | eviction followed by seating the fresh PU keeps the between-operations invariant and leaves the PU untracked |
| Operations.PreemptKeepsCoherent | main.py:114-115 | seating the fresh PU on the freed channel keeps the invariant and leaves the PU untracked |
| Operations.PlacedKeepsSettled | main.py:105-122 | a successful arrival keeps the between-operations invariant |
| Operations.QueueUpKeepsSettled | main.py:117-124 | queueing when every channel is held keeps the between-operations invariant |
| Operations.ServeSpec | main.py:134-143 | a pass serves somebody exactly when a user is queued and a channel is empty; it serves the head of the PU queue, else of the SU queue; with empty queues nothing changes; a user dequeued with no empty channel is dropped |
| Operations.ServeDrainsOne | main.py:133-144 | a pass with a queued user and an empty channel serves exactly the next queued user onto a formerly empty channel |
| Operations.ServeKeepsCoherent | main.py:133-144 | such a pass keeps the invariant |
| Operations.ServeCounts | main.py:133-144 | such a pass leaves one user fewer queued and one channel fewer empty |
| QueueDrain.DrawStep | main.py:134-140 | the user served next is the next of PU queue then SU queue, taken from the PU queue while it is non-empty |
| QueueDrain.DrawnFromDetermines | main.py:134-140 | after d users served, the queues left are exactly what follows the first d users, PU queue first |
| QueueDrain.DrainedByCompose | main.py:133-144 | serving d1 users and then d2 more is serving the first d1 + d2 |
| QueueDrain.OutsiderStaysOut | main.py:133-144 | a user neither on a channel nor queued is not on a channel after the drain |
| Departures.ServeKeepsDrainEnds | main.py:133-144 | while a user is queued and a channel is empty, a pass removes one free channel and one queued user, and the loop keeps its termination condition |
| Operations.ServeAssigns | main.py:134-143 | a pass with a queued user and an empty channel gives the head of the queues the channel `Choose` picks. That user is tracked with 1 second, the queues lose their head, and the fairness of the new state is appended |
| Departures.ServedInTurnExtend | main.py:133-144 | one more pass of the loop, serving with the next scan order, extends the trace of passes |
| Departures.DrainProgressStart | main.py:128-133 | before the first pass, with users waiting and the loop bound to end, the drain invariant holds with no user served |
| Departures.DrainPassKeepsProgress | main.py:133-144 | a pass made while a channel is empty keeps the drain invariant: one more user served, one channel fewer empty, the trace one pass longer, and the invariant kept |
| Departures.DrainProgressDone | main.py:133-144 | once no channel is empty the drain is complete: `Drained` holds, with one pass per channel empty at the start |
| Departures.FindSpec | main.py:151-154 | the search finds a channel exactly when the user holds one, and finds the lowest |
| Departures.FindIsFirst | main.py:151-154 | the first index holding the user, or the end, is what the search returns |
| Departures.LeaveSpec | main.py:147-159 | a departure happens exactly when the user is tracked and on a channel. It then vacates that lowest channel and drops the user's entry, and everything else is unchanged; otherwise nothing changes |
| Departures.LeaveKeepsCoherent | main.py:147-159 | a departure keeps the invariant and the drain after it ends; with users waiting, the freed channel is the only empty one |
| Departures.ConcludeSpec | main.py:163-167 | only occupancy and history change: each tracked user on a channel gains a second, and the fairness of the result is appended |
| Departures.RemoveAfterDrain | main.py:147-173 | after a departure, any drain that satisfies `Drained` and then the tick and the record take the user off every channel and out of the table. Every changed channel went to a queued user. The history grows by one per drained user plus one, after the old entries. The engine is settled again |
| Departures.RemoveSettles | main.py:147-173 | `Remove` takes the user off every channel and out of the table for good, and leaves the engine settled |
| Departures.RemoveWithNobodyWaiting | main.py:156-167 | with empty queues the freed channel stays empty and only the fairness of the final state is appended |
| Departures.RemoveServesHead | main.py:156-167 | with users waiting, the head of the queues (PUs first) takes exactly the freed channel and ends with 2 seconds (assignment tick plus removal tick). The queues lose their head, and the fairness after the assignment and then that of the final state are appended |
| Departures.ServedUserTakesFreedChannel | main.py:161 | the user served after a departure takes the freed channel, the only empty one, with 1 second, and the fairness of that state is appended |
| Departures.ServeOnOnlyEmpty | main.py:134-143 | when one channel of an otherwise full list is empty, a pass puts the head of the queues on it |
| Departures.RemoveSpec | main.py:147-173 | on a settled engine a removal takes the user off for good. With nobody waiting the freed channel stays empty and one fairness value is appended. Otherwise the head of the queues takes that channel with 2 seconds, and the two fairness values (after the assignment, after the removal) are appended in order. The engine is settled again |
| Allocation.Engine.constructor | main.py:7-12 | five empty channels, zero counters, empty queues, table and history |
| Allocation.Engine.UpdateOccupancyTimes | main.py:25-28 | the loop leaves the state as `Tick` of the old state, and a tick between operations keeps the between-operations invariant |
| Allocation.Engine.RecordFairness | main.py:62-63 | appends the fairness of the current state |
| Allocation.Engine.FirstEmptyIn | main.py:50-51 | the scan loop stops where `FirstEmpty` says |
| Allocation.Engine.ChooseSlot | main.py:44-51 | the channel picked is `Choose`'s |
| Allocation.Engine.MintId | main.py:53-54 | the counter of the class grows by 1 and the id is the new counter value |
| Allocation.Engine.TakeChannel | main.py:56-63 | the new state is `Take` of the old |
| Allocation.Engine.AssignChannel | main.py:44-73 | state and result are those of `Assign` |
| Allocation.Engine.ReassignSuForPu | main.py:76-83 | the scan loop and eviction give `Reassign`'s state and result |
| Allocation.Engine.QueueUser | main.py:86-94 | state and id are those of `QueueUp` |
| Allocation.Engine.SeatPreemptor | main.py:114-115 | the fresh PU takes the freed channel as `Preempt` says |
| Allocation.Engine.SimulateUserArrival | main.py:105-124 | state and outcome are those of `Arrive`, and the engine stays settled |
| Allocation.Engine.ServeNext | main.py:134-143 | one loop pass gives `Serve`'s state and result |
| Allocation.Engine.ProcessUserQueue | main.py:127-144 | with both queues empty nothing changes. Otherwise exactly as many users as there were empty channels are served, in queue order, PUs first, each onto a formerly empty channel. No channel is left empty, nobody else moves, one fairness value is appended per user, and the invariant is kept. The ghost trace `passes` shows each pass is exactly `Serve` with the next scan order, which fixes the occupancy and each fairness value appended |
| Allocation.Engine.Locate | main.py:151-154 | the search loop returns `Find`'s channel |
| Allocation.Engine.VacateChannel | main.py:158-159 | the new state is `Vacate` of the old |
| Allocation.Engine.RemoveUser | main.py:147-173 | the result is `Leave`'s and the new state is exactly `Remove` of the old, with the first scan order. A missing user changes nothing; the engine stays settled |

## Left out

- Plotting (`plot_spectrum_usage`, `plot_fairness_history`, main.py:176-210) is presentation only.
- Console output (`display_occupancy_per_user`, `print_current_users`, `print_queue` and every `print` in the engine) has no effect on state.
- The interactive loop `add_or_remove_users` (main.py:227-278) is not modelled: wall-clock polling and `input()` parsing. A tick is an explicit call to `UpdateOccupancyTimes`, and `RemoveUser` takes a `UserId`, not a string.
- `random_su_channel_check` (main.py:36-37) becomes a parameter constrained to be a permutation of the five indices. Every property holds for every permutation. `process_user_queue` takes one permutation per pass.
- Jain's index is computed over exact rationals rather than Python floats (main.py:22), so rounding is not modelled.
- User ids are pairs of class and sequence number rather than strings. `user.startswith("SU")` becomes a test of the class.
- Allocation.Engine.ProcessUserQueue: requires `DrainEnds`, that the queues are empty or hold at least as many users as there are empty channels. Otherwise the loop of main.py:133-144 never ends. The between-operations invariant guarantees it when called from `RemoveUser`.
- Departures.Remove: describes the drain inside `remove_user` as at most one pass. That is only what the loop does from a settled engine, which is what `RemoveUser` requires; `ProcessUserQueue` on its own is specified for any number of passes.
