/** The engine's state as a value, the invariants it keeps, and the elementary state
    changes the engine's operations are built from, each proved to keep the invariant. */
module EngineState {
  import opened Users
  import opened Occupancy

  /** Number of channels in the pool. */
  const N := 5

  /** `range(5)`: the order in which a primary user scans the channels. */
  const AscendingScan: seq<int> := [0, 1, 2, 3, 4]

  /** A PU scan that met no empty channel in its first `pos` steps met channels `0` to
      `pos - 1`. */
  lemma AscendingScanVisitsInOrder(channels: seq<Option<UserId>>, pos: nat)
    requires |channels| == N && pos <= N
    requires forall q :: 0 <= q < pos ==> channels[AscendingScan[q]].Some?
    ensures forall j :: 0 <= j < pos ==> channels[j].Some?
  {
    forall j | 0 <= j < pos ensures channels[j].Some? {
      assert AscendingScan[j] == j;
    }
  }

  /** What `random.sample(range(5), 5)` may return: the five channel indices in some
      order. Five entries that cover all five indices hold each of them exactly once. */
  predicate IsSlotPermutation(order: seq<int>)
  {
    && |order| == N
    && (forall j :: 0 <= j < N ==> 0 <= order[j] < N)
    && (forall k :: 0 <= k < N ==> k in order)
  }

  /** If every channel a full scan visits is held, no channel is free. */
  lemma FullAfterFailedScan(channels: seq<Option<UserId>>, order: seq<int>)
    requires |channels| == N && IsSlotPermutation(order)
    requires forall q :: 0 <= q < |order| ==> channels[order[q]].Some?
    ensures None !in channels
  {
    forall i | 0 <= i < N ensures channels[i] != None {
      assert i in order;
      var q :| 0 <= q < |order| && order[q] == i;
    }
  }

  /** A channel that currently holds a secondary user (`user.startswith("SU")`). */
  predicate HoldsSU(slot: Option<UserId>)
  {
    slot.Some? && slot.value.cls == SU
  }

  /** Some channel is held by a secondary user. */
  predicate AnySU(channels: seq<Option<UserId>>)
  {
    exists i :: 0 <= i < |channels| && HoldsSU(channels[i])
  }

  /** `len(check_channel_availability())`: the number of empty channels. */
  function FreeCount(channels: seq<Option<UserId>>): (r: nat)
    ensures r <= |channels|
    ensures r > 0 <==> None in channels
  {
    if channels == [] then 0
    else (if channels[0] == None then 1 else 0) + FreeCount(channels[1..])
  }

  /** Filling an empty channel removes one free channel; vacating a held one adds one. */
  lemma {:induction false} FreeCountUpdate(channels: seq<Option<UserId>>, s: int, v: Option<UserId>)
    requires 0 <= s < |channels|
    ensures FreeCount(channels[s := v]) ==
      FreeCount(channels) - (if channels[s] == None then 1 else 0) + (if v == None then 1 else 0)
  {
    if s > 0 {
      FreeCountUpdate(channels[1..], s - 1, v);
      assert channels[s := v][1..] == channels[1..][s - 1 := v];
    }
  }

  lemma StillPresent<T>(s: seq<T>, i: int, v: T, x: T)
    requires 0 <= i < |s| && x in s && s[i] != x
    ensures x in s[i := v]
  {
    var k :| 0 <= k < |s| && s[k] == x;
    assert s[i := v][k] == x;
  }

  /** Overwriting position `i` with `v` changes the presence of no value other than
      `v` and the old `s[i]`. */
  lemma PresenceKept<T>(s: seq<T>, i: int, v: T, x: T)
    requires 0 <= i < |s| && s[i] != x && v != x
    ensures x in s[i := v] <==> x in s
  {
    if x in s {
      StillPresent(s, i, v, x);
    } else {
      var t := s[i := v];
      forall k | 0 <= k < |t| ensures t[k] != x {
        if k != i {
          assert s[k] in s;
        }
      }
    }
  }

  /** Overwriting a channel of a full list with a user keeps it full. */
  lemma StaysFull(channels: seq<Option<UserId>>, i: int, v: Option<UserId>)
    requires 0 <= i < |channels| && None !in channels && v.Some?
    ensures None !in channels[i := v]
  {
    var after := channels[i := v];
    forall k | 0 <= k < |after| ensures after[k] != None {
      if k != i {
        assert channels[k] in channels;
      }
    }
  }

  lemma NowPresent<T>(s: seq<T>, i: int, v: T)
    requires 0 <= i < |s|
    ensures v in s[i := v]
  {
    assert s[i := v][i] == v;
  }

  predicate NoDuplicates<T(==)>(q: seq<T>)
  {
    forall i, j :: 0 <= i < j < |q| ==> q[i] != q[j]
  }

  /** Everything `main.py` keeps at module level. */
  datatype Snapshot = Snapshot(
    channels: seq<Option<UserId>>,
    puCounter: nat,
    suCounter: nat,
    puQueue: seq<UserId>,
    suQueue: seq<UserId>,
    occupancy: seq<Entry>,
    fairnessHistory: seq<real>)
  {
    function Counter(c: UserClass): nat
    {
      if c == PU then puCounter else suCounter
    }

    /** `u` is an id already handed out: counters only grow, so it is never handed out again. */
    ghost predicate Minted(u: UserId)
    {
      1 <= u.seqNo <= Counter(u.cls)
    }
  }

  /** Every id the engine holds, including a user `pending` between a queue and a
      channel during the drain, has been minted. */
  ghost predicate AllMinted(s: Snapshot, pending: Option<UserId>)
  {
    && (forall i :: 0 <= i < |s.channels| && s.channels[i].Some? ==> s.Minted(s.channels[i].value))
    && (forall u :: u in s.puQueue ==> u.cls == PU && s.Minted(u))
    && (forall u :: u in s.suQueue ==> u.cls == SU && s.Minted(u))
    && (forall u :: u in Keys(s.occupancy) ==> s.Minted(u))
    && (pending.Some? ==> s.Minted(pending.value))
  }

  /** No id is in two places: two channels, a channel and a queue, or twice in a queue. */
  ghost predicate Placement(s: Snapshot, pending: Option<UserId>)
  {
    && (forall i, j :: 0 <= i < j < |s.channels| && s.channels[i].Some? ==> s.channels[i] != s.channels[j])
    && NoDuplicates(s.puQueue) && NoDuplicates(s.suQueue)
    && (forall u :: u in s.puQueue ==> Some(u) !in s.channels)
    && (forall u :: u in s.suQueue ==> Some(u) !in s.channels)
    && (pending.Some? ==>
          Some(pending.value) !in s.channels && pending.value !in s.puQueue && pending.value !in s.suQueue)
  }

  /** One occupancy entry per key, and each key is on a channel or in the SU queue
      (an evicted SU keeps its entry), or pending. Keys need not be on a channel:
      the occupancy keys are NOT the channel contents. */
  ghost predicate Tracking(s: Snapshot, pending: Option<UserId>)
  {
    && DistinctKeys(s.occupancy)
    && (forall u :: u in Keys(s.occupancy) ==> Some(u) in s.channels || u in s.suQueue || Some(u) == pending)
  }

  ghost predicate HistoryInRange(h: seq<real>)
  {
    forall i :: 0 <= i < |h| ==> 0.0 <= h[i] <= 1.0
  }

  /** The invariant kept within an operation. */
  ghost predicate Coherent(s: Snapshot, pending: Option<UserId>)
  {
    && |s.channels| == N
    && AllMinted(s, pending)
    && Placement(s, pending)
    && Tracking(s, pending)
    && HistoryInRange(s.fairnessHistory)
  }

  /** The invariant between operations: also, nobody waits while a channel is free. */
  ghost predicate Settled(s: Snapshot)
  {
    Coherent(s, None) && (s.puQueue != [] || s.suQueue != [] ==> FreeCount(s.channels) == 0)
  }

  /** Under the invariant, a user on no channel and not in the SU queue has no occupancy
      entry. */
  lemma UntrackedWhenAbsent(s: Snapshot, u: UserId)
    requires Coherent(s, None) && Some(u) !in s.channels && u !in s.suQueue
    ensures u !in Keys(s.occupancy)
  {
  }

  /** `user_counter[cls] += 1`. */
  function Mint(s: Snapshot, cls: UserClass): (t: Snapshot)
    ensures t.Counter(cls) == s.Counter(cls) + 1
  {
    if cls == PU then s.(puCounter := s.puCounter + 1) else s.(suCounter := s.suCounter + 1)
  }

  /** A freshly minted id is nowhere yet: it can be placed like a user taken off a queue. */
  lemma MintIsFresh(s: Snapshot, cls: UserClass)
    requires Coherent(s, None)
    ensures Coherent(Mint(s, cls), Some(UserId(cls, s.Counter(cls) + 1)))
    ensures UserId(cls, s.Counter(cls) + 1) !in Keys(s.occupancy)
  {
    var t, id := Mint(s, cls), UserId(cls, s.Counter(cls) + 1);
    assert forall u :: s.Minted(u) ==> t.Minted(u) && u != id;
    assert Some(id) !in s.channels;
  }

  /** `channels[i] = user_id` after `occupancy_times[user_id] = 0`, for the pending user
      and an empty channel. */
  function Place(s: Snapshot, slot: int, id: UserId): Snapshot
    requires 0 <= slot < |s.channels|
  {
    s.(channels := s.channels[slot := Some(id)], occupancy := Put(s.occupancy, id, 0))
  }

  lemma PlaceKeepsCoherent(s: Snapshot, slot: int, id: UserId)
    requires Coherent(s, Some(id)) && 0 <= slot < N && s.channels[slot] == None
    ensures Coherent(Place(s, slot, id), None)
  {
    PlaceKeepsPlacement(s, slot, id);
    PlaceKeepsTracking(s, slot, id);
  }

  lemma PlaceKeepsPlacement(s: Snapshot, slot: int, id: UserId)
    requires |s.channels| == N && Placement(s, Some(id)) && 0 <= slot < N && s.channels[slot] == None
    ensures Placement(Place(s, slot, id), None)
  {
    var t := Place(s, slot, id);
    forall u | u in s.puQueue || u in s.suQueue ensures Some(u) !in t.channels {
      forall k | 0 <= k < |t.channels| ensures t.channels[k] != Some(u) {
        if k != slot {
          assert t.channels[k] == s.channels[k];
          assert s.channels[k] in s.channels;
        }
      }
    }
    forall i, j | 0 <= i < j < |t.channels| && t.channels[i].Some? ensures t.channels[i] != t.channels[j] {
      if i == slot {
        assert s.channels[j] in s.channels;
      } else if j == slot {
        assert s.channels[i] in s.channels;
      }
    }
  }

  lemma PlaceKeepsTracking(s: Snapshot, slot: int, id: UserId)
    requires |s.channels| == N && Tracking(s, Some(id)) && 0 <= slot < N && s.channels[slot] == None
    ensures Tracking(Place(s, slot, id), None)
  {
    var t := Place(s, slot, id);
    PutSpec(s.occupancy, id, 0);
    PutKeepsKeysDistinct(s.occupancy, id, 0);
    NowPresent(s.channels, slot, Some(id));
    forall x | x in s.channels && x.Some? ensures x in t.channels {
      StillPresent(s.channels, slot, Some(id), x);
    }
  }

  /** `channels[channel_index] = f"PU{...}"` of a preempting primary user: it takes the
      channel without an occupancy entry. */
  function Seat(s: Snapshot, slot: int, id: UserId): Snapshot
    requires 0 <= slot < |s.channels|
  {
    s.(channels := s.channels[slot := Some(id)])
  }

  lemma SeatKeepsCoherent(s: Snapshot, slot: int, id: UserId)
    requires Coherent(s, Some(id)) && id !in Keys(s.occupancy)
    requires 0 <= slot < N && s.channels[slot] == None
    ensures Coherent(Seat(s, slot, id), None)
  {
    var t := Seat(s, slot, id);
    PlaceKeepsPlacement(s, slot, id);
    assert Placement(t, None) by {
      assert t.channels == Place(s, slot, id).channels;
    }
    forall x | x in s.channels && x.Some? ensures x in t.channels {
      StillPresent(s.channels, slot, Some(id), x);
    }
  }

  /** `update_occupancy_times()`. */
  function Tick(s: Snapshot): Snapshot
  {
    s.(occupancy := Ticked(s.occupancy, s.channels))
  }

  lemma TickKeepsCoherent(s: Snapshot, pending: Option<UserId>)
    requires Coherent(s, pending)
    ensures Coherent(Tick(s), pending)
  {
    TickedSpec(s.occupancy, s.channels);
  }

  /** `fairness_history.append(f)`. */
  function Record(s: Snapshot, f: real): Snapshot
  {
    s.(fairnessHistory := s.fairnessHistory + [f])
  }

  lemma RecordKeepsCoherent(s: Snapshot, f: real)
    requires Coherent(s, None) && 0.0 <= f <= 1.0
    ensures Coherent(Record(s, f), None)
  {
  }

  /** `su_queue.append(user); channels[i] = None` of `reassign_su_for_pu`. */
  function Evict(s: Snapshot, i: int): Snapshot
    requires 0 <= i < |s.channels| && HoldsSU(s.channels[i])
  {
    s.(channels := s.channels[i := None], suQueue := s.suQueue + [s.channels[i].value])
  }

  lemma EvictKeepsCoherent(s: Snapshot, i: int)
    requires Coherent(s, None) && 0 <= i < N && HoldsSU(s.channels[i])
    ensures Coherent(Evict(s, i), None)
  {
    var t, su := Evict(s, i), s.channels[i].value;
    assert su !in s.suQueue;
    forall x | x in s.channels && x.Some? && x != Some(su) ensures x in t.channels {
      StillPresent(s.channels, i, None, x);
    }
    forall u | u in t.suQueue || u in t.puQueue ensures Some(u) !in t.channels {
      forall k | 0 <= k < |t.channels| ensures t.channels[k] != Some(u) {
        if k != i {
          assert t.channels[k] == s.channels[k];
          assert s.channels[k] in s.channels;
          if u == su {
            assert s.channels[k] != s.channels[i];
          }
        }
      }
    }
    assert Placement(t, None);
  }

  /** `popleft()` of the PU (`fromPu`) or SU queue: the head becomes pending. */
  function Dequeue(s: Snapshot, fromPu: bool): Snapshot
    requires if fromPu then s.puQueue != [] else s.suQueue != []
  {
    if fromPu then s.(puQueue := s.puQueue[1..]) else s.(suQueue := s.suQueue[1..])
  }

  lemma DequeueKeepsCoherent(s: Snapshot, fromPu: bool)
    requires Coherent(s, None)
    requires if fromPu then s.puQueue != [] else s.suQueue != []
    ensures Coherent(Dequeue(s, fromPu), Some(if fromPu then s.puQueue[0] else s.suQueue[0]))
  {
    var q := if fromPu then s.puQueue else s.suQueue;
    var t := Dequeue(s, fromPu);
    assert q == [q[0]] + q[1..];
    forall k | 0 <= k < |q[1..]| ensures q[1..][k] != q[0] {
      assert q[1..][k] == q[k + 1];
    }
  }

  /** `pu_queue.append(user_id)` or `su_queue.append(user_id)` for a pending user. */
  function Enqueue(s: Snapshot, id: UserId): Snapshot
  {
    if id.cls == PU then s.(puQueue := s.puQueue + [id]) else s.(suQueue := s.suQueue + [id])
  }

  lemma EnqueueKeepsCoherent(s: Snapshot, id: UserId)
    requires Coherent(s, Some(id)) && id !in Keys(s.occupancy)
    ensures Coherent(Enqueue(s, id), None)
  {
  }

  /** `channels[i] = None; occupancy_times.pop(user_id, None)` of `remove_user`. */
  function Vacate(s: Snapshot, i: int): Snapshot
    requires 0 <= i < |s.channels| && s.channels[i].Some?
  {
    s.(channels := s.channels[i := None], occupancy := Pop(s.occupancy, s.channels[i].value))
  }

  lemma VacateKeepsCoherent(s: Snapshot, i: int)
    requires Coherent(s, None) && 0 <= i < N && s.channels[i].Some?
    ensures Coherent(Vacate(s, i), None)
    ensures Some(s.channels[i].value) !in Vacate(s, i).channels
  {
    var t, id := Vacate(s, i), s.channels[i].value;
    PopSpec(s.occupancy, id);
    forall x | x in s.channels && x.Some? && x != Some(id) ensures x in t.channels {
      StillPresent(s.channels, i, None, x);
    }
    forall k | 0 <= k < |t.channels| ensures t.channels[k] != Some(id) {
      if k != i {
        assert s.channels[k] != s.channels[i];
      }
    }
    forall u | u in t.suQueue || u in t.puQueue ensures Some(u) !in t.channels {
      forall k | 0 <= k < |t.channels| ensures t.channels[k] != Some(u) {
        if k != i {
          assert t.channels[k] == s.channels[k];
          assert s.channels[k] in s.channels;
        }
      }
    }
    assert Placement(t, None);
  }
}
