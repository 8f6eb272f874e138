/** `remove_user` and the drain of `process_user_queue` around it: a departure vacates
    a channel, the waiting queues are drained into the empty channels, and everybody on
    a channel is ticked before the fairness is recorded. */
module Departures {
  import opened Users
  import opened Occupancy
  import opened EngineState
  import opened QueueDrain
  import opened Operations

  /** A scan order for every pass of the drain loop, as `random.sample(range(5), 5)`
      may draw them. */
  predicate SlotPermutations(orders: seq<seq<int>>)
  {
    forall d :: 0 <= d < |orders| ==> IsSlotPermutation(orders[d])
  }

  /** Enough scan orders for a whole drain, which makes at most `N` passes. */
  predicate ScanOrders(orders: seq<seq<int>>)
  {
    |orders| >= N && SlotPermutations(orders)
  }

  /** The loop of `process_user_queue` only ends once no channel is empty: it ends when
      the queues are empty on entry (nothing happens) or hold at least as many users as
      there are empty channels. */
  predicate DrainEnds(s: Snapshot)
  {
    s.puQueue + s.suQueue == [] || FreeCount(s.channels) <= |s.puQueue| + |s.suQueue|
  }

  /** What `process_user_queue` makes of `s`: nothing when both queues are empty;
      otherwise one user served per empty channel, so that no channel is left empty. */
  predicate Drained(s: Snapshot, t: Snapshot)
  {
    if s.puQueue + s.suQueue == [] then t == s
    else FreeCount(t.channels) == 0 && DrainedBy(s, t, FreeCount(s.channels))
  }

  /** While a user is queued and a channel is empty, a pass of the loop serves one user;
      the loop keeps going exactly as long as `DrainEnds` keeps holding. */
  lemma ServeKeepsDrainEnds(s: Snapshot, order: seq<int>)
    requires |s.channels| == N && IsSlotPermutation(order)
    requires None in s.channels && DrainEnds(s) && s.puQueue + s.suQueue != []
    ensures DrainEnds(Serve(s, order).0)
    ensures FreeCount(Serve(s, order).0.channels) + 1 == FreeCount(s.channels)
    ensures |Serve(s, order).0.puQueue| + |Serve(s, order).0.suQueue| + 1 == |s.puQueue| + |s.suQueue|
  {
    ServeCounts(s, order);
  }

  /** The passes of the drain loop one by one: pass `k` turns `trace[k]` into
      `trace[k + 1]` by serving the next queued user with the scan order `orders[k]`. */
  ghost predicate ServedInTurn(orders: seq<seq<int>>, trace: seq<Snapshot>)
  {
    && 0 < |trace| <= |orders| + 1
    && forall k :: 0 <= k < |trace| - 1 ==>
         && |trace[k].channels| == N && IsSlotPermutation(orders[k])
         && trace[k + 1] == Serve(trace[k], orders[k]).0
  }

  /** One more pass extends the trace. */
  lemma ServedInTurnExtend(orders: seq<seq<int>>, trace: seq<Snapshot>, next: Snapshot)
    requires ServedInTurn(orders, trace) && |trace| <= |orders|
    requires |trace[|trace| - 1].channels| == N && IsSlotPermutation(orders[|trace| - 1])
    requires next == Serve(trace[|trace| - 1], orders[|trace| - 1]).0
    ensures ServedInTurn(orders, trace + [next])
  {
    var t := trace + [next];
    forall k | 0 <= k < |t| - 1
      ensures |t[k].channels| == N && IsSlotPermutation(orders[k]) && t[k + 1] == Serve(t[k], orders[k]).0
    {
      assert t[k] == trace[k];
    }
  }

  /** Where the drain loop stands after `d` passes from `start`, with the states seen so
      far in `passes`: the invariant holds, `d` users were served one per pass, and the
      users still queued are at least as many as the empty channels left. */
  ghost predicate DrainProgress(orders: seq<seq<int>>, start: Snapshot, t: Snapshot, d: nat, passes: seq<Snapshot>)
  {
    && Coherent(t, None)
    && d + FreeCount(t.channels) == FreeCount(start.channels)
    && DrainedBy(start, t, d)
    && FreeCount(t.channels) <= |t.puQueue| + |t.suQueue|
    && |passes| == d + 1 && passes[0] == start && passes[d] == t
    && ServedInTurn(orders, passes)
  }

  /** A drain that has not started yet, from a state with users waiting. */
  lemma DrainProgressStart(orders: seq<seq<int>>, s: Snapshot)
    requires Coherent(s, None) && DrainEnds(s) && s.puQueue + s.suQueue != []
    ensures DrainProgress(orders, s, s, 0, [s])
  {
    DrainedByNothing(s);
  }

  /** A pass of the loop, made while a channel is empty, keeps `DrainProgress`. */
  lemma DrainPassKeepsProgress(orders: seq<seq<int>>, start: Snapshot, t: Snapshot, d: nat, passes: seq<Snapshot>)
    requires ScanOrders(orders) && |start.channels| == N
    requires DrainProgress(orders, start, t, d, passes) && FreeCount(t.channels) > 0
    ensures d < |orders|
    ensures var next := Serve(t, orders[d]).0;
      DrainProgress(orders, start, next, d + 1, passes + [next])
  {
    assert d < N <= |orders|;
    var next := Serve(t, orders[d]).0;
    ServeKeepsDrainEnds(t, orders[d]);
    ServeDrainsOne(t, orders[d]);
    ServeKeepsCoherent(t, orders[d]);
    DrainedByCompose(start, t, next, d, 1);
    ServedInTurnExtend(orders, passes, next);
  }

  /** A drain that has left no channel empty is complete: `Drained`, with one pass per
      channel that was empty at the start. */
  lemma DrainProgressDone(orders: seq<seq<int>>, start: Snapshot, t: Snapshot, d: nat, passes: seq<Snapshot>)
    requires DrainProgress(orders, start, t, d, passes) && FreeCount(t.channels) == 0
    requires start.puQueue + start.suQueue != []
    ensures Coherent(t, None) && Drained(start, t)
    ensures ServedInTurn(orders, passes) && passes[0] == start && passes[|passes| - 1] == t
    ensures |passes| == 1 + FreeCount(start.channels)
  {
  }

  /** The search of `remove_user`: the lowest index of a channel holding `id`. */
  function Find(channels: seq<Option<UserId>>, id: UserId): (r: Option<nat>)
    ensures r.Some? ==> r.value < |channels| && channels[r.value] == Some(id)
  {
    if channels == [] then None
    else if channels[0] == Some(id) then Some(0)
    else
      var rest := Find(channels[1..], id);
      if rest.None? then None else Some(rest.value + 1)
  }

  /** The search finds a channel exactly when `id` holds one, and finds the lowest. */
  lemma {:induction false} FindSpec(channels: seq<Option<UserId>>, id: UserId)
    ensures Find(channels, id).None? <==> Some(id) !in channels
    ensures Find(channels, id).Some? ==> forall j :: 0 <= j < Find(channels, id).value ==> channels[j] != Some(id)
  {
    if channels != [] && channels[0] != Some(id) {
      var rest := channels[1..];
      FindSpec(rest, id);
      assert forall j :: 1 <= j < |channels| ==> channels[j] == rest[j - 1];
      if Some(id) in channels {
        var i :| 0 <= i < |channels| && channels[i] == Some(id);
        assert rest[i - 1] == Some(id);
      }
    }
  }

  /** An index before which no channel holds `id` and at which one does (or the end of
      `channels`) is what `Find` finds. */
  lemma {:induction false} FindIsFirst(channels: seq<Option<UserId>>, id: UserId, i: nat)
    requires i <= |channels| && forall j :: 0 <= j < i ==> channels[j] != Some(id)
    requires i < |channels| ==> channels[i] == Some(id)
    ensures Find(channels, id) == if i == |channels| then None else Some(i)
  {
    if i > 0 {
      var rest := channels[1..];
      assert forall j :: 0 <= j < i - 1 ==> rest[j] == channels[j + 1];
      FindIsFirst(rest, id, i - 1);
    }
  }

  /** The first half of `remove_user(id)`: a user in the occupancy table and on a channel
      leaves the lowest channel holding it and loses its entry; anybody else changes
      nothing. */
  function Leave(s: Snapshot, id: UserId): (r: (Snapshot, Option<nat>))
    ensures r.1.Some? ==> r.1.value < |s.channels|
    ensures |r.0.channels| == |s.channels|
  {
    if id !in Keys(s.occupancy) then (s, None)
    else
      var i := Find(s.channels, id);
      if i.None? then (s, None) else (Vacate(s, i.value), i)
  }

  /** A departure happens exactly when the user is tracked and holds a channel: the user
      leaves the lowest channel it holds and the occupancy table, and nothing else
      changes. */
  lemma LeaveSpec(s: Snapshot, id: UserId)
    requires Coherent(s, None)
    ensures var r := Leave(s, id);
      && (r.1.None? <==> id !in Keys(s.occupancy) || Some(id) !in s.channels)
      && (r.1.None? ==> r.0 == s)
      && (r.1.Some? ==>
        && s.channels[r.1.value] == Some(id)
        && (forall j :: 0 <= j < r.1.value ==> s.channels[j] != Some(id))
        && r.0.channels == s.channels[r.1.value := None]
        && Some(id) !in r.0.channels
        && Keys(r.0.occupancy) == Keys(s.occupancy) - {id}
        && FreeCount(r.0.channels) == FreeCount(s.channels) + 1
        && r.0.puQueue == s.puQueue && r.0.suQueue == s.suQueue
        && r.0.fairnessHistory == s.fairnessHistory
        && r.0.puCounter == s.puCounter && r.0.suCounter == s.suCounter)
  {
    FindSpec(s.channels, id);
    var r := Leave(s, id);
    if r.1.Some? {
      PopSpec(s.occupancy, id);
      VacateKeepsCoherent(s, r.1.value);
      FreeCountUpdate(s.channels, r.1.value, None);
    }
  }

  /** A departure keeps the invariant, and from a settled engine the drain that follows
      it ends: with users waiting, the channel just freed is the only empty one. */
  lemma LeaveKeepsCoherent(s: Snapshot, id: UserId)
    requires Settled(s)
    ensures Coherent(Leave(s, id).0, None)
    ensures DrainEnds(Leave(s, id).0)
    ensures Leave(s, id).1.Some? && s.puQueue + s.suQueue != [] ==> FreeCount(Leave(s, id).0.channels) == 1
  {
    var r := Leave(s, id);
    if r.1.Some? {
      VacateKeepsCoherent(s, r.1.value);
      FreeCountUpdate(s.channels, r.1.value, None);
    }
  }

  /** The last part of `remove_user`: everybody on a channel gains a second, then the
      fairness of the result is recorded. */
  function Conclude(s: Snapshot): Snapshot
  {
    var ticked := Tick(s);
    Record(ticked, FairnessOf(ticked))
  }

  /** Only the occupancy and the history change: each tracked user on a channel gains
      a second and the fairness of the result is appended. */
  lemma ConcludeSpec(s: Snapshot)
    ensures var t := Conclude(s);
      && t.channels == s.channels
      && t.puQueue == s.puQueue && t.suQueue == s.suQueue
      && t.puCounter == s.puCounter && t.suCounter == s.suCounter
      && Keys(t.occupancy) == Keys(s.occupancy)
      && (forall u :: Lookup(t.occupancy, u).Some? <==> Lookup(s.occupancy, u).Some?)
      && (forall u :: Lookup(s.occupancy, u).Some? ==>
            Lookup(t.occupancy, u).value ==
              if Some(u) in s.channels then Lookup(s.occupancy, u).value + 1 else Lookup(s.occupancy, u).value)
      && t.fairnessHistory == s.fairnessHistory + [FairnessOf(t)]
  {
    TickedSpec(s.occupancy, s.channels);
    forall u {
      LookupTicked(s.occupancy, s.channels, u);
    }
  }

  /** The end of `remove_user(id)` once the user has left: the drain from `Leave`'s
      state ends in `drained`, which `Conclude` finishes. The user is gone for good (off
      every channel and out of the table), every channel that changed hands went to a
      queued user, and the engine is settled again. */
  lemma RemoveAfterDrain(s: Snapshot, id: UserId, drained: Snapshot)
    requires Settled(s) && Leave(s, id).1.Some?
    requires Drained(Leave(s, id).0, drained) && Coherent(drained, None)
    ensures var t := Conclude(drained);
      && Some(id) !in t.channels && id !in Keys(t.occupancy)
      && FilledFrom(Leave(s, id).0.channels, t.channels, s.puQueue + s.suQueue)
      && |t.fairnessHistory| == |s.fairnessHistory| + 1 +
           (if s.puQueue + s.suQueue == [] then 0 else 1)
      && s.fairnessHistory < t.fairnessHistory
      && Settled(t)
  {
    LeaveSpec(s, id);
    var v := Leave(s, id).0;
    var P, S := s.puQueue, s.suQueue;
    assert id !in P + S by {
      assert Some(id) in s.channels;
    }
    if P + S != [] {
      OutsiderStaysOut(v.channels, drained.channels, P + S, id);
      DrawnFromHoldsNoOutsider(P, S, FreeCount(v.channels), drained.puQueue, drained.suQueue, id);
    } else {
      assert FilledFrom(v.channels, drained.channels, P + S) by {
        assert drained == v;
      }
    }
    UntrackedWhenAbsent(drained, id);
    ConcludeSpec(drained);
    TickKeepsCoherent(drained, None);
    RecordKeepsCoherent(Tick(drained), FairnessOf(Tick(drained)));
  }

  /** `remove_user(id)` on a settled engine. A departure frees one channel and none was
      empty before, so the drain makes at most one pass, whose SU (if any) scans in the
      order `order`: the user leaves (`Leave`), the head of the queues is served when
      anybody waits (`Serve`), and `Conclude` ticks and records the fairness. A user
      not tracked or not on a channel changes nothing. */
  function Remove(s: Snapshot, id: UserId, order: seq<int>): Snapshot
    requires |s.channels| == N && IsSlotPermutation(order)
  {
    var left := Leave(s, id);
    if left.1.None? then s
    else
      var v := left.0;
      Conclude(if v.puQueue + v.suQueue == [] then v else Serve(v, order).0)
  }

  /** A removal takes the user off its channel and out of the table for good, and
      leaves the engine settled. */
  lemma RemoveSettles(s: Snapshot, id: UserId, order: seq<int>)
    requires Settled(s) && IsSlotPermutation(order) && Leave(s, id).1.Some?
    ensures var t := Remove(s, id, order);
      Some(id) !in t.channels && id !in Keys(t.occupancy) && Settled(t)
  {
    LeaveKeepsCoherent(s, id);
    var v := Leave(s, id).0;
    if v.puQueue + v.suQueue == [] {
      RemoveAfterDrain(s, id, v);
    } else {
      var served := Serve(v, order).0;
      ServeDrainsOne(v, order);
      ServeCounts(v, order);
      ServeKeepsCoherent(v, order);
      RemoveAfterDrain(s, id, served);
    }
  }

  /** A removal takes the user off its channel and out of the table for good. The channel
      it frees goes to the head of the queues (PUs first), who is tracked with two
      seconds (one from its assignment, one from the removal's tick); with nobody
      waiting it stays empty. The history gains the fairness after that assignment and
      the fairness of the final state, in that order. The engine is settled again. */
  lemma RemoveSpec(s: Snapshot, id: UserId, order: seq<int>)
    requires Settled(s) && IsSlotPermutation(order) && Leave(s, id).1.Some?
    ensures var i, t := Leave(s, id).1.value, Remove(s, id, order);
      && Some(id) !in t.channels && id !in Keys(t.occupancy)
      && (s.puQueue + s.suQueue == [] ==>
            && t.channels == s.channels[i := None]
            && t.fairnessHistory == s.fairnessHistory + [FairnessOf(t)])
      && (s.puQueue + s.suQueue != [] ==>
            var u, served := (s.puQueue + s.suQueue)[0], Serve(Leave(s, id).0, order).0;
            && t.channels == s.channels[i := Some(u)]
            && Lookup(t.occupancy, u) == Some(2)
            && (s.puQueue != [] ==> t.puQueue == s.puQueue[1..] && t.suQueue == s.suQueue)
            && (s.puQueue == [] ==> t.puQueue == [] && t.suQueue == s.suQueue[1..])
            && t.fairnessHistory == s.fairnessHistory + [FairnessOf(served), FairnessOf(t)])
      && Settled(t)
  {
    RemoveSettles(s, id, order);
    if s.puQueue + s.suQueue == [] {
      RemoveWithNobodyWaiting(s, id, order);
    } else {
      RemoveServesHead(s, id, order);
    }
  }

  /** With nobody waiting, the freed channel stays empty and one fairness value, that of
      the final state, is recorded. */
  lemma RemoveWithNobodyWaiting(s: Snapshot, id: UserId, order: seq<int>)
    requires Settled(s) && IsSlotPermutation(order) && Leave(s, id).1.Some?
    requires s.puQueue + s.suQueue == []
    ensures var i, t := Leave(s, id).1.value, Remove(s, id, order);
      && t.channels == s.channels[i := None]
      && t.fairnessHistory == s.fairnessHistory + [FairnessOf(t)]
  {
    LeaveSpec(s, id);
    var v := Leave(s, id).0;
    assert Remove(s, id, order) == Conclude(v);
    ConcludeSpec(v);
  }

  /** With users waiting, the head of the queues takes the freed channel and ends with two
      seconds; the fairness after its assignment and that of the final state are
      recorded, in that order. */
  lemma RemoveServesHead(s: Snapshot, id: UserId, order: seq<int>)
    requires Settled(s) && IsSlotPermutation(order) && Leave(s, id).1.Some?
    requires s.puQueue + s.suQueue != []
    ensures var i, t := Leave(s, id).1.value, Remove(s, id, order);
      var u, served := (s.puQueue + s.suQueue)[0], Serve(Leave(s, id).0, order).0;
      && t.channels == s.channels[i := Some(u)]
      && Lookup(t.occupancy, u) == Some(2)
      && (s.puQueue != [] ==> t.puQueue == s.puQueue[1..] && t.suQueue == s.suQueue)
      && (s.puQueue == [] ==> t.puQueue == [] && t.suQueue == s.suQueue[1..])
      && t.fairnessHistory == s.fairnessHistory + [FairnessOf(served), FairnessOf(t)]
  {
    var v := Leave(s, id).0;
    var i, served, u := Leave(s, id).1.value, Serve(v, order).0, (s.puQueue + s.suQueue)[0];
    var t := Remove(s, id, order);
    assert t == Conclude(served);
    ServedUserTakesFreedChannel(s, id, order);
    NowPresent(s.channels, i, Some(u));
    LookupTicked(served.occupancy, served.channels, u);
  }

  /** The user served after a departure takes the channel the departure freed, the only
      empty one, and is tracked with one second; the queues lose their head. */
  lemma ServedUserTakesFreedChannel(s: Snapshot, id: UserId, order: seq<int>)
    requires Settled(s) && IsSlotPermutation(order) && Leave(s, id).1.Some?
    requires s.puQueue + s.suQueue != []
    ensures var i, u, t := Leave(s, id).1.value, (s.puQueue + s.suQueue)[0], Serve(Leave(s, id).0, order).0;
      && t.channels == s.channels[i := Some(u)]
      && Lookup(t.occupancy, u) == Some(1)
      && (s.puQueue != [] ==> t.puQueue == s.puQueue[1..] && t.suQueue == s.suQueue)
      && (s.puQueue == [] ==> t.puQueue == [] && t.suQueue == s.suQueue[1..])
      && t.fairnessHistory == s.fairnessHistory + [FairnessOf(t)]
  {
    LeaveSpec(s, id);
    var i, v := Leave(s, id).1.value, Leave(s, id).0;
    ServeOnOnlyEmpty(s.channels, v, i, order);
  }

  /** Serving while the channel `i` of an otherwise full list is the only empty one puts
      the head of the queues on `i`. */
  lemma ServeOnOnlyEmpty(full: seq<Option<UserId>>, v: Snapshot, i: int, order: seq<int>)
    requires |full| == N && None !in full && 0 <= i < N && v.channels == full[i := None]
    requires IsSlotPermutation(order) && v.puQueue + v.suQueue != []
    ensures var u, t := (v.puQueue + v.suQueue)[0], Serve(v, order).0;
      && t.channels == full[i := Some(u)]
      && Lookup(t.occupancy, u) == Some(1)
      && (v.puQueue != [] ==> t.puQueue == v.puQueue[1..] && t.suQueue == v.suQueue)
      && (v.puQueue == [] ==> t.puQueue == [] && t.suQueue == v.suQueue[1..])
      && t.fairnessHistory == v.fairnessHistory + [FairnessOf(t)]
  {
    NowPresent(full, i, None);
    ServeAssigns(v, order);
    OnlyEmptyChannel(full, i, Serve(v, order).1.slot);
  }

  /** Once a full channel list has one channel cleared, that channel is the only empty one. */
  lemma OnlyEmptyChannel(channels: seq<Option<UserId>>, i: int, slot: int)
    requires None !in channels && 0 <= i < |channels| && 0 <= slot < |channels|
    requires channels[i := None][slot] == None
    ensures slot == i
  {
  }
}
