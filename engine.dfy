/** The channel-allocation engine of `main.py` as it runs: the module-level state
    (five channels, the two id counters, the two queues, the occupancy table and the
    fairness history) is the state of an `Engine` object, and every function of the
    engine is a method updating it in place. Each method is proved to do what the
    function of `Operations` or `Departures` it is named after describes, so the
    properties proved there carry over to it. */
module Allocation {
  import opened Users
  import opened Occupancy
  import opened EngineState
  import opened QueueDrain
  import opened Operations
  import opened Departures
  import Fairness

  class Engine {
    /** Each channel is empty (`None`) or holds one user. */
    const channels: array<Option<UserId>>
    /** `user_counter["PU"]` and `user_counter["SU"]`. */
    var puCounter: nat
    var suCounter: nat
    var puQueue: seq<UserId>
    var suQueue: seq<UserId>
    /** `occupancy_times`, in insertion order. */
    var occupancy: seq<Entry>
    var fairnessHistory: seq<real>

    /** The whole state as a value. */
    ghost function Snap(): Snapshot
      reads this, channels
    {
      Snapshot(channels[..], puCounter, suCounter, puQueue, suQueue, occupancy, fairnessHistory)
    }

    function Counter(c: UserClass): nat
      reads this
    {
      if c == PU then puCounter else suCounter
    }

    /** The invariant within an operation. */
    ghost predicate Consistent()
      reads this, channels
    {
      channels.Length == N && Coherent(Snap(), None)
    }

    /** The invariant between operations. */
    ghost predicate Valid()
      reads this, channels
    {
      channels.Length == N && Settled(Snap())
    }

    /** The module-level initial state: five empty channels, nothing else. */
    constructor ()
      ensures Valid() && fresh(channels)
      ensures Snap() == Snapshot(seq(N, _ => None), 0, 0, [], [], [], [])
    {
      channels := new Option<UserId>[N](_ => None);
      puCounter, suCounter := 0, 0;
      puQueue, suQueue := [], [];
      occupancy, fairnessHistory := [], [];
    }

    /** `update_occupancy_times()`: one second more for every tracked user on a channel.
        It is also the periodic tick between arrivals and removals, so it keeps the
        invariant between operations. */
    method UpdateOccupancyTimes()
      modifies this`occupancy
      ensures Snap() == Tick(old(Snap()))
      ensures old(Valid()) ==> Valid()
    {
      if Valid() {
        TickKeepsCoherent(Snap(), None);
      }
      ghost var ticked := Ticked(occupancy, channels[..]);
      TickedSpec(occupancy, channels[..]);
      var i := 0;
      while i < |occupancy|
        invariant 0 <= i <= |occupancy| == |old(occupancy)|
        invariant forall j :: 0 <= j < i ==> occupancy[j] == ticked[j]
        invariant forall j :: i <= j < |occupancy| ==> occupancy[j] == old(occupancy)[j]
      {
        if Some(occupancy[i].user) in channels[..] {
          occupancy := occupancy[i := Entry(occupancy[i].user, occupancy[i].secs + 1)];
        }
        i := i + 1;
      }
      assert occupancy == ticked;
    }

    /** `fairness_history.append(calculate_fairness())`. */
    method RecordFairness()
      modifies this`fairnessHistory
      ensures Snap() == Record(old(Snap()), FairnessOf(old(Snap())))
    {
      var fairness := Fairness.JainsIndex(Values(occupancy));
      fairnessHistory := fairnessHistory + [fairness];
    }

    /** The scan of `assign_channel` over the channel order `order`. */
    method FirstEmptyIn(order: seq<int>) returns (pos: nat)
      requires forall j :: 0 <= j < |order| ==> 0 <= order[j] < channels.Length
      ensures pos == FirstEmpty(channels[..], order)
    {
      pos := 0;
      while pos < |order| && channels[order[pos]].Some?
        invariant pos <= |order|
        invariant forall q :: 0 <= q < pos ==> channels[order[q]].Some?
      {
        pos := pos + 1;
      }
      FirstEmptyIsFirst(channels[..], order, pos);
    }

    /** The channel `assign_channel` picks for a user of class `cls`. */
    method ChooseSlot(cls: UserClass, suOrder: seq<int>) returns (found: Option<nat>)
      requires channels.Length == N
      requires cls == SU ==> IsSlotPermutation(suOrder)
      ensures found == Choose(channels[..], cls, suOrder)
    {
      var order := if cls == SU then suOrder else AscendingScan;
      var pos := FirstEmptyIn(order);
      if pos == |order| {
        found := None;
      } else {
        found := Some(order[pos]);
      }
    }

    /** `user_counter[cls] += 1` followed by `f"{cls}{user_counter[cls]}"`. */
    method MintId(cls: UserClass) returns (id: UserId)
      modifies this`puCounter, this`suCounter
      ensures Snap() == Mint(old(Snap()), cls)
      ensures id == UserId(cls, old(Counter(cls)) + 1)
    {
      if cls == PU {
        puCounter := puCounter + 1;
        id := UserId(PU, puCounter);
      } else {
        suCounter := suCounter + 1;
        id := UserId(SU, suCounter);
      }
    }

    /** The success path of `assign_channel` once the empty channel is known. */
    method TakeChannel(slot: nat, id: UserId)
      requires slot < channels.Length
      modifies this`occupancy, this`fairnessHistory, channels
      ensures Snap() == Take(old(Snap()), slot, id)
    {
      ghost var s := Snap();
      occupancy := Put(occupancy, id, 0);
      channels[slot] := Some(id);
      assert Snap() == Place(s, slot, id);
      UpdateOccupancyTimes();
      RecordFairness();
    }

    /** `assign_channel(cls, user_id)`. */
    method AssignChannel(cls: UserClass, userId: Option<UserId>, suOrder: seq<int>) returns (res: Assignment)
      requires channels.Length == N
      requires cls == SU ==> IsSlotPermutation(suOrder)
      modifies this, channels
      ensures (Snap(), res) == Assign(old(Snap()), cls, userId, suOrder)
    {
      ghost var s := Snap();
      var found := ChooseSlot(cls, suOrder);
      if found.None? {
        return NotAssigned;
      }
      var slot := found.value;
      var id: UserId;
      if userId.Some? {
        id := userId.value;
      } else {
        id := MintId(cls);
      }
      ghost var minted := Snap();
      assert minted == if userId.Some? then s else Mint(s, cls);
      assert id == if userId.Some? then userId.value else UserId(cls, minted.Counter(cls));
      TakeChannel(slot, id);
      res := Assigned(slot, id);
    }

    /** `reassign_su_for_pu()`. */
    method ReassignSuForPu() returns (freed: Option<nat>)
      requires channels.Length == N
      modifies this`suQueue, channels
      ensures (Snap(), freed) == Reassign(old(Snap()))
    {
      var i := 0;
      while i < N && !HoldsSU(channels[i])
        invariant 0 <= i <= N
        invariant forall j :: 0 <= j < i ==> !HoldsSU(channels[j])
      {
        i := i + 1;
      }
      FirstSUIsFirst(channels[..], i);
      if i == N {
        return None;
      }
      ghost var s := Snap();
      suQueue := suQueue + [channels[i].value];
      channels[i] := None;
      assert Snap() == Evict(s, i);
      freed := Some(i);
    }

    /** `queue_user(cls)`. */
    method QueueUser(cls: UserClass) returns (id: UserId)
      modifies this`puCounter, this`suCounter, this`puQueue, this`suQueue
      ensures (Snap(), id) == QueueUp(old(Snap()), cls)
    {
      id := MintId(cls);
      ghost var s := Snap();
      if cls == PU {
        puQueue := puQueue + [id];
      } else {
        suQueue := suQueue + [id];
      }
      assert Snap() == Enqueue(s, id);
    }

    /** The preemption of `simulate_user_arrival` once `reassign_su_for_pu` has freed the
        channel `slot`: a fresh PU id takes it. */
    method SeatPreemptor(slot: nat) returns (id: UserId)
      requires slot < channels.Length
      modifies this`puCounter, this`suCounter, channels
      ensures Snap() == Preempt(old(Snap()), slot)
      ensures id == UserId(PU, old(puCounter) + 1)
    {
      id := MintId(PU);
      ghost var s := Snap();
      channels[slot] := Some(id);
      assert Snap() == Seat(s, slot, id);
    }

    /** `simulate_user_arrival(cls)`; an arriving SU scans the channels in the order
        `suOrder`. */
    method SimulateUserArrival(cls: UserClass, suOrder: seq<int>) returns (outcome: Arrival)
      requires Valid()
      requires cls == SU ==> IsSlotPermutation(suOrder)
      modifies this, channels
      ensures (Snap(), outcome) == Arrive(old(Snap()), cls, suOrder)
      ensures Valid()
    {
      ghost var s := Snap();
      ArriveKeepsSettled(s, cls, suOrder);
      var res := AssignChannel(cls, None, suOrder);
      if res.Assigned? {
        return Placed(res.slot, res.user);
      }
      if cls == PU {
        var freed := ReassignSuForPu();
        if freed.Some? {
          var slot := freed.value;
          var evicted := suQueue[|suQueue| - 1];
          var id := SeatPreemptor(slot);
          return Preempted(slot, id, evicted);
        }
      }
      var id := QueueUser(cls);
      outcome := Queued(id);
    }

    /** One pass of the body of `process_user_queue`'s loop; the SU served, if any, scans
        the channels in the order `suOrder`. */
    method ServeNext(suOrder: seq<int>) returns (served: Assignment)
      requires channels.Length == N && IsSlotPermutation(suOrder)
      modifies this, channels
      ensures (Snap(), served) == Serve(old(Snap()), suOrder)
    {
      if puQueue == [] && suQueue == [] {
        return NotAssigned;
      }
      var fromPu := puQueue != [];
      ghost var s := Snap();
      var id: UserId;
      if fromPu {
        id := puQueue[0];
        puQueue := puQueue[1..];
      } else {
        id := suQueue[0];
        suQueue := suQueue[1..];
      }
      assert Snap() == Dequeue(s, fromPu);
      served := AssignChannel(if fromPu then PU else SU, Some(id), suOrder);
    }

    /** `process_user_queue()`: nothing happens when both queues are empty; otherwise,
        while some channel is empty, the next queued user (PUs before SUs, each queue
        first-in first-out) is assigned a channel. The SU served by the `d`-th pass scans
        in the order `suOrders[d]`. The original loop ends only once no channel is
        empty; `DrainEnds` is the condition under which it does. `passes` holds the
        state before the loop and after each pass: every pass is exactly `Serve`. */
    method ProcessUserQueue(suOrders: seq<seq<int>>) returns (ghost passes: seq<Snapshot>)
      requires Consistent() && ScanOrders(suOrders) && DrainEnds(Snap())
      modifies this, channels
      ensures Consistent()
      ensures Drained(old(Snap()), Snap())
      ensures ServedInTurn(suOrders, passes) && passes[0] == old(Snap()) && passes[|passes| - 1] == Snap()
      ensures |passes| == 1 + if old(puQueue + suQueue) == [] then 0 else FreeCount(old(channels[..]))
    {
      passes := [Snap()];
      var available := FreeCount(channels[..]);
      if puQueue == [] && suQueue == [] {
        return;
      }
      ghost var start := Snap();
      DrainProgressStart(suOrders, start);
      var d := 0;
      while available > 0
        invariant channels.Length == N && available == FreeCount(channels[..])
        invariant DrainProgress(suOrders, start, Snap(), d, passes)
        decreases available
      {
        ghost var before := Snap();
        DrainPassKeepsProgress(suOrders, start, before, d, passes);
        var _ := ServeNext(suOrders[d]);
        passes := passes + [Snap()];
        d := d + 1;
        available := FreeCount(channels[..]);
      }
      DrainProgressDone(suOrders, start, Snap(), d, passes);
    }

    /** The search of `remove_user`. */
    method Locate(id: UserId) returns (slot: Option<nat>)
      ensures slot == Find(channels[..], id)
    {
      var i := 0;
      while i < channels.Length
        invariant 0 <= i <= channels.Length
        invariant forall j :: 0 <= j < i ==> channels[j] != Some(id)
      {
        if channels[i] == Some(id) {
          FindIsFirst(channels[..], id, i);
          return Some(i);
        }
        i := i + 1;
      }
      FindIsFirst(channels[..], id, i);
      return None;
    }

    /** `channels[channel_index] = None` and `occupancy_times.pop(user_id)`. */
    method VacateChannel(slot: nat)
      requires slot < channels.Length && channels[slot].Some?
      modifies this`occupancy, channels
      ensures Snap() == Vacate(old(Snap()), slot)
    {
      var id := channels[slot].value;
      channels[slot] := None;
      occupancy := Pop(occupancy, id);
    }

    /** `remove_user(user_id)`: a user known to the occupancy table and found on a channel
        leaves it (`Leave`), the queues are drained into the empty channel, and
        `Conclude` ticks and records the fairness, as `Remove` describes. A user missing
        from the table or from the channels leaves everything as it was; the drain runs
        its passes in the orders `suOrders`. */
    method RemoveUser(id: UserId, suOrders: seq<seq<int>>) returns (removed: Option<nat>)
      requires Valid() && ScanOrders(suOrders)
      modifies this, channels
      ensures Valid()
      ensures removed == Leave(old(Snap()), id).1
      ensures Snap() == Remove(old(Snap()), id, suOrders[0])
    {
      ghost var s := Snap();
      if id !in Keys(occupancy) {
        return None;
      }
      removed := Locate(id);
      if removed.None? {
        return None;
      }
      LeaveKeepsCoherent(s, id);
      VacateChannel(removed.value);
      ghost var v := Snap();
      assert v == Leave(s, id).0;
      ghost var passes: seq<Snapshot>;
      passes := ProcessUserQueue(suOrders);
      ghost var drained := Snap();
      assert drained == if v.puQueue + v.suQueue == [] then v else Serve(v, suOrders[0]).0 by {
        if v.puQueue + v.suQueue != [] {
          assert |passes| == 2;
        }
      }
      UpdateOccupancyTimes();
      RecordFairness();
      assert Snap() == Conclude(drained);
      RemoveSpec(s, id, suOrders[0]);
    }
  }
}
