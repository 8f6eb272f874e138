/** The operations of the channel-allocation engine as functions from one engine state
    to the next, with what each of them promises and the invariant each keeps. The
    `Allocation.Engine` class performs the same operations in place and is proved to
    agree with these functions.

    The functions state only small facts about their results; what each operation
    promises is stated by the lemma that follows it. */
module Operations {
  import opened Users
  import opened Occupancy
  import opened EngineState
  import opened QueueDrain
  import Fairness

  /** Result of `assign_channel`: `(True, channel_index, user_id)` or `(False, None, None)`. */
  datatype Assignment = Assigned(slot: nat, user: UserId) | NotAssigned

  /** What `simulate_user_arrival` did with the arriving user. */
  datatype Arrival =
    | Placed(slot: nat, user: UserId)
    | Preempted(slot: nat, user: UserId, evicted: UserId)
    | Queued(user: UserId)

  /** `calculate_fairness()`: Jain's index over the occupancy times in insertion order;
      0 while nobody is tracked. */
  function FairnessOf(s: Snapshot): (r: real)
    ensures 0.0 <= r <= 1.0
    ensures s.occupancy == [] ==> r == 0.0
  {
    Fairness.JainsIndex(Values(s.occupancy))
  }

  /** The channel order of `assign_channel`: `range(5)` for a PU, the drawn permutation
      for an SU. */
  function ScanOrder(cls: UserClass, suOrder: seq<int>): seq<int>
  {
    if cls == SU then suOrder else AscendingScan
  }

  /** The position in `order` of the first empty channel it visits, or `|order|`. */
  function FirstEmpty(channels: seq<Option<UserId>>, order: seq<int>): (pos: nat)
    requires forall j :: 0 <= j < |order| ==> 0 <= order[j] < |channels|
    ensures pos <= |order|
    ensures pos < |order| ==> channels[order[pos]] == None
  {
    if order == [] || channels[order[0]] == None then 0
    else 1 + FirstEmpty(channels, order[1..])
  }

  /** The scan passes only occupied channels before it stops. */
  lemma {:induction false} FirstEmptySpec(channels: seq<Option<UserId>>, order: seq<int>)
    requires forall j :: 0 <= j < |order| ==> 0 <= order[j] < |channels|
    ensures forall q :: 0 <= q < FirstEmpty(channels, order) ==> channels[order[q]].Some?
  {
    if order != [] && channels[order[0]] != None {
      var rest := order[1..];
      FirstEmptySpec(channels, rest);
      forall q | 0 <= q < FirstEmpty(channels, order) ensures channels[order[q]].Some? {
        if q > 0 {
          assert order[q] == rest[q - 1];
        }
      }
    }
  }

  /** A position before which every channel visited is occupied and at which the channel
      visited is empty (or the end of `order`) is the position `FirstEmpty` finds. */
  lemma {:induction false} FirstEmptyIsFirst(channels: seq<Option<UserId>>, order: seq<int>, pos: nat)
    requires forall j :: 0 <= j < |order| ==> 0 <= order[j] < |channels|
    requires pos <= |order| && forall q :: 0 <= q < pos ==> channels[order[q]].Some?
    requires pos < |order| ==> channels[order[pos]] == None
    ensures FirstEmpty(channels, order) == pos
  {
    if pos > 0 {
      var rest := order[1..];
      assert forall q :: 0 <= q < pos - 1 ==> rest[q] == order[q + 1];
      FirstEmptyIsFirst(channels, rest, pos - 1);
    }
  }

  /** The channel `assign_channel` picks: the first empty one in the scan order of the
      class, or none. */
  function Choose(channels: seq<Option<UserId>>, cls: UserClass, suOrder: seq<int>): (found: Option<nat>)
    requires |channels| == N
    requires cls == SU ==> IsSlotPermutation(suOrder)
    ensures found.Some? ==> found.value < N && channels[found.value] == None
  {
    var order := ScanOrder(cls, suOrder);
    var pos := FirstEmpty(channels, order);
    if pos == |order| then None else Some(order[pos])
  }

  /** A channel is chosen exactly when one is empty. A PU gets the lowest-index empty
      channel; an SU the first empty channel of its permutation. */
  lemma ChooseSpec(channels: seq<Option<UserId>>, cls: UserClass, suOrder: seq<int>)
    requires |channels| == N
    requires cls == SU ==> IsSlotPermutation(suOrder)
    ensures var found := Choose(channels, cls, suOrder);
      && (found.None? <==> None !in channels)
      && (found.Some? && cls == PU ==> forall j :: 0 <= j < found.value ==> channels[j].Some?)
      && (found.Some? && cls == SU ==>
            exists p :: 0 <= p < N && suOrder[p] == found.value &&
              forall q :: 0 <= q < p ==> channels[suOrder[q]].Some?)
  {
    var order := ScanOrder(cls, suOrder);
    FirstEmptySpec(channels, order);
    var pos := FirstEmpty(channels, order);
    if pos == |order| {
      FullAfterFailedScan(channels, order);
    } else if cls == PU {
      AscendingScanVisitsInOrder(channels, pos);
    } else {
      assert suOrder[pos] == order[pos];
    }
  }

  /** The success path of `assign_channel` once the channel is known: the user's occupancy
      is (re)set to 0, the user takes the channel, everybody on a channel gains a second,
      and Jain's index of the resulting occupancy is appended to the history. */
  function Take(s: Snapshot, slot: int, id: UserId): Snapshot
    requires 0 <= slot < |s.channels|
  {
    var placed := Tick(Place(s, slot, id));
    Record(placed, FairnessOf(placed))
  }

  /** After taking an empty channel the user holds it and is tracked with one second;
      the fairness of the new state is recorded; the queues and the counters are
      untouched. */
  lemma TakeSpec(s: Snapshot, slot: int, id: UserId)
    requires 0 <= slot < |s.channels| && s.channels[slot] == None
    ensures var t := Take(s, slot, id);
      && t.channels == s.channels[slot := Some(id)]
      && Keys(t.occupancy) == Keys(s.occupancy) + {id}
      && Lookup(t.occupancy, id) == Some(1)
      && t.fairnessHistory == s.fairnessHistory + [FairnessOf(t)]
      && t.puQueue == s.puQueue && t.suQueue == s.suQueue
      && t.puCounter == s.puCounter && t.suCounter == s.suCounter
  {
    var placed := Place(s, slot, id);
    PutSpec(s.occupancy, id, 0);
    TickedSpec(placed.occupancy, placed.channels);
    assert Take(s, slot, id).occupancy == Ticked(placed.occupancy, placed.channels);
    TakeTracksUser(s, slot, id);
  }

  /** `TakeSpec`'s one second for the user placed, before the fairness value is recorded. */
  lemma TakeTracksUser(s: Snapshot, slot: int, id: UserId)
    requires 0 <= slot < |s.channels|
    ensures Lookup(Tick(Place(s, slot, id)).occupancy, id) == Some(1)
  {
    NowPresent(s.channels, slot, Some(id));
    LookupTickedPut(s.occupancy, s.channels[slot := Some(id)], id);
  }

  /** Every other tracked user gains a second when it holds a channel and keeps its time
      otherwise. */
  lemma TakeTicksOthers(s: Snapshot, slot: int, id: UserId, u: UserId)
    requires 0 <= slot < |s.channels| && s.channels[slot] == None
    requires u != id && Lookup(s.occupancy, u).Some?
    ensures Some(u) in s.channels ==>
      Lookup(Take(s, slot, id).occupancy, u) == Some(Lookup(s.occupancy, u).value + 1)
    ensures Some(u) !in s.channels ==>
      Lookup(Take(s, slot, id).occupancy, u) == Lookup(s.occupancy, u)
  {
    PlacedTicksOthers(s, slot, id, u);
  }

  /** `TakeTicksOthers` before the fairness value is recorded. */
  lemma PlacedTicksOthers(s: Snapshot, slot: int, id: UserId, u: UserId)
    requires 0 <= slot < |s.channels| && s.channels[slot] == None
    requires u != id && Lookup(s.occupancy, u).Some?
    ensures Some(u) in s.channels ==>
      Lookup(Tick(Place(s, slot, id)).occupancy, u) == Some(Lookup(s.occupancy, u).value + 1)
    ensures Some(u) !in s.channels ==>
      Lookup(Tick(Place(s, slot, id)).occupancy, u) == Lookup(s.occupancy, u)
  {
    var after := s.channels[slot := Some(id)];
    assert Tick(Place(s, slot, id)).occupancy == Ticked(Put(s.occupancy, id, 0), after);
    LookupTickedPutOther(s.occupancy, after, id, u);
    LookupTicked(s.occupancy, after, u);
    PresenceKept(s.channels, slot, Some(id), Some(u));
    var v := Lookup(s.occupancy, u).value;
    if Some(u) in s.channels {
      assert Some(u) in after;
      assert Lookup(Ticked(s.occupancy, after), u).value == v + 1;
      assert Lookup(Ticked(s.occupancy, after), u) == Some(v + 1);
    }
  }

  /** `assign_channel(cls, user_id)`: the channel `Choose` picks is taken by the supplied
      id, or by a freshly minted one when none is supplied. */
  function Assign(s: Snapshot, cls: UserClass, userId: Option<UserId>, suOrder: seq<int>): (r: (Snapshot, Assignment))
    requires |s.channels| == N
    requires cls == SU ==> IsSlotPermutation(suOrder)
    ensures |r.0.channels| == N
  {
    var found := Choose(s.channels, cls, suOrder);
    if found.None? then (s, NotAssigned)
    else
      var minted := if userId.Some? then s else Mint(s, cls);
      var id := if userId.Some? then userId.value else UserId(cls, minted.Counter(cls));
      (Take(minted, found.value, id), Assigned(found.value, id))
  }

  /** An assignment succeeds exactly when a channel is empty. Then the user (the supplied
      one, or the next id of the class) takes the chosen channel and no other channel
      changes, it is tracked with one second, the new fairness is recorded and the queues
      are untouched. A failed assignment changes nothing and mints no id. */
  lemma AssignSpec(s: Snapshot, cls: UserClass, userId: Option<UserId>, suOrder: seq<int>)
    requires |s.channels| == N
    requires cls == SU ==> IsSlotPermutation(suOrder)
    ensures var r := Assign(s, cls, userId, suOrder);
      && (r.1.Assigned? <==> None in s.channels)
      && (r.1.NotAssigned? ==> r.0 == s)
      && (r.1.Assigned? ==>
        && Some(r.1.slot) == Choose(s.channels, cls, suOrder)
        && r.1.slot < N && s.channels[r.1.slot] == None
        && r.1.user == (if userId.Some? then userId.value else UserId(cls, s.Counter(cls) + 1))
        && r.0.channels == s.channels[r.1.slot := Some(r.1.user)]
        && Keys(r.0.occupancy) == Keys(s.occupancy) + {r.1.user}
        && Lookup(r.0.occupancy, r.1.user) == Some(1)
        && r.0.fairnessHistory == s.fairnessHistory + [FairnessOf(r.0)]
        && r.0.puQueue == s.puQueue && r.0.suQueue == s.suQueue
        && r.0.Counter(cls) == s.Counter(cls) + (if userId.None? then 1 else 0)
        && r.0.Counter(Other(cls)) == s.Counter(Other(cls)))
  {
    ChooseSpec(s.channels, cls, suOrder);
    var found := Choose(s.channels, cls, suOrder);
    if found.Some? {
      var minted := if userId.Some? then s else Mint(s, cls);
      var id := if userId.Some? then userId.value else UserId(cls, minted.Counter(cls));
      TakeSpec(minted, found.value, id);
    }
  }

  /** An assignment keeps the invariant: the user placed was pending (taken off a queue)
      or is freshly minted. */
  lemma AssignKeepsCoherent(s: Snapshot, cls: UserClass, userId: Option<UserId>, suOrder: seq<int>)
    requires Coherent(s, userId)
    requires cls == SU ==> IsSlotPermutation(suOrder)
    ensures Assign(s, cls, userId, suOrder).1.Assigned? ==> Coherent(Assign(s, cls, userId, suOrder).0, None)
  {
    var found := Choose(s.channels, cls, suOrder);
    if found.Some? {
      var minted := if userId.Some? then s else Mint(s, cls);
      var id := if userId.Some? then userId.value else UserId(cls, minted.Counter(cls));
      if userId.None? {
        MintIsFresh(s, cls);
      }
      PlaceKeepsCoherent(minted, found.value, id);
      TickKeepsCoherent(Place(minted, found.value, id), None);
      var placed := Tick(Place(minted, found.value, id));
      RecordKeepsCoherent(placed, FairnessOf(placed));
    }
  }

  /** The scan of `reassign_su_for_pu`: the lowest index of a channel held by an SU. */
  function FirstSU(channels: seq<Option<UserId>>): (i: Option<nat>)
    ensures i.Some? ==> i.value < |channels| && HoldsSU(channels[i.value])
  {
    if channels == [] then None
    else if HoldsSU(channels[0]) then Some(0)
    else
      var rest := FirstSU(channels[1..]);
      if rest.None? then None else Some(rest.value + 1)
  }

  /** The scan finds a channel exactly when an SU holds one, and finds the lowest. */
  lemma {:induction false} FirstSUSpec(channels: seq<Option<UserId>>)
    ensures FirstSU(channels).None? <==> !AnySU(channels)
    ensures FirstSU(channels).Some? ==> forall j :: 0 <= j < FirstSU(channels).value ==> !HoldsSU(channels[j])
  {
    if channels != [] && !HoldsSU(channels[0]) {
      var rest := channels[1..];
      FirstSUSpec(rest);
      assert forall j :: 1 <= j < |channels| ==> channels[j] == rest[j - 1];
      if AnySU(channels) {
        var i :| 0 <= i < |channels| && HoldsSU(channels[i]);
        assert HoldsSU(rest[i - 1]);
      }
    }
  }

  /** An index before which no SU holds a channel and at which one does (or the end of
      `channels`) is what `FirstSU` finds. */
  lemma {:induction false} FirstSUIsFirst(channels: seq<Option<UserId>>, i: nat)
    requires i <= |channels| && forall j :: 0 <= j < i ==> !HoldsSU(channels[j])
    requires i < |channels| ==> HoldsSU(channels[i])
    ensures FirstSU(channels) == if i == |channels| then None else Some(i)
  {
    if i > 0 {
      var rest := channels[1..];
      assert forall j :: 0 <= j < i - 1 ==> rest[j] == channels[j + 1];
      FirstSUIsFirst(rest, i - 1);
    }
  }

  /** `reassign_su_for_pu()`: the SU on the lowest-index channel holding one leaves it
      for the tail of the SU queue, keeping its occupancy entry. */
  function Reassign(s: Snapshot): (r: (Snapshot, Option<nat>))
    ensures r.1.Some? ==> r.1.value < |s.channels|
  {
    var i := FirstSU(s.channels);
    if i.None? then (s, None) else (Evict(s, i.value), i)
  }

  /** A channel is freed exactly when an SU holds one: the lowest such channel, whose SU
      joins the tail of the SU queue; nothing else changes. */
  lemma ReassignSpec(s: Snapshot)
    ensures var r := Reassign(s);
      && (r.1.None? <==> !AnySU(s.channels))
      && (r.1.None? ==> r.0 == s)
      && (r.1.Some? ==>
        && HoldsSU(s.channels[r.1.value])
        && (forall j :: 0 <= j < r.1.value ==> !HoldsSU(s.channels[j]))
        && r.0.channels == s.channels[r.1.value := None]
        && r.0.suQueue == s.suQueue + [s.channels[r.1.value].value]
        && r.0.puQueue == s.puQueue && r.0.occupancy == s.occupancy
        && r.0.fairnessHistory == s.fairnessHistory
        && r.0.puCounter == s.puCounter && r.0.suCounter == s.suCounter)
  {
    FirstSUSpec(s.channels);
  }

  lemma ReassignKeepsCoherent(s: Snapshot)
    requires Coherent(s, None)
    ensures Coherent(Reassign(s).0, None)
  {
    var i := FirstSU(s.channels);
    if i.Some? {
      EvictKeepsCoherent(s, i.value);
    }
  }

  /** `queue_user(cls)`: a freshly minted user joins the tail of its class's queue. */
  function QueueUp(s: Snapshot, cls: UserClass): (r: (Snapshot, UserId))
    ensures r.1 == UserId(cls, s.Counter(cls) + 1)
    ensures r.0.Counter(cls) == s.Counter(cls) + 1 && r.0.Counter(Other(cls)) == s.Counter(Other(cls))
    ensures cls == PU ==> r.0.puQueue == s.puQueue + [r.1] && r.0.suQueue == s.suQueue
    ensures cls == SU ==> r.0.suQueue == s.suQueue + [r.1] && r.0.puQueue == s.puQueue
    ensures r.0.channels == s.channels && r.0.occupancy == s.occupancy
    ensures r.0.fairnessHistory == s.fairnessHistory
  {
    var minted := Mint(s, cls);
    var id := UserId(cls, minted.Counter(cls));
    (Enqueue(minted, id), id)
  }

  lemma QueueUpKeepsCoherent(s: Snapshot, cls: UserClass)
    requires Coherent(s, None)
    ensures Coherent(QueueUp(s, cls).0, None)
  {
    MintIsFresh(s, cls);
    EnqueueKeepsCoherent(Mint(s, cls), UserId(cls, s.Counter(cls) + 1));
  }

  /** The preemption of `simulate_user_arrival`: once `reassign_su_for_pu` has freed the
      channel `slot`, a freshly minted PU id takes it, with no occupancy entry, no tick and
      no new fairness value. */
  function Preempt(s: Snapshot, slot: int): Snapshot
    requires 0 <= slot < |s.channels|
  {
    var minted := Mint(s, PU);
    Seat(minted, slot, UserId(PU, minted.puCounter))
  }

  /** `simulate_user_arrival(cls)`: the user first tries `assign_channel`; a PU that
      finds every channel occupied tries `reassign_su_for_pu` and takes the freed channel;
      otherwise the user is queued. */
  function Arrive(s: Snapshot, cls: UserClass, suOrder: seq<int>): (r: (Snapshot, Arrival))
    requires |s.channels| == N
    requires cls == SU ==> IsSlotPermutation(suOrder)
  {
    var tried := Assign(s, cls, None, suOrder);
    if tried.1.Assigned? then
      (tried.0, Placed(tried.1.slot, tried.1.user))
    else if cls == PU && Reassign(s).1.Some? then
      var freed := Reassign(s);
      var slot := freed.1.value;
      (Preempt(freed.0, slot), Preempted(slot, UserId(PU, s.puCounter + 1), s.channels[slot].value))
    else
      var queued := QueueUp(s, cls);
      (queued.0, Queued(queued.1))
  }

  /** An arriving user gets the next id of its class in every case. It is placed exactly
      when a channel is empty, on the channel `Choose` picks. A PU preempts exactly when
      every channel is occupied and an SU holds one: it takes the lowest channel an SU
      holds, that SU goes to the tail of the SU queue, and no occupancy or fairness value
      changes. Otherwise the user joins the tail of its class's queue. */
  lemma ArriveSpec(s: Snapshot, cls: UserClass, suOrder: seq<int>)
    requires |s.channels| == N
    requires cls == SU ==> IsSlotPermutation(suOrder)
    ensures var r := Arrive(s, cls, suOrder);
      && (r.1.Placed? <==> None in s.channels)
      && (r.1.Preempted? <==> cls == PU && None !in s.channels && AnySU(s.channels))
      && r.1.user == UserId(cls, s.Counter(cls) + 1)
      && r.0.Counter(cls) == s.Counter(cls) + 1 && r.0.Counter(Other(cls)) == s.Counter(Other(cls))
      && (r.1.Placed? ==>
        && Some(r.1.slot) == Choose(s.channels, cls, suOrder)
        && r.0.channels == s.channels[r.1.slot := Some(r.1.user)]
        && Lookup(r.0.occupancy, r.1.user) == Some(1)
        && r.0.fairnessHistory == s.fairnessHistory + [FairnessOf(r.0)]
        && r.0.puQueue == s.puQueue && r.0.suQueue == s.suQueue)
      && (r.1.Preempted? ==>
        && Some(r.1.slot) == FirstSU(s.channels)
        && s.channels[r.1.slot] == Some(r.1.evicted)
        && r.0.channels == s.channels[r.1.slot := Some(r.1.user)]
        && r.0.suQueue == s.suQueue + [r.1.evicted] && r.0.puQueue == s.puQueue
        && r.0.occupancy == s.occupancy && r.0.fairnessHistory == s.fairnessHistory)
      && (r.1.Queued? ==>
        && r.0.channels == s.channels
        && (cls == PU ==> r.0.puQueue == s.puQueue + [r.1.user] && r.0.suQueue == s.suQueue)
        && (cls == SU ==> r.0.suQueue == s.suQueue + [r.1.user] && r.0.puQueue == s.puQueue)
        && r.0.occupancy == s.occupancy && r.0.fairnessHistory == s.fairnessHistory)
  {
    AssignSpec(s, cls, None, suOrder);
    ReassignSpec(s);
  }

  /** Between operations the engine is `Settled`, and an arrival keeps it so. A PU that
      preempts is left out of the occupancy table, so it never counts towards fairness. */
  lemma ArriveKeepsSettled(s: Snapshot, cls: UserClass, suOrder: seq<int>)
    requires Settled(s)
    requires cls == SU ==> IsSlotPermutation(suOrder)
    ensures Settled(Arrive(s, cls, suOrder).0)
    ensures Arrive(s, cls, suOrder).1.Preempted? ==>
      Arrive(s, cls, suOrder).1.user !in Keys(Arrive(s, cls, suOrder).0.occupancy)
  {
    var tried := Assign(s, cls, None, suOrder);
    AssignSpec(s, cls, None, suOrder);
    if tried.1.Assigned? {
      PlacedKeepsSettled(s, cls, suOrder);
    } else if cls == PU && Reassign(s).1.Some? {
      ReassignSpec(s);
      PreemptKeepsSettled(s, Reassign(s).1.value);
    } else {
      QueueUpKeepsSettled(s, cls);
    }
  }

  lemma PlacedKeepsSettled(s: Snapshot, cls: UserClass, suOrder: seq<int>)
    requires Settled(s)
    requires cls == SU ==> IsSlotPermutation(suOrder)
    requires None in s.channels
    ensures Settled(Assign(s, cls, None, suOrder).0)
  {
    AssignSpec(s, cls, None, suOrder);
    AssignKeepsCoherent(s, cls, None, suOrder);
  }

  lemma PreemptKeepsSettled(s: Snapshot, slot: int)
    requires Settled(s) && None !in s.channels
    requires 0 <= slot < N && HoldsSU(s.channels[slot])
    ensures Settled(Preempt(Evict(s, slot), slot))
    ensures UserId(PU, s.puCounter + 1) !in Keys(Preempt(Evict(s, slot), slot).occupancy)
  {
    EvictKeepsCoherent(s, slot);
    PreemptKeepsCoherent(Evict(s, slot), slot);
    StaysFull(s.channels, slot, Some(UserId(PU, s.puCounter + 1)));
  }

  /** A preempting PU is seated without an occupancy entry. */
  lemma PreemptKeepsCoherent(s: Snapshot, slot: int)
    requires Coherent(s, None) && 0 <= slot < N && s.channels[slot] == None
    ensures Coherent(Preempt(s, slot), None)
    ensures UserId(PU, s.puCounter + 1) !in Keys(Preempt(s, slot).occupancy)
  {
    MintIsFresh(s, PU);
    SeatKeepsCoherent(Mint(s, PU), slot, UserId(PU, s.puCounter + 1));
  }

  lemma QueueUpKeepsSettled(s: Snapshot, cls: UserClass)
    requires Settled(s) && None !in s.channels
    ensures Settled(QueueUp(s, cls).0)
  {
    QueueUpKeepsCoherent(s, cls);
  }

  /** One pass of the loop of `process_user_queue`: the head of the PU queue, or failing
      that the head of the SU queue, is dequeued and handed to `assign_channel` under its
      own id. */
  function Serve(s: Snapshot, order: seq<int>): (r: (Snapshot, Assignment))
    requires |s.channels| == N && IsSlotPermutation(order)
    ensures |r.0.channels| == N
  {
    if s.puQueue == [] && s.suQueue == [] then (s, NotAssigned)
    else if s.puQueue != [] then Assign(Dequeue(s, true), PU, Some(s.puQueue[0]), order)
    else Assign(Dequeue(s, false), SU, Some(s.suQueue[0]), order)
  }

  /** A pass serves somebody exactly when a user is queued and a channel is empty; the
      user served is the head of the queues, primary users first. With both queues empty
      nothing changes; a user dequeued while every channel is occupied is dropped. */
  lemma ServeSpec(s: Snapshot, order: seq<int>)
    requires |s.channels| == N && IsSlotPermutation(order)
    ensures var r := Serve(s, order);
      && (r.1.Assigned? <==> s.puQueue + s.suQueue != [] && None in s.channels)
      && (s.puQueue + s.suQueue == [] ==> r.0 == s)
      && (r.1.Assigned? ==> r.1.user == (s.puQueue + s.suQueue)[0])
      && (s.puQueue + s.suQueue != [] && None !in s.channels ==>
            r.0.channels == s.channels && |r.0.puQueue + r.0.suQueue| + 1 == |s.puQueue + s.suQueue|)
  {
    if s.puQueue != [] {
      AssignSpec(Dequeue(s, true), PU, Some(s.puQueue[0]), order);
    } else if s.suQueue != [] {
      AssignSpec(Dequeue(s, false), SU, Some(s.suQueue[0]), order);
    }
  }

  /** A pass that finds a queued user and an empty channel gives that user, the head of
      the queues, the channel `Choose` picks; the user is tracked with one second, the
      queues lose their head and the fairness of the new state is recorded. */
  lemma ServeAssigns(s: Snapshot, order: seq<int>)
    requires |s.channels| == N && IsSlotPermutation(order)
    requires s.puQueue + s.suQueue != [] && None in s.channels
    ensures var r, u := Serve(s, order), (s.puQueue + s.suQueue)[0];
      && r.1.Assigned? && r.1.user == u
      && Some(r.1.slot) == Choose(s.channels, if s.puQueue != [] then PU else SU, order)
      && s.channels[r.1.slot] == None
      && r.0.channels == s.channels[r.1.slot := Some(u)]
      && Lookup(r.0.occupancy, u) == Some(1)
      && (s.puQueue != [] ==> r.0.puQueue == s.puQueue[1..] && r.0.suQueue == s.suQueue)
      && (s.puQueue == [] ==> r.0.puQueue == [] && r.0.suQueue == s.suQueue[1..])
      && r.0.fairnessHistory == s.fairnessHistory + [FairnessOf(r.0)]
  {
    if s.puQueue != [] {
      AssignSpec(Dequeue(s, true), PU, Some(s.puQueue[0]), order);
    } else {
      AssignSpec(Dequeue(s, false), SU, Some(s.suQueue[0]), order);
    }
  }

  /** A pass that finds a queued user and an empty channel is a drain of one user. */
  lemma ServeDrainsOne(s: Snapshot, order: seq<int>)
    requires |s.channels| == N && IsSlotPermutation(order)
    requires s.puQueue + s.suQueue != [] && None in s.channels
    ensures DrainedBy(s, Serve(s, order).0, 1)
  {
    var r := Serve(s, order);
    if s.puQueue != [] {
      AssignSpec(Dequeue(s, true), PU, Some(s.puQueue[0]), order);
    } else {
      AssignSpec(Dequeue(s, false), SU, Some(s.suQueue[0]), order);
    }
    ServeIsDrainStep(s, r.0, r.1.slot);
  }

  /** Such a pass also keeps the invariant. */
  lemma ServeKeepsCoherent(s: Snapshot, order: seq<int>)
    requires Coherent(s, None) && IsSlotPermutation(order)
    requires None in s.channels
    ensures Coherent(Serve(s, order).0, None)
  {
    if s.puQueue != [] {
      DequeueKeepsCoherent(s, true);
      AssignSpec(Dequeue(s, true), PU, Some(s.puQueue[0]), order);
      AssignKeepsCoherent(Dequeue(s, true), PU, Some(s.puQueue[0]), order);
    } else if s.suQueue != [] {
      DequeueKeepsCoherent(s, false);
      AssignSpec(Dequeue(s, false), SU, Some(s.suQueue[0]), order);
      AssignKeepsCoherent(Dequeue(s, false), SU, Some(s.suQueue[0]), order);
    }
  }

  /** A pass that finds a queued user and an empty channel leaves one user fewer queued
      and one channel fewer empty. */
  lemma ServeCounts(s: Snapshot, order: seq<int>)
    requires |s.channels| == N && IsSlotPermutation(order)
    requires s.puQueue + s.suQueue != [] && None in s.channels
    ensures |Serve(s, order).0.puQueue| + |Serve(s, order).0.suQueue| + 1 == |s.puQueue| + |s.suQueue|
    ensures FreeCount(Serve(s, order).0.channels) + 1 == FreeCount(s.channels)
  {
    ServeDrainsOne(s, order);
    DrainedByCounts(s, Serve(s, order).0, 1);
  }
}
