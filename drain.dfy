/** The queue drain of `process_user_queue` as a relation between engine states: which
    users leave the queues, in which order, and where they end up. */
module QueueDrain {
  import opened Users
  import opened EngineState

  /** After `d` users were served from the queues `P` and `S` (primary users first, each
      queue first-in first-out), the queues left are `pq` and `sq`: together they are what
      follows the first `d` users of `P + S`, and the SU queue is only touched once the PU
      queue is exhausted. */
  predicate DrawnFrom(P: seq<UserId>, S: seq<UserId>, d: nat, pq: seq<UserId>, sq: seq<UserId>)
  {
    && d <= |P| + |S|
    && pq + sq == (P + S)[d..]
    && (d <= |P| ==> sq == S)
    && (d >= |P| ==> pq == [])
  }

  /** Serving the next user keeps `DrawnFrom`: it is the `d`-th user of `P + S`, taken from
      the head of the PU queue when that is non-empty and from the SU queue otherwise. */
  lemma DrawStep(P: seq<UserId>, S: seq<UserId>, d: nat, pq: seq<UserId>, sq: seq<UserId>)
    requires DrawnFrom(P, S, d, pq, sq) && pq + sq != []
    ensures d < |P + S|
    ensures pq != [] ==> pq[0] == (P + S)[d] && DrawnFrom(P, S, d + 1, pq[1..], sq)
    ensures pq == [] ==> sq[0] == (P + S)[d] && DrawnFrom(P, S, d + 1, [], sq[1..])
  {
    var Q := P + S;
    assert (pq + sq)[0] == Q[d];
    if pq != [] {
      assert pq[1..] + sq == Q[d + 1..] by {
        assert (pq + sq)[1..] == pq[1..] + sq;
      }
      if d + 1 >= |P| {
        assert |pq| == |P| - d by {
          assert |pq + sq| == |Q| - d;
        }
      }
    } else {
      assert sq[1..] == Q[d + 1..];
    }
  }

  /** After `d` users were served, `d` fewer are queued. */
  lemma DrawnFromCount(P: seq<UserId>, S: seq<UserId>, d: nat, pq: seq<UserId>, sq: seq<UserId>)
    requires DrawnFrom(P, S, d, pq, sq)
    ensures |pq + sq| == |P + S| - d
  {
    assert |(P + S)[d..]| == |P + S| - d;
  }

  /** `DrawnFrom` pins the remaining queues down: none but the first `d` users of `P + S`
      have left them. A statement about `DrawnFrom` on its own; no other proof needs it. */
  lemma DrawnFromDetermines(P: seq<UserId>, S: seq<UserId>, d: nat, pq: seq<UserId>, sq: seq<UserId>)
    requires DrawnFrom(P, S, d, pq, sq)
    ensures d <= |P| ==> pq == P[d..] && sq == S
    ensures d > |P| ==> pq == [] && sq == S[d - |P|..]
  {
    var Q := P + S;
    if d <= |P| {
      assert Q[d..] == P[d..] + S;
      assert pq == (pq + sq)[..|pq|];
    } else {
      assert Q[d..] == S[d - |P|..];
    }
  }

  /** Going from the channel list `before` to `after`, no occupied channel changed hands
      and every newly occupied channel went to a user of `from`. */
  predicate FilledFrom(before: seq<Option<UserId>>, after: seq<Option<UserId>>, from: seq<UserId>)
  {
    && |after| == |before|
    && (forall i :: 0 <= i < |before| && before[i].Some? ==> after[i] == before[i])
    && (forall i :: 0 <= i < |after| && after[i].Some? ==> after[i] == before[i] || after[i].value in from)
  }

  /** Every user of `served` holds a channel of `channels`. */
  predicate Seated(served: seq<UserId>, channels: seq<Option<UserId>>)
  {
    forall j :: 0 <= j < |served| ==> Some(served[j]) in channels
  }

  /** Giving an empty channel to a user of `from` keeps `FilledFrom`. */
  lemma FillStep(before: seq<Option<UserId>>, now: seq<Option<UserId>>, from: seq<UserId>, slot: int, u: UserId)
    requires FilledFrom(before, now, from) && 0 <= slot < |now| && now[slot] == None && u in from
    ensures FilledFrom(before, now[slot := Some(u)], from)
  {
  }

  /** Giving an empty channel to `u` seats `u` and unseats nobody. */
  lemma SeatStep(served: seq<UserId>, channels: seq<Option<UserId>>, slot: int, u: UserId)
    requires Seated(served, channels) && 0 <= slot < |channels| && channels[slot] == None
    ensures Seated(served + [u], channels[slot := Some(u)])
  {
    var after := channels[slot := Some(u)];
    forall j | 0 <= j < |served| + 1 ensures Some((served + [u])[j]) in after {
      if j < |served| {
        StillPresent(channels, slot, Some(u), Some(served[j]));
      } else {
        NowPresent(channels, slot, Some(u));
      }
    }
  }

  /** A user neither on a channel before nor among `from` is not on a channel after. */
  lemma OutsiderStaysOut(before: seq<Option<UserId>>, after: seq<Option<UserId>>, from: seq<UserId>, u: UserId)
    requires FilledFrom(before, after, from) && Some(u) !in before && u !in from
    ensures Some(u) !in after
  {
    forall i | 0 <= i < |after| ensures after[i] != Some(u) {
      if after[i].Some? && after[i] != before[i] {
        assert after[i].value in from;
      }
    }
  }

  /** The queues left by a drain hold nobody who was not queued before it. */
  lemma DrawnFromHoldsNoOutsider(P: seq<UserId>, S: seq<UserId>, d: nat, pq: seq<UserId>, sq: seq<UserId>, u: UserId)
    requires DrawnFrom(P, S, d, pq, sq) && u !in P + S
    ensures u !in pq && u !in sq
  {
    forall k | 0 <= k < |pq| + |sq| ensures (pq + sq)[k] != u {
      assert (pq + sq)[k] == (P + S)[d + k];
    }
    forall k | 0 <= k < |sq| ensures sq[k] != u {
      assert sq[k] == (pq + sq)[|pq| + k];
    }
    forall k | 0 <= k < |pq| ensures pq[k] != u {
      assert pq[k] == (pq + sq)[k];
    }
  }

  /** `t` is `s` after the first `d` queued users of `s` (primary users first, each queue
      first-in first-out) were given channels that were empty in `s`: nobody else moved,
      nobody on a channel lost it, `d` fairness values were recorded and no id was minted. */
  predicate DrainedBy(s: Snapshot, t: Snapshot, d: nat)
  {
    && DrawnFrom(s.puQueue, s.suQueue, d, t.puQueue, t.suQueue)
    && Seated((s.puQueue + s.suQueue)[..d], t.channels)
    && FilledFrom(s.channels, t.channels, s.puQueue + s.suQueue)
    && FreeCount(t.channels) + d == FreeCount(s.channels)
    && |t.fairnessHistory| == |s.fairnessHistory| + d
    && s.fairnessHistory <= t.fairnessHistory
    && t.puCounter == s.puCounter && t.suCounter == s.suCounter
  }

  /** Draining nobody leaves the state as it is. */
  lemma DrainedByNothing(s: Snapshot)
    ensures DrainedBy(s, s, 0)
  {
    assert (s.puQueue + s.suQueue)[0..] == s.puQueue + s.suQueue;
  }

  /** Serving `d1` users and then `d2` more is serving the first `d1 + d2`. */
  lemma DrawnFromCompose(P: seq<UserId>, S: seq<UserId>, d1: nat, pq: seq<UserId>, sq: seq<UserId>,
                         d2: nat, pq2: seq<UserId>, sq2: seq<UserId>)
    requires DrawnFrom(P, S, d1, pq, sq) && DrawnFrom(pq, sq, d2, pq2, sq2)
    ensures DrawnFrom(P, S, d1 + d2, pq2, sq2)
  {
    var Q := P + S;
    assert pq2 + sq2 == Q[d1 + d2..] by {
      assert (pq + sq)[d2..] == Q[d1..][d2..];
    }
    if d1 <= |P| {
      assert |pq| == |P| - d1 by {
        assert |pq + sq| == |Q| - d1;
      }
    }
  }

  /** A drain of `d1` users followed by a drain of `d2` users is a drain of `d1 + d2`. */
  lemma DrainedByCompose(s: Snapshot, t: Snapshot, u: Snapshot, d1: nat, d2: nat)
    requires DrainedBy(s, t, d1) && DrainedBy(t, u, d2)
    ensures DrainedBy(s, u, d1 + d2)
  {
    var Q := s.puQueue + s.suQueue;
    DrawnFromCompose(s.puQueue, s.suQueue, d1, t.puQueue, t.suQueue, d2, u.puQueue, u.suQueue);
    SeatedCompose(Q, d1, d2, t.channels, u.channels);
    FilledFromCompose(s.channels, t.channels, u.channels, Q, d1);
  }

  /** Users seated by the first drain keep their channels through the second. */
  lemma SeatedCompose(Q: seq<UserId>, d1: nat, d2: nat, mid: seq<Option<UserId>>, after: seq<Option<UserId>>)
    requires d1 + d2 <= |Q|
    requires Seated(Q[..d1], mid) && Seated(Q[d1..][..d2], after) && FilledFrom(mid, after, Q[d1..])
    ensures Seated(Q[..d1 + d2], after)
  {
    var served := Q[..d1 + d2];
    forall j | 0 <= j < d1 + d2 ensures Some(served[j]) in after {
      if j < d1 {
        var x := Some(Q[..d1][j]);
        var k :| 0 <= k < |mid| && mid[k] == x;
        assert after[k] == x;
      } else {
        assert served[j] == Q[d1..][..d2][j - d1];
      }
    }
  }

  /** Channels filled from the tail of `Q` were filled from `Q`. */
  lemma FilledFromCompose(before: seq<Option<UserId>>, mid: seq<Option<UserId>>, after: seq<Option<UserId>>,
                          Q: seq<UserId>, d1: nat)
    requires d1 <= |Q| && FilledFrom(before, mid, Q) && FilledFrom(mid, after, Q[d1..])
    ensures FilledFrom(before, after, Q)
  {
    forall i | 0 <= i < |after| && after[i].Some?
      ensures after[i] == before[i] || after[i].value in Q
    {
      if after[i] != mid[i] {
        var k :| 0 <= k < |Q[d1..]| && Q[d1..][k] == after[i].value;
        assert Q[d1..][k] == Q[d1 + k];
      }
    }
  }

  /** After `d` users were served, `d` fewer are queued and `d` fewer channels are empty. */
  lemma DrainedByCounts(s: Snapshot, t: Snapshot, d: nat)
    requires DrainedBy(s, t, d)
    ensures |t.puQueue| + |t.suQueue| + d == |s.puQueue| + |s.suQueue|
    ensures FreeCount(t.channels) + d == FreeCount(s.channels)
  {
    DrawnFromCount(s.puQueue, s.suQueue, d, t.puQueue, t.suQueue);
  }

  /** Serving the head of the queues (the PU queue first) on the empty channel `slot`,
      recording one fairness value and minting nothing, is a drain of one user. */
  lemma ServeIsDrainStep(s: Snapshot, t: Snapshot, slot: int)
    requires s.puQueue + s.suQueue != []
    requires s.puQueue != [] ==> t.puQueue == s.puQueue[1..] && t.suQueue == s.suQueue
    requires s.puQueue == [] ==> t.puQueue == [] && t.suQueue == s.suQueue[1..]
    requires 0 <= slot < |s.channels| && s.channels[slot] == None
    requires t.channels == s.channels[slot := Some((s.puQueue + s.suQueue)[0])]
    requires |t.fairnessHistory| == |s.fairnessHistory| + 1 && s.fairnessHistory <= t.fairnessHistory
    requires t.puCounter == s.puCounter && t.suCounter == s.suCounter
    ensures DrainedBy(s, t, 1)
  {
    var P, S := s.puQueue, s.suQueue;
    var Q := P + S;
    assert DrawnFrom(P, S, 0, P, S);
    DrawStep(P, S, 0, P, S);
    SeatStep([], s.channels, slot, Q[0]);
    assert Q[..1] == [] + [Q[0]];
    FreeCountUpdate(s.channels, slot, Some(Q[0]));
  }
}
