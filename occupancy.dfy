/** The occupancy table: user id -> whole seconds spent on a channel.
    The source keeps it in a Python dict, which remembers insertion order; the order
    decides the order of the values handed to the fairness index, so the table is a
    sequence of entries with pairwise distinct users. */
module Occupancy {
  import opened Users

  datatype Entry = Entry(user: UserId, secs: nat)

  function Keys(t: seq<Entry>): set<UserId>
  {
    set e | e in t :: e.user
  }

  ghost predicate DistinctKeys(t: seq<Entry>)
  {
    forall i, j :: 0 <= i < j < |t| ==> t[i].user != t[j].user
  }

  /** `t.get(k)`. */
  function Lookup(t: seq<Entry>, k: UserId): Option<nat>
  {
    if t == [] then None
    else if t[0].user == k then Some(t[0].secs)
    else Lookup(t[1..], k)
  }

  /** A key has a value exactly when it is in the table, and the value is its entry's. */
  lemma {:induction false} LookupSpec(t: seq<Entry>, k: UserId)
    ensures Lookup(t, k).Some? <==> k in Keys(t)
    ensures Lookup(t, k).Some? ==> Entry(k, Lookup(t, k).value) in t
  {
    if t != [] {
      LookupSpec(t[1..], k);
      KeysCons(t[0], t[1..]);
      assert t == [t[0]] + t[1..];
    }
  }

  /** `t.values()`, in insertion order. */
  function Values(t: seq<Entry>): seq<int>
  {
    if t == [] then [] else [t[0].secs as int] + Values(t[1..])
  }

  /** `t[k] = v`: an existing key keeps its position, a new key goes last. */
  function Put(t: seq<Entry>, k: UserId, v: nat): seq<Entry>
  {
    if t == [] then [Entry(k, v)]
    else if t[0].user == k then [Entry(k, v)] + t[1..]
    else [t[0]] + Put(t[1..], k, v)
  }

  /** Storing adds `k` to the keys: at the end when it is new, in place otherwise. */
  lemma {:induction false} PutSpec(t: seq<Entry>, k: UserId, v: nat)
    ensures Keys(Put(t, k, v)) == Keys(t) + {k}
    ensures k !in Keys(t) ==> Put(t, k, v) == t + [Entry(k, v)]
    ensures k in Keys(t) ==> |Put(t, k, v)| == |t|
  {
    if t != [] {
      KeysCons(t[0], t[1..]);
      assert t == [t[0]] + t[1..];
      if t[0].user == k {
        KeysCons(Entry(k, v), t[1..]);
      } else {
        var rest := Put(t[1..], k, v);
        PutSpec(t[1..], k, v);
        KeysCons(t[0], rest);
      }
    }
  }

  /** Storing an existing key overwrites its first entry where it stands: no entry moves. */
  lemma {:induction false} PutInPlace(t: seq<Entry>, k: UserId, v: nat)
    requires k in Keys(t)
    ensures exists i :: 0 <= i < |t| && t[i].user == k && Put(t, k, v) == t[i := Entry(k, v)]
  {
    KeysCons(t[0], t[1..]);
    assert t == [t[0]] + t[1..];
    if t[0].user != k {
      PutInPlace(t[1..], k, v);
      var i :| 0 <= i < |t[1..]| && t[1..][i].user == k && Put(t[1..], k, v) == t[1..][i := Entry(k, v)];
      assert Put(t, k, v) == t[i + 1 := Entry(k, v)];
    }
  }

  /** Storing a key never creates a second entry for it. */
  lemma {:induction false} PutKeepsKeysDistinct(t: seq<Entry>, k: UserId, v: nat)
    requires DistinctKeys(t)
    ensures DistinctKeys(Put(t, k, v))
  {
    if t != [] {
      DistinctCons(t[0], t[1..]);
      if t[0].user == k {
        DistinctCons(Entry(k, v), t[1..]);
      } else {
        PutKeepsKeysDistinct(t[1..], k, v);
        PutSpec(t[1..], k, v);
        DistinctCons(t[0], Put(t[1..], k, v));
      }
    }
  }

  /** After `t[k] = v`, `k` maps to `v` and every other key to what it mapped to before. */
  lemma {:induction false} LookupPut(t: seq<Entry>, k: UserId, v: nat, j: UserId)
    ensures Lookup(Put(t, k, v), j) == if j == k then Some(v) else Lookup(t, j)
  {
    if t != [] && t[0].user != k {
      LookupPut(t[1..], k, v, j);
      assert Put(t, k, v)[1..] == Put(t[1..], k, v);
    }
  }

  /** `t.pop(k, None)`: drops the first entry of `k`, if any, and keeps the order of
      the rest. */
  function Pop(t: seq<Entry>, k: UserId): seq<Entry>
  {
    if t == [] then []
    else if t[0].user == k then t[1..]
    else [t[0]] + Pop(t[1..], k)
  }

  /** Popping a missing key changes nothing; popping a present one removes one entry.
      On a table with distinct keys exactly `k` goes and the keys stay distinct. */
  lemma {:induction false} PopSpec(t: seq<Entry>, k: UserId)
    ensures k !in Keys(t) ==> Pop(t, k) == t
    ensures k in Keys(t) ==> |Pop(t, k)| == |t| - 1
    ensures DistinctKeys(t) ==> Keys(Pop(t, k)) == Keys(t) - {k} && DistinctKeys(Pop(t, k))
  {
    if t != [] {
      KeysCons(t[0], t[1..]);
      DistinctCons(t[0], t[1..]);
      assert t == [t[0]] + t[1..];
      if t[0].user != k {
        var rest := Pop(t[1..], k);
        PopSpec(t[1..], k);
        KeysCons(t[0], rest);
        DistinctCons(t[0], rest);
      }
    }
  }

  /** After `t.pop(k, None)`, `k` is missing and every other key maps to what it mapped to
      before. */
  lemma {:induction false} LookupPop(t: seq<Entry>, k: UserId, j: UserId)
    requires DistinctKeys(t)
    ensures Lookup(Pop(t, k), j) == if j == k then None else Lookup(t, j)
  {
    if t != [] {
      DistinctCons(t[0], t[1..]);
      assert t == [t[0]] + t[1..];
      if t[0].user == k {
        if j == k {
          LookupSpec(t[1..], k);
        }
      } else {
        LookupPop(t[1..], k, j);
        assert Pop(t, k)[1..] == Pop(t[1..], k);
      }
    }
  }

  /** One second of occupancy: every tracked user that holds a channel gains 1. */
  function Ticked(t: seq<Entry>, channels: seq<Option<UserId>>): (r: seq<Entry>)
    ensures |r| == |t|
  {
    if t == [] then []
    else
      var e := t[0];
      var e' := Entry(e.user, if Some(e.user) in channels then e.secs + 1 else e.secs);
      [e'] + Ticked(t[1..], channels)
  }

  /** Ticking keeps every entry in its place under its key and adds one second to the
      entries of the users holding a channel. */
  lemma {:induction false} TickedSpec(t: seq<Entry>, channels: seq<Option<UserId>>)
    ensures forall i :: 0 <= i < |t| ==> Ticked(t, channels)[i].user == t[i].user
    ensures forall i :: 0 <= i < |t| ==>
      Ticked(t, channels)[i].secs == if Some(t[i].user) in channels then t[i].secs + 1 else t[i].secs
    ensures Keys(Ticked(t, channels)) == Keys(t)
  {
    if t != [] {
      var r, rest := Ticked(t, channels), Ticked(t[1..], channels);
      TickedSpec(t[1..], channels);
      assert r == [r[0]] + rest;
      forall i | 1 <= i < |t|
        ensures r[i].user == t[i].user
        ensures r[i].secs == if Some(t[i].user) in channels then t[i].secs + 1 else t[i].secs
      {
        assert r[i] == rest[i - 1] && t[i] == t[1..][i - 1];
      }
      KeysCons(t[0], t[1..]);
      KeysCons(r[0], rest);
      assert t == [t[0]] + t[1..];
    }
  }

  /** Ticking changes no key and adds exactly one second to each key held on a channel. */
  lemma {:induction false} LookupTicked(t: seq<Entry>, channels: seq<Option<UserId>>, k: UserId)
    ensures Lookup(Ticked(t, channels), k).Some? == Lookup(t, k).Some?
    ensures Lookup(t, k).Some? ==>
      Lookup(Ticked(t, channels), k).value ==
        if Some(k) in channels then Lookup(t, k).value + 1 else Lookup(t, k).value
  {
    if t != [] {
      var r := Ticked(t, channels);
      assert r == [r[0]] + r[1..];
      assert r[1..] == Ticked(t[1..], channels);
      LookupTicked(t[1..], channels, k);
    }
  }

  lemma KeysCons(e: Entry, t: seq<Entry>)
    ensures Keys([e] + t) == {e.user} + Keys(t)
  {
    assert forall x :: x in [e] + t <==> x == e || x in t;
  }

  lemma DistinctCons(e: Entry, t: seq<Entry>)
    ensures DistinctKeys([e] + t) <==> e.user !in Keys(t) && DistinctKeys(t)
  {
    var s := [e] + t;
    if DistinctKeys(s) {
      forall x | x in t ensures x.user != e.user {
        var j :| 0 <= j < |t| && t[j] == x;
        assert s[0] == e && s[j + 1] == x;
        assert s[0].user != s[j + 1].user;
      }
      forall i, j | 0 <= i < j < |t| ensures t[i].user != t[j].user {
        assert s[i + 1] == t[i] && s[j + 1] == t[j];
      }
    }
    if e.user !in Keys(t) && DistinctKeys(t) {
      forall i, j | 0 <= i < j < |s| ensures s[i].user != s[j].user {
        if i == 0 {
          assert s[j] in t;
        } else {
          assert s[i] == t[i - 1] && s[j] == t[j - 1];
        }
      }
    }
  }

  /** A user put in with no time and then ticked while on a channel has one second. */
  lemma LookupTickedPut(t: seq<Entry>, channels: seq<Option<UserId>>, id: UserId)
    requires Some(id) in channels
    ensures Lookup(Ticked(Put(t, id, 0), channels), id) == Some(1)
  {
    LookupPut(t, id, 0, id);
    LookupTicked(Put(t, id, 0), channels, id);
  }

  /** Everybody else is ticked as if the put had not happened. */
  lemma LookupTickedPutOther(t: seq<Entry>, channels: seq<Option<UserId>>, id: UserId, u: UserId)
    requires u != id
    ensures Lookup(Ticked(Put(t, id, 0), channels), u) == Lookup(Ticked(t, channels), u)
  {
    LookupPut(t, id, 0, u);
    LookupTicked(Put(t, id, 0), channels, u);
    LookupTicked(t, channels, u);
  }
}
