/** The table of pending futures (src/actor/future_table.c): linear probing with deletion by
    re-insertion of the cluster. */
module FutureTable {
  import opened Probing

  class Futures<V> {
    var buckets: array<Slot<V>>
    var count: nat
    var nextId: nat
    ghost var at: map<nat, nat>

    ghost predicate Valid()
      reads this, buckets
    {
      && Wf(buckets[..], at) && NoTombs(buckets[..])
      && count == Used(buckets[..]) && Pow2(buckets.Length) && 8 <= buckets.Length && count < buckets.Length
      && nextId >= 1 && forall id :: id in at ==> 0 < id < nextId
    }

    /** The futures by id. */
    ghost function Entries(): map<nat, V>
      requires Valid()
      reads this, buckets
    {
      Contents(buckets[..], at)
    }

    constructor (initialCapacity: nat)
      ensures Valid() && fresh(buckets) && Entries() == map[] && nextId == 1
    {
      var cap := NextPow2(if initialCapacity < 8 then 8 else initialCapacity);
      buckets := new Slot<V>[cap](_ => Empty);
      count, nextId, at := 0, 1, map[];
      new;
      CountEmpty(buckets[..]);
    }

    /** Ids are handed out in order. The table grows first if it is 70% full. */
    method New(v: V) returns (id: nat)
      requires Valid()
      modifies this, buckets
      ensures Valid() && (buckets == old(buckets) || fresh(buckets))
      ensures id == old(nextId) && nextId == id + 1
      ensures id !in old(Entries()) && Entries() == old(Entries())[id := v]
    {
      hide Pow2, Wf, Indexed, Probed, Contents, Used, Live, Reached;
      NoTombsCount(buckets[..]);
      KeysAre(buckets[..], at);
      if count * 10 >= buckets.Length * 7 {
        WfIndexed(buckets[..], at);
        Doubled(buckets.Length);
        buckets, at := Rehash(buckets, buckets.Length * 2, at);
      }
      id := nextId;
      nextId := nextId + 1;
      ghost var t := buckets[..];
      ghost var e := EmptySlot(t);
      var idx := FindFree(buckets, id, e);
      Inserted(t, at, id, v, idx);
      CountSet(t, idx, Full(id, v));
      buckets[idx] := Full(id, v);
      assert buckets[..] == t[idx := Full(id, v)];
      count := count + 1;
      at := at[id := idx];
    }

    method Lookup(id: nat) returns (found: bool, pos: nat)
      requires Valid()
      ensures found <==> id in Entries()
      ensures found ==> pos < buckets.Length && buckets[pos] == Full(id, Entries()[id])
    {
      hide Pow2, Wf, Indexed, Probed, Contents, Used, Live, Passed;
      if id == 0 { KeysAre(buckets[..], at); return false, 0; }
      ghost var t := buckets[..];
      ghost var e := EmptySlot(t);
      var idx := Home(id, buckets.Length);
      ProbeStart(t, id);
      while buckets[idx] != Empty
        invariant 0 <= idx < buckets.Length && Passed(t, id, idx)
        decreases Dist(idx, e, buckets.Length)
      {
        if buckets[idx].Full? && buckets[idx].id == id {
          FoundAt(t, at, idx);
          return true, idx;
        }
        PassedNext(t, id, idx, e);
        idx := Next(idx, buckets.Length);
      }
      NotFound(t, at, id, idx);
      KeysAre(t, at);
      found, pos := false, 0;
    }

    method Remove(id: nat)
      requires Valid()
      modifies this, buckets
      ensures Valid() && buckets == old(buckets) && nextId == old(nextId)
      ensures Entries() == old(Entries()) - {id}
    {
      hide Pow2, Wf, Indexed, Probed, Contents, Used, Live, Reached;
      KeysAre(buckets[..], at);
      var found, pos := Lookup(id);
      if found {
        ghost var t := buckets[..];
        ghost var m := Entries();
        ghost var e := EmptySlot(t);
        ghost var end := FirstEmpty(t, Next(pos, |t|), e);
        GapStart(t, at, pos, end);
        CountSet(t, pos, Empty);
        buckets[pos] := Empty;
        assert buckets[..] == t[pos := Empty];
        count := count - 1;
        at := at - {id};
        Reinsert(pos, end, m - {id});
      }
    }

    /** Re-insert the entries that follow pos in its cluster. */
    method Reinsert(pos: nat, ghost end: nat, ghost m: map<nat, V>)
      requires NoTombs(buckets[..]) && count == Used(buckets[..]) && Pow2(buckets.Length) && 8 <= buckets.Length && count < buckets.Length
      requires nextId >= 1 && forall id :: id in at ==> 0 < id < nextId
      requires pos < buckets.Length && Gap(buckets[..], at, pos, Next(pos, buckets.Length), end)
      requires GapContents(buckets[..], at, pos, Next(pos, buckets.Length), end) == m
      modifies this`count, this`at, buckets
      ensures Valid() && Entries() == m
    {
      hide Pow2, Wf, Indexed, Probed, Contents, Used, Live, Reached, Gap;
      var next := Next(pos, buckets.Length);
      GapFrame(buckets[..], at, pos, next, end);
      while buckets[next] != Empty
        invariant 0 <= next < buckets.Length && end < buckets.Length && buckets[end] == Empty
        invariant NoTombs(buckets[..]) && count == Used(buckets[..]) && count < buckets.Length
        invariant forall id :: id in at ==> 0 < id < nextId
        invariant Gap(buckets[..], at, pos, next, end) && GapContents(buckets[..], at, pos, next, end) == m
        decreases Dist(next, end, buckets.Length)
      {
        ghost var t := buckets[..];
        GapFrame(t, at, pos, next, end);
        var displaced := buckets[next];
        CountSet(t, next, Empty);
        buckets[next] := Empty;
        count := count - 1;
        ghost var t1 := t[next := Empty];
        assert buckets[..] == t1;
        var target := FindFree(buckets, displaced.id, end);
        GapStep(t, at, pos, next, end, target);
        CountSet(t1, target, displaced);
        buckets[target] := displaced;
        count := count + 1;
        assert buckets[..] == t1[target := displaced];
        IdKnown(t, at, next);
        at := at[displaced.id := target];
        next := Next(next, buckets.Length);
        GapFrame(buckets[..], at, pos, next, end);
      }
      GapDone(buckets[..], at, pos, next, end);
      GapEnd(buckets[..], at, pos, end);
    }
  }

  // ---- helpers that keep the invariant folded ----

  ghost function GapContents<V>(t: Table<V>, at: map<nat, nat>, pos: nat, next: nat, end: nat): map<nat, V>
    requires Gap(t, at, pos, next, end)
  {
    Contents(t, at)
  }

  lemma GapFrame<V>(t: Table<V>, at: map<nat, nat>, pos: nat, next: nat, end: nat)
    requires Gap(t, at, pos, next, end)
    ensures next < |t| && end < |t| && t[end] == Empty && Indexed(t, at)
  {
  }

  /** The loop stops exactly at the end of the cluster. */
  lemma GapDone<V>(t: Table<V>, at: map<nat, nat>, pos: nat, next: nat, end: nat)
    requires Gap(t, at, pos, next, end) && t[next] == Empty
    ensures next == end
  {
    assert next != end ==> On(next, next, end);
  }

  lemma IdKnown<V>(t: Table<V>, at: map<nat, nat>, p: nat)
    requires Indexed(t, at) && p < |t| && t[p].Full?
    ensures t[p].id in at
  {
  }

  lemma {:induction false} NoTombsCount<V>(t: Table<V>)
    requires NoTombs(t)
    ensures Used(t) == Live(t)
  {
    if t != [] { NoTombsCount(t[..|t| - 1]); }
  }

  lemma FoundAt<V>(t: Table<V>, at: map<nat, nat>, p: nat)
    requires Wf(t, at) && p < |t| && t[p].Full?
    ensures Indexed(t, at) && t[p].id in Contents(t, at) && t[p] == Full(t[p].id, Contents(t, at)[t[p].id])
  {
  }
}
