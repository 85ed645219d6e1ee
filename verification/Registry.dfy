/** The table of actors by id (src/actor/registry.c): linear probing with tombstones. */
module Registry {
  import opened Common
  import opened Probing

  const ENTRY_EMPTY := 0
  const ENTRY_TOMBSTONE := 0xFFFF_FFFF

  /** Ids that no actor may have, because the table uses them as marks. */
  predicate Reserved(id: nat) { id == ENTRY_EMPTY || id == ENTRY_TOMBSTONE }

  class Actors<V> {
    var entries: array<Slot<V>>
    var count: nat
    var used: nat
    ghost var at: map<nat, nat>

    /** `count` is the number of live entries, `used` counts tombstones too, and there is always
        a slot that is neither. */
    ghost predicate Valid()
      reads this, entries
    {
      && Wf(entries[..], at)
      && count == Live(entries[..]) && used == Used(entries[..]) && Pow2(entries.Length) && 8 <= entries.Length && used < entries.Length
      && forall id :: id in at ==> !Reserved(id)
    }

    ghost function Entries(): map<nat, V>
      requires Valid()
      reads this, entries
    {
      Contents(entries[..], at)
    }

    constructor (initialCapacity: nat)
      ensures Valid() && fresh(entries) && Entries() == map[] && count == 0
    {
      entries := new Slot<V>[NextPow2(if initialCapacity < 8 then 8 else initialCapacity)](_ => Empty);
      count, used, at := 0, 0, map[];
      new;
      CountEmpty(entries[..]);
    }

    /** An id that is there already gets the new actor; a reserved id is ignored. */
    method Register(id: nat, v: V)
      requires Valid()
      modifies this, entries
      ensures Valid() && (entries == old(entries) || fresh(entries))
      ensures Entries() == if Reserved(id) then old(Entries()) else old(Entries())[id := v]
      ensures count == old(count) + (if Reserved(id) || id in old(Entries()) then 0 else 1)
    {
      hide Pow2, Wf, Indexed, Probed, Contents, Used, Live, Reached, Passed;
      if Reserved(id) { return; }
      KeysAre(entries[..], at);
      Grow();
      KeysAre(entries[..], at);
      var idx, free := Probe(id);
      if entries[idx].Full? {
        ghost var t := entries[..];
        Replaced(t, at, idx, v);
        CountSet(t, idx, Full(id, v));
        entries[idx] := Full(id, v);
        assert entries[..] == t[idx := Full(id, v)];
      } else {
        Insert(id, v, if free.Some? then free.value else idx);
      }
    }

    /** Double the table when tombstones and live entries fill 70% of it. */
    method Grow()
      requires Valid()
      modifies this
      ensures Valid() && (entries == old(entries) || fresh(entries)) && used + 1 < entries.Length
      ensures Entries() == old(Entries()) && count == old(count)
    {
      hide Pow2, Wf, Indexed, Probed, Contents, Used, Live;
      KeysAre(entries[..], at);
      CountBound(entries[..]);
      if used * 10 >= entries.Length * 7 {
        Doubled(entries.Length);
        entries, at := Rehash(entries, entries.Length * 2, at);
        used := count;
        KeysAre(entries[..], at);
      }
    }

    /** Fill a tombstone or an empty slot on the probe path. */
    method Insert(id: nat, v: V, idx: nat)
      requires Valid() && !Reserved(id) && id !in at && used + 1 < entries.Length
      requires idx < entries.Length && !entries[idx].Full? && Reached(entries[..], id, idx)
      modifies this, entries
      ensures Valid() && entries == old(entries)
      ensures Entries() == old(Entries())[id := v] && count == old(count) + 1
    {
      hide Pow2, Wf, Indexed, Probed, Contents, Used, Live, Reached;
      ghost var t := entries[..];
      Inserted(t, at, id, v, idx);
      CountSet(t, idx, Full(id, v));
      if entries[idx] == Empty { used := used + 1; }
      entries[idx] := Full(id, v);
      assert entries[..] == t[idx := Full(id, v)];
      at := at[id := idx];
      count := count + 1;
    }

    /** Probe to the entry of id, or to an empty slot, noting the first tombstone on the way. */
    method Probe(id: nat) returns (idx: nat, free: Option<nat>)
      requires Wf(entries[..], at) && used == Used(entries[..]) && 0 < entries.Length && used < entries.Length
      ensures idx < entries.Length
      ensures entries[idx].Full? ==> entries[idx].id == id && id in at && at[id] == idx
      ensures !entries[idx].Full? ==> entries[idx] == Empty && id !in at && Reached(entries[..], id, idx)
      ensures free.Some? ==> free.value < entries.Length && entries[free.value] == Tomb && Reached(entries[..], id, free.value)
    {
      hide Pow2, Wf, Indexed, Probed, Contents, Used, Live, Reached, Passed;
      ghost var t := entries[..];
      ghost var e := EmptySlot(t);
      idx, free := Home(id, entries.Length), None;
      ProbeStart(t, id);
      while entries[idx] != Empty
        invariant 0 <= idx < entries.Length && Passed(t, id, idx)
        invariant free.Some? ==> free.value < entries.Length && entries[free.value] == Tomb && Reached(t, id, free.value)
        decreases Dist(idx, e, entries.Length)
      {
        PassedReached(t, id, idx);
        if entries[idx] == Tomb && free == None { free := Some(idx); }
        if entries[idx].Full? && entries[idx].id == id {
          At(t, at, idx);
          return;
        }
        PassedNext(t, id, idx, e);
        idx := Next(idx, entries.Length);
      }
      PassedReached(t, id, idx);
      NotFound(t, at, id, idx);
    }

    method Unregister(id: nat)
      requires Valid()
      modifies this, entries
      ensures Valid() && entries == old(entries) && used == old(used)
      ensures Entries() == old(Entries()) - {id}
      ensures count == old(count) - (if id in old(Entries()) then 1 else 0)
    {
      hide Pow2, Wf, Indexed, Probed, Contents, Used, Live, Reached;
      KeysAre(entries[..], at);
      if Reserved(id) { return; }
      var idx, _ := Probe(id);
      if entries[idx].Full? {
        ghost var t := entries[..];
        Buried(t, at, idx);
        CountSet(t, idx, Tomb);
        entries[idx] := Tomb;
        assert entries[..] == t[idx := Tomb];
        at := at - {id};
        count := count - 1;
      }
    }

    method Lookup(id: nat) returns (r: Option<V>)
      requires Valid()
      ensures r == if id in Entries() then Some(Entries()[id]) else None
    {
      hide Pow2, Wf, Indexed, Probed, Contents, Used, Live, Reached;
      KeysAre(entries[..], at);
      if Reserved(id) { return None; }
      var idx, _ := Probe(id);
      if entries[idx].Full? {
        ValueAt(entries[..], at, idx);
        return Some(entries[idx].v);
      }
      r := None;
    }
  }

  // ---- single updates ----

  lemma ValueAt<V>(t: Table<V>, at: map<nat, nat>, p: nat)
    requires Wf(t, at) && p < |t| && t[p].Full?
    ensures Indexed(t, at) && t[p].id in Contents(t, at) && t[p].v == Contents(t, at)[t[p].id]
  {
  }

  lemma At<V>(t: Table<V>, at: map<nat, nat>, p: nat)
    requires Wf(t, at) && p < |t| && t[p].Full?
    ensures t[p].id in at && at[t[p].id] == p
  {
  }

  lemma PassedReached<V>(t: Table<V>, id: nat, p: nat)
    requires p < |t| && Passed(t, id, p)
    ensures Reached(t, id, p)
  {
  }

  lemma Replaced<V>(t: Table<V>, at: map<nat, nat>, p: nat, v: V)
    requires Wf(t, at) && p < |t| && t[p].Full?
    ensures var t' := t[p := Full(t[p].id, v)];
            Wf(t', at) && Contents(t', at) == Contents(t, at)[t[p].id := v]
  {
    hide Home, On;
    var t' := t[p := Full(t[p].id, v)];
    forall i | i in at ensures Holds(t', at, i) { assert Holds(t, at, i); }
    forall q | 0 <= q < |t'| && t'[q].Full? ensures Reached(t', t'[q].id, q) { assert Reached(t, t[q].id, q); }
    forall i | i in at ensures Contents(t', at)[i] == Contents(t, at)[t[p].id := v][i] { assert Holds(t, at, i); }
  }

  /** A tombstone keeps every other probe path. */
  lemma Buried<V>(t: Table<V>, at: map<nat, nat>, p: nat)
    requires Wf(t, at) && p < |t| && t[p].Full?
    ensures var t', at' := t[p := Tomb], at - {t[p].id};
            Wf(t', at') && Contents(t', at') == Contents(t, at) - {t[p].id}
  {
    hide Home, On;
    var t', at' := t[p := Tomb], at - {t[p].id};
    forall i | i in at' ensures Holds(t', at', i) { assert Holds(t, at, i); }
    forall q | 0 <= q < |t'| && t'[q].Full? ensures Reached(t', t'[q].id, q) { assert Reached(t, t[q].id, q); }
    forall i | i in at' ensures Contents(t', at')[i] == Contents(t, at)[i] { assert Holds(t, at, i); }
  }
}
