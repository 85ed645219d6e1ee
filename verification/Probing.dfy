/** Linear probing in a circular table: what the future table, the actor registry and their
    rehashing have in common (src/actor/future_table.c, src/actor/registry.c). */
module Probing {

  datatype Slot<V> = Empty | Tomb | Full(id: nat, v: V)

  type Table<V> = seq<Slot<V>>

  // ---- capacities are powers of two ----

  ghost predicate Pow2(n: nat) { n == 1 || (n > 1 && n % 2 == 0 && Pow2(n / 2)) }

  /** The smallest power of two that is at least v. */
  function NextPow2(v: nat): (p: nat)
    ensures p >= v && Pow2(p)
    ensures v >= 2 ==> p < 2 * v
    decreases v
  {
    if v <= 1 then 1 else 2 * NextPow2((v + 1) / 2)
  }

  /** Bitwise and. */
  function And(a: nat, b: nat): (r: nat)
    ensures r <= b
    decreases a
  {
    if a == 0 then 0 else 2 * And(a / 2, b / 2) + (if a % 2 == 1 && b % 2 == 1 then 1 else 0)
  }

  /** Masking with capacity - 1 keeps what is below the capacity and wraps the capacity to 0. */
  lemma {:induction false} Masked(x: nat, cap: nat)
    requires Pow2(cap) && x <= cap
    ensures And(x, cap - 1) == if x == cap then 0 else x
    decreases x
  {
    if x > 0 && cap > 1 { Masked(x / 2, cap / 2); }
  }

  // ---- positions on the circle ----

  function Home(id: nat, cap: nat): (h: nat)
    requires cap > 0
    ensures h < cap
  {
    And(id, cap - 1)
  }

  function Next(i: nat, cap: nat): (n: nat)
    requires i < cap
    ensures n < cap
  {
    if i + 1 == cap then 0 else i + 1
  }

  /** Next is (i + 1) & mask. */
  lemma NextIsMasked(i: nat, cap: nat)
    requires Pow2(cap) && i < cap
    ensures And(i + 1, cap - 1) == Next(i, cap)
  {
    Masked(i + 1, cap);
  }

  lemma Doubled(cap: nat)
    requires Pow2(cap)
    ensures Pow2(cap * 2)
  {
    assert cap * 2 / 2 == cap;
  }

  /** q lies on the way from a up to, but not including, b. */
  predicate On(a: nat, q: nat, b: nat) { if a <= b then a <= q < b else q >= a || q < b }

  /** Steps from a to b. */
  function Dist(a: nat, b: nat, cap: nat): nat
    requires a < cap && b < cap
  {
    if a <= b then b - a else b + cap - a
  }

  // ---- the probing invariant ----

  /** A probe for id reaches p. */
  ghost predicate Reached<V>(t: Table<V>, id: nat, p: nat)
    requires p < |t|
  {
    forall q :: 0 <= q < |t| && On(Home(id, |t|), q, p) ==> t[q] != Empty
  }

  ghost predicate Holds<V>(t: Table<V>, at: map<nat, nat>, id: nat) { id in at && at[id] < |t| && t[at[id]].Full? && t[at[id]].id == id }

  /** `at` says where each id is, and nothing else is in the table. */
  ghost predicate Indexed<V>(t: Table<V>, at: map<nat, nat>)
  {
    && (forall id :: id in at ==> Holds(t, at, id))
    && (forall p :: 0 <= p < |t| && t[p].Full? ==> t[p].id in at && at[t[p].id] == p)
  }

  ghost predicate Probed<V>(t: Table<V>) { forall p :: 0 <= p < |t| && t[p].Full? ==> Reached(t, t[p].id, p) }

  ghost predicate Wf<V>(t: Table<V>, at: map<nat, nat>) { Indexed(t, at) && Probed(t) }

  /** The map a table stands for. */
  ghost function Contents<V>(t: Table<V>, at: map<nat, nat>): map<nat, V>
    requires Indexed(t, at)
  {
    map id | id in at :: (assert Holds(t, at, id); t[at[id]].v)
  }

  lemma KeysAre<V>(t: Table<V>, at: map<nat, nat>)
    requires Wf(t, at)
    ensures Indexed(t, at) && Contents(t, at).Keys == at.Keys
  {
  }

  // ---- counting ----

  function Used<V>(t: Table<V>): nat
  {
    if t == [] then 0 else Used(t[..|t| - 1]) + (if t[|t| - 1].Empty? then 0 else 1)
  }

  function Live<V>(t: Table<V>): nat
  {
    if t == [] then 0 else Live(t[..|t| - 1]) + (if t[|t| - 1].Full? then 1 else 0)
  }

  lemma {:induction false} CountSet<V>(t: Table<V>, i: nat, x: Slot<V>)
    requires i < |t|
    ensures Used(t[i := x]) == Used(t) - (if t[i].Empty? then 0 else 1) + (if x.Empty? then 0 else 1)
    ensures Live(t[i := x]) == Live(t) - (if t[i].Full? then 1 else 0) + (if x.Full? then 1 else 0)
    decreases |t|
  {
    var n := |t| - 1;
    if i < n {
      CountSet(t[..n], i, x);
      assert t[i := x][..n] == t[..n][i := x];
    } else {
      assert t[i := x][..n] == t[..n];
    }
  }

  lemma {:induction false} CountBound<V>(t: Table<V>)
    ensures Live(t) <= Used(t) <= |t|
  {
    if t != [] { CountBound(t[..|t| - 1]); }
  }

  /** A table that is not full has an empty slot. */
  lemma {:induction false} EmptySlot<V>(t: Table<V>) returns (e: nat)
    requires Used(t) < |t|
    ensures e < |t| && t[e] == Empty
  {
    var n := |t| - 1;
    if t[n].Empty? { e := n; } else { e := EmptySlot(t[..n]); }
  }

  lemma {:induction false} CountEmpty<V>(t: Table<V>)
    requires forall p :: 0 <= p < |t| ==> t[p] == Empty
    ensures Used(t) == 0 && Live(t) == 0
  {
    if t != [] { CountEmpty(t[..|t| - 1]); }
  }

  // ---- looking ----

  /** Probing for id has passed everything before p without finding it. */
  ghost predicate Passed<V>(t: Table<V>, id: nat, p: nat)
    requires p < |t|
  {
    forall q :: 0 <= q < |t| && On(Home(id, |t|), q, p) ==> t[q] != Empty && !(t[q].Full? && t[q].id == id)
  }

  /** One step further, as long as an empty slot e is ahead. */
  lemma PassedNext<V>(t: Table<V>, id: nat, p: nat, e: nat)
    requires p < |t| && e < |t| && t[e] == Empty && Passed(t, id, p) && t[p] != Empty && !(t[p].Full? && t[p].id == id)
    ensures Passed(t, id, Next(p, |t|)) && Dist(Next(p, |t|), e, |t|) < Dist(p, e, |t|)
  {
    hide Home;
    var h := Home(id, |t|);
    assert !On(h, e, p);
    forall q | 0 <= q < |t| && On(h, q, Next(p, |t|)) ensures On(h, q, p) || q == p {
    }
  }

  lemma ReachedNext<V>(t: Table<V>, id: nat, p: nat, e: nat)
    requires p < |t| && e < |t| && t[e] == Empty && Reached(t, id, p) && t[p] != Empty
    ensures Reached(t, id, Next(p, |t|)) && Dist(Next(p, |t|), e, |t|) < Dist(p, e, |t|)
  {
    hide Home;
    assert !On(Home(id, |t|), e, p);
  }

  lemma ProbeStart<V>(t: Table<V>, id: nat)
    requires |t| > 0
    ensures Passed(t, id, Home(id, |t|)) && Reached(t, id, Home(id, |t|))
  {
  }

  /** An empty slot ends the search: the id is not there. */
  lemma NotFound<V>(t: Table<V>, at: map<nat, nat>, id: nat, p: nat)
    requires Wf(t, at) && p < |t| && Passed(t, id, p) && t[p] == Empty
    ensures id !in at
  {
    hide Home;
    assert id in at ==> Holds(t, at, id);
  }

  // ---- inserting ----

  /** Filling a slot that is not taken keeps every probe path. */
  lemma Inserted<V>(t: Table<V>, at: map<nat, nat>, id: nat, v: V, p: nat)
    requires Wf(t, at) && p < |t| && !t[p].Full? && id !in at && Reached(t, id, p)
    ensures Wf(t[p := Full(id, v)], at[id := p])
    ensures Contents(t[p := Full(id, v)], at[id := p]) == Contents(t, at)[id := v]
  {
    hide Home, On;
    var t', at' := t[p := Full(id, v)], at[id := p];
    forall i | i in at' ensures Holds(t', at', i) { assert i != id ==> Holds(t, at, i); }
    forall q | 0 <= q < |t'| && t'[q].Full? ensures Reached(t', t'[q].id, q) {
      assert q != p ==> Reached(t, t[q].id, q);
    }
    forall i | i in at ensures Contents(t', at')[i] == Contents(t, at)[i] { assert Holds(t, at, i); }
  }

  /** The first empty slot from p on, given some empty slot. */
  lemma {:induction false} FirstEmpty<V>(t: Table<V>, p: nat, e: nat) returns (f: nat)
    requires p < |t| && e < |t| && t[e] == Empty
    ensures f < |t| && t[f] == Empty && forall q :: 0 <= q < |t| && On(p, q, f) ==> t[q] != Empty
    decreases Dist(p, e, |t|)
  {
    if t[p] == Empty { f := p; } else { f := FirstEmpty(t, Next(p, |t|), e); }
  }

  // ---- removing by re-insertion of the cluster ----

  /** While the cluster from pos to the empty slot `end` is being re-inserted and `next` is the
      first entry not yet done: entries outside the rest of the cluster are probed properly; for
      those inside, probing may only be broken by slots already done. */
  ghost predicate Gap<V>(t: Table<V>, at: map<nat, nat>, pos: nat, next: nat, end: nat)
  {
    && pos < |t| && next < |t| && end < |t| && t[end] == Empty
    && pos != next && pos != end && Dist(pos, next, |t|) <= Dist(pos, end, |t|)
    && Indexed(t, at)
    && (forall q :: 0 <= q < |t| && On(next, q, end) ==> t[q].Full?)
    && (forall p :: 0 <= p < |t| && t[p].Full? && !On(next, p, end) ==> Reached(t, t[p].id, p))
    && (forall p :: 0 <= p < |t| && t[p].Full? && On(next, p, end) ==> ReachedBut(t, t[p].id, p, pos, next))
  }

  ghost predicate ReachedBut<V>(t: Table<V>, id: nat, p: nat, from: nat, to: nat)
    requires p < |t|
  {
    forall q :: 0 <= q < |t| && On(Home(id, |t|), q, p) ==> t[q] != Empty || On(from, q, to)
  }

  ghost predicate NoTombs<V>(t: Table<V>) { forall p :: 0 <= p < |t| ==> t[p] != Tomb }

  lemma GapStart<V>(t: Table<V>, at: map<nat, nat>, pos: nat, end: nat)
    requires Wf(t, at) && NoTombs(t) && pos < |t| && end < |t| && t[pos].Full? && t[end] == Empty
    requires forall q :: 0 <= q < |t| && On(Next(pos, |t|), q, end) ==> t[q] != Empty
    ensures Gap(t[pos := Empty], at - {t[pos].id}, pos, Next(pos, |t|), end)
    ensures Contents(t[pos := Empty], at - {t[pos].id}) == Contents(t, at) - {t[pos].id}
  {
    hide Home;
    var t', at', n := t[pos := Empty], at - {t[pos].id}, Next(pos, |t|);
    forall i | i in at' ensures Holds(t', at', i) { assert Holds(t, at, i); }
    forall p | 0 <= p < |t| && t'[p].Full? && !On(n, p, end) ensures Reached(t', t'[p].id, p) {
      assert Reached(t, t[p].id, p);
      assert !On(Home(t[p].id, |t|), end, p);
    }
    forall p | 0 <= p < |t| && t'[p].Full? && On(n, p, end) ensures ReachedBut(t', t'[p].id, p, pos, n) {
      assert Reached(t, t[p].id, p);
    }
    forall i | i in at' ensures Contents(t', at')[i] == Contents(t, at)[i] { assert Holds(t, at, i); }
  }

  /** The entry at `next` finds its place at or before where it was. */
  lemma GapTarget<V>(t: Table<V>, at: map<nat, nat>, pos: nat, next: nat, end: nat, target: nat)
    requires Gap(t, at, pos, next, end) && next != end && target < |t|
    requires var t1 := t[next := Empty]; t1[target] == Empty && Reached(t1, t[next].id, target)
    ensures target == next || On(pos, target, next)
    ensures target != end
  {
    hide Home;
    assert ReachedBut(t, t[next].id, next, pos, next);
    var h := Home(t[next].id, |t|);
    assert !On(h, next, target);
  }

  lemma Moved<V>(t: Table<V>, at: map<nat, nat>, next: nat, target: nat)
    requires Indexed(t, at) && next < |t| && target < |t| && t[next].Full? && t[next := Empty][target] == Empty
    ensures var t2, at2 := t[next := Empty][target := t[next]], at[t[next].id := target];
            Indexed(t2, at2) && Contents(t2, at2) == Contents(t, at)
  {
    var d := t[next];
    var t2, at2 := t[next := Empty][target := d], at[d.id := target];
    forall i | i in at2 ensures Holds(t2, at2, i) { assert i != d.id ==> Holds(t, at, i); }
    forall i | i in at ensures Contents(t2, at2)[i] == Contents(t, at)[i] { assert Holds(t, at, i); }
  }

  lemma MovedOutside<V>(t: Table<V>, at: map<nat, nat>, pos: nat, next: nat, end: nat, target: nat, p: nat)
    requires Gap(t, at, pos, next, end) && next != end && target < |t| && p < |t| && p != target && target != end
    requires t[next := Empty][p].Full? && !On(Next(next, |t|), p, end)
    ensures Reached(t[next := Empty][target := t[next]], t[p].id, p)
  {
    hide Home, Indexed;
    assert p != next && !On(next, p, end);
    assert Reached(t, t[p].id, p);
    assert !On(Home(t[p].id, |t|), end, p);
  }

  lemma MovedInside<V>(t: Table<V>, at: map<nat, nat>, pos: nat, next: nat, end: nat, target: nat, p: nat)
    requires Gap(t, at, pos, next, end) && next != end && target < |t| && p < |t|
    requires t[p].Full? && On(Next(next, |t|), p, end)
    ensures ReachedBut(t[next := Empty][target := t[next]], t[p].id, p, pos, Next(next, |t|))
  {
    hide Home, Indexed;
    assert On(next, p, end);
    assert ReachedBut(t, t[p].id, p, pos, next);
  }

  lemma GapStep<V>(t: Table<V>, at: map<nat, nat>, pos: nat, next: nat, end: nat, target: nat)
    requires Gap(t, at, pos, next, end) && next != end && target < |t|
    requires var t1 := t[next := Empty]; t1[target] == Empty && Reached(t1, t[next].id, target)
    ensures Gap(t[next := Empty][target := t[next]], at[t[next].id := target], pos, Next(next, |t|), end)
    ensures Contents(t[next := Empty][target := t[next]], at[t[next].id := target]) == Contents(t, at)
  {
    hide Home, Indexed, Reached, ReachedBut, Contents;
    GapTarget(t, at, pos, next, end, target);
    var d := t[next];
    var t2, n := t[next := Empty][target := d], Next(next, |t|);
    assert On(next, next, end);
    Moved(t, at, next, target);
    Placed(t, next, target);
    forall p | 0 <= p < |t| && t2[p].Full? && !On(n, p, end) ensures Reached(t2, t2[p].id, p) {
      if p != target { MovedOutside(t, at, pos, next, end, target, p); }
    }
    forall p | 0 <= p < |t| && t2[p].Full? && On(n, p, end) ensures ReachedBut(t2, t2[p].id, p, pos, n) {
      MovedInside(t, at, pos, next, end, target, p);
    }
  }

  lemma Placed<V>(t: Table<V>, next: nat, target: nat)
    requires next < |t| && target < |t| && t[next].Full? && Reached(t[next := Empty], t[next].id, target)
    ensures Reached(t[next := Empty][target := t[next]], t[next].id, target)
  {
    hide Home;
  }

  lemma GapEnd<V>(t: Table<V>, at: map<nat, nat>, pos: nat, end: nat)
    requires Gap(t, at, pos, end, end)
    ensures Wf(t, at)
  {
  }

  // ---- rehashing ----

  /** The part of the index below position i. */
  ghost predicate CopiedBelow<V>(t: Table<V>, at: map<nat, nat>, i: nat, t': Table<V>, at': map<nat, nat>)
    requires Indexed(t, at) && Indexed(t', at')
  {
    && (forall id :: id in at' <==> id in at && at[id] < i)
    && (forall id :: id in at' ==> id in at && Contents(t', at')[id] == Contents(t, at)[id])
  }

  lemma CopyNone<V>(t: Table<V>, at: map<nat, nat>, t': Table<V>)
    requires Indexed(t, at) && forall p :: 0 <= p < |t'| ==> t'[p] == Empty
    ensures Wf(t', map[]) && CopiedBelow(t, at, 0, t', map[])
  {
  }

  lemma CopySkip<V>(t: Table<V>, at: map<nat, nat>, i: nat, t': Table<V>, at': map<nat, nat>)
    requires Indexed(t, at) && Indexed(t', at') && i < |t| && !t[i].Full? && CopiedBelow(t, at, i, t', at')
    ensures CopiedBelow(t, at, i + 1, t', at')
  {
    hide Contents;
    forall id | id in at ensures at[id] != i { assert Holds(t, at, id); }
  }

  lemma CopyOne<V>(t: Table<V>, at: map<nat, nat>, i: nat, t': Table<V>, at': map<nat, nat>, p: nat)
    requires Indexed(t, at) && Wf(t', at') && i < |t| && t[i].Full? && CopiedBelow(t, at, i, t', at')
    requires p < |t'| && t'[p] == Empty && Reached(t', t[i].id, p)
    ensures Wf(t'[p := t[i]], at'[t[i].id := p]) && CopiedBelow(t, at, i + 1, t'[p := t[i]], at'[t[i].id := p])
  {
    hide Reached, Probed;
    var d := t[i];
    assert at[d.id] == i;
    Inserted(t', at', d.id, d.v, p);
    var n := at'[d.id := p];
    forall id ensures id in n <==> id in at && at[id] < i + 1 {
      if id in at && at[id] == i { assert Holds(t, at, id); }
    }
  }

  lemma CopyAll<V>(t: Table<V>, at: map<nat, nat>, t': Table<V>, at': map<nat, nat>)
    requires Indexed(t, at) && Indexed(t', at') && CopiedBelow(t, at, |t|, t', at')
    ensures at'.Keys == at.Keys && Contents(t', at') == Contents(t, at)
  {
    forall id | id in at ensures at[id] < |t| { assert Holds(t, at, id); }
    assert Contents(t', at').Keys == at'.Keys && Contents(t, at).Keys == at.Keys;
  }

  lemma {:induction false} LiveStep<V>(t: Table<V>, i: nat)
    requires i < |t|
    ensures Live(t[..i + 1]) == Live(t[..i]) + (if t[i].Full? then 1 else 0)
  {
    assert t[..i + 1][..i] == t[..i];
  }

  lemma {:induction false} LivePrefix<V>(t: Table<V>, i: nat)
    requires i <= |t|
    ensures Live(t[..i]) <= Live(t)
    decreases |t| - i
  {
    if i == |t| {
      assert t[..i] == t;
    } else {
      LiveStep(t, i);
      LivePrefix(t, i + 1);
    }
  }

  /** The first empty slot on the probe path of id; e is some empty slot. */
  method FindFree<V>(b: array<Slot<V>>, id: nat, ghost e: nat) returns (idx: nat)
    requires e < b.Length && b[e] == Empty
    ensures idx < b.Length && b[idx] == Empty && Reached(b[..], id, idx)
  {
    hide Reached;
    idx := Home(id, b.Length);
    ProbeStart(b[..], id);
    while b[idx] != Empty
      invariant idx < b.Length && Reached(b[..], id, idx)
      decreases Dist(idx, e, b.Length)
    {
      ReachedNext(b[..], id, idx, e);
      idx := Next(idx, b.Length);
    }
  }

  /** A table of the new size with the same live entries and no tombstones. */
  method Rehash<V>(source: array<Slot<V>>, newCap: nat, ghost at: map<nat, nat>) returns (bigger: array<Slot<V>>, ghost at': map<nat, nat>)
    requires Indexed(source[..], at) && Live(source[..]) < newCap
    ensures fresh(bigger) && bigger.Length == newCap && NoTombs(bigger[..]) && Wf(bigger[..], at')
    ensures at'.Keys == at.Keys && Contents(bigger[..], at') == Contents(source[..], at)
    ensures Used(bigger[..]) == Live(source[..]) == Live(bigger[..])
  {
    hide Reached, Probed, Indexed, Contents, CopiedBelow, Used, Live, Wf;
    ghost var t := source[..];
    bigger := new Slot<V>[newCap](_ => Empty);
    at' := map[];
    CopyNone(t, at, bigger[..]);
    CountEmpty(bigger[..]);
    CountNone(t);
    var i := 0;
    while i < source.Length
      invariant i <= source.Length && source[..] == t && NoTombs(bigger[..])
      invariant bigger.Length == newCap && Wf(bigger[..], at') && Indexed(bigger[..], at')
      invariant CopiedBelow(t, at, i, bigger[..], at')
      invariant Used(bigger[..]) == Live(t[..i]) == Live(bigger[..])
    {
      ghost var f := bigger[..];
      LivePrefix(t, i);
      LiveStep(t, i);
      if source[i].Full? {
        ghost var e := EmptySlot(f);
        var idx := FindFree(bigger, source[i].id, e);
        CopyOne(t, at, i, f, at', idx);
        CountSet(f, idx, t[i]);
        bigger[idx] := source[i];
        assert bigger[..] == f[idx := t[i]];
        at' := at'[t[i].id := idx];
        WfIndexed(bigger[..], at');
      } else {
        CopySkip(t, at, i, f, at');
      }
      i := i + 1;
    }
    assert t[..i] == t;
    CopyAll(t, at, bigger[..], at');
  }

  lemma WfIndexed<V>(t: Table<V>, at: map<nat, nat>)
    requires Wf(t, at)
    ensures Indexed(t, at)
  {
  }

  lemma CountNone<V>(t: Table<V>)
    ensures Live(t[..0]) == 0
  {
  }
}
