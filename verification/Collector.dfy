/** The per-actor Cheney semi-space collector (src/gc/gc.c). */
module Collector {
  import opened Common
  import opened ObjectGraph

  /** How many leading slots of an object hold references. */
  function ScannableSlots(o: Obj, formats: map<nat, Format>): nat
  {
    if o.classIndex !in formats then |o.slots|
    else
      var f := formats[o.classIndex];
      if f.kind == VARIABLE_BYTE then f.instVars
      else if f.kind == COMPILED_METHOD then
        if |o.slots| == 0 then 0
        else
          var scan := 1 + NumLiterals(o.slots[0]);
          if scan < |o.slots| then scan else |o.slots|
      else |o.slots|
  }

  datatype Spaces = Spaces(fromBase: nat, fromLimit: nat, immBase: nat, immLimit: nat, toBase: nat, toLimit: nat) {
    predicate InFrom(w: Word) { fromBase <= w < fromLimit }
    predicate InImmutable(w: Word) { immBase <= w < immLimit }
    predicate InTo(w: Word) { toBase <= w < toLimit }

    ghost predicate Valid() {
      && 0 < fromBase <= fromLimit
      && 0 < toBase && toBase % 16 == 0
      && toLimit - toBase == fromLimit - fromBase
      && (forall w: Word :: InFrom(w) ==> !InImmutable(w) && !InTo(w))
      && (forall w: Word :: InTo(w) ==> !InImmutable(w))
    }
  }

  /** A reference that may be met in a root or a scanned slot before the collection. */
  ghost predicate ValidRef(h: Heap, sp: Spaces, w: Word)
  {
    IsPointer(w) ==> !sp.InTo(w) && (sp.InFrom(w) ==> w in h)
  }

  ghost predicate ValidObject(h: Heap, sp: Spaces, formats: map<nat, Format>, a: Word)
    requires a in h
  {
    && a % 16 == 0 && !Forwarded(h[a])
    && HeaderIsInteger(h[a], formats)
    && ScannableSlots(h[a], formats) <= |h[a].slots|
    && forall i :: 0 <= i < ScannableSlots(h[a], formats) ==> ValidRef(h, sp, h[a].slots[i])
  }

  /** What the collector expects of from-space: objects packed in its first `used` bytes. */
  ghost predicate ValidHeap(h: Heap, sp: Spaces, formats: map<nat, Format>, used: nat)
  {
    && sp.Valid()
    && sp.fromBase + used <= sp.fromLimit
    && Packed(h, h.Keys, sp.fromBase, sp.fromBase + used)
    && forall a :: a in h ==> ValidObject(h, sp, formats, a)
  }

  ghost function HeapGraph(h: Heap, formats: map<nat, Format>): (g: Graph)
    requires forall a :: a in h ==> ScannableSlots(h[a], formats) <= |h[a].slots|
  {
    map a | a in h :: h[a].slots[..ScannableSlots(h[a], formats)]
  }

  /** What one collection starts from. */
  datatype Cycle = Cycle(sp: Spaces, formats: map<nat, Format>, before: Heap, used: nat, roots: seq<Word>) {
    ghost predicate Valid() {
      && ValidHeap(before, sp, formats, used)
      && forall w :: w in roots ==> ValidRef(before, sp, w)
    }

    ghost function Graph0(): Graph
      requires Valid()
    {
      HeapGraph(before, formats)
    }

    ghost function Scan(a: Word): nat
      requires a in before
    {
      ScannableSlots(before[a], formats)
    }

    /** Live: reachable from the roots through from-space objects. */
    ghost predicate Live(a: Word)
      requires Valid()
    {
      Reachable(Graph0(), roots, a)
    }
  }

  /** The collector's mutable state, with the originals in copy order and the map from
      originals to copies as ghosts. */
  datatype View = View(mem: Heap, toAlloc: nat, fwdTable: map<Word, Word>, order: seq<Word>, phi: map<Word, Word>)

  ghost predicate Ordered(c: Cycle, v: View)
  {
    && v.phi.Keys <= c.before.Keys
    && (forall a :: a in v.phi ==> a in v.order)
    && (forall j :: 0 <= j < |v.order| ==> v.order[j] in v.phi)
  }

  /** Address of the j-th copy; the bump pointer past the last one. */
  ghost function Dest(c: Cycle, v: View, j: nat): nat
    requires Ordered(c, v) && j <= |v.order|
  {
    if j < |v.order| then v.phi[v.order[j]] else v.toAlloc
  }

  ghost predicate Adjacent(c: Cycle, v: View, j: nat)
    requires Ordered(c, v) && j < |v.order|
  {
    Dest(c, v, j + 1) == Dest(c, v, j) + ObjBytes(c.before[v.order[j]])
  }

  ghost predicate Placed(c: Cycle, v: View, a: Word)
    requires Ordered(c, v) && a in v.phi
  {
    c.sp.toBase <= v.phi[a] && v.phi[a] % 16 == 0 && v.phi[a] + ObjBytes(c.before[a]) <= v.toAlloc
  }

  /** Copies lie back to back from toBase in copy order. */
  ghost predicate Layout(c: Cycle, v: View)
    requires Ordered(c, v)
  {
    && (forall a :: a in v.phi ==> Placed(c, v, a))
    && (forall j :: 0 <= j < |v.order| ==> Adjacent(c, v, j))
    && Dest(c, v, 0) == c.sp.toBase
    && v.toAlloc % 16 == 0
    && v.toAlloc <= c.sp.toLimit
  }

  /** The bump pointer accounts for exactly the originals copied so far. */
  ghost predicate Accounted(c: Cycle, v: View)
    requires Ordered(c, v)
  {
    v.toAlloc == c.sp.toBase + TotalBytes(c.before, v.phi.Keys)
  }

  /** A from-space object is untouched, or its first payload word is overwritten by the
      forwarding address; an object without payload is forwarded through the side table. */
  ghost predicate FromAt(c: Cycle, v: View, a: Word)
    requires a in c.before
  {
    && a in v.mem
    && if a !in v.phi then v.mem[a] == c.before[a]
       else
         && Forwarded(v.mem[a]) && |v.mem[a].slots| == |c.before[a].slots|
         && if |c.before[a].slots| > 0 then v.mem[a].slots[0] == v.phi[a] else a in v.fwdTable && v.fwdTable[a] == v.phi[a]
  }

  ghost predicate FromSide(c: Cycle, v: View)
  {
    forall a :: a in c.before ==> FromAt(c, v, a)
  }

  /** v is what the reference w becomes, and w's object has been copied. */
  ghost predicate Redirects(c: Cycle, phi: map<Word, Word>, w: Word, v: Word)
  {
    v == Forward(phi, w) && (w in c.before ==> w in phi)
  }

  /** o' is a copy of o of whose slots the first n have been redirected. */
  ghost predicate CopyUpTo(c: Cycle, phi: map<Word, Word>, o: Obj, o': Obj, n: nat)
  {
    && o' == o.(gcFlags := 0, slots := o'.slots)
    && |o'.slots| == |o.slots|
    && n <= |o.slots|
    && (forall s :: 0 <= s < n ==> Redirects(c, phi, o.slots[s], o'.slots[s]))
    && (forall s :: n <= s < |o.slots| ==> o'.slots[s] == o.slots[s])
  }

  /** Slots redirected in the j-th copy when k copies and i slots of the next are scanned. */
  ghost function Redirected(c: Cycle, v: View, j: nat, k: nat, i: nat): nat
    requires Ordered(c, v) && j < |v.order|
  {
    if j < k then c.Scan(v.order[j]) else if j == k then i else 0
  }

  ghost predicate ToAt(c: Cycle, v: View, j: nat, k: nat, i: nat)
    requires Ordered(c, v) && j < |v.order|
  {
    && v.phi[v.order[j]] in v.mem && c.sp.InTo(v.phi[v.order[j]])
    && CopyUpTo(c, v.phi, c.before[v.order[j]], v.mem[v.phi[v.order[j]]], Redirected(c, v, j, k, i))
  }

  ghost predicate ToSide(c: Cycle, v: View, k: nat, i: nat)
    requires Ordered(c, v)
  {
    && v.mem.Keys == c.before.Keys + v.phi.Values
    && (forall j :: 0 <= j < |v.order| ==> ToAt(c, v, j, k, i))
  }

  ghost predicate Inv(c: Cycle, v: View, k: nat, i: nat)
  {
    && c.Valid()
    && Ordered(c, v)
    && Layout(c, v)
    && Accounted(c, v)
    && FromSide(c, v)
    && ToSide(c, v, k, i)
    && k <= |v.order|
    && (forall a :: a in v.phi ==> c.Live(a))
  }

  /** A word gc_copy may be given: an old reference, or one already redirected. */
  ghost predicate Traceable(c: Cycle, v: View, w: Word)
    requires c.Valid()
  {
    && (IsPointer(w) && c.sp.InFrom(w) ==> w in c.before)
    && (IsPointer(w) && c.sp.InTo(w) ==> w in v.phi.Values)
    && (w in c.before ==> c.Live(w))
  }

  /** The state after copying one object and leaving a forwarding pointer behind. */
  ghost function Evacuated(v: View, a: Word): View
    requires a in v.mem
  {
    var h := v.mem[a];
    var fwd := SetForwarded(h);
    var left := if |h.slots| == 0 then fwd else fwd.(slots := fwd.slots[0 := v.toAlloc]);
    View(v.mem[v.toAlloc := h.(gcFlags := 0)][a := left],
         v.toAlloc + ObjBytes(h),
         if |h.slots| == 0 then v.fwdTable[a := v.toAlloc] else v.fwdTable,
         v.order + [a],
         v.phi[a := v.toAlloc])
  }

  /** The overflow branch is dead: copies fit because distinct originals do. */
  lemma RoomForOne(c: Cycle, v: View, a: Word)
    requires c.Valid() && Ordered(c, v) && Accounted(c, v) && a in c.before && a !in v.phi
    ensures v.toAlloc + ObjBytes(c.before[a]) <= c.sp.toLimit
    ensures v.toAlloc + ObjBytes(c.before[a]) == c.sp.toBase + TotalBytes(c.before, v.phi.Keys + {a})
  {
    TotalBytesAdd(c.before, v.phi.Keys, a);
    TotalBytesMonotone(c.before, v.phi.Keys + {a}, c.before.Keys);
    PackedTotal(c.before, c.before.Keys, c.sp.fromBase, c.sp.fromBase + c.used);
  }

  /** a can be evacuated: not yet copied, and the bump pointer is a fresh aligned address. */
  ghost predicate Evacuable(c: Cycle, v: View, a: Word)
  {
    && Ordered(c, v)
    && a in c.before && a !in v.phi && a in v.mem && v.mem[a] == c.before[a]
    && v.toAlloc !in c.before && v.toAlloc !in v.phi.Values
  }

  lemma EvacuatedOrdered(c: Cycle, v: View, a: Word)
    requires Evacuable(c, v, a)
    ensures Ordered(c, Evacuated(v, a))
    ensures Evacuated(v, a).phi.Keys == v.phi.Keys + {a}
    ensures Evacuated(v, a).phi.Values == v.phi.Values + {v.toAlloc}
  {
    var v' := Evacuated(v, a);
    assert forall b :: b in v.phi ==> b in v'.phi && v'.phi[b] == v.phi[b];
    assert v'.phi[a] == v.toAlloc;
    assert v'.order[|v.order|] == a;
    assert forall j :: 0 <= j < |v.order| ==> v'.order[j] == v.order[j];
  }

  lemma EvacuatedAdjacent(c: Cycle, v: View, a: Word, j: nat)
    requires Evacuable(c, v, a) && Layout(c, v)
    requires Ordered(c, Evacuated(v, a)) && j <= |v.order|
    ensures Adjacent(c, Evacuated(v, a), j)
  {
    var v' := Evacuated(v, a);
    assert v'.order[..|v.order|] == v.order;
    if j < |v.order| {
      assert Adjacent(c, v, j);
      assert v'.order[j] == v.order[j];
      assert j + 1 < |v.order| ==> v'.order[j + 1] == v.order[j + 1];
    }
  }

  lemma EvacuatedPlaced(c: Cycle, v: View, a: Word, b: Word)
    requires Evacuable(c, v, a) && Layout(c, v) && Ordered(c, Evacuated(v, a)) && b in Evacuated(v, a).phi
    ensures Placed(c, Evacuated(v, a), b)
  {
    hide Adjacent;
    if b in v.phi { assert Placed(c, v, b); }
    assert c.sp.toBase <= v.toAlloc by {
      if v.order != [] { assert Placed(c, v, v.order[0]); }
    }
  }

  lemma EvacuatedLayout(c: Cycle, v: View, a: Word)
    requires Evacuable(c, v, a) && Layout(c, v) && Ordered(c, Evacuated(v, a))
    requires v.toAlloc + ObjBytes(c.before[a]) <= c.sp.toLimit
    ensures Layout(c, Evacuated(v, a))
  {
    hide Adjacent, Placed;
    var v' := Evacuated(v, a);
    forall j | 0 <= j < |v'.order| ensures Adjacent(c, v', j) { EvacuatedAdjacent(c, v, a, j); }
    forall b | b in v'.phi ensures Placed(c, v', b) { EvacuatedPlaced(c, v, a, b); }
    assert v.order != [] ==> v'.order[0] == v.order[0];
    assert Dest(c, v', 0) == Dest(c, v, 0);
  }

  lemma EvacuatedFrom(c: Cycle, v: View, a: Word)
    requires Evacuable(c, v, a) && FromSide(c, v)
    ensures FromSide(c, Evacuated(v, a))
  {
    hide Ordered;
    var v' := Evacuated(v, a);
    forall b | b in c.before ensures FromAt(c, v', b) { assert FromAt(c, v, b); }
  }

  lemma CopyKept(c: Cycle, phi: map<Word, Word>, phi': map<Word, Word>, o: Obj, o': Obj, n: nat)
    requires CopyUpTo(c, phi, o, o', n)
    requires phi'.Keys <= c.before.Keys
    requires forall b :: b in phi ==> b in phi' && phi'[b] == phi[b]
    ensures CopyUpTo(c, phi', o, o', n)
  {
  }

  lemma EvacuatedToAt(c: Cycle, v: View, k: nat, i: nat, a: Word, j: nat)
    requires Evacuable(c, v, a) && c.sp.InTo(v.toAlloc) && !c.sp.InTo(a)
    requires k <= |v.order| && (k == |v.order| ==> i == 0)
    requires Ordered(c, Evacuated(v, a)) && j <= |v.order|
    requires j < |v.order| ==> ToAt(c, v, j, k, i)
    ensures ToAt(c, Evacuated(v, a), j, k, i)
  {
    var v' := Evacuated(v, a);
    if j < |v.order| {
      var b := v.order[j];
      assert v'.order[j] == b && v.phi[b] in v.phi.Values;
      hide CopyUpTo;
      CopyKept(c, v.phi, v'.phi, c.before[b], v.mem[v.phi[b]], Redirected(c, v, j, k, i));
    } else {
      assert v'.order[j] == a;
    }
  }

  lemma EvacuatedTo(c: Cycle, v: View, k: nat, i: nat, a: Word)
    requires Evacuable(c, v, a) && ToSide(c, v, k, i) && c.sp.InTo(v.toAlloc) && !c.sp.InTo(a)
    requires k <= |v.order| && (k == |v.order| ==> i == 0)
    requires Ordered(c, Evacuated(v, a))
    ensures ToSide(c, Evacuated(v, a), k, i)
  {
    hide ToAt;
    EvacuatedOrdered(c, v, a);
    var v' := Evacuated(v, a);
    forall j | 0 <= j < |v'.order| ensures ToAt(c, v', j, k, i) { EvacuatedToAt(c, v, k, i, a, j); }
  }

  lemma OldInFrom(c: Cycle)
    requires c.Valid()
    ensures 0 < c.sp.toBase
    ensures forall a :: a in c.before ==> 0 < a && c.sp.InFrom(a) && !c.sp.InTo(a) && !c.sp.InImmutable(a)
  {
    hide ValidObject;
  }

  lemma OldValid(c: Cycle, a: Word)
    requires c.Valid() && a in c.before
    ensures ValidObject(c.before, c.sp, c.formats, a)
  {
    hide Packed, ValidObject;
  }

  lemma EvacuationStart(c: Cycle, v: View, k: nat, i: nat, a: Word)
    requires Inv(c, v, k, i) && a in c.before && a !in v.phi
    ensures Evacuable(c, v, a) && a in v.mem
    ensures c.sp.InTo(v.toAlloc) && !c.sp.InTo(a)
    ensures v.toAlloc + ObjBytes(v.mem[a]) <= c.sp.toLimit
    ensures k <= |v.order|
  {
    hide ValidHeap, ToSide, Accounted, TotalBytes, Adjacent;
    RoomForOne(c, v, a);
    assert FromAt(c, v, a);
    forall b | b in v.phi ensures v.phi[b] < v.toAlloc { assert Placed(c, v, b); }
    if v.order != [] { assert Placed(c, v, v.order[0]); }
    OldInFrom(c);
  }

  lemma EvacuatedInv(c: Cycle, v: View, k: nat, i: nat, a: Word)
    requires Inv(c, v, k, i) && a in c.before && a !in v.phi && c.Live(a)
    requires k == |v.order| ==> i == 0
    ensures Inv(c, Evacuated(v, a), k, i)
  {
    EvacuationStart(c, v, k, i, a);
    EvacuatedOrdered(c, v, a);
    RoomForOne(c, v, a);
    EvacuatedLayout(c, v, a);
    EvacuatedFrom(c, v, a);
    EvacuatedTo(c, v, k, i, a);
  }

  /** The tests of gc_copy tell movable references from all others. */
  lemma Classify(c: Cycle, v: View, k: nat, i: nat, w: Word)
    requires Inv(c, v, k, i) && Traceable(c, v, w)
    ensures w in c.before <==> IsPointer(w) && !c.sp.InImmutable(w) && !c.sp.InTo(w) && c.sp.InFrom(w)
    ensures w in c.before ==> w in v.mem && (Forwarded(v.mem[w]) <==> w in v.phi)
    ensures w in v.phi ==>
              && w in c.before
              && if |v.mem[w].slots| == 0 then w in v.fwdTable && v.fwdTable[w] == v.phi[w] else v.mem[w].slots[0] == v.phi[w]
    ensures w in c.before ==> c.Live(w)
  {
    hide ValidHeap, Layout, ToSide, Accounted;
    OldInFrom(c);
    if w in c.before {
      assert FromAt(c, v, w);
      OldValid(c, w);
    }
  }

  /** Redirecting slot i of the copy being scanned. */
  ghost function SlotSet(v: View, a: Word, i: nat, r: Word): View
    requires a in v.mem && i < |v.mem[a].slots|
  {
    v.(mem := v.mem[a := v.mem[a].(slots := v.mem[a].slots[i := r])])
  }

  lemma ScanTarget(c: Cycle, v: View, k: nat, i: nat)
    requires Inv(c, v, k, i) && k < |v.order|
    ensures v.order[k] in v.phi && v.order[k] in c.before
    ensures v.phi[v.order[k]] in v.mem && i <= |c.before[v.order[k]].slots| == |v.mem[v.phi[v.order[k]]].slots|
    ensures c.Scan(v.order[k]) <= |c.before[v.order[k]].slots|
    ensures forall s :: i <= s < |c.before[v.order[k]].slots| ==> v.mem[v.phi[v.order[k]]].slots[s] == c.before[v.order[k]].slots[s]
    ensures i == 0 ==> ScannableSlots(v.mem[v.phi[v.order[k]]], c.formats) == c.Scan(v.order[k])
  {
    hide ValidHeap, Layout, Accounted, FromSide;
    var a := v.order[k];
    assert ToAt(c, v, k, k, i);
    OldValid(c, a);
  }

  lemma SlotTraceable(c: Cycle, v: View, k: nat, i: nat)
    requires Inv(c, v, k, i) && k < |v.order|
    requires v.order[k] in c.before && i < c.Scan(v.order[k]) <= |c.before[v.order[k]].slots|
    ensures Traceable(c, v, c.before[v.order[k]].slots[i])
  {
    hide ValidHeap, Layout, Accounted, FromSide, ToSide;
    var a := v.order[k];
    var w := c.before[a].slots[i];
    OldValid(c, a);
    assert ValidRef(c.before, c.sp, w);
    if w in c.before {
      var g := c.Graph0();
      assert g[a][i] == w;
      EdgeReachable(g, c.roots, a, w);
    }
  }

  lemma SlotSetFrom(c: Cycle, v: View, k: nat, i: nat, r: Word)
    requires Inv(c, v, k, i) && k < |v.order|
    requires v.order[k] in v.phi && v.phi[v.order[k]] in v.mem && i < |v.mem[v.phi[v.order[k]]].slots|
    ensures var v' := SlotSet(v, v.phi[v.order[k]], i, r); Ordered(c, v') && Layout(c, v') && Accounted(c, v') && FromSide(c, v')
  {
    hide ValidHeap, ToSide, ObjBytes;
    var v' := SlotSet(v, v.phi[v.order[k]], i, r);
    NotOld(c, v, k, i, v.order[k]);
    forall j | 0 <= j < |v'.order| ensures Adjacent(c, v', j) { assert Adjacent(c, v, j); }
    forall a | a in v'.phi ensures Placed(c, v', a) { assert Placed(c, v, a); }
    forall a | a in c.before ensures FromAt(c, v', a) { assert FromAt(c, v, a); }
    assert Dest(c, v', 0) == Dest(c, v, 0);
  }

  lemma NotOld(c: Cycle, v: View, k: nat, i: nat, a: Word)
    requires Inv(c, v, k, i) && a in v.phi
    ensures v.phi[a] !in c.before && c.sp.InTo(v.phi[a])
  {
    hide ValidHeap, Layout, Accounted, FromSide;
    OldInFrom(c);
    var j :| 0 <= j < |v.order| && v.order[j] == a;
    assert ToAt(c, v, j, k, i);
  }

  /** Distinct copies have distinct addresses, and later copies lie beyond earlier ones. */
  lemma {:induction false} CopiesApart(c: Cycle, v: View, j: nat, l: nat)
    requires Ordered(c, v) && Layout(c, v) && j < l <= |v.order|
    ensures Dest(c, v, j) + ObjBytes(c.before[v.order[j]]) <= Dest(c, v, l)
    decreases l
  {
    assert Adjacent(c, v, l - 1);
    if j < l - 1 { CopiesApart(c, v, j, l - 1); }
  }

  lemma SlotSetTo(c: Cycle, v: View, k: nat, i: nat, r: Word)
    requires Ordered(c, v) && ToSide(c, v, k, i) && k < |v.order|
    requires i < |c.before[v.order[k]].slots| && Redirects(c, v.phi, c.before[v.order[k]].slots[i], r)
    requires v.phi[v.order[k]] in v.mem && i < |v.mem[v.phi[v.order[k]]].slots|
    requires forall j :: 0 <= j < |v.order| && j != k ==> v.phi[v.order[j]] != v.phi[v.order[k]]
    ensures var v' := SlotSet(v, v.phi[v.order[k]], i, r); Ordered(c, v') && ToSide(c, v', k, i + 1)
  {
    var v' := SlotSet(v, v.phi[v.order[k]], i, r);
    assert v'.mem.Keys == v.mem.Keys;
    var i' := i + 1;
    forall j | 0 <= j < |v'.order| ensures ToAt(c, v', j, k, i') { assert ToAt(c, v, j, k, i); }
  }

  lemma SlotSetInv(c: Cycle, v: View, k: nat, i: nat, r: Word)
    requires Inv(c, v, k, i) && k < |v.order|
    requires v.order[k] in c.before && i < c.Scan(v.order[k]) <= |c.before[v.order[k]].slots|
    requires Redirects(c, v.phi, c.before[v.order[k]].slots[i], r)
    requires v.order[k] in v.phi && v.phi[v.order[k]] in v.mem && i < |v.mem[v.phi[v.order[k]]].slots|
    ensures Inv(c, SlotSet(v, v.phi[v.order[k]], i, r), k, i + 1)
  {
    hide ValidHeap, FromSide, ToSide, Accounted, Adjacent;
    SlotSetFrom(c, v, k, i, r);
    forall j | 0 <= j < |v.order| && j != k ensures v.phi[v.order[j]] != v.phi[v.order[k]] {
      if j < k { CopiesApart(c, v, j, k); } else { CopiesApart(c, v, k, j); }
    }
    SlotSetTo(c, v, k, i, r);
  }

  /** A copy whose references are all redirected counts as scanned. */
  lemma ScanDone(c: Cycle, v: View, k: nat, i: nat)
    requires Inv(c, v, k, i) && k < |v.order| && v.order[k] in c.before && i == c.Scan(v.order[k])
    ensures Inv(c, v, k + 1, 0)
  {
    hide ValidHeap, Layout, Accounted, FromSide;
    var k' := k + 1;
    forall j | 0 <= j < |v.order| ensures ToAt(c, v, j, k', 0) { assert ToAt(c, v, j, k, i); }
  }

  class GcState {
    const sp: Spaces
    const formats: map<nat, Format>
    ghost const cycle: Cycle

    var roots: seq<Word>
    var mem: Heap
    var toAlloc: nat
    var fwdTable: map<Word, Word>
    var objectsCopied: nat
    var bytesCopied: nat
    ghost var order: seq<Word>
    ghost var phi: map<Word, Word>

    /** Fresh to-space and an empty forwarding table. */
    constructor (c: Cycle)
      requires c.Valid()
      ensures Valid(0, 0) && cycle == c && sp == c.sp && formats == c.formats && roots == c.roots && order == []
    {
      cycle, sp, formats := c, c.sp, c.formats;
      roots, mem, toAlloc, fwdTable := c.roots, c.before, c.sp.toBase, map[];
      objectsCopied, bytesCopied := 0, 0;
      order, phi := [], map[];
    }

    ghost function Current(): View
      reads this
    {
      View(mem, toAlloc, fwdTable, order, phi)
    }

    ghost predicate Valid(k: nat, i: nat)
      reads this
    {
      && sp == cycle.sp && formats == cycle.formats
      && Inv(cycle, Current(), k, i)
      && (k == |order| ==> i == 0)
      && objectsCopied == |order| && bytesCopied == toAlloc - sp.toBase
    }

    /** Nothing copied is ever moved again. */
    twostate predicate Grown()
      reads this
    {
      old(order) <= order && forall a :: a in old(phi) ==> a in phi && phi[a] == old(phi)[a]
    }

    /** Move one object to the bump pointer and leave its new address behind. */
    method Evacuate(oop: Word, ghost k: nat, ghost i: nat) returns (r: Word)
      requires Valid(k, i) && oop in cycle.before && oop !in phi && cycle.Live(oop)
      modifies `mem, `toAlloc, `fwdTable, `objectsCopied, `bytesCopied, `order, `phi
      ensures Valid(k, i)
      ensures Current() == Evacuated(old(Current()), oop) && r == old(toAlloc)
    {
      hide Inv;
      ghost var v := Current();
      EvacuationStart(cycle, v, k, i, oop);
      EvacuatedInv(cycle, v, k, i, oop);
      var h := mem[oop];
      var bytes := ObjBytes(h);
      if toAlloc + bytes > sp.toLimit { assert false; }  // to-space overflow
      r := toAlloc;
      toAlloc := toAlloc + bytes;
      var left := SetForwarded(h);
      if |h.slots| == 0 {
        fwdTable := fwdTable[oop := r];
      } else {
        left := left.(slots := left.slots[0 := r]);
      }
      mem := mem[r := h.(gcFlags := 0)][oop := left];
      objectsCopied := objectsCopied + 1;
      bytesCopied := bytesCopied + bytes;
      phi := phi[oop := r];
      order := order + [oop];
    }

    method Copy(oop: Word, ghost k: nat, ghost i: nat) returns (r: Word)
      requires Valid(k, i) && Traceable(cycle, Current(), oop)
      modifies `mem, `toAlloc, `fwdTable, `objectsCopied, `bytesCopied, `order, `phi
      ensures Valid(k, i) && Grown()
      ensures Redirects(cycle, phi, oop, r)
    {
      hide Inv, Traceable;
      Classify(cycle, Current(), k, i, oop);
      if IsSmallInt(oop) || IsChar(oop) { return oop; }
      if oop == 0 { return oop; }
      if sp.InImmutable(oop) { return oop; }
      if sp.InTo(oop) { return oop; }
      if !sp.InFrom(oop) { return oop; }
      var h := mem[oop];
      if Forwarded(h) {
        if |h.slots| == 0 { return fwdTable[oop]; }
        return h.slots[0];
      }
      r := Evacuate(oop, k, i);
    }

    /** Redirect every reference of the k-th copy. */
    method ScanObject(obj: Word, ghost k: nat)
      requires Valid(k, 0) && k < |order| && order[k] in phi && obj == phi[order[k]]
      modifies `mem, `toAlloc, `fwdTable, `objectsCopied, `bytesCopied, `order, `phi
      ensures Valid(k + 1, 0) && Grown()
    {
      hide Inv, Traceable;
      ScanTarget(cycle, Current(), k, 0);
      var n := ScannableSlots(mem[obj], formats);
      ghost var a := order[k];
      var i := 0;
      while i < n
        invariant 0 <= i <= n == cycle.Scan(a)
        invariant Valid(k, i) && Grown()
        invariant k < |order| && order[k] == a && a in phi && phi[a] == obj
      {
        ghost var v := Current();
        ScanTarget(cycle, v, k, i);
        SlotTraceable(cycle, v, k, i);
        var r := Copy(mem[obj].slots[i], k, i);
        ghost var v' := Current();
        ScanTarget(cycle, v', k, i);
        SlotSetInv(cycle, v', k, i, r);
        mem := mem[obj := mem[obj].(slots := mem[obj].slots[i := r])];
        assert Current() == SlotSet(v', obj, i, r);
        i := i + 1;
      }
      ScanDone(cycle, Current(), k, i);
    }

    /** Redirect every root slot in place. */
    method ScanRoots()
      requires Valid(0, 0) && roots == cycle.roots && order == []
      modifies this
      ensures Valid(0, 0)
      ensures |roots| == |cycle.roots|
      ensures forall j :: 0 <= j < |roots| ==> Redirects(cycle, phi, cycle.roots[j], roots[j])
    {
      hide Inv, Traceable;
      var i := 0;
      while i < |roots|
        invariant 0 <= i <= |roots| == |cycle.roots|
        invariant Valid(0, 0)
        invariant forall j :: 0 <= j < i ==> Redirects(cycle, phi, cycle.roots[j], roots[j])
        invariant forall j :: i <= j < |roots| ==> roots[j] == cycle.roots[j]
      {
        RootTraceable(cycle, Current(), 0, 0, roots[i]);
        var r := Copy(roots[i], 0, 0);
        PhiOld(cycle, Current(), 0, 0);
        roots := roots[i := r];
        i := i + 1;
      }
    }

    /** The contents of to-space. */
    method Survivors() returns (objects: Heap)
      requires Valid(|order|, 0) && phi.Values <= mem.Keys
      ensures objects == ToSpace(Current())
    {
      hide Inv;
      FinishedUse(cycle, Current());
      objects := map a | a in mem && sp.toBase <= a < toAlloc :: mem[a];
    }

    /** Roots first, then the Cheney scan until it meets the bump pointer. */
    method Trace()
      requires Valid(0, 0) && roots == cycle.roots && order == []
      modifies this
      ensures Valid(|order|, 0) && RootsDone(cycle, Current(), roots)
    {
      hide Inv, ValidHeap;
      ScanRoots();
      var scan := sp.toBase;
      ghost var k := 0;
      StartOfScan(cycle, Current());
      while scan < toAlloc
        invariant Valid(k, 0)
        invariant Ordered(cycle, Current()) && k <= |order| && scan == Dest(cycle, Current(), k)
        invariant RootsDone(cycle, Current(), roots)
        decreases sp.toLimit - scan
      {
        ghost var v := Current();
        ScanPosition(cycle, v, k);
        ScanObject(scan, k);
        RootsKept(cycle, v, Current(), k + 1, 0, roots);
        StillThere(cycle, v, Current(), k);
        k := k + 1;
        scan := scan + ObjBytes(mem[scan]);
      }
      ScanPosition(cycle, Current(), k);
    }
  }

  lemma RootTraceable(c: Cycle, v: View, k: nat, i: nat, w: Word)
    requires Inv(c, v, k, i) && w in c.roots
    ensures Traceable(c, v, w)
  {
    hide ValidHeap, Layout, Accounted, FromSide, ToSide;
    if w in c.before { RootReachable(c.Graph0(), c.roots, w); }
  }

  lemma PhiOld(c: Cycle, v: View, k: nat, i: nat)
    requires Inv(c, v, k, i)
    ensures v.phi.Keys <= c.before.Keys
  {
  }

  // ---- what a finished collection means ----

  /** o' is o with every scanned reference renamed and everything else kept. */
  ghost predicate CopyOf(o: Obj, o': Obj, scan: nat, phi: map<Word, Word>)
  {
    && scan <= |o.slots|
    && o' == o.(gcFlags := 0, slots := ForwardAll(phi, o.slots[..scan]) + o.slots[scan..])
  }

  /** One copy of each live object, contents kept, and nothing else. */
  ghost predicate MovedObjects(c: Cycle, after: Heap, phi: map<Word, Word>)
    requires c.Valid()
  {
    && (forall a :: a in phi <==> c.Live(a))
    && phi.Keys <= c.before.Keys
    && after.Keys == phi.Values
    && (forall a :: a in phi ==> phi[a] in after && Aligned(phi[a]) && CopyOf(c.before[a], after[phi[a]], c.Scan(a), phi))
    && (forall o :: o in after ==> ScannableSlots(after[o], c.formats) <= |after[o].slots|)
  }

  ghost predicate MovedRoots(c: Cycle, after: Heap, roots: seq<Word>, phi: map<Word, Word>)
    requires c.Valid() && MovedObjects(c, after, phi)
  {
    && roots == ForwardAll(phi, c.roots)
    && (forall w :: w in c.roots ==> Settled(c.Graph0(), HeapGraph(after, c.formats), phi, w))
  }

  /** The heap `after` and the roots are the live part of the cycle's heap, moved by phi. */
  ghost predicate Collected(c: Cycle, after: Heap, roots: seq<Word>, used: nat, phi: map<Word, Word>)
    requires c.Valid()
  {
    && MovedObjects(c, after, phi)
    && Isomorphic(c.Graph0(), HeapGraph(after, c.formats), phi)
    && MovedRoots(c, after, roots, phi)
    && Packed(after, after.Keys, c.sp.toBase, c.sp.toBase + used)
    && used == TotalBytes(c.before, phi.Keys) <= c.used
  }

  ghost function ToSpace(v: View): Heap
    requires v.phi.Values <= v.mem.Keys
  {
    map a | a in v.phi.Values :: v.mem[a]
  }

  ghost predicate RootsDone(c: Cycle, v: View, roots: seq<Word>)
  {
    |roots| == |c.roots| && forall j :: 0 <= j < |roots| ==> Redirects(c, v.phi, c.roots[j], roots[j])
  }

  lemma FinishedCopy(c: Cycle, v: View, a: Word)
    requires Inv(c, v, |v.order|, 0) && a in v.phi
    ensures a in c.before && v.phi[a] in v.mem
    ensures CopyOf(c.before[a], v.mem[v.phi[a]], c.Scan(a), v.phi)
    ensures |v.mem[v.phi[a]].slots| == |c.before[a].slots|
    ensures forall w :: w in c.before[a].slots[..c.Scan(a)] && w in c.before ==> w in v.phi
  {
    hide ValidHeap, Layout, Accounted, FromSide;
    var j :| 0 <= j < |v.order| && v.order[j] == a;
    var o, o' := c.before[a], v.mem[v.phi[a]];
    assert ToAt(c, v, j, |v.order|, 0);
    assert o'.slots == ForwardAll(v.phi, o.slots[..c.Scan(a)]) + o.slots[c.Scan(a)..];
  }

  /** When the scan pointer meets the bump pointer, exactly the live objects are copied. */
  lemma FinishedLive(c: Cycle, v: View, roots: seq<Word>)
    requires Inv(c, v, |v.order|, 0) && RootsDone(c, v, roots)
    ensures forall a :: a in v.phi <==> c.Live(a)
  {
    hide ValidHeap, Layout, Accounted, FromSide, ToSide;
    var g := c.Graph0();
    assert Closed(g, c.roots, v.phi.Keys) by {
      forall w | w in c.roots && w in g ensures w in v.phi {
        var j :| 0 <= j < |c.roots| && c.roots[j] == w;
        assert Redirects(c, v.phi, c.roots[j], roots[j]);
      }
      forall a, w | a in v.phi && a in g && w in g[a] && w in g ensures w in v.phi { FinishedCopy(c, v, a); }
    }
    ReachableInClosed(g, c.roots, v.phi.Keys);
  }

  /** Redirecting never touches a method header, so a copy is scanned like its original. */
  lemma SameScan(c: Cycle, o: Obj, o': Obj, phi: map<Word, Word>, n: nat)
    requires CopyOf(o, o', n, phi) && n == ScannableSlots(o, c.formats)
    requires HeaderIsInteger(o, c.formats)
    requires forall w :: w in phi ==> !IsSmallInt(w)
    ensures |o'.slots| == |o.slots| && ScannableSlots(o', c.formats) == n
    ensures o'.slots[..n] == ForwardAll(phi, o.slots[..n])
  {
  }

  lemma FinishedScan(c: Cycle, v: View, a: Word)
    requires Inv(c, v, |v.order|, 0) && a in v.phi
    ensures a in c.before && v.phi[a] in v.mem
    ensures ScannableSlots(v.mem[v.phi[a]], c.formats) == c.Scan(a) <= |v.mem[v.phi[a]].slots|
    ensures v.mem[v.phi[a]].slots[..c.Scan(a)] == ForwardAll(v.phi, c.before[a].slots[..c.Scan(a)])
  {
    hide ValidHeap, Layout, Accounted, FromSide, ToSide, ScannableSlots, CopyOf, Reachable, HeaderIsInteger;
    FinishedCopy(c, v, a);
    OldValid(c, a);
    forall w | w in v.phi ensures !IsSmallInt(w) { OldValid(c, w); }
    SameScan(c, c.before[a], v.mem[v.phi[a]], v.phi, c.Scan(a));
  }

  lemma CopyIsPointer(c: Cycle, v: View, a: Word)
    requires Inv(c, v, |v.order|, 0) && a in v.phi
    ensures IsPointer(v.phi[a]) && c.sp.InTo(v.phi[a]) && v.phi[a] !in c.before
  {
    hide ValidHeap, Accounted, FromSide, ToSide, Adjacent;
    OldInFrom(c);
    assert Placed(c, v, a);
    NotOld(c, v, |v.order|, 0, a);
  }

  lemma FinishedSettled(c: Cycle, v: View, w: Word)
    requires Inv(c, v, |v.order|, 0) && ValidRef(c.before, c.sp, w) && (w in c.before ==> w in v.phi)
    ensures w in v.phi || (w !in c.before && w !in v.phi.Values)
  {
    hide Inv;
    forall a | a in v.phi ensures v.phi[a] != w || w in v.phi { CopyIsPointer(c, v, a); }
  }

  lemma FinishedApart(c: Cycle, v: View, a: Word, b: Word)
    requires Inv(c, v, |v.order|, 0) && a in v.phi && b in v.phi && a != b && a in c.before && b in c.before
    ensures v.phi[a] + ObjBytes(c.before[a]) <= v.phi[b] || v.phi[b] + ObjBytes(c.before[b]) <= v.phi[a]
  {
    hide ValidHeap, Accounted, FromSide, ToSide, Layout;
    var j :| 0 <= j < |v.order| && v.order[j] == a;
    var l :| 0 <= l < |v.order| && v.order[l] == b;
    if j < l { CopiesApart(c, v, j, l); } else { CopiesApart(c, v, l, j); }
  }

  lemma FinishedInjective(c: Cycle, v: View)
    requires Inv(c, v, |v.order|, 0)
    ensures Injective(v.phi)
  {
    hide Inv;
    PhiOld(c, v, |v.order|, 0);
    forall a, b | a in v.phi && b in v.phi && a != b ensures v.phi[a] != v.phi[b] { FinishedApart(c, v, a, b); }
  }

  lemma FinishedBounds(c: Cycle, v: View, a: Word)
    requires Inv(c, v, |v.order|, 0) && a in v.phi
    ensures a in c.before && v.phi[a] in v.mem && ObjBytes(v.mem[v.phi[a]]) == ObjBytes(c.before[a])
    ensures Aligned(v.phi[a]) && c.sp.toBase <= v.phi[a] && v.phi[a] + ObjBytes(c.before[a]) <= v.toAlloc
  {
    hide ValidHeap, Accounted, FromSide, ToSide, Adjacent, CopyOf, Reachable, AllocBytes;
    FinishedCopy(c, v, a);
    assert Placed(c, v, a);
  }

  lemma FinishedPacked(c: Cycle, v: View)
    requires Inv(c, v, |v.order|, 0)
    ensures v.phi.Values <= v.mem.Keys
    ensures Packed(ToSpace(v), v.phi.Values, c.sp.toBase, v.toAlloc)
  {
    hide Inv;
    PhiOld(c, v, |v.order|, 0);
    forall a | a in v.phi ensures v.phi[a] in v.mem { FinishedBounds(c, v, a); }
    var h := ToSpace(v);
    forall o | o in v.phi.Values ensures c.sp.toBase <= o && o + ObjBytes(h[o]) <= v.toAlloc {
      var a :| a in v.phi && v.phi[a] == o;
      FinishedBounds(c, v, a);
    }
    forall o, p | o in v.phi.Values && p in v.phi.Values && o < p ensures o + ObjBytes(h[o]) <= p {
      var a :| a in v.phi && v.phi[a] == o;
      var b :| b in v.phi && v.phi[b] == p;
      FinishedBounds(c, v, a);
      FinishedBounds(c, v, b);
      FinishedApart(c, v, a, b);
    }
  }

  lemma FinishedScannable(c: Cycle, v: View)
    requires Inv(c, v, |v.order|, 0)
    ensures v.phi.Values <= v.mem.Keys
    ensures forall o :: o in ToSpace(v) ==> ScannableSlots(ToSpace(v)[o], c.formats) <= |ToSpace(v)[o].slots|
  {
    hide Inv, ScannableSlots;
    forall a | a in v.phi ensures v.phi[a] in v.mem { FinishedBounds(c, v, a); }
    forall o | o in v.phi.Values ensures ScannableSlots(v.mem[o], c.formats) <= |v.mem[o].slots| {
      var a :| a in v.phi && v.phi[a] == o;
      FinishedScan(c, v, a);
    }
  }

  lemma FinishedIsomorphic(c: Cycle, v: View)
    requires Inv(c, v, |v.order|, 0)
    requires v.phi.Values <= v.mem.Keys
    requires forall o :: o in ToSpace(v) ==> ScannableSlots(ToSpace(v)[o], c.formats) <= |ToSpace(v)[o].slots|
    ensures Isomorphic(c.Graph0(), HeapGraph(ToSpace(v), c.formats), v.phi)
  {
    hide Inv, ScannableSlots, ValidHeap, Accounted;
    CycleValid(c, v);
    FinishedInjective(c, v);
    var g, g' := c.Graph0(), HeapGraph(ToSpace(v), c.formats);
    forall a | a in v.phi ensures g'[v.phi[a]] == ForwardAll(v.phi, g[a]) { FinishedScan(c, v, a); }
    forall a, w | a in v.phi && w in g[a] ensures Settled(g, g', v.phi, w) {
      OldValid(c, a);
      FinishedCopy(c, v, a);
      FinishedSettled(c, v, w);
    }
  }

  lemma FinishedRoots(c: Cycle, v: View, roots: seq<Word>, w: Word)
    requires Inv(c, v, |v.order|, 0) && RootsDone(c, v, roots) && w in c.roots
    ensures w in v.phi || (w !in c.before && w !in v.phi.Values)
  {
    hide Inv, ValidHeap;
    var j :| 0 <= j < |c.roots| && c.roots[j] == w;
    assert Redirects(c, v.phi, c.roots[j], roots[j]);
    assert c.Valid() by { CycleValid(c, v); }
    FinishedSettled(c, v, w);
  }

  lemma CycleValid(c: Cycle, v: View)
    requires Inv(c, v, |v.order|, 0)
    ensures c.Valid() && Ordered(c, v) && Accounted(c, v)
  {
  }

  lemma FinishedObjects(c: Cycle, v: View, roots: seq<Word>)
    requires Inv(c, v, |v.order|, 0) && RootsDone(c, v, roots)
    ensures c.Valid() && v.phi.Values <= v.mem.Keys && MovedObjects(c, ToSpace(v), v.phi)
  {
    hide Inv, Packed, ScannableSlots, ValidHeap, Reachable, CopyOf, ObjBytes, Aligned, Accounted, RootsDone;
    CycleValid(c, v);
    FinishedScannable(c, v);
    FinishedLive(c, v, roots);
    forall a | a in v.phi ensures v.phi[a] in v.phi.Values && Aligned(v.phi[a]) && CopyOf(c.before[a], v.mem[v.phi[a]], c.Scan(a), v.phi) {
      FinishedCopy(c, v, a);
      FinishedBounds(c, v, a);
    }
  }

  lemma FinishedMovedRoots(c: Cycle, v: View, roots: seq<Word>)
    requires Inv(c, v, |v.order|, 0) && RootsDone(c, v, roots)
    requires c.Valid() && v.phi.Values <= v.mem.Keys && MovedObjects(c, ToSpace(v), v.phi)
    ensures MovedRoots(c, ToSpace(v), roots, v.phi)
  {
    hide Inv, ScannableSlots, ValidHeap, Reachable, CopyOf;
    forall w | w in c.roots ensures w in v.phi || (w !in c.before && w !in v.phi.Values) { FinishedRoots(c, v, roots, w); }
    assert roots == ForwardAll(v.phi, c.roots);
  }

  /** The collector's main theorem. */
  lemma Finished(c: Cycle, v: View, roots: seq<Word>)
    requires Inv(c, v, |v.order|, 0) && RootsDone(c, v, roots)
    ensures c.Valid() && v.phi.Values <= v.mem.Keys
    ensures Collected(c, ToSpace(v), roots, v.toAlloc - c.sp.toBase, v.phi)
  {
    hide Inv, Packed, Isomorphic, ScannableSlots, ValidHeap, Reachable, TotalBytes, RootsDone, MovedRoots, CopyOf;
    CycleValid(c, v);
    FinishedObjects(c, v, roots);
    FinishedIsomorphic(c, v);
    FinishedMovedRoots(c, v, roots);
    FinishedPacked(c, v);
    SurvivorsFit(c, v.phi.Keys);
  }

  /** The spaces of the next cycle: to-space becomes from-space, and the new region is fresh. */
  ghost predicate NextSpaces(c: Cycle, after: Heap, roots: seq<Word>, sp: Spaces)
    requires forall o :: o in after ==> ScannableSlots(after[o], c.formats) <= |after[o].slots|
  {
    && sp.Valid() && sp.fromBase == c.sp.toBase && sp.fromLimit == c.sp.toLimit
    && (forall w :: w in roots && IsPointer(w) ==> !sp.InTo(w))
    && (forall o, i :: o in after && 0 <= i < ScannableSlots(after[o], c.formats) && IsPointer(after[o].slots[i]) ==> !sp.InTo(after[o].slots[i]))
  }

  lemma NextObjectValid(c: Cycle, after: Heap, roots: seq<Word>, used: nat, phi: map<Word, Word>, sp: Spaces, a: Word)
    requires c.Valid() && Collected(c, after, roots, used, phi) && NextSpaces(c, after, roots, sp) && a in phi
    ensures phi[a] in after && ValidObject(after, sp, c.formats, phi[a])
  {
    hide ValidHeap, Isomorphic, Packed, Reachable, TotalBytes, ScannableSlots;
    OldValid(c, a);
    forall w | w in phi ensures !IsSmallInt(w) { OldValid(c, w); }
    var o, o', n := c.before[a], after[phi[a]], c.Scan(a);
    SameScan(c, o, o', phi, n);
    assert HeaderIsInteger(o', c.formats);
    forall i | 0 <= i < n ensures ValidRef(after, sp, o'.slots[i]) {
      var w := o.slots[i];
      assert ValidRef(c.before, c.sp, w);
      assert o'.slots[i] == o'.slots[..n][i] == Forward(phi, w);
      assert w in phi ==> phi[w] in phi.Values;
    }
  }

  /** A collected heap is a heap the next collection may start from. */
  lemma NextCycleValid(c: Cycle, after: Heap, roots: seq<Word>, used: nat, phi: map<Word, Word>, sp: Spaces)
    requires c.Valid() && Collected(c, after, roots, used, phi) && NextSpaces(c, after, roots, sp)
    requires c.sp.toBase + used <= c.sp.toLimit
    ensures Cycle(sp, c.formats, after, used, roots).Valid()
  {
    hide ValidHeap, Isomorphic, Reachable, TotalBytes, ScannableSlots;
    forall o | o in after ensures ValidObject(after, sp, c.formats, o) {
      var a :| a in phi && phi[a] == o;
      NextObjectValid(c, after, roots, used, phi, sp, a);
    }
    forall w | w in roots ensures ValidRef(after, sp, w) {
      var i :| 0 <= i < |roots| && roots[i] == w;
      var w0 := c.roots[i];
      assert ValidRef(c.before, c.sp, w0);
      assert w0 in phi ==> phi[w0] in phi.Values;
    }
    assert ValidHeap(after, sp, c.formats, used) by { NextHeapValid(after, sp, c.formats, used); }
  }

  lemma NextHeapValid(h: Heap, sp: Spaces, formats: map<nat, Format>, used: nat)
    requires sp.Valid() && sp.fromBase + used <= sp.fromLimit
    requires Packed(h, h.Keys, sp.fromBase, sp.fromBase + used)
    requires forall a :: a in h ==> ValidObject(h, sp, formats, a)
    ensures ValidHeap(h, sp, formats, used)
  {
  }

  lemma SurvivorsFit(c: Cycle, s: set<Word>)
    requires c.Valid() && s <= c.before.Keys
    ensures TotalBytes(c.before, s) <= c.used
  {
    TotalBytesMonotone(c.before, s, c.before.Keys);
    PackedTotal(c.before, c.before.Keys, c.sp.fromBase, c.sp.fromBase + c.used);
  }

  lemma RootsKept(c: Cycle, v: View, v': View, k: nat, i: nat, roots: seq<Word>)
    requires RootsDone(c, v, roots) && Inv(c, v', k, i)
    requires forall a :: a in v.phi ==> a in v'.phi && v'.phi[a] == v.phi[a]
    ensures RootsDone(c, v', roots)
  {
    hide ValidHeap, Layout, Accounted, FromSide, ToSide;
  }

  /** The scan pointer is at a copy exactly while it is below the bump pointer. */
  lemma ScanPosition(c: Cycle, v: View, k: nat)
    requires Inv(c, v, k, 0)
    ensures Ordered(c, v) && k <= |v.order| && v.toAlloc <= c.sp.toLimit
    ensures Dest(c, v, k) < v.toAlloc <==> k < |v.order|
    ensures k < |v.order| ==> v.order[k] in v.phi && v.phi[v.order[k]] in v.mem
    ensures k < |v.order| ==> Dest(c, v, k + 1) == Dest(c, v, k) + ObjBytes(v.mem[v.phi[v.order[k]]])
  {
    hide ValidHeap, Accounted, FromSide;
    if k < |v.order| {
      assert Adjacent(c, v, k);
      ScanTarget(c, v, k, 0);
    }
  }

  class Actor {
    const formats: map<nat, Format>
    const immBase: nat
    const immLimit: nat
    var objects: Heap
    var base: nat
    var capacity: nat
    var used: nat
    var roots: seq<Word>
    var gcCount: nat
    var bytesSurvived: nat
    var bytesReclaimed: nat

    function CycleInto(toBase: nat): Cycle
      reads this
    {
      Cycle(Spaces(base, base + capacity, immBase, immLimit, toBase, toBase + capacity), formats, objects, used, roots)
    }

    /** Collect into the region the allocator hands out, if it hands one out. */
    method Collect(region: Option<nat>) returns (rc: int)
      requires region.Some? ==> CycleInto(region.value).Valid()
      modifies this
      ensures region.None? ==> rc == -1 && unchanged(this)
      ensures region.Some? ==>
                && rc == 0 && base == region.value && capacity == old(capacity)
                && (exists phi :: Collected(old(CycleInto(region.value)), objects, roots, used, phi))
                && gcCount == old(gcCount) + 1 && bytesSurvived == used <= old(used)
                && bytesReclaimed == old(bytesReclaimed) + (old(used) - used)
    {
      hide Inv, ValidHeap, Collected, RootsDone, ToSpace, ValidRef;
      if region.None? { return -1; }
      var toBase := region.value;
      var gc := new GcState(CycleInto(toBase));
      ghost var c := gc.cycle;
      gc.Trace();
      ghost var v := gc.Current();
      Finished(c, v, gc.roots);
      FinishedUse(c, v);
      assert Collected(c, ToSpace(v), gc.roots, gc.toAlloc - toBase, v.phi);
      var survived := gc.toAlloc - toBase;
      objects := gc.Survivors();
      base, roots := toBase, gc.roots;
      gcCount, bytesSurvived := gcCount + 1, survived;
      if used > survived { bytesReclaimed := bytesReclaimed + (used - survived); }
      used := survived;
      assert Collected(c, objects, roots, used, v.phi);
      rc := 0;
    }
  }

  lemma StartOfScan(c: Cycle, v: View)
    requires Inv(c, v, 0, 0)
    ensures Ordered(c, v) && Dest(c, v, 0) == c.sp.toBase
  {
    hide ValidHeap, Accounted, FromSide, ToSide;
  }

  lemma StillThere(c: Cycle, v: View, v': View, k: nat)
    requires Inv(c, v, k, 0) && Inv(c, v', k + 1, 0) && k < |v.order| && v.order <= v'.order
    requires forall a :: a in v.phi ==> a in v'.phi && v'.phi[a] == v.phi[a]
    ensures Ordered(c, v') && Dest(c, v, k) in v'.mem && Dest(c, v', k + 1) == Dest(c, v, k) + ObjBytes(v'.mem[Dest(c, v, k)])
  {
    hide ValidHeap, Accounted, FromSide;
    assert v'.order[k] == v.order[k];
    assert ToAt(c, v', k, k + 1, 0);
    assert Adjacent(c, v', k);
  }

  /** To-space holds the copies and nothing else. */
  lemma FinishedUse(c: Cycle, v: View)
    requires Inv(c, v, |v.order|, 0) && v.phi.Values <= v.mem.Keys
    ensures ToSpace(v) == map a | a in v.mem && c.sp.toBase <= a < v.toAlloc :: v.mem[a]
    ensures c.Valid() && v.toAlloc - c.sp.toBase <= c.used
  {
    hide ValidHeap, FromSide, TotalBytes, Adjacent;
    SurvivorsFit(c, v.phi.Keys);
    OldInFrom(c);
    forall a | a in v.mem ensures a in v.phi.Values <==> c.sp.toBase <= a < v.toAlloc {
      if a in c.before { assert c.sp.InFrom(a); }
    }
  }
}
