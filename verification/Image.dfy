/** Saving the object graph to an image and loading it back (src/image/image.c). */
module Image {
  import opened Common
  import opened ObjectGraph

  /** Byte objects hold no references here; a CompiledMethod its header and literals. */
  function ScannableSlots(o: Obj, formats: map<nat, Format>): nat
  {
    if o.classIndex !in formats then |o.slots|
    else
      var f := formats[o.classIndex];
      if f.kind == VARIABLE_BYTE then 0
      else if f.kind == COMPILED_METHOD then
        if |o.slots| == 0 then 0 else 1 + NumLiterals(o.slots[0])
      else |o.slots|
  }

  const IMMUT_FLAG := 0x8000_0000
  const ID_LIMIT := 0x1_0000_0000

  // ---- snapshot words ----

  const HEAP_TAG := 3

  function SnapEncode(id: nat): Word { id * 4 + HEAP_TAG }
  predicate SnapIsHeap(w: Word) { w % 4 == HEAP_TAG }
  function SnapId(w: Word): nat { (w / 4) % ID_LIMIT }

  lemma SnapRoundTrip(id: nat)
    requires id < ID_LIMIT
    ensures SnapIsHeap(SnapEncode(id)) && SnapId(SnapEncode(id)) == id
  {
  }

  datatype Record = Record(objectId: nat, classKey: nat, gcFlags: nat, objFlags: nat, reserved: nat, payload: seq<Word>)

  datatype Reloc = Reloc(objectId: nat, slot: nat)

  datatype Snapshot = Snapshot(records: seq<Record>, relocs: seq<Reloc>)

  // ---- what is saved ----

  datatype World = World(heap: Heap, formats: map<nat, Format>, immBase: nat, immLimit: nat, root: Word) {
    ghost predicate ValidObject(a: Word)
      requires a in heap
    {
      && 0 < a && Aligned(a)
      && heap[a].classIndex < IMMUT_FLAG
      && HeaderIsInteger(heap[a], formats)
      && ScannableSlots(heap[a], formats) <= |heap[a].slots|
      && forall i :: 0 <= i < ScannableSlots(heap[a], formats) && IsPointer(heap[a].slots[i]) ==> heap[a].slots[i] in heap
    }

    ghost predicate Valid() {
      && root in heap && |heap| < ID_LIMIT
      && forall a :: a in heap ==> ValidObject(a)
    }

    predicate InImmutable(a: Word) { immBase <= a < immLimit }

    ghost function Scan(a: Word): nat
      requires a in heap
    {
      ScannableSlots(heap[a], formats)
    }

    ghost function Graph0(): Graph
      requires Valid()
    {
      map a | a in heap :: heap[a].slots[..ScannableSlots(heap[a], formats)]
    }

    ghost predicate Live(a: Word)
      requires Valid()
    {
      Reachable(Graph0(), [root], a)
    }
  }

  lemma ObjectValid(w: World, a: Word)
    requires w.Valid() && a in w.heap
    ensures w.ValidObject(a)
  {
  }

  // ---- the graph walk ----

  ghost predicate Numbered(objects: seq<Word>, ids: map<Word, nat>)
  {
    && (forall a :: a in ids ==> ids[a] < |objects| && objects[ids[a]] == a)
    && (forall i :: 0 <= i < |objects| ==> objects[i] in ids && ids[objects[i]] == i)
  }

  ghost predicate ChildrenIn(w: World, ids: map<Word, nat>, a: Word, n: nat)
    requires a in w.heap
  {
    forall i :: 0 <= i < n && i < |w.heap[a].slots| && IsPointer(w.heap[a].slots[i]) ==> w.heap[a].slots[i] in ids
  }

  ghost predicate Walk(w: World, objects: seq<Word>, ids: map<Word, nat>)
  {
    && w.Valid()
    && Numbered(objects, ids)
    && ids.Keys <= w.heap.Keys
    && |objects| > 0 && objects[0] == w.root
    && forall a :: a in ids ==> w.Live(a)
  }

  /** Registered objects are expanded unless they are on the worklist or open. */
  ghost predicate Expanded(w: World, ids: map<Word, nat>, work: seq<Word>, open: set<Word>)
    requires ids.Keys <= w.heap.Keys
  {
    forall a :: a in ids && a !in work && a !in open ==> ChildrenIn(w, ids, a, w.Scan(a))
  }

  lemma ChildLive(w: World, a: Word, i: nat)
    requires w.Valid() && a in w.heap && w.Live(a) && i < w.Scan(a) && i < |w.heap[a].slots| && w.heap[a].slots[i] in w.heap
    ensures w.Live(w.heap[a].slots[i])
  {
    var g := w.Graph0();
    ObjectValid(w, a);
    assert g[a][i] == w.heap[a].slots[i];
    EdgeReachable(g, [w.root], a, w.heap[a].slots[i]);
  }

  lemma RegisterInv(w: World, objects: seq<Word>, ids: map<Word, nat>, a: Word)
    requires Walk(w, objects, ids) && a in w.heap && a !in ids && w.Live(a)
    ensures Walk(w, objects + [a], ids[a := |objects|])
  {
    hide Reachable, ScannableSlots;
    var objects', ids' := objects + [a], ids[a := |objects|];
    forall i | 0 <= i < |objects'| ensures objects'[i] in ids' && ids'[objects'[i]] == i {
      if i < |objects| { assert objects[i] in ids; }
    }
  }

  lemma ExpandedKept(w: World, ids: map<Word, nat>, ids': map<Word, nat>, work: seq<Word>, r: Word, open: set<Word>)
    requires ids.Keys <= w.heap.Keys && ids'.Keys == ids.Keys + {r} && r in w.heap
    requires Expanded(w, ids, work, open)
    ensures Expanded(w, ids', work + [r], open)
  {
    hide ScannableSlots;
    forall a | a in ids' && a !in work + [r] && a !in open ensures ChildrenIn(w, ids', a, w.Scan(a)) {
      assert r in work + [r];
      assert forall x :: x in work ==> x in work + [r];
      assert ChildrenIn(w, ids, a, w.Scan(a));
    }
  }

  /** Number everything reachable from the root, root first. */
  method WalkGraph(w: World) returns (objects: seq<Word>, ids: map<Word, nat>)
    requires w.Valid()
    ensures Walk(w, objects, ids)
    ensures forall a :: a in ids <==> w.Live(a)
  {
    hide Reachable, ScannableSlots, Numbered;
    StartWalk(w);
    objects, ids := [w.root], map[w.root := 0];
    var work := [w.root];
    while work != []
      invariant Walk(w, objects, ids)
      invariant forall a :: a in work ==> a in ids
      invariant Expanded(w, ids, work, {})
      decreases w.heap.Keys - ids.Keys, |work|
    {
      var hdr := work[|work| - 1];
      work := work[..|work| - 1];
      ObjectValid(w, hdr);
      PopExpanded(w, ids, work, hdr);
      objects, ids, work := ExpandObject(w, hdr, objects, ids, work);
    }
    WalkDone(w, objects, ids);
  }

  lemma StartWalk(w: World)
    requires w.Valid()
    ensures Walk(w, [w.root], map[w.root := 0])
  {
    RootReachable(w.Graph0(), [w.root], w.root);
  }

  lemma PopExpanded(w: World, ids: map<Word, nat>, work: seq<Word>, a: Word)
    requires ids.Keys <= w.heap.Keys && Expanded(w, ids, work + [a], {})
    ensures Expanded(w, ids, work, {a})
  {
    hide ScannableSlots;
    forall b | b in ids && b !in work && b !in {a} ensures ChildrenIn(w, ids, b, w.Scan(b)) { assert b !in work + [a]; }
  }

  lemma CloseExpanded(w: World, ids: map<Word, nat>, work: seq<Word>, a: Word)
    requires ids.Keys <= w.heap.Keys && a in w.heap && Expanded(w, ids, work, {a}) && ChildrenIn(w, ids, a, w.Scan(a))
    ensures Expanded(w, ids, work, {})
  {
  }

  /** Register the unregistered children of one object. */
  method ExpandObject(w: World, hdr: Word, objects0: seq<Word>, ids0: map<Word, nat>, work0: seq<Word>)
    returns (objects: seq<Word>, ids: map<Word, nat>, work: seq<Word>)
    requires Walk(w, objects0, ids0) && hdr in ids0 && (forall a :: a in work0 ==> a in ids0)
    requires Expanded(w, ids0, work0, {hdr})
    ensures Walk(w, objects, ids) && (forall a :: a in work ==> a in ids)
    ensures Expanded(w, ids, work, {})
    ensures ids0.Keys <= ids.Keys && (ids.Keys == ids0.Keys ==> work == work0)
  {
    hide Reachable, ScannableSlots, Numbered, Expanded;
    objects, ids, work := objects0, ids0, work0;
    ObjectValid(w, hdr);
    var n := ScannableSlots(w.heap[hdr], w.formats);
    var s := 0;
    while s < n
      invariant 0 <= s <= n
      invariant Walk(w, objects, ids) && hdr in ids && (forall a :: a in work ==> a in ids)
      invariant Expanded(w, ids, work, {hdr}) && ChildrenIn(w, ids, hdr, s)
      invariant ids0.Keys <= ids.Keys && (ids.Keys == ids0.Keys ==> work == work0)
    {
      var oop := w.heap[hdr].slots[s];
      if IsSmallInt(oop) || IsChar(oop) || oop == 0 {
      } else if oop !in ids {
        ChildLive(w, hdr, s);
        RegisterInv(w, objects, ids, oop);
        ExpandedKept(w, ids, ids[oop := |objects|], work, oop, {hdr});
        objects, ids, work := objects + [oop], ids[oop := |objects|], work + [oop];
      }
      s := s + 1;
    }
    CloseExpanded(w, ids, work, hdr);
  }

  lemma WalkDone(w: World, objects: seq<Word>, ids: map<Word, nat>)
    requires Walk(w, objects, ids) && Expanded(w, ids, [], {})
    ensures forall a :: a in ids <==> w.Live(a)
  {
    hide Reachable, ScannableSlots;
    var g := w.Graph0();
    assert objects[0] in ids;
    forall a, x | a in ids && a in g && x in g[a] && x in g ensures x in ids {
      ObjectValid(w, a);
      ObjectValid(w, x);
      assert ChildrenIn(w, ids, a, w.Scan(a));
    }
    assert Closed(g, [w.root], ids.Keys);
    ReachableInClosed(g, [w.root], ids.Keys);
  }

  // ---- the relocation table ----

  /** Slot s of object i holds a reference. */
  ghost predicate NeedsReloc(w: World, objects: seq<Word>, r: Reloc)
  {
    && r.objectId < |objects| && objects[r.objectId] in w.heap
    && r.slot < w.Scan(objects[r.objectId]) && r.slot < |w.heap[objects[r.objectId]].slots|
    && IsPointer(w.heap[objects[r.objectId]].slots[r.slot])
  }

  predicate Before(a: Reloc, b: Reloc) { a.objectId < b.objectId || (a.objectId == b.objectId && a.slot < b.slot) }

  /** Exactly the reference slots before `end`, each once. */
  ghost predicate RelocsUpTo(w: World, objects: seq<Word>, relocs: seq<Reloc>, end: Reloc)
  {
    && (forall k :: 0 <= k < |relocs| ==> NeedsReloc(w, objects, relocs[k]) && Before(relocs[k], end))
    && (forall r :: NeedsReloc(w, objects, r) && Before(r, end) ==> r in relocs)
    && (forall k, l :: 0 <= k < l < |relocs| ==> Before(relocs[k], relocs[l]))
  }

  lemma SlotStep(w: World, objects: seq<Word>, relocs: seq<Reloc>, i: nat, s: nat)
    requires RelocsUpTo(w, objects, relocs, Reloc(i, s))
    ensures NeedsReloc(w, objects, Reloc(i, s)) ==> RelocsUpTo(w, objects, relocs + [Reloc(i, s)], Reloc(i, s + 1))
    ensures !NeedsReloc(w, objects, Reloc(i, s)) ==> RelocsUpTo(w, objects, relocs, Reloc(i, s + 1))
  {
    hide NeedsReloc;
    var e, e' := Reloc(i, s), Reloc(i, s + 1);
    forall r | Before(r, e') ensures Before(r, e) || r == e {}
    if NeedsReloc(w, objects, e) {
      var rs := relocs + [e];
      forall r | NeedsReloc(w, objects, r) && Before(r, e') ensures r in rs {
        if r == e { assert rs[|relocs|] == e; } else { assert r in relocs; }
      }
    }
  }

  lemma ObjectStep(w: World, objects: seq<Word>, relocs: seq<Reloc>, i: nat, n: nat)
    requires RelocsUpTo(w, objects, relocs, Reloc(i, n)) && i < |objects| && objects[i] in w.heap && n == w.Scan(objects[i])
    ensures RelocsUpTo(w, objects, relocs, Reloc(i + 1, 0))
  {
    hide ScannableSlots;
    var e, e' := Reloc(i, n), Reloc(i + 1, 0);
    forall r | NeedsReloc(w, objects, r) && Before(r, e') ensures Before(r, e) {}
  }

  method BuildRelocs(w: World, objects: seq<Word>) returns (relocs: seq<Reloc>)
    requires w.Valid() && forall i :: 0 <= i < |objects| ==> objects[i] in w.heap
    ensures RelocsUpTo(w, objects, relocs, Reloc(|objects|, 0))
  {
    hide ScannableSlots, RelocsUpTo;
    relocs := [];
    NoRelocs(w, objects);
    var i := 0;
    while i < |objects|
      invariant 0 <= i <= |objects|
      invariant RelocsUpTo(w, objects, relocs, Reloc(i, 0))
    {
      var o := w.heap[objects[i]];
      ObjectValid(w, objects[i]);
      var n := ScannableSlots(o, w.formats);
      var s := 0;
      while s < n
        invariant 0 <= s <= n
        invariant RelocsUpTo(w, objects, relocs, Reloc(i, s))
      {
        SlotStep(w, objects, relocs, i, s);
        if IsSmallInt(o.slots[s]) || IsChar(o.slots[s]) || o.slots[s] == 0 {
        } else {
          relocs := relocs + [Reloc(i, s)];
        }
        s := s + 1;
      }
      ObjectStep(w, objects, relocs, i, n);
      i := i + 1;
    }
  }

  lemma NoRelocs(w: World, objects: seq<Word>)
    ensures RelocsUpTo(w, objects, [], Reloc(0, 0))
  {
  }

  // ---- the data section ----

  /** Immediates and 0 verbatim, references as tagged object ids. */
  function EncodeOop(ids: map<Word, nat>, oop: Word): Word
    requires IsPointer(oop) ==> oop in ids
  {
    if oop == 0 then 0
    else if IsSmallInt(oop) then oop
    else if IsChar(oop) then oop
    else SnapEncode(ids[oop])
  }

  /** The record of one object: references encoded, raw words verbatim. */
  ghost predicate RecordOf(w: World, ids: map<Word, nat>, id: nat, a: Word, r: Record)
    requires a in w.heap
  {
    var o := w.heap[a];
    && r == Record(id, o.classIndex + (if w.InImmutable(a) then IMMUT_FLAG else 0), o.gcFlags, o.objFlags, o.reserved, r.payload)
    && |r.payload| == |o.slots|
    && (forall s :: 0 <= s < |o.slots| && s < w.Scan(a) ==>
          (IsPointer(o.slots[s]) ==> o.slots[s] in ids) && r.payload[s] == EncodeOop(ids, o.slots[s]))
    && (forall s :: w.Scan(a) <= s < |o.slots| ==> r.payload[s] == o.slots[s])
  }

  method BuildRecord(w: World, ids: map<Word, nat>, id: nat, a: Word) returns (r: Record)
    requires w.Valid() && a in w.heap && ChildrenIn(w, ids, a, w.Scan(a))
    ensures RecordOf(w, ids, id, a, r)
  {
    hide ScannableSlots;
    ObjectValid(w, a);
    var o := w.heap[a];
    var n := ScannableSlots(o, w.formats);
    var payload: seq<Word> := [];
    var s := 0;
    while s < |o.slots|
      invariant 0 <= s <= |o.slots| && |payload| == s
      invariant forall l :: 0 <= l < s && l < n ==> (IsPointer(o.slots[l]) ==> o.slots[l] in ids) && payload[l] == EncodeOop(ids, o.slots[l])
      invariant forall l :: n <= l < s ==> payload[l] == o.slots[l]
    {
      payload := payload + [if s < n then EncodeOop(ids, o.slots[s]) else o.slots[s]];
      s := s + 1;
    }
    r := Record(id, o.classIndex + (if w.InImmutable(a) then IMMUT_FLAG else 0), o.gcFlags, o.objFlags, o.reserved, payload);
  }

  /** What an image of w is: ids are dense and unique, the records hold everything
      reachable, and the relocation table lists the reference slots. */
  ghost predicate Saved(w: World, objects: seq<Word>, ids: map<Word, nat>, img: Snapshot)
    requires w.Valid()
  {
    && Walk(w, objects, ids) && (forall a :: a in ids <==> w.Live(a))
    && |img.records| == |objects|
    && (forall i :: 0 <= i < |objects| ==> objects[i] in w.heap && RecordOf(w, ids, i, objects[i], img.records[i]))
    && RelocsUpTo(w, objects, img.relocs, Reloc(|objects|, 0))
  }

  method Save(w: World) returns (img: Snapshot, objects: seq<Word>, ids: map<Word, nat>)
    requires w.Valid()
    ensures Saved(w, objects, ids, img)
  {
    hide Reachable, ScannableSlots, RelocsUpTo, RecordOf;
    objects, ids := WalkGraph(w);
    WalkFacts(w, objects, ids);
    var relocs := BuildRelocs(w, objects);
    var records: seq<Record> := [];
    var i := 0;
    while i < |objects|
      invariant 0 <= i <= |objects| && |records| == i
      invariant forall l :: 0 <= l < i ==> RecordOf(w, ids, l, objects[l], records[l])
    {
      LiveChildren(w, ids, objects[i]);
      var r := BuildRecord(w, ids, i, objects[i]);
      records := records + [r];
      i := i + 1;
    }
    img := Snapshot(records, relocs);
  }

  lemma WalkFacts(w: World, objects: seq<Word>, ids: map<Word, nat>)
    requires Walk(w, objects, ids)
    ensures forall i :: 0 <= i < |objects| ==> objects[i] in ids && objects[i] in w.heap
  {
    hide Reachable;
  }

  lemma LiveChildren(w: World, ids: map<Word, nat>, a: Word)
    requires w.Valid() && a in w.heap && a in ids && (forall x :: x in ids <==> w.Live(x))
    ensures ChildrenIn(w, ids, a, w.Scan(a))
  {
    hide Reachable, ScannableSlots;
    ObjectValid(w, a);
    forall i | 0 <= i < w.Scan(a) && i < |w.heap[a].slots| && IsPointer(w.heap[a].slots[i]) ensures w.heap[a].slots[i] in ids {
      ChildLive(w, a, i);
    }
  }

  // ---- loading ----

  datatype LoadResult = Loaded(mem: Heap, table: seq<Option<Word>>, immutables: set<Word>) | Corrupt | OutOfMemory

  /** Addresses handed out by the two allocators, in allocation order. */
  ghost predicate FreshAddresses(addrs: seq<Word>)
  {
    && (forall i :: 0 <= i < |addrs| ==> 0 < addrs[i] && Aligned(addrs[i]))
    && (forall i, j :: 0 <= i < j < |addrs| ==> addrs[i] != addrs[j])
  }

  /** The format's promise: no object id twice, relocations point into payloads. */
  ghost predicate WellShaped(img: Snapshot)
  {
    && (forall i, j :: 0 <= i < j < |img.records| ==> img.records[i].objectId != img.records[j].objectId)
    && (forall k, i :: 0 <= k < |img.relocs| && 0 <= i < |img.records| && img.records[i].objectId == img.relocs[k].objectId ==>
          img.relocs[k].slot < |img.records[i].payload|)
  }

  function Header(r: Record, slots: seq<Word>): Obj
  {
    Obj(if r.classKey >= IMMUT_FLAG then r.classKey - IMMUT_FLAG else r.classKey, r.gcFlags, r.objFlags, r.reserved, slots)
  }

  /** Record i sits at addrs[i] with the given payloads. */
  ghost predicate Holds(img: Snapshot, addrs: seq<Word>, table: seq<Option<Word>>, mem: Heap, i: nat, slots: seq<Word>)
    requires i < |img.records| <= |addrs|
  {
    var r := img.records[i];
    && r.objectId < |table| && table[r.objectId] == Some(addrs[i])
    && addrs[i] in mem && mem[addrs[i]] == Header(r, slots)
  }

  /** Table entries come from records. */
  ghost predicate TableOk(img: Snapshot, addrs: seq<Word>, table: seq<Option<Word>>, n: nat)
    requires n <= |img.records| <= |addrs|
  {
    && |table| == |img.records|
    && (forall i :: 0 <= i < n ==> img.records[i].objectId < |table| && table[img.records[i].objectId] == Some(addrs[i]))
    && (forall id :: 0 <= id < |table| && table[id].Some? ==> exists i :: 0 <= i < n && img.records[i].objectId == id)
  }

  ghost predicate IdsOk(img: Snapshot) { forall i :: 0 <= i < |img.records| ==> img.records[i].objectId < |img.records| }

  ghost function AddressSet(addrs: seq<Word>, n: nat): set<Word>
    requires n <= |addrs|
  {
    set a | a in addrs[..n]
  }

  /** The first n objects are allocated, each in the space its record names. */
  ghost predicate AllocatedUpTo(img: Snapshot, addrs: seq<Word>, table: seq<Option<Word>>, mem: Heap, immutables: set<Word>, n: nat)
    requires n <= |img.records| <= |addrs|
  {
    && TableOk(img, addrs, table, n)
    && mem.Keys == AddressSet(addrs, n)
    && (forall l :: 0 <= l < n ==> Holds(img, addrs, table, mem, l, Zeros(|img.records[l].payload|)))
    && immutables <= mem.Keys
    && (forall l :: 0 <= l < n ==> (addrs[l] in immutables <==> img.records[l].classKey >= IMMUT_FLAG))
  }

  lemma AddressStep(addrs: seq<Word>, n: nat)
    requires FreshAddresses(addrs) && n < |addrs|
    ensures addrs[n] !in AddressSet(addrs, n) && AddressSet(addrs, n + 1) == AddressSet(addrs, n) + {addrs[n]}
    ensures forall l :: 0 <= l < n ==> addrs[l] in AddressSet(addrs, n)
  {
    assert addrs[..n + 1] == addrs[..n] + [addrs[n]];
    assert forall l :: 0 <= l < n ==> addrs[..n][l] == addrs[l] != addrs[n];
  }

  lemma HoldsKept(img: Snapshot, addrs: seq<Word>, table: seq<Option<Word>>, mem: Heap, n: nat, o: Obj, l: nat, slots: seq<Word>)
    requires WellShaped(img) && l < n < |img.records| <= |addrs| && img.records[n].objectId < |table| && addrs[l] != addrs[n]
    requires Holds(img, addrs, table, mem, l, slots)
    ensures Holds(img, addrs, table[img.records[n].objectId := Some(addrs[n])], mem[addrs[n] := o], l, slots)
  {
  }

  lemma AllocateOne(img: Snapshot, addrs: seq<Word>, table: seq<Option<Word>>, mem: Heap, immutables: set<Word>, n: nat)
    requires FreshAddresses(addrs) && WellShaped(img) && n < |img.records| <= |addrs|
    requires AllocatedUpTo(img, addrs, table, mem, immutables, n) && img.records[n].objectId < |img.records|
    ensures var r := img.records[n];
            AllocatedUpTo(img, addrs, table[r.objectId := Some(addrs[n])], mem[addrs[n] := Header(r, Zeros(|r.payload|))],
                          if r.classKey >= IMMUT_FLAG then immutables + {addrs[n]} else immutables, n + 1)
  {
    hide Header, Zeros, FreshAddresses, WellShaped, AddressSet;
    TableStep(img, addrs, table, n);
    AddressStep(addrs, n);
    var r := img.records[n];
    var table', mem' := table[r.objectId := Some(addrs[n])], mem[addrs[n] := Header(r, Zeros(|r.payload|))];
    forall l | 0 <= l < n + 1 ensures Holds(img, addrs, table', mem', l, Zeros(|img.records[l].payload|)) {
      if l < n { HoldsKept(img, addrs, table, mem, n, Header(r, Zeros(|r.payload|)), l, Zeros(|img.records[l].payload|)); }
    }
  }

  /** Pass 3: allocate every object and enter it in the id table. */
  method AllocateAll(img: Snapshot, addrs: seq<Word>) returns (ok: bool, table: seq<Option<Word>>, mem: Heap, immutables: set<Word>)
    requires FreshAddresses(addrs) && WellShaped(img) && |img.records| <= |addrs|
    ensures ok <==> IdsOk(img)
    ensures ok ==> AllocatedUpTo(img, addrs, table, mem, immutables, |img.records|)
  {
    hide AllocatedUpTo, FreshAddresses, WellShaped;
    table, mem, immutables := seq(|img.records|, i => None), map[], {};
    assert AllocatedUpTo(img, addrs, table, mem, immutables, 0) by { AllocateNone(img, addrs); }
    var i := 0;
    while i < |img.records|
      invariant 0 <= i <= |img.records|
      invariant forall l :: 0 <= l < i ==> img.records[l].objectId < |img.records|
      invariant |table| == |img.records| && AllocatedUpTo(img, addrs, table, mem, immutables, i)
    {
      var r := img.records[i];
      if r.objectId >= |img.records| { return false, table, mem, immutables; }
      AllocateOne(img, addrs, table, mem, immutables, i);
      if r.classKey >= IMMUT_FLAG { immutables := immutables + {addrs[i]}; }
      mem := mem[addrs[i] := Header(r, Zeros(|r.payload|))];
      table := table[r.objectId := Some(addrs[i])];
      i := i + 1;
    }
    ok := true;
  }

  lemma AllocateNone(img: Snapshot, addrs: seq<Word>)
    requires |img.records| <= |addrs|
    ensures AllocatedUpTo(img, addrs, seq(|img.records|, i => None), map[], {}, 0)
  {
  }

  lemma TableStep(img: Snapshot, addrs: seq<Word>, table: seq<Option<Word>>, n: nat)
    requires WellShaped(img) && n < |img.records| <= |addrs| && TableOk(img, addrs, table, n)
    requires img.records[n].objectId < |table|
    ensures TableOk(img, addrs, table[img.records[n].objectId := Some(addrs[n])], n + 1)
  {
    var table' := table[img.records[n].objectId := Some(addrs[n])];
    forall id | 0 <= id < |table'| && table'[id].Some? ensures exists i :: 0 <= i < n + 1 && img.records[i].objectId == id {
      if id != img.records[n].objectId {
        var i :| 0 <= i < n && img.records[i].objectId == id;
      } else {
        assert img.records[n].objectId == id;
      }
    }
  }

  /** Pass 4: copy the encoded payloads verbatim. */
  method FillPayloads(img: Snapshot, addrs: seq<Word>, table: seq<Option<Word>>, mem0: Heap) returns (mem: Heap)
    requires FreshAddresses(addrs) && |img.records| <= |addrs|
    requires forall i :: 0 <= i < |img.records| ==> Holds(img, addrs, table, mem0, i, Zeros(|img.records[i].payload|))
    ensures mem.Keys == mem0.Keys
    ensures forall i :: 0 <= i < |img.records| ==> Holds(img, addrs, table, mem, i, img.records[i].payload)
  {
    mem := mem0;
    var i := 0;
    while i < |img.records|
      invariant 0 <= i <= |img.records| && mem.Keys == mem0.Keys
      invariant forall l :: 0 <= l < i ==> Holds(img, addrs, table, mem, l, img.records[l].payload)
      invariant forall l :: i <= l < |img.records| ==> Holds(img, addrs, table, mem, l, Zeros(|img.records[l].payload|))
    {
      assert Holds(img, addrs, table, mem, i, Zeros(|img.records[i].payload|));
      var at := table[img.records[i].objectId].value;
      mem := mem[at := mem[at].(slots := img.records[i].payload)];
      i := i + 1;
    }
  }

  /** Payload slot s of record i after the relocations in `done`. */
  ghost function Patched(img: Snapshot, table: seq<Option<Word>>, done: seq<Reloc>, i: nat, s: nat): Word
    requires i < |img.records| && s < |img.records[i].payload|
  {
    var v := img.records[i].payload[s];
    if Reloc(img.records[i].objectId, s) in done && SnapId(v) < |table| && table[SnapId(v)].Some? then table[SnapId(v)].value else v
  }

  ghost predicate PatchedUpTo(img: Snapshot, addrs: seq<Word>, table: seq<Option<Word>>, mem: Heap, done: seq<Reloc>)
    requires |img.records| <= |addrs|
  {
    forall i :: 0 <= i < |img.records| ==>
      && addrs[i] in mem && |mem[addrs[i]].slots| == |img.records[i].payload|
      && mem[addrs[i]] == Header(img.records[i], mem[addrs[i]].slots)
      && forall s :: 0 <= s < |img.records[i].payload| ==> mem[addrs[i]].slots[s] == Patched(img, table, done, i, s)
  }

  /** The check the loader makes on one relocation. */
  ghost predicate GoodReloc(img: Snapshot, table: seq<Option<Word>>, r: Reloc)
  {
    exists i :: 0 <= i < |img.records| && img.records[i].objectId == r.objectId && GoodAt(img, table, r, i)
  }

  ghost predicate GoodAt(img: Snapshot, table: seq<Option<Word>>, r: Reloc, i: nat)
    requires i < |img.records|
  {
    && r.slot < |img.records[i].payload|
    && var v := img.records[i].payload[r.slot];
    && SnapIsHeap(v) && SnapId(v) < |table| && table[SnapId(v)].Some?
  }

  /** Every relocation passes the check and none occurs twice. */
  ghost predicate GoodRelocs(img: Snapshot, table: seq<Option<Word>>, n: nat)
    requires n <= |img.relocs|
  {
    && (forall k :: 0 <= k < n ==> GoodReloc(img, table, img.relocs[k]))
    && (forall k, l :: 0 <= k < l < n ==> img.relocs[k] != img.relocs[l])
  }

  lemma PatchOne(img: Snapshot, addrs: seq<Word>, table: seq<Option<Word>>, mem: Heap, k: nat, i: nat)
    requires FreshAddresses(addrs) && WellShaped(img) && |img.records| <= |addrs|
    requires k < |img.relocs| && i < |img.records| && img.records[i].objectId == img.relocs[k].objectId
    requires PatchedUpTo(img, addrs, table, mem, img.relocs[..k])
    requires img.relocs[k] !in img.relocs[..k] && GoodAt(img, table, img.relocs[k], i)
    ensures var r := img.relocs[k]; var o := mem[addrs[i]];
            && r.slot < |o.slots|
            && PatchedUpTo(img, addrs, table,
                           mem[addrs[i] := o.(slots := o.slots[r.slot := table[SnapId(img.records[i].payload[r.slot])].value])],
                           img.relocs[..k + 1])
  {
    var r, done, done' := img.relocs[k], img.relocs[..k], img.relocs[..k + 1];
    assert done' == done + [r];
    var o := mem[addrs[i]];
    var mem' := mem[addrs[i] := o.(slots := o.slots[r.slot := table[SnapId(img.records[i].payload[r.slot])].value])];
    forall j | 0 <= j < |img.records| && j != i ensures addrs[j] != addrs[i] && img.records[j].objectId != r.objectId {}
    forall j, s | 0 <= j < |img.records| && 0 <= s < |img.records[j].payload|
      ensures mem'[addrs[j]].slots[s] == Patched(img, table, done', j, s)
    {
      var q := Reloc(img.records[j].objectId, s);
      assert q in done' <==> q in done || q == r;
    }
  }

  lemma OwnerOf(img: Snapshot, addrs: seq<Word>, table: seq<Option<Word>>, id: nat) returns (i: nat)
    requires |img.records| <= |addrs| && TableOk(img, addrs, table, |img.records|) && id < |table| && table[id].Some?
    ensures i < |img.records| && img.records[i].objectId == id && table[id] == Some(addrs[i])
  {
    i :| 0 <= i < |img.records| && img.records[i].objectId == id;
  }

  lemma SlotNow(img: Snapshot, addrs: seq<Word>, table: seq<Option<Word>>, mem: Heap, done: seq<Reloc>, i: nat, s: nat)
    requires |img.records| <= |addrs| && PatchedUpTo(img, addrs, table, mem, done) && i < |img.records| && s < |img.records[i].payload|
    ensures addrs[i] in mem && |mem[addrs[i]].slots| == |img.records[i].payload|
    ensures mem[addrs[i]].slots[s] == Patched(img, table, done, i, s)
  {
    hide Patched, Header;
  }

  lemma AlreadyPatched(img: Snapshot, addrs: seq<Word>, table: seq<Option<Word>>, k: nat, i: nat)
    requires FreshAddresses(addrs) && WellShaped(img) && |img.records| <= |addrs| && TableOk(img, addrs, table, |img.records|)
    requires k < |img.relocs| && GoodRelocs(img, table, k) && i < |img.records| && img.records[i].objectId == img.relocs[k].objectId
    requires img.relocs[k] in img.relocs[..k]
    ensures img.relocs[k].slot < |img.records[i].payload| && !SnapIsHeap(Patched(img, table, img.relocs[..k], i, img.relocs[k].slot))
  {
    hide TableOk, SnapId;
    var r := img.relocs[k];
    var l :| 0 <= l < k && img.relocs[l] == r;
    assert GoodReloc(img, table, img.relocs[l]);
    var i' :| 0 <= i' < |img.records| && img.records[i'].objectId == r.objectId && GoodAt(img, table, r, i');
    assert i' == i;
    var j := OwnerOf(img, addrs, table, SnapId(img.records[i].payload[r.slot]));
  }

  /** A slot is seen encoded the first time and as an address, which is no tagged id, after. */
  lemma RelocRead(img: Snapshot, addrs: seq<Word>, table: seq<Option<Word>>, mem: Heap, k: nat) returns (i: nat)
    requires FreshAddresses(addrs) && WellShaped(img) && |img.records| <= |addrs| && TableOk(img, addrs, table, |img.records|)
    requires k < |img.relocs| && PatchedUpTo(img, addrs, table, mem, img.relocs[..k]) && GoodRelocs(img, table, k)
    requires img.relocs[k].objectId < |table| && table[img.relocs[k].objectId].Some?
    ensures i < |img.records| && img.records[i].objectId == img.relocs[k].objectId && table[img.relocs[k].objectId] == Some(addrs[i])
    ensures img.relocs[k].slot < |img.records[i].payload| && addrs[i] in mem && |mem[addrs[i]].slots| == |img.records[i].payload|
    ensures var v := mem[addrs[i]].slots[img.relocs[k].slot];
            if img.relocs[k] in img.relocs[..k] then !SnapIsHeap(v) else v == img.records[i].payload[img.relocs[k].slot]
  {
    hide TableOk, PatchedUpTo, GoodRelocs, FreshAddresses, SnapId, SnapIsHeap;
    var r := img.relocs[k];
    i := OwnerOf(img, addrs, table, r.objectId);
    assert r.slot < |img.records[i].payload|;
    SlotNow(img, addrs, table, mem, img.relocs[..k], i, r.slot);
    if r in img.relocs[..k] { AlreadyPatched(img, addrs, table, k, i); }
  }

  lemma RelocDecides(img: Snapshot, table: seq<Option<Word>>, k: nat, i: nat)
    requires WellShaped(img) && k < |img.relocs| && i < |img.records| && img.records[i].objectId == img.relocs[k].objectId
    requires GoodRelocs(img, table, k)
    ensures GoodRelocs(img, table, k + 1) <==> GoodAt(img, table, img.relocs[k], i) && img.relocs[k] !in img.relocs[..k]
  {
    hide GoodAt;
    var r := img.relocs[k];
    if GoodReloc(img, table, r) {
      var i' :| 0 <= i' < |img.records| && img.records[i'].objectId == r.objectId && GoodAt(img, table, r, i');
      assert i' == i;
    }
    assert r in img.relocs[..k] <==> exists l :: 0 <= l < k && img.relocs[l] == r;
  }

  lemma RelocUnknown(img: Snapshot, addrs: seq<Word>, table: seq<Option<Word>>, r: Reloc)
    requires |img.records| <= |addrs| && TableOk(img, addrs, table, |img.records|)
    requires r.objectId >= |table| || table[r.objectId].None?
    ensures !GoodReloc(img, table, r)
  {
  }

  lemma PrefixGood(img: Snapshot, table: seq<Option<Word>>, k: nat)
    requires k <= |img.relocs| && GoodRelocs(img, table, |img.relocs|)
    ensures GoodRelocs(img, table, k)
  {
  }

  /** Pass 5: replace tagged ids by addresses at the listed slots. */
  method Relocate(img: Snapshot, addrs: seq<Word>, table: seq<Option<Word>>, mem0: Heap) returns (ok: bool, mem: Heap)
    requires FreshAddresses(addrs) && WellShaped(img) && |img.records| <= |addrs| && TableOk(img, addrs, table, |img.records|)
    requires PatchedUpTo(img, addrs, table, mem0, [])
    ensures ok <==> GoodRelocs(img, table, |img.relocs|)
    ensures ok ==> mem.Keys == mem0.Keys && PatchedUpTo(img, addrs, table, mem, img.relocs)
  {
    hide FreshAddresses, WellShaped, TableOk, PatchedUpTo, GoodReloc, GoodRelocs, SnapId, SnapIsHeap;
    mem := mem0;
    GoodNone(img, table);
    var k := 0;
    while k < |img.relocs|
      invariant 0 <= k <= |img.relocs| && mem.Keys == mem0.Keys
      invariant GoodRelocs(img, table, k)
      invariant PatchedUpTo(img, addrs, table, mem, img.relocs[..k])
    {
      var r := img.relocs[k];
      assert GoodRelocs(img, table, |img.relocs|) ==> GoodRelocs(img, table, k + 1) by {
        if GoodRelocs(img, table, |img.relocs|) { PrefixGood(img, table, k + 1); }
      }
      if r.objectId >= |table| || table[r.objectId].None? {
        RelocUnknown(img, addrs, table, r);
        LastGood(img, table, k);
        return false, mem;
      }
      ghost var i := RelocRead(img, addrs, table, mem, k);
      RelocDecides(img, table, k, i);
      var at := table[r.objectId].value;
      var encoded := mem[at].slots[r.slot];
      if !SnapIsHeap(encoded) { return false, mem; }
      if SnapId(encoded) >= |table| || table[SnapId(encoded)].None? { return false, mem; }
      PatchOne(img, addrs, table, mem, k, i);
      mem := mem[at := mem[at].(slots := mem[at].slots[r.slot := table[SnapId(encoded)].value])];
      k := k + 1;
    }
    assert img.relocs[..k] == img.relocs;
    ok := true;
  }

  lemma GoodNone(img: Snapshot, table: seq<Option<Word>>)
    ensures GoodRelocs(img, table, 0)
  {
  }

  lemma LastGood(img: Snapshot, table: seq<Option<Word>>, k: nat)
    requires k < |img.relocs|
    ensures GoodRelocs(img, table, k + 1) ==> GoodReloc(img, table, img.relocs[k])
  {
  }

  /** The slots of record i in the loaded object. */
  ghost predicate LoadedAs(img: Snapshot, addrs: seq<Word>, table: seq<Option<Word>>, mem: Heap, immutables: set<Word>)
    requires |img.records| <= |addrs|
  {
    && TableOk(img, addrs, table, |img.records|)
    && mem.Keys == AddressSet(addrs, |img.records|)
    && PatchedUpTo(img, addrs, table, mem, img.relocs)
    && immutables <= mem.Keys
    && (forall l :: 0 <= l < |img.records| ==> (addrs[l] in immutables <==> img.records[l].classKey >= IMMUT_FLAG))
  }

  /** Passes 3 to 5. An image loads exactly when its ids are in range, every relocation
      names a tagged id of an existing object, and none is listed twice. */
  method Load(img: Snapshot, addrs: seq<Word>) returns (r: LoadResult)
    requires FreshAddresses(addrs) && WellShaped(img)
    ensures r.OutOfMemory? <==> |addrs| < |img.records|
    ensures r.Loaded? ==> |img.records| <= |addrs| && IdsOk(img) && LoadedAs(img, addrs, r.table, r.mem, r.immutables)
    ensures r.Loaded? ==> GoodRelocs(img, r.table, |img.relocs|)
    ensures r.Corrupt? ==> |img.records| <= |addrs|
    ensures r.Corrupt? ==> !IdsOk(img) || forall table :: TableOk(img, addrs, table, |img.records|) ==> !GoodRelocs(img, table, |img.relocs|)
  {
    hide FreshAddresses, WellShaped, GoodRelocs;
    if |addrs| < |img.records| { return OutOfMemory; }
    var ok, table, mem, immutables := AllocateAll(img, addrs);
    if !ok { return Corrupt; }
    mem := FillPayloads(img, addrs, table, mem);
    assert PatchedUpTo(img, addrs, table, mem, []);
    ok, mem := Relocate(img, addrs, table, mem);
    if !ok {
      forall t | TableOk(img, addrs, t, |img.records|) ensures !GoodRelocs(img, t, |img.relocs|) { TableUnique(img, addrs, table, t); }
      return Corrupt;
    }
    r := Loaded(mem, table, immutables);
  }

  lemma TableUnique(img: Snapshot, addrs: seq<Word>, t: seq<Option<Word>>, u: seq<Option<Word>>)
    requires |img.records| <= |addrs| && TableOk(img, addrs, t, |img.records|) && TableOk(img, addrs, u, |img.records|)
    ensures t == u
  {
    forall id | 0 <= id < |t| ensures t[id] == u[id] {
      if t[id].Some? { var i :| 0 <= i < |img.records| && img.records[i].objectId == id; }
      if u[id].Some? { var i :| 0 <= i < |img.records| && img.records[i].objectId == id; }
    }
  }

  // ---- the round trip ----

  lemma {:induction false} NumberedSize(objects: seq<Word>, ids: map<Word, nat>, s: set<Word>)
    requires Numbered(objects, ids) && ids.Keys <= s
    ensures |objects| <= |s|
    decreases |objects|
  {
    if objects != [] {
      var n := |objects| - 1;
      var a := objects[n];
      var objects', ids' := objects[..n], map x | x in ids && x != a :: ids[x];
      assert Numbered(objects', ids') by {
        forall i | 0 <= i < n ensures objects'[i] in ids' && ids'[objects'[i]] == i { assert objects[i] in ids; }
      }
      assert a in ids;
      NumberedSize(objects', ids', s - {a});
    }
  }

  lemma RecordFacts(w: World, objects: seq<Word>, ids: map<Word, nat>, img: Snapshot, i: nat)
    requires w.Valid() && Saved(w, objects, ids, img) && i < |objects|
    ensures objects[i] in w.heap && RecordOf(w, ids, i, objects[i], img.records[i]) && w.ValidObject(objects[i])
    ensures img.records[i].objectId == i && |img.records[i].payload| == |w.heap[objects[i]].slots|
  {
    hide RelocsUpTo, Reachable, ScannableSlots, Walk;
    ObjectValid(w, objects[i]);
  }

  lemma SavedShape(w: World, objects: seq<Word>, ids: map<Word, nat>, img: Snapshot)
    requires w.Valid() && Saved(w, objects, ids, img)
    ensures WellShaped(img) && IdsOk(img) && |objects| <= ID_LIMIT
    ensures forall i :: 0 <= i < |img.records| ==> img.records[i].objectId == i
  {
    hide RecordOf, Reachable, ScannableSlots;
    NumberedSize(objects, ids, w.heap.Keys);
    forall i | 0 <= i < |img.records| ensures img.records[i].objectId == i && |img.records[i].payload| == |w.heap[objects[i]].slots| {
      RecordFacts(w, objects, ids, img, i);
    }
  }

  lemma SavedSlot(w: World, objects: seq<Word>, ids: map<Word, nat>, img: Snapshot, i: nat, s: nat)
    requires w.Valid() && Saved(w, objects, ids, img) && i < |objects| && objects[i] in w.heap
    requires s < |w.heap[objects[i]].slots| && s < |img.records[i].payload|
    ensures var x := w.heap[objects[i]].slots[s];
            if s < w.Scan(objects[i]) && IsPointer(x) then
              && Reloc(i, s) in img.relocs && x in ids && ids[x] < |objects| <= ID_LIMIT
              && img.records[i].payload[s] == SnapEncode(ids[x])
            else Reloc(i, s) !in img.relocs && img.records[i].payload[s] == x
  {
    hide Reachable, ScannableSlots, SnapEncode;
    SavedShape(w, objects, ids, img);
    RecordFacts(w, objects, ids, img, i);
    var r := Reloc(i, s);
    assert NeedsReloc(w, objects, r) ==> r in img.relocs;
    if r in img.relocs { var k :| 0 <= k < |img.relocs| && img.relocs[k] == r; assert NeedsReloc(w, objects, img.relocs[k]); }
  }

  /** A saved image is accepted by the loader. */
  lemma SavedRelocsGood(w: World, objects: seq<Word>, ids: map<Word, nat>, img: Snapshot, addrs: seq<Word>, table: seq<Option<Word>>)
    requires w.Valid() && Saved(w, objects, ids, img) && |img.records| <= |addrs| && TableOk(img, addrs, table, |img.records|)
    ensures GoodRelocs(img, table, |img.relocs|)
  {
    hide Reachable, ScannableSlots, SnapEncode, SnapId, SnapIsHeap, Walk, RecordOf;
    SavedShape(w, objects, ids, img);
    forall k | 0 <= k < |img.relocs| ensures GoodReloc(img, table, img.relocs[k]) {
      var r := img.relocs[k];
      assert NeedsReloc(w, objects, r);
      RecordFacts(w, objects, ids, img, r.objectId);
      SavedSlot(w, objects, ids, img, r.objectId, r.slot);
      var x := w.heap[objects[r.objectId]].slots[r.slot];
      SnapRoundTrip(ids[x]);
      assert img.records[ids[x]].objectId == ids[x];
      assert GoodAt(img, table, r, r.objectId);
    }
  }

  ghost function Renaming(ids: map<Word, nat>, addrs: seq<Word>): map<Word, Word>
    requires forall a :: a in ids ==> ids[a] < |addrs|
  {
    map a | a in ids :: addrs[ids[a]]
  }

  ghost predicate CopyOf(o: Obj, o': Obj, scan: nat, phi: map<Word, Word>)
  {
    && scan <= |o.slots|
    && o' == o.(slots := ForwardAll(phi, o.slots[..scan]) + o.slots[scan..])
  }

  ghost function LoadedGraph(w: World, mem: Heap): Graph
    requires forall o :: o in mem ==> ScannableSlots(mem[o], w.formats) <= |mem[o].slots|
  {
    map o | o in mem :: mem[o].slots[..ScannableSlots(mem[o], w.formats)]
  }

  /** The loaded memory is everything reachable from the root, renamed by phi: headers,
      immediates and raw words unchanged, sharing and cycles kept, and each object back in
      the space it came from. */
  ghost predicate Restored(w: World, mem: Heap, immutables: set<Word>, phi: map<Word, Word>)
    requires w.Valid()
  {
    && (forall a :: a in phi <==> w.Live(a))
    && phi.Keys <= w.heap.Keys
    && mem.Keys == phi.Values
    && (forall a :: a in phi ==> phi[a] in mem && CopyOf(w.heap[a], mem[phi[a]], w.Scan(a), phi))
    && (forall a :: a in phi ==> (phi[a] in immutables <==> w.InImmutable(a)))
    && (forall o :: o in mem ==> ScannableSlots(mem[o], w.formats) <= |mem[o].slots|)
    && Isomorphic(w.Graph0(), LoadedGraph(w, mem), phi)
  }

  /** Everything the round-trip lemmas work from. */
  ghost predicate Trip(w: World, objects: seq<Word>, ids: map<Word, nat>, img: Snapshot, addrs: seq<Word>, r: LoadResult)
  {
    && w.Valid() && Saved(w, objects, ids, img) && FreshAddresses(addrs) && |img.records| <= |addrs|
    && r.Loaded? && LoadedAs(img, addrs, r.table, r.mem, r.immutables)
    && (forall a :: a in ids ==> ids[a] < |objects|)
  }

  lemma TripSlot(w: World, objects: seq<Word>, ids: map<Word, nat>, img: Snapshot, addrs: seq<Word>, r: LoadResult, i: nat, s: nat)
    requires Trip(w, objects, ids, img, addrs, r) && i < |objects| && objects[i] in w.heap && s < |w.heap[objects[i]].slots|
    ensures addrs[i] in r.mem && |r.mem[addrs[i]].slots| == |w.heap[objects[i]].slots|
    ensures r.mem[addrs[i]].slots[s] ==
            if s < w.Scan(objects[i]) then Forward(Renaming(ids, addrs), w.heap[objects[i]].slots[s]) else w.heap[objects[i]].slots[s]
  {
    hide Reachable, ScannableSlots, SnapEncode, SnapId, SnapIsHeap, Walk, RecordOf, RelocsUpTo, PatchedUpTo, FreshAddresses;
    RecordFacts(w, objects, ids, img, i);
    SavedSlot(w, objects, ids, img, i, s);
    SlotNow(img, addrs, r.table, r.mem, img.relocs, i, s);
    var x := w.heap[objects[i]].slots[s];
    if s < w.Scan(objects[i]) && IsPointer(x) {
      SnapRoundTrip(ids[x]);
      RecordFacts(w, objects, ids, img, ids[x]);
      assert img.records[ids[x]].objectId == ids[x];
    } else if !IsPointer(x) {
      NotRegistered(w, objects, ids, x);
    }
  }

  lemma NotRegistered(w: World, objects: seq<Word>, ids: map<Word, nat>, x: Word)
    requires Walk(w, objects, ids) && !IsPointer(x)
    ensures x !in ids
  {
    hide Reachable, ScannableSlots;
    if x in w.heap { ObjectValid(w, x); }
  }

  lemma TripHeader(w: World, objects: seq<Word>, ids: map<Word, nat>, img: Snapshot, addrs: seq<Word>, r: LoadResult, i: nat)
    requires Trip(w, objects, ids, img, addrs, r) && i < |objects|
    ensures objects[i] in w.heap && addrs[i] in r.mem
    ensures r.mem[addrs[i]] == w.heap[objects[i]].(slots := r.mem[addrs[i]].slots)
    ensures |r.mem[addrs[i]].slots| == |w.heap[objects[i]].slots|
    ensures addrs[i] in r.immutables <==> w.InImmutable(objects[i])
  {
    hide Reachable, ScannableSlots, RelocsUpTo, FreshAddresses, TableOk, Walk, Patched, EncodeOop;
    RecordFacts(w, objects, ids, img, i);
  }

  lemma TripSlots(w: World, objects: seq<Word>, ids: map<Word, nat>, img: Snapshot, addrs: seq<Word>, r: LoadResult, i: nat)
    requires Trip(w, objects, ids, img, addrs, r) && i < |objects| && objects[i] in w.heap && addrs[i] in r.mem
    ensures w.Scan(objects[i]) <= |w.heap[objects[i]].slots|
    ensures var o, n := w.heap[objects[i]], w.Scan(objects[i]);
            r.mem[addrs[i]].slots == ForwardAll(Renaming(ids, addrs), o.slots[..n]) + o.slots[n..]
  {
    hide Reachable, ScannableSlots, Saved, LoadedAs, FreshAddresses;
    TripKeys(w, objects, ids, img);
    TripHeader(w, objects, ids, img, addrs, r, i);
    ObjectValid(w, objects[i]);
    var o, n, phi := w.heap[objects[i]], w.Scan(objects[i]), Renaming(ids, addrs);
    forall s | 0 <= s < |o.slots| ensures r.mem[addrs[i]].slots[s] == (ForwardAll(phi, o.slots[..n]) + o.slots[n..])[s] {
      TripSlot(w, objects, ids, img, addrs, r, i, s);
    }
  }

  lemma NumberedOf(w: World, objects: seq<Word>, ids: map<Word, nat>, img: Snapshot)
    requires w.Valid() && Saved(w, objects, ids, img)
    ensures Numbered(objects, ids)
  {
    hide Reachable, RelocsUpTo, RecordOf, Numbered;
  }

  lemma TripObject(w: World, objects: seq<Word>, ids: map<Word, nat>, img: Snapshot, addrs: seq<Word>, r: LoadResult, a: Word)
    requires Trip(w, objects, ids, img, addrs, r) && a in ids
    ensures a in w.heap && addrs[ids[a]] in r.mem
    ensures CopyOf(w.heap[a], r.mem[addrs[ids[a]]], w.Scan(a), Renaming(ids, addrs))
    ensures addrs[ids[a]] in r.immutables <==> w.InImmutable(a)
  {
    hide Reachable, ScannableSlots, Saved, LoadedAs, FreshAddresses;
    NumberedOf(w, objects, ids, img);
    TripHeader(w, objects, ids, img, addrs, r, ids[a]);
    TripSlots(w, objects, ids, img, addrs, r, ids[a]);
  }

  lemma SameScan(w: World, o: Obj, o': Obj, phi: map<Word, Word>)
    requires CopyOf(o, o', ScannableSlots(o, w.formats), phi) && HeaderIsInteger(o, w.formats)
    requires forall x :: x in phi ==> !IsSmallInt(x)
    ensures ScannableSlots(o', w.formats) == ScannableSlots(o, w.formats) <= |o'.slots|
    ensures o'.slots[..ScannableSlots(o, w.formats)] == ForwardAll(phi, o.slots[..ScannableSlots(o, w.formats)])
  {
  }

  lemma TripScan(w: World, objects: seq<Word>, ids: map<Word, nat>, img: Snapshot, addrs: seq<Word>, r: LoadResult, a: Word)
    requires Trip(w, objects, ids, img, addrs, r) && a in ids
    ensures a in w.heap && addrs[ids[a]] in r.mem
    ensures w.Scan(a) == ScannableSlots(r.mem[addrs[ids[a]]], w.formats) <= |r.mem[addrs[ids[a]]].slots|
    ensures w.Scan(a) <= |w.heap[a].slots|
    ensures r.mem[addrs[ids[a]]].slots[..w.Scan(a)] == ForwardAll(Renaming(ids, addrs), w.heap[a].slots[..w.Scan(a)])
  {
    hide Reachable, ScannableSlots, RelocsUpTo, FreshAddresses, CopyOf, HeaderIsInteger, PatchedUpTo, RecordOf, TableOk;
    TripObject(w, objects, ids, img, addrs, r, a);
    ObjectValid(w, a);
    forall x | x in ids ensures !IsSmallInt(x) { ObjectValid(w, x); }
    SameScan(w, w.heap[a], r.mem[addrs[ids[a]]], Renaming(ids, addrs));
  }

  lemma AddressFacts(addrs: seq<Word>, n: nat, o: Word) returns (i: nat)
    requires FreshAddresses(addrs) && n <= |addrs| && o in AddressSet(addrs, n)
    ensures i < n && addrs[i] == o && IsPointer(o)
  {
    i :| 0 <= i < n && addrs[..n][i] == o;
  }

  lemma AddressIn(addrs: seq<Word>, n: nat, i: nat)
    requires i < n <= |addrs|
    ensures addrs[i] in AddressSet(addrs, n)
  {
    assert addrs[..n][i] == addrs[i];
  }

  lemma TripDomain(w: World, objects: seq<Word>, ids: map<Word, nat>, img: Snapshot, addrs: seq<Word>, r: LoadResult)
    requires Trip(w, objects, ids, img, addrs, r)
    ensures Injective(Renaming(ids, addrs)) && r.mem.Keys == Renaming(ids, addrs).Values
    ensures forall o :: o in r.mem ==> IsPointer(o)
  {
    hide Reachable, Saved, PatchedUpTo, TableOk, AddressSet, IsPointer;
    NumberedOf(w, objects, ids, img);
    TripKeys(w, objects, ids, img);
    var phi := Renaming(ids, addrs);
    forall a, b | a in phi && b in phi && phi[a] == phi[b] ensures a == b { assert objects[ids[a]] == a && objects[ids[b]] == b; }
    forall o | o in r.mem ensures o in phi.Values && IsPointer(o) {
      var i := AddressFacts(addrs, |img.records|, o);
      assert objects[i] in ids && phi[objects[i]] == o;
    }
    forall a | a in phi ensures phi[a] in r.mem { AddressIn(addrs, |img.records|, ids[a]); }
  }

  lemma TripEdge(w: World, objects: seq<Word>, ids: map<Word, nat>, img: Snapshot, addrs: seq<Word>, r: LoadResult, a: Word, x: Word)
    requires Trip(w, objects, ids, img, addrs, r) && a in ids && a in w.heap && w.Scan(a) <= |w.heap[a].slots|
    requires x in w.heap[a].slots[..w.Scan(a)]
    ensures x in ids || (x !in w.heap && x !in r.mem)
  {
    hide Reachable, ScannableSlots, RelocsUpTo, PatchedUpTo, RecordOf, TableOk, FreshAddresses;
    TripDomain(w, objects, ids, img, addrs, r);
    LiveChildren(w, ids, a);
    if IsPointer(x) {
      var i :| 0 <= i < w.Scan(a) && w.heap[a].slots[i] == x;
    } else if x in w.heap {
      ObjectValid(w, x);
    }
  }

  lemma TripIsomorphic(w: World, objects: seq<Word>, ids: map<Word, nat>, img: Snapshot, addrs: seq<Word>, r: LoadResult)
    requires Trip(w, objects, ids, img, addrs, r)
    ensures forall o :: o in r.mem ==> ScannableSlots(r.mem[o], w.formats) <= |r.mem[o].slots|
    ensures Isomorphic(w.Graph0(), LoadedGraph(w, r.mem), Renaming(ids, addrs))
  {
    hide Reachable, ScannableSlots, Saved, FreshAddresses, LoadedAs;
    TripDomain(w, objects, ids, img, addrs, r);
    TripKeys(w, objects, ids, img);
    var phi := Renaming(ids, addrs);
    forall o | o in r.mem ensures ScannableSlots(r.mem[o], w.formats) <= |r.mem[o].slots| {
      var a :| a in phi && phi[a] == o;
      TripScan(w, objects, ids, img, addrs, r, a);
    }
    var g, g' := w.Graph0(), LoadedGraph(w, r.mem);
    forall a | a in phi ensures phi[a] in r.mem && g'[phi[a]] == ForwardAll(phi, g[a]) { TripScan(w, objects, ids, img, addrs, r, a); }
    forall a, x | a in phi && x in g[a] ensures Settled(g, g', phi, x) {
      TripScan(w, objects, ids, img, addrs, r, a);
      TripEdge(w, objects, ids, img, addrs, r, a, x);
    }
  }

  lemma TripKeys(w: World, objects: seq<Word>, ids: map<Word, nat>, img: Snapshot)
    requires w.Valid() && Saved(w, objects, ids, img)
    ensures ids.Keys <= w.heap.Keys && w.root in ids && ids[w.root] == 0
    ensures forall a :: a in ids <==> w.Live(a)
    ensures forall a :: a in ids ==> ids[a] < |objects|
    ensures |img.records| == |objects|
  {
    hide Reachable, RelocsUpTo, RecordOf;
    assert objects[0] in ids;
  }

  /** The main theorem: what a saved image loads as. */
  lemma TripRestores(w: World, objects: seq<Word>, ids: map<Word, nat>, img: Snapshot, addrs: seq<Word>, r: LoadResult)
    requires Trip(w, objects, ids, img, addrs, r)
    ensures Restored(w, r.mem, r.immutables, Renaming(ids, addrs))
  {
    hide Reachable, ScannableSlots, Saved, FreshAddresses, LoadedAs, CopyOf, Isomorphic;
    TripKeys(w, objects, ids, img);
    TripDomain(w, objects, ids, img, addrs, r);
    TripIsomorphic(w, objects, ids, img, addrs, r);
    var phi := Renaming(ids, addrs);
    forall a | a in phi ensures phi[a] in r.mem && CopyOf(w.heap[a], r.mem[phi[a]], w.Scan(a), phi) && (phi[a] in r.immutables <==> w.InImmutable(a)) {
      TripObject(w, objects, ids, img, addrs, r, a);
    }
  }

  /** Save, then load with room for every object: the root is object 0 of an isomorphic graph. */
  method RoundTrip(w: World, addrs: seq<Word>) returns (r: LoadResult)
    requires w.Valid() && FreshAddresses(addrs) && |w.heap| <= |addrs|
    ensures r.Loaded?
    ensures exists phi :: Restored(w, r.mem, r.immutables, phi) && w.root in phi && |r.table| > 0 && r.table[0] == Some(phi[w.root])
  {
    hide Reachable, ScannableSlots, FreshAddresses, Restored, GoodRelocs, RelocsUpTo, RecordOf, WellShaped;
    var img, objects, ids := Save(w);
    SavedShape(w, objects, ids, img);
    TripKeys(w, objects, ids, img);
    NumberedSize(objects, ids, w.heap.Keys);
    assert |w.heap.Keys| == |w.heap|;
    r := Load(img, addrs);
    if r.Corrupt? {
      var table := TableExists(img, addrs);
      SavedRelocsGood(w, objects, ids, img, addrs, table);
      assert false;
    }
    TripRestores(w, objects, ids, img, addrs, r);
    assert w.root in Renaming(ids, addrs);
    assert img.records[0].objectId == 0;
  }

  lemma TableExists(img: Snapshot, addrs: seq<Word>) returns (table: seq<Option<Word>>)
    requires |img.records| <= |addrs| && forall i :: 0 <= i < |img.records| ==> img.records[i].objectId == i
    ensures TableOk(img, addrs, table, |img.records|)
  {
    table := seq(|img.records|, i requires 0 <= i < |img.records| => Some(addrs[i]));
  }
}
