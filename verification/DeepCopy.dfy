/** The cross-actor deep copy engine and its size estimate (src/actor/deep_copy.c). */
module DeepCopy {
  import opened ObjectGraph
  import Collector

  /** As in the collector, except that a CompiledMethod's literal count is taken from bits
      9:0 of the header value. */
  function ScannableSlots(o: Obj, formats: map<nat, Format>): nat
  {
    if o.classIndex !in formats then |o.slots|
    else
      var f := formats[o.classIndex];
      if f.kind == VARIABLE_BYTE then f.instVars
      else if f.kind == COMPILED_METHOD then
        if |o.slots| == 0 then 0
        else
          var scan := 1 + (o.slots[0] / 2) % 1024;
          if scan < |o.slots| then scan else |o.slots|
      else |o.slots|
  }

  /** The two counts of a CompiledMethod's references agree exactly if its header has the same
      number in both places, or more in both than there is room for. */
  lemma ScansAgreeIff(o: Obj, formats: map<nat, Format>)
    ensures ScannableSlots(o, formats) == Collector.ScannableSlots(o, formats)
            <==> (o.classIndex in formats && formats[o.classIndex].kind == COMPILED_METHOD && |o.slots| > 0 ==>
                    || NumLiterals(o.slots[0]) == (o.slots[0] / 2) % 1024
                    || (NumLiterals(o.slots[0]) + 1 >= |o.slots| && (o.slots[0] / 2) % 1024 + 1 >= |o.slots|))
  {
  }

  /** One copy: the memory the source graph lives in, and the target heap's free region. */
  datatype Job = Job(formats: map<nat, Format>, before: Heap, root: Word, base: nat, used0: nat, capacity: nat) {
    ghost predicate ValidObject(a: Word)
      requires a in before
    {
      && 0 < a && Aligned(a)
      && !(base + used0 <= a < base + capacity)
      && HeaderIsInteger(before[a], formats)
      && ScannableSlots(before[a], formats) <= |before[a].slots|
      && forall i :: 0 <= i < ScannableSlots(before[a], formats) ==> ValidRef(before[a].slots[i])
    }

    ghost predicate ValidRef(w: Word) { IsPointer(w) ==> w in before }

    ghost predicate Valid() {
      && 0 < base && Aligned(base + used0) && used0 <= capacity
      && ValidRef(root)
      && forall a :: a in before ==> ValidObject(a)
    }

    predicate Mutable(w: Word) { w in before && !Immutable(before[w]) }

    /** Mutable objects are followed; immutable ones are shared. */
    ghost function Graph0(): Graph
      requires Valid()
    {
      map a | a in before && Mutable(a) :: before[a].slots[..ScannableSlots(before[a], formats)]
    }

    ghost function Scan(a: Word): nat
      requires a in before
    {
      ScannableSlots(before[a], formats)
    }

    ghost predicate Live(a: Word)
      requires Valid()
    {
      Reachable(Graph0(), [root], a)
    }

    /** The mutable objects reachable from the root. */
    ghost function LiveSet(): set<Word>
      requires Valid()
    {
      set a | a in before && Mutable(a) && Live(a)
    }

    ghost function Room(): nat
      requires Valid()
    {
      capacity - used0
    }
  }

  lemma ObjectValid(j: Job, a: Word)
    requires j.Valid() && a in j.before
    ensures j.ValidObject(a)
  {
  }

  lemma Outside(j: Job)
    requires j.Valid()
    ensures forall a :: a in j.before ==> !(j.base + j.used0 <= a < j.base + j.capacity)
  {
    forall a | a in j.before ensures !(j.base + j.used0 <= a < j.base + j.capacity) { ObjectValid(j, a); }
  }

  lemma ChildLive(j: Job, a: Word, i: nat)
    requires j.Valid() && j.Mutable(a) && j.Live(a) && i < j.Scan(a) <= |j.before[a].slots|
    ensures j.Mutable(j.before[a].slots[i]) ==> j.Live(j.before[a].slots[i])
  {
    var w := j.before[a].slots[i];
    if j.Mutable(w) {
      var g := j.Graph0();
      assert g[a][i] == w;
      EdgeReachable(g, [j.root], a, w);
    }
  }

  lemma LiveIsMutable(j: Job, a: Word)
    requires j.Valid() && j.Live(a)
    ensures j.Mutable(a) && a in j.LiveSet()
  {
    var p :| IsPath(j.Graph0(), [j.root], p) && p[|p| - 1] == a;
  }

  // ---- the copy in progress ----

  datatype View = View(mem: Heap, used: nat, phi: map<Word, Word>)

  ghost predicate Placed(j: Job, v: View, a: Word)
    requires a in j.before && a in v.phi
  {
    && j.base + j.used0 <= v.phi[a]
    && Aligned(v.phi[a])
    && v.phi[a] + ObjBytes(j.before[a]) <= j.base + v.used
    && v.phi[a] in v.mem
  }

  /** w has become w', and if w is followed it has been copied. */
  ghost predicate Redirects(j: Job, phi: map<Word, Word>, w: Word, w': Word)
  {
    w' == Forward(phi, w) && (j.Mutable(w) ==> w in phi)
  }

  /** Class, size and padding kept; the first n slots copied. */
  ghost predicate CopyUpTo(j: Job, phi: map<Word, Word>, o: Obj, o': Obj, n: nat)
  {
    && o' == Obj(o.classIndex, 0, 0, o.reserved, o'.slots)
    && |o'.slots| == |o.slots|
    && n <= |o.slots|
    && forall i :: 0 <= i < n ==> Redirects(j, phi, o.slots[i], o'.slots[i])
  }

  /** o' is a finished copy of o. */
  ghost predicate CopyOf(j: Job, phi: map<Word, Word>, o: Obj, o': Obj, n: nat)
  {
    CopyUpTo(j, phi, o, o', n) && o'.slots[n..] == o.slots[n..]
  }

  ghost predicate Finished(j: Job, v: View, a: Word)
    requires a in j.before && a in v.phi
  {
    v.phi[a] in v.mem && CopyOf(j, v.phi, j.before[a], v.mem[v.phi[a]], j.Scan(a))
  }

  ghost predicate Domain(j: Job, v: View)
  {
    && (forall a :: a in v.phi ==> j.Mutable(a))
    && Injective(v.phi)
    && v.mem.Keys == j.before.Keys + v.phi.Values
    && (forall a :: a in j.before ==> v.mem[a] == j.before[a])
  }

  /** The target heap's use accounts for exactly the copied objects. */
  ghost predicate Accounted(j: Job, v: View)
  {
    && v.phi.Keys <= j.before.Keys
    && v.used == j.used0 + TotalBytes(j.before, v.phi.Keys) <= j.capacity
    && Aligned(j.base + v.used)
    && forall a :: a in v.phi ==> Placed(j, v, a)
  }

  /** Every copied object is finished, save those in `open` that are being filled. */
  ghost predicate AllFinished(j: Job, v: View, open: set<Word>)
    requires v.phi.Keys <= j.before.Keys
  {
    forall a :: a in v.phi && a !in open ==> Finished(j, v, a)
  }

  ghost predicate Inv(j: Job, v: View, open: set<Word>)
  {
    && j.Valid()
    && Domain(j, v)
    && Accounted(j, v)
    && AllFinished(j, v, open)
    && (forall a :: a in v.phi ==> j.Live(a))
  }

  /** What stays: nothing that existed is written, no copy is made twice. */
  ghost predicate Extends(v: View, v': View)
  {
    && (forall a :: a in v.mem ==> a in v'.mem && v'.mem[a] == v.mem[a])
    && (forall a :: a in v.phi ==> a in v'.phi && v'.phi[a] == v.phi[a])
  }

  /** Allocation and registration of a copy that is still to be filled. */
  ghost function Allocated(j: Job, v: View, a: Word): View
    requires a in j.before
  {
    var o := j.before[a];
    var at := j.base + v.used;
    View(v.mem[at := Obj(o.classIndex, 0, 0, o.reserved, Zeros(|o.slots|))], v.used + ObjBytes(o), v.phi[a := at])
  }

  lemma FreshAddress(j: Job, v: View, open: set<Word>, a: Word)
    requires Inv(j, v, open) && a in j.before && v.used + ObjBytes(j.before[a]) <= j.capacity
    ensures j.base + v.used !in v.mem
  {
    hide TotalBytes, Finished, Reachable;
    var at := j.base + v.used;
    Outside(j);
    forall b | b in v.phi ensures v.phi[b] != at { assert Placed(j, v, b); }
  }

  lemma CopyKept(j: Job, phi: map<Word, Word>, phi': map<Word, Word>, o: Obj, o': Obj, n: nat)
    requires CopyUpTo(j, phi, o, o', n)
    requires forall b :: b in phi ==> b in phi' && phi'[b] == phi[b]
    requires forall b :: b in phi' ==> j.Mutable(b)
    ensures CopyUpTo(j, phi', o, o', n)
  {
  }

  lemma FinishedKept(j: Job, v: View, v': View, a: Word)
    requires a in j.before && a in v.phi && Finished(j, v, a) && Extends(v, v')
    requires forall b :: b in v'.phi ==> j.Mutable(b)
    ensures Finished(j, v', a)
  {
    CopyKept(j, v.phi, v'.phi, j.before[a], v.mem[v.phi[a]], j.Scan(a));
  }

  lemma AllocatedDomain(j: Job, v: View, a: Word)
    requires Domain(j, v) && j.Mutable(a) && a !in v.phi && j.base + v.used !in v.mem
    ensures Domain(j, Allocated(j, v, a)) && Extends(v, Allocated(j, v, a))
    ensures Allocated(j, v, a).phi.Keys == v.phi.Keys + {a}
  {
    var v' := Allocated(j, v, a);
    assert forall b :: b in v.phi ==> v'.phi[b] == v.phi[b] && v.phi[b] in v.phi.Values;
    assert v'.phi.Values == v.phi.Values + {j.base + v.used} by { assert v'.phi[a] == j.base + v.used; }
  }

  lemma AllocatedPlaced(j: Job, v: View, a: Word, b: Word)
    requires a in j.before && b in j.before && a !in v.phi && j.used0 <= v.used && Aligned(j.base + v.used)
    requires b in v.phi ==> Placed(j, v, b)
    requires b == a || b in v.phi
    requires Extends(v, Allocated(j, v, a))
    ensures Placed(j, Allocated(j, v, a), b)
  {
  }

  lemma AllocatedAccounted(j: Job, v: View, a: Word)
    requires Accounted(j, v) && a in j.before && a !in v.phi
    requires v.used + ObjBytes(j.before[a]) <= j.capacity
    requires Extends(v, Allocated(j, v, a)) && Allocated(j, v, a).phi.Keys == v.phi.Keys + {a}
    ensures Accounted(j, Allocated(j, v, a))
  {
    hide TotalBytes, AllocBytes, Placed;
    TotalBytesAdd(j.before, v.phi.Keys, a);
    var v' := Allocated(j, v, a);
    assert Aligned(ObjBytes(j.before[a]));
    forall b | b in v'.phi ensures Placed(j, v', b) { AllocatedPlaced(j, v, a, b); }
  }

  lemma AllocatedInv(j: Job, v: View, open: set<Word>, a: Word)
    requires Inv(j, v, open) && j.Mutable(a) && a !in v.phi && j.Live(a)
    requires v.used + ObjBytes(j.before[a]) <= j.capacity
    ensures Inv(j, Allocated(j, v, a), open + {a}) && Extends(v, Allocated(j, v, a))
  {
    hide Finished, Reachable, ObjBytes, Accounted, Allocated;
    FreshAddress(j, v, open, a);
    AllocatedDomain(j, v, a);
    AllocatedAccounted(j, v, a);
    var v' := Allocated(j, v, a);
    forall b | b in v'.phi && b !in open + {a} ensures Finished(j, v', b) { FinishedKept(j, v, v', b); }
  }

  /** Storing slot i of a copy that is still open. */
  ghost function SlotSet(v: View, at: Word, slots: seq<Word>): View
    requires at in v.mem
  {
    v.(mem := v.mem[at := v.mem[at].(slots := slots)])
  }

  lemma CopyIsNew(j: Job, v: View, open: set<Word>, a: Word)
    requires Inv(j, v, open) && a in v.phi
    ensures v.phi[a] in v.mem && v.phi[a] !in j.before
    ensures IsPointer(v.phi[a])
  {
    hide TotalBytes, AllFinished, Reachable, Domain, ScannableSlots, AllocBytes;
    assert Placed(j, v, a);
    Outside(j);
  }

  lemma SlotSetInv(j: Job, v: View, open: set<Word>, a: Word, slots: seq<Word>)
    requires Inv(j, v, open) && a in v.phi && a in open && v.phi[a] in v.mem
    ensures Inv(j, SlotSet(v, v.phi[a], slots), open)
  {
    hide TotalBytes, Finished, Reachable, CopyUpTo;
    CopyIsNew(j, v, open, a);
    var v' := SlotSet(v, v.phi[a], slots);
    assert v'.mem.Keys == v.mem.Keys;
    forall b | b in v'.phi ensures Placed(j, v', b) { assert Placed(j, v, b); }
    forall b | b in v'.phi && b !in open ensures Finished(j, v', b) { OtherFinished(j, v, a, slots, b); }
  }

  lemma OtherFinished(j: Job, v: View, a: Word, slots: seq<Word>, b: Word)
    requires Injective(v.phi) && a in v.phi && b in v.phi && a != b && v.phi[a] in v.mem && b in j.before
    requires Finished(j, v, b)
    ensures Finished(j, SlotSet(v, v.phi[a], slots), b)
  {
  }

  lemma Close(j: Job, v: View, open: set<Word>, a: Word)
    requires Inv(j, v, open + {a}) && a in v.phi && Finished(j, v, a)
    ensures Inv(j, v, open)
  {
    hide Accounted, Reachable, CopyOf;
  }

  /** The whole live graph needs more room than the target heap has. */
  ghost predicate TooBig(j: Job)
    requires j.Valid()
  {
    TotalBytes(j.before, j.LiveSet()) > j.Room()
  }

  lemma NoRoom(j: Job, v: View, open: set<Word>, a: Word)
    requires Inv(j, v, open) && j.Mutable(a) && a !in v.phi && j.Live(a)
    requires v.used + ObjBytes(j.before[a]) > j.capacity
    ensures TooBig(j)
  {
    hide Finished, Reachable, Placed;
    TotalBytesAdd(j.before, v.phi.Keys, a);
    TotalBytesMonotone(j.before, v.phi.Keys + {a}, j.LiveSet());
  }

  ghost predicate ExtendsBut(v: View, v': View, r: Word)
  {
    && (forall a :: a in v.mem ==> a in v'.mem && (a != r ==> v'.mem[a] == v.mem[a]))
    && (forall a :: a in v.phi ==> a in v'.phi && v'.phi[a] == v.phi[a])
  }

  lemma OpenedCopy(j: Job, v: View, a: Word)
    requires a in j.before
    ensures CopyUpTo(j, Allocated(j, v, a).phi, j.before[a], Allocated(j, v, a).mem[j.base + v.used], 0)
  {
  }

  lemma Opened(j: Job, v: View, open: set<Word>, a: Word)
    requires Inv(j, v, open) && a in v.phi
    ensures j.Valid() && a in v.mem && a in j.before && v.mem[a] == j.before[a] && j.Mutable(a) && j.Live(a)
    ensures v.phi[a] in v.mem && v.phi[a] != a
    ensures j.Scan(a) <= |j.before[a].slots|
  {
    hide Accounted, AllFinished, Reachable;
    CopyIsNew(j, v, open, a);
    ObjectValid(j, a);
  }

  lemma SourceSlot(j: Job, a: Word, i: nat)
    requires j.Valid() && j.Mutable(a) && j.Live(a) && i < j.Scan(a) <= |j.before[a].slots|
    ensures j.ValidRef(j.before[a].slots[i])
    ensures j.Mutable(j.before[a].slots[i]) ==> j.Live(j.before[a].slots[i])
  {
    hide Reachable;
    ObjectValid(j, a);
    ChildLive(j, a, i);
  }

  lemma StillOpen(j: Job, v: View, v': View, open: set<Word>, a: Word, n: nat)
    requires Inv(j, v', open) && Extends(v, v') && a in j.before && a in v.phi && v.phi[a] in v.mem
    requires CopyUpTo(j, v.phi, j.before[a], v.mem[v.phi[a]], n)
    ensures CopyUpTo(j, v'.phi, j.before[a], v'.mem[v.phi[a]], n)
    ensures |v'.mem[v.phi[a]].slots| == |j.before[a].slots|
  {
    hide Accounted, AllFinished, Reachable;
    CopyKept(j, v.phi, v'.phi, j.before[a], v.mem[v.phi[a]], n);
  }

  lemma NextSlot(j: Job, v: View, a: Word, i: nat, w: Word)
    requires a in j.before && a in v.phi && v.phi[a] in v.mem && i < |j.before[a].slots|
    requires CopyUpTo(j, v.phi, j.before[a], v.mem[v.phi[a]], i) && Redirects(j, v.phi, j.before[a].slots[i], w)
    ensures var c := v.mem[v.phi[a]]; CopyUpTo(j, v.phi, j.before[a], c.(slots := c.slots[i := w]), i + 1)
  {
  }

  lemma FilledCopy(j: Job, v: View, a: Word, n: nat)
    requires a in j.before && a in v.phi && v.phi[a] in v.mem && n == j.Scan(a) <= |j.before[a].slots|
    requires CopyUpTo(j, v.phi, j.before[a], v.mem[v.phi[a]], n)
    ensures Finished(j, SlotSet(v, v.phi[a], v.mem[v.phi[a]].slots[..n] + j.before[a].slots[n..]), a)
  {
  }

  class Copier {
    const formats: map<nat, Format>
    const base: nat
    const capacity: nat
    ghost const job: Job

    var mem: Heap
    var used: nat
    var visited: map<Word, Word>
    var failed: bool

    ghost function Current(): View
      reads this
    {
      View(mem, used, visited)
    }

    ghost predicate Valid(open: set<Word>)
      reads this
    {
      && formats == job.formats && base == job.base && capacity == job.capacity
      && !failed
      && Inv(job, Current(), open)
    }

    constructor (j: Job)
      requires j.Valid()
      ensures job == j && Valid({}) && mem == j.before && used == j.used0 && visited == map[]
    {
      job, formats, base, capacity := j, j.formats, j.base, j.capacity;
      mem, used, visited, failed := j.before, j.used0, map[], false;
    }

    ghost function Unvisited(): set<Word>
      reads this
    {
      (set a | a in job.before && job.Mutable(a)) - visited.Keys
    }

    method CopyOop(src: Word, ghost open: set<Word>) returns (r: Word)
      requires Valid(open) && job.ValidRef(src) && (job.Mutable(src) ==> job.Live(src))
      modifies this
      ensures job.Valid() && Extends(old(Current()), Current())
      ensures !failed ==> Valid(open) && Redirects(job, visited, src, r)
      ensures failed ==> TooBig(job)
      decreases Unvisited(), 1
    {
      hide Inv, Reachable, TooBig;
      Classify(job, Current(), open, src);
      if IsSmallInt(src) || IsChar(src) { return src; }
      if src == 0 { return 0; }
      if Immutable(mem[src]) { return src; }
      if src in visited { return visited[src]; }
      r := CopyObject(src, open);
    }

    /** Bump-allocate the copy of src and register it before its slots are followed. */
    method Allocate(src: Word, ghost open: set<Word>) returns (r: Word)
      requires Valid(open) && job.Mutable(src) && src !in visited && job.Valid() && job.Live(src)
      modifies this
      ensures job.Valid() && Extends(old(Current()), Current())
      ensures !failed ==>
                && Valid(open + {src}) && src in visited && r == visited[src] && r in mem && r !in old(mem)
                && CopyUpTo(job, visited, job.before[src], mem[r], 0)
                && visited.Keys == old(visited.Keys) + {src}
      ensures failed ==> TooBig(job)
    {
      hide Inv, Reachable, TooBig, CopyUpTo;
      ghost var v := Current();
      Classify(job, v, open, src);
      var o := mem[src];
      if used + ObjBytes(o) > capacity {
        NoRoom(job, v, open, src);
        failed := true;
        return 0;
      }
      AllocatedInv(job, v, open, src);
      FreshAddress(job, v, open, src);
      OpenedCopy(job, v, src);
      r := base + used;
      used := used + ObjBytes(o);
      mem := mem[r := Obj(o.classIndex, 0, 0, 0, seq(|o.slots|, i => 0))];
      visited := visited[src := r];
      mem := mem[r := mem[r].(reserved := o.reserved)];
      assert Current() == Allocated(job, v, src);
    }

    method CopyObject(src: Word, ghost open: set<Word>) returns (r: Word)
      requires Valid(open) && job.Mutable(src) && src !in visited && job.Valid() && job.Live(src)
      modifies this
      ensures job.Valid() && Extends(old(Current()), Current())
      ensures !failed ==> Valid(open) && src in visited && r == visited[src]
      ensures failed ==> TooBig(job)
      decreases Unvisited(), 0
    {
      hide Inv, Reachable, TooBig, CopyUpTo, Finished;
      r := Allocate(src, open);
      if failed { return 0; }
      Opened(job, Current(), open + {src}, src);
      var n := ScannableSlots(mem[src], formats);
      FillSlots(src, r, n, open);
      if failed { return 0; }
      CopyRaw(src, r, n, open);
    }

    /** memcpy of the words after the references; the copy is finished. */
    method CopyRaw(src: Word, r: Word, n: nat, ghost open: set<Word>)
      requires Valid(open + {src}) && src in visited && r == visited[src] && r in mem && src in job.before
      requires n == job.Scan(src) && CopyUpTo(job, visited, job.before[src], mem[r], n)
      modifies this
      ensures Valid(open) && visited == old(visited) && ExtendsBut(old(Current()), Current(), r)
    {
      hide Inv, Reachable, Finished;
      ghost var v := Current();
      Opened(job, v, open + {src}, src);
      var slots := mem[r].slots[..n] + mem[src].slots[n..];
      SlotSetInv(job, v, open + {src}, src, slots);
      FilledCopy(job, v, src, n);
      mem := mem[r := mem[r].(slots := slots)];
      assert Current() == SlotSet(v, r, slots);
      Close(job, Current(), open, src);
    }

    /** Copy the references of src into its open copy at r. */
    method FillSlots(src: Word, r: Word, n: nat, ghost open: set<Word>)
      requires Valid(open + {src}) && job.Mutable(src) && src in visited && r == visited[src] && r in mem
      requires n == job.Scan(src) && CopyUpTo(job, visited, job.before[src], mem[r], 0)
      modifies this
      ensures job.Valid() && ExtendsBut(old(Current()), Current(), r)
      ensures !failed ==> Valid(open + {src}) && r in mem && CopyUpTo(job, visited, job.before[src], mem[r], n)
      ensures failed ==> TooBig(job)
      decreases Unvisited(), 2
    {
      hide Inv, Reachable, TooBig, CopyUpTo;
      Opened(job, Current(), open + {src}, src);
      var i := 0;
      while i < n
        invariant 0 <= i <= n
        invariant Valid(open + {src}) && ExtendsBut(old(Current()), Current(), r)
        invariant r in mem && CopyUpTo(job, visited, job.before[src], mem[r], i)
        invariant Unvisited() <= old(Unvisited())
      {
        ghost var v := Current();
        Opened(job, v, open + {src}, src);
        SourceSlot(job, src, i);
        var w := CopyOop(mem[src].slots[i], open + {src});
        if failed { return; }
        ghost var v' := Current();
        StillOpen(job, v, v', open + {src}, src, i);
        Opened(job, v', open + {src}, src);
        var slots := mem[r].slots[i := w];
        SlotSetInv(job, v', open + {src}, src, slots);
        NextSlot(job, v', src, i, w);
        mem := mem[r := mem[r].(slots := slots)];
        assert Current() == SlotSet(v', r, slots);
        i := i + 1;
      }
    }
  }

  lemma Classify(j: Job, v: View, open: set<Word>, w: Word)
    requires Inv(j, v, open) && j.ValidRef(w)
    ensures j.Valid() && v.mem.Keys >= j.before.Keys
    ensures w in j.before ==> IsPointer(w) && v.mem[w] == j.before[w]
    ensures w in v.phi ==> j.Mutable(w)
  {
    hide Accounted, AllFinished, Reachable;
    if w in j.before { ObjectValid(j, w); }
  }

  // ---- what a finished copy means ----

  ghost function CopyGraph(j: Job, after: Heap, phi: map<Word, Word>): Graph
    requires forall x :: x in phi.Values ==> x in after && ScannableSlots(after[x], j.formats) <= |after[x].slots|
  {
    map x | x in phi.Values :: after[x].slots[..ScannableSlots(after[x], j.formats)]
  }

  /** Every live mutable object has one fresh finished copy; nothing that existed changed. */
  ghost predicate Copies(j: Job, after: Heap, phi: map<Word, Word>)
    requires j.Valid()
  {
    && phi.Keys == j.LiveSet()
    && (forall a :: a in phi ==> phi[a] !in j.before && phi[a] in after && CopyOf(j, phi, j.before[a], after[phi[a]], j.Scan(a)))
    && (forall x :: x in phi.Values ==> x in after && ScannableSlots(after[x], j.formats) <= |after[x].slots|)
    && (forall a :: a in j.before ==> a in after && after[a] == j.before[a])
  }

  /** The result of a copy that had room: an isomorphic graph rooted at r. */
  ghost predicate Copied(j: Job, after: Heap, used: nat, r: Word, phi: map<Word, Word>)
    requires j.Valid()
  {
    && Copies(j, after, phi)
    && Isomorphic(j.Graph0(), CopyGraph(j, after, phi), phi)
    && Settled(j.Graph0(), CopyGraph(j, after, phi), phi, j.root)
    && r == Forward(phi, j.root)
    && used == j.used0 + TotalBytes(j.before, j.LiveSet())
  }

  lemma SameScan(j: Job, o: Obj, o': Obj, phi: map<Word, Word>, n: nat)
    requires CopyOf(j, phi, o, o', n) && n == ScannableSlots(o, j.formats) && HeaderIsInteger(o, j.formats)
    requires forall w :: w in phi ==> !IsSmallInt(w)
    ensures ScannableSlots(o', j.formats) == n <= |o'.slots|
    ensures o'.slots[..n] == ForwardAll(phi, o.slots[..n])
  {
    assert |o.slots| > n ==> o'.slots[n] == o'.slots[n..][0];
    assert |o.slots| > 0 && n == 0 ==> o'.slots[0] == o'.slots[n..][0];
  }

  lemma DoneScan(j: Job, v: View, a: Word)
    requires Inv(j, v, {}) && a in v.phi
    ensures a in j.before && v.phi[a] in v.mem && v.phi[a] !in j.before && IsPointer(v.phi[a])
    ensures CopyOf(j, v.phi, j.before[a], v.mem[v.phi[a]], j.Scan(a))
    ensures ScannableSlots(v.mem[v.phi[a]], j.formats) == j.Scan(a) <= |v.mem[v.phi[a]].slots|
    ensures v.mem[v.phi[a]].slots[..j.Scan(a)] == ForwardAll(v.phi, j.before[a].slots[..j.Scan(a)])
  {
    hide Accounted, Reachable, CopyOf, ScannableSlots, HeaderIsInteger;
    CopyIsNew(j, v, {}, a);
    assert Finished(j, v, a);
    ObjectValid(j, a);
    forall w | w in v.phi ensures !IsSmallInt(w) { ObjectValid(j, w); }
    SameScan(j, j.before[a], v.mem[v.phi[a]], v.phi, j.Scan(a));
  }

  lemma DoneChildren(j: Job, v: View, a: Word, w: Word)
    requires Inv(j, v, {}) && a in v.phi && a in j.before && j.Scan(a) <= |j.before[a].slots|
    requires w in j.before[a].slots[..j.Scan(a)]
    ensures j.ValidRef(w) && (j.Mutable(w) ==> w in v.phi)
  {
    hide Accounted, Reachable, ScannableSlots;
    assert Finished(j, v, a);
    ObjectValid(j, a);
    var i :| 0 <= i < j.Scan(a) && j.before[a].slots[i] == w;
    assert Redirects(j, v.phi, j.before[a].slots[i], v.mem[v.phi[a]].slots[i]);
  }

  lemma DoneLive(j: Job, v: View)
    requires Inv(j, v, {}) && (j.Mutable(j.root) ==> j.root in v.phi)
    ensures v.phi.Keys == j.LiveSet()
  {
    hide Accounted, AllFinished, ScannableSlots, Reachable;
    var g := j.Graph0();
    forall a, w | a in v.phi && a in g && w in g[a] && w in g ensures w in v.phi {
      ObjectValid(j, a);
      DoneChildren(j, v, a, w);
    }
    assert Closed(g, [j.root], v.phi.Keys);
    ReachableInClosed(g, [j.root], v.phi.Keys);
  }

  lemma DoneSettled(j: Job, v: View, w: Word)
    requires Inv(j, v, {}) && j.ValidRef(w) && (j.Mutable(w) ==> w in v.phi)
    ensures w in v.phi || (!j.Mutable(w) && w !in v.phi.Values)
  {
    hide Inv;
    forall a | a in v.phi ensures v.phi[a] != w || w in v.phi { DoneScan(j, v, a); }
  }

  lemma InvFacts(j: Job, v: View)
    requires Inv(j, v, {})
    ensures j.Valid() && Injective(v.phi) && Domain(j, v)
    ensures v.used == j.used0 + TotalBytes(j.before, v.phi.Keys) <= j.capacity
  {
    hide AllFinished, Reachable;
  }

  lemma DoneCopies(j: Job, v: View)
    requires Inv(j, v, {}) && (j.Mutable(j.root) ==> j.root in v.phi)
    ensures j.Valid() && Copies(j, v.mem, v.phi)
  {
    hide Inv, ScannableSlots, CopyOf, Reachable;
    InvFacts(j, v);
    DoneLive(j, v);
    forall a | a in v.phi
      ensures v.phi[a] !in j.before && v.phi[a] in v.mem && CopyOf(j, v.phi, j.before[a], v.mem[v.phi[a]], j.Scan(a))
      ensures ScannableSlots(v.mem[v.phi[a]], j.formats) <= |v.mem[v.phi[a]].slots|
    {
      DoneScan(j, v, a);
    }
  }

  lemma DoneNode(j: Job, v: View, a: Word)
    requires Inv(j, v, {}) && j.Valid() && Copies(j, v.mem, v.phi) && a in v.phi
    ensures v.phi[a] in CopyGraph(j, v.mem, v.phi) && a in j.Graph0()
    ensures CopyGraph(j, v.mem, v.phi)[v.phi[a]] == ForwardAll(v.phi, j.Graph0()[a])
  {
    hide Inv, ScannableSlots, CopyOf, Reachable;
    DoneScan(j, v, a);
    assert v.phi[a] in v.phi.Values;
  }

  lemma DoneEdge(j: Job, v: View, a: Word, w: Word)
    requires Inv(j, v, {}) && j.Valid() && Copies(j, v.mem, v.phi) && a in v.phi && a in j.Graph0() && w in j.Graph0()[a]
    ensures Settled(j.Graph0(), CopyGraph(j, v.mem, v.phi), v.phi, w)
  {
    hide Inv, ScannableSlots, CopyOf, Reachable;
    ObjectValid(j, a);
    DoneChildren(j, v, a, w);
    DoneSettled(j, v, w);
  }

  lemma DoneIsomorphic(j: Job, v: View)
    requires Inv(j, v, {}) && j.Valid() && Copies(j, v.mem, v.phi)
    ensures Isomorphic(j.Graph0(), CopyGraph(j, v.mem, v.phi), v.phi)
  {
    hide Inv, ScannableSlots, CopyOf, Reachable, Settled;
    InvFacts(j, v);
    var g, g' := j.Graph0(), CopyGraph(j, v.mem, v.phi);
    forall a | a in v.phi ensures a in g && g'[v.phi[a]] == ForwardAll(v.phi, g[a]) { DoneNode(j, v, a); }
    forall a, w | a in v.phi && w in g[a] ensures Settled(g, g', v.phi, w) { DoneEdge(j, v, a, w); }
  }

  /** The main theorem of the copy engine. */
  lemma Done(j: Job, v: View)
    requires Inv(j, v, {}) && (j.Mutable(j.root) ==> j.root in v.phi)
    ensures j.Valid() && Copied(j, v.mem, v.used, Forward(v.phi, j.root), v.phi)
  {
    hide Inv, ScannableSlots, CopyOf, Reachable, TotalBytes, Isomorphic;
    InvFacts(j, v);
    DoneCopies(j, v);
    DoneIsomorphic(j, v);
    DoneSettled(j, v, j.root);
  }

  /** Copy the graph of j.root into the target heap; 0 on lack of room. */
  method DeepCopy(j: Job) returns (result: Word, mem: Heap, used: nat)
    requires j.Valid()
    ensures forall a :: a in j.before ==> a in mem && mem[a] == j.before[a]
    ensures !j.Mutable(j.root) ==> result == j.root && mem == j.before && used == j.used0
    ensures j.Mutable(j.root) ==> (result == 0 <==> TooBig(j))
    ensures !TooBig(j) ==> exists phi :: Copied(j, mem, used, result, phi)
  {
    hide Inv, TooBig, Copied, ScannableSlots;
    mem, used := j.before, j.used0;
    if IsSmallInt(j.root) || IsChar(j.root) || j.root == 0 || Immutable(j.before[j.root]) {
      NothingToCopy(j);
      return j.root, mem, used;
    }
    ObjectValid(j, j.root);
    RootReachable(j.Graph0(), [j.root], j.root);
    var ctx := new Copier(j);
    result := ctx.CopyObject(j.root, {});
    mem, used := ctx.mem, ctx.used;
    if ctx.failed { return 0, mem, used; }
    Done(j, ctx.Current());
    assert Copied(j, mem, used, result, ctx.visited);
    DoneScan(j, ctx.Current(), j.root);
    Fits(j, ctx.Current());
  }

  lemma Fits(j: Job, v: View)
    requires Inv(j, v, {}) && (j.Mutable(j.root) ==> j.root in v.phi)
    ensures !TooBig(j)
  {
    hide Inv, TotalBytes, Reachable;
    InvFacts(j, v);
    DoneLive(j, v);
  }

  lemma NothingToCopy(j: Job)
    requires j.Valid() && !j.Mutable(j.root)
    ensures !TooBig(j) && Copied(j, j.before, j.used0, j.root, map[])
  {
    var v := View(j.before, j.used0, map[]);
    Done(j, v);
    Fits(j, v);
  }

  // ---- the pre-flight estimate ----

  ghost predicate ChildrenIn(j: Job, seen: set<Word>, a: Word)
    requires a in j.before && j.Scan(a) <= |j.before[a].slots|
  {
    forall i :: 0 <= i < j.Scan(a) && j.Mutable(j.before[a].slots[i]) ==> j.before[a].slots[i] in seen
  }

  /** Live objects only, and every one of them expanded save those in `open`. */
  ghost predicate Walk(j: Job, seen: set<Word>, open: set<Word>)
  {
    && j.Valid()
    && seen <= j.LiveSet()
    && forall a :: a in seen && a !in open ==> ChildrenIn(j, seen, a)
  }

  lemma WalkOpen(j: Job, seen: set<Word>, open: set<Word>, a: Word)
    requires Walk(j, seen, open) && a in j.LiveSet() && a !in seen
    ensures Walk(j, seen + {a}, open + {a})
    ensures TotalBytes(j.before, seen + {a}) == TotalBytes(j.before, seen) + ObjBytes(j.before[a])
  {
    TotalBytesAdd(j.before, seen, a);
    forall b | b in seen + {a} && b !in open + {a} ensures ChildrenIn(j, seen + {a}, b) { assert ChildrenIn(j, seen, b); }
  }

  lemma WalkClose(j: Job, seen: set<Word>, open: set<Word>, a: Word)
    requires Walk(j, seen, open + {a}) && a in seen && ChildrenIn(j, seen, a)
    ensures Walk(j, seen, open)
  {
  }

  lemma WalkDone(j: Job, seen: set<Word>)
    requires Walk(j, seen, {}) && (j.Mutable(j.root) ==> j.root in seen)
    ensures seen == j.LiveSet()
  {
    hide Reachable, ScannableSlots;
    var g := j.Graph0();
    forall a, w | a in seen && a in g && w in g[a] && w in g ensures w in seen {
      ObjectValid(j, a);
      assert ChildrenIn(j, seen, a);
    }
    assert Closed(g, [j.root], seen);
    ReachableInClosed(g, [j.root], seen);
  }

  class Estimator {
    ghost const job: Job
    const formats: map<nat, Format>
    const mem: Heap
    var visited: set<Word>

    constructor (j: Job)
      requires j.Valid()
      ensures job == j && formats == j.formats && mem == j.before && visited == {} && Walk(j, visited, {})
    {
      job, formats, mem, visited := j, j.formats, j.before, {};
    }

    ghost predicate Valid(open: set<Word>)
      reads this
    {
      formats == job.formats && mem == job.before && visited <= mem.Keys && Walk(job, visited, open)
    }

    ghost function Unvisited(): set<Word>
      reads this
    {
      (set a | a in job.before && job.Mutable(a)) - visited
    }

    /** Bytes of the objects this call visits first. */
    method Estimate(oop: Word, ghost open: set<Word>) returns (total: nat)
      requires Valid(open) && job.ValidRef(oop) && (job.Mutable(oop) ==> job.Live(oop))
      modifies this
      ensures Valid(open) && old(visited) <= visited && (job.Mutable(oop) ==> oop in visited)
      ensures TotalBytes(job.before, visited) == TotalBytes(job.before, old(visited)) + total
      decreases Unvisited()
    {
      hide Walk, TotalBytes, Reachable, ScannableSlots;
      assert job.Valid() by { WalkValid(job, visited, open); }
      if IsSmallInt(oop) || IsChar(oop) || oop == 0 {
        if oop in job.before { ObjectValid(job, oop); }
        return 0;
      }
      if Immutable(mem[oop]) { return 0; }
      if oop in visited { return 0; }
      LiveIsMutable(job, oop);
      WalkOpen(job, visited, open, oop);
      ObjectValid(job, oop);
      visited := visited + {oop};
      total := ObjBytes(mem[oop]);
      var n := ScannableSlots(mem[oop], formats);
      var i := 0;
      while i < n
        invariant 0 <= i <= n
        invariant Valid(open + {oop}) && old(visited) + {oop} <= visited
        invariant TotalBytes(job.before, visited) == TotalBytes(job.before, old(visited)) + total
        invariant forall l :: 0 <= l < i && job.Mutable(mem[oop].slots[l]) ==> mem[oop].slots[l] in visited
      {
        SourceSlot(job, oop, i);
        var t := Estimate(mem[oop].slots[i], open + {oop});
        total := total + t;
        i := i + 1;
      }
      WalkClose(job, visited, open, oop);
    }
  }

  lemma WalkValid(j: Job, seen: set<Word>, open: set<Word>)
    requires Walk(j, seen, open)
    ensures j.Valid()
    ensures seen <= j.before.Keys
  {
  }

  /** The estimate is exact: the bytes of the live mutable objects, each once. */
  method EstimateBytes(j: Job) returns (total: nat)
    requires j.Valid()
    ensures total == TotalBytes(j.before, j.LiveSet())
  {
    hide Walk, TooBig, ScannableSlots, Reachable;
    var vs := new Estimator(j);
    if j.Mutable(j.root) { ObjectValid(j, j.root); RootReachable(j.Graph0(), [j.root], j.root); }
    total := vs.Estimate(j.root, {});
    WalkDone(j, vs.visited);
  }

  /** The estimate decides the copy: it fails exactly if the estimate exceeds the room, and
      otherwise uses exactly the estimated bytes, whatever the sharing and the cycles. */
  method EstimateThenCopy(j: Job) returns (est: nat, result: Word, mem: Heap, used: nat)
    requires j.Valid()
    ensures est == TotalBytes(j.before, j.LiveSet())
    ensures j.Mutable(j.root) ==> (result == 0 <==> est > j.Room())
    ensures est <= j.Room() ==> used == j.used0 + est && exists phi :: Copied(j, mem, used, result, phi)
  {
    hide Reachable, ScannableSlots, Copies;
    est := EstimateBytes(j);
    result, mem, used := DeepCopy(j);
    if est <= j.Room() {
      ghost var phi :| Copied(j, mem, used, result, phi);
      CopyUses(j, mem, used, result, phi);
    }
  }

  // ---- replies ----

  function RoundUp16(n: nat): (r: nat)
    ensures r % 16 == 0 && n <= r < n + 16
  {
    (n + 15) / 16 * 16
  }

  /** Capacity of a heap created for n bytes. */
  function HeapCapacity(n: nat): (c: nat)
    ensures n <= c && 0 < c && c % 16 == 0
  {
    if RoundUp16(n) == 0 then 16 else RoundUp16(n)
  }

  /** The transfer heap for n estimated bytes. */
  function TransferCapacity(est: nat): (c: nat)
    ensures est <= c
  {
    HeapCapacity(if est < 256 then 256 else est * 2)
  }

  /** The value stored in the reply buffer: shared if immediate or immutable, otherwise a
      copy in a transfer heap of the capacity the estimate asks for, which the allocator
      places at region(capacity). The copy always fits and uses just the estimated bytes. */
  method RouteReply(formats: map<nat, Format>, memory: Heap, value: Word, region: nat -> nat)
    returns (reply: Word, mem: Heap, capacity: nat, used: nat)
    requires forall c: nat :: Job(formats, memory, value, region(c), 0, c).Valid()
    ensures IsPointer(value) ==> value in memory
    ensures IsPointer(value) && !Immutable(memory[value]) ==>
              var j := Job(formats, memory, value, region(capacity), 0, capacity);
              && used == TotalBytes(memory, j.LiveSet()) && capacity == TransferCapacity(used)
              && reply != 0 && exists phi :: Copied(j, mem, used, reply, phi)
    ensures !IsPointer(value) || Immutable(memory[value]) ==> reply == value && mem == memory && capacity == 0 && used == 0
  {
    hide Copied, ScannableSlots, TotalBytes, Reachable, TooBig, TransferCapacity;
    if IsSmallInt(value) || IsChar(value) || value == 0 { return value, memory, 0, 0; }
    var i := Job(formats, memory, value, region(0), 0, 0);
    assert i.Valid();
    if Immutable(memory[value]) { return value, memory, 0, 0; }
    var est := EstimateBytes(i);
    capacity := TransferCapacity(est);
    var j := Job(formats, memory, value, region(capacity), 0, capacity);
    SameLive(i, j);
    reply, mem, used := DeepCopy(j);
    ghost var phi :| Copied(j, mem, used, reply, phi);
    CopyUses(j, mem, used, reply, phi);
  }

  lemma CopyUses(j: Job, mem: Heap, used: nat, r: Word, phi: map<Word, Word>)
    requires j.Valid() && Copied(j, mem, used, r, phi)
    ensures used == j.used0 + TotalBytes(j.before, j.LiveSet())
  {
  }

  lemma SameLive(j: Job, k: Job)
    requires j.Valid() && k.Valid() && k == j.(base := k.base, capacity := k.capacity)
    requires j.used0 + TotalBytes(j.before, j.LiveSet()) <= k.capacity
    ensures k.LiveSet() == j.LiveSet() && !TooBig(k)
  {
    assert j.Graph0() == k.Graph0();
    assert k.LiveSet() == j.LiveSet();
  }
}
