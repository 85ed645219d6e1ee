/** Tagged words, heap objects and reachability: the vocabulary shared by the three
    graph movers (collector, deep copy, image). */
module ObjectGraph {
  import opened Common

  type Word = nat

  // Tag predicates on bits 1:0 of a word.
  predicate IsSmallInt(w: Word) { w % 2 == 1 }
  predicate IsChar(w: Word) { w % 4 == 2 }

  /** Not an immediate and not the null word. */
  predicate IsPointer(w: Word) { !IsSmallInt(w) && !IsChar(w) && w != 0 }

  datatype Obj = Obj(classIndex: nat, gcFlags: nat, objFlags: nat, reserved: nat, slots: seq<Word>)

  type Heap = map<Word, Obj>

  const FORWARDED := 4

  predicate Forwarded(o: Obj) { (o.gcFlags / FORWARDED) % 2 == 1 }

  /** `gc_flags |= FORWARDED`. */
  function SetForwarded(o: Obj): (r: Obj)
    ensures Forwarded(r) && r.slots == o.slots
  {
    if Forwarded(o) then o else o.(gcFlags := o.gcFlags + FORWARDED)
  }

  predicate Immutable(o: Obj) { o.objFlags % 2 == 1 }

  predicate Aligned(w: Word) { w % 16 == 0 }

  /** Header unit plus payload, rounded up to 16 bytes. */
  function AllocBytes(words: nat): (b: nat)
    ensures b % 16 == 0 && 16 + 8 * words <= b < 32 + 8 * words
  {
    (16 + 8 * words + 15) / 16 * 16
  }

  function ObjBytes(o: Obj): nat { AllocBytes(|o.slots|) }

  function Zeros(n: nat): seq<Word> { seq(n, i => 0) }

  // ---- class formats ----

  datatype Format = Format(kind: nat, instVars: nat)

  const VARIABLE_BYTE := 2
  const COMPILED_METHOD := 6

  /** Bits 24:17 of a CompiledMethod header word. */
  function NumLiterals(header: Word): (n: nat)
    ensures n < 256
  {
    (header / 0x2_0000) % 256
  }

  /** Slot 0 of a CompiledMethod is its header, a SmallInt. */
  predicate HeaderIsInteger(o: Obj, formats: map<nat, Format>)
  {
    o.classIndex in formats && formats[o.classIndex].kind == COMPILED_METHOD && |o.slots| > 0 ==> IsSmallInt(o.slots[0])
  }

  // ---- sizes of sets of objects ----

  ghost function TotalBytes(h: Heap, s: set<Word>): nat
    requires s <= h.Keys
  {
    if s == {} then 0
    else var a :| a in s; ObjBytes(h[a]) + TotalBytes(h, s - {a})
  }

  lemma {:induction false} TotalBytesSplit(h: Heap, s: set<Word>, a: Word)
    requires s <= h.Keys && a in s
    ensures TotalBytes(h, s) == ObjBytes(h[a]) + TotalBytes(h, s - {a})
    decreases s
  {
    var b :| b in s && TotalBytes(h, s) == ObjBytes(h[b]) + TotalBytes(h, s - {b});
    if b != a {
      TotalBytesSplit(h, s - {b}, a);
      TotalBytesSplit(h, s - {a}, b);
      assert s - {a} - {b} == s - {b} - {a};
    }
  }

  lemma TotalBytesAdd(h: Heap, s: set<Word>, a: Word)
    requires s <= h.Keys && a in h && a !in s
    ensures TotalBytes(h, s + {a}) == TotalBytes(h, s) + ObjBytes(h[a])
  {
    TotalBytesSplit(h, s + {a}, a);
    assert s + {a} - {a} == s;
  }

  lemma {:induction false} TotalBytesMonotone(h: Heap, s: set<Word>, t: set<Word>)
    requires s <= t <= h.Keys
    ensures TotalBytes(h, s) <= TotalBytes(h, t)
    decreases t
  {
    if s != t {
      assert exists a :: a in t && a !in s;
      var a :| a in t && a !in s;
      TotalBytesSplit(h, t, a);
      TotalBytesMonotone(h, s, t - {a});
    }
  }

  /** Objects lie one after the other between lo and hi without overlapping. */
  ghost predicate Packed(h: Heap, s: set<Word>, lo: nat, hi: nat)
    requires s <= h.Keys
  {
    && (forall a :: a in s ==> lo <= a && a + ObjBytes(h[a]) <= hi)
    && (forall a, b :: a in s && b in s && a < b ==> a + ObjBytes(h[a]) <= b)
  }

  lemma {:induction false} Largest(s: set<Word>) returns (m: Word)
    requires s != {}
    ensures m in s && forall a :: a in s ==> a <= m
  {
    m :| m in s;
    var rest := s - {m};
    if rest != {} {
      var n := Largest(rest);
      assert forall a :: a in s ==> a == m || a in rest;
      if m < n { m := n; }
    } else {
      assert forall a :: a in s ==> a == m || a in rest;
    }
  }

  lemma {:induction false} PackedTotal(h: Heap, s: set<Word>, lo: nat, hi: nat)
    requires s <= h.Keys && lo <= hi && Packed(h, s, lo, hi)
    ensures TotalBytes(h, s) <= hi - lo
    decreases s
  {
    if s != {} {
      var m := Largest(s);
      TotalBytesSplit(h, s, m);
      PackedTotal(h, s - {m}, lo, m);
    }
  }

  // ---- reachability ----

  /** The scanned slots of every object that a mover follows. */
  type Graph = map<Word, seq<Word>>

  ghost predicate IsPath(g: Graph, roots: seq<Word>, p: seq<Word>)
  {
    && |p| > 0
    && p[0] in roots
    && (forall i :: 0 <= i < |p| ==> p[i] in g)
    && (forall i, j :: 0 <= i < |p| && j == i + 1 && j < |p| ==> p[j] in g[p[i]])
  }

  ghost predicate Reachable(g: Graph, roots: seq<Word>, a: Word)
  {
    exists p :: IsPath(g, roots, p) && p[|p| - 1] == a
  }

  lemma RootReachable(g: Graph, roots: seq<Word>, a: Word)
    requires a in roots && a in g
    ensures Reachable(g, roots, a)
  {
    assert IsPath(g, roots, [a]);
  }

  lemma EdgeReachable(g: Graph, roots: seq<Word>, a: Word, b: Word)
    requires a in g && Reachable(g, roots, a) && b in g[a] && b in g
    ensures Reachable(g, roots, b)
  {
    var p :| IsPath(g, roots, p) && p[|p| - 1] == a;
    var q := p + [b];
    assert forall i :: 0 <= i < |p| ==> q[i] == p[i];
    assert IsPath(g, roots, q);
  }

  /** A set that holds the roots and is closed under edges. */
  ghost predicate Closed(g: Graph, roots: seq<Word>, s: set<Word>)
  {
    && (forall w :: w in roots && w in g ==> w in s)
    && (forall a, w :: a in s && a in g && w in g[a] && w in g ==> w in s)
  }

  lemma {:induction false} PathInClosed(g: Graph, roots: seq<Word>, s: set<Word>, p: seq<Word>)
    requires IsPath(g, roots, p) && Closed(g, roots, s)
    ensures p[|p| - 1] in s
    decreases |p|
  {
    if |p| > 1 {
      var q := p[..|p| - 1];
      assert forall i :: 0 <= i < |q| ==> q[i] == p[i];
      PathInClosed(g, roots, s, q);
      assert p[|p| - 1] in g[p[|p| - 2]];
    }
  }

  lemma ReachableInClosed(g: Graph, roots: seq<Word>, s: set<Word>)
    requires Closed(g, roots, s)
    ensures forall a :: Reachable(g, roots, a) ==> a in s
  {
    forall a | Reachable(g, roots, a) ensures a in s {
      var p :| IsPath(g, roots, p) && p[|p| - 1] == a;
      PathInClosed(g, roots, s, p);
    }
  }

  // ---- isomorphism ----

  function Forward(phi: map<Word, Word>, w: Word): Word { if w in phi then phi[w] else w }

  function ForwardAll(phi: map<Word, Word>, ws: seq<Word>): (r: seq<Word>)
  {
    seq(|ws|, i requires 0 <= i < |ws| => Forward(phi, ws[i]))
  }

  ghost predicate Injective(phi: map<Word, Word>)
  {
    forall a, b :: a in phi && b in phi && phi[a] == phi[b] ==> a == b
  }

  /** g' is g restricted to the domain of phi, every node renamed by phi: sharing and
      cycles are kept, and a word that is not followed never names a node of g'. */
  ghost predicate Isomorphic(g: Graph, g': Graph, phi: map<Word, Word>)
  {
    && phi.Keys <= g.Keys
    && g'.Keys == phi.Values
    && Injective(phi)
    && (forall a :: a in phi ==> g'[phi[a]] == ForwardAll(phi, g[a]))
    && (forall a, w :: a in phi && w in g[a] ==> Settled(g, g', phi, w))
  }

  /** w is either a moved object or a word that denotes no object on either side. */
  ghost predicate Settled(g: Graph, g': Graph, phi: map<Word, Word>, w: Word)
  {
    w in phi || (w !in g && w !in g')
  }

  /** The word at the end of an access path of slot numbers. */
  ghost function Follow(g: Graph, w: Word, path: seq<nat>): Option<Word>
    decreases |path|
  {
    if path == [] then Some(w)
    else if w !in g || path[0] >= |g[w]| then None
    else Follow(g, g[w][path[0]], path[1..])
  }

  /** Every access path ends at the renamed word: no program that reads slots can tell
      the moved graph from the original. */
  lemma {:induction false} AccessPathsAgree(g: Graph, g': Graph, phi: map<Word, Word>, w: Word, path: seq<nat>)
    requires Isomorphic(g, g', phi) && Settled(g, g', phi, w)
    ensures match Follow(g, w, path)
            case None => Follow(g', Forward(phi, w), path).None?
            case Some(x) => Follow(g', Forward(phi, w), path) == Some(Forward(phi, x)) && Settled(g, g', phi, x)
    decreases |path|
  {
    if path != [] && w in g && path[0] < |g[w]| {
      assert phi[w] in phi.Values;
      assert g[w][path[0]] in g[w];
      AccessPathsAgree(g, g', phi, g[w][path[0]], path[1..]);
    }
  }

  /** Two access paths meet in the same object afterwards exactly when they did before. */
  lemma IdentityPreserved(g: Graph, g': Graph, phi: map<Word, Word>, w: Word, p: seq<nat>, q: seq<nat>)
    requires Isomorphic(g, g', phi) && Settled(g, g', phi, w)
    ensures Follow(g, w, p) == Follow(g, w, q) <==> Follow(g', Forward(phi, w), p) == Follow(g', Forward(phi, w), q)
  {
    AccessPathsAgree(g, g', phi, w, p);
    AccessPathsAgree(g, g', phi, w, q);
    if Follow(g, w, p).Some? && Follow(g, w, q).Some? {
      var x, y := Follow(g, w, p).value, Follow(g, w, q).value;
      if Forward(phi, x) == Forward(phi, y) {
        assert x in phi ==> phi[x] in phi.Values;
        assert y in phi ==> phi[y] in phi.Values;
      }
    }
  }
}
