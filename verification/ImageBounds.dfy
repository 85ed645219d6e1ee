/** Passes 3 to 5 of the image loader on any image at all (src/image/image.c). The loader checks
    neither that object ids are distinct nor that relocations stay inside their objects; here every
    payload access is guarded, and the guards say when it would leave its object. */
module ImageBounds {
  import opened ObjectGraph
  import opened Image

  /** Loaded, refused by a check of the loader, or about to touch memory outside an object. */
  datatype Outcome = Done(payloads: seq<seq<Word>>) | Refused | Outside

  /** The id table: which record's object each id stands for, the last one with that id. */
  function Owners(records: seq<Record>): (m: map<nat, nat>)
    ensures forall id :: id in m ==> m[id] < |records| && records[m[id]].objectId == id
  {
    if records == [] then map[]
    else Owners(records[..|records| - 1])[records[|records| - 1].objectId := |records| - 1]
  }

  lemma {:induction false} OwnersLast(records: seq<Record>, i: nat)
    requires i < |records|
    ensures var m := Owners(records); records[i].objectId in m && i <= m[records[i].objectId]
    decreases |records|
  {
    if i < |records| - 1 { OwnersLast(records[..|records| - 1], i); }
  }

  // ---- what decides ----

  /** The payload of an object, by its id. */
  function PayloadOf(img: Snapshot, id: nat): seq<Word>
    requires id in Owners(img.records)
  {
    img.records[Owners(img.records)[id]].payload
  }

  /** The payload of record i fits into the object it is written to. */
  ghost predicate FitsAt(img: Snapshot, i: nat)
    requires i < |img.records|
  {
    OwnersLast(img.records, i);
    |img.records[i].payload| <= |PayloadOf(img, img.records[i].objectId)|
  }

  ghost predicate AllFit(img: Snapshot) { forall i :: 0 <= i < |img.records| ==> FitsAt(img, i) }

  /** Relocation k names a slot beyond its object. */
  ghost predicate StraysAt(img: Snapshot, k: nat)
    requires k < |img.relocs|
  {
    var r := img.relocs[k];
    r.objectId in Owners(img.records) && r.slot >= |PayloadOf(img, r.objectId)|
  }

  /** Relocation k names a slot with a tagged known id that no earlier one has named. */
  ghost predicate AcceptedAt(img: Snapshot, k: nat)
    requires k < |img.relocs|
  {
    var r := img.relocs[k];
    && r.objectId in Owners(img.records) && r.slot < |PayloadOf(img, r.objectId)|
    && SnapIsHeap(PayloadOf(img, r.objectId)[r.slot]) && SnapId(PayloadOf(img, r.objectId)[r.slot]) in Owners(img.records)
    && r !in img.relocs[..k]
  }

  /** The first relocation that is not accepted names a slot beyond its object. */
  ghost predicate FirstStrays(img: Snapshot)
  {
    exists k :: 0 <= k < |img.relocs| && StraysAt(img, k) && forall l :: 0 <= l < k ==> AcceptedAt(img, l)
  }

  // ---- pass 3 ----

  method ReadIds(img: Snapshot) returns (ok: bool, owner: map<nat, nat>)
    ensures ok <==> IdsOk(img)
    ensures ok ==> owner == Owners(img.records)
  {
    owner := map[];
    var i := 0;
    while i < |img.records|
      invariant 0 <= i <= |img.records|
      invariant forall l :: 0 <= l < i ==> img.records[l].objectId < |img.records|
      invariant owner == Owners(img.records[..i])
    {
      if img.records[i].objectId >= |img.records| { return false, owner; }
      assert img.records[..i + 1][..i] == img.records[..i];
      owner := owner[img.records[i].objectId := i];
      i := i + 1;
    }
    assert img.records[..i] == img.records;
    ok := true;
  }

  // ---- pass 4 ----

  /** Every object has its own payload, the one of the last record with its id. */
  ghost predicate Filled(img: Snapshot, mem: seq<seq<Word>>, n: nat)
  {
    && |mem| == |img.records|
    && (forall j :: 0 <= j < |mem| ==> |mem[j]| == |img.records[j].payload|)
    && (forall id :: id in Owners(img.records) && Owners(img.records)[id] < n ==> mem[Owners(img.records)[id]] == PayloadOf(img, id))
  }

  lemma FillOne(img: Snapshot, mem: seq<seq<Word>>, i: nat)
    requires i < |img.records| && Filled(img, mem, i) && FitsAt(img, i)
    ensures img.records[i].objectId in Owners(img.records)
    ensures var at, p := Owners(img.records)[img.records[i].objectId], img.records[i].payload;
            |p| <= |mem[at]| && Filled(img, mem[at := p + mem[at][|p|..]], i + 1)
  {
    hide Owners;
    OwnersLast(img.records, i);
    var at, p := Owners(img.records)[img.records[i].objectId], img.records[i].payload;
    var mem' := mem[at := p + mem[at][|p|..]];
    forall id | id in Owners(img.records) && Owners(img.records)[id] < i + 1
      ensures mem'[Owners(img.records)[id]] == PayloadOf(img, id)
    {
      if Owners(img.records)[id] == i {
        assert id == img.records[i].objectId;
        assert mem'[i] == p;
      }
    }
  }

  method Fill(img: Snapshot, owner: map<nat, nat>) returns (inside: bool, mem: seq<seq<Word>>)
    requires owner == Owners(img.records)
    ensures inside <==> AllFit(img)
    ensures inside ==> Filled(img, mem, |img.records|)
  {
    hide Owners;
    mem := seq(|img.records|, j requires 0 <= j < |img.records| => Zeros(|img.records[j].payload|));
    var i := 0;
    while i < |img.records|
      invariant 0 <= i <= |img.records|
      invariant forall l :: 0 <= l < i ==> FitsAt(img, l)
      invariant Filled(img, mem, i)
    {
      OwnersLast(img.records, i);
      var at, p := owner[img.records[i].objectId], img.records[i].payload;
      if |p| > |mem[at]| {
        assert !FitsAt(img, i);
        return false, mem;
      }
      FillOne(img, mem, i);
      mem := mem[at := p + mem[at][|p|..]];
      i := i + 1;
    }
    inside := true;
  }

  // ---- pass 5 ----

  /** Slot s of an object after the relocations in `done`. */
  ghost function SlotAfter(img: Snapshot, addrs: seq<Word>, done: seq<Reloc>, id: nat, s: nat): Word
    requires id in Owners(img.records) && s < |PayloadOf(img, id)| && |img.records| <= |addrs|
  {
    var v := PayloadOf(img, id)[s];
    if Reloc(id, s) in done && SnapId(v) in Owners(img.records) then addrs[Owners(img.records)[SnapId(v)]] else v
  }

  ghost predicate RelocatedAt(img: Snapshot, addrs: seq<Word>, mem: seq<seq<Word>>, done: seq<Reloc>, id: nat)
    requires |mem| == |img.records| <= |addrs| && id in Owners(img.records)
  {
    var o := mem[Owners(img.records)[id]];
    |o| == |PayloadOf(img, id)| && forall s :: 0 <= s < |o| ==> o[s] == SlotAfter(img, addrs, done, id, s)
  }

  ghost predicate Relocated(img: Snapshot, addrs: seq<Word>, mem: seq<seq<Word>>, done: seq<Reloc>)
    requires |img.records| <= |addrs|
  {
    |mem| == |img.records| && forall id :: id in Owners(img.records) ==> RelocatedAt(img, addrs, mem, done, id)
  }

  lemma RelocateNone(img: Snapshot, addrs: seq<Word>, mem: seq<seq<Word>>)
    requires Filled(img, mem, |img.records|) && |img.records| <= |addrs|
    ensures |mem| == |img.records| && Relocated(img, addrs, mem, [])
  {
    hide Owners;
  }

  lemma RelocateOne(img: Snapshot, addrs: seq<Word>, mem: seq<seq<Word>>, k: nat)
    requires k < |img.relocs| && |img.records| <= |addrs| && AcceptedAt(img, k) && Relocated(img, addrs, mem, img.relocs[..k])
    ensures var r, own := img.relocs[k], Owners(img.records); var at := own[r.objectId];
            && r.slot < |mem[at]| && mem[at][r.slot] == PayloadOf(img, r.objectId)[r.slot]
            && Relocated(img, addrs, mem[at := mem[at][r.slot := addrs[own[SnapId(mem[at][r.slot])]]]], img.relocs[..k + 1])
  {
    hide Owners, SnapId, SnapIsHeap;
    var r, own, done, done' := img.relocs[k], Owners(img.records), img.relocs[..k], img.relocs[..k + 1];
    assert done' == done + [r];
    var at := own[r.objectId];
    assert RelocatedAt(img, addrs, mem, done, r.objectId);
    assert mem[at][r.slot] == SlotAfter(img, addrs, done, r.objectId, r.slot);
    var mem' := mem[at := mem[at][r.slot := addrs[own[SnapId(mem[at][r.slot])]]]];
    forall id | id in own ensures RelocatedAt(img, addrs, mem', done', id) {
      assert RelocatedAt(img, addrs, mem, done, id);
      assert forall s :: Reloc(id, s) in done' <==> Reloc(id, s) in done || Reloc(id, s) == r;
      if id != r.objectId { assert own[id] != at; }
    }
  }

  /** The loader reads an encoded word the first time it looks at a slot, and later an address,
      which is no tagged id. */
  lemma RelocDecides(img: Snapshot, addrs: seq<Word>, mem: seq<seq<Word>>, k: nat)
    requires FreshAddresses(addrs) && k < |img.relocs| && |img.records| <= |addrs|
    requires (forall l :: 0 <= l < k ==> AcceptedAt(img, l)) && Relocated(img, addrs, mem, img.relocs[..k])
    requires img.relocs[k].objectId in Owners(img.records)
    ensures var r, own := img.relocs[k], Owners(img.records); var o := mem[own[r.objectId]];
            && (StraysAt(img, k) <==> r.slot >= |o|)
            && (AcceptedAt(img, k) <==> r.slot < |o| && SnapIsHeap(o[r.slot]) && SnapId(o[r.slot]) in own)
  {
    hide Owners, SnapId;
    var r, own, done := img.relocs[k], Owners(img.records), img.relocs[..k];
    assert RelocatedAt(img, addrs, mem, done, r.objectId);
    var o := mem[own[r.objectId]];
    if r.slot < |o| {
      assert o[r.slot] == SlotAfter(img, addrs, done, r.objectId, r.slot);
      assert Reloc(r.objectId, r.slot) == r;
      if r in done {
        var l :| 0 <= l < k && img.relocs[l] == r;
        assert AcceptedAt(img, l);
        assert Aligned(o[r.slot]);
      }
    }
  }

  method RelocateGuarded(img: Snapshot, addrs: seq<Word>, owner: map<nat, nat>, mem0: seq<seq<Word>>) returns (o: Outcome)
    requires FreshAddresses(addrs) && |img.records| <= |addrs| && owner == Owners(img.records)
    requires Filled(img, mem0, |img.records|)
    ensures o.Outside? <==> FirstStrays(img)
    ensures o.Done? <==> forall k :: 0 <= k < |img.relocs| ==> AcceptedAt(img, k)
    ensures o.Done? ==> Relocated(img, addrs, o.payloads, img.relocs)
  {
    hide Owners, FreshAddresses, SnapId, SnapIsHeap, Relocated, Filled, AcceptedAt, StraysAt;
    var mem: seq<seq<Word>> := mem0;
    RelocateNone(img, addrs, mem);
    var k := 0;
    while k < |img.relocs|
      invariant 0 <= k <= |img.relocs| && |mem| == |img.records|
      invariant forall l :: 0 <= l < k ==> AcceptedAt(img, l) && !StraysAt(img, l)
      invariant Relocated(img, addrs, mem, img.relocs[..k])
    {
      var r := img.relocs[k];
      if r.objectId !in owner {
        Unknown(img, k);
        return Refused;
      }
      RelocDecides(img, addrs, mem, k);
      var at := owner[r.objectId];
      if r.slot >= |mem[at]| { return Outside; }
      var encoded := mem[at][r.slot];
      if !SnapIsHeap(encoded) || SnapId(encoded) !in owner { return Refused; }
      RelocateOne(img, addrs, mem, k);
      mem := mem[at := mem[at][r.slot := addrs[owner[SnapId(encoded)]]]];
      k := k + 1;
    }
    assert img.relocs[..k] == img.relocs;
    o := Done(mem);
  }

  lemma Unknown(img: Snapshot, k: nat)
    requires k < |img.relocs| && img.relocs[k].objectId !in Owners(img.records)
    ensures !AcceptedAt(img, k) && !StraysAt(img, k)
  {
  }

  // ---- the loader ----

  /** The loader leaves an object exactly if a repeated id has an earlier record larger than the
      last, or the first relocation that fails a check names a slot beyond its object. */
  method LoadGuarded(img: Snapshot, addrs: seq<Word>) returns (o: Outcome)
    requires FreshAddresses(addrs) && |img.records| <= |addrs|
    ensures o.Outside? <==> IdsOk(img) && (!AllFit(img) || FirstStrays(img))
    ensures o.Done? <==> IdsOk(img) && AllFit(img) && forall k :: 0 <= k < |img.relocs| ==> AcceptedAt(img, k)
    ensures o.Done? ==> Relocated(img, addrs, o.payloads, img.relocs)
  {
    hide FreshAddresses, AllFit, FirstStrays, AcceptedAt, Relocated, Filled, Owners;
    var ok, owner := ReadIds(img);
    if !ok { return Refused; }
    var inside, mem := Fill(img, owner);
    if !inside { return Outside; }
    o := RelocateGuarded(img, addrs, owner, mem);
  }

  /** Images whose ids are distinct and whose relocations stay inside never take the loader out of
      an object; with distinct ids these are the images in which no relocation strays. */
  lemma WellShapedIff(img: Snapshot)
    requires forall i, j :: 0 <= i < j < |img.records| ==> img.records[i].objectId != img.records[j].objectId
    ensures AllFit(img)
    ensures WellShaped(img) <==> forall k :: 0 <= k < |img.relocs| ==> !StraysAt(img, k)
  {
    hide Owners;
    forall i | 0 <= i < |img.records|
      ensures FitsAt(img, i) && img.records[i].objectId in Owners(img.records) && Owners(img.records)[img.records[i].objectId] == i
    {
      OwnersLast(img.records, i);
    }
    if WellShaped(img) {
      forall k | 0 <= k < |img.relocs| ensures !StraysAt(img, k) {}
    } else {
      var k, i :| 0 <= k < |img.relocs| && 0 <= i < |img.records| && img.records[i].objectId == img.relocs[k].objectId
                  && img.relocs[k].slot >= |img.records[i].payload|;
      assert StraysAt(img, k);
    }
  }

  /** One object without slots and a relocation of its slot 0: no check refuses it. */
  lemma PastThePayload()
    ensures var img := Snapshot([Record(0, 0, 0, 0, 0, [])], [Reloc(0, 0)]);
            IdsOk(img) && !WellShaped(img) && AllFit(img) && FirstStrays(img)
  {
    var img := Snapshot([Record(0, 0, 0, 0, 0, [])], [Reloc(0, 0)]);
    OwnersLast(img.records, 0);
    assert StraysAt(img, 0);
    assert FitsAt(img, 0);
  }

  /** An id used twice, the larger object first: its payload runs over the smaller one. */
  lemma RepeatedId(v: Word)
    ensures var img := Snapshot([Record(0, 0, 0, 0, 0, [v]), Record(0, 0, 0, 0, 0, [])], []);
            IdsOk(img) && !WellShaped(img) && !AllFit(img)
  {
    var img := Snapshot([Record(0, 0, 0, 0, 0, [v]), Record(0, 0, 0, 0, 0, [])], []);
    OwnersLast(img.records, 1);
    assert !FitsAt(img, 0);
  }
}
