/** The life of the lock words of the heap objects that go into the images: bin slot, image offset, copy and restoration
    (compiler/image_writer.cc), and the addresses that the copies' references get from them. */
module ObjectHeaps {
  import opened Alignment
  import opened ImageBins
  import opened ImageObjects
  import opened LockWords

  /** What a copied reference holds: null, the address of a boot image object, or an address in one of the images. */
  datatype Address = NullAddress | InBootImage(target: ObjectId) | InImage(address: nat)

  /** A copied object: the image and the offset it went to, the lock word it got and its references. */
  datatype Copy = Copy(image: nat, offset: nat, word: nat, refs: seq<Address>)

  /** What the image infos say: the image of every object, and the bin offsets and the begin of every image. */
  datatype Bases = Bases(homes: map<ObjectId, nat>, offsets: seq<seq<nat>>, begins: seq<nat>)
  {
    predicate Knows(o: ObjectId) { o in homes && homes[o] < |offsets| && homes[o] < |begins| }

    /** bin_slot_offsets_ of an object's image. */
    function Of(o: ObjectId): seq<nat>
      requires Knows(o)
    {
      offsets[homes[o]]
    }
  }

  /** A slot that the lock word can hold, at an offset that it can hold too. */
  ghost predicate Fits(slot: Item, offsets: seq<nat>) {
    && slot.bin < MIRROR_BINS <= |offsets| && slot.index < TWO_27 && slot.index % 8 == 0
    && offsets[slot.bin] % 8 == 0 && offsets[slot.bin] + slot.index < TWO_32
  }

  /** A lock word without a lock: it is clear or it holds a hash code. */
  predicate Quiet(word: nat) {
    GetState(word) == Unlocked || (GetState(word) == HashCode && ReadBarrierState(word) == 0)
  }

  /** The hash code that an object has to keep is saved, and no other. */
  ghost predicate Saved(word: nat, saved: map<ObjectId, nat>, o: ObjectId) {
    && (o in saved <==> GetState(word) == HashCode)
    && (o in saved ==> saved[o] == GetHashCode(word))
  }

  /** A hash code that is saved can be put back. */
  lemma HashSurvives(word: nat)
    requires word < TWO_32 && Quiet(word) && GetState(word) == HashCode
    ensures FromHashCode(GetHashCode(word)) == word
  {
    assert word / TWO_30 == 2;
    assert word / TWO_28 / 4 == 2;
    assert word / TWO_28 == 8;
  }

  /** The offset of such a slot survives forwarding. */
  lemma OffsetFits(slot: Item, offsets: seq<nat>)
    requires Fits(slot, offsets)
    ensures OffsetOf(offsets, slot) < TWO_32 && OffsetOf(offsets, slot) % 4 == 0
  {
    AddMultiples(offsets[slot.bin], slot.index, 8);
    EightIsFour(OffsetOf(offsets, slot));
  }

  lemma EightIsFour(x: nat)
    requires x % 8 == 0
    ensures x % 4 == 0
  {
  }

  /** Object o has a slot that its lock word can hold. */
  ghost predicate HasSlot(slots: map<ObjectId, Item>, bases: Bases, o: ObjectId) {
    o in slots && bases.Knows(o) && Fits(slots[o], bases.Of(o))
  }

  /** Object o has its image offset in its lock word. */
  ghost predicate Unbinned(words: map<ObjectId, nat>, slots: map<ObjectId, Item>, bases: Bases, o: ObjectId) {
    HasSlot(slots, bases, o) && o in words && words[o] == Forward(OffsetOf(bases.Of(o), slots[o]))
  }

  /** A reference is null or leads into the boot image or to an object with a slot. */
  ghost predicate Leads(r: Ref, boot: set<ObjectId>, bases: Bases, slots: map<ObjectId, Item>) {
    r.To? && r.target !in boot ==> HasSlot(slots, bases, r.target)
  }

  /** Where the target of a reference will be in memory. */
  ghost function AddressOf(r: Ref, boot: set<ObjectId>, bases: Bases, slots: map<ObjectId, Item>): Address
    requires Leads(r, boot, bases, slots)
  {
    if r == Null then NullAddress
    else if r.target in boot then InBootImage(r.target)
    else InImage(bases.begins[bases.homes[r.target]] + OffsetOf(bases.Of(r.target), slots[r.target]))
  }

  ghost function Addresses(fields: seq<Ref>, boot: set<ObjectId>, bases: Bases,
                           slots: map<ObjectId, Item>): seq<Address>
    requires forall f :: 0 <= f < |fields| ==> Leads(fields[f], boot, bases, slots)
  {
    seq(|fields|, f requires 0 <= f < |fields| => AddressOf(fields[f], boot, bases, slots))
  }

  class ObjectHeap {
    var words: map<ObjectId, nat>
    var saved: map<ObjectId, nat>
    var copies: map<ObjectId, Copy>

    constructor (words: map<ObjectId, nat>)
      ensures this.words == words && saved == map[] && copies == map[]
    {
      this.words, saved, copies := words, map[], map[];
    }

    /** SetImageBinSlot: a locked object is a fatal error. */
    method SetImageBinSlot(o: ObjectId, bin: nat, index: nat) returns (ok: bool)
      requires o in words && o !in saved && GetState(words[o]) != Forwarded
      requires bin < MIRROR_BINS && index < TWO_32 && index % 8 == 0
      modifies this`words, this`saved
      ensures ok <==> GetState(old(words)[o]) == Unlocked || GetState(old(words)[o]) == HashCode
      ensures !ok ==> words == old(words) && saved == old(saved)
      ensures ok ==> BinSlot(bin, index) < TWO_32 && words == old(words)[o := Forward(BinSlot(bin, index))]
      ensures ok ==> saved == if GetState(old(words)[o]) == HashCode then old(saved)[o := GetHashCode(old(words)[o])]
                              else old(saved)
    {
      BinSlotSurvivesIff(bin, index);
      match GetState(words[o]) {
        case FatLocked => return false;
        case ThinLocked => return false;
        case Unlocked =>
        case HashCode => saved := saved[o := GetHashCode(words[o])];
      }
      words := words[o := Forward(BinSlot(bin, index))];
      ok := true;
    }

    /** AssignImageOffset: the slot is taken out of the lock word and the offset put in.  The read barrier bits are
        clear, as the DCHECK of SetImageOffset asks, exactly for offsets below 2^30. */
    method AssignImageOffset(o: ObjectId, bases: Bases, ghost slot: Item)
      requires o in words && bases.Knows(o) && Fits(slot, bases.Of(o))
      requires BinSlot(slot.bin, slot.index) < TWO_32 && words[o] == Forward(BinSlot(slot.bin, slot.index))
      modifies this`words
      ensures words == old(words)[o := Forward(OffsetOf(bases.Of(o), slot))]
      ensures ReadBarrierState(words[o]) == 0 <==> OffsetOf(bases.Of(o), slot) < TWO_30
    {
      BinSlotSurvivesIff(slot.bin, slot.index);
      OffsetFits(slot, bases.Of(o));
      ForwardSurvives(OffsetOf(bases.Of(o), slot));
      var offsets := bases.offsets[bases.homes[o]];
      var binSlot := ForwardingAddress(words[o]);
      var newOffset := offsets[GetBin(binSlot)] + GetIndex(binSlot);
      words := words[o := Forward(newOffset)];
    }

    /** GetImageAddress: the lock word of the target tells its offset. */
    method GetImageAddress(r: Ref, boot: set<ObjectId>, bases: Bases, ghost slots: map<ObjectId, Item>)
      returns (a: Address)
      requires Leads(r, boot, bases, slots)
      requires r.To? && r.target !in boot ==> Unbinned(words, slots, bases, r.target)
      ensures a == AddressOf(r, boot, bases, slots)
    {
      if r == Null {
        return NullAddress;
      }
      if r.target in boot {
        return InBootImage(r.target);
      }
      OffsetFits(slots[r.target], bases.Of(r.target));
      ForwardSurvives(OffsetOf(bases.Of(r.target), slots[r.target]));
      a := InImage(bases.begins[bases.homes[r.target]] + ForwardingAddress(words[r.target]));
    }

    /** CopyAndFixupObject: the copy goes to the offset in the lock word, and every reference becomes an address. */
    method CopyObject(o: ObjectId, fields: seq<Ref>, boot: set<ObjectId>, bases: Bases,
                      ghost slots: map<ObjectId, Item>)
      requires Unbinned(words, slots, bases, o)
      requires forall f :: 0 <= f < |fields| ==> Leads(fields[f], boot, bases, slots)
      requires forall f :: 0 <= f < |fields| && fields[f].To? && fields[f].target !in boot ==>
                 Unbinned(words, slots, bases, fields[f].target)
      modifies this`copies
      ensures copies == old(copies)[o := Copy(bases.homes[o], OffsetOf(bases.Of(o), slots[o]),
                                              if o in saved then FromHashCode(saved[o]) else 0,
                                              Addresses(fields, boot, bases, slots))]
    {
      OffsetFits(slots[o], bases.Of(o));
      ForwardSurvives(OffsetOf(bases.Of(o), slots[o]));
      var refs := [];
      for f := 0 to |fields|
        invariant |refs| == f && copies == old(copies)
        invariant forall i :: 0 <= i < f ==> refs[i] == AddressOf(fields[i], boot, bases, slots)
      {
        var a := GetImageAddress(fields[f], boot, bases, slots);
        refs := refs + [a];
      }
      assert refs == Addresses(fields, boot, bases, slots);
      var word := if o in saved then FromHashCode(saved[o]) else 0;
      copies := copies[o := Copy(bases.homes[o], ForwardingAddress(words[o]), word, refs)];
    }

    /** The loop over saved_hashcode_map_ at the end of CopyAndFixupObjects. */
    method RestoreHashes()
      requires saved.Keys <= words.Keys
      modifies this`words, this`saved
      ensures saved == map[] && words.Keys == old(words.Keys)
      ensures forall o :: o in words ==>
                words[o] == if o in old(saved) then FromHashCode(old(saved)[o]) else old(words)[o]
    {
      var left := saved.Keys;
      while left != {}
        invariant left <= saved.Keys && words.Keys == old(words.Keys) && saved == old(saved)
        invariant forall o :: o in words ==>
                    words[o] == if o in saved && o !in left then FromHashCode(saved[o]) else old(words)[o]
        decreases left
      {
        var o :| o in left;
        words := words[o := FromHashCode(saved[o])];
        left := left - {o};
      }
      saved := map[];
    }
  }

  /** Object o has its slot in its lock word, and its hash code is saved. */
  ghost predicate Slotted(original: map<ObjectId, nat>, words: map<ObjectId, nat>, saved: map<ObjectId, nat>,
                          slots: map<ObjectId, Item>, o: ObjectId)
  {
    && o in original && o in words && o in slots && slots[o].bin < MIRROR_BINS && slots[o].index < TWO_27
    && BinSlot(slots[o].bin, slots[o].index) < TWO_32 && words[o] == Forward(BinSlot(slots[o].bin, slots[o].index))
    && Saved(original[o], saved, o)
  }

  /** Two maps say the same about object p. */
  ghost predicate Alike(a: map<ObjectId, nat>, b: map<ObjectId, nat>, p: ObjectId) {
    (p in a <==> p in b) && (p in a ==> a[p] == b[p])
  }

  /** Nothing has changed but object o. */
  ghost predicate OnlyTouched(words: map<ObjectId, nat>, saved: map<ObjectId, nat>, words': map<ObjectId, nat>,
                              saved': map<ObjectId, nat>, o: ObjectId)
  {
    forall p {:trigger Alike(words, words', p)} {:trigger Alike(saved, saved', p)} :: p != o ==>
      Alike(words, words', p) && Alike(saved, saved', p)
  }

  /** Object o is still as it was. */
  ghost predicate Untouched(original: map<ObjectId, nat>, words: map<ObjectId, nat>, saved: map<ObjectId, nat>,
                            o: ObjectId)
  {
    o in original && o in words && words[o] == original[o] && o !in saved
  }

  /** Another object's slot changes nothing for this one. */
  lemma OthersStay(original: map<ObjectId, nat>, words: map<ObjectId, nat>, saved: map<ObjectId, nat>,
                   words': map<ObjectId, nat>, saved': map<ObjectId, nat>, slots: map<ObjectId, Item>, o: ObjectId,
                   p: ObjectId)
    requires OnlyTouched(words, saved, words', saved', o) && p != o
    ensures Slotted(original, words, saved, slots, p) ==> Slotted(original, words', saved', slots, p)
    ensures Untouched(original, words, saved, p) ==> Untouched(original, words', saved', p)
  {
    assert Alike(words, words', p) && Alike(saved, saved', p);
  }

  /** The slot of one object. */
  method AssignSlot(heap: ObjectHeap, o: ObjectId, slot: Item, ghost original: map<ObjectId, nat>,
                    ghost slots: map<ObjectId, Item>)
    returns (ok: bool)
    requires o in slots && slots[o] == slot && slot.bin < MIRROR_BINS && slot.index < TWO_27 && slot.index % 8 == 0
    requires Untouched(original, heap.words, heap.saved, o) && GetState(original[o]) != Forwarded
    modifies heap`words, heap`saved
    ensures ok <==> LockFree(original, o)
    ensures ok ==> Slotted(original, heap.words, heap.saved, slots, o)
    ensures OnlyTouched(old(heap.words), old(heap.saved), heap.words, heap.saved, o) && o in heap.words
  {
    ok := heap.SetImageBinSlot(o, slot.bin, slot.index);
  }

  /** Every object gets its slot, in the order in which the objects are found, unless one of them is locked. */
  method AssignSlots(heap: ObjectHeap, objects: seq<ObjectId>, slots: map<ObjectId, Item>) returns (ok: bool)
    requires Distinct(objects) && heap.saved == map[]
    requires forall o :: o in objects ==> o in slots && o in heap.words && GetState(heap.words[o]) != Forwarded
    requires forall o :: o in objects ==>
               slots[o].bin < MIRROR_BINS && slots[o].index < TWO_27 && slots[o].index % 8 == 0
    modifies heap`words, heap`saved
    ensures ok <==> forall o :: o in objects ==> LockFree(old(heap.words), o)
    ensures ok ==> forall o :: o in objects ==> Slotted(old(heap.words), heap.words, heap.saved, slots, o)
    ensures heap.words.Keys == old(heap.words.Keys) && forall o :: o in heap.saved ==> o in objects
  {
    ghost var original := heap.words;
    for k := 0 to |objects|
      invariant heap.words.Keys == original.Keys && forall o :: o in heap.saved ==> o in objects
      invariant forall i :: k <= i < |objects| ==> Untouched(original, heap.words, heap.saved, objects[i])
      invariant forall i :: 0 <= i < k ==> LockFree(original, objects[i])
      invariant forall i :: 0 <= i < k ==> Slotted(original, heap.words, heap.saved, slots, objects[i])
    {
      var o := objects[k];
      ghost var words, saved := heap.words, heap.saved;
      assert o in objects;
      ok := AssignSlot(heap, o, slots[o], original, slots);
      forall p | p != o ensures p in heap.words <==> p in words { assert Alike(words, heap.words, p); }
      forall p | p != o && p in heap.saved ensures p in objects { assert Alike(saved, heap.saved, p); }
      if !ok {
        return;
      }
      forall i | 0 <= i < |objects| && i != k
        ensures i < k ==> Slotted(original, heap.words, heap.saved, slots, objects[i])
        ensures i > k ==> Untouched(original, heap.words, heap.saved, objects[i])
      {
        OthersStay(original, words, saved, heap.words, heap.saved, slots, o, objects[i]);
      }
    }
    ok := true;
  }

  /** UnbinObjectsIntoOffset for every object. */
  method UnbinObjects(heap: ObjectHeap, objects: seq<ObjectId>, slots: map<ObjectId, Item>, bases: Bases,
                      ghost original: map<ObjectId, nat>)
    requires Distinct(objects) && forall o :: o in objects ==> HasSlot(slots, bases, o)
    requires forall o :: o in objects ==> Slotted(original, heap.words, heap.saved, slots, o)
    modifies heap`words
    ensures heap.words.Keys == old(heap.words.Keys)
    ensures forall o :: o in objects ==> Unbinned(heap.words, slots, bases, o)
  {
    for k := 0 to |objects|
      invariant heap.words.Keys == old(heap.words.Keys)
      invariant forall i :: k <= i < |objects| ==> Slotted(original, heap.words, heap.saved, slots, objects[i])
      invariant forall i :: 0 <= i < k ==> Unbinned(heap.words, slots, bases, objects[i])
    {
      var o := objects[k];
      assert HasSlot(slots, bases, o) && Slotted(original, heap.words, heap.saved, slots, o);
      heap.AssignImageOffset(o, bases, slots[o]);
    }
  }

  /** The lock word of object o lets it be copied. */
  ghost predicate Copyable(words: map<ObjectId, nat>, o: ObjectId) {
    o in words && words[o] < TWO_32 && GetState(words[o]) != Forwarded && ReadBarrierState(words[o]) == 0
  }

  /** The lock word of object o is clear or holds a hash code. */
  ghost predicate LockFree(words: map<ObjectId, nat>, o: ObjectId) {
    o in words && GetState(words[o]) in {Unlocked, HashCode}
  }

  /** A hash code is there in the end as it was before. */
  ghost predicate HashKept(words: map<ObjectId, nat>, words': map<ObjectId, nat>, o: ObjectId) {
    o in words && GetState(words[o]) == HashCode ==> o in words' && words'[o] == words[o]
  }

  /** What an object's copy must carry: its own hash code, or a clear lock word. */
  function Kept(word: nat): nat { if GetState(word) == HashCode then word else 0 }

  /** Object o could be locked once, but now it is not, and its hash code is saved. */
  ghost predicate KeepsHash(original: map<ObjectId, nat>, saved: map<ObjectId, nat>, o: ObjectId) {
    o in original && original[o] < TWO_32 && Quiet(original[o]) && Saved(original[o], saved, o)
  }

  /** All references of object o lead somewhere. */
  ghost predicate Refers(refs: seq<seq<Ref>>, boot: set<ObjectId>, bases: Bases, slots: map<ObjectId, Item>,
                         o: ObjectId)
  {
    o < |refs| && forall f :: 0 <= f < |refs[o]| ==> Leads(refs[o][f], boot, bases, slots)
  }

  /** The copy of object o is at its offset, has its hash code, and refers to where its targets are. */
  ghost predicate Copied(copies: map<ObjectId, Copy>, slots: map<ObjectId, Item>, bases: Bases, refs: seq<seq<Ref>>,
                         boot: set<ObjectId>, original: map<ObjectId, nat>, o: ObjectId)
  {
    && HasSlot(slots, bases, o) && o in original && o in copies && Refers(refs, boot, bases, slots, o)
    && copies[o] == Copy(bases.homes[o], OffsetOf(bases.Of(o), slots[o]), Kept(original[o]),
                         Addresses(refs[o], boot, bases, slots))
  }

  lemma SavedIsKept(original: map<ObjectId, nat>, saved: map<ObjectId, nat>, o: ObjectId)
    requires KeepsHash(original, saved, o)
    ensures (if o in saved then FromHashCode(saved[o]) else 0) == Kept(original[o])
  {
    if GetState(original[o]) == HashCode { HashSurvives(original[o]); }
  }

  /** A further copy leaves the others as they are. */
  lemma CopiedStays(copies: map<ObjectId, Copy>, copies': map<ObjectId, Copy>, slots: map<ObjectId, Item>,
                    bases: Bases, refs: seq<seq<Ref>>, boot: set<ObjectId>, original: map<ObjectId, nat>, o: ObjectId,
                    p: ObjectId)
    requires Copied(copies, slots, bases, refs, boot, original, p)
    requires Copied(copies', slots, bases, refs, boot, original, o)
    requires copies' == copies[o := copies'[o]]
    ensures Copied(copies', slots, bases, refs, boot, original, p)
  {
  }

  /** Everything that the references of object o lead to has its image offset in its lock word. */
  lemma TargetsUnbinned(words: map<ObjectId, nat>, slots: map<ObjectId, Item>, bases: Bases, refs: seq<seq<Ref>>,
                        boot: set<ObjectId>, objects: seq<ObjectId>, o: ObjectId)
    requires forall p :: p in objects ==> Unbinned(words, slots, bases, p)
    requires forall p :: p in slots ==> p in objects
    requires Refers(refs, boot, bases, slots, o)
    ensures forall f :: 0 <= f < |refs[o]| && refs[o][f].To? && refs[o][f].target !in boot ==>
              Unbinned(words, slots, bases, refs[o][f].target)
  {
    forall f | 0 <= f < |refs[o]| && refs[o][f].To? && refs[o][f].target !in boot
      ensures Unbinned(words, slots, bases, refs[o][f].target)
    {
      assert Leads(refs[o][f], boot, bases, slots);
    }
  }

  /** CopyAndFixupObject for one object of many. */
  method CopyOne(heap: ObjectHeap, ghost objects: seq<ObjectId>, o: ObjectId, slots: map<ObjectId, Item>, bases: Bases,
                 refs: seq<seq<Ref>>, boot: set<ObjectId>, ghost original: map<ObjectId, nat>)
    requires o in objects && forall p :: p in objects ==> Unbinned(heap.words, slots, bases, p)
    requires forall p :: p in slots ==> p in objects
    requires KeepsHash(original, heap.saved, o) && Refers(refs, boot, bases, slots, o)
    modifies heap`copies
    ensures Copied(heap.copies, slots, bases, refs, boot, original, o)
    ensures heap.copies == old(heap.copies)[o := heap.copies[o]]
  {
    SavedIsKept(original, heap.saved, o);
    TargetsUnbinned(heap.words, slots, bases, refs, boot, objects, o);
    heap.CopyObject(o, refs[o], boot, bases, slots);
  }

  /** CopyAndFixupObject for every object. */
  method CopyAll(heap: ObjectHeap, objects: seq<ObjectId>, slots: map<ObjectId, Item>, bases: Bases,
                 refs: seq<seq<Ref>>, boot: set<ObjectId>, ghost original: map<ObjectId, nat>)
    requires forall o :: o in objects ==> Unbinned(heap.words, slots, bases, o)
    requires forall o :: o in slots ==> o in objects
    requires forall o :: o in objects ==> KeepsHash(original, heap.saved, o)
    requires forall o :: o in objects ==> Refers(refs, boot, bases, slots, o)
    modifies heap`copies
    ensures forall o :: o in objects ==> Copied(heap.copies, slots, bases, refs, boot, original, o)
  {
    for k := 0 to |objects|
      invariant forall i :: 0 <= i < k ==> Copied(heap.copies, slots, bases, refs, boot, original, objects[i])
    {
      var o := objects[k];
      assert o in objects;
      ghost var copies := heap.copies;
      CopyOne(heap, objects, o, slots, bases, refs, boot, original);
      forall i | 0 <= i < k ensures Copied(heap.copies, slots, bases, refs, boot, original, objects[i]) {
        CopiedStays(copies, heap.copies, slots, bases, refs, boot, original, o, objects[i]);
      }
    }
  }

  /** CopyAndFixupObjects. */
  method CopyObjects(heap: ObjectHeap, objects: seq<ObjectId>, slots: map<ObjectId, Item>, bases: Bases,
                     refs: seq<seq<Ref>>, boot: set<ObjectId>, ghost original: map<ObjectId, nat>)
    requires forall o :: o in objects ==> Unbinned(heap.words, slots, bases, o)
    requires forall o :: o in slots ==> o in objects
    requires forall o :: o in objects ==> KeepsHash(original, heap.saved, o)
    requires forall o :: o in objects ==> Refers(refs, boot, bases, slots, o)
    requires forall o :: o in heap.saved ==> o in objects
    modifies heap
    ensures heap.saved == map[]
    ensures forall o :: o in objects ==> Copied(heap.copies, slots, bases, refs, boot, original, o)
    ensures forall o :: o in objects ==> HashKept(original, heap.words, o)
  {
    CopyAll(heap, objects, slots, bases, refs, boot, original);
    ghost var words, saved := heap.words, heap.saved;
    forall o | o in saved ensures o in words { assert Unbinned(words, slots, bases, o); }
    heap.RestoreHashes();
    forall o | o in objects ensures HashKept(original, heap.words, o) {
      assert Unbinned(words, slots, bases, o) && KeepsHash(original, saved, o);
      SavedIsKept(original, saved, o);
    }
  }

  /** The lock words over a whole run: every object is copied to the offset of its slot, copies keep the hash codes and
      refer to each other, and the originals get their hash codes back.  The run fails exactly if an object is
      locked. */
  method WriteObjects(heap: ObjectHeap, objects: seq<ObjectId>, slots: map<ObjectId, Item>, bases: Bases,
                      refs: seq<seq<Ref>>, boot: set<ObjectId>)
    returns (ok: bool)
    requires Distinct(objects) && heap.saved == map[]
    requires forall o :: o in objects ==> HasSlot(slots, bases, o)
    requires forall o :: o in slots ==> o in objects
    requires forall o :: o in objects ==> Refers(refs, boot, bases, slots, o)
    requires forall o :: o in objects ==> Copyable(heap.words, o)
    modifies heap
    ensures ok <==> forall o :: o in objects ==> LockFree(old(heap.words), o)
    ensures ok ==> heap.saved == map[]
    ensures ok ==> forall o :: o in objects ==> Copied(heap.copies, slots, bases, refs, boot, old(heap.words), o)
    ensures ok ==> forall o :: o in objects ==> HashKept(old(heap.words), heap.words, o)
  {
    ghost var original := heap.words;
    forall o | o in objects ensures Copyable(original, o) && HasSlot(slots, bases, o) {}
    ok := AssignSlots(heap, objects, slots);
    if ok {
      forall o | o in objects ensures KeepsHash(original, heap.saved, o) {
        assert Copyable(original, o) && LockFree(original, o);
        assert Slotted(original, heap.words, heap.saved, slots, o);
      }
      UnbinObjects(heap, objects, slots, bases, original);
      CopyObjects(heap, objects, slots, bases, refs, boot, original);
    }
  }
}
