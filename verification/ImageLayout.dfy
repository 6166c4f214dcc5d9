/** The images from the roots to the copies of the objects: worklist, slots, bins, addresses, lock words and
    references together (compiler/image_writer.cc CalculateNewObjectOffsets and CopyAndFixupObjects). */
module ImageLayout {
  import opened Alignment
  import opened ImageBins
  import opened ImageChain
  import opened ImageInfos
  import opened ImageObjects
  import opened ImageWorklist
  import opened LockWords
  import opened NativeRelocations
  import opened ObjectHeaps

  /** What the layout needs to know of an object. */
  datatype Shape = Shape(kind: ObjectKind, size: nat)

  /** Object o has the slot of item at[o], which is large enough for it. */
  ghost predicate SlotOf(items: seq<Item>, slots: map<ObjectId, Item>, at: map<ObjectId, nat>,
                         shapes: map<ObjectId, Shape>, o: ObjectId)
  {
    && o in slots && o in at && at[o] < |items| && items[at[o]] == slots[o]
    && o in shapes && slots[o].size == RoundUp(shapes[o].size, 8) && slots[o].bin == BinOf(shapes[o].kind)
  }

  /** Different objects have different items. */
  ghost predicate OwnItems(at: map<ObjectId, nat>) {
    forall o, p :: o in at && p in at && o != p ==> at[o] != at[p]
  }

  predicate Shaped(objects: seq<ObjectId>, shapes: map<ObjectId, Shape>) {
    forall o :: o in objects ==> o in shapes
  }

  /** The bytes that the first n objects take, in all and in one bin. */
  function Bytes(objects: seq<ObjectId>, shapes: map<ObjectId, Shape>, n: nat): nat
    requires n <= |objects| && Shaped(objects, shapes)
  {
    if n == 0 then 0 else Bytes(objects, shapes, n - 1) + RoundUp(shapes[objects[n - 1]].size, 8)
  }

  function BinBytes(objects: seq<ObjectId>, shapes: map<ObjectId, Shape>, bin: nat, n: nat): nat
    requires n <= |objects| && Shaped(objects, shapes)
  {
    if n == 0 then 0
    else BinBytes(objects, shapes, bin, n - 1) +
         if BinOf(shapes[objects[n - 1]].kind) == bin then RoundUp(shapes[objects[n - 1]].size, 8) else 0
  }

  /** The place in its bin that object i will get, if the bins hold `sizes` bytes already. */
  function IndexOf(sizes: seq<nat>, objects: seq<ObjectId>, shapes: map<ObjectId, Shape>, i: nat): nat
    requires |sizes| == BINS && i < |objects| && Shaped(objects, shapes)
  {
    sizes[BinOf(shapes[objects[i]].kind)] + BinBytes(objects, shapes, BinOf(shapes[objects[i]].kind), i)
  }

  /** The lock words can hold every slot and every offset. */
  predicate Room(sizes: seq<nat>, imageEnd: nat, objects: seq<ObjectId>, shapes: map<ObjectId, Shape>) {
    && |sizes| == BINS && Shaped(objects, shapes) && imageEnd + Bytes(objects, shapes, |objects|) < TWO_32
    && forall i :: 0 <= i < |objects| ==> IndexOf(sizes, objects, shapes, i) < TWO_27
  }

  /** Object i has its slot, at its place in the bin. */
  ghost predicate SlotAt(items: seq<Item>, slots: map<ObjectId, Item>, at: map<ObjectId, nat>,
                         shapes: map<ObjectId, Shape>, sizes: seq<nat>, objects: seq<ObjectId>, i: nat)
    requires |sizes| == BINS && i < |objects| && Shaped(objects, shapes)
  {
    SlotOf(items, slots, at, shapes, objects[i]) && slots[objects[i]].index == IndexOf(sizes, objects, shapes, i)
  }

  /** Bin b holds what it held before and the first n objects that belong there. */
  ghost predicate BinHolds(sizes: seq<nat>, sizes': seq<nat>, objects: seq<ObjectId>, shapes: map<ObjectId, Shape>,
                           n: nat, b: nat)
    requires n <= |objects| && Shaped(objects, shapes)
  {
    |sizes| == |sizes'| == BINS && b < BINS && sizes'[b] == sizes[b] + BinBytes(objects, shapes, b, n)
  }

  /** The first n objects have their slots, and the bins and the tables know of them. */
  ghost predicate Given(items: seq<Item>, slots: map<ObjectId, Item>, at: map<ObjectId, nat>,
                        shapes: map<ObjectId, Shape>, sizes: seq<nat>, sizes': seq<nat>, objects: seq<ObjectId>, n: nat)
    requires |sizes| == BINS && n <= |objects| && Shaped(objects, shapes)
  {
    && (forall i {:trigger SlotAt(items, slots, at, shapes, sizes, objects, i)} :: 0 <= i < n ==>
          SlotAt(items, slots, at, shapes, sizes, objects, i))
    && (forall b {:trigger BinHolds(sizes, sizes', objects, shapes, n, b)} :: 0 <= b < BINS ==>
          BinHolds(sizes, sizes', objects, shapes, n, b))
    && (forall o :: o in slots <==> o in objects[..n]) && at.Keys == slots.Keys
    && (forall o :: o in at ==> at[o] < |items|) && OwnItems(at)
  }

  /** One more object. */
  lemma GiveNext(items: seq<Item>, slots: map<ObjectId, Item>, at: map<ObjectId, nat>, shapes: map<ObjectId, Shape>,
                 sizes: seq<nat>, sizes': seq<nat>, objects: seq<ObjectId>, n: nat, slot: Item)
    requires |sizes| == |sizes'| == BINS && n < |objects| && Distinct(objects) && Shaped(objects, shapes)
    requires Given(items, slots, at, shapes, sizes, sizes', objects, n)
    requires var shape := shapes[objects[n]];
             slot == Item(BinOf(shape.kind), sizes'[BinOf(shape.kind)], RoundUp(shape.size, 8))
    ensures Given(items + [slot], slots[objects[n] := slot], at[objects[n] := |items|], shapes, sizes,
                  sizes'[slot.bin := sizes'[slot.bin] + slot.size], objects, n + 1)
  {
    var o := objects[n];
    var items', slots', at' := items + [slot], slots[o := slot], at[o := |items|];
    var sizes'' := sizes'[slot.bin := sizes'[slot.bin] + slot.size];
    assert BinHolds(sizes, sizes', objects, shapes, n, slot.bin);
    forall i {:trigger SlotAt(items', slots', at', shapes, sizes, objects, i)} | 0 <= i < n + 1
      ensures SlotAt(items', slots', at', shapes, sizes, objects, i)
    {
      assert o in objects;
      if i < n { assert SlotAt(items, slots, at, shapes, sizes, objects, i); }
    }
    forall b {:trigger BinHolds(sizes, sizes'', objects, shapes, n + 1, b)} | 0 <= b < BINS
      ensures BinHolds(sizes, sizes'', objects, shapes, n + 1, b)
    {
      assert BinHolds(sizes, sizes', objects, shapes, n, b);
    }
    assert objects[..n + 1] == objects[..n] + [o];
  }

  /** AssignImageBinSlot for the objects in the order in which the worklist meets them. */
  method AssignObjects(info: ImageInfo, objects: seq<ObjectId>, shapes: map<ObjectId, Shape>)
    returns (slots: map<ObjectId, Item>, ghost at: map<ObjectId, nat>)
    requires info.Valid() && Distinct(objects) && Shaped(objects, shapes)
    modifies info`sizes, info`items, info`imageEnd
    ensures info.Valid() && old(info.items) <= info.items
    ensures info.imageEnd == old(info.imageEnd) + Bytes(objects, shapes, |objects|)
    ensures Given(info.items, slots, at, shapes, old(info.sizes), info.sizes, objects, |objects|)
  {
    slots, at := map[], map[];
    assert forall b {:trigger BinHolds(info.sizes, info.sizes, objects, shapes, 0, b)} :: 0 <= b < BINS ==>
             BinHolds(info.sizes, info.sizes, objects, shapes, 0, b);
    for k := 0 to |objects|
      invariant info.Valid() && old(info.items) <= info.items
      invariant info.imageEnd == old(info.imageEnd) + Bytes(objects, shapes, k)
      invariant Given(info.items, slots, at, shapes, old(info.sizes), info.sizes, objects, k)
    {
      var o := objects[k];
      assert o in objects;
      ghost var items, sizes := info.items, info.sizes;
      var slot := info.AssignObject(shapes[o].kind, shapes[o].size);
      GiveNext(items, slots, at, shapes, old(info.sizes), sizes, objects, k, slot);
      slots, at := slots[o := slot], at[o := |items|];
    }
  }

  /** One image with all its bins in place. */
  datatype Placement = Placement(target: Target, items: seq<Item>, sizes: seq<nat>, begin: nat, offsets: seq<nat>,
                                 size: nat)
  {
    ghost predicate Ok() {
      && Placed(target, items, sizes, begin, offsets) && size % PAGE_SIZE == 0
      && forall b :: 0 <= b < BINS ==> offsets[b] + sizes[b] <= size
    }
  }

  /** An object whose slot is not too far into its bin fits into a lock word. */
  lemma SlotFits(r: Placement, i: nat)
    requires r.Ok() && i < |r.items| && r.items[i].bin < MIRROR_BINS && r.items[i].index < TWO_27
    requires r.offsets[ART_FIELD] < TWO_32
    ensures Fits(r.items[i], r.offsets)
  {
    ItemInBin(r.target, r.items, r.sizes, r.begin, r.offsets, i);
    NativeBehindObjects(r.target, r.items, r.sizes, r.begin, r.offsets, i);
    assert PackedAt(r.target, r.items, i);
    UsedAligned(r.target, r.items, r.items[i].bin, i);
  }

  /** The slots of one image's objects, the places of its bins and its size. */
  method LayOutImage(info: ImageInfo, objects: seq<ObjectId>, shapes: map<ObjectId, Shape>, internTable: nat,
                     classTable: nat)
    returns (r: Placement, s: Sections, slots: map<ObjectId, Item>, ghost at: map<ObjectId, nat>)
    requires info.Valid() && Distinct(objects) && Room(info.sizes, info.imageEnd, objects, shapes)
    modifies info
    ensures r.Ok() && r == Placement(info.target, info.items, info.sizes, info.begin, info.offsets, info.imageSize)
    ensures s.Ordered() && s.objects == Range(0, r.offsets[ART_FIELD]) && OwnItems(at) && at.Keys == slots.Keys
    ensures forall o :: o in slots <==> o in objects
    ensures forall o :: o in objects ==> SlotOf(r.items, slots, at, shapes, o) && Fits(slots[o], r.offsets)
  {
    ghost var sizes := info.sizes;
    slots, at := AssignObjects(info, objects, shapes);
    s := info.PlaceBins(internTable, classTable);
    r := Placement(info.target, info.items, info.sizes, info.begin, info.offsets, info.imageSize);
    forall b | 0 <= b < BINS ensures r.offsets[b] + r.sizes[b] <= r.size { assert Holds(s, r.sizes, r.offsets, b); }
    assert objects[..|objects|] == objects;
    forall o | o in objects ensures SlotOf(r.items, slots, at, shapes, o) && Fits(slots[o], r.offsets) {
      var i :| 0 <= i < |objects| && objects[i] == o;
      assert SlotAt(r.items, slots, at, shapes, sizes, objects, i);
      SlotFits(r, at[o]);
    }
  }

  /** The objects of image k, in the order in which they were found. */
  function ObjectsOf(objects: seq<ObjectId>, homes: map<ObjectId, nat>, k: nat): (r: seq<ObjectId>)
    ensures forall o :: o in r <==> o in objects && o in homes && homes[o] == k
  {
    if objects == [] then []
    else
      var front, last := ObjectsOf(objects[..|objects| - 1], homes, k), objects[|objects| - 1];
      assert objects == objects[..|objects| - 1] + [last];
      if last in homes && homes[last] == k then front + [last] else front
  }

  lemma {:induction false} ObjectsOfDistinct(objects: seq<ObjectId>, homes: map<ObjectId, nat>, k: nat)
    requires Distinct(objects)
    ensures Distinct(ObjectsOf(objects, homes, k))
  {
    if objects == [] {
    } else {
      ObjectsOfDistinct(objects[..|objects| - 1], homes, k);
    }
  }

  /** Object o has its own slot in its image. */
  ghost predicate HasPlace(rs: seq<Placement>, homes: map<ObjectId, nat>, slots: map<ObjectId, Item>,
                           at: map<ObjectId, nat>, shapes: map<ObjectId, Shape>, o: ObjectId)
  {
    && o in homes && homes[o] < |rs| && SlotOf(rs[homes[o]].items, slots, at, shapes, o)
    && Fits(slots[o], rs[homes[o]].offsets)
  }

  /** Different objects of one image have different items. */
  ghost predicate OwnItemsIn(homes: map<ObjectId, nat>, at: map<ObjectId, nat>) {
    forall o, p :: o in at && p in at && o in homes && p in homes && o != p && homes[o] == homes[p] ==> at[o] != at[p]
  }

  /** All objects have their own slots in images whose bins are in place. */
  ghost predicate AllSlotted(rs: seq<Placement>, homes: map<ObjectId, nat>, slots: map<ObjectId, Item>,
                             at: map<ObjectId, nat>, shapes: map<ObjectId, Shape>, objects: seq<ObjectId>)
  {
    && (forall k :: 0 <= k < |rs| ==> rs[k].Ok()) && OwnItemsIn(homes, at)
    && (forall o {:trigger HasPlace(rs, homes, slots, at, shapes, o)} :: o in objects ==>
          HasPlace(rs, homes, slots, at, shapes, o))
  }

  /** The images may still change, each on its own. */
  ghost predicate Infos(infos: seq<ImageInfo>) {
    forall i, j :: 0 <= i < j < |infos| ==> infos[i] != infos[j]
  }

  ghost predicate RoomIn(info: ImageInfo, objects: seq<ObjectId>, shapes: map<ObjectId, Shape>)
    reads info
  {
    info.Valid() && Room(info.sizes, info.imageEnd, objects, shapes)
  }

  /** The images below k are done. */
  ghost predicate SlottedBelow(rs: seq<Placement>, homes: map<ObjectId, nat>, slots: map<ObjectId, Item>,
                               at: map<ObjectId, nat>, shapes: map<ObjectId, Shape>, objects: seq<ObjectId>, k: nat)
  {
    && (forall j :: 0 <= j < |rs| ==> rs[j].Ok()) && OwnItemsIn(homes, at) && at.Keys == slots.Keys
    && (forall o :: o in slots <==> o in objects && o in homes && homes[o] < k)
    && (forall o {:trigger HasPlace(rs, homes, slots, at, shapes, o)} :: o in slots ==>
          HasPlace(rs, homes, slots, at, shapes, o))
  }

  /** One more image. */
  lemma AddImage(rs: seq<Placement>, homes: map<ObjectId, nat>, slots: map<ObjectId, Item>, at: map<ObjectId, nat>,
                 shapes: map<ObjectId, Shape>, objects: seq<ObjectId>, r: Placement, more: map<ObjectId, Item>,
                 moreAt: map<ObjectId, nat>)
    requires SlottedBelow(rs, homes, slots, at, shapes, objects, |rs|) && r.Ok()
    requires OwnItems(moreAt) && moreAt.Keys == more.Keys
    requires forall o :: o in more <==> o in ObjectsOf(objects, homes, |rs|)
    requires forall o :: o in more ==> SlotOf(r.items, more, moreAt, shapes, o) && Fits(more[o], r.offsets)
    ensures SlottedBelow(rs + [r], homes, slots + more, at + moreAt, shapes, objects, |rs| + 1)
  {
    var rs', slots', at' := rs + [r], slots + more, at + moreAt;
    forall o {:trigger HasPlace(rs', homes, slots', at', shapes, o)} | o in slots'
      ensures HasPlace(rs', homes, slots', at', shapes, o)
    {
      if o !in more { assert HasPlace(rs, homes, slots, at, shapes, o); }
    }
  }

  /** The slots of the objects of all images. */
  method LayOutImages(infos: seq<ImageInfo>, objects: seq<ObjectId>, homes: map<ObjectId, nat>,
                      shapes: map<ObjectId, Shape>, internTables: seq<nat>, classTables: seq<nat>)
    returns (rs: seq<Placement>, slots: map<ObjectId, Item>, ghost at: map<ObjectId, nat>)
    requires Infos(infos) && |internTables| == |classTables| == |infos| && Distinct(objects)
    requires forall o :: o in objects ==> o in homes && homes[o] < |infos|
    requires forall k :: 0 <= k < |infos| ==> RoomIn(infos[k], ObjectsOf(objects, homes, k), shapes)
    modifies set k | 0 <= k < |infos| :: infos[k]
    ensures |rs| == |infos| && AllSlotted(rs, homes, slots, at, shapes, objects)
    ensures forall o :: o in slots <==> o in objects
  {
    rs, slots, at := [], map[], map[];
    for k := 0 to |infos|
      invariant |rs| == k && SlottedBelow(rs, homes, slots, at, shapes, objects, k)
      invariant forall j :: k <= j < |infos| ==> RoomIn(infos[j], ObjectsOf(objects, homes, j), shapes)
    {
      var mine := ObjectsOf(objects, homes, k);
      ObjectsOfDistinct(objects, homes, k);
      var r, s, more;
      ghost var moreAt;
      r, s, more, moreAt := LayOutImage(infos[k], mine, shapes, internTables[k], classTables[k]);
      AddImage(rs, homes, slots, at, shapes, objects, r, more, moreAt);
      rs, slots, at := rs + [r], slots + more, at + moreAt;
    }
  }

  /** What the offset and address lookups see of the images. */
  function BasesOf(rs: seq<Placement>, infos: seq<Info>, homes: map<ObjectId, nat>): Bases {
    Bases(homes, seq(|rs|, k requires 0 <= k < |rs| => rs[k].offsets),
          seq(|infos|, k requires 0 <= k < |infos| => infos[k].imageBegin))
  }

  /** Every image has its address range. */
  ghost predicate InMemory(rs: seq<Placement>, infos: seq<Info>, base: nat) {
    && |infos| == |rs| && ImagesPlaced(infos, base)
    && forall k :: 0 <= k < |rs| ==> infos[k].imageSize == rs[k].size
  }

  lemma PlaceIsSlot(rs: seq<Placement>, infos: seq<Info>, homes: map<ObjectId, nat>, slots: map<ObjectId, Item>,
                    at: map<ObjectId, nat>, shapes: map<ObjectId, Shape>, o: ObjectId)
    requires |infos| == |rs| && HasPlace(rs, homes, slots, at, shapes, o)
    ensures HasSlot(slots, BasesOf(rs, infos, homes), o)
  {
  }

  /** Rewritten references lead somewhere. */
  lemma AllRefer(h: Heap, roots: seq<Ref>, refs: seq<seq<Ref>>, w: Work, table: map<string, ObjectId>,
                 home: map<string, nat>, bases: Bases, slots: map<ObjectId, Item>, o: ObjectId)
    requires h.Valid() && Traversed(h, roots, refs, w, table, home) && o in w.order
    requires forall p :: p in w.order ==> HasSlot(slots, bases, p)
    ensures Refers(refs, h.boot, bases, slots, o)
  {
    assert SlotOk(h, roots, w.slots, table, o);
    var done := w.slots.Keys + if h.appImage then (set b | b in h.boot && b < |h.refs|) else {};
    forall f | 0 <= f < |refs[o]| ensures Leads(refs[o][f], h.boot, bases, slots) {
      RewrittenIsSettled(h, roots, refs, w.slots, w.order, table, home, done, o, f);
    }
  }

  /** The slots, bins and address ranges of all images. */
  method PlaceAll(h: Heap, refs: seq<seq<Ref>>, w: Work, infos: seq<ImageInfo>, images: Images,
                  shapes: map<ObjectId, Shape>, internTables: seq<nat>, classTables: seq<nat>, ghost roots: seq<Ref>,
                  ghost table: map<string, ObjectId>, ghost home: map<string, nat>)
    returns (rs: seq<Placement>, slots: map<ObjectId, Item>, bases: Bases, ghost at: map<ObjectId, nat>)
    requires h.Valid() && Traversed(h, roots, refs, w, table, home)
    requires Infos(infos) && |internTables| == |classTables| == |infos| == |images.infos| == h.images
    requires forall k :: 0 <= k < |infos| ==> RoomIn(infos[k], ObjectsOf(w.order, w.slots, k), shapes)
    modifies set k | 0 <= k < |infos| :: infos[k]
    modifies images
    ensures AllSlotted(rs, w.slots, slots, at, shapes, w.order) && InMemory(rs, images.infos, images.base)
    ensures bases == BasesOf(rs, images.infos, w.slots) && forall o :: o in slots <==> o in w.order
    ensures forall o :: o in w.order ==> HasSlot(slots, bases, o)
    ensures forall o :: o in w.order ==> Refers(refs, h.boot, bases, slots, o)
  {
    forall o | o in w.order ensures o in w.slots && w.slots[o] < |infos| {
      assert SlotOk(h, roots, w.slots, table, o);
    }
    rs, slots, at := LayOutImages(infos, w.order, w.slots, shapes, internTables, classTables);
    images.PlaceImages(seq(|rs|, k requires 0 <= k < |rs| => rs[k].size));
    bases := BasesOf(rs, images.infos, w.slots);
    forall o | o in w.order ensures HasSlot(slots, bases, o) {
      assert HasPlace(rs, w.slots, slots, at, shapes, o);
      PlaceIsSlot(rs, images.infos, w.slots, slots, at, shapes, o);
    }
    forall o | o in w.order ensures Refers(refs, h.boot, bases, slots, o) {
      AllRefer(h, roots, refs, w, table, home, bases, slots, o);
    }
  }

  /** The images after the traversal: slots, bins, addresses and copies.  Unless an object is locked, every object is
      copied to its own place with its hash code, and its references hold the addresses of their targets' places. */
  method WriteImages(h: Heap, refs: seq<seq<Ref>>, w: Work, infos: seq<ImageInfo>, images: Images, heap: ObjectHeap,
                     shapes: map<ObjectId, Shape>, internTables: seq<nat>, classTables: seq<nat>,
                     ghost roots: seq<Ref>, ghost table: map<string, ObjectId>, ghost home: map<string, nat>)
    returns (ok: bool, rs: seq<Placement>, slots: map<ObjectId, Item>, bases: Bases, ghost at: map<ObjectId, nat>)
    requires h.Valid() && Traversed(h, roots, refs, w, table, home)
    requires Infos(infos) && |internTables| == |classTables| == |infos| == |images.infos| == h.images
    requires forall k :: 0 <= k < |infos| ==> RoomIn(infos[k], ObjectsOf(w.order, w.slots, k), shapes)
    requires heap.saved == map[] && forall o :: o in w.order ==> Copyable(heap.words, o)
    modifies set k | 0 <= k < |infos| :: infos[k]
    modifies images, heap
    ensures AllSlotted(rs, w.slots, slots, at, shapes, w.order) && InMemory(rs, images.infos, images.base)
    ensures bases == BasesOf(rs, images.infos, w.slots) && forall o :: o in slots <==> o in w.order
    ensures ok <==> forall o :: o in w.order ==> LockFree(old(heap.words), o)
    ensures ok ==> forall o :: o in w.order ==>
              Copied(heap.copies, slots, bases, refs, h.boot, old(heap.words), o)
    ensures ok ==> forall o :: o in w.order ==> HashKept(old(heap.words), heap.words, o)
  {
    rs, slots, bases, at := PlaceAll(h, refs, w, infos, images, shapes, internTables, classTables, roots, table, home);
    ok := WriteObjects(heap, w.order, slots, bases, refs, h.boot);
  }

  /** A reference in a copy is null, leads into the boot image, or holds the address of the copy of its target. */
  lemma ReferenceFindsCopy(h: Heap, refs: seq<seq<Ref>>, w: Work, copies: map<ObjectId, Copy>,
                           slots: map<ObjectId, Item>, bases: Bases, original: map<ObjectId, nat>, o: ObjectId, f: nat)
    requires forall p :: p in w.order ==> Copied(copies, slots, bases, refs, h.boot, original, p)
    requires (forall p :: p in slots ==> p in w.order) && o in w.order && o < |refs| && f < |refs[o]|
    ensures o in copies && f < |copies[o].refs|
    ensures match refs[o][f]
            case Null => copies[o].refs[f] == NullAddress
            case To(t) =>
              if t in h.boot then copies[o].refs[f] == InBootImage(t)
              else && t in w.order && t in copies && copies[t].image < |bases.begins|
                   && copies[o].refs[f] == InImage(bases.begins[copies[t].image] + copies[t].offset)
  {
    assert Copied(copies, slots, bases, refs, h.boot, original, o);
    assert Leads(refs[o][f], h.boot, bases, slots);
    if refs[o][f].To? && refs[o][f].target !in h.boot {
      assert Copied(copies, slots, bases, refs, h.boot, original, refs[o][f].target);
    }
  }

  /** The address is that of object t's copy. */
  ghost predicate LeadsToCopy(copies: map<ObjectId, Copy>, begins: seq<nat>, a: Address, t: ObjectId) {
    t in copies && copies[t].image < |begins| && a == InImage(begins[copies[t].image] + copies[t].offset)
  }

  /** Field f of the copy of object o means what it did in the heap: it is null, the same object of the boot image, or
      the copy of the same object; only for a string it may be another string of the same content. */
  ghost predicate FieldCopied(h: Heap, copies: map<ObjectId, Copy>, begins: seq<nat>, o: ObjectId, f: nat)
    requires h.Valid() && o < |h.refs| && f < |h.refs[o]|
  {
    && o in copies && |copies[o].refs| == |h.refs[o]|
    && match h.refs[o][f]
       case Null => copies[o].refs[f] == NullAddress
       case To(t) =>
         if t in h.boot then copies[o].refs[f] == InBootImage(t)
         else if h.kinds[t].Other? then LeadsToCopy(copies, begins, copies[o].refs[f], t)
         else exists s {:trigger h.kinds[s]} ::
                && 0 <= s < |h.kinds| && h.kinds[s] == h.kinds[t]
                && (copies[o].refs[f] == InBootImage(s) || LeadsToCopy(copies, begins, copies[o].refs[f], s))
  }

  /** The copy of object o has its hash code, or a clear lock word. */
  ghost predicate WordCopied(copies: map<ObjectId, Copy>, original: map<ObjectId, nat>, o: ObjectId) {
    o in copies && o in original && copies[o].word == if GetState(original[o]) == HashCode then original[o] else 0
  }

  /** The copies of all objects that can be reached have the fields of the originals. */
  ghost predicate GraphCopied(h: Heap, roots: seq<Ref>, copies: map<ObjectId, Copy>, begins: seq<nat>)
    requires h.Valid()
  {
    forall o, f {:trigger FieldCopied(h, copies, begins, o, f)} ::
      0 <= o < |h.refs| && 0 <= f < |h.refs[o]| && Reachable(h, roots, o) ==> FieldCopied(h, copies, begins, o, f)
  }

  lemma CopiesKeepGraph(h: Heap, roots: seq<Ref>, refs: seq<seq<Ref>>, w: Work, table: map<string, ObjectId>,
                        home: map<string, nat>, copies: map<ObjectId, Copy>, slots: map<ObjectId, Item>, bases: Bases,
                        original: map<ObjectId, nat>)
    requires h.Valid() && Traversed(h, roots, refs, w, table, home)
    requires forall p :: p in w.order ==> Copied(copies, slots, bases, refs, h.boot, original, p)
    requires forall p :: p in slots ==> p in w.order
    ensures GraphCopied(h, roots, copies, bases.begins)
  {
    forall o, f {:trigger FieldCopied(h, copies, bases.begins, o, f)}
      | 0 <= o < |h.refs| && 0 <= f < |h.refs[o]| && Reachable(h, roots, o)
      ensures FieldCopied(h, copies, bases.begins, o, f)
    {
      RewrittenKeepsMeaning(h, roots, refs, w, table, home, o, f);
      assert o in w.order && Copied(copies, slots, bases, refs, h.boot, original, o);
      ReferenceFindsCopy(h, refs, w, copies, slots, bases, original, o, f);
    }
  }

  /** Whether the lock words have room for the slots and the offsets of all objects. */
  method HasRoom(infos: seq<ImageInfo>, objects: seq<ObjectId>, homes: map<ObjectId, nat>,
                 shapes: map<ObjectId, Shape>)
    returns (fits: bool)
    requires forall k :: 0 <= k < |infos| ==> infos[k].Valid()
    ensures fits <==> forall k :: 0 <= k < |infos| ==> RoomIn(infos[k], ObjectsOf(objects, homes, k), shapes)
  {
    for k := 0 to |infos|
      invariant forall j :: 0 <= j < k ==> RoomIn(infos[j], ObjectsOf(objects, homes, j), shapes)
    {
      if !Room(infos[k].sizes, infos[k].imageEnd, ObjectsOf(objects, homes, k), shapes) {
        return false;
      }
    }
    return true;
  }

  /** The images are written: every object that can be reached has its own place in them. */
  ghost predicate ImagesWritten(h: Heap, roots: seq<Ref>, w: Work, rs: seq<Placement>, infos: seq<Info>, base: nat,
                                slots: map<ObjectId, Item>, bases: Bases, at: map<ObjectId, nat>,
                                shapes: map<ObjectId, Shape>)
    requires h.Valid()
  {
    && AllSlotted(rs, w.slots, slots, at, shapes, w.order) && InMemory(rs, infos, base)
    && bases == BasesOf(rs, infos, w.slots)
    && forall o :: o in slots <==> Reachable(h, roots, o)
  }

  /** The images of a traversal that has reached every live object. */
  method WriteReached(h: Heap, refs: seq<seq<Ref>>, w: Work, infos: seq<ImageInfo>, images: Images, heap: ObjectHeap,
                      shapes: map<ObjectId, Shape>, internTables: seq<nat>, classTables: seq<nat>,
                      ghost roots: seq<Ref>, ghost table: map<string, ObjectId>, ghost home: map<string, nat>)
    returns (fits: bool, ok: bool, rs: seq<Placement>, slots: map<ObjectId, Item>, bases: Bases,
             ghost at: map<ObjectId, nat>)
    requires h.Valid() && Traversed(h, roots, refs, w, table, home)
    requires Infos(infos) && |internTables| == |classTables| == |infos| == |images.infos| == h.images
    requires (forall k :: 0 <= k < |infos| ==> infos[k].Valid()) && heap.saved == map[]
    requires forall o :: o < |h.kinds| && o !in h.boot ==> o in shapes && Copyable(heap.words, o)
    modifies set k | 0 <= k < |infos| :: infos[k]
    modifies images, heap
    ensures fits <==> forall k :: 0 <= k < |infos| ==>
              Room(old(infos[k].sizes), old(infos[k].imageEnd), ObjectsOf(w.order, w.slots, k), shapes)
    ensures fits ==> ImagesWritten(h, roots, w, rs, images.infos, images.base, slots, bases, at, shapes)
    ensures fits ==> (ok <==> forall o :: Reachable(h, roots, o) ==> LockFree(old(heap.words), o))
    ensures fits && ok ==> GraphCopied(h, roots, heap.copies, bases.begins)
    ensures fits && ok ==>
              forall o :: Reachable(h, roots, o) ==>
                && Copied(heap.copies, slots, bases, refs, h.boot, old(heap.words), o)
                && WordCopied(heap.copies, old(heap.words), o)
                && HashKept(old(heap.words), heap.words, o)
  {
    fits := HasRoom(infos, w.order, w.slots, shapes);
    if !fits {
      return false, false, [], map[], Bases(map[], [], []), map[];
    }
    forall o | o in w.order ensures Copyable(heap.words, o) { assert SlotOk(h, roots, w.slots, table, o); }
    ok, rs, slots, bases, at := WriteImages(h, refs, w, infos, images, heap, shapes, internTables, classTables, roots,
                                            table, home);
    assert forall o :: o in w.order <==> Reachable(h, roots, o);
    if ok {
      CopiesKeepGraph(h, roots, refs, w, table, home, heap.copies, slots, bases, old(heap.words));
    }
  }

  /** The whole run, from the roots to the copies.  `reached` is the outcome of the check that every live object has a
      slot, `fits` says whether the lock words have room, and `ok` that no object is locked; the run ends with the first
      that fails.  Otherwise exactly the objects that can be reached are copied, each to its own place, with its hash
      code and with the addresses of its targets' places. */
  method CreateImages(writer: ImageWriter, roots: seq<Ref>, oats: seq<nat>, bootObjects: seq<ObjectId>,
                      live: seq<ObjectId>, infos: seq<ImageInfo>, images: Images, heap: ObjectHeap,
                      shapes: map<ObjectId, Shape>, internTables: seq<nat>, classTables: seq<nat>)
    returns (reached: bool, fits: bool, ok: bool, rs: seq<Placement>, slots: map<ObjectId, Item>, bases: Bases,
             ghost at: map<ObjectId, nat>)
    requires writer.heap.Valid() && writer.refs == writer.heap.refs
    requires |oats| == |roots| && forall i :: 0 <= i < |oats| ==> oats[i] < writer.heap.images
    requires forall i :: 0 <= i < |roots| && roots[i].To? ==> roots[i].target < |writer.heap.kinds|
    requires Distinct(bootObjects)
    requires forall o :: o in bootObjects <==> o in writer.heap.boot && o < |writer.heap.refs|
    requires Infos(infos) && |internTables| == |classTables| == |infos| == |images.infos| == writer.heap.images
    requires (forall k :: 0 <= k < |infos| ==> infos[k].Valid()) && heap.saved == map[]
    requires forall o :: o < |writer.heap.kinds| && o !in writer.heap.boot ==> o in shapes && Copyable(heap.words, o)
    modifies set k | 0 <= k < |infos| :: infos[k]
    modifies writer, images, heap
    ensures Traversed(writer.heap, roots, writer.refs, writer.work, writer.table, writer.home)
    ensures AllGrounded(writer.heap, roots, oats, writer.work.slots)
    ensures reached <==> forall o :: o in live && o !in writer.heap.boot ==> Reachable(writer.heap, roots, o)
    ensures reached ==> (fits <==> forall k :: 0 <= k < |infos| ==>
              Room(old(infos[k].sizes), old(infos[k].imageEnd), ObjectsOf(writer.work.order, writer.work.slots, k),
                   shapes))
    ensures reached && fits ==>
              ImagesWritten(writer.heap, roots, writer.work, rs, images.infos, images.base, slots, bases, at, shapes)
    ensures reached && fits ==>
              (ok <==> forall o :: Reachable(writer.heap, roots, o) ==> LockFree(old(heap.words), o))
    ensures reached && fits && ok ==> GraphCopied(writer.heap, roots, heap.copies, bases.begins)
    ensures reached && fits && ok ==>
              forall o :: Reachable(writer.heap, roots, o) ==>
                && Copied(heap.copies, slots, bases, writer.refs, writer.heap.boot, old(heap.words), o)
                && WordCopied(heap.copies, old(heap.words), o)
                && HashKept(old(heap.words), heap.words, o)
  {
    writer.Traverse(roots, oats, bootObjects);
    reached := writer.EnsureBinSlotsAssigned(live, roots);
    fits, ok, rs, slots, bases, at := false, false, [], map[], Bases(map[], [], []), map[];
    if reached {
      fits, ok, rs, slots, bases, at := WriteReached(writer.heap, writer.refs, writer.work, infos, images, heap, shapes,
                                                     internTables, classTables, roots, writer.table, writer.home);
    }
  }

  /** The address range of object o's copy. */
  ghost function AddressAt(bases: Bases, slots: map<ObjectId, Item>, o: ObjectId): nat
    requires HasSlot(slots, bases, o)
  {
    bases.begins[bases.homes[o]] + OffsetOf(bases.Of(o), slots[o])
  }

  /** A copy lies, aligned, among the objects of its image. */
  lemma CopyInImage(rs: seq<Placement>, infos: seq<Info>, base: nat, homes: map<ObjectId, nat>,
                    slots: map<ObjectId, Item>, at: map<ObjectId, nat>, shapes: map<ObjectId, Shape>,
                    objects: seq<ObjectId>, o: ObjectId)
    requires AllSlotted(rs, homes, slots, at, shapes, objects) && InMemory(rs, infos, base) && base % PAGE_SIZE == 0
    requires o in objects
    ensures HasPlace(rs, homes, slots, at, shapes, o) && HasSlot(slots, BasesOf(rs, infos, homes), o)
    ensures var address, info := AddressAt(BasesOf(rs, infos, homes), slots, o), infos[homes[o]];
            && info.imageBegin + rs[homes[o]].begin <= address && address % 8 == 0
            && address + shapes[o].size <= info.imageBegin + rs[homes[o]].offsets[ART_FIELD]
            && address + shapes[o].size <= info.imageBegin + info.imageSize
  {
    assert HasPlace(rs, homes, slots, at, shapes, o);
    PlaceIsSlot(rs, infos, homes, slots, at, shapes, o);
    var k, r := homes[o], rs[homes[o]];
    assert r.Ok();
    ItemInBin(r.target, r.items, r.sizes, r.begin, r.offsets, at[o]);
    NativeBehindObjects(r.target, r.items, r.sizes, r.begin, r.offsets, at[o]);
    assert ImageAt(infos, base, k);
    BeginsAligned(rs, infos, base, k);
    AddMultiples(infos[k].imageBegin, OffsetOf(r.offsets, slots[o]), 8);
  }

  lemma {:induction false} BeginsAligned(rs: seq<Placement>, infos: seq<Info>, base: nat, k: nat)
    requires InMemory(rs, infos, base) && base % PAGE_SIZE == 0 && k <= |rs|
    requires forall i :: 0 <= i < |rs| ==> rs[i].Ok()
    ensures ImagesEnd(infos, base, k) % PAGE_SIZE == 0 && ImagesEnd(infos, base, k) % 8 == 0
  {
    if k == 0 {
      PageIsEight(base);
    } else {
      BeginsAligned(rs, infos, base, k - 1);
      assert rs[k - 1].Ok();
      AddMultiples(ImagesEnd(infos, base, k - 1), infos[k - 1].imageSize, PAGE_SIZE);
      PageIsEight(ImagesEnd(infos, base, k));
    }
  }

  lemma PageIsEight(x: nat)
    requires x % PAGE_SIZE == 0
    ensures x % 8 == 0
  {
    var k := MultipleOf(x, PAGE_SIZE);
    assert x == (512 * k) * 8;
    MultipleHasNoRemainder(512 * k, 8);
  }

  /** Images in order do not overlap. */
  lemma ImagesApart(infos: seq<Info>, base: nat, i: nat, k: nat)
    requires i < k < |infos| && ImagesPlaced(infos, base)
    ensures infos[i].imageBegin + infos[i].imageSize <= infos[k].imageBegin
  {
    assert ImageAt(infos, base, i) && ImageAt(infos, base, k);
    ImagesEndGrows(infos, base, i + 1, k);
  }

  /** The address of item i of image k. */
  ghost function ItemAddress(rs: seq<Placement>, infos: seq<Info>, k: nat, i: nat): nat
    requires k < |rs| == |infos| && rs[k].Ok() && i < |rs[k].items| && rs[k].items[i].bin < BINS
  {
    infos[k].imageBegin + OffsetOf(rs[k].offsets, rs[k].items[i])
  }

  ghost predicate IsItem(rs: seq<Placement>, k: nat, i: nat) {
    k < |rs| && rs[k].Ok() && i < |rs[k].items| && rs[k].items[i].bin < BINS
  }

  /** Items lie inside their images. */
  lemma ItemInImage(rs: seq<Placement>, infos: seq<Info>, base: nat, k: nat, i: nat)
    requires InMemory(rs, infos, base) && IsItem(rs, k, i)
    ensures infos[k].imageBegin <= ItemAddress(rs, infos, k, i)
    ensures ItemAddress(rs, infos, k, i) + rs[k].items[i].size <= infos[k].imageBegin + infos[k].imageSize
  {
    ItemInBin(rs[k].target, rs[k].items, rs[k].sizes, rs[k].begin, rs[k].offsets, i);
  }

  /** No two items of all images overlap in memory. */
  lemma PlacesApart(rs: seq<Placement>, infos: seq<Info>, base: nat, k: nat, i: nat, l: nat, j: nat)
    requires InMemory(rs, infos, base) && IsItem(rs, k, i) && IsItem(rs, l, j) && (k != l || i != j)
    ensures var x, y := ItemAddress(rs, infos, k, i), ItemAddress(rs, infos, l, j);
            x + rs[k].items[i].size <= y || y + rs[l].items[j].size <= x
  {
    ItemInImage(rs, infos, base, k, i);
    ItemInImage(rs, infos, base, l, j);
    if k == l {
      var r := rs[k];
      ItemsDisjoint(r.target, r.items, r.sizes, r.begin, r.offsets, if i < j then i else j, if i < j then j else i);
    } else {
      ImagesApart(infos, base, if k < l then k else l, if k < l then l else k);
    }
  }

  /** The copies of two objects never overlap, in one image or in two. */
  lemma CopiesApart(rs: seq<Placement>, infos: seq<Info>, base: nat, homes: map<ObjectId, nat>,
                    slots: map<ObjectId, Item>, at: map<ObjectId, nat>, shapes: map<ObjectId, Shape>,
                    objects: seq<ObjectId>, o: ObjectId, p: ObjectId)
    requires AllSlotted(rs, homes, slots, at, shapes, objects) && InMemory(rs, infos, base)
    requires o in objects && p in objects && o != p
    ensures HasSlot(slots, BasesOf(rs, infos, homes), o) && HasSlot(slots, BasesOf(rs, infos, homes), p)
    ensures o in shapes && p in shapes
    ensures var x, y := AddressAt(BasesOf(rs, infos, homes), slots, o), AddressAt(BasesOf(rs, infos, homes), slots, p);
            x + shapes[o].size <= y || y + shapes[p].size <= x
  {
    assert HasPlace(rs, homes, slots, at, shapes, o) && HasPlace(rs, homes, slots, at, shapes, p);
    PlaceIsSlot(rs, infos, homes, slots, at, shapes, o);
    PlaceIsSlot(rs, infos, homes, slots, at, shapes, p);
    PlacesApart(rs, infos, base, homes[o], at[o], homes[p], at[p]);
  }

  /** NativeLocationInImage: where a native object will be. */
  ghost function NativeLocation(rs: seq<Placement>, infos: seq<Info>, r: Relocation): nat
    requires |rs| == |infos| && IsItem(rs, r.image, r.at)
  {
    ItemAddress(rs, infos, r.image, r.at)
  }

  /** Native objects overlap neither each other nor the copies of objects. */
  lemma NativesApart(rs: seq<Placement>, infos: seq<Info>, base: nat, entries: map<Pointer, Relocation>, p: Pointer,
                     q: Pointer)
    requires InMemory(rs, infos, base) && p in entries && q in entries && p != q
    requires IsItem(rs, entries[p].image, entries[p].at) && IsItem(rs, entries[q].image, entries[q].at)
    requires forall x, y :: x in entries && y in entries && x != y ==> entries[x] != entries[y]
    ensures var x, y := NativeLocation(rs, infos, entries[p]), NativeLocation(rs, infos, entries[q]);
            || x + rs[entries[p].image].items[entries[p].at].size <= y
            || y + rs[entries[q].image].items[entries[q].at].size <= x
  {
    PlacesApart(rs, infos, base, entries[p].image, entries[p].at, entries[q].image, entries[q].at);
  }

  lemma NativeApartFromCopy(rs: seq<Placement>, infos: seq<Info>, base: nat, homes: map<ObjectId, nat>,
                            slots: map<ObjectId, Item>, at: map<ObjectId, nat>, shapes: map<ObjectId, Shape>,
                            objects: seq<ObjectId>, o: ObjectId, r: Relocation)
    requires AllSlotted(rs, homes, slots, at, shapes, objects) && InMemory(rs, infos, base) && o in objects
    requires IsItem(rs, r.image, r.at) && MIRROR_BINS <= rs[r.image].items[r.at].bin
    ensures HasSlot(slots, BasesOf(rs, infos, homes), o) && o in shapes
    ensures var x, y := AddressAt(BasesOf(rs, infos, homes), slots, o), NativeLocation(rs, infos, r);
            x + shapes[o].size <= y || y + rs[r.image].items[r.at].size <= x
  {
    assert HasPlace(rs, homes, slots, at, shapes, o);
    PlaceIsSlot(rs, infos, homes, slots, at, shapes, o);
    PlacesApart(rs, infos, base, homes[o], at[o], r.image, r.at);
  }

  /** The dex cache arrays of an image, as PrepareDexCacheArraySlots leaves them from item n on. */
  ghost predicate ArraysFrom(r: Placement, n: nat, starts: seq<nat>, layouts: seq<nat>) {
    && |starts| == |layouts| && n + |layouts| <= |r.items|
    && forall d {:trigger starts[d]} :: 0 <= d < |layouts| ==>
         r.items[n + d] == Item(DEX_CACHE_ARRAY, starts[d], layouts[d])
  }

  /** GetDexCacheArrayElementImageAddress. */
  function ElementAddress(rs: seq<Placement>, infos: seq<Info>, k: nat, starts: seq<nat>, d: nat, offset: nat): nat
    requires k < |rs| == |infos| && |rs[k].offsets| == BINS && d < |starts|
  {
    infos[k].imageBegin + rs[k].offsets[DEX_CACHE_ARRAY] + starts[d] + offset
  }

  /** An element of a dex cache array lies inside the array, as far behind its start as the layout has it, and so inside
      the image. */
  lemma ElementInArray(rs: seq<Placement>, infos: seq<Info>, base: nat, k: nat, n: nat, starts: seq<nat>,
                       layouts: seq<nat>, d: nat, offset: nat, width: nat)
    requires InMemory(rs, infos, base) && k < |rs| && rs[k].Ok() && ArraysFrom(rs[k], n, starts, layouts)
    requires d < |starts| && offset + width <= layouts[d]
    ensures IsItem(rs, k, n + d) && rs[k].items[n + d].size == layouts[d]
    ensures ElementAddress(rs, infos, k, starts, d, offset) == ItemAddress(rs, infos, k, n + d) + offset
    ensures infos[k].imageBegin + rs[k].offsets[DEX_CACHE_ARRAY] <= ElementAddress(rs, infos, k, starts, d, offset)
    ensures ElementAddress(rs, infos, k, starts, d, offset) + width <= infos[k].imageBegin + infos[k].imageSize
  {
    assert starts[d] == rs[k].items[n + d].index;
    ItemInImage(rs, infos, base, k, n + d);
  }

  /** It overlaps nothing else in any image. */
  lemma ElementApart(rs: seq<Placement>, infos: seq<Info>, base: nat, k: nat, n: nat, starts: seq<nat>,
                     layouts: seq<nat>, d: nat, offset: nat, width: nat, l: nat, j: nat)
    requires InMemory(rs, infos, base) && k < |rs| && rs[k].Ok() && ArraysFrom(rs[k], n, starts, layouts)
    requires d < |starts| && offset + width <= layouts[d]
    requires IsItem(rs, l, j) && (l != k || j != n + d)
    ensures var x, y := ElementAddress(rs, infos, k, starts, d, offset), ItemAddress(rs, infos, l, j);
            x + width <= y || y + rs[l].items[j].size <= x
  {
    ElementInArray(rs, infos, base, k, n, starts, layouts, d, offset, width);
    PlacesApart(rs, infos, base, k, n + d, l, j);
  }

  /** Copied references are equal exactly if the references were: the copies have the shape of the originals.  What
      leads into the boot image is apart by its constructor here; PointersTell compares the addresses as numbers. */
  lemma AddressesTell(rs: seq<Placement>, infos: seq<Info>, base: nat, homes: map<ObjectId, nat>,
                      slots: map<ObjectId, Item>, at: map<ObjectId, nat>, shapes: map<ObjectId, Shape>,
                      objects: seq<ObjectId>, boot: set<ObjectId>, a: Ref, b: Ref)
    requires AllSlotted(rs, homes, slots, at, shapes, objects) && InMemory(rs, infos, base)
    requires forall o :: o in objects ==> o in shapes && shapes[o].size > 0
    requires forall o :: o in slots ==> o in objects
    requires Leads(a, boot, BasesOf(rs, infos, homes), slots) && Leads(b, boot, BasesOf(rs, infos, homes), slots)
    ensures AddressOf(a, boot, BasesOf(rs, infos, homes), slots) == AddressOf(b, boot, BasesOf(rs, infos, homes), slots)
            <==> a == b
  {
    if a != b && a.To? && b.To? && a.target !in boot && b.target !in boot {
      CopiesApart(rs, infos, base, homes, slots, at, shapes, objects, a.target, b.target);
    }
  }
  /** The number that an address is, if the objects of the boot image are at `bootAt`. */
  ghost function Numeric(a: Address, bootAt: map<ObjectId, nat>): nat
    requires a.InBootImage? ==> a.target in bootAt
  {
    match a
    case NullAddress => 0
    case InBootImage(o) => bootAt[o]
    case InImage(address) => address
  }

  /** The boot image has its objects at addresses of their own, outside the new images. */
  ghost predicate BootApart(bootAt: map<ObjectId, nat>, boot: set<ObjectId>, low: nat, high: nat) {
    && (forall o :: o in boot ==> o in bootAt && bootAt[o] != 0 && (bootAt[o] < low || high <= bootAt[o]))
    && forall o, p :: o in boot && p in boot && o != p ==> bootAt[o] != bootAt[p]
  }

  /** A copy lies between the base of the images and their end. */
  lemma CopyInRange(rs: seq<Placement>, infos: seq<Info>, base: nat, homes: map<ObjectId, nat>,
                    slots: map<ObjectId, Item>, at: map<ObjectId, nat>, shapes: map<ObjectId, Shape>,
                    objects: seq<ObjectId>, o: ObjectId)
    requires AllSlotted(rs, homes, slots, at, shapes, objects) && InMemory(rs, infos, base) && o in objects
    ensures HasSlot(slots, BasesOf(rs, infos, homes), o) && o in shapes
    ensures base <= AddressAt(BasesOf(rs, infos, homes), slots, o)
    ensures AddressAt(BasesOf(rs, infos, homes), slots, o) + shapes[o].size <= ImagesEnd(infos, base, |infos|)
  {
    assert HasPlace(rs, homes, slots, at, shapes, o);
    PlaceIsSlot(rs, infos, homes, slots, at, shapes, o);
    ItemInImage(rs, infos, base, homes[o], at[o]);
    assert ImageAt(infos, base, homes[o]);
    ImagesEndGrows(infos, base, 0, homes[o]);
    ImagesEndGrows(infos, base, homes[o] + 1, |infos|);
  }

  /** The same in numbers: if the boot image lies outside the new images, the pointers in the copies are equal exactly
      if the references were. */
  lemma PointersTell(rs: seq<Placement>, infos: seq<Info>, base: nat, homes: map<ObjectId, nat>,
                     slots: map<ObjectId, Item>, at: map<ObjectId, nat>, shapes: map<ObjectId, Shape>,
                     objects: seq<ObjectId>, boot: set<ObjectId>, bootAt: map<ObjectId, nat>, a: Ref, b: Ref)
    requires AllSlotted(rs, homes, slots, at, shapes, objects) && InMemory(rs, infos, base) && base > 0
    requires forall o :: o in objects ==> o in shapes && shapes[o].size > 0
    requires forall o :: o in slots ==> o in objects
    requires BootApart(bootAt, boot, base, ImagesEnd(infos, base, |infos|))
    requires Leads(a, boot, BasesOf(rs, infos, homes), slots) && Leads(b, boot, BasesOf(rs, infos, homes), slots)
    ensures var bases := BasesOf(rs, infos, homes);
            Numeric(AddressOf(a, boot, bases, slots), bootAt) == Numeric(AddressOf(b, boot, bases, slots), bootAt)
            <==> a == b
  {
    if a.To? && a.target !in boot {
      CopyInRange(rs, infos, base, homes, slots, at, shapes, objects, a.target);
    }
    if b.To? && b.target !in boot {
      CopyInRange(rs, infos, base, homes, slots, at, shapes, objects, b.target);
    }
    AddressesTell(rs, infos, base, homes, slots, at, shapes, objects, boot, a, b);
  }
}
