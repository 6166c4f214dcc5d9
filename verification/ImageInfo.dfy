/** One image under construction (compiler/image_writer.h ImageInfo and the compiler/image_writer.cc operations on
    it). */
module ImageInfos {
  import opened Alignment
  import opened ImageBins

  /** What AssignImageBinSlot asks about an object. */
  datatype ObjectKind =
    | ClassObject(initialized: bool, staticsFinal: seq<bool>)
    | StringObject
    | PlainObject
    | DexCacheObject
    | OtherObject

  /** Whether every static field is final. */
  method AllFinal(staticsFinal: seq<bool>) returns (all: bool)
    ensures all <==> false !in staticsFinal
  {
    all := true;
    for i := 0 to |staticsFinal|
      invariant all && false !in staticsFinal[..i]
    {
      if !staticsFinal[i] {
        return false;
      }
    }
  }

  /** Objects that are likely to be written to share bins, and so do those that are not. */
  function BinOf(kind: ObjectKind): (bin: nat)
    ensures bin < MIRROR_BINS
  {
    match kind
    case ClassObject(initialized, staticsFinal) =>
      if !initialized then CLASS_VERIFIED
      else if false in staticsFinal then CLASS_INITIALIZED
      else CLASS_INITIALIZED_FINAL_STATICS
    case StringObject => STRING
    case PlainObject => MISC_DIRTY
    case DexCacheObject => MISC_DIRTY
    case OtherObject => REGULAR
  }

  /** The choice of the bin, with the search for a static field that is not final. */
  method ObjectBin(kind: ObjectKind) returns (bin: nat)
    ensures bin == BinOf(kind)
    ensures kind.ClassObject? && !kind.initialized ==> bin == CLASS_VERIFIED
    ensures kind.ClassObject? && kind.initialized && (exists i :: 0 <= i < |kind.staticsFinal| && !kind.staticsFinal[i])
            ==> bin == CLASS_INITIALIZED
    ensures kind.ClassObject? && kind.initialized && (forall i :: 0 <= i < |kind.staticsFinal| ==> kind.staticsFinal[i])
            ==> bin == CLASS_INITIALIZED_FINAL_STATICS
    ensures kind.StringObject? ==> bin == STRING
    ensures kind.PlainObject? || kind.DexCacheObject? ==> bin == MISC_DIRTY
    ensures kind.OtherObject? ==> bin == REGULAR
  {
    bin := REGULAR;
    match kind
    case ClassObject(initialized, staticsFinal) =>
      bin := CLASS_VERIFIED;
      if initialized {
        bin := CLASS_INITIALIZED;
        if |staticsFinal| == 0 {
          bin := CLASS_INITIALIZED_FINAL_STATICS;
        } else {
          var all := AllFinal(staticsFinal);
          if all {
            bin := CLASS_INITIALIZED_FINAL_STATICS;
          }
        }
      }
    case StringObject => bin := STRING;
    case PlainObject => bin := MISC_DIRTY;
    case DexCacheObject => bin := MISC_DIRTY;
    case OtherObject =>
  }

  function MirrorSum(sizes: seq<nat>): nat
    requires |sizes| == BINS
  {
    sizes[0] + sizes[1] + sizes[2] + sizes[3] + sizes[4] + sizes[5]
  }

  /** With the mirror bins in place, the objects end at the first field. */
  lemma MirrorEnd(target: Target, sizes: seq<nat>, begin: nat, offsets: seq<nat>)
    requires BinsPlaced(target, sizes, begin, offsets)
    ensures offsets[ART_FIELD] == begin + MirrorSum(sizes)
  {
    assert Adjoins(offsets, sizes, 1) && Adjoins(offsets, sizes, 2) && Adjoins(offsets, sizes, 3);
    assert Adjoins(offsets, sizes, 4) && Adjoins(offsets, sizes, 5) && Adjoins(offsets, sizes, 6);
  }

  /** An array of `count` elements: the length prefix and the elements lie one behind the other, where an access
      through the array will look for them. */
  ghost predicate IsArray(items: seq<Item>, at: nat, bin: nat, header: nat, element: nat, count: nat) {
    && |items| == at + 1 + count && items[at].bin == bin && items[at].size == header
    && forall i {:trigger ElementAt(items, at, bin, header, element, i)} :: 0 <= i < count ==>
         ElementAt(items, at, bin, header, element, i)
  }

  ghost predicate ElementAt(items: seq<Item>, at: nat, bin: nat, header: nat, element: nat, i: nat)
    requires at + 1 + i < |items|
  {
    items[at + 1 + i] == Item(bin, items[at].index + header + i * element, element)
  }

  /** One more element behind the others. */
  lemma NextElement(items: seq<Item>, items': seq<Item>, at: nat, bin: nat, header: nat, element: nat, count: nat)
    requires IsArray(items, at, bin, header, element, count)
    requires items' == items + [Item(bin, items[at].index + header + count * element, element)]
    ensures IsArray(items', at, bin, header, element, count + 1)
    ensures (count + 1) * element == count * element + element
  {
    forall i {:trigger ElementAt(items', at, bin, header, element, i)} | 0 <= i < count + 1
      ensures ElementAt(items', at, bin, header, element, i)
    {
      if i < count { assert ElementAt(items, at, bin, header, element, i); }
    }
  }

  class ImageInfo {
    const target: Target
    const begin: nat
    var sizes: seq<nat>
    var items: seq<Item>
    var imageEnd: nat
    var offsets: seq<nat>
    var imageSize: nat

    ghost predicate Valid()
      reads this
    {
      begin % 8 == 0 && Packed(target, items, sizes) && imageEnd == begin + MirrorSum(sizes)
    }

    constructor (target: Target, header: nat)
      ensures Valid() && items == [] && begin == RoundUp(header, 8)
    {
      this.target := target;
      begin := RoundUp(header, 8);
      sizes, items := seq(BINS, _ => 0), [];
      imageEnd := RoundUp(header, 8);
      offsets, imageSize := [], 0;
    }

    /** The next bytes of a native bin. */
    method Take(bin: nat, size: nat) returns (slot: Item)
      requires Valid() && MIRROR_BINS <= bin < BINS && Aligned(target, bin, size)
      modifies this`sizes, this`items
      ensures Valid() && items == old(items) + [slot] && slot == Item(bin, old(sizes)[bin], size)
      ensures sizes == old(sizes)[bin := old(sizes)[bin] + size]
    {
      slot := Item(bin, sizes[bin], size);
      Pack(target, items, sizes, bin, size);
      items, sizes := items + [slot], sizes[bin := sizes[bin] + size];
    }

    /** AssignImageBinSlot. */
    method AssignObject(kind: ObjectKind, objectSize: nat) returns (slot: Item)
      requires Valid()
      modifies this`sizes, this`items, this`imageEnd
      ensures Valid() && items == old(items) + [slot]
      ensures slot == Item(BinOf(kind), old(sizes)[BinOf(kind)], RoundUp(objectSize, 8))
      ensures sizes == old(sizes)[slot.bin := old(sizes)[slot.bin] + slot.size] && imageEnd == old(imageEnd) + slot.size
    {
      var bin := ObjectBin(kind);
      var delta := RoundUp(objectSize, 8);
      slot := Item(bin, sizes[bin], delta);
      Pack(target, items, sizes, bin, delta);
      items, sizes := items + [slot], sizes[bin := sizes[bin] + delta];
      imageEnd := imageEnd + delta;
    }

    /** A length-prefixed array of fields or methods. */
    method AssignArray(bin: nat, header: nat, element: nat, count: nat)
      requires Valid() && MIRROR_BINS <= bin < BINS && Aligned(target, bin, header) && Aligned(target, bin, element)
      modifies this`sizes, this`items
      ensures Valid() && old(items) <= items && IsArray(items, |old(items)|, bin, header, element, count)
    {
      ghost var at := |items|;
      var slot := Take(bin, header);
      for i := 0 to count
        invariant Valid() && old(items) <= items && IsArray(items, at, bin, header, element, i)
        invariant sizes[bin] == items[at].index + header + i * element
      {
        ghost var before := items;
        slot := Take(bin, element);
        NextElement(before, items, at, bin, header, element, i);
      }
    }

    /** The static or instance fields of a class. */
    method AssignFields(count: nat)
      requires Valid()
      modifies this`sizes, this`items
      ensures Valid() && old(items) <= items && IsArray(items, |old(items)|, ART_FIELD, FIELD_HEADER, FIELD, count)
    {
      AssignArray(ART_FIELD, FIELD_HEADER, FIELD, count);
    }

    /** The methods of a class: all clean or, if any may be written to, all dirty. */
    method AssignMethods(dirty: seq<bool>)
      requires Valid()
      modifies this`sizes, this`items
      ensures Valid() && old(items) <= items
      ensures dirty == [] ==> items == old(items)
      ensures dirty != [] ==> IsArray(items, |old(items)|, if true in dirty then ART_METHOD_DIRTY else ART_METHOD_CLEAN,
                                      target.MethodHeader(), target.Method(), |dirty|)
    {
      if |dirty| != 0 {
        var anyDirty := false;
        for i := 0 to |dirty|
          invariant !anyDirty && true !in dirty[..i]
        {
          if dirty[i] {
            anyDirty := true;
            break;
          }
        }
        var bin := if anyDirty then ART_METHOD_DIRTY else ART_METHOD_CLEAN;
        AssignArray(bin, target.MethodHeader(), target.Method(), |dirty|);
      }
    }

    /** PrepareDexCacheArraySlots: a block for every dex file, of the size that its array layout asks for. */
    method PrepareDexCacheArraySlots(layouts: seq<nat>) returns (starts: seq<nat>)
      requires Valid() && forall d :: 0 <= d < |layouts| ==> Aligned(target, DEX_CACHE_ARRAY, layouts[d])
      modifies this`sizes, this`items
      ensures Valid() && old(items) <= items && |starts| == |layouts| && |items| == |old(items)| + |layouts|
      ensures forall d {:trigger starts[d]} :: 0 <= d < |layouts| ==>
                items[|old(items)| + d] == Item(DEX_CACHE_ARRAY, starts[d], layouts[d])
    {
      starts := [];
      for d := 0 to |layouts|
        invariant Valid() && old(items) <= items && |starts| == d && |items| == |old(items)| + d
        invariant forall i {:trigger starts[i]} :: 0 <= i < d ==>
                    items[|old(items)| + i] == Item(DEX_CACHE_ARRAY, starts[i], layouts[i])
      {
        starts := starts + [sizes[DEX_CACHE_ARRAY]];
        var slot := Take(DEX_CACHE_ARRAY, layouts[d]);
      }
    }

    /** The bin offsets, the sections and the size of the image: everything lies in its section, and the sections lie
        one behind the other in the image. */
    method PlaceBins(internTable: nat, classTable: nat) returns (s: Sections)
      requires Valid()
      modifies this`offsets, this`imageSize
      ensures Valid() && Placed(target, items, sizes, begin, offsets) && imageEnd == offsets[ART_FIELD]
      ensures s.Ordered() && s.objects == Range(0, imageEnd) && imageSize == RoundUp(s.classTable.End(), PAGE_SIZE)
      ensures forall b :: 0 <= b < BINS ==> Holds(s, sizes, offsets, b)
    {
      forall b | 0 <= b < BINS ensures Aligned(target, b, sizes[b]) { UsedAligned(target, items, b, |items|); }
      var placed := ComputeBinOffsets(target, sizes, begin);
      MirrorEnd(target, sizes, begin, placed);
      var end;
      s, end := CreateImageSections(target, imageEnd, sizes, begin, placed, internTable, classTable);
      offsets, imageSize := placed, RoundUp(end, PAGE_SIZE);
    }
  }

  /** Whatever has a slot is found, aligned, in the section of its bin and inside the page-rounded image. */
  lemma ItemInSection(target: Target, items: seq<Item>, sizes: seq<nat>, begin: nat, offsets: seq<nat>, s: Sections,
                      imageSize: nat, i: nat)
    requires Placed(target, items, sizes, begin, offsets) && i < |items|
    requires s.Ordered() && s.classTable.End() <= imageSize && forall b :: 0 <= b < BINS ==> Holds(s, sizes, offsets, b)
    ensures items[i].bin < BINS && Aligned(target, items[i].bin, OffsetOf(offsets, items[i]))
    ensures s.Of(items[i].bin).offset <= OffsetOf(offsets, items[i])
    ensures OffsetOf(offsets, items[i]) + items[i].size <= s.Of(items[i].bin).End() <= imageSize
    ensures var x, at := items[i], OffsetOf(offsets, items[i]);
            && (x.bin < ART_FIELD ==> at + x.size <= s.objects.End())
            && (x.bin == ART_FIELD ==> s.fields.offset <= at && at + x.size <= s.fields.End())
            && (x.bin in {ART_METHOD_CLEAN, ART_METHOD_DIRTY} ==>
                  s.methods.offset <= at && at + x.size <= s.methods.End())
            && (x.bin == IM_TABLE ==> s.imts.offset <= at && at + x.size <= s.imts.End())
            && (x.bin == IMT_CONFLICT_TABLE ==>
                  s.conflictTables.offset <= at && at + x.size <= s.conflictTables.End())
            && (x.bin == RUNTIME_METHOD ==> s.runtimeMethods.offset <= at && at + x.size <= s.runtimeMethods.End())
            && (x.bin == DEX_CACHE_ARRAY ==> s.dexCacheArrays.offset <= at && at + x.size <= s.dexCacheArrays.End())
  {
    ItemInBin(target, items, sizes, begin, offsets, i);
    assert Holds(s, sizes, offsets, items[i].bin);
  }
}
