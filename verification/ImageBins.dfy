/** Bins of an image (compiler/image_writer.cc AssignImageBinSlot, AssignMethodOffset, TryAssignImTableOffset,
    TryAssignConflictTableOffset, PrepareDexCacheArraySlots, the offset computation of CalculateNewObjectOffsets, and
    CreateImageSections).

    Objects and native data first get a place in a bin; when all bins are full, every bin gets a place in the image. */
module ImageBins {
  import opened Alignment

  const MISC_DIRTY: nat := 0
  const CLASS_VERIFIED: nat := 1
  const REGULAR: nat := 2
  const CLASS_INITIALIZED: nat := 3
  const CLASS_INITIALIZED_FINAL_STATICS: nat := 4
  const STRING: nat := 5
  const ART_FIELD: nat := 6
  const ART_METHOD_CLEAN: nat := 7
  const ART_METHOD_DIRTY: nat := 8
  const IM_TABLE: nat := 9
  const IMT_CONFLICT_TABLE: nat := 10
  const RUNTIME_METHOD: nat := 11
  const DEX_CACHE_ARRAY: nat := 12
  const BINS: nat := 13
  /** The bins below this one hold mirror objects. */
  const MIRROR_BINS: nat := 6

  /** The target's pointer size. */
  datatype Target = Ptr32 | Ptr64
  {
    function Ptr(): nat { if Ptr64? then 8 else 4 }
    function AlignPtr(x: nat): nat { if Ptr64? then RoundUp(x, 8) else RoundUp(x, 4) }
    /** ArtMethod::Size and the length prefix of a method array. */
    function Method(): nat { if Ptr64? then 56 else 36 }
    function MethodHeader(): nat { Ptr() }
    function Imt(): nat { 64 * Ptr() }
    function ConflictTable(entries: nat): nat { if Ptr64? then 16 * (entries + 1) else 8 * (entries + 1) }
  }

  /** ArtFields are 16 bytes behind a length prefix of 4. */
  const FIELD: nat := 16
  const FIELD_HEADER: nat := 4

  /** What the native sizes are made of: a method is five words, padded to pointers, and four pointers; an interface
      method table is 64 methods; a conflict table is pairs of methods with a pair of nulls behind them. */
  lemma NativeSizes(target: Target, entries: nat)
    ensures target.Method() == RoundUp(20, target.Ptr()) + 4 * target.Ptr() && target.Imt() == 64 * target.Ptr()
    ensures target.ConflictTable(entries) == (entries + 1) * (2 * target.Ptr())
    ensures target.MethodHeader() == RoundUp(4, target.Ptr())
  {
    RoundUpUnique(20, 8, 24);
    RoundUpUnique(20, 4, 20);
    RoundUpUnique(4, 8, 8);
    RoundUpUnique(4, 4, 4);
  }

  /** The alignment that everything in a bin has, within the bin and within the image. */
  predicate Aligned(target: Target, bin: nat, x: nat) {
    if bin < MIRROR_BINS then x % 8 == 0
    else if bin == ART_FIELD then x % 4 == 0
    else if target.Ptr64? then x % 8 == 0
    else x % 4 == 0
  }

  /** A place in a bin: `index` bytes from its beginning. */
  datatype Item = Item(bin: nat, index: nat, size: nat)

  /** The bytes of a bin that the first n items take. */
  function Used(items: seq<Item>, bin: nat, n: nat): nat
    requires n <= |items|
  {
    if n == 0 then 0 else Used(items, bin, n - 1) + if items[n - 1].bin == bin then items[n - 1].size else 0
  }

  /** Item i lies directly behind the earlier items of its bin. */
  ghost predicate PackedAt(target: Target, items: seq<Item>, i: nat)
    requires i < |items|
  {
    var x := items[i];
    x.bin < BINS && x.index == Used(items, x.bin, i) && Aligned(target, x.bin, x.size)
  }

  ghost predicate Packed(target: Target, items: seq<Item>, sizes: seq<nat>) {
    && |sizes| == BINS
    && (forall b {:trigger sizes[b]} :: 0 <= b < BINS ==> sizes[b] == Used(items, b, |items|))
    && (forall i {:trigger PackedAt(target, items, i)} :: 0 <= i < |items| ==> PackedAt(target, items, i))
  }

  lemma {:induction false} UsedPrefix(items: seq<Item>, x: Item, bin: nat, n: nat)
    requires n <= |items|
    ensures Used(items + [x], bin, n) == Used(items, bin, n)
  {
    if n == 0 {
    } else {
      UsedPrefix(items, x, bin, n - 1);
    }
  }

  lemma {:induction false} UsedGrows(items: seq<Item>, bin: nat, i: nat, k: nat)
    requires i <= k <= |items|
    ensures Used(items, bin, i) <= Used(items, bin, k)
    decreases k
  {
    if i == k {
    } else {
      UsedGrows(items, bin, i, k - 1);
    }
  }

  /** Taking the next bytes of a bin. */
  lemma Pack(target: Target, items: seq<Item>, sizes: seq<nat>, bin: nat, size: nat)
    requires Packed(target, items, sizes) && bin < BINS && Aligned(target, bin, size)
    ensures Packed(target, items + [Item(bin, sizes[bin], size)], sizes[bin := sizes[bin] + size])
  {
    var x := Item(bin, sizes[bin], size);
    var items', sizes' := items + [x], sizes[bin := sizes[bin] + size];
    forall b {:trigger sizes'[b]} | 0 <= b < BINS ensures sizes'[b] == Used(items', b, |items'|) {
      UsedPrefix(items, x, b, |items|);
      assert sizes[b] == Used(items, b, |items|);
    }
    forall i {:trigger PackedAt(target, items', i)} | 0 <= i < |items'| ensures PackedAt(target, items', i) {
      UsedPrefix(items, x, items'[i].bin, i);
      if i < |items| { assert PackedAt(target, items, i); } else { assert sizes[bin] == Used(items, bin, |items|); }
    }
  }

  lemma AlignedSum(target: Target, bin: nat, x: nat, y: nat)
    requires Aligned(target, bin, x) && Aligned(target, bin, y)
    ensures Aligned(target, bin, x + y)
  {
    if bin < MIRROR_BINS || (bin != ART_FIELD && target.Ptr64?) {
      AddMultiples(x, y, 8);
    } else {
      AddMultiples(x, y, 4);
    }
  }

  /** Bytes taken from a bin keep its alignment. */
  lemma {:induction false} UsedAligned(target: Target, items: seq<Item>, bin: nat, n: nat)
    requires n <= |items|
    requires forall i {:trigger PackedAt(target, items, i)} :: 0 <= i < |items| ==> PackedAt(target, items, i)
    ensures Aligned(target, bin, Used(items, bin, n))
  {
    if n == 0 {
    } else {
      UsedAligned(target, items, bin, n - 1);
      assert PackedAt(target, items, n - 1);
      if items[n - 1].bin == bin { AlignedSum(target, bin, Used(items, bin, n - 1), items[n - 1].size); }
    }
  }

  /** Every byte of a bin belongs to an item. */
  lemma {:induction false} ItemAt(items: seq<Item>, bin: nat, n: nat, x: nat) returns (i: nat)
    requires n <= |items| && x < Used(items, bin, n)
    ensures i < n && items[i].bin == bin && Used(items, bin, i) <= x < Used(items, bin, i) + items[i].size
  {
    if x < Used(items, bin, n - 1) { i := ItemAt(items, bin, n - 1, x); } else { i := n - 1; }
  }

  /** Bin b starts where the bin before it ends. */
  ghost predicate Adjoins(offsets: seq<nat>, sizes: seq<nat>, b: nat)
    requires 0 < b < |offsets| <= |sizes|
  {
    offsets[b] == offsets[b - 1] + sizes[b - 1]
  }

  /** Bins one behind the other, each aligned for its contents.  Mirror bins and method bins leave no gaps. */
  ghost predicate BinsPlaced(target: Target, sizes: seq<nat>, begin: nat, offsets: seq<nat>) {
    && |offsets| == |sizes| == BINS && offsets[0] == begin
    && (forall b :: 0 <= b < BINS ==> Aligned(target, b, offsets[b]))
    && (forall a, b :: 0 <= a < b < BINS ==> offsets[a] + sizes[a] <= offsets[b])
    && (forall b {:trigger Adjoins(offsets, sizes, b)} :: 1 <= b <= MIRROR_BINS ==> Adjoins(offsets, sizes, b))
    && Adjoins(offsets, sizes, ART_METHOD_DIRTY)
  }

  /** The padding in front of a bin. */
  function BinStart(target: Target, bin: nat, end: nat): nat {
    if bin == ART_METHOD_CLEAN || bin == ART_METHOD_DIRTY || bin == IM_TABLE || bin == IMT_CONFLICT_TABLE
    then target.AlignPtr(end) else end
  }

  /** The bins that are not padded are aligned anyway, because the bin before them is. */
  lemma BinStartAligned(target: Target, bin: nat, end: nat)
    requires bin < BINS
    requires bin == 0 ==> Aligned(target, 0, end)
    requires bin > 0 ==> Aligned(target, bin - 1, end)
    ensures Aligned(target, bin, BinStart(target, bin, end)) && end <= BinStart(target, bin, end)
    ensures bin == ART_METHOD_DIRTY ==> BinStart(target, bin, end) == end
  {
    if bin == ART_METHOD_DIRTY {
      if target.Ptr64? { RoundUpUnique(end, 8, end); } else { RoundUpUnique(end, 4, end); }
    }
  }

  /** The end of the first n bins. */
  function BinsEnd(target: Target, sizes: seq<nat>, begin: nat, n: nat): nat
    requires n <= |sizes|
  {
    if n == 0 then begin else BinStart(target, n - 1, BinsEnd(target, sizes, begin, n - 1)) + sizes[n - 1]
  }

  ghost predicate StartsAt(target: Target, sizes: seq<nat>, begin: nat, offset: nat, b: nat)
    requires b < |sizes|
  {
    offset == BinStart(target, b, BinsEnd(target, sizes, begin, b))
  }

  lemma {:induction false} BinsEndAligned(target: Target, sizes: seq<nat>, begin: nat, n: nat)
    requires n < |sizes| == BINS && begin % 8 == 0 && forall b :: 0 <= b < BINS ==> Aligned(target, b, sizes[b])
    ensures var start := BinStart(target, n, BinsEnd(target, sizes, begin, n));
            && Aligned(target, n, start) && BinsEnd(target, sizes, begin, n) <= start
            && (n <= MIRROR_BINS || n == ART_METHOD_DIRTY ==> start == BinsEnd(target, sizes, begin, n))
  {
    if n == 0 {
    } else {
      BinsEndAligned(target, sizes, begin, n - 1);
      AlignedSum(target, n - 1, BinStart(target, n - 1, BinsEnd(target, sizes, begin, n - 1)), sizes[n - 1]);
    }
    BinStartAligned(target, n, BinsEnd(target, sizes, begin, n));
  }

  lemma {:induction false} BinsEndGrows(target: Target, sizes: seq<nat>, begin: nat, a: nat, b: nat)
    requires a <= b < |sizes| == BINS && begin % 8 == 0 && forall b :: 0 <= b < BINS ==> Aligned(target, b, sizes[b])
    ensures BinsEnd(target, sizes, begin, a) <= BinsEnd(target, sizes, begin, b)
    decreases b
  {
    if a == b {
    } else {
      BinsEndGrows(target, sizes, begin, a, b - 1);
      BinsEndAligned(target, sizes, begin, b - 1);
    }
  }

  lemma StartsArePlaced(target: Target, sizes: seq<nat>, begin: nat, offsets: seq<nat>)
    requires |offsets| == |sizes| == BINS && begin % 8 == 0
    requires forall b :: 0 <= b < BINS ==> Aligned(target, b, sizes[b])
    requires forall b {:trigger StartsAt(target, sizes, begin, offsets[b], b)} :: 0 <= b < BINS ==>
               StartsAt(target, sizes, begin, offsets[b], b)
    ensures BinsPlaced(target, sizes, begin, offsets)
  {
    assert StartsAt(target, sizes, begin, offsets[0], 0);
    forall b | 0 <= b < BINS ensures Aligned(target, b, offsets[b]) {
      assert StartsAt(target, sizes, begin, offsets[b], b);
      BinsEndAligned(target, sizes, begin, b);
    }
    forall a, b | 0 <= a < b < BINS ensures offsets[a] + sizes[a] <= offsets[b] {
      assert StartsAt(target, sizes, begin, offsets[a], a) && StartsAt(target, sizes, begin, offsets[b], b);
      BinsEndGrows(target, sizes, begin, a + 1, b);
      BinsEndAligned(target, sizes, begin, b);
    }
    forall b {:trigger Adjoins(offsets, sizes, b)} | 1 <= b <= MIRROR_BINS || b == ART_METHOD_DIRTY
      ensures Adjoins(offsets, sizes, b)
    {
      assert StartsAt(target, sizes, begin, offsets[b], b) && StartsAt(target, sizes, begin, offsets[b - 1], b - 1);
      BinsEndAligned(target, sizes, begin, b);
    }
  }

  /** The loop that gives every bin its offset. */
  method ComputeBinOffsets(target: Target, sizes: seq<nat>, begin: nat) returns (offsets: seq<nat>)
    requires |sizes| == BINS && begin % 8 == 0 && forall b :: 0 <= b < BINS ==> Aligned(target, b, sizes[b])
    ensures BinsPlaced(target, sizes, begin, offsets)
  {
    offsets := [];
    var end := begin;
    for i := 0 to BINS
      invariant |offsets| == i && end == BinsEnd(target, sizes, begin, i)
      invariant forall b {:trigger StartsAt(target, sizes, begin, offsets[b], b)} :: 0 <= b < i ==>
                  StartsAt(target, sizes, begin, offsets[b], b)
    {
      var start := BinStart(target, i, end);
      offsets := offsets + [start];
      end := start + sizes[i];
    }
    StartsArePlaced(target, sizes, begin, offsets);
  }

  /** The image offset of an item. */
  function OffsetOf(offsets: seq<nat>, x: Item): nat
    requires x.bin < |offsets|
  {
    offsets[x.bin] + x.index
  }

  /** Packed items in placed bins. */
  ghost predicate Placed(target: Target, items: seq<Item>, sizes: seq<nat>, begin: nat, offsets: seq<nat>) {
    Packed(target, items, sizes) && BinsPlaced(target, sizes, begin, offsets)
  }

  /** An item is aligned and lies inside its bin. */
  lemma ItemInBin(target: Target, items: seq<Item>, sizes: seq<nat>, begin: nat, offsets: seq<nat>, i: nat)
    requires Placed(target, items, sizes, begin, offsets) && i < |items|
    ensures items[i].bin < BINS
    ensures Aligned(target, items[i].bin, OffsetOf(offsets, items[i]))
    ensures items[i].bin < ART_FIELD || (items[i].bin > ART_FIELD && target.Ptr64?) ==>
              OffsetOf(offsets, items[i]) % 8 == 0
    ensures items[i].bin == ART_FIELD || (items[i].bin > ART_FIELD && target.Ptr32?) ==>
              OffsetOf(offsets, items[i]) % 4 == 0
    ensures items[i].index + items[i].size <= sizes[items[i].bin]
  {
    var x := items[i];
    assert PackedAt(target, items, i);
    UsedGrows(items, x.bin, i + 1, |items|);
    UsedAligned(target, items, x.bin, i);
    AlignedSum(target, x.bin, offsets[x.bin], x.index);
  }

  /** No two items overlap in the image. */
  lemma ItemsDisjoint(target: Target, items: seq<Item>, sizes: seq<nat>, begin: nat, offsets: seq<nat>, i: nat, j: nat)
    requires Placed(target, items, sizes, begin, offsets) && i < j < |items|
    ensures items[i].bin < BINS && items[j].bin < BINS
    ensures var x, y := items[i], items[j];
            || OffsetOf(offsets, x) + x.size <= OffsetOf(offsets, y)
            || OffsetOf(offsets, y) + y.size <= OffsetOf(offsets, x)
  {
    ItemInBin(target, items, sizes, begin, offsets, i);
    ItemInBin(target, items, sizes, begin, offsets, j);
    assert PackedAt(target, items, i) && PackedAt(target, items, j);
    if items[i].bin == items[j].bin { UsedGrows(items, items[i].bin, i + 1, j); }
  }

  /** The mirror objects fill the image from the beginning of the objects to the first field. */
  lemma MirrorObjectsFill(target: Target, items: seq<Item>, sizes: seq<nat>, begin: nat, offsets: seq<nat>, x: nat)
    returns (i: nat)
    requires Placed(target, items, sizes, begin, offsets) && begin <= x < offsets[ART_FIELD]
    ensures i < |items| && items[i].bin < MIRROR_BINS
    ensures OffsetOf(offsets, items[i]) <= x < OffsetOf(offsets, items[i]) + items[i].size
  {
    var b := MirrorBinAt(target, sizes, begin, offsets, MIRROR_BINS, x);
    i := ItemAt(items, b, |items|, x - offsets[b]);
    assert PackedAt(target, items, i);
  }

  lemma {:induction false} MirrorBinAt(target: Target, sizes: seq<nat>, begin: nat, offsets: seq<nat>, n: nat, x: nat)
    returns (b: nat)
    requires BinsPlaced(target, sizes, begin, offsets) && n <= MIRROR_BINS && begin <= x < offsets[n]
    ensures b < n && offsets[b] <= x < offsets[b] + sizes[b]
  {
    assert n > 0;
    assert Adjoins(offsets, sizes, n);
    if x < offsets[n - 1] { b := MirrorBinAt(target, sizes, begin, offsets, n - 1, x); } else { b := n - 1; }
  }

  /** Mirror objects come before native data. */
  lemma NativeBehindObjects(target: Target, items: seq<Item>, sizes: seq<nat>, begin: nat, offsets: seq<nat>, i: nat)
    requires Placed(target, items, sizes, begin, offsets) && i < |items|
    ensures items[i].bin < BINS
    ensures var offset := OffsetOf(offsets, items[i]);
            if items[i].bin < MIRROR_BINS then begin <= offset && offset + items[i].size <= offsets[ART_FIELD]
            else offsets[ART_FIELD] <= offset
  {
    ItemInBin(target, items, sizes, begin, offsets, i);
  }

  datatype Range = Range(offset: nat, size: nat)
  {
    function End(): nat { offset + size }
  }

  /** The image sections, in the order of their offsets. */
  datatype Sections = Sections(objects: Range, fields: Range, methods: Range, imts: Range, conflictTables: Range,
                               runtimeMethods: Range, dexCacheArrays: Range, internedStrings: Range, classTable: Range)
  {
    /** The section that a bin belongs to. */
    function Of(bin: nat): Range {
      if bin < MIRROR_BINS then objects
      else if bin == ART_FIELD then fields
      else if bin == ART_METHOD_CLEAN || bin == ART_METHOD_DIRTY then methods
      else if bin == IM_TABLE then imts
      else if bin == IMT_CONFLICT_TABLE then conflictTables
      else if bin == RUNTIME_METHOD then runtimeMethods
      else dexCacheArrays
    }

    /** No two sections overlap. */
    ghost predicate Ordered() {
      && objects.End() <= fields.offset && fields.End() <= methods.offset && methods.End() <= imts.offset
      && imts.End() <= conflictTables.offset && conflictTables.End() <= runtimeMethods.offset
      && runtimeMethods.End() <= dexCacheArrays.offset && dexCacheArrays.End() <= internedStrings.offset
      && internedStrings.End() <= classTable.offset
    }
  }

  /** A bin lies inside its section. */
  ghost predicate Holds(s: Sections, sizes: seq<nat>, offsets: seq<nat>, b: nat)
    requires b < |sizes| && b < |offsets|
  {
    s.Of(b).offset <= offsets[b] && offsets[b] + sizes[b] <= s.Of(b).End()
  }

  /** CreateImageSections. */
  method CreateImageSections(target: Target, imageEnd: nat, sizes: seq<nat>, begin: nat, offsets: seq<nat>,
                             internTable: nat, classTable: nat)
    returns (s: Sections, end: nat)
    requires BinsPlaced(target, sizes, begin, offsets) && imageEnd == offsets[ART_FIELD]
    ensures s.Ordered() && end == s.classTable.End() && s.objects == Range(0, imageEnd)
    ensures forall b :: 0 <= b < BINS ==> Holds(s, sizes, offsets, b)
    ensures s.internedStrings.offset % 8 == 0 && s.classTable.offset % 8 == 0
    ensures s.internedStrings.size == internTable && s.classTable.size == classTable
    ensures s.methods.size == sizes[ART_METHOD_CLEAN] + sizes[ART_METHOD_DIRTY]
    ensures forall b :: ART_FIELD <= b < BINS && b != ART_METHOD_CLEAN && b != ART_METHOD_DIRTY ==>
              s.Of(b).size == sizes[b]
  {
    var dexCacheArrays := Range(offsets[DEX_CACHE_ARRAY], sizes[DEX_CACHE_ARRAY]);
    var interned := Range(RoundUp(dexCacheArrays.End(), 8), internTable);
    var classes := Range(RoundUp(interned.End(), 8), classTable);
    s := Sections(Range(0, imageEnd), Range(offsets[ART_FIELD], sizes[ART_FIELD]),
                  Range(offsets[ART_METHOD_CLEAN], sizes[ART_METHOD_CLEAN] + sizes[ART_METHOD_DIRTY]),
                  Range(offsets[IM_TABLE], sizes[IM_TABLE]),
                  Range(offsets[IMT_CONFLICT_TABLE], sizes[IMT_CONFLICT_TABLE]),
                  Range(offsets[RUNTIME_METHOD], sizes[RUNTIME_METHOD]),
                  dexCacheArrays, interned, classes);
    end := classes.End();
  }
}
