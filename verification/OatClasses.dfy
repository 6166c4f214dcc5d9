/** OatClass records and the method walk every OatWriter pass repeats
    (compiler/oat_writer.cc OatClass, VisitDexMethods; read back by runtime/oat_file.cc). */
module OatClasses {
  import opened Alignment
  import opened PatchStream

  type MethodRef = nat

  /** An array in the compiler's storage.  The compiler driver deduplicates arrays, so the writer compares their data
      pointers only. */
  datatype Array = Array(ptr: nat, size: nat)
  datatype PatchArray = PatchArray(ptr: nat, patches: seq<LinkerPatch>)

  datatype CompiledMethod = CompiledMethod(code: Array, vmap: Array, patches: PatchArray, thumb: bool)
  {
    /** CodeDelta: Thumb-2 entry points have the low bit set. */
    function Delta(): nat { if thumb then 1 else 0 }
  }

  /** A method of a class definition, with its CompiledMethod if the compiler made one. */
  datatype Slot = NotCompiled | Compiled(ref: MethodRef, cm: CompiledMethod)

  /** How many of the first i methods are compiled. */
  function Rank(slots: seq<Slot>, i: nat): (r: nat)
    requires i <= |slots|
    ensures r <= i
  {
    if i == 0 then 0 else Rank(slots, i - 1) + if slots[i - 1].Compiled? then 1 else 0
  }

  lemma {:induction false} RankBounds(slots: seq<Slot>, i: nat, j: nat)
    requires i <= j <= |slots|
    ensures Rank(slots, i) <= Rank(slots, j) <= Rank(slots, i) + (j - i)
    ensures i < j && slots[i].Compiled? ==> Rank(slots, i) < Rank(slots, j)
    decreases j
  {
    if i == j {
    } else {
      RankBounds(slots, i, j - 1);
    }
  }

  datatype ClassType = AllCompiled | SomeCompiled | NoneCompiled

  /** sizeof(status_), sizeof(type_), sizeof(method_bitmap_size_), sizeof(OatMethodOffsets). */
  const STATUS_FIELD: nat := 2
  const TYPE_FIELD: nat := 2
  const BITMAP_SIZE_FIELD: nat := 4
  const METHOD_OFFSETS: nat := 4

  datatype OatClass = OatClass(offset: nat, slots: seq<Slot>, kind: ClassType, bitmapSize: nat, bitmap: seq<bool>,
                               entryOffsets: seq<nat>, entries: nat)
  {
    function SizeOf(): nat {
      STATUS_FIELD + TYPE_FIELD + (if bitmapSize == 0 then 0 else BITMAP_SIZE_FIELD) + bitmapSize +
      METHOD_OFFSETS * entries
    }

    /** What precedes the OatMethodOffsets of the class. */
    function Prefix(): nat {
      STATUS_FIELD + TYPE_FIELD + if kind == SomeCompiled then BITMAP_SIZE_FIELD + bitmapSize else 0
    }
  }

  /** BitVector::GetSizeOf for a vector of n bits: whole 32-bit words. */
  function BitmapBytes(n: nat): nat { RoundUp(n, 32) / 32 * 4 }

  /** It holds n bits in as few words as possible. */
  lemma BitmapHolds(n: nat)
    ensures n <= 8 * BitmapBytes(n) < n + 32 && BitmapBytes(n) % 4 == 0
  {
    var words := MultipleOf(RoundUp(n, 32), 32);
    assert RoundUp(n, 32) / 32 == words;
    MultipleHasNoRemainder(words, 4);
  }

  ghost predicate WellFormed(c: OatClass) {
    && c.entries == Rank(c.slots, |c.slots|)
    && c.kind == (if c.entries == 0 then NoneCompiled else if c.entries == |c.slots| then AllCompiled else SomeCompiled)
    && c.bitmapSize == (if c.kind == SomeCompiled then BitmapBytes(|c.slots|) else 0)
    && |c.bitmap| == (if c.kind == SomeCompiled then |c.slots| else 0)
    && (forall i :: 0 <= i < |c.bitmap| ==> c.bitmap[i] == c.slots[i].Compiled?)
    && |c.entryOffsets| == |c.slots|
    && forall i :: 0 <= i < |c.slots| ==>
         c.entryOffsets[i] == if c.slots[i].NotCompiled? then 0
                              else c.Prefix() + METHOD_OFFSETS * Rank(c.slots, i)
  }

  /** Filling in the entries: `next` is the offset behind them. */
  method FillEntries(slots: seq<Slot>, prefix: nat, withBitmap: bool)
    returns (entryOffsets: seq<nat>, bitmap: seq<bool>, next: nat)
    ensures |entryOffsets| == |slots| && next == prefix + METHOD_OFFSETS * Rank(slots, |slots|)
    ensures forall k :: 0 <= k < |slots| ==>
              entryOffsets[k] == if slots[k].NotCompiled? then 0 else prefix + METHOD_OFFSETS * Rank(slots, k)
    ensures |bitmap| == if withBitmap then |slots| else 0
    ensures forall k :: 0 <= k < |bitmap| ==> bitmap[k] == slots[k].Compiled?
  {
    entryOffsets, bitmap, next := seq(|slots|, _ => 0), if withBitmap then seq(|slots|, _ => false) else [], prefix;
    for i := 0 to |slots|
      invariant |entryOffsets| == |slots| && |bitmap| == if withBitmap then |slots| else 0
      invariant next == prefix + METHOD_OFFSETS * Rank(slots, i)
      invariant forall k :: 0 <= k < i ==>
        entryOffsets[k] == if slots[k].NotCompiled? then 0 else prefix + METHOD_OFFSETS * Rank(slots, k)
      invariant forall k :: 0 <= k < |bitmap| ==> bitmap[k] == (k < i && slots[k].Compiled?)
    {
      if slots[i].NotCompiled? {
        entryOffsets := entryOffsets[i := 0];
      } else {
        entryOffsets := entryOffsets[i := next];
        next := next + METHOD_OFFSETS;
        if withBitmap {
          bitmap := bitmap[i := true];
        }
      }
    }
  }

  /** The OatClass constructor; `next` is its running offset in the end. */
  method MakeOatClass(offset: nat, slots: seq<Slot>, numCompiled: nat) returns (c: OatClass, next: nat)
    requires numCompiled == Rank(slots, |slots|)
    ensures c.offset == offset && c.slots == slots && WellFormed(c)
    ensures next == c.SizeOf()
  {
    var kind := if numCompiled == 0 then NoneCompiled
                else if numCompiled == |slots| then AllCompiled else SomeCompiled;
    next := STATUS_FIELD + TYPE_FIELD;
    var bitmapSize := 0;
    if kind == SomeCompiled {
      bitmapSize := BitmapBytes(|slots|);
      BitmapHolds(|slots|);
      next := next + BITMAP_SIZE_FIELD;
      next := next + bitmapSize;
    }
    var entryOffsets, bitmap;
    entryOffsets, bitmap, next := FillEntries(slots, next, kind == SomeCompiled);
    c := OatClass(offset, slots, kind, bitmapSize, bitmap, entryOffsets, numCompiled);
  }

  /** BitVector::NumSetBits(bitmap, end). */
  function NumSetBits(bitmap: seq<bool>, end: nat): nat
    requires end <= |bitmap|
  {
    if end == 0 then 0 else NumSetBits(bitmap, end - 1) + if bitmap[end - 1] then 1 else 0
  }

  /** Where the runtime looks for method i (GetOatClass and GetOatMethodOffsets), from the class start;
      0 when it finds no entry.  The runtime knows only the type, the bitmap and its size. */
  function ReaderEntry(kind: ClassType, bitmapSize: nat, bitmap: seq<bool>, i: nat): nat
    requires kind == SomeCompiled ==> i < |bitmap|
  {
    match kind
    case NoneCompiled => 0
    case AllCompiled => STATUS_FIELD + TYPE_FIELD + METHOD_OFFSETS * i
    case SomeCompiled =>
      if !bitmap[i] then 0
      else STATUS_FIELD + TYPE_FIELD + BITMAP_SIZE_FIELD + bitmapSize + METHOD_OFFSETS * NumSetBits(bitmap, i)
  }

  /** Counting the bits below a method gives its rank. */
  lemma {:induction false} SetBitsAreRank(slots: seq<Slot>, bitmap: seq<bool>, i: nat)
    requires i <= |slots| == |bitmap| && forall k :: 0 <= k < |bitmap| ==> bitmap[k] == slots[k].Compiled?
    ensures NumSetBits(bitmap, i) == Rank(slots, i)
  {
    if i == 0 {
    } else {
      SetBitsAreRank(slots, bitmap, i - 1);
    }
  }

  lemma {:induction false} FullRank(slots: seq<Slot>, i: nat)
    requires i <= |slots| && Rank(slots, |slots|) == |slots|
    ensures Rank(slots, i) == i
    ensures forall k :: 0 <= k < i ==> slots[k].Compiled?
  {
    RankBounds(slots, i, |slots|);
    if i == 0 {
    } else {
      FullRank(slots, i - 1);
    }
  }

  /** The runtime finds every method's entry where the writer recorded it, inside the written record. */
  lemma ReaderFindsEntry(c: OatClass, i: nat)
    requires WellFormed(c) && i < |c.slots|
    ensures ReaderEntry(c.kind, c.bitmapSize, c.bitmap, i) == c.entryOffsets[i]
    ensures c.entryOffsets[i] != 0 <==> c.slots[i].Compiled?
    ensures c.slots[i].Compiled? ==> c.entryOffsets[i] + METHOD_OFFSETS <= c.SizeOf()
  {
    RankBounds(c.slots, i, |c.slots|);
    match c.kind
    case NoneCompiled =>
    case AllCompiled =>
      FullRank(c.slots, i + 1);
      FullRank(c.slots, i);
    case SomeCompiled =>
      SetBitsAreRank(c.slots, c.bitmap, i);
  }

  /** One call of DexMethodVisitor::VisitMethod for a compiled method.  `entry` is the value of
      method_offsets_index_, the index into method_offsets_ and method_headers_ of class `cls`. */
  datatype Visit = Visit(cls: nat, entry: nat, ref: MethodRef, cm: CompiledMethod)

  function WalkClass(cls: nat, slots: seq<Slot>, n: nat): (w: seq<Visit>)
    requires n <= |slots|
    ensures |w| == Rank(slots, n)
  {
    if n == 0 then []
    else if slots[n - 1].NotCompiled? then WalkClass(cls, slots, n - 1)
    else WalkClass(cls, slots, n - 1) + [Visit(cls, Rank(slots, n - 1), slots[n - 1].ref, slots[n - 1].cm)]
  }

  function Walk(classes: seq<seq<Slot>>, n: nat): seq<Visit>
    requires n <= |classes|
  {
    if n == 0 then [] else Walk(classes, n - 1) + WalkClass(n - 1, classes[n - 1], |classes[n - 1]|)
  }

  /** The classes of all dex files, in the order oat_classes_ holds them. */
  function AllClasses(dexFiles: seq<seq<seq<Slot>>>, n: nat): seq<seq<Slot>>
    requires n <= |dexFiles|
  {
    if n == 0 then [] else AllClasses(dexFiles, n - 1) + dexFiles[n - 1]
  }

  /** Class c of dex file d comes behind the classes of the dex files before it. */
  lemma {:induction false} ClassesInOrder(dexFiles: seq<seq<seq<Slot>>>, n: nat, d: nat, c: nat)
    requires d < n <= |dexFiles| && c < |dexFiles[d]|
    ensures |AllClasses(dexFiles, d)| + c < |AllClasses(dexFiles, n)|
    ensures AllClasses(dexFiles, n)[|AllClasses(dexFiles, d)| + c] == dexFiles[d][c]
  {
    if d == n - 1 {
    } else {
      ClassesInOrder(dexFiles, n - 1, d, c);
    }
  }

  lemma {:induction false} WalkPrefix(a: seq<seq<Slot>>, b: seq<seq<Slot>>, n: nat)
    requires n <= |a|
    ensures Walk(a + b, n) == Walk(a, n)
  {
    if n == 0 {
    } else {
      WalkPrefix(a, b, n - 1);
    }
  }

  /** VisitDexMethods with an OatDexMethodVisitor: the counters oat_class_index_ and
      method_offsets_index_ run as in StartClass, VisitMethod and EndClass. */
  method VisitDexMethods(dexFiles: seq<seq<seq<Slot>>>) returns (visits: seq<Visit>)
    ensures var classes := AllClasses(dexFiles, |dexFiles|); visits == Walk(classes, |classes|)
  {
    visits := [];
    var oatClassIndex := 0;
    for d := 0 to |dexFiles|
      invariant oatClassIndex == |AllClasses(dexFiles, d)|
      invariant visits == Walk(AllClasses(dexFiles, d), oatClassIndex)
    {
      ghost var before := AllClasses(dexFiles, d);
      ghost var all := before + dexFiles[d];
      WalkPrefix(before, dexFiles[d], |before|);
      for c := 0 to |dexFiles[d]|
        invariant oatClassIndex == |before| + c
        invariant visits == Walk(all, oatClassIndex)
      {
        var slots := dexFiles[d][c];
        assert slots == all[oatClassIndex];
        var methodOffsetsIndex := 0;
        ghost var base := visits;
        for i := 0 to |slots|
          invariant methodOffsetsIndex == Rank(slots, i)
          invariant visits == base + WalkClass(oatClassIndex, slots, i)
        {
          if slots[i].Compiled? {
            visits := visits + [Visit(oatClassIndex, methodOffsetsIndex, slots[i].ref, slots[i].cm)];
            methodOffsetsIndex := methodOffsetsIndex + 1;
          }
        }
        oatClassIndex := oatClassIndex + 1;
      }
    }
  }

  lemma {:induction false} WalkClassEntries(cls: nat, slots: seq<Slot>, n: nat, i: nat)
    requires i < n <= |slots| && slots[i].Compiled?
    ensures Rank(slots, i) < Rank(slots, n)
    ensures WalkClass(cls, slots, n)[Rank(slots, i)] == Visit(cls, Rank(slots, i), slots[i].ref, slots[i].cm)
  {
    if i == n - 1 {
    } else {
      WalkClassEntries(cls, slots, n - 1, i);
    }
  }

  /** Every compiled method is visited, as entry number Rank of its class, and the entries of a class follow those of
      the classes before it: the per-class tables that the passes fill and read are one flat table in visiting order. */
  lemma {:induction false} MethodsAreVisited(classes: seq<seq<Slot>>, n: nat, c: nat, i: nat)
    requires c < n <= |classes| && i < |classes[c]| && classes[c][i].Compiled?
    ensures var k, slot := |Walk(classes, c)| + Rank(classes[c], i), classes[c][i];
            && k < |Walk(classes, n)| && Walk(classes, n)[k] == Visit(c, Rank(classes[c], i), slot.ref, slot.cm)
  {
    if c == n - 1 {
      WalkClassEntries(c, classes[c], |classes[c]|, i);
    } else {
      MethodsAreVisited(classes, n - 1, c, i);
    }
  }

  /** Entry e of a class is that of its compiled method i. */
  lemma {:induction false} EntryHasMethod(slots: seq<Slot>, n: nat, e: nat) returns (i: nat)
    requires n <= |slots| && e < Rank(slots, n)
    ensures i < n && slots[i].Compiled? && Rank(slots, i) == e
  {
    if e == Rank(slots, n - 1) {
      i := n - 1;
    } else {
      i := EntryHasMethod(slots, n - 1, e);
    }
  }

  /** Conversely every visit is that of a compiled method, at its own flat position. */
  lemma {:induction false} VisitsAreMethods(classes: seq<seq<Slot>>, n: nat, k: nat) returns (c: nat, i: nat)
    requires n <= |classes| && k < |Walk(classes, n)|
    ensures c < n && i < |classes[c]| && classes[c][i].Compiled? && k == |Walk(classes, c)| + Rank(classes[c], i)
    ensures Walk(classes, n)[k] == Visit(c, Rank(classes[c], i), classes[c][i].ref, classes[c][i].cm)
  {
    var m := |Walk(classes, n - 1)|;
    if k < m {
      c, i := VisitsAreMethods(classes, n - 1, k);
    } else {
      c := n - 1;
      i := EntryHasMethod(classes[c], |classes[c]|, k - m);
      WalkClassEntries(c, classes[c], |classes[c]|, i);
    }
  }
}
