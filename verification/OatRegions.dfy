/** The data regions of an oat file in front of the code (compiler/oat_writer.cc: OatDexFile records, dex files, type
    lookup tables, class offset tables and OatClass records).  Each step also returns what it adds to the size
    counters. */
module OatRegions {
  import opened Alignment
  import opened OatClasses
  import opened Streams

  const OAT_HEADER: nat := 72

  /** A dex file source.  lookupSize is TypeLookupTable::RawDataLength of its class count. */
  datatype DexInput = DexInput(locationSize: nat, fileSize: nat, createLookup: bool, lookupSize: nat,
                               classes: seq<seq<Slot>>)
  {
    /** OatDexFile::SizeOf. */
    function RecordSize(): nat { 4 + locationSize + 4 + 4 + 4 + 4 }

    predicate HasLookup() { createLookup && |classes| != 0 && lookupSize != 0 }

    function ClassTableSize(): nat { 4 * |classes| }
  }

  /** Where the regions of the first n dex files end when they start at `start`. */
  function RecordsEnd(dex: seq<DexInput>, start: nat, n: nat): nat
    requires n <= |dex|
  {
    if n == 0 then start else RecordsEnd(dex, start, n - 1) + dex[n - 1].RecordSize()
  }

  function DexFilesEnd(dex: seq<DexInput>, start: nat, n: nat): nat
    requires n <= |dex|
  {
    if n == 0 then start else RoundUp(DexFilesEnd(dex, start, n - 1), 4) + dex[n - 1].fileSize
  }

  function LookupTablesEnd(dex: seq<DexInput>, start: nat, n: nat): nat
    requires n <= |dex|
  {
    if n == 0 then start
    else if !dex[n - 1].HasLookup() then LookupTablesEnd(dex, start, n - 1)
    else RoundUp(LookupTablesEnd(dex, start, n - 1), 4) + dex[n - 1].lookupSize
  }

  function ClassTablesEnd(dex: seq<DexInput>, start: nat, n: nat): nat
    requires n <= |dex|
  {
    if n == 0 then start
    else if |dex[n - 1].classes| == 0 then ClassTablesEnd(dex, start, n - 1)
    else RoundUp(ClassTablesEnd(dex, start, n - 1), 4) + dex[n - 1].ClassTableSize()
  }

  /** The bytes of all class offset tables; they are counted only when they are written. */
  function ClassTablesSize(dex: seq<DexInput>, n: nat): nat
    requires n <= |dex|
  {
    if n == 0 then 0 else ClassTablesSize(dex, n - 1) + dex[n - 1].ClassTableSize()
  }

  /** Dex file d, type lookup table d and class offset table d are where the layout has them; 0 stands
      for no table. */
  ghost predicate DexFileAt(dex: seq<DexInput>, start: nat, offset: nat, d: nat)
    requires d < |dex|
  {
    offset == RoundUp(DexFilesEnd(dex, start, d), 4)
  }

  ghost predicate LookupTableAt(dex: seq<DexInput>, start: nat, offset: nat, d: nat)
    requires d < |dex|
  {
    offset == if dex[d].HasLookup() then RoundUp(LookupTablesEnd(dex, start, d), 4) else 0
  }

  ghost predicate ClassTableAt(dex: seq<DexInput>, start: nat, offset: nat, d: nat)
    requires d < |dex|
  {
    offset == if |dex[d].classes| != 0 then RoundUp(ClassTablesEnd(dex, start, d), 4) else 0
  }

  /** Their chunks in the file. */
  ghost function DexFileChunk(dex: seq<DexInput>, base: nat, offset: nat, d: nat): Chunk
    requires d < |dex|
  {
    Chunk(base + offset, dex[d].fileSize, DexFile(d))
  }

  ghost function ClassTableChunk(dex: seq<DexInput>, base: nat, offset: nat, d: nat): Chunk
    requires d < |dex|
  {
    Chunk(base + offset, dex[d].ClassTableSize(), ClassOffsets(d))
  }

  /** The fields of record d, written from `at` on. */
  ghost function RecordChunks(dex: DexInput, d: nat, at: nat): seq<Chunk> {
    [Chunk(at, 4, OatDexFile(d, LocationSize)),
     Chunk(at + 4, dex.locationSize, OatDexFile(d, LocationData)),
     Chunk(at + 4 + dex.locationSize, 4, OatDexFile(d, LocationChecksum)),
     Chunk(at + 8 + dex.locationSize, 4, OatDexFile(d, DexFileOffset)),
     Chunk(at + 12 + dex.locationSize, 4, OatDexFile(d, ClassOffsetsOffset)),
     Chunk(at + 16 + dex.locationSize, 4, OatDexFile(d, LookupTableOffset))]
  }

  ghost predicate DexFilesPlaced(dex: seq<DexInput>, start: nat, offsets: seq<nat>) {
    && |offsets| == |dex|
    && forall d {:trigger DexFileAt(dex, start, offsets[d], d)} :: 0 <= d < |dex| ==>
         DexFileAt(dex, start, offsets[d], d)
  }

  ghost predicate LookupTablesPlaced(dex: seq<DexInput>, start: nat, offsets: seq<nat>) {
    && |offsets| == |dex|
    && forall d {:trigger LookupTableAt(dex, start, offsets[d], d)} :: 0 <= d < |dex| ==>
         LookupTableAt(dex, start, offsets[d], d)
  }

  ghost predicate ClassTablesPlaced(dex: seq<DexInput>, start: nat, offsets: seq<nat>) {
    && |offsets| == |dex|
    && forall d {:trigger ClassTableAt(dex, start, offsets[d], d)} :: 0 <= d < |dex| ==>
         ClassTableAt(dex, start, offsets[d], d)
  }

  ghost predicate DexFilesInFile(dex: seq<DexInput>, base: nat, offsets: seq<nat>, log: seq<Chunk>) {
    |offsets| == |dex| && forall d :: 0 <= d < |dex| ==> DexFileChunk(dex, base, offsets[d], d) in log
  }

  /** All of these chunks are in the file. */
  ghost predicate AllIn(chunks: seq<Chunk>, log: seq<Chunk>) { forall c :: c in chunks ==> c in log }

  ghost predicate RecordInFile(dex: seq<DexInput>, start: nat, base: nat, log: seq<Chunk>, d: nat)
    requires d < |dex|
  {
    AllIn(RecordChunks(dex[d], d, base + RecordsEnd(dex, start, d)), log)
  }

  ghost predicate RecordsInFile(dex: seq<DexInput>, start: nat, base: nat, log: seq<Chunk>) {
    forall d {:trigger RecordInFile(dex, start, base, log, d)} :: 0 <= d < |dex| ==>
      RecordInFile(dex, start, base, log, d)
  }

  lemma RecordsStay(dex: seq<DexInput>, start: nat, base: nat, log: seq<Chunk>, log': seq<Chunk>)
    requires RecordsInFile(dex, start, base, log) && log <= log'
    ensures RecordsInFile(dex, start, base, log')
  {
    forall d {:trigger RecordInFile(dex, start, base, log', d)} | 0 <= d < |dex|
      ensures RecordInFile(dex, start, base, log', d)
    {
      assert RecordInFile(dex, start, base, log, d);
    }
  }

  ghost predicate ClassTablesInFile(dex: seq<DexInput>, base: nat, offsets: seq<nat>, log: seq<Chunk>) {
    && |offsets| == |dex|
    && forall d :: 0 <= d < |dex| && |dex[d].classes| != 0 ==> ClassTableChunk(dex, base, offsets[d], d) in log
  }

  /** The fields of OatClass i, written from `at` on. */
  ghost function ClassChunks(c: OatClass, i: nat, at: nat): seq<Chunk> {
    if c.bitmapSize == 0 then
      [Chunk(at, STATUS_FIELD, OatClassRecord(i, ClassStatus)),
       Chunk(at + STATUS_FIELD, TYPE_FIELD, OatClassRecord(i, ClassKind)),
       Chunk(at + STATUS_FIELD + TYPE_FIELD, METHOD_OFFSETS * c.entries, OatClassRecord(i, MethodOffsets))]
    else
      [Chunk(at, STATUS_FIELD, OatClassRecord(i, ClassStatus)),
       Chunk(at + STATUS_FIELD, TYPE_FIELD, OatClassRecord(i, ClassKind)),
       Chunk(at + STATUS_FIELD + TYPE_FIELD, BITMAP_SIZE_FIELD, OatClassRecord(i, BitmapSize)),
       Chunk(at + STATUS_FIELD + TYPE_FIELD + BITMAP_SIZE_FIELD, c.bitmapSize, OatClassRecord(i, Bitmap)),
       Chunk(at + STATUS_FIELD + TYPE_FIELD + BITMAP_SIZE_FIELD + c.bitmapSize, METHOD_OFFSETS * c.entries,
             OatClassRecord(i, MethodOffsets))]
  }

  ghost predicate ClassInFile(classes: seq<OatClass>, base: nat, log: seq<Chunk>, i: nat)
    requires i < |classes|
  {
    AllIn(ClassChunks(classes[i], i, base + classes[i].offset), log)
  }

  ghost predicate ClassesInFile(classes: seq<OatClass>, base: nat, log: seq<Chunk>) {
    forall i {:trigger ClassInFile(classes, base, log, i)} :: 0 <= i < |classes| ==> ClassInFile(classes, base, log, i)
  }

  lemma ClassesStay(classes: seq<OatClass>, base: nat, log: seq<Chunk>, log': seq<Chunk>)
    requires ClassesInFile(classes, base, log) && log <= log'
    ensures ClassesInFile(classes, base, log')
  {
    forall i {:trigger ClassInFile(classes, base, log', i)} | 0 <= i < |classes|
      ensures ClassInFile(classes, base, log', i)
    {
      assert ClassInFile(classes, base, log, i);
    }
  }

  /** The bitmap is written exactly for classes of which some methods are compiled. */
  lemma BitmapIffSome(c: OatClass)
    requires WellFormed(c)
    ensures c.bitmapSize != 0 <==> c.kind == SomeCompiled
  {
    if c.kind == SomeCompiled {
      assert RoundUp(|c.slots|, 32) / 32 >= 1;
    }
  }

  /** The entry that the runtime computes for a compiled method lies among the method offsets that Write emits, at the
      method's rank. */
  lemma EntryIsWritten(c: OatClass, k: nat, at: nat, i: nat) returns (offsets: Chunk)
    requires WellFormed(c) && i < |c.slots| && c.slots[i].Compiled?
    ensures offsets in ClassChunks(c, k, at) && offsets.content == OatClassRecord(k, MethodOffsets)
    ensures var entry := at + ReaderEntry(c.kind, c.bitmapSize, c.bitmap, i);
            && entry == offsets.at + METHOD_OFFSETS * Rank(c.slots, i)
            && offsets.at <= entry && entry + METHOD_OFFSETS <= offsets.End()
  {
    BitmapIffSome(c);
    ReaderFindsEntry(c, i);
    RankBounds(c.slots, i, |c.slots|);
    offsets := ClassChunks(c, k, at)[|ClassChunks(c, k, at)| - 1];
  }

  /** WriteDexFiles: every dex file goes to the next multiple of four. */
  method WriteDexFiles(out: Stream, base: nat, dex: seq<DexInput>, start: nat)
    returns (size: nat, offsets: seq<nat>, alignment: nat, bytes: nat)
    modifies out
    ensures size == DexFilesEnd(dex, start, |dex|) && alignment + bytes == size - start
    ensures DexFilesPlaced(dex, start, offsets) && DexFilesInFile(dex, base, offsets, out.log)
    ensures Appends(old(out.log), base + start, out.log, base + size)
  {
    size, offsets, alignment, bytes := start, [], 0, 0;
    for d := 0 to |dex|
      invariant size == DexFilesEnd(dex, start, d) && alignment + bytes == size - start
      invariant |offsets| == d && forall i :: 0 <= i < d ==> DexFileAt(dex, start, offsets[i], i)
      invariant Appends(old(out.log), base + start, out.log, base + size)
      invariant forall i :: 0 <= i < d ==> DexFileChunk(dex, base, offsets[i], i) in out.log
    {
      var offset := RoundUp(size, 4);
      alignment := alignment + (offset - size);
      out.Seek(base + offset);
      AppendsSeek(old(out.log), base + start, out.log, base + size, base + offset);
      size := offset;
      offsets := offsets + [offset];
      ghost var log := out.log;
      out.WriteFully(dex[d].fileSize, DexFile(d));
      AppendsMore(old(out.log), base + start, log, base + offset, out.log, out.pos);
      assert out.log[|out.log| - 1] == DexFileChunk(dex, base, offset, d);
      size := size + dex[d].fileSize;
      bytes := bytes + dex[d].fileSize;
    }
  }

  /** ReserveTypeLookupTable for every dex file; 0 stands for no table. */
  method ReserveTypeLookupTables(dex: seq<DexInput>, start: nat)
    returns (size: nat, offsets: seq<nat>, alignment: nat, bytes: nat)
    ensures size == LookupTablesEnd(dex, start, |dex|) && alignment + bytes == size - start
    ensures LookupTablesPlaced(dex, start, offsets)
    ensures forall d :: 0 <= d < |dex| && (!dex[d].createLookup || |dex[d].classes| == 0 || dex[d].lookupSize == 0) ==>
              offsets[d] == 0
    ensures forall d :: 0 <= d < |dex| && dex[d].createLookup && |dex[d].classes| != 0 && dex[d].lookupSize != 0 ==>
              start <= offsets[d] && offsets[d] % 4 == 0
  {
    size, offsets, alignment, bytes := start, [], 0, 0;
    for d := 0 to |dex|
      invariant size == LookupTablesEnd(dex, start, d) && alignment + bytes == size - start
      invariant |offsets| == d
      invariant forall i :: 0 <= i < d ==> LookupTableAt(dex, start, offsets[i], i)
      invariant forall i :: 0 <= i < d && (!dex[i].createLookup || |dex[i].classes| == 0 || dex[i].lookupSize == 0) ==>
                  offsets[i] == 0
      invariant forall i :: 0 <= i < d && dex[i].createLookup && |dex[i].classes| != 0 && dex[i].lookupSize != 0 ==>
                  start <= offsets[i] && offsets[i] % 4 == 0
    {
      var lookup := 0;
      if dex[d].createLookup && |dex[d].classes| != 0 {
        var tableSize := dex[d].lookupSize;
        if tableSize != 0 {
          var offset := RoundUp(size, 4);
          alignment := alignment + (offset - size);
          lookup := offset;
          size := offset + tableSize;
          bytes := bytes + tableSize;
        }
      }
      offsets := offsets + [lookup];
    }
  }

  /** ReserveClassOffsets for every dex file; only the alignment is counted here. */
  method ReserveClassOffsets(dex: seq<DexInput>, start: nat)
    returns (size: nat, offsets: seq<nat>, alignment: nat)
    ensures size == ClassTablesEnd(dex, start, |dex|)
    ensures alignment == size - start - ClassTablesSize(dex, |dex|)
    ensures ClassTablesPlaced(dex, start, offsets)
  {
    size, offsets, alignment := start, [], 0;
    for d := 0 to |dex|
      invariant size == ClassTablesEnd(dex, start, d)
      invariant alignment == size - start - ClassTablesSize(dex, d)
      invariant |offsets| == d
      invariant forall i :: 0 <= i < d ==> ClassTableAt(dex, start, offsets[i], i)
    {
      var table := 0;
      if |dex[d].classes| != 0 {
        var offset := RoundUp(size, 4);
        alignment := alignment + (offset - size);
        table := offset;
        size := offset + dex[d].ClassTableSize();
      }
      offsets := offsets + [table];
    }
  }

  /** The counters of the OatDexFile records. */
  datatype RecordSizes = RecordSizes(locationSize: nat, locationData: nat, checksum: nat, dexOffset: nat,
                                     classOffsetsOffset: nat, lookupOffset: nat)
  {
    function Total(): nat { locationSize + locationData + checksum + dexOffset + classOffsetsOffset + lookupOffset }
  }

  /** OatDexFile::Write: the six fields together take SizeOf bytes. */
  method WriteOatDexFile(out: Stream, dex: DexInput, d: nat, sizes: RecordSizes) returns (sizes': RecordSizes)
    modifies out
    ensures out.log == old(out.log) + RecordChunks(dex, d, old(out.pos)) && out.pos == old(out.pos) + dex.RecordSize()
    ensures Appends(old(out.log), old(out.pos), out.log, out.pos)
    ensures sizes'.Total() == sizes.Total() + dex.RecordSize()
  {
    sizes' := sizes;
    out.WriteFully(4, OatDexFile(d, LocationSize));
    sizes' := sizes'.(locationSize := sizes'.locationSize + 4);
    out.WriteFully(dex.locationSize, OatDexFile(d, LocationData));
    sizes' := sizes'.(locationData := sizes'.locationData + dex.locationSize);
    out.WriteFully(4, OatDexFile(d, LocationChecksum));
    sizes' := sizes'.(checksum := sizes'.checksum + 4);
    out.WriteFully(4, OatDexFile(d, DexFileOffset));
    sizes' := sizes'.(dexOffset := sizes'.dexOffset + 4);
    out.WriteFully(4, OatDexFile(d, ClassOffsetsOffset));
    sizes' := sizes'.(classOffsetsOffset := sizes'.classOffsetsOffset + 4);
    out.WriteFully(4, OatDexFile(d, LookupTableOffset));
    sizes' := sizes'.(lookupOffset := sizes'.lookupOffset + 4);
    assert out.log == old(out.log) + RecordChunks(dex, d, old(out.pos));
    AppendsRun(old(out.log), old(out.pos), RecordChunks(dex, d, old(out.pos)), out.pos);
  }

  /** WriteOatDexFiles: each record is written where InitOatDexFiles put it. */
  method WriteOatDexFiles(out: Stream, base: nat, dex: seq<DexInput>, start: nat) returns (sizes: RecordSizes)
    modifies out
    ensures out.pos == base + RecordsEnd(dex, start, |dex|)
    ensures Appends(old(out.log), base + start, out.log, out.pos)
    ensures sizes.Total() == RecordsEnd(dex, start, |dex|) - start
    ensures RecordsInFile(dex, start, base, out.log)
  {
    out.Seek(base + start);
    sizes := RecordSizes(0, 0, 0, 0, 0, 0);
    for d := 0 to |dex|
      invariant out.pos == base + RecordsEnd(dex, start, d)
      invariant Appends(old(out.log), base + start, out.log, out.pos)
      invariant sizes.Total() == RecordsEnd(dex, start, d) - start
      invariant forall i {:trigger RecordInFile(dex, start, base, out.log, i)} :: 0 <= i < d ==>
                  RecordInFile(dex, start, base, out.log, i)
    {
      ghost var log, pos := out.log, out.pos;
      sizes := WriteOatDexFile(out, dex[d], d, sizes);
      AppendsMore(old(out.log), base + start, log, pos, out.log, out.pos);
      forall i {:trigger RecordInFile(dex, start, base, out.log, i)} | 0 <= i < d + 1
        ensures RecordInFile(dex, start, base, out.log, i)
      {
        if i < d { assert RecordInFile(dex, start, base, log, i); }
      }
    }
  }

  /** WriteClassOffsets: seeks over the alignment gaps and ends behind the last table. */
  method WriteClassOffsets(out: Stream, base: nat, dex: seq<DexInput>, start: nat, offsets: seq<nat>)
    returns (bytes: nat)
    requires ClassTablesPlaced(dex, start, offsets) && 0 < start && out.pos == base + start
    modifies out
    ensures out.pos == base + ClassTablesEnd(dex, start, |dex|)
    ensures Appends(old(out.log), old(out.pos), out.log, out.pos)
    ensures bytes == ClassTablesSize(dex, |dex|)
    ensures ClassTablesInFile(dex, base, offsets, out.log)
  {
    bytes := 0;
    for d := 0 to |dex|
      invariant out.pos == base + ClassTablesEnd(dex, start, d)
      invariant Appends(old(out.log), old(out.pos), out.log, out.pos)
      invariant start <= ClassTablesEnd(dex, start, d)
      invariant bytes == ClassTablesSize(dex, d)
      invariant forall i :: 0 <= i < d && |dex[i].classes| != 0 ==>
                  ClassTableChunk(dex, base, offsets[i], i) in out.log
    {
      assert ClassTableAt(dex, start, offsets[d], d);
      if offsets[d] != 0 {
        ghost var log, pos := out.log, out.pos;
        out.Seek(base + offsets[d]);
        AppendsSeek(old(out.log), old(out.pos), log, pos, out.pos);
        pos := out.pos;
        out.WriteFully(dex[d].ClassTableSize(), ClassOffsets(d));
        AppendsMore(old(out.log), old(out.pos), log, pos, out.log, out.pos);
        assert out.log[|out.log| - 1] == ClassTableChunk(dex, base, offsets[d], d);
        bytes := bytes + dex[d].ClassTableSize();
      }
    }
  }

  /** The offset behind the first n records, which start at `start`. */
  ghost function ClassesEnd(classes: seq<OatClass>, start: nat, n: nat): nat
    requires n <= |classes|
  {
    if n == 0 then start else classes[n - 1].offset + classes[n - 1].SizeOf()
  }

  /** Records laid out one after the other. */
  ghost predicate Chained(classes: seq<OatClass>, start: nat) {
    forall i :: 0 <= i < |classes| ==> ChainedAt(classes, start, i)
  }

  ghost predicate ChainedAt(classes: seq<OatClass>, start: nat, i: nat)
    requires i < |classes|
  {
    WellFormed(classes[i]) && classes[i].offset == ClassesEnd(classes, start, i)
  }

  /** The runtime finds the entry of a compiled method among the method offsets of its class in the file. */
  lemma EntryInFile(classes: seq<OatClass>, start: nat, base: nat, log: seq<Chunk>, c: nat, i: nat)
    returns (offsets: Chunk)
    requires Chained(classes, start) && ClassesInFile(classes, base, log)
    requires c < |classes| && i < |classes[c].slots| && classes[c].slots[i].Compiled?
    ensures WellFormed(classes[c]) && offsets in log && offsets.content == OatClassRecord(c, MethodOffsets)
    ensures var record := classes[c];
            base + record.offset + ReaderEntry(record.kind, record.bitmapSize, record.bitmap, i)
            == offsets.at + METHOD_OFFSETS * Rank(record.slots, i)
  {
    assert ChainedAt(classes, start, c) && ClassInFile(classes, base, log, c);
    offsets := EntryIsWritten(classes[c], c, base + classes[c].offset, i);
  }

  lemma ChainMore(classes: seq<OatClass>, c: OatClass, start: nat)
    requires Chained(classes, start) && WellFormed(c) && c.offset == ClassesEnd(classes, start, |classes|)
    ensures Chained(classes + [c], start)
  {
    var more := classes + [c];
    forall k | 0 <= k <= |classes| ensures ChainedAt(more, start, k) {
      assert k > 0 ==> more[k - 1] == classes[k - 1];
      assert ClassesEnd(more, start, k) == ClassesEnd(classes, start, k);
      if k < |classes| {
        assert more[k] == classes[k] && ChainedAt(classes, start, k);
      }
    }
  }

  /** num_non_null_compiled_methods_ after the methods of a class. */
  method CountCompiled(slots: seq<Slot>) returns (n: nat)
    ensures n == Rank(slots, |slots|)
  {
    n := 0;
    for m := 0 to |slots|
      invariant n == Rank(slots, m)
    {
      if slots[m].Compiled? {
        n := n + 1;
      }
    }
  }

  /** InitOatClasses: the visitor counts the compiled methods of each class and lays the records out. */
  method InitOatClasses(classes: seq<seq<Slot>>, start: nat) returns (end: nat, oatClasses: seq<OatClass>)
    ensures |oatClasses| == |classes| && Chained(oatClasses, start) && end == ClassesEnd(oatClasses, start, |classes|)
    ensures forall i :: 0 <= i < |classes| ==> oatClasses[i].slots == classes[i]
  {
    end, oatClasses := start, [];
    for i := 0 to |classes|
      invariant |oatClasses| == i && Chained(oatClasses, start) && end == ClassesEnd(oatClasses, start, i)
      invariant forall k :: 0 <= k < i ==> oatClasses[k].slots == classes[k]
    {
      var numCompiled := CountCompiled(classes[i]);
      var c, next := MakeOatClass(end, classes[i], numCompiled);
      ChainMore(oatClasses, c, start);
      oatClasses := oatClasses + [c];
      end := end + c.SizeOf();
    }
  }

  /** The counters of the OatClass records. */
  datatype ClassSizes = ClassSizes(status: nat, types: nat, bitmaps: nat, methodOffsets: nat)
  {
    function Total(): nat { status + types + bitmaps + methodOffsets }
  }

  /** OatClass::Write: the three or five fields together take SizeOf bytes. */
  method WriteClass(out: Stream, c: OatClass, i: nat, sizes: ClassSizes) returns (sizes': ClassSizes)
    modifies out
    ensures out.log == old(out.log) + ClassChunks(c, i, old(out.pos)) && out.pos == old(out.pos) + c.SizeOf()
    ensures Appends(old(out.log), old(out.pos), out.log, out.pos)
    ensures sizes'.Total() == sizes.Total() + c.SizeOf()
  {
    sizes' := sizes;
    out.WriteFully(STATUS_FIELD, OatClassRecord(i, ClassStatus));
    sizes' := sizes'.(status := sizes'.status + STATUS_FIELD);
    out.WriteFully(TYPE_FIELD, OatClassRecord(i, ClassKind));
    sizes' := sizes'.(types := sizes'.types + TYPE_FIELD);
    if c.bitmapSize != 0 {
      out.WriteFully(BITMAP_SIZE_FIELD, OatClassRecord(i, BitmapSize));
      sizes' := sizes'.(bitmaps := sizes'.bitmaps + BITMAP_SIZE_FIELD);
      out.WriteFully(c.bitmapSize, OatClassRecord(i, Bitmap));
      sizes' := sizes'.(bitmaps := sizes'.bitmaps + c.bitmapSize);
    }
    out.WriteFully(METHOD_OFFSETS * c.entries, OatClassRecord(i, MethodOffsets));
    sizes' := sizes'.(methodOffsets := sizes'.methodOffsets + METHOD_OFFSETS * c.entries);
    assert out.log == old(out.log) + ClassChunks(c, i, old(out.pos));
    AppendsRun(old(out.log), old(out.pos), ClassChunks(c, i, old(out.pos)), out.pos);
  }

  /** WriteClasses: each record at its offset. */
  method WriteClasses(out: Stream, base: nat, classes: seq<OatClass>, ghost start: nat) returns (sizes: ClassSizes)
    requires Chained(classes, start) && out.pos == base + start
    modifies out
    ensures out.pos == base + ClassesEnd(classes, start, |classes|)
    ensures Appends(old(out.log), old(out.pos), out.log, out.pos)
    ensures sizes.Total() == ClassesEnd(classes, start, |classes|) - start
    ensures ClassesInFile(classes, base, out.log)
  {
    sizes := ClassSizes(0, 0, 0, 0);
    for i := 0 to |classes|
      invariant out.pos == base + ClassesEnd(classes, start, i)
      invariant Appends(old(out.log), old(out.pos), out.log, out.pos)
      invariant sizes.Total() == ClassesEnd(classes, start, i) - start
      invariant forall k {:trigger ClassInFile(classes, base, out.log, k)} :: 0 <= k < i ==>
                  ClassInFile(classes, base, out.log, k)
    {
      assert ChainedAt(classes, start, i);
      ghost var log, pos := out.log, out.pos;
      sizes := WriteClass(out, classes[i], i, sizes);
      AppendsMore(old(out.log), old(out.pos), log, pos, out.log, out.pos);
      forall k {:trigger ClassInFile(classes, base, out.log, k)} | 0 <= k < i + 1
        ensures ClassInFile(classes, base, out.log, k)
      {
        if k < i { assert ClassInFile(classes, base, log, k); }
      }
    }
  }
}
