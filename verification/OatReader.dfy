/** The runtime's first look at an oat file (runtime/oat_file.cc OatFileBase::Setup): it walks over the OatDexFile
    records and refuses the file if anything in them leads out of it. */
module OatReader {
  import opened Alignment
  import opened CodeLayout
  import opened Dex2Oat
  import opened OatRegions
  import opened OatWriters
  import opened Streams
  import opened VmapTables

  /** sizeof(DexFile::Header). */
  const DEX_HEADER: nat := 112

  /** What the checks of Setup ask of the fields of record i, which begins at `oat`.  `size` is that of the oat data. */
  ghost predicate Passes(dex: seq<DexInput>, d: DexOffsets, size: nat, oat: nat, i: nat)
    requires i < |dex| == |d.dexFiles| == |d.lookupTables| == |d.classTables|
  {
    && oat + 20 + dex[i].locationSize <= size && dex[i].locationSize != 0
    && 0 != d.dexFiles[i] <= size && DEX_HEADER <= size - d.dexFiles[i] && dex[i].fileSize <= size - d.dexFiles[i]
    && d.classTables[i] <= size && |dex[i].classes| <= (size - d.classTables[i]) / 4 && d.classTables[i] % 4 == 0
    && (d.lookupTables[i] != 0 ==> d.lookupTables[i] <= size && dex[i].lookupSize <= size - d.lookupTables[i])
  }

  /** Setup accepts record i.  `bss` is the size of .bss, or 0 if there is none. */
  ghost predicate AcceptsAt(dex: seq<DexInput>, headerSize: nat, d: DexOffsets, size: nat, bss: nat,
                            cacheSizes: seq<nat>, i: nat)
    requires i < |dex| == |d.dexFiles| == |d.lookupTables| == |d.classTables| == |cacheSizes|
  {
    && Passes(dex, d, size, RecordsEnd(dex, headerSize, i), i)
    && (bss != 0 && cacheSizes[i] != 0 ==> SumTo(cacheSizes, i) + cacheSizes[i] <= bss)
  }

  /** Reading the fields of one record: `oat'` is behind them. */
  method ReadRecord(dex: seq<DexInput>, d: DexOffsets, size: nat, base: nat, oat: nat, i: nat)
    returns (ok: bool, oat': nat, fields: seq<Chunk>)
    requires i < |dex| == |d.dexFiles| == |d.lookupTables| == |d.classTables|
    ensures ok <==> Passes(dex, d, size, oat, i)
    ensures ok ==> oat' == oat + dex[i].RecordSize()
    ensures fields <= RecordChunks(dex[i], i, base + oat) && (ok ==> fields == RecordChunks(dex[i], i, base + oat))
  {
    ok, oat', fields := false, oat, [];
    if size < oat' + 4 {
      return;
    }
    fields := fields + [Chunk(base + oat', 4, OatDexFile(i, LocationSize))];
    var locationSize := dex[i].locationSize;
    oat' := oat' + 4;
    if locationSize == 0 || size < oat' + locationSize {
      return;
    }
    fields := fields + [Chunk(base + oat', locationSize, OatDexFile(i, LocationData))];
    oat' := oat' + locationSize;
    if size < oat' + 4 {
      return;
    }
    fields := fields + [Chunk(base + oat', 4, OatDexFile(i, LocationChecksum))];
    oat' := oat' + 4;
    if size < oat' + 4 {
      return;
    }
    fields := fields + [Chunk(base + oat', 4, OatDexFile(i, DexFileOffset))];
    oat' := oat' + 4;
    var dexFile := d.dexFiles[i];
    if dexFile == 0 || dexFile > size || size - dexFile < DEX_HEADER || size - dexFile < dex[i].fileSize {
      return;
    }
    if size < oat' + 4 {
      return;
    }
    fields := fields + [Chunk(base + oat', 4, OatDexFile(i, ClassOffsetsOffset))];
    oat' := oat' + 4;
    var classTable := d.classTables[i];
    if classTable > size || (size - classTable) / 4 < |dex[i].classes| || classTable % 4 != 0 {
      return;
    }
    if size < oat' + 4 {
      return;
    }
    fields := fields + [Chunk(base + oat', 4, OatDexFile(i, LookupTableOffset))];
    oat' := oat' + 4;
    var lookupTable := d.lookupTables[i];
    if lookupTable != 0 && (lookupTable > size || size - lookupTable < dex[i].lookupSize) {
      return;
    }
    ok := true;
  }

  /** The arrays of file i in .bss, if there are any. */
  ghost predicate CacheAt(caches: map<nat, nat>, bss: nat, cacheSizes: seq<nat>, i: nat)
    requires i < |cacheSizes|
  {
    && (i in caches <==> bss != 0 && cacheSizes[i] != 0)
    && (i in caches ==> caches[i] == SumTo(cacheSizes, i))
  }

  /** Setup.  The file is accepted exactly if every record passes the checks.  Every field is read where the writer has
      put that field, and the dex cache arrays are looked for in .bss one behind the other. */
  method Setup(dex: seq<DexInput>, headerSize: nat, d: DexOffsets, size: nat, bss: nat, cacheSizes: seq<nat>, base: nat,
               ghost log: seq<Chunk>)
    returns (ok: bool, caches: map<nat, nat>, fields: seq<Chunk>)
    requires |dex| == |d.dexFiles| == |d.lookupTables| == |d.classTables| == |cacheSizes| && OAT_HEADER <= headerSize
    ensures ok <==>
              && headerSize <= size
              && forall i {:trigger AcceptsAt(dex, headerSize, d, size, bss, cacheSizes, i)} :: 0 <= i < |dex| ==>
                   AcceptsAt(dex, headerSize, d, size, bss, cacheSizes, i)
    ensures RecordsInFile(dex, headerSize, base, log) ==> AllIn(fields, log)
    ensures ok ==> |fields| == 6 * |dex|
    ensures ok ==> forall i :: 0 <= i < |dex| ==> CacheAt(caches, bss, cacheSizes, i)
  {
    ok, caches, fields := false, map[], [];
    if size < OAT_HEADER || size < headerSize {
      return;
    }
    var oat, arrays := headerSize, 0;
    for i := 0 to |dex|
      invariant oat == RecordsEnd(dex, headerSize, i) && |fields| == 6 * i
      invariant bss != 0 ==> arrays == SumTo(cacheSizes, i)
      invariant RecordsInFile(dex, headerSize, base, log) ==> AllIn(fields, log)
      invariant forall j {:trigger AcceptsAt(dex, headerSize, d, size, bss, cacheSizes, j)} :: 0 <= j < i ==>
                  AcceptsAt(dex, headerSize, d, size, bss, cacheSizes, j)
      invariant forall j :: j in caches ==> j < i
      invariant forall j {:trigger CacheAt(caches, bss, cacheSizes, j)} :: 0 <= j < i ==>
                  CacheAt(caches, bss, cacheSizes, j)
    {
      assert RecordsInFile(dex, headerSize, base, log) ==> RecordInFile(dex, headerSize, base, log, i);
      var accepted, behind, more := ReadRecord(dex, d, size, base, oat, i);
      fields := fields + more;
      if !accepted {
        assert !AcceptsAt(dex, headerSize, d, size, bss, cacheSizes, i);
        return;
      }
      oat := behind;
      ghost var before := caches;
      if bss != 0 && cacheSizes[i] != 0 {
        if bss - arrays < cacheSizes[i] {
          assert !AcceptsAt(dex, headerSize, d, size, bss, cacheSizes, i);
          return;
        }
        caches := caches[i := arrays];
        arrays := arrays + cacheSizes[i];
      }
      assert AcceptsAt(dex, headerSize, d, size, bss, cacheSizes, i);
      forall j {:trigger CacheAt(caches, bss, cacheSizes, j)} | 0 <= j < i + 1
        ensures CacheAt(caches, bss, cacheSizes, j)
      {
        if j < i { assert CacheAt(before, bss, cacheSizes, j); }
      }
    }
    ok := true;
  }

  /** The ends of the regions of the dex files ascend. */
  lemma {:induction false} EndsAscend(dex: seq<DexInput>, start: nat, i: nat, k: nat)
    requires i <= k <= |dex|
    ensures RecordsEnd(dex, start, i) <= RecordsEnd(dex, start, k)
    ensures DexFilesEnd(dex, start, i) <= DexFilesEnd(dex, start, k)
    ensures LookupTablesEnd(dex, start, i) <= LookupTablesEnd(dex, start, k)
    ensures ClassTablesEnd(dex, start, i) <= ClassTablesEnd(dex, start, k)
    decreases k
  {
    if i == k {
    } else {
      EndsAscend(dex, start, i, k - 1);
    }
  }

  /** A dex file, a lookup table and a class offset table lie inside their regions. */
  lemma DexFileInside(dex: seq<DexInput>, start: nat, offset: nat, i: nat)
    requires i < |dex| && DexFileAt(dex, start, offset, i)
    ensures start <= offset && offset + dex[i].fileSize == DexFilesEnd(dex, start, i + 1)
    ensures offset + dex[i].fileSize <= DexFilesEnd(dex, start, |dex|)
  {
    EndsAscend(dex, start, 0, i);
    EndsAscend(dex, start, i + 1, |dex|);
  }

  lemma LookupTableInside(dex: seq<DexInput>, start: nat, offset: nat, i: nat)
    requires i < |dex| && LookupTableAt(dex, start, offset, i)
    ensures offset != 0 ==>
              && offset + dex[i].lookupSize == LookupTablesEnd(dex, start, i + 1) <= LookupTablesEnd(dex, start, |dex|)
  {
    EndsAscend(dex, start, i + 1, |dex|);
  }

  lemma ClassTableInside(dex: seq<DexInput>, start: nat, offset: nat, i: nat)
    requires i < |dex| && ClassTableAt(dex, start, offset, i)
    ensures offset % 4 == 0 && offset + 4 * |dex[i].classes| <= ClassTablesEnd(dex, start, |dex|)
    ensures |dex[i].classes| != 0 ==> offset + 4 * |dex[i].classes| == ClassTablesEnd(dex, start, i + 1)
  {
    EndsAscend(dex, start, 0, |dex|);
    EndsAscend(dex, start, i + 1, |dex|);
  }

  /** What the writer has laid out is inside the oat data. */
  lemma WriterPasses(input: Input, d: DexOffsets, size: nat, i: nat)
    requires input.Valid() && DexPlaced(input, d) && input.TablesEndAt() <= size && i < |input.dex|
    requires input.dex[i].locationSize != 0 && DEX_HEADER <= input.dex[i].fileSize
    ensures Passes(input.dex, d, size, RecordsEnd(input.dex, input.headerSize, i), i)
  {
    RegionsFollow(input);
    EndsAscend(input.dex, input.headerSize, i + 1, |input.dex|);
    assert DexFileAt(input.dex, input.RecordsEndAt(), d.dexFiles[i], i);
    DexFileInside(input.dex, input.RecordsEndAt(), d.dexFiles[i], i);
    assert LookupTableAt(input.dex, input.DexEndAt(), d.lookupTables[i], i);
    LookupTableInside(input.dex, input.DexEndAt(), d.lookupTables[i], i);
    assert ClassTableAt(input.dex, input.LookupEndAt(), d.classTables[i], i);
    ClassTableInside(input.dex, input.LookupEndAt(), d.classTables[i], i);
  }

  /** So the runtime accepts it if every location has a name and every dex file a header, and it looks for the dex cache
      arrays where the writer believes them to be. */
  lemma WriterIsAccepted(input: Input, d: DexOffsets, size: nat, bss: nat, dexCaches: seq<nat>, i: nat)
    requires input.Valid() && DexPlaced(input, d) && input.TablesEndAt() <= size && i < |input.dex|
    requires bss == 0 || DexCachesPlaced(input.dexCacheSizes, size, dexCaches, bss)
    requires input.dex[i].locationSize != 0 && DEX_HEADER <= input.dex[i].fileSize
    ensures AcceptsAt(input.dex, input.headerSize, d, size, bss, input.dexCacheSizes, i)
    ensures bss != 0 ==> dexCaches[i] == RoundUp(size, PAGE_SIZE) + SumTo(input.dexCacheSizes, i)
  {
    WriterPasses(input, d, size, i);
    if bss != 0 {
      assert DexCacheAt(input.dexCacheSizes, size, dexCaches[i], i);
      SumGrows(input.dexCacheSizes, i + 1, |input.dex|);
    }
  }

  /** The runtime accepts a finished file if every dex location has a name and every dex file a header, and it reads
      every field of the records where the writer has put it. */
  lemma RuntimeAccepts(f: OatFileImage, t: MapPlan, p: Plan, i: nat)
    requires f.input.Valid() && PlanOk(f, t, p) && ContentsOk(f, t, p) && i < |f.input.dex|
    requires f.input.dex[i].locationSize != 0 && DEX_HEADER <= f.input.dex[i].fileSize
    ensures RecordsInFile(f.input.dex, f.input.headerSize, PAGE_SIZE, f.log) && f.input.headerSize <= f.layout.size
    ensures |f.dexOffsets.dexFiles| == |f.dexOffsets.lookupTables| == |f.dexOffsets.classTables| == |f.input.dex|
    ensures AcceptsAt(f.input.dex, f.input.headerSize, f.dexOffsets, f.layout.size, f.bssSize, f.input.dexCacheSizes, i)
  {
    CodeBehindHeader(f.input, f.layout, t);
    assert DexPlaced(f.input, f.dexOffsets);
    WriterIsAccepted(f.input, f.dexOffsets, f.layout.size, f.bssSize, f.dexCaches, i);
  }
}
