/** A whole run of the OatWriter (compiler/oat_writer.cc WriteAndOpenDexFiles, PrepareLayout, WriteRodata,
    WriteCode, WriteHeader): the layout computed first is the layout written later. */
module OatWriters {
  import opened Alignment
  import opened OatClasses
  import opened OatRegions
  import opened CodeLayout
  import opened CodeWriter
  import opened VmapTables
  import opened Streams

  /** Everything a run depends on.  headerSize includes the key-value store; trampolines are the sizes of the
      five boot-image trampolines; needsThunk and finalThunk are the relative patcher's decisions;
      dexCacheSizes are the sizes of the dex cache arrays. */
  datatype Input = Input(headerSize: nat, cfg: Config, bootImage: bool, trampolines: seq<nat>, dex: seq<DexInput>,
                         needsThunk: seq<bool>, finalThunk: bool, dexCacheSizes: seq<nat>)
  {
    function Dex(n: nat): seq<seq<seq<Slot>>>
      requires n <= |dex|
    {
      seq(n, d requires 0 <= d < |dex| => dex[d].classes)
    }

    function Classes(): seq<seq<Slot>> { AllClasses(Dex(|dex|), |dex|) }

    function Visits(): seq<Visit> { Walk(Classes(), |Classes()|) }

    ghost predicate Valid() {
      && headerSize >= OAT_HEADER
      && |trampolines| == (if bootImage then 5 else 0)
      && |needsThunk| == |Visits()| && (finalThunk ==> |Classes()| > 0)
      && |dexCacheSizes| == |dex|
    }

    /** No Thumb-2 method without code is repeated before further code is reserved. */
    ghost predicate SafeWalk() { Safe(cfg, Visits(), |Visits()|) }

    /** Each method's patches are sorted and lie in its code. */
    ghost predicate PatchesSorted() {
      forall k {:trigger PatchesOk(Visits()[k].cm)} :: 0 <= k < |Visits()| ==> PatchesOk(Visits()[k].cm)
    }

    /** The ends of the regions written before PrepareLayout. */
    function RecordsEndAt(): nat { RecordsEnd(dex, headerSize, |dex|) }
    function DexEndAt(): nat { DexFilesEnd(dex, RecordsEndAt(), |dex|) }
    function LookupEndAt(): nat { LookupTablesEnd(dex, DexEndAt(), |dex|) }
    function TablesEndAt(): nat { ClassTablesEnd(dex, LookupEndAt(), |dex|) }
  }

  datatype WriteState =
    | AddingDexFileSources
    | PrepareLayoutNext
    | WriteRoDataNext
    | WriteTextNext
    | WriteHeaderNext
    | Done

  /** Where the first n trampolines end. */
  function TrampolinesEnd(cfg: Config, sizes: seq<nat>, start: nat, n: nat): nat
    requires n <= |sizes|
  {
    if n == 0 then start else cfg.Align(TrampolinesEnd(cfg, sizes, start, n - 1)) + sizes[n - 1]
  }

  /** Trampoline i starts at `at`. */
  ghost predicate TrampolineAt(cfg: Config, sizes: seq<nat>, start: nat, at: nat, i: nat)
    requires i < |sizes|
  {
    at == cfg.Align(TrampolinesEnd(cfg, sizes, start, i))
  }

  ghost predicate TrampolinesPlaced(cfg: Config, sizes: seq<nat>, start: nat, ats: seq<nat>) {
    && |ats| == |sizes|
    && forall i {:trigger TrampolineAt(cfg, sizes, start, ats[i], i)} :: 0 <= i < |sizes| ==>
         TrampolineAt(cfg, sizes, start, ats[i], i)
  }

  /** The trampolines of InitOatCode; the header stores these offsets plus the Thumb bit. */
  method PlaceTrampolines(cfg: Config, sizes: seq<nat>, start: nat) returns (end: nat, ats: seq<nat>)
    ensures end == TrampolinesEnd(cfg, sizes, start, |sizes|) && TrampolinesPlaced(cfg, sizes, start, ats)
  {
    end, ats := start, [];
    for i := 0 to |sizes|
      invariant end == TrampolinesEnd(cfg, sizes, start, i) && |ats| == i
      invariant forall j {:trigger TrampolineAt(cfg, sizes, start, ats[j], j)} :: 0 <= j < i ==>
                  TrampolineAt(cfg, sizes, start, ats[j], j)
    {
      end := cfg.Align(end);
      ats := ats + [end];
      end := end + sizes[i];
    }
  }

  /** Trampolines are aligned for the instruction set and lie one behind the other, with no more between them than the
      alignment takes. */
  lemma TrampolinesApart(cfg: Config, sizes: seq<nat>, start: nat, ats: seq<nat>, i: nat)
    requires TrampolinesPlaced(cfg, sizes, start, ats) && i < |sizes|
    ensures OnBoundary(cfg.isa, ats[i])
    ensures i == 0 ==> start <= ats[0] < start + 16
    ensures i + 1 < |sizes| ==> ats[i] + sizes[i] <= ats[i + 1] < ats[i] + sizes[i] + 16
    ensures i + 1 == |sizes| ==> ats[i] + sizes[i] == TrampolinesEnd(cfg, sizes, start, |sizes|)
  {
    assert TrampolineAt(cfg, sizes, start, ats[i], i);
    if i + 1 < |sizes| { assert TrampolineAt(cfg, sizes, start, ats[i + 1], i + 1); }
  }

  /** The trampolines of WriteCode. */
  method WriteTrampolines(out: Stream, base: nat, cfg: Config, sizes: seq<nat>, start: nat, ghost ats: seq<nat>)
    returns (end: nat, alignment: nat, bytes: nat)
    requires TrampolinesPlaced(cfg, sizes, start, ats) && out.pos == base + start
    modifies out
    ensures end == TrampolinesEnd(cfg, sizes, start, |sizes|)
    ensures Appends(old(out.log), old(out.pos), out.log, out.pos)
    ensures out.pos == base + end && end - start == alignment + bytes
    ensures forall i :: 0 <= i < |sizes| ==> Chunk(base + ats[i], sizes[i], Trampoline(i)) in out.log
  {
    end, alignment, bytes := start, 0, 0;
    for i := 0 to |sizes|
      invariant end == TrampolinesEnd(cfg, sizes, start, i)
      invariant Appends(old(out.log), old(out.pos), out.log, out.pos)
      invariant out.pos == base + end && end - start == alignment + bytes
      invariant forall j :: 0 <= j < i ==> Chunk(base + ats[j], sizes[j], Trampoline(j)) in out.log
    {
      assert TrampolineAt(cfg, sizes, start, ats[i], i);
      var padding := cfg.Align(end) - end;
      AppendsSeek(old(out.log), old(out.pos), out.log, out.pos, out.pos + padding);
      out.Seek(out.pos + padding);
      alignment := alignment + padding;
      ghost var log, pos := out.log, out.pos;
      out.WriteFully(sizes[i], Trampoline(i));
      AppendsMore(old(out.log), old(out.pos), log, pos, out.log, out.pos);
      bytes := bytes + sizes[i];
      end := end + padding + sizes[i];
    }
  }

  /** The size counters; the five trampoline counters are kept as one. */
  datatype Counters = Counters(oatHeader: nat, keyValueStore: nat, dexFileAlignment: nat, dexFile: nat,
                               records: RecordSizes, lookupTableAlignment: nat, lookupTable: nat,
                               classOffsetsAlignment: nat, classOffsets: nat, classes: ClassSizes, vmapTable: nat,
                               executableAlignment: nat, trampolineAlignment: nat, trampolines: nat, code: Sizes)
  {
    /** size_total of WriteCode. */
    function Total(): nat {
      oatHeader + keyValueStore + dexFileAlignment + dexFile + records.Total() + lookupTableAlignment + lookupTable +
      classOffsetsAlignment + classOffsets + classes.Total() + vmapTable + executableAlignment +
      trampolineAlignment + trampolines + code.Total()
    }
  }

  function NoBytes(): Counters {
    Counters(0, 0, 0, 0, RecordSizes(0, 0, 0, 0, 0, 0), 0, 0, 0, 0, ClassSizes(0, 0, 0, 0), 0, 0, 0, 0,
             Sizes(0, 0, 0, 0, 0))
  }

  /** No counter of the write phases has been touched. */
  ghost predicate NothingWritten(c: Counters) {
    && c.classOffsets == c.classes.Total() == c.vmapTable == 0
    && c.trampolineAlignment == c.trampolines == c.code.Total() == 0
  }

  /** The offsets of the OatDexFiles; 0 stands for no table. */
  datatype DexOffsets = DexOffsets(dexFiles: seq<nat>, lookupTables: seq<nat>, classTables: seq<nat>)

  ghost predicate DexPlaced(input: Input, d: DexOffsets) {
    && DexFilesPlaced(input.dex, input.RecordsEndAt(), d.dexFiles)
    && LookupTablesPlaced(input.dex, input.DexEndAt(), d.lookupTables)
    && ClassTablesPlaced(input.dex, input.LookupEndAt(), d.classTables)
  }

  /** The dex files and their records are in the file. */
  ghost predicate DexDataInFile(input: Input, d: DexOffsets, log: seq<Chunk>, base: nat) {
    DexFilesInFile(input.dex, base, d.dexFiles, log) && RecordsInFile(input.dex, input.headerSize, base, log)
  }

  /** WriteOatDexFiles goes back for the records and ExtendForTypeLookupTables forward again. */
  method WriteRecords(rodata: Stream, base: nat, input: Input, lookupEnd: nat) returns (r: RecordSizes)
    requires Tidy(rodata.log, base + input.RecordsEndAt(), base + input.DexEndAt()) && lookupEnd == input.LookupEndAt()
    modifies rodata
    ensures rodata.pos == base + lookupEnd && old(rodata.log) <= rodata.log
    ensures RecordsInFile(input.dex, input.headerSize, base, rodata.log)
    ensures Tidy(rodata.log, base + input.headerSize, rodata.pos)
    ensures r.Total() == input.RecordsEndAt() - input.headerSize
  {
    RegionsGrow(input.dex, input.RecordsEndAt(), |input.dex|);
    RegionsGrow(input.dex, input.DexEndAt(), |input.dex|);
    r := WriteOatDexFiles(rodata, base, input.dex, input.headerSize);
    AppendsInFront(old(rodata.log), base + input.RecordsEndAt(), base + input.DexEndAt(), base + input.headerSize,
                   rodata.log, rodata.pos);
    TidyFurther(rodata.log, base + input.headerSize, base + input.DexEndAt(), base + lookupEnd);
    rodata.Seek(base + lookupEnd);
  }

  /** InitOatHeader, InitOatDexFiles, WriteDexFiles, the two Reserve loops and WriteOatDexFiles. */
  method WriteDexData(rodata: Stream, input: Input) returns (size: nat, d: DexOffsets, c: Counters)
    requires input.Valid() && rodata.log == []
    modifies rodata
    ensures rodata.pos == old(rodata.pos) + input.LookupEndAt()
    ensures size == input.TablesEndAt() && DexPlaced(input, d) && DexDataInFile(input, d, rodata.log, old(rodata.pos))
    ensures Tidy(rodata.log, old(rodata.pos) + input.headerSize, rodata.pos)
    ensures c.Total() == size - ClassTablesSize(input.dex, |input.dex|)
    ensures NothingWritten(c) && c.executableAlignment == 0
  {
    var dex, base := input.dex, rodata.pos;
    size := input.headerSize;
    for d := 0 to |dex|
      invariant size == RecordsEnd(dex, input.headerSize, d)
    {
      size := size + dex[d].RecordSize();
    }
    var dexFileOffsets, dexAlignment, dexBytes;
    size, dexFileOffsets, dexAlignment, dexBytes := WriteDexFiles(rodata, base, dex, size);
    AppendsTidy([], base + input.RecordsEndAt(), base + input.RecordsEndAt(), rodata.log, base + size);
    var lookupOffsets, lookupAlignment, lookupBytes;
    size, lookupOffsets, lookupAlignment, lookupBytes := ReserveTypeLookupTables(dex, size);
    var lookupEnd := size;
    var classTables, tableAlignment;
    size, classTables, tableAlignment := ReserveClassOffsets(dex, size);
    var records := WriteRecords(rodata, base, input, lookupEnd);
    d := DexOffsets(dexFileOffsets, lookupOffsets, classTables);
    c := Counters(OAT_HEADER, input.headerSize - OAT_HEADER, dexAlignment, dexBytes, records,
                  lookupAlignment, lookupBytes, tableAlignment, 0, ClassSizes(0, 0, 0, 0), 0, 0, 0, 0,
                  Sizes(0, 0, 0, 0, 0));
  }

  /** The offsets that PrepareLayout computes. */
  datatype Layout = Layout(oatClasses: seq<OatClass>, visits: seq<Visit>, mapsEnd: nat, executableOffset: nat,
                           vmap: seq<nat>, trampolines: seq<nat>, codeOffsets: seq<nat>, thunks: seq<nat>,
                           patchLocations: seq<int>, size: nat)

  ghost predicate ClassesLaidOut(input: Input, l: Layout) {
    && |l.oatClasses| == |input.Classes()| && Chained(l.oatClasses, input.TablesEndAt())
    && (forall i :: 0 <= i < |l.oatClasses| ==> l.oatClasses[i].slots == input.Classes()[i])
  }

  ghost predicate MapsLaidOut(input: Input, l: Layout, t: MapPlan) {
    && t.Complete() && t.visits == l.visits
    && t.pos[0] == ClassesEnd(l.oatClasses, input.TablesEndAt(), |l.oatClasses|)
    && l.mapsEnd == t.pos[|l.visits|]
    && l.executableOffset == RoundUp(l.mapsEnd, PAGE_SIZE)
    && |l.codeOffsets| == |l.vmap| == |l.visits| && Adjusted(t, l.vmap, l.codeOffsets)
  }

  ghost predicate CodeLaidOut(input: Input, l: Layout, p: Plan) {
    && p.Complete() && p.cfg == input.cfg && p.visits == l.visits && p.thunks == l.thunks
    && TrampolinesPlaced(input.cfg, input.trampolines, l.executableOffset, l.trampolines)
    && p.from == TrampolinesEnd(input.cfg, input.trampolines, l.executableOffset, |input.trampolines|)
    && |l.codeOffsets| == |l.visits|
    && (forall k :: 0 <= k < |l.visits| ==> l.codeOffsets[k] == p.reserved[k].code)
    && l.patchLocations == AllLocations(l.visits, p.reserved, |l.visits|, l.executableOffset)
    && |input.needsThunk| == |l.visits|
    && ThunksAsked(p.reserved, input.needsThunk, |l.visits|)
    && HasFinalThunk(p, input.finalThunk) && l.size == ReservedEnd(p, input.finalThunk)
  }

  /** InitOatCode and InitOatCodeDexFiles fill in the code part of a layout. */
  method LayOutCode(input: Input, l: Layout) returns (l': Layout, ghost p: Plan)
    requires input.Valid() && l.visits == input.Visits()
    ensures l' == l.(trampolines := l'.trampolines, codeOffsets := l'.codeOffsets, thunks := l'.thunks,
                     patchLocations := l'.patchLocations, size := l'.size)
    ensures CodeLaidOut(input, l', p)
  {
    var codeStart, trampolines := PlaceTrampolines(input.cfg, input.trampolines, l.executableOffset);
    var size, codeOffsets, thunks, locations;
    size, codeOffsets, thunks, locations, p :=
      InitOatCodeDexFiles(input.cfg, l.visits, codeStart, l.executableOffset, input.needsThunk, input.finalThunk);
    l' := l.(trampolines := trampolines, codeOffsets := codeOffsets, thunks := thunks, patchLocations := locations,
             size := size);
  }

  /** InitOatClasses, InitOatMaps, InitOatCode and InitOatCodeDexFiles. */
  method ComputeLayout(input: Input, start: nat) returns (l: Layout, ghost t: MapPlan, ghost p: Plan)
    requires input.Valid() && start == input.TablesEndAt()
    ensures l.visits == input.Visits()
    ensures ClassesLaidOut(input, l) && MapsLaidOut(input, l, t) && CodeLaidOut(input, l, p)
  {
    var classesEnd, oatClasses := InitOatClasses(input.Classes(), start);
    var visits := VisitDexMethods(input.Dex(|input.dex|));
    var mapsEnd, vmap;
    mapsEnd, vmap, t := InitOatMaps(visits, classesEnd);
    l, p := LayOutCode(input, Layout(oatClasses, visits, mapsEnd, RoundUp(mapsEnd, PAGE_SIZE), [], [], [], [], [], 0));
    vmap := AdjustOffsets(visits, vmap, l.codeOffsets, t);
    l := l.(vmap := vmap);
  }

  lemma {:induction false} RegionsGrow(dex: seq<DexInput>, start: nat, n: nat)
    requires n <= |dex|
    ensures start <= RecordsEnd(dex, start, n) && start <= DexFilesEnd(dex, start, n)
    ensures start <= LookupTablesEnd(dex, start, n) && start <= ClassTablesEnd(dex, start, n)
  {
    if n == 0 {
    } else {
      RegionsGrow(dex, start, n - 1);
    }
  }

  lemma {:induction false} TrampolinesGrow(cfg: Config, sizes: seq<nat>, start: nat, n: nat)
    requires n <= |sizes|
    ensures start <= TrampolinesEnd(cfg, sizes, start, n)
  {
    if n == 0 {
    } else {
      TrampolinesGrow(cfg, sizes, start, n - 1);
    }
  }

  /** The regions follow each other. */
  lemma RegionsFollow(input: Input)
    ensures input.headerSize <= input.RecordsEndAt() <= input.DexEndAt() <= input.LookupEndAt() <= input.TablesEndAt()
  {
    RegionsGrow(input.dex, input.headerSize, |input.dex|);
    RegionsGrow(input.dex, input.RecordsEndAt(), |input.dex|);
    RegionsGrow(input.dex, input.DexEndAt(), |input.dex|);
    RegionsGrow(input.dex, input.LookupEndAt(), |input.dex|);
  }

  lemma TablesBeforeClassesEnd(classes: seq<OatClass>, start: nat, n: nat)
    requires Chained(classes, start) && n <= |classes|
    ensures start <= ClassesEnd(classes, start, n)
  {
    if n > 0 {
      assert ChainedAt(classes, start, n - 1);
      TablesBeforeClassesEnd(classes, start, n - 1);
    }
  }

  /** The code lies behind the header. */
  lemma CodeBehindHeader(input: Input, l: Layout, t: MapPlan)
    requires ClassesLaidOut(input, l) && MapsLaidOut(input, l, t)
    ensures input.headerSize <= input.TablesEndAt() <= l.executableOffset
  {
    RegionsFollow(input);
    TablesBeforeClassesEnd(l.oatClasses, input.TablesEndAt(), |l.oatClasses|);
    PositionsGrow(t, 0, |l.visits|);
  }

  /** A code offset lies behind the vmap tables and within one byte of the file. */
  lemma CodeOffsetBounds(p: Plan, k: nat)
    requires p.Complete() && k < |p.visits|
    ensures p.from + METHOD_HEADER <= p.reserved[k].code <= p.End() + 1
  {
    FirstIsNew(p, k);
    var j := p.reserved[k].first;
    assert p.OkAt(k) && p.OkAt(j);
    OffsetsGrow(p, j, |p.visits| - 1);
  }

  /** The code lies behind the read-only data. */
  lemma SizeBehindRodata(input: Input, l: Layout, p: Plan)
    requires CodeLaidOut(input, l, p)
    ensures l.executableOffset <= l.size
  {
    TrampolinesGrow(input.cfg, input.trampolines, l.executableOffset, |input.trampolines|);
    if |p.visits| > 0 { OffsetsGrow(p, 0, |p.visits| - 1); }
  }

  /** The headers are what the write pass of the vmap tables expects. */
  lemma LayoutHeaders(input: Input, l: Layout, t: MapPlan, p: Plan)
    requires input.Valid() && ClassesLaidOut(input, l) && MapsLaidOut(input, l, t) && CodeLaidOut(input, l, p)
    requires l.size + 1 < TWO_32
    ensures Headers(t, l.vmap, l.codeOffsets)
  {
    RegionsFollow(input);
    TablesBeforeClassesEnd(l.oatClasses, input.TablesEndAt(), |l.oatClasses|);
    TrampolinesGrow(input.cfg, input.trampolines, l.executableOffset, |input.trampolines|);
    forall k {:trigger CodeBehind(t, l.codeOffsets, k)} | 0 <= k < |l.visits| ensures CodeBehind(t, l.codeOffsets, k) {
      CodeOffsetBounds(p, k);
    }
  }

  /** The runtime subtracts the header's vmap_table_offset_ from the first byte of code.  Starting from the header that
      visit k finds, which may belong to the visit it shares code with, that is visit k's table.  Arrays hold their own
      length, so equal pointers have equal sizes; methods found by reference in debuggable code must have the same table
      each time. */
  lemma RuntimeFindsTable(input: Input, l: Layout, t: MapPlan, p: Plan, k: nat, first: nat)
    requires input.Valid() && ClassesLaidOut(input, l) && MapsLaidOut(input, l, t) && CodeLaidOut(input, l, p)
    requires l.size + 1 < TWO_32 && first <= k < |l.visits| && p.reserved[k].first == first
    requires input.cfg.debuggable ==> l.visits[first].cm.vmap.ptr == l.visits[k].cm.vmap.ptr
    requires l.visits[first].cm.vmap.ptr == l.visits[k].cm.vmap.ptr ==>
               l.visits[first].cm.vmap.size == l.visits[k].cm.vmap.size
    ensures if l.visits[k].cm.vmap.size == 0 then l.vmap[first] == 0
            else p.reserved[k].header + METHOD_HEADER - l.vmap[first] == t.at[k]
  {
    FirstIsNew(p, k);
    assert p.OkAt(k) && p.OkAt(first);
    LayoutHeaders(input, l, t, p);
    HeaderSays(t, l.vmap, l.codeOffsets, first);
    if l.visits[k].cm.vmap.size != 0 { SameTable(t, first, k); }
  }

  /** Everything in front of the code is in the file. */
  ghost predicate RodataInFile(input: Input, d: DexOffsets, l: Layout, t: MapPlan, log: seq<Chunk>, base: nat) {
    && DexPlaced(input, d) && DexDataInFile(input, d, log, base)
    && ClassTablesInFile(input.dex, base, d.classTables, log) && ClassesInFile(l.oatClasses, base, log)
    && |t.first| == |t.at| == |t.visits| && MapsInFile(t, log, base, |t.visits|)
  }

  lemma RodataStays(input: Input, d: DexOffsets, l: Layout, t: MapPlan, log: seq<Chunk>, log': seq<Chunk>, base: nat)
    requires RodataInFile(input, d, l, t, log, base) && log <= log'
    ensures RodataInFile(input, d, l, t, log', base)
  {
    RecordsStay(input.dex, input.headerSize, base, log, log');
    ClassesStay(l.oatClasses, base, log, log');
    MapsStayInFile(t, log, log', base, |t.visits|);
  }

  /** Trampolines, code and thunks are in the file. */
  ghost predicate CodeInFile(input: Input, l: Layout, p: Plan, log: seq<Chunk>, base: nat) {
    && |l.trampolines| == |input.trampolines|
    && (forall i :: 0 <= i < |input.trampolines| ==> TrampolineChunk(input, l.trampolines[i], base, i) in log)
    && p.Complete() && AllCodeInFile(p, log, base) && ThunksInFile(l.thunks, |l.thunks|, input.cfg, log, base)
  }

  ghost function TrampolineChunk(input: Input, at: nat, base: nat, i: nat): Chunk
    requires i < |input.trampolines|
  {
    Chunk(base + at, input.trampolines[i], Trampoline(i))
  }

  /** From method i of class c to its code.  The runtime reads the number of its entry from the record of the class; the
      entry is that of visit k, which is this method, and at the code offset of visit k lies code of its own. */
  lemma RuntimeFindsCode(classes: seq<seq<Slot>>, records: seq<OatClass>, start: nat, p: Plan, codeOffsets: seq<nat>,
                         log: seq<Chunk>, base: nat, c: nat, i: nat)
    returns (offsets: Chunk, k: nat)
    requires p.Complete() && p.visits == Walk(classes, |classes|) && CodeOffsetsOf(p.reserved, codeOffsets)
    requires Chained(records, start) && ClassesInFile(records, base, log) && AllCodeInFile(p, log, base)
    requires c < |classes| == |records| && records[c].slots == classes[c]
    requires i < |classes[c]| && classes[c][i].Compiled?
    ensures WellFormed(records[c]) && offsets in log && offsets.content == OatClassRecord(c, MethodOffsets)
    ensures var record := records[c];
            base + record.offset + ReaderEntry(record.kind, record.bitmapSize, record.bitmap, i)
            == offsets.at + METHOD_OFFSETS * Rank(classes[c], i)
    ensures k < |p.visits| && p.visits[k] == Visit(c, Rank(classes[c], i), classes[c][i].ref, classes[c][i].cm)
    ensures FindsCode(p.cfg, p.visits, codeOffsets[k], k, log, base)
  {
    offsets := EntryInFile(records, start, base, log, c, i);
    MethodsAreVisited(classes, |classes|, c, i);
    k := |Walk(classes, c)| + Rank(classes[c], i);
    FindsOwnCode(p, codeOffsets, log, base, k);
  }

  lemma CodeStays(input: Input, l: Layout, p: Plan, log: seq<Chunk>, log': seq<Chunk>, base: nat)
    requires CodeInFile(input, l, p, log, base) && log <= log'
    ensures CodeInFile(input, l, p, log', base)
  {
    CodeStaysInFile(p, log, log', base);
  }

  /** WriteClassOffsets and WriteClasses. */
  method WriteClassRegions(out: Stream, base: nat, input: Input, d: DexOffsets, oatClasses: seq<OatClass>, c: Counters)
    returns (c': Counters)
    requires DexPlaced(input, d) && Chained(oatClasses, input.TablesEndAt()) && 0 < input.LookupEndAt()
    requires out.pos == base + input.LookupEndAt() && NothingWritten(c)
    modifies out
    ensures out.pos == base + ClassesEnd(oatClasses, input.TablesEndAt(), |oatClasses|)
    ensures Appends(old(out.log), old(out.pos), out.log, out.pos)
    ensures c'.Total() == c.Total() + ClassTablesSize(input.dex, |input.dex|) + (out.pos - base - input.TablesEndAt())
    ensures c' == c.(classOffsets := c'.classOffsets, classes := c'.classes)
    ensures ClassTablesInFile(input.dex, base, d.classTables, out.log) && ClassesInFile(oatClasses, base, out.log)
  {
    var tableBytes := WriteClassOffsets(out, base, input.dex, input.LookupEndAt(), d.classTables);
    ghost var log, pos := out.log, out.pos;
    var classes := WriteClasses(out, base, oatClasses, input.TablesEndAt());
    AppendsMore(old(out.log), old(out.pos), log, pos, out.log, out.pos);
    c' := c.(classOffsets := tableBytes, classes := classes);
  }

  /** WriteMaps and the padding before the code. */
  method WriteMapRegion(out: Stream, base: nat, l: Layout, c: Counters, ghost t: MapPlan) returns (c': Counters)
    requires Headers(t, l.vmap, l.codeOffsets) && t.visits == l.visits && out.pos == base + t.pos[0]
    requires l.mapsEnd == t.pos[|l.visits|] && c.vmapTable == 0
    requires c.executableAlignment == l.executableOffset - l.mapsEnd
    modifies out
    ensures out.pos == base + l.executableOffset && Appends(old(out.log), old(out.pos), out.log, out.pos)
    ensures MapsInFile(t, out.log, base, |t.visits|) && t.pos[0] <= l.mapsEnd
    ensures c' == c.(vmapTable := l.mapsEnd - t.pos[0])
  {
    PositionsGrow(t, 0, |l.visits|);
    var from := out.pos - base;
    var mapsEnd, wrote := WriteMaps(out, l.visits, l.vmap, l.codeOffsets, from, t);
    AppendsSeek(old(out.log), old(out.pos), out.log, out.pos, out.pos + c.executableAlignment);
    out.Seek(out.pos + c.executableAlignment);
    c' := c.(vmapTable := mapsEnd - from);
  }

  /** The dex files and their records are in the file, and nothing else. */
  ghost predicate DexDone(input: Input, d: DexOffsets, base: nat, log: seq<Chunk>, pos: nat) {
    && DexPlaced(input, d) && DexDataInFile(input, d, log, base)
    && pos == base + input.LookupEndAt() && Tidy(log, base + input.headerSize, pos)
  }

  /** Before PrepareLayout: the dex file data is counted, the class tables only reserved. */
  ghost predicate DexBytes(input: Input, size: nat, c: Counters) {
    && size == input.TablesEndAt() && c.Total() == size - ClassTablesSize(input.dex, |input.dex|)
    && NothingWritten(c) && c.executableAlignment == 0
  }

  /** Before WriteRodata: the padding before the code is counted in advance. */
  ghost predicate LayoutBytes(input: Input, l: Layout, c: Counters) {
    && c.executableAlignment == l.executableOffset - l.mapsEnd
    && c.Total() == input.TablesEndAt() - ClassTablesSize(input.dex, |input.dex|) + c.executableAlignment
    && NothingWritten(c)
  }

  /** Before WriteCode: the stream and the counters are where the code starts. */
  ghost predicate RodataDone(input: Input, d: DexOffsets, l: Layout, c: Counters, t: MapPlan, base: nat,
                             log: seq<Chunk>, pos: nat)
  {
    && RodataInFile(input, d, l, t, log, base) && Tidy(log, base + input.headerSize, pos)
    && pos == base + l.executableOffset && c.Total() == l.executableOffset
    && c.trampolineAlignment == c.trampolines == c.code.Total() == 0
  }

  /** Before WriteHeader and after it: everything is in the file, nothing was written over, and all is counted.
      `from` is where the file starts so far. */
  ghost predicate AllDone(input: Input, d: DexOffsets, l: Layout, c: Counters, t: MapPlan, p: Plan, base: nat,
                          log: seq<Chunk>, pos: nat, from: nat)
  {
    && RodataInFile(input, d, l, t, log, base) && CodeInFile(input, l, p, log, base) && Tidy(log, from, pos)
    && pos == base + l.size && c.Total() == l.size
  }

  /** Everything in front of the code. */
  method WriteRodataRegions(out: Stream, base: nat, input: Input, d: DexOffsets, l: Layout, c: Counters,
                            ghost t: MapPlan, ghost p: Plan)
    returns (c': Counters)
    requires DexDone(input, d, base, out.log, out.pos) && LayoutBytes(input, l, c)
    requires input.Valid() && ClassesLaidOut(input, l) && MapsLaidOut(input, l, t) && CodeLaidOut(input, l, p)
    requires l.size + 1 < TWO_32
    modifies out
    ensures RodataDone(input, d, l, c', t, base, out.log, out.pos)
  {
    LayoutHeaders(input, l, t, p);
    RegionsFollow(input);
    var c1 := WriteClassRegions(out, base, input, d, l.oatClasses, c);
    ghost var log, pos := out.log, out.pos;
    c' := WriteMapRegion(out, base, l, c1, t);
    AppendsMore(old(out.log), old(out.pos), log, pos, out.log, out.pos);
    AppendsTidy(old(out.log), base + input.headerSize, old(out.pos), out.log, out.pos);
    RecordsStay(input.dex, input.headerSize, base, old(out.log), out.log);
    ClassesStay(l.oatClasses, base, log, out.log);
    assert c'.Total() == l.executableOffset;
  }

  /** The trampolines and the method code. */
  method WriteCodeRegions(out: Stream, base: nat, input: Input, l: Layout, c: Counters, ghost p: Plan, ghost lo: nat)
    returns (offset: nat, wrote: seq<bool>, c': Counters)
    requires CodeLaidOut(input, l, p) && (input.finalThunk ==> |l.oatClasses| > 0)
    requires out.pos == base + l.executableOffset && Tidy(out.log, lo, out.pos) && lo <= out.pos
    requires c.trampolineAlignment == c.trampolines == c.code.Total() == 0
    modifies out
    ensures out.pos == base + offset && Appends(old(out.log), old(out.pos), out.log, out.pos)
    ensures c'.Total() == c.Total() + (offset - l.executableOffset)
    ensures |wrote| == |l.visits| && (WroteNew(p, wrote) <==> Safe(p.cfg, p.visits, |l.visits|))
    ensures Safe(p.cfg, p.visits, |l.visits|) <==> offset == l.size && CodeInFile(input, l, p, out.log, base)
  {
    TrampolinesGrow(input.cfg, input.trampolines, l.executableOffset, |input.trampolines|);
    var start, alignment, bytes :=
      WriteTrampolines(out, base, input.cfg, input.trampolines, l.executableOffset, l.trampolines);
    assert forall i :: 0 <= i < |input.trampolines| ==> TrampolineChunk(input, l.trampolines[i], base, i) in out.log;
    ghost var log, pos := out.log, out.pos;
    AppendsTidy(old(out.log), lo, old(out.pos), log, pos);
    TidyIsBelow(log, lo, pos);
    var sizes;
    offset, sizes, wrote := WriteCodeDexFiles(out, input.cfg, l.visits, l.codeOffsets, l.thunks, start,
                                              |l.oatClasses| > 0, input.finalThunk, p);
    AppendsMore(old(out.log), old(out.pos), log, pos, out.log, out.pos);
    c' := c.(trampolineAlignment := alignment, trampolines := bytes, code := sizes);
  }

  /** The code behind everything else.  `checks` is the outcome of the final comparisons with size_. */
  method WriteCodeBehindRodata(out: Stream, base: nat, input: Input, l: Layout, c: Counters, size: nat,
                               ghost d: DexOffsets, ghost t: MapPlan, ghost p: Plan)
    returns (checks: bool, c': Counters)
    requires RodataDone(input, d, l, c, t, base, out.log, out.pos)
    requires input.Valid() && ClassesLaidOut(input, l) && MapsLaidOut(input, l, t) && CodeLaidOut(input, l, p)
    requires l.visits == input.Visits() && size == l.size
    modifies out
    ensures checks <==> out.pos == base + size && c'.Total() == size
    ensures input.SafeWalk() <==>
              checks && AllDone(input, d, l, c', t, p, base, out.log, out.pos, base + input.headerSize)
  {
    CodeBehindHeader(input, l, t);
    var offset, wrote;
    offset, wrote, c' := WriteCodeRegions(out, base, input, l, c, p, base + input.headerSize);
    RodataStays(input, d, l, t, old(out.log), out.log, base);
    AppendsTidy(old(out.log), base + input.headerSize, old(out.pos), out.log, out.pos);
    checks := out.pos == base + size && c'.Total() == size && offset == size;
  }

  /** The header in front of everything else. */
  method WriteHeaderInFront(out: Stream, base: nat, input: Input, ghost d: DexOffsets, ghost l: Layout,
                            ghost c: Counters, ghost t: MapPlan, ghost p: Plan)
    requires AllDone(input, d, l, c, t, p, base, out.log, out.pos, base + input.headerSize)
    requires ClassesLaidOut(input, l) && MapsLaidOut(input, l, t) && CodeLaidOut(input, l, p)
    modifies out
    ensures AllDone(input, d, l, c, t, p, base, out.log, out.pos, base)
    ensures out.log == old(out.log) + [Chunk(base, input.headerSize, OatHeader)] && out.pos == old(out.pos)
  {
    var current := out.pos;
    out.Seek(base);
    out.WriteFully(input.headerSize, OatHeader);
    CodeBehindHeader(input, l, t);
    SizeBehindRodata(input, l, p);
    AppendsInFront(old(out.log), base + input.headerSize, current, base, out.log, out.pos);
    out.Seek(current);
    RodataStays(input, d, l, t, old(out.log), out.log, base);
    CodeStays(input, l, p, old(out.log), out.log, base);
  }

  function SumTo(sizes: seq<nat>, n: nat): nat
    requires n <= |sizes|
  {
    if n == 0 then 0 else SumTo(sizes, n - 1) + sizes[n - 1]
  }

  lemma {:induction false} SumGrows(sizes: seq<nat>, i: nat, k: nat)
    requires i <= k <= |sizes|
    ensures SumTo(sizes, i) <= SumTo(sizes, k)
    decreases k
  {
    if i == k {
    } else {
      SumGrows(sizes, i, k - 1);
    }
  }

  ghost predicate DexCacheAt(sizes: seq<nat>, size: nat, offset: nat, d: nat)
    requires d < |sizes|
  {
    offset == RoundUp(size, PAGE_SIZE) + SumTo(sizes, d)
  }

  /** The arrays of each dex file lie one after the other from the page behind the oat data. */
  ghost predicate DexCachesPlaced(sizes: seq<nat>, size: nat, offsets: seq<nat>, bssSize: nat) {
    && |offsets| == |sizes| && bssSize == SumTo(sizes, |sizes|)
    && forall d {:trigger DexCacheAt(sizes, size, offsets[d], d)} :: 0 <= d < |sizes| ==>
         DexCacheAt(sizes, size, offsets[d], d)
  }

  method PlaceDexCaches(sizes: seq<nat>, size: nat) returns (offsets: seq<nat>, bssSize: nat)
    ensures DexCachesPlaced(sizes, size, offsets, bssSize)
  {
    var bssStart := RoundUp(size, PAGE_SIZE);
    offsets, bssSize := [], 0;
    for d := 0 to |sizes|
      invariant |offsets| == d && bssSize == SumTo(sizes, d)
      invariant forall i {:trigger DexCacheAt(sizes, size, offsets[i], i)} :: 0 <= i < d ==>
                  DexCacheAt(sizes, size, offsets[i], i)
    {
      offsets := offsets + [bssStart + bssSize];
      bssSize := bssSize + sizes[d];
    }
  }

  /** What PrepareLayout leaves for the write phases: the layout, and the dex cache arrays in .bss behind it. */
  ghost predicate LaidOut(input: Input, l: Layout, size: nat, dexCaches: seq<nat>, bssSize: nat, t: MapPlan, p: Plan) {
    && l.visits == input.Visits() && size == l.size
    && ClassesLaidOut(input, l) && MapsLaidOut(input, l, t) && CodeLaidOut(input, l, p)
    && (if input.bootImage then dexCaches == [] && bssSize == 0
        else DexCachesPlaced(input.dexCacheSizes, size, dexCaches, bssSize))
  }

  method ComputeWholeLayout(input: Input, start: nat)
    returns (l: Layout, dexCaches: seq<nat>, bssSize: nat, ghost t: MapPlan, ghost p: Plan)
    requires input.Valid() && start == input.TablesEndAt()
    ensures LaidOut(input, l, l.size, dexCaches, bssSize, t, p)
    ensures ClassesLaidOut(input, l) && l.executableOffset <= l.size && l.executableOffset % PAGE_SIZE == 0
    ensures !input.bootImage ==> DexCachesPlaced(input.dexCacheSizes, l.size, dexCaches, bssSize)
  {
    l, t, p := ComputeLayout(input, start);
    dexCaches, bssSize := [], 0;
    if !input.bootImage {
      dexCaches, bssSize := PlaceDexCaches(input.dexCacheSizes, l.size);
    }
    SizeBehindRodata(input, l, p);
  }

  class OatWriter {
    const input: Input
    var writeState: WriteState
    var size: nat
    var bssSize: nat
    var oatDataOffset: nat
    var counters: Counters
    var dexOffsets: DexOffsets
    var layout: Layout
    var dexCacheOffsets: seq<nat>
    /** What the layout passes did. */
    ghost var tables: MapPlan
    ghost var plan: Plan

    ghost predicate DexOnDisk(out: Stream)
      reads this`oatDataOffset, this`dexOffsets, out
    {
      DexDone(input, dexOffsets, oatDataOffset, out.log, out.pos)
    }

    ghost predicate DexCounted()
      reads this`writeState, this`size, this`counters
    {
      writeState == PrepareLayoutNext && DexBytes(input, size, counters)
    }

    /** From PrepareLayout on. */
    ghost predicate AllLaidOut()
      reads this`layout, this`size, this`dexCacheOffsets, this`bssSize, this`tables, this`plan
    {
      input.Valid() && LaidOut(input, layout, size, dexCacheOffsets, bssSize, tables, plan)
    }

    ghost predicate LayoutCounted()
      reads this`writeState, this`layout, this`counters
    {
      writeState == WriteRoDataNext && LayoutBytes(input, layout, counters)
    }

    ghost predicate RodataWritten(out: Stream)
      reads this`writeState, this`oatDataOffset, this`dexOffsets, this`layout, this`tables, this`counters, out
    {
      && writeState == WriteTextNext
      && RodataDone(input, dexOffsets, layout, counters, tables, oatDataOffset, out.log, out.pos)
    }

    /** Everything but the header is where it belongs. */
    ghost predicate ContentsWritten(log: seq<Chunk>)
      reads this`oatDataOffset, this`dexOffsets, this`layout, this`tables, this`plan
    {
      && RodataInFile(input, dexOffsets, layout, tables, log, oatDataOffset)
      && CodeInFile(input, layout, plan, log, oatDataOffset)
    }

    lemma ContentsStay(log: seq<Chunk>, log': seq<Chunk>)
      requires ContentsWritten(log) && log <= log'
      ensures ContentsWritten(log')
    {
      RodataStays(input, dexOffsets, layout, tables, log, log', oatDataOffset);
      CodeStays(input, layout, plan, log, log', oatDataOffset);
    }

    ghost predicate AllWritten(out: Stream, from: nat)
      reads this`oatDataOffset, this`dexOffsets, this`layout, this`tables, this`plan, this`counters, out
    {
      AllDone(input, dexOffsets, layout, counters, tables, plan, oatDataOffset, out.log, out.pos, from)
    }

    constructor (input: Input)
      requires input.Valid()
      ensures this.input == input && writeState == AddingDexFileSources
    {
      this.input := input;
      writeState := AddingDexFileSources;
      size, bssSize, oatDataOffset := 0, 0, 0;
      counters := NoBytes();
      dexOffsets, dexCacheOffsets := DexOffsets([], [], []), [];
      layout := Layout([], [], 0, 0, [], [], [], [], [], 0);
      tables, plan := MapPlan([], [0], [], []), Plan(input.cfg, [], 0, [], []);
    }

    method WriteAndOpenDexFiles(rodata: Stream)
      requires writeState == AddingDexFileSources && input.Valid() && rodata.log == []
      modifies this, rodata
      ensures DexOnDisk(rodata) && DexCounted() && oatDataOffset == old(rodata.pos)
    {
      oatDataOffset := rodata.pos;
      size, dexOffsets, counters := WriteDexData(rodata, input);
      writeState := PrepareLayoutNext;
    }

    method PrepareLayout()
      requires input.Valid() && DexCounted()
      modifies this`layout, this`dexCacheOffsets, this`bssSize, this`tables, this`plan,
               this`counters, this`size, this`writeState
      ensures AllLaidOut() && LayoutCounted()
    {
      var l, dexCaches, bss, t, p := ComputeWholeLayout(input, size);
      layout, dexCacheOffsets, bssSize, tables, plan := l, dexCaches, bss, t, p;
      size, counters := l.size, counters.(executableAlignment := l.executableOffset - l.mapsEnd);
      writeState := WriteRoDataNext;
    }

    method WriteRodata(out: Stream)
      requires AllLaidOut() && LayoutCounted() && DexOnDisk(out) && size + 1 < TWO_32
      modifies this`counters, this`writeState, out
      ensures RodataWritten(out)
    {
      counters := WriteRodataRegions(out, oatDataOffset, input, dexOffsets, layout, counters, tables, plan);
      writeState := WriteTextNext;
    }

    /** `checks` is the outcome of WriteCode's final comparisons: the stream is at oat_data_offset_ + size_, and the
        counters add up to size_.  They hold with everything in place for exactly the safe walks. */
    method WriteCode(out: Stream) returns (checks: bool)
      requires AllLaidOut() && RodataWritten(out)
      modifies this`counters, this`writeState, out
      ensures writeState == WriteHeaderNext
      ensures checks <==> out.pos == oatDataOffset + size && counters.Total() == size
      ensures input.SafeWalk() <==> checks && AllWritten(out, oatDataOffset + input.headerSize)
    {
      assert size == layout.size;
      var c;
      checks, c := WriteCodeBehindRodata(out, oatDataOffset, input, layout, counters, size, dexOffsets, tables, plan);
      counters := c;
      writeState := WriteHeaderNext;
    }

    /** WriteHeader goes back for the header and returns to the end. */
    method WriteHeader(out: Stream)
      requires AllLaidOut() && AllWritten(out, oatDataOffset + input.headerSize) && writeState == WriteHeaderNext
      modifies this`writeState, out
      ensures AllWritten(out, oatDataOffset) && writeState == Done
      ensures out.log == old(out.log) + [Chunk(oatDataOffset, input.headerSize, OatHeader)] && out.pos == old(out.pos)
    {
      WriteHeaderInFront(out, oatDataOffset, input, dexOffsets, layout, counters, tables, plan);
      writeState := Done;
    }
  }
}
