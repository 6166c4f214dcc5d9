/** The driver (dex2oat/dex2oat.cc WriteOatFiles): the oat writer fills the sections that the ELF writer has announced,
    and the image writer learns where each oat file will be. */
module Dex2Oat {
  import opened Alignment
  import opened CodeLayout
  import opened ElfDynamic
  import opened ElfPrediction
  import opened ElfSections
  import opened ElfWriters
  import opened ImageChain
  import opened OatWriters
  import opened PatchStream
  import opened ProgramHeaders
  import opened Streams
  import opened VmapTables

  /** .bss starts as far behind .rodata as the first page behind the oat data. */
  lemma BssDistance(f: Format, sections: seq<Section>, executable: nat, size: nat, bss: nat, c: Cache)
    requires WellPlaced(sections, f.Headers()) && executable <= size && executable % PAGE_SIZE == 0 && bss != 0
    requires QuickSections(f, sections, executable, size - executable, bss, c)
    ensures sections[2].addr == sections[0].addr + RoundUp(size, PAGE_SIZE)
  {
    CodeIsRight(f, sections, executable, size - executable, bss);
    FrontIsRight(f, sections, executable, size - executable, bss, c);
    AddMultiples(PAGE_SIZE, executable, PAGE_SIZE);
    OnPage(PAGE_SIZE + executable);
    RoundUpShift(size, PAGE_SIZE, PAGE_SIZE);
  }

  /** The two writers share the stream, which the oat data starts in where .rodata does. */
  ghost predicate Joined(oat: OatWriter, elf: ElfWriterQuick, out: Stream)
    reads oat`oatDataOffset, elf`sections, elf`virtualAddress
  {
    && elf.stream == out && oat.oatDataOffset == PAGE_SIZE
    && Opened(elf.format, elf.sections, elf.virtualAddress) && |elf.sections| == 1
    && elf.sections[0].spec == RODATA && elf.sections[0].offset == elf.sections[0].addr == PAGE_SIZE
  }

  /** The ELF writer expects the sizes that the oat writer has computed. */
  ghost predicate SizesAgree(oat: OatWriter, elf: ElfWriterQuick)
    reads oat`layout, oat`size, oat`bssSize, elf`rodataSize, elf`textSize, elf`bssSize
  {
    && oat.layout.executableOffset <= oat.size && elf.rodataSize == oat.layout.executableOffset
    && elf.textSize == oat.size - oat.layout.executableOffset && elf.bssSize == oat.bssSize
  }

  /** The announced size of the loaded file covers the oat data in it, in whole pages. */
  lemma LoadedSizeCoversOat(f: Format, path: string, index: nat, rodata: nat, text: nat, bss: nat, c: Cache)
    requires Prepared(f, path, index, PAGE_SIZE, rodata, text, bss, c)
    ensures PAGE_SIZE + rodata + text <= c.loadedSize && c.loadedSize % PAGE_SIZE == 0
  {
  }

  /** PrepareLayout leaves the ELF writer and the stream as they are. */
  method LayOut(oat: OatWriter, ghost elf: ElfWriterQuick, ghost out: Stream)
    requires Joined(oat, elf, out) && oat.input.Valid() && oat.DexCounted() && oat.DexOnDisk(out)
    modifies oat`layout, oat`dexCacheOffsets, oat`bssSize, oat`tables, oat`plan, oat`counters, oat`size, oat`writeState
    ensures Joined(oat, elf, out) && oat.AllLaidOut() && oat.LayoutCounted() && oat.DexOnDisk(out)
    ensures oat.layout.executableOffset <= oat.size
  {
    oat.PrepareLayout();
    SizeBehindRodata(oat.input, oat.layout, oat.plan);
  }

  /** SetLoadedSectionSizes leaves the oat writer and the stream as they are. */
  method TellSizes(oat: OatWriter, elf: ElfWriterQuick, ghost out: Stream, path: string)
    requires Joined(oat, elf, out) && oat.AllLaidOut() && oat.LayoutCounted() && oat.DexOnDisk(out)
    requires oat.layout.executableOffset <= oat.size
    modifies elf`cache, elf`bssSize, elf`rodataSize, elf`textSize, elf`path
    ensures Joined(oat, elf, out) && oat.AllLaidOut() && oat.LayoutCounted() && oat.DexOnDisk(out)
    ensures elf.Announced() && elf.path == path && SizesAgree(oat, elf)
  {
    var rodataSize := oat.layout.executableOffset;
    elf.SetLoadedSectionSizes(path, rodataSize, oat.size - rodataSize, oat.bssSize);
  }

  /** The first loop of WriteOatFiles; `file` goes to UpdateOatFileLayout. */
  method AnnounceOatFile(oat: OatWriter, elf: ElfWriterQuick, ghost out: Stream, path: string) returns (file: OatFile)
    requires Joined(oat, elf, out) && oat.input.Valid() && oat.DexCounted() && oat.DexOnDisk(out)
    modifies oat`layout, oat`dexCacheOffsets, oat`bssSize, oat`tables, oat`plan, oat`counters, oat`size, oat`writeState
    modifies elf`cache, elf`bssSize, elf`rodataSize, elf`textSize, elf`path
    ensures Joined(oat, elf, out) && oat.AllLaidOut() && oat.LayoutCounted() && oat.DexOnDisk(out)
    ensures elf.Announced() && elf.path == path && SizesAgree(oat, elf)
    ensures file == OatFile(elf.cache.loadedSize, oat.oatDataOffset, oat.size)
    ensures file.dataOffset + file.dataSize <= file.loadedSize && file.loadedSize % PAGE_SIZE == 0
  {
    LayOut(oat, elf, out);
    TellSizes(oat, elf, out, path);
    LoadedSizeCoversOat(elf.format, elf.path, 1, elf.rodataSize, elf.textSize, elf.bssSize, elf.cache);
    file := OatFile(elf.cache.loadedSize, oat.oatDataOffset, oat.size);
  }

  method WriteRodataSection(oat: OatWriter, elf: ElfWriterQuick, out: Stream)
    requires Joined(oat, elf, out) && oat.AllLaidOut() && oat.LayoutCounted() && oat.DexOnDisk(out)
    requires oat.size + 1 < TWO_32
    modifies oat`counters, oat`writeState, elf`sections, elf`virtualAddress, out
    ensures oat.RodataWritten(out) && elf.Idle() && |elf.sections| == 1
    ensures SectionIs(elf.sections, 0, RODATA, oat.layout.executableOffset)
  {
    oat.WriteRodata(out);
    elf.End();
  }

  /** StartText leaves the stream where WriteCode expects it. */
  method StartTextSection(oat: OatWriter, elf: ElfWriterQuick, out: Stream)
    requires elf.stream == out && elf.Idle() && |elf.sections| == 1 && oat.oatDataOffset == PAGE_SIZE
    requires oat.RodataWritten(out) && oat.layout.executableOffset % PAGE_SIZE == 0
    requires SectionIs(elf.sections, 0, RODATA, oat.layout.executableOffset)
    modifies elf`sections, elf`virtualAddress, out`pos
    ensures oat.RodataWritten(out) && Opened(elf.format, elf.sections, elf.virtualAddress)
    ensures |elf.sections| == 2 && elf.sections[0] == old(elf.sections)[0] && elf.sections[1].spec == TEXT
    ensures elf.sections[1].offset == PAGE_SIZE + oat.layout.executableOffset
  {
    elf.StartText();
    TextFollowsRodata(elf.format, elf.sections, oat.layout.executableOffset);
  }

  /** EndRoData and StartText. */
  method WriteRodataAndStartText(oat: OatWriter, elf: ElfWriterQuick, out: Stream)
    requires Joined(oat, elf, out) && oat.AllLaidOut() && oat.LayoutCounted() && oat.DexOnDisk(out)
    requires oat.size + 1 < TWO_32
    modifies oat`counters, oat`writeState, elf`sections, elf`virtualAddress, out
    ensures oat.RodataWritten(out) && Opened(elf.format, elf.sections, elf.virtualAddress)
    ensures |elf.sections| == 2 && SectionIs(elf.sections, 0, RODATA, oat.layout.executableOffset)
    ensures elf.sections[1].spec == TEXT
    ensures elf.sections[1].offset == PAGE_SIZE + oat.layout.executableOffset
  {
    WriteRodataSection(oat, elf, out);
    StartTextSection(oat, elf, out);
  }

  method WriteTextSection(oat: OatWriter, elf: ElfWriterQuick, out: Stream) returns (checks: bool)
    requires elf.stream == out && oat.oatDataOffset == PAGE_SIZE && oat.AllLaidOut() && oat.RodataWritten(out)
    requires Opened(elf.format, elf.sections, elf.virtualAddress) && |elf.sections| == 2 && elf.sections[1].spec == TEXT
    requires oat.layout.executableOffset <= oat.size
    requires elf.sections[1].offset == PAGE_SIZE + oat.layout.executableOffset
    requires oat.input.SafeWalk()
    modifies oat`counters, oat`writeState, elf`sections, elf`virtualAddress, out
    ensures checks && oat.AllWritten(out, PAGE_SIZE + oat.input.headerSize) && oat.writeState == WriteHeaderNext
    ensures elf.Idle() && |elf.sections| == 2 && elf.sections[0] == old(elf.sections)[0]
    ensures SectionIs(elf.sections, 1, TEXT, oat.size - oat.layout.executableOffset)
  {
    checks := oat.WriteCode(out);
    elf.End();
    assert elf.sections[..1][0] == old(elf.sections)[..1][0];
  }

  /** WriteHeader leaves the ELF writer where it was. */
  method FinishHeader(oat: OatWriter, elf: ElfWriterQuick, out: Stream)
    requires elf.stream == out && elf.Idle() && oat.oatDataOffset == PAGE_SIZE && oat.AllLaidOut()
    requires oat.AllWritten(out, PAGE_SIZE + oat.input.headerSize) && oat.writeState == WriteHeaderNext
    modifies oat`writeState, out
    ensures oat.AllWritten(out, PAGE_SIZE) && elf.Idle() && HeaderIn(out.log, oat.input.headerSize)
  {
    oat.WriteHeader(out);
  }

  /** The oat header is at the beginning of .rodata. */
  ghost predicate HeaderIn(log: seq<Chunk>, headerSize: nat) { Chunk(PAGE_SIZE, headerSize, OatHeader) in log }

  /** EndText and WriteHeader. */
  method WriteTextAndHeader(oat: OatWriter, elf: ElfWriterQuick, out: Stream) returns (checks: bool)
    requires elf.stream == out && oat.oatDataOffset == PAGE_SIZE && oat.AllLaidOut() && oat.RodataWritten(out)
    requires Opened(elf.format, elf.sections, elf.virtualAddress) && |elf.sections| == 2 && elf.sections[1].spec == TEXT
    requires oat.layout.executableOffset <= oat.size
    requires elf.sections[1].offset == PAGE_SIZE + oat.layout.executableOffset
    requires oat.input.SafeWalk()
    modifies oat`counters, oat`writeState, elf`sections, elf`virtualAddress, out
    ensures checks && oat.AllWritten(out, PAGE_SIZE) && HeaderIn(out.log, oat.input.headerSize)
    ensures elf.Idle() && |elf.sections| == 2 && elf.sections[0] == old(elf.sections)[0]
    ensures SectionIs(elf.sections, 1, TEXT, oat.size - oat.layout.executableOffset)
  {
    checks := WriteTextSection(oat, elf, out);
    FinishHeader(oat, elf, out);
  }

  /** .rodata, .text and the oat header: the sections get exactly the announced sizes. */
  method WriteOatSections(oat: OatWriter, elf: ElfWriterQuick, out: Stream) returns (checks: bool)
    requires Joined(oat, elf, out) && oat.AllLaidOut() && oat.LayoutCounted() && oat.DexOnDisk(out)
    requires SizesAgree(oat, elf) && oat.input.SafeWalk() && oat.size + 1 < TWO_32
    modifies oat`counters, oat`writeState, elf`sections, elf`virtualAddress, out
    ensures checks && oat.AllWritten(out, PAGE_SIZE) && HeaderIn(out.log, oat.input.headerSize)
    ensures elf.Idle() && |elf.sections| == 2 && elf.CodeWritten()
  {
    WriteRodataAndStartText(oat, elf, out);
    checks := WriteTextAndHeader(oat, elf, out);
  }

  /** .text starts where .rodata ends, if that is the end of a page. */
  lemma TextFollowsRodata(f: Format, sections: seq<Section>, rodata: nat)
    requires WellPlaced(sections, f.Headers()) && |sections| == 2 && sections[1].spec == TEXT
    requires SectionIs(sections, 0, RODATA, rodata) && rodata % PAGE_SIZE == 0
    ensures sections[1].offset == PAGE_SIZE + rodata
  {
    CodeIsRight(f, sections, rodata, sections[1].size, 0);
    AddMultiples(PAGE_SIZE, rodata, PAGE_SIZE);
    OnPage(PAGE_SIZE + rodata);
  }

  /** Locations that an ascending list of steps can encode. */
  ghost predicate CanEncode(locations: seq<int>) {
    (forall i :: 0 <= i < |locations| ==> 0 <= locations[i]) && Encodable(0, locations)
  }

  /** The contents of .text.oat_patches: the locations ascend, so the stream of steps decodes to exactly them. */
  method EncodePatchSection(input: Input, l: Layout, ghost p: Plan) returns (buffer: seq<byte>)
    requires CodeLaidOut(input, l, p) && l.visits == input.Visits() && input.PatchesSorted() && l.size < TWO_32
    ensures CanEncode(l.patchLocations) && buffer == PatchStream.Stream(0, l.patchLocations)
    ensures |l.codeOffsets| == |l.visits|
    ensures Listed(l.visits, l.codeOffsets, l.executableOffset, l.patchLocations, |l.visits|)
  {
    LocationsListed(p, l.codeOffsets, l.executableOffset, |l.visits|);
    TrampolinesGrow(input.cfg, input.trampolines, l.executableOffset, |input.trampolines|);
    LocationsAscend(p, |p.visits|, l.executableOffset);
    EndBeforeSize(input, l, p);
    AscendingIsEncodable(0, l.patchLocations);
    buffer := EncodeOatPatches(l.patchLocations, []);
  }

  lemma EndBeforeSize(input: Input, l: Layout, p: Plan)
    requires CodeLaidOut(input, l, p)
    ensures p.End() <= l.size && p.End() == if |p.visits| == 0 then p.from else p.reserved[|p.visits| - 1].end
  {
  }

  /** The section behind the dynamic section has room for exactly the patch stream. */
  ghost predicate PatchesAt(sections: seq<Section>, n: nat, size: nat) {
    n < |sections| && sections[n].spec.name == OatPatchesName && sections[n].size == size
  }

  /** The rest of the second loop: the dynamic section, the encoded patches and the headers. */
  method FinishOatFile(elf: ElfWriterQuick, patches: seq<byte>, names: nat)
    returns (checks: bool, phdrs: seq<Phdr>, ghost loads: seq<Phdr>, ghost owner: seq<nat>)
    requires elf.Idle() && |elf.sections| == 2 && elf.CodeWritten() && elf.Announced()
    modifies elf`sections, elf`virtualAddress, elf.stream
    ensures checks <==> HashFits(elf.format, |elf.cache.dynstr|, |elf.cache.dynsym|)
    ensures Loadable(elf.sections, elf.format.Ehdr(), elf.format.Phdr(), phdrs, loads, owner) && |phdrs| <= 16
    ensures elf.Idle() && elf.DynamicWritten()
    ensures PatchesAt(elf.sections, DynstrAt(elf.format, elf.bssSize) + 4, |patches|)
    ensures Appends(old(elf.stream.log), old(elf.stream.pos), elf.stream.log, elf.stream.pos)
  {
    var fits := elf.WriteDynamicSection();
    ghost var log, pos := elf.stream.log, elf.stream.pos;
    elf.WriteUnloaded(OatPatchesName, |patches|);
    AppendsMore(old(elf.stream.log), old(elf.stream.pos), log, pos, elf.stream.log, elf.stream.pos);
    log, pos := elf.stream.log, elf.stream.pos;
    checks, phdrs, loads, owner := elf.Finish(names);
    AppendsMore(old(elf.stream.log), old(elf.stream.pos), log, pos, elf.stream.log, elf.stream.pos);
    checks := checks && fits;
  }

  /** The oat data is complete and counted, and nothing was written over. */
  ghost predicate OatDone(oat: OatWriter, log: seq<Chunk>, pos: nat)
    reads oat`oatDataOffset, oat`dexOffsets, oat`layout, oat`tables, oat`plan, oat`counters, oat`size
  {
    && oat.ContentsWritten(log) && HeaderIn(log, oat.input.headerSize) && Tidy(log, PAGE_SIZE, pos)
    && oat.counters.Total() == oat.size
  }

  /** The patch section has room for exactly the stream of the patch locations. */
  ghost predicate PatchesFit(oat: OatWriter, elf: ElfWriterQuick)
    reads oat`layout, elf`sections, elf`bssSize
  {
    && CanEncode(oat.layout.patchLocations)
    && PatchesAt(elf.sections, DynstrAt(elf.format, elf.bssSize) + 4,
                 |PatchStream.Stream(0, oat.layout.patchLocations)|)
  }

  /** A finished oat file: every comparison has succeeded exactly if .hash fits, the program headers load every section,
      and the oat data and the patch section are as they should be. */
  ghost predicate Finished(oat: OatWriter, elf: ElfWriterQuick, out: Stream, checks: bool, phdrs: seq<Phdr>,
                           loads: seq<Phdr>, owner: seq<nat>)
    reads oat, elf, out, elf.stream
  {
    && (checks <==> HashFits(elf.format, |elf.cache.dynstr|, |elf.cache.dynsym|))
    && Loadable(elf.sections, elf.format.Ehdr(), elf.format.Phdr(), phdrs, loads, owner) && |phdrs| <= 16
    && elf.Idle() && elf.DynamicWritten() && OatDone(oat, out.log, out.pos) && PatchesFit(oat, elf)
  }

  /** The rest of the ELF file leaves the oat data as it is. */
  method FinishBehindOat(oat: OatWriter, elf: ElfWriterQuick, out: Stream, patches: seq<byte>, names: nat)
    returns (checks: bool, phdrs: seq<Phdr>, ghost loads: seq<Phdr>, ghost owner: seq<nat>)
    requires elf.stream == out && elf.Idle() && |elf.sections| == 2 && elf.CodeWritten() && elf.Announced()
    requires OatDone(oat, out.log, out.pos) && PAGE_SIZE <= out.pos
    requires CanEncode(oat.layout.patchLocations) && patches == PatchStream.Stream(0, oat.layout.patchLocations)
    modifies elf`sections, elf`virtualAddress, out
    ensures Finished(oat, elf, out, checks, phdrs, loads, owner)
  {
    checks, phdrs, loads, owner := FinishOatFile(elf, patches, names);
    oat.ContentsStay(old(out.log), out.log);
    AppendsTidy(old(out.log), PAGE_SIZE, old(out.pos), out.log, out.pos);
  }

  /** The part of the second loop that the oat writer has a share in. */
  method WriteOatData(oat: OatWriter, elf: ElfWriterQuick, out: Stream) returns (checks: bool, patches: seq<byte>)
    requires Joined(oat, elf, out) && oat.AllLaidOut() && oat.LayoutCounted() && oat.DexOnDisk(out)
    requires SizesAgree(oat, elf) && oat.input.SafeWalk() && oat.input.PatchesSorted() && oat.size + 1 < TWO_32
    modifies oat`counters, oat`writeState, elf`sections, elf`virtualAddress, out
    ensures checks && OatDone(oat, out.log, out.pos) && PAGE_SIZE <= out.pos
    ensures elf.Idle() && |elf.sections| == 2 && elf.CodeWritten()
    ensures CanEncode(oat.layout.patchLocations) && patches == PatchStream.Stream(0, oat.layout.patchLocations)
  {
    patches := EncodePatchSection(oat.input, oat.layout, oat.plan);
    checks := WriteOatSections(oat, elf, out);
  }

  /** The second loop of WriteOatFiles: every comparison that the writers make succeeds exactly when .hash fits, the
      program headers load every section, everything is where the layout put it, and nothing is written twice. */
  method WriteOatFile(oat: OatWriter, elf: ElfWriterQuick, out: Stream, names: nat)
    returns (checks: bool, phdrs: seq<Phdr>, ghost loads: seq<Phdr>, ghost owner: seq<nat>)
    requires Joined(oat, elf, out) && oat.AllLaidOut() && oat.LayoutCounted() && oat.DexOnDisk(out)
    requires elf.Announced() && SizesAgree(oat, elf)
    requires oat.input.SafeWalk() && oat.input.PatchesSorted() && oat.size + 1 < TWO_32
    modifies oat`counters, oat`writeState, elf`sections, elf`virtualAddress, out
    ensures Finished(oat, elf, out, checks, phdrs, loads, owner)
  {
    var written, patches := WriteOatData(oat, elf, out);
    checks, phdrs, loads, owner := FinishBehindOat(oat, elf, out, patches, names);
    checks := checks && written;
  }

  /** The writers are made, .rodata is started and the dex files are written into it. */
  method StartOatFile(input: Input, format: Format) returns (oat: OatWriter, elf: ElfWriterQuick, out: Stream)
    requires input.Valid()
    ensures fresh(oat) && fresh(elf) && fresh(out) && oat.input == input && elf.format == format
    ensures Joined(oat, elf, out) && oat.DexCounted() && oat.DexOnDisk(out)
  {
    out := new Stream(0);
    elf := new ElfWriterQuick(format, out);
    elf.Start();
    elf.StartRoData();
    oat := new OatWriter(input);
    oat.WriteAndOpenDexFiles(out);
  }

  /** Everything up to the second loop. */
  method PrepareOatFile(input: Input, format: Format, path: string)
    returns (oat: OatWriter, elf: ElfWriterQuick, out: Stream, file: OatFile)
    requires input.Valid()
    ensures fresh(oat) && fresh(elf) && fresh(out) && oat.input == input && elf.format == format && elf.path == path
    ensures Joined(oat, elf, out) && oat.AllLaidOut() && oat.LayoutCounted() && oat.DexOnDisk(out)
    ensures elf.Announced() && SizesAgree(oat, elf)
    ensures file == OatFile(elf.cache.loadedSize, oat.oatDataOffset, oat.size)
  {
    oat, elf, out := StartOatFile(input, format);
    file := AnnounceOatFile(oat, elf, out, path);
  }

  /** An oat file: what was laid out and announced, its sections, and what is where in it. */
  datatype OatFileImage = OatFileImage(input: Input, path: string, format: Format, dexOffsets: DexOffsets,
                                       layout: Layout, dexCaches: seq<nat>, bssSize: nat, cache: Cache,
                                       sections: seq<Section>, virtualAddress: nat, log: seq<Chunk>, pos: nat,
                                       counters: Counters)

  /** The layout of the oat data and its announcement to the ELF writer. */
  ghost predicate PlanOk(f: OatFileImage, t: MapPlan, p: Plan) {
    && LaidOut(f.input, f.layout, f.layout.size, f.dexCaches, f.bssSize, t, p)
    && f.layout.executableOffset <= f.layout.size
    && Prepared(f.format, f.path, 1, PAGE_SIZE, f.layout.executableOffset, f.layout.size - f.layout.executableOffset,
                f.bssSize, f.cache)
  }

  /** The sections are those that were announced, and the program headers load them. */
  ghost predicate SectionsOk(f: OatFileImage, phdrs: seq<Phdr>, loads: seq<Phdr>, owner: seq<nat>) {
    && Between(f.format, f.sections, f.virtualAddress, f.pos) && f.layout.executableOffset <= f.layout.size
    && QuickSections(f.format, f.sections, f.layout.executableOffset, f.layout.size - f.layout.executableOffset,
                     f.bssSize, f.cache)
    && Loadable(f.sections, f.format.Ehdr(), f.format.Phdr(), phdrs, loads, owner) && |phdrs| <= 16
  }

  /** Everything is where the layout has it, counted once, and nothing was written over. */
  ghost predicate ContentsOk(f: OatFileImage, t: MapPlan, p: Plan) {
    && RodataInFile(f.input, f.dexOffsets, f.layout, t, f.log, PAGE_SIZE)
    && CodeInFile(f.input, f.layout, p, f.log, PAGE_SIZE)
    && HeaderIn(f.log, f.input.headerSize) && Tidy(f.log, PAGE_SIZE, f.pos) && f.counters.Total() == f.layout.size
    && CanEncode(f.layout.patchLocations)
    && PatchesAt(f.sections, DynstrAt(f.format, f.bssSize) + 4, |PatchStream.Stream(0, f.layout.patchLocations)|)
  }

  /** The file between the loops. */
  method TakePlan(oat: OatWriter, elf: ElfWriterQuick, out: Stream, path: string)
    returns (f: OatFileImage, ghost t: MapPlan, ghost p: Plan)
    requires oat.AllLaidOut() && elf.Announced() && SizesAgree(oat, elf) && elf.path == path
    ensures f.input == oat.input && f.format == elf.format && f.path == path && f.layout.size == oat.size
    ensures f.dexOffsets == oat.dexOffsets && f.layout == oat.layout && f.bssSize == elf.bssSize && f.cache == elf.cache
    ensures elf.rodataSize == f.layout.executableOffset <= f.layout.size == elf.rodataSize + elf.textSize
    ensures t == oat.tables && p == oat.plan && PlanOk(f, t, p)
  {
    f := OatFileImage(oat.input, path, elf.format, oat.dexOffsets, oat.layout, oat.dexCacheOffsets, oat.bssSize,
                      elf.cache, elf.sections, elf.virtualAddress, out.log, out.pos, oat.counters);
    t, p := oat.tables, oat.plan;
  }

  /** The finished file. */
  method TakeFile(oat: OatWriter, elf: ElfWriterQuick, out: Stream, plan: OatFileImage, ghost checks: bool,
                  ghost phdrs: seq<Phdr>, ghost loads: seq<Phdr>, ghost owner: seq<nat>)
    returns (f: OatFileImage)
    requires Finished(oat, elf, out, checks, phdrs, loads, owner)
    requires elf.stream == out && oat.oatDataOffset == PAGE_SIZE && oat.input == plan.input && elf.format == plan.format
    requires oat.dexOffsets == plan.dexOffsets && oat.layout == plan.layout && oat.size == plan.layout.size
    requires elf.bssSize == plan.bssSize && elf.cache == plan.cache
    requires elf.rodataSize == plan.layout.executableOffset <= plan.layout.size == elf.rodataSize + elf.textSize
    ensures f == plan.(sections := f.sections, virtualAddress := f.virtualAddress, log := f.log, pos := f.pos,
                       counters := f.counters)
    ensures SectionsOk(f, phdrs, loads, owner) && ContentsOk(f, oat.tables, oat.plan)
    ensures checks <==> HashFits(f.format, |f.cache.dynstr|, |f.cache.dynsym|)
  {
    f := plan.(sections := elf.sections, virtualAddress := elf.virtualAddress, log := out.log, pos := out.pos,
               counters := oat.counters);
  }

  /** Everything up to the second loop, seen from the plan. */
  method PreparePlan(input: Input, format: Format, path: string)
    returns (oat: OatWriter, elf: ElfWriterQuick, out: Stream, plan: OatFileImage, ghost t: MapPlan, ghost p: Plan)
    requires input.Valid()
    ensures fresh(oat) && fresh(elf) && fresh(out) && oat.input == input && t == oat.tables && p == oat.plan
    ensures plan.input == input && plan.format == format && plan.path == path && PlanOk(plan, t, p)
    ensures Joined(oat, elf, out) && oat.AllLaidOut() && oat.LayoutCounted() && oat.DexOnDisk(out)
    ensures elf.Announced() && SizesAgree(oat, elf)
    ensures oat.input == plan.input && elf.format == plan.format
    ensures oat.dexOffsets == plan.dexOffsets && oat.layout == plan.layout && oat.size == plan.layout.size
    ensures elf.bssSize == plan.bssSize && elf.cache == plan.cache
    ensures elf.rodataSize == plan.layout.executableOffset <= plan.layout.size == elf.rodataSize + elf.textSize
  {
    var file;
    oat, elf, out, file := PrepareOatFile(input, format, path);
    plan, t, p := TakePlan(oat, elf, out, path);
  }

  lemma PlanStays(f: OatFileImage, g: OatFileImage, t: MapPlan, p: Plan)
    requires PlanOk(f, t, p)
    requires g == f.(sections := g.sections, virtualAddress := g.virtualAddress, log := g.log, pos := g.pos,
                     counters := g.counters)
    ensures PlanOk(g, t, p)
  {
  }

  /** The second loop, seen from the plan. */
  method WritePlan(oat: OatWriter, elf: ElfWriterQuick, out: Stream, plan: OatFileImage, names: nat)
    returns (f: OatFileImage, checks: bool, phdrs: seq<Phdr>, ghost loads: seq<Phdr>, ghost owner: seq<nat>)
    requires Joined(oat, elf, out) && oat.AllLaidOut() && oat.LayoutCounted() && oat.DexOnDisk(out)
    requires elf.Announced() && SizesAgree(oat, elf)
    requires oat.input.SafeWalk() && oat.input.PatchesSorted() && oat.size + 1 < TWO_32
    requires oat.input == plan.input && elf.format == plan.format
    requires oat.dexOffsets == plan.dexOffsets && oat.layout == plan.layout && oat.size == plan.layout.size
    requires elf.bssSize == plan.bssSize && elf.cache == plan.cache
    requires elf.rodataSize == plan.layout.executableOffset <= plan.layout.size == elf.rodataSize + elf.textSize
    modifies oat`counters, oat`writeState, elf`sections, elf`virtualAddress, out
    ensures f == plan.(sections := f.sections, virtualAddress := f.virtualAddress, log := f.log, pos := f.pos,
                       counters := f.counters)
    ensures SectionsOk(f, phdrs, loads, owner) && ContentsOk(f, oat.tables, oat.plan)
    ensures checks <==> HashFits(f.format, |f.cache.dynstr|, |f.cache.dynsym|)
  {
    checks, phdrs, loads, owner := WriteOatFile(oat, elf, out, names);
    f := TakeFile(oat, elf, out, plan, checks, phdrs, loads, owner);
  }

  /** A whole oat file, from nothing but its input.  `fits` says whether its offsets stay below 4 GiB; the file is
      written only then.  `checks` is the outcome of all comparisons. */
  method CreateOatFile(input: Input, format: Format, path: string, names: nat)
    returns (f: OatFileImage, fits: bool, checks: bool, phdrs: seq<Phdr>,
             ghost t: MapPlan, ghost p: Plan, ghost loads: seq<Phdr>, ghost owner: seq<nat>)
    requires input.Valid() && input.SafeWalk() && input.PatchesSorted()
    ensures f.input == input && f.format == format && f.path == path && PlanOk(f, t, p)
    ensures fits <==> f.layout.size + 1 < TWO_32
    ensures fits ==> (checks <==> HashFits(f.format, |f.cache.dynstr|, |f.cache.dynsym|))
    ensures fits ==> SectionsOk(f, phdrs, loads, owner) && ContentsOk(f, t, p)
  {
    var oat, elf, out;
    oat, elf, out, f, t, p := PreparePlan(input, format, path);
    fits := f.layout.size + 1 < TWO_32;
    if !fits {
      return f, fits, false, [], t, p, [], [];
    }
    ghost var plan := f;
    f, checks, phdrs, loads, owner := WritePlan(oat, elf, out, f, names);
    PlanStays(plan, f, t, p);
  }

  /** What becomes of one oat file. */
  datatype Outcome = Outcome(f: OatFileImage, fits: bool, checks: bool, phdrs: seq<Phdr>)

  /** An oat file and what the passes over it did. */
  datatype Run = Run(o: Outcome, t: MapPlan, p: Plan, loads: seq<Phdr>, owner: seq<nat>)

  ghost predicate Created(r: Run) {
    var o := r.o;
    && PlanOk(o.f, r.t, r.p) && (o.fits <==> o.f.layout.size + 1 < TWO_32)
    && (o.fits ==> (o.checks <==> HashFits(o.f.format, |o.f.cache.dynstr|, |o.f.cache.dynsym|)))
    && (o.fits ==> SectionsOk(o.f, o.phdrs, r.loads, r.owner) && ContentsOk(o.f, r.t, r.p))
  }

  ghost predicate AllCreated(runs: seq<Run>) { forall r :: r in runs ==> Created(r) }

  /** What UpdateOatFileLayout is told of a file. */
  function FileOf(f: OatFileImage): OatFile { OatFile(f.cache.loadedSize, PAGE_SIZE, f.layout.size) }

  /** The outcome is that of the run, which was given this input. */
  ghost predicate OutcomeOf(o: Outcome, r: Run, input: Input, format: Format, path: string) {
    o == r.o && o.f.input == input && o.f.format == format && o.f.path == path
  }

  method CreateOne(input: Input, format: Format, path: string, names: nat) returns (o: Outcome, ghost r: Run)
    requires input.Valid() && input.SafeWalk() && input.PatchesSorted()
    ensures AllCreated([r]) && OutcomeOf(o, r, input, format, path)
  {
    var f, fits, checks, phdrs, t, p, loads, owner := CreateOatFile(input, format, path, names);
    o := Outcome(f, fits, checks, phdrs);
    r := Run(o, t, p, loads, owner);
    assert Created(r);
  }

  lemma AllOf(a: seq<Run>, b: seq<Run>)
    requires AllCreated(a) && AllCreated(b)
    ensures AllCreated(a + b)
  {
    forall r | r in a + b ensures Created(r) { assert r in a || r in b; }
  }

  method CreateAll(inputs: seq<Input>, format: Format, paths: seq<string>, names: seq<nat>)
    returns (outcomes: seq<Outcome>, files: seq<OatFile>, ghost runs: seq<Run>)
    requires |paths| == |names| == |inputs|
    requires forall i :: 0 <= i < |inputs| ==> inputs[i].Valid() && inputs[i].SafeWalk() && inputs[i].PatchesSorted()
    ensures |outcomes| == |files| == |runs| == |inputs| && AllCreated(runs)
    ensures forall i :: 0 <= i < |inputs| ==> OutcomeOf(outcomes[i], runs[i], inputs[i], format, paths[i])
    ensures forall i :: 0 <= i < |inputs| ==> files[i] == FileOf(outcomes[i].f)
  {
    outcomes, files, runs := [], [], [];
    for n := 0 to |inputs|
      invariant |outcomes| == |files| == |runs| == n && AllCreated(runs)
      invariant forall i :: 0 <= i < n ==> OutcomeOf(outcomes[i], runs[i], inputs[i], format, paths[i])
      invariant forall i :: 0 <= i < n ==> files[i] == FileOf(outcomes[i].f)
    {
      var o;
      ghost var r;
      o, r := CreateOne(inputs[n], format, paths[n], names[n]);
      AllOf(runs, [r]);
      outcomes, files, runs := outcomes + [o], files + [FileOf(o.f)], runs + [r];
    }
  }

  /** All oat files.  Their writers share nothing, so each file goes through both loops of WriteOatFiles before the
      next; the image writer is then told of all of them, in order. */
  method CreateOatFiles(inputs: seq<Input>, format: Format, paths: seq<string>, names: seq<nat>, images: Images)
    returns (outcomes: seq<Outcome>, files: seq<OatFile>, ghost runs: seq<Run>)
    requires |paths| == |names| == |inputs| == |images.infos| && (images.appImage ==> |inputs| == 1)
    requires forall i :: 0 <= i < |inputs| ==> inputs[i].Valid() && inputs[i].SafeWalk() && inputs[i].PatchesSorted()
    requires ImagesPlaced(images.infos, images.base) && (|inputs| > 0 ==> images.infos[0].oatOffset == 0)
    modifies images
    ensures |outcomes| == |files| == |runs| == |inputs| && AllCreated(runs)
    ensures forall i :: 0 <= i < |inputs| ==> OutcomeOf(outcomes[i], runs[i], inputs[i], format, paths[i])
    ensures forall i :: 0 <= i < |inputs| ==> files[i] == FileOf(outcomes[i].f)
    ensures ImagesPlaced(images.infos, images.base)
    ensures OatsPlaced(images.infos, files, ImagesEnd(images.infos, images.base, |images.infos|))
  {
    outcomes, files, runs := CreateAll(inputs, format, paths, names);
    images.UpdateAll(files);
  }

  /** The sections of a file are those that were announced, and `checks` is the outcome of the comparisons. */
  ghost predicate AsAnnounced(f: OatFileImage, checks: bool) {
    && f.layout.executableOffset <= f.layout.size && Between(f.format, f.sections, f.virtualAddress, f.pos)
    && QuickSections(f.format, f.sections, f.layout.executableOffset, f.layout.size - f.layout.executableOffset,
                     f.bssSize, f.cache)
    && Prepared(f.format, f.path, 1, PAGE_SIZE, f.layout.executableOffset, f.layout.size - f.layout.executableOffset,
                f.bssSize, f.cache)
    && (checks <==> HashFits(f.format, |f.cache.dynstr|, |f.cache.dynsym|))
  }

  lemma CreatedAsAnnounced(r: Run)
    requires Created(r) && r.o.fits
    ensures AsAnnounced(r.o.f, r.o.checks)
  {
  }

  /** A file is in memory where its writers have assumed: .rodata lies where the image writer believes the oat data to
      begin, the oat data ends inside the file's address range, and the sections end where the range ends exactly if the
      comparisons hold. */
  lemma LoadedWhereAnnounced(f: OatFileImage, checks: bool, infos: seq<Info>, oats: seq<OatFile>, end: nat, i: nat)
    requires AsAnnounced(f, checks)
    requires i < |infos| == |oats| && OatAt(infos, oats, end, i) && oats[i] == FileOf(f)
    ensures |f.sections| > 0 && infos[i].oatDataBegin == infos[i].oatFileBegin + f.sections[0].addr
    ensures infos[i].oatDataBegin + infos[i].oatSize <= infos[i].oatFileBegin + infos[i].oatLoadedSize
    ensures RoundUp(f.virtualAddress, PAGE_SIZE) == infos[i].oatLoadedSize <==> checks
  {
    var rodata, text := f.layout.executableOffset, f.layout.size - f.layout.executableOffset;
    MemoryIsRight(f.format, f.path, f.sections, f.virtualAddress, f.pos, rodata, text, f.bssSize, f.cache);
    LoadedSizeCoversOat(f.format, f.path, 1, rodata, text, f.bssSize, f.cache);
  }

  /** The dex cache arrays of file d, at the offset from the oat data that the oat writer computed, are the bytes of
      .bss behind those of the earlier files, and they end inside .bss. */
  lemma DexCachesInBss(f: Format, sections: seq<Section>, executable: nat, size: nat, sizes: seq<nat>,
                       offsets: seq<nat>, bss: nat, c: Cache, d: nat)
    requires WellPlaced(sections, f.Headers()) && executable <= size && executable % PAGE_SIZE == 0 && bss != 0
    requires QuickSections(f, sections, executable, size - executable, bss, c)
    requires DexCachesPlaced(sizes, size, offsets, bss) && d < |sizes|
    ensures sections[0].addr + offsets[d] == sections[2].addr + SumTo(sizes, d)
    ensures SumTo(sizes, d) + sizes[d] <= sections[2].size
    ensures d + 1 < |sizes| ==> offsets[d] + sizes[d] == offsets[d + 1]
  {
    BssDistance(f, sections, executable, size, bss, c);
    assert DexCacheAt(sizes, size, offsets[d], d);
    if d + 1 < |sizes| { assert DexCacheAt(sizes, size, offsets[d + 1], d + 1); }
    SumGrows(sizes, d + 1, |sizes|);
  }
}
