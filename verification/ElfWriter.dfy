/** The ELF writer (compiler/elf_writer_quick.cc over compiler/elf_builder.h): sections are started, filled through
    the stream and ended one after the other, behind a dynamic section that was prepared in advance. */
module ElfWriters {
  import opened Alignment
  import opened ElfDynamic
  import opened ElfPrediction
  import opened ElfSections
  import opened ProgramHeaders
  import opened Streams

  const NOT_LOADED: Flags := Flags(false, false)

  /** No section is open: the stream and virtual_address_ are behind the last one. */
  ghost predicate Between(f: Format, sections: seq<Section>, va: nat, pos: nat) {
    && WellPlaced(sections, f.Headers())
    && pos == Pos(sections, f.Headers(), |sections|) && va == Va(sections, f.Headers(), |sections|)
  }

  /** The last section is open and still counts as empty. */
  ghost predicate Opened(f: Format, sections: seq<Section>, va: nat) {
    && |sections| > 0 && WellPlaced(sections, f.Headers()) && va == Va(sections, f.Headers(), |sections|)
    && var s := sections[|sections| - 1]; !s.spec.noBits && s.size == 0
  }

  /** Section::Start. */
  method StartSection(f: Format, stream: Stream, sections: seq<Section>, va: nat, spec: Spec)
    returns (sections': seq<Section>, va': nat)
    requires Between(f, sections, va, stream.pos) && spec.Valid() && !spec.noBits
    modifies stream`pos
    ensures Opened(f, sections', va') && |sections'| == |sections| + 1 && sections <= sections'
    ensures sections'[|sections|].spec == spec && old(stream.pos) <= stream.pos == sections'[|sections|].offset
  {
    var align := AlignmentOf(sections, spec);
    stream.Seek(RoundUp(stream.pos, align));
    va' := if spec.flags.alloc then RoundUp(va, align) else va;
    var s := Section(spec, align, stream.pos, if spec.flags.alloc then va' else 0, 0);
    sections' := sections + [s];
    PlaceOne(sections, s, f.Headers());
    PrefixEnds(sections, s, f.Headers(), |sections|);
  }

  /** Section::End: the size is what the stream has moved since Start. */
  method EndSection(f: Format, stream: Stream, sections: seq<Section>, va: nat)
    returns (sections': seq<Section>, va': nat)
    requires Opened(f, sections, va) && sections[|sections| - 1].offset <= stream.pos
    ensures Between(f, sections', va', stream.pos)
    ensures var n := |sections| - 1;
            sections' == sections[..n] + [sections[n].(size := stream.pos - sections[n].offset)]
  {
    var n := |sections| - 1;
    var s := sections[n].(size := stream.pos - sections[n].offset);
    sections' := sections[..n] + [s];
    va' := if s.spec.flags.alloc then va + s.size else va;
    assert sections == sections[..n] + [sections[n]];
    WithoutLast(sections[..n], sections[n], f.Headers());
    PlaceOne(sections[..n], s, f.Headers());
    PrefixEnds(sections[..n], s, f.Headers(), n);
    PrefixEnds(sections[..n], sections[n], f.Headers(), n);
  }

  /** Section::WriteNoBitsSection. */
  method WriteNoBitsSection(f: Format, sections: seq<Section>, va: nat, spec: Spec, size: nat, ghost pos: nat)
    returns (sections': seq<Section>, va': nat)
    requires Between(f, sections, va, pos) && spec.Valid() && spec.noBits && size > 0
    ensures Between(f, sections', va', pos) && |sections'| == |sections| + 1 && sections <= sections'
    ensures SectionIs(sections', |sections|, spec, size)
  {
    var align := AlignmentOf(sections, spec);
    var addr := RoundUp(va, align);
    var s := Section(spec, align, 0, addr, size);
    sections', va' := sections + [s], addr + size;
    PlaceOne(sections, s, f.Headers());
    PrefixEnds(sections, s, f.Headers(), |sections|);
  }

  /** A section with known contents: Start, WriteFully, End. */
  method WriteSection(f: Format, stream: Stream, sections: seq<Section>, va: nat, spec: Spec, size: nat)
    returns (sections': seq<Section>, va': nat)
    requires Between(f, sections, va, stream.pos) && spec.Valid() && !spec.noBits
    modifies stream
    ensures Between(f, sections', va', stream.pos) && |sections'| == |sections| + 1 && sections <= sections'
    ensures SectionIs(sections', |sections|, spec, size)
    ensures stream.log == old(stream.log) + [Chunk(sections'[|sections|].offset, size, SectionBytes(|sections|))]
    ensures Appends(old(stream.log), old(stream.pos), stream.log, stream.pos)
  {
    sections', va' := StartSection(f, stream, sections, va, spec);
    ghost var pos := stream.pos;
    stream.WriteFully(size, SectionBytes(|sections|));
    AppendsSeek(old(stream.log), old(stream.pos), old(stream.log), old(stream.pos), pos);
    AppendsMore(old(stream.log), old(stream.pos), old(stream.log), pos, stream.log, stream.pos);
    sections', va' := EndSection(f, stream, sections', va');
  }

  /** .bss if there is any, and .MIPS.abiflags. */
  method WriteFront(f: Format, stream: Stream, sections: seq<Section>, va: nat, bss: nat)
    returns (sections': seq<Section>, va': nat)
    requires Between(f, sections, va, stream.pos) && |sections| == 2
    modifies stream
    ensures Between(f, sections', va', stream.pos) && |sections'| == DynstrAt(f, bss) && sections <= sections'
    ensures bss != 0 ==> SectionIs(sections', 2, BSS, bss)
    ensures Appends(old(stream.log), old(stream.pos), stream.log, stream.pos)
    ensures f.mips ==> SectionIs(sections', DynstrAt(f, bss) - 1, ABIFLAGS, f.Abiflags())
  {
    sections', va' := sections, va;
    if bss != 0 {
      sections', va' := WriteNoBitsSection(f, sections', va', BSS, bss, stream.pos);
    }
    if f.mips {
      sections', va' := WriteSection(f, stream, sections', va', ABIFLAGS, f.Abiflags());
    }
  }

  /** .dynstr, .dynsym, .hash and .dynamic from the cache. */
  method WriteBack(f: Format, stream: Stream, sections: seq<Section>, va: nat, c: Cache)
    returns (sections': seq<Section>, va': nat)
    requires Between(f, sections, va, stream.pos)
    modifies stream
    ensures Between(f, sections', va', stream.pos) && |sections'| == |sections| + 4 && sections <= sections'
    ensures SectionIs(sections', |sections|, DYNSTR, |c.dynstr|)
    ensures SectionIs(sections', |sections| + 1, Dynsym(f), f.Syms(|c.dynsym|))
    ensures SectionIs(sections', |sections| + 2, HASH, 4 * |c.hash|)
    ensures SectionIs(sections', |sections| + 3, DYNAMIC, 7 * f.Dyn())
    ensures Appends(old(stream.log), old(stream.pos), stream.log, stream.pos)
  {
    sections', va' := WriteSection(f, stream, sections, va, DYNSTR, |c.dynstr|);
    ghost var log, pos := stream.log, stream.pos;
    sections', va' := WriteSection(f, stream, sections', va', Dynsym(f), f.Syms(|c.dynsym|));
    AppendsMore(old(stream.log), old(stream.pos), log, pos, stream.log, stream.pos);
    log, pos := stream.log, stream.pos;
    sections', va' := WriteSection(f, stream, sections', va', HASH, 4 * |c.hash|);
    AppendsMore(old(stream.log), old(stream.pos), log, pos, stream.log, stream.pos);
    log, pos := stream.log, stream.pos;
    sections', va' := WriteSection(f, stream, sections', va', DYNAMIC, 7 * f.Dyn());
    AppendsMore(old(stream.log), old(stream.pos), log, pos, stream.log, stream.pos);
  }

  /** The sections behind .text. */
  method WriteDynamic(f: Format, stream: Stream, sections: seq<Section>, va: nat, bss: nat, c: Cache,
                      ghost rodata: nat, ghost text: nat)
    returns (sections': seq<Section>, va': nat)
    requires Between(f, sections, va, stream.pos) && |sections| == 2
    requires SectionIs(sections, 0, RODATA, rodata) && SectionIs(sections, 1, TEXT, text)
    modifies stream
    ensures Between(f, sections', va', stream.pos) && QuickSections(f, sections', rodata, text, bss, c)
    ensures |sections'| == DynstrAt(f, bss) + 4
    ensures Appends(old(stream.log), old(stream.pos), stream.log, stream.pos)
  {
    sections', va' := WriteFront(f, stream, sections, va, bss);
    ghost var log, pos := stream.log, stream.pos;
    sections', va' := WriteBack(f, stream, sections', va', c);
    AppendsMore(old(stream.log), old(stream.pos), log, pos, stream.log, stream.pos);
  }

  /** Sections that are not loaded leave the others as they are. */
  lemma MoreQuickSections(f: Format, sections: seq<Section>, sections': seq<Section>, rodata: nat, text: nat, bss: nat,
                          c: Cache)
    requires QuickSections(f, sections, rodata, text, bss, c) && sections <= sections'
    requires forall i :: |sections| <= i < |sections'| ==> !sections'[i].spec.flags.alloc
    ensures QuickSections(f, sections', rodata, text, bss, c)
  {
  }

  /** The end of memory is the end of .dynamic, whatever unloaded sections follow it. */
  lemma {:induction false} VaIsDynamicEnd(f: Format, sections: seq<Section>, n: nat, k: nat)
    requires n < k <= |sections| && sections[n].spec.flags.alloc
    requires forall i :: n < i < k ==> !sections[i].spec.flags.alloc
    ensures Va(sections, f.Headers(), k) == sections[n].addr + sections[n].size
    decreases k
  {
    if k == n + 1 {
    } else {
      VaIsDynamicEnd(f, sections, n, k - 1);
    }
  }

  /** In memory, .rodata begins a page behind the file, and the sections end with the announced size exactly if .hash
      fits. */
  lemma MemoryIsRight(f: Format, path: string, sections: seq<Section>, va: nat, pos: nat, rodata: nat, text: nat,
                      bss: nat, c: Cache)
    requires Between(f, sections, va, pos) && QuickSections(f, sections, rodata, text, bss, c)
    requires Prepared(f, path, 1, PAGE_SIZE, rodata, text, bss, c)
    ensures sections[0].addr == PAGE_SIZE && c.loadedSize > 0
    ensures RoundUp(va, PAGE_SIZE) == c.loadedSize <==> HashFits(f, |c.dynstr|, |c.dynsym|)
  {
    CodeIsRight(f, sections, rodata, text, bss);
    VaIsDynamicEnd(f, sections, DynstrAt(f, bss) + 3, |sections|);
    LoadedSizeRightIff(f, sections, rodata, text, bss, c);
  }

  /** The program headers of the sections of ElfWriterQuick: neither the alignment CHECK nor the limit of sixteen
      headers can fail. */
  method QuickProgramHeaders(f: Format, sections: seq<Section>, ghost rodata: nat, ghost text: nat, ghost bss: nat,
                             ghost c: Cache)
    returns (phdrs: seq<Phdr>, ghost loads: seq<Phdr>, ghost owner: seq<nat>)
    requires WellPlaced(sections, f.Headers()) && QuickSections(f, sections, rodata, text, bss, c)
    requires |c.dynstr| > 0 && |c.dynsym| > 0
    ensures Loadable(sections, f.Ehdr(), f.Phdr(), phdrs, loads, owner) && |phdrs| <= 16
    ensures RightsOk(f, sections, text, bss, loads, owner)
  {
    QuickChecks(f, sections, rodata, text, bss, c);
    QuickHeadersFit(f, sections, rodata, text, bss, c);
    var aligned;
    aligned, phdrs, loads, owner := MakeProgramHeaders(f.Ehdr(), f.Phdr(), f.Off(), sections);
    HeadersAreLoaded(sections, f.Ehdr(), f.Phdr(), phdrs, loads, owner);
    QuickRights(f, sections, rodata, text, bss, c, f.Ehdr() + 16 * f.Phdr(), loads, owner);
  }

  class ElfWriterQuick {
    const format: Format
    const stream: Stream
    var sections: seq<Section>
    var virtualAddress: nat
    var bssSize: nat
    var cache: Cache
    /** The announced sizes and the path. */
    ghost var rodataSize: nat
    ghost var textSize: nat
    ghost var path: string

    ghost predicate Idle()
      reads this`sections, this`virtualAddress, stream
    {
      Between(format, sections, virtualAddress, stream.pos)
    }

    /** The first section is .rodata, already started, and the dynamic section is prepared from its address. */
    ghost predicate Announced()
      reads this`path, this`rodataSize, this`textSize, this`bssSize, this`cache
    {
      Prepared(format, path, 1, PAGE_SIZE, rodataSize, textSize, bssSize, cache)
    }

    ghost predicate CodeWritten()
      reads this`sections, this`rodataSize, this`textSize
    {
      SectionIs(sections, 0, RODATA, rodataSize) && SectionIs(sections, 1, TEXT, textSize)
    }

    ghost predicate DynamicWritten()
      reads this`sections, this`rodataSize, this`textSize, this`bssSize, this`cache
    {
      QuickSections(format, sections, rodataSize, textSize, bssSize, cache)
    }

    constructor (format: Format, stream: Stream)
      ensures this.format == format && this.stream == stream && sections == [] && virtualAddress == 0
    {
      this.format, this.stream := format, stream;
      sections, virtualAddress, bssSize := [], 0, 0;
      cache := Cache("", [], [], [], 0);
      rodataSize, textSize, path := 0, 0, "";
    }

    method Start()
      requires sections == [] && virtualAddress == 0
      modifies this`virtualAddress, stream`pos
      ensures Idle()
    {
      stream.Seek(format.Headers());
      virtualAddress := virtualAddress + format.Headers();
    }

    method StartRoData()
      requires Idle() && sections == []
      modifies this`sections, this`virtualAddress, stream`pos
      ensures Opened(format, sections, virtualAddress) && |sections| == 1 && sections[0].spec == RODATA
      ensures stream.pos == sections[0].offset == sections[0].addr == PAGE_SIZE
    {
      var s, va := StartSection(format, stream, sections, virtualAddress, RODATA);
      sections, virtualAddress := s, va;
      assert PlacedAt(sections, format.Headers(), 0);
      RoundUpUnique(format.Headers(), PAGE_SIZE, PAGE_SIZE);
    }

    method SetLoadedSectionSizes(path: string, rodata: nat, text: nat, bss: nat)
      requires |sections| == 1 && sections[0].addr == PAGE_SIZE
      modifies this`cache, this`bssSize, this`rodataSize, this`textSize, this`path
      ensures Announced() && rodataSize == rodata && textSize == text && bssSize == bss && this.path == path
    {
      rodataSize, textSize, bssSize, this.path := rodata, text, bss, path;
      cache := PrepareDynamicSection(format, path, 1, sections[0].addr, rodata, text, bss);
    }

    /** EndRoData and EndText. */
    method End()
      requires Opened(format, sections, virtualAddress) && sections[|sections| - 1].offset <= stream.pos
      modifies this`sections, this`virtualAddress
      ensures Idle() && |sections| == old(|sections|)
      ensures var n := |sections| - 1;
              && sections[..n] == old(sections)[..n]
              && SectionIs(sections, n, old(sections)[n].spec, stream.pos - old(sections)[n].offset)
    {
      var s, va := EndSection(format, stream, sections, virtualAddress);
      sections, virtualAddress := s, va;
    }

    method StartText()
      requires Idle() && |sections| == 1
      modifies this`sections, this`virtualAddress, stream`pos
      ensures Opened(format, sections, virtualAddress) && |sections| == 2 && sections[0] == old(sections)[0]
      ensures sections[1].spec == TEXT && stream.pos == sections[1].offset
    {
      var s, va := StartSection(format, stream, sections, virtualAddress, TEXT);
      sections, virtualAddress := s, va;
    }

    /** `checks` is the outcome of the comparison of the loaded size with the end of .dynamic. */
    method WriteDynamicSection() returns (checks: bool)
      requires Idle() && Announced() && |sections| == 2 && CodeWritten()
      modifies this`sections, this`virtualAddress, stream
      ensures Idle() && DynamicWritten() && |sections| == DynstrAt(format, bssSize) + 4
      ensures Appends(old(stream.log), old(stream.pos), stream.log, stream.pos)
      ensures checks <==> HashFits(format, |cache.dynstr|, |cache.dynsym|)
    {
      var s, va := WriteDynamic(format, stream, sections, virtualAddress, bssSize, cache, rodataSize, textSize);
      LoadedSizeRightIff(format, s, rodataSize, textSize, bssSize, cache);
      var dynamic := s[|s| - 1];
      checks := cache.loadedSize == RoundUp(dynamic.addr + dynamic.size, PAGE_SIZE);
      sections, virtualAddress := s, va;
    }

    /** WritePatchLocations, the debug sections and .shstrtab: sections that are not loaded. */
    method WriteUnloaded(name: SectionName, size: nat)
      requires Idle() && DynamicWritten()
      modifies this`sections, this`virtualAddress, stream
      ensures Idle() && DynamicWritten() && old(sections) <= sections && |sections| == |old(sections)| + 1
      ensures sections[|old(sections)|].spec.name == name && sections[|old(sections)|].size == size
      ensures Appends(old(stream.log), old(stream.pos), stream.log, stream.pos)
    {
      var spec := Spec(name, false, NOT_LOADED, 1, R, None);
      var s, va := WriteSection(format, stream, sections, virtualAddress, spec, size);
      MoreQuickSections(format, sections, s, rodataSize, textSize, bssSize, cache);
      sections, virtualAddress := s, va;
    }

    /** ElfBuilder::End without the debug sections: `checks` is the outcome of all its CHECKs. */
    method Finish(names: nat)
      returns (checks: bool, phdrs: seq<Phdr>, ghost loads: seq<Phdr>, ghost owner: seq<nat>)
      requires Idle() && Announced() && DynamicWritten()
      modifies this`sections, this`virtualAddress, stream
      ensures checks <==> HashFits(format, |cache.dynstr|, |cache.dynsym|)
      ensures Loadable(sections, format.Ehdr(), format.Phdr(), phdrs, loads, owner) && |phdrs| <= 16
      ensures RightsOk(format, sections, textSize, bssSize, loads, owner)
      ensures Idle() && DynamicWritten() && old(sections) <= sections
      ensures Appends(old(stream.log), old(stream.pos), stream.log, stream.pos)
    {
      MemoryIsRight(format, path, sections, virtualAddress, stream.pos, rodataSize, textSize, bssSize, cache);
      checks := cache.loadedSize == 0 || cache.loadedSize == RoundUp(virtualAddress, PAGE_SIZE);
      WriteUnloaded(ShstrtabName, names);
      phdrs, loads, owner := QuickProgramHeaders(format, sections, rodataSize, textSize, bssSize, cache);
    }
  }
}
