/** The dynamic section predicted by PrepareDynamicSection against the sections as they are placed later, in the
    order of ElfWriterQuick (compiler/elf_builder.h, compiler/elf_writer_quick.cc). */
module ElfPrediction {
  import opened Alignment
  import opened ElfSections
  import opened ElfDynamic
  import opened ProgramHeaders

  const ALLOC: Flags := Flags(true, false)

  const RODATA: Spec := Spec(RodataName, false, ALLOC, PAGE_SIZE, R, None)
  const TEXT: Spec := Spec(TextName, false, Flags(true, true), PAGE_SIZE, RX, None)
  const BSS: Spec := Spec(BssName, true, ALLOC, PAGE_SIZE, RW, None)
  const ABIFLAGS: Spec := Spec(AbiflagsName, false, ALLOC, PAGE_SIZE, R, MipsAbiflags)
  const DYNSTR: Spec := Spec(DynstrName, false, ALLOC, PAGE_SIZE, R, None)
  function Dynsym(f: Format): Spec { Spec(DynsymName, false, ALLOC, f.Off(), R, None) }
  const HASH: Spec := Spec(HashName, false, ALLOC, 4, R, None)
  const DYNAMIC: Spec := Spec(DynamicName, false, ALLOC, PAGE_SIZE, RW, Dynamic)

  /** The number of sections in front of .dynstr. */
  function DynstrAt(f: Format, bss: nat): nat {
    2 + (if bss != 0 then 1 else 0) + (if f.mips then 1 else 0)
  }

  ghost predicate SectionIs(sections: seq<Section>, i: nat, spec: Spec, size: nat) {
    i < |sections| && sections[i].spec == spec && sections[i].size == size
  }

  /** The sections that ElfWriterQuick has started up to the dynamic section, with their final sizes. */
  ghost predicate QuickSections(f: Format, sections: seq<Section>, rodata: nat, text: nat, bss: nat, c: Cache) {
    var n := DynstrAt(f, bss);
    && |sections| >= n + 4
    && SectionIs(sections, 0, RODATA, rodata) && SectionIs(sections, 1, TEXT, text)
    && (bss != 0 ==> SectionIs(sections, 2, BSS, bss))
    && (f.mips ==> SectionIs(sections, n - 1, ABIFLAGS, f.Abiflags()))
    && SectionIs(sections, n, DYNSTR, |c.dynstr|) && SectionIs(sections, n + 1, Dynsym(f), f.Syms(|c.dynsym|))
    && SectionIs(sections, n + 2, HASH, 4 * |c.hash|) && SectionIs(sections, n + 3, DYNAMIC, 7 * f.Dyn())
    && (forall i :: n + 4 <= i < |sections| ==> !sections[i].spec.flags.alloc)
  }

  lemma OnPage(x: nat)
    requires x % PAGE_SIZE == 0
    ensures RoundUp(x, PAGE_SIZE) == x
  {
    RoundUpUnique(x, PAGE_SIZE, x);
  }

  /** A page-aligned allocated section starts on the page behind the allocated section before it. */
  lemma NextPage(sections: seq<Section>, start: nat, i: nat)
    requires WellPlaced(sections, start) && 0 < i < |sections|
    requires sections[i].spec.flags.alloc && sections[i - 1].spec.flags.alloc && sections[i].spec.align == PAGE_SIZE
    ensures sections[i].align == PAGE_SIZE
    ensures sections[i].addr == RoundUp(sections[i - 1].addr + sections[i - 1].size, PAGE_SIZE)
    ensures !sections[i].spec.noBits && !sections[i - 1].spec.noBits ==>
              sections[i].offset == RoundUp(sections[i - 1].offset + sections[i - 1].size, PAGE_SIZE)
  {
    assert PlacedAt(sections, start, i);
  }

  /** A section with the same flags as the one before it keeps its own alignment. */
  lemma NextSection(sections: seq<Section>, start: nat, i: nat)
    requires WellPlaced(sections, start) && 0 < i < |sections|
    requires sections[i].spec.flags == sections[i - 1].spec.flags && sections[i].spec.flags.alloc
    requires sections[i].spec.align > 0
    ensures sections[i].align == sections[i].spec.align
    ensures sections[i].addr == RoundUp(sections[i - 1].addr + sections[i - 1].size, sections[i].spec.align)
  {
    assert PlacedAt(sections, start, i);
    assert sections[..i][i - 1] == sections[i - 1];
  }

  /** .rodata and .text have file offsets equal to their addresses. */
  lemma CodeIsRight(f: Format, sections: seq<Section>, rodata: nat, text: nat, bss: nat)
    requires WellPlaced(sections, f.Headers())
    requires SectionIs(sections, 0, RODATA, rodata) && SectionIs(sections, 1, TEXT, text)
    ensures sections[0].addr == sections[0].offset == PAGE_SIZE && sections[1].offset == sections[1].addr
    ensures sections[1].addr == PredictFront(f, PAGE_SIZE, rodata, text, bss).text
  {
    assert PlacedAt(sections, f.Headers(), 0);
    RoundUpUnique(f.Headers(), PAGE_SIZE, PAGE_SIZE);
    NextPage(sections, f.Headers(), 1);
  }

  /** Every address up to .dynstr is as predicted. */
  lemma FrontIsRight(f: Format, sections: seq<Section>, rodata: nat, text: nat, bss: nat, c: Cache)
    requires WellPlaced(sections, f.Headers()) && QuickSections(f, sections, rodata, text, bss, c)
    ensures var a := PredictFront(f, PAGE_SIZE, rodata, text, bss);
            && sections[1].addr == a.text && (bss != 0 ==> sections[2].addr == a.bss)
            && (f.mips ==> sections[DynstrAt(f, bss) - 1].addr == a.abiflags)
            && sections[DynstrAt(f, bss)].addr == a.dynstr && a.dynstr % PAGE_SIZE == 0
  {
    CodeIsRight(f, sections, rodata, text, bss);
    var n, a := DynstrAt(f, bss), PredictFront(f, PAGE_SIZE, rodata, text, bss);
    if bss != 0 { NextPage(sections, f.Headers(), 2); } else { OnPage(a.bss); }
    if f.mips { NextPage(sections, f.Headers(), n - 1); } else { OnPage(a.abiflags); }
    NextPage(sections, f.Headers(), n);
  }

  /** The addresses behind .dynstr: .dynsym and .hash are as predicted, and .dynamic follows .hash. */
  lemma BackIsPlaced(f: Format, sections: seq<Section>, rodata: nat, text: nat, bss: nat, c: Cache)
    requires WellPlaced(sections, f.Headers()) && QuickSections(f, sections, rodata, text, bss, c)
    ensures var n := DynstrAt(f, bss);
            var b := PredictBack(f, sections[n].addr, |c.dynstr|, f.Syms(|c.dynsym|));
            && sections[n + 1].addr == b.dynsym && sections[n + 2].addr == b.hash
            && sections[n + 3].addr == RoundUp(b.hash + 4 * |c.hash|, PAGE_SIZE)
  {
    var n := DynstrAt(f, bss);
    NextSection(sections, f.Headers(), n + 1);
    NextSection(sections, f.Headers(), n + 2);
    NextPage(sections, f.Headers(), n + 3);
  }

  /** No page ends between the real end of .hash and the end it would have with the size of .dynsym.  This depends
      only on the format, the length of .dynstr and the number of symbols. */
  predicate HashFits(f: Format, dynstr: nat, count: nat) {
    var hash := f.AlignOff(dynstr) + f.Syms(count);
    RoundUp(hash + 4 * (count + 3), PAGE_SIZE) == RoundUp(hash + f.Syms(count), PAGE_SIZE)
  }

  lemma FourByteMultiple(a: nat, b: nat, c: nat)
    requires a % 4 == 0 && b % 4 == 0 && c % 4 == 0
    ensures RoundUp(a + b + c, 4) == a + b + c
  {
    AddMultiples(a, b, 4);
    AddMultiples(a + b, c, 4);
    RoundUpUnique(a + b + c, 4, a + b + c);
  }

  lemma AlignOffShift(f: Format, page: nat, size: nat)
    requires page % PAGE_SIZE == 0
    ensures f.AlignOff(page + size) == page + f.AlignOff(size)
    ensures f.AlignOff(size) % 4 == 0 && page % 4 == 0
  {
    PageMultiple(page, 4);
    if f.is64 {
      PageMultiple(page, 8);
      RoundUpShift(size, page, 8);
    } else {
      RoundUpShift(size, page, 4);
    }
  }

  /** .hash directly follows .dynsym. */
  lemma HashAddress(f: Format, page: nat, size: nat, count: nat)
    requires page % PAGE_SIZE == 0
    ensures PredictBack(f, page, size, f.Syms(count)).hash == page + f.AlignOff(size) + f.Syms(count)
  {
    AlignOffShift(f, page, size);
    MultipleHasNoRemainder(if f.is64 then 6 * count else 4 * count, 4);
    assert f.Syms(count) % 4 == 0;
    FourByteMultiple(page, f.AlignOff(size), f.Syms(count));
  }

  /** The page behind .dynamic, wherever .dynamic starts. */
  lemma DynamicEnd(f: Format, dynamic: nat)
    requires dynamic % PAGE_SIZE == 0
    ensures RoundUp(dynamic + 7 * f.Dyn(), PAGE_SIZE) == dynamic + PAGE_SIZE
  {
    RoundUpUnique(7 * f.Dyn(), PAGE_SIZE, PAGE_SIZE);
    RoundUpShift(7 * f.Dyn(), dynamic, PAGE_SIZE);
  }

  lemma SamePageIff(page: nat, x: nat, y: nat)
    requires page % PAGE_SIZE == 0
    ensures RoundUp(page + x, PAGE_SIZE) == RoundUp(page + y, PAGE_SIZE)
            <==> RoundUp(x, PAGE_SIZE) == RoundUp(y, PAGE_SIZE)
  {
    RoundUpShift(x, page, PAGE_SIZE);
    RoundUpShift(y, page, PAGE_SIZE);
  }

  /** The two ends of .hash, real and predicted, measured from the page of .dynstr. */
  lemma HashEnds(f: Format, page: nat, size: nat, count: nat)
    requires page % PAGE_SIZE == 0
    ensures var hash := PredictBack(f, page, size, f.Syms(count)).hash;
            RoundUp(hash + 4 * (count + 3), PAGE_SIZE) == RoundUp(hash + f.Syms(count), PAGE_SIZE)
            <==> HashFits(f, size, count)
  {
    HashAddress(f, page, size, count);
    var hash := f.AlignOff(size) + f.Syms(count);
    SamePageIff(page, hash + 4 * (count + 3), hash + f.Syms(count));
    assert page + f.AlignOff(size) + f.Syms(count) == page + hash;
  }

  /** The predicted address of .dynamic and the loaded size are right exactly when .hash fits. */
  lemma LoadedSizeRightIff(f: Format, sections: seq<Section>, rodata: nat, text: nat, bss: nat, c: Cache)
    requires WellPlaced(sections, f.Headers()) && QuickSections(f, sections, rodata, text, bss, c)
    requires |c.hash| == |c.dynsym| + 3
    ensures var n := DynstrAt(f, bss);
            var dynstr := PredictFront(f, PAGE_SIZE, rodata, text, bss).dynstr;
            var b := PredictBack(f, dynstr, |c.dynstr|, f.Syms(|c.dynsym|));
            && (b.dynamic == sections[n + 3].addr <==> HashFits(f, |c.dynstr|, |c.dynsym|))
            && (b.loadedSize == RoundUp(sections[n + 3].addr + sections[n + 3].size, PAGE_SIZE) <==>
                HashFits(f, |c.dynstr|, |c.dynsym|))
  {
    FrontIsRight(f, sections, rodata, text, bss, c);
    BackIsPlaced(f, sections, rodata, text, bss, c);
    var n, page := DynstrAt(f, bss), sections[DynstrAt(f, bss)].addr;
    HashEnds(f, page, |c.dynstr|, |c.dynsym|);
    DynamicEnd(f, PredictBack(f, page, |c.dynstr|, f.Syms(|c.dynsym|)).dynamic);
    DynamicEnd(f, sections[n + 3].addr);
  }

  /** If .dynstr, .dynsym and .hash fit in one page, with room for .hash the size of .dynsym, all is well. */
  lemma OnePageFits(f: Format, dynstr: nat, count: nat)
    requires count >= 2 && f.AlignOff(dynstr) + 2 * f.Syms(count) <= PAGE_SIZE
    ensures HashFits(f, dynstr, count)
  {
    var hash := f.AlignOff(dynstr) + f.Syms(count);
    RoundUpUnique(hash + 4 * (count + 3), PAGE_SIZE, PAGE_SIZE);
    RoundUpUnique(hash + f.Syms(count), PAGE_SIZE, PAGE_SIZE);
  }

  /** Every file name of up to 255 characters fits, whatever sections there are. */
  lemma FileNamesFit(f: Format, name: nat, rodata: nat, text: nat, bss: nat)
    requires name <= 255
    ensures HashFits(f, FixedNames(rodata, text, bss) + name + 1, |Names(rodata, text, bss)|)
  {
    OnePageFits(f, FixedNames(rodata, text, bss) + name + 1, |Names(rodata, text, bss)|);
  }

  /** A path component of 3764 characters does not: .dynamic would be predicted one page too far. */
  lemma LongNameMisses()
    ensures !HashFits(Format(true, false), FixedNames(1, 1, 1) + 3764 + 1, |Names(1, 1, 1)|)
  {
    RoundUpUnique(3816, 8, 3816);
    RoundUpUnique(3996, PAGE_SIZE, PAGE_SIZE);
    RoundUpUnique(4104, PAGE_SIZE, 8192);
  }

  /** The dynamic linker finds a symbol of this name, with these values, whatever the hash value of the name. */
  ghost predicate Finds(c: Cache, name: string, section: nat, value: int, size: nat) {
    forall h: nat :: var i := LookUp(c.dynstr, c.dynsym, c.hash, name, h);
                     0 < i < |c.dynsym| && Is(c.dynsym[i], section, value, size)
  }

  lemma FindsAt(c: Cache, names: seq<string>, k: nat)
    requires Named(c.dynstr, c.dynsym, names) && HashOk(c.hash, |c.dynsym|)
    requires 0 < k < |names| && forall j :: 0 < j < k ==> names[j] != names[k]
    ensures Finds(c, names[k], c.dynsym[k].section, c.dynsym[k].value, c.dynsym[k].size)
  {
    assert NamedAt(c.dynstr, c.dynsym, names, k);
    SearchFrom(c.dynstr, c.dynsym, c.hash, names, names[k], 1, k, |names|);
  }

  /** No two names are equal. */
  lemma NamesDiffer(rodata: nat, text: nat, bss: nat, j: nat, k: nat)
    requires 0 < j < k < |Names(rodata, text, bss)|
    ensures Names(rodata, text, bss)[j] != Names(rodata, text, bss)[k]
  {
    assert |"oatdata"| == 7 && |"oatexec"| == 7 && |"oatlastword"| == 11 && |"oatbss"| == 6 && |"oatbsslastword"| == 14;
    assert "oatdata"[3] != "oatexec"[3];
  }

  lemma FindsName(rodata: nat, text: nat, bss: nat, c: Cache, k: nat)
    requires Named(c.dynstr, c.dynsym, Names(rodata, text, bss)) && HashOk(c.hash, |c.dynsym|) && 0 < k < |c.dynsym|
    ensures Finds(c, Names(rodata, text, bss)[k], c.dynsym[k].section, c.dynsym[k].value, c.dynsym[k].size)
  {
    var names := Names(rodata, text, bss);
    forall j | 0 < j < k ensures names[j] != names[k] { NamesDiffer(rodata, text, bss, j, k); }
    FindsAt(c, names, k);
  }

  /** The dynamic linker finds every section through its symbols, at its real address and with its real size.  The
      section index is the real one too, but for .bss behind an empty .text. */
  lemma SymbolsAreRight(f: Format, sections: seq<Section>, path: string, rodata: nat, text: nat, bss: nat, c: Cache)
    requires WellPlaced(sections, f.Headers()) && QuickSections(f, sections, rodata, text, bss, c)
    requires Prepared(f, path, 1, PAGE_SIZE, rodata, text, bss, c)
    ensures Finds(c, "oatdata", 1, sections[0].addr, sections[0].size)
    ensures text != 0 ==> Finds(c, "oatexec", 2, sections[1].addr, sections[1].size)
    ensures text != 0 ==> Finds(c, "oatlastword", 2, sections[1].addr + sections[1].size - 4, 4)
    ensures text == 0 && rodata != 0 ==> Finds(c, "oatlastword", 1, sections[0].addr + sections[0].size - 4, 4)
    ensures bss != 0 ==>
              var index := if text != 0 then 3 else 2;
              && Finds(c, "oatbss", index, sections[2].addr, sections[2].size)
              && Finds(c, "oatbsslastword", index, sections[2].addr + sections[2].size - 4, 4)
  {
    CodeIsRight(f, sections, rodata, text, bss);
    FrontIsRight(f, sections, rodata, text, bss, c);
    FindsName(rodata, text, bss, c, 1);
    if text != 0 || rodata != 0 { FindsName(rodata, text, bss, c, 2); }
    if text != 0 { FindsName(rodata, text, bss, c, 3); }
    if bss != 0 {
      FindsName(rodata, text, bss, c, BssAt(rodata, text));
      FindsName(rodata, text, bss, c, BssAt(rodata, text) + 1);
    }
  }

  /** The addresses in .dynamic are those of the tables, even where .dynamic itself is not where it was expected. */
  lemma EntriesAreRight(f: Format, sections: seq<Section>, path: string, rodata: nat, text: nat, bss: nat, c: Cache)
    requires WellPlaced(sections, f.Headers()) && QuickSections(f, sections, rodata, text, bss, c)
    requires Prepared(f, path, 1, PAGE_SIZE, rodata, text, bss, c)
    ensures var n := DynstrAt(f, bss);
            c.entries[..5] == [sections[n + 2].addr, sections[n].addr, sections[n + 1].addr, f.Sym(), sections[n].size]
    ensures SonameAt(path, c.dynstr, c.entries[5])
  {
    FrontIsRight(f, sections, rodata, text, bss, c);
    BackIsPlaced(f, sections, rodata, text, bss, c);
  }

  /** The checks of MakeProgramHeaders hold for the sections of ElfWriterQuick. */
  lemma QuickChecks(f: Format, sections: seq<Section>, rodata: nat, text: nat, bss: nat, c: Cache)
    requires WellPlaced(sections, f.Headers()) && QuickSections(f, sections, rodata, text, bss, c)
    requires |c.dynstr| > 0 && |c.dynsym| > 0
    ensures AllocFirst(sections)
    ensures forall i {:trigger ChecksAt(sections, i)} :: 0 <= i < |sections| ==> ChecksAt(sections, i)
  {
    var n, h := DynstrAt(f, bss), f.Headers();
    forall i {:trigger ChecksAt(sections, i)} | 0 <= i < |sections| ensures ChecksAt(sections, i) {
      if i == 0 {
        assert PlacedAt(sections, h, 0);
      } else if i <= n || i == n + 3 {
        NextPage(sections, h, i);
      } else if i <= n + 2 {
        assert LastLoaded(sections, i) == i - 1;
      }
    }
  }

  lemma {:induction false} NoneLocated(sections: seq<Section>, a: nat, b: nat)
    requires a <= b <= |sections| && forall i :: a <= i < b ==> !Located(sections[i])
    ensures LocatedCount(sections, b) == LocatedCount(sections, a)
    decreases b
  {
    if a == b {
    } else {
      NoneLocated(sections, a, b - 1);
    }
  }

  lemma {:induction false} FewLoaded(sections: seq<Section>, n: nat, k: nat)
    requires n <= k <= |sections| && forall i :: n <= i < k ==> !sections[i].Loaded()
    ensures LoadedCount(sections, k) <= n
    decreases k
  {
    if k == 0 {
    } else {
      FewLoaded(sections, if n < k then n else n - 1, k - 1);
    }
  }

  /** There are at most eight loaded sections, two of which have a program header of their own. */
  lemma QuickHeadersFit(f: Format, sections: seq<Section>, rodata: nat, text: nat, bss: nat, c: Cache)
    requires QuickSections(f, sections, rodata, text, bss, c)
    ensures LoadedCount(sections, |sections|) + LocatedCount(sections, |sections|) <= 10
  {
    var n := DynstrAt(f, bss);
    FewLoaded(sections, n + 4, |sections|);
    NoneLocated(sections, n + 4, |sections|);
    NoneLocated(sections, n, n + 3);
    NoneLocated(sections, 0, if f.mips then n - 1 else n);
  }

  /** The rights of the mapped sections: code can be executed and not written, .bss and .dynamic can be written, and
      everything else can only be read.  No other segment can be executed, and .bss takes no bytes of the file. */
  ghost predicate RightsOk(f: Format, sections: seq<Section>, text: nat, bss: nat, loads: seq<Phdr>, owner: seq<nat>) {
    var n := DynstrAt(f, bss);
    && |owner| == |sections| >= n + 4
    && (forall i :: 0 <= i < |sections| && sections[i].spec.flags.alloc ==> (sections[i].spec.flags.exec <==> i == 1))
    && (forall i :: 0 <= i < |sections| && sections[i].Loaded() ==>
          && i < n + 4 && owner[i] < |loads|
          && loads[owner[i]].access == if i == 1 then RX else if i == n + 3 || (i == 2 && bss != 0) then RW else R)
    && (text != 0 ==> sections[1].Loaded() && sections[1].size == text)
    && (bss != 0 ==> sections[2].Loaded() && loads[owner[2]].filesz == 0 && bss <= loads[owner[2]].memsz)
    && (forall k :: 0 <= k < |loads| ==> (loads[k].access == RX <==> text != 0 && k == owner[1]))
  }

  lemma QuickRights(f: Format, sections: seq<Section>, rodata: nat, text: nat, bss: nat, c: Cache, start: nat,
                    loads: seq<Phdr>, owner: seq<nat>)
    requires QuickSections(f, sections, rodata, text, bss, c)
    requires LoadsSoFar(sections, start, |sections|, loads, owner)
    ensures RightsOk(f, sections, text, bss, loads, owner)
  {
    var n := DynstrAt(f, bss);
    forall i | 0 <= i < |sections| && sections[i].Loaded()
      ensures && i < n + 4 && owner[i] < |loads|
              && loads[owner[i]].access == if i == 1 then RX else if i == n + 3 || (i == 2 && bss != 0) then RW else R
    {
      assert MappedAt(sections, loads, owner, i);
    }
    if bss != 0 { assert MappedAt(sections, loads, owner, 2); }
    forall k | 0 <= k < |loads| ensures loads[k].access == RX <==> text != 0 && k == owner[1] {
      RightsOfSegment(sections, start, loads, owner, k);
      if text != 0 { assert MappedAt(sections, loads, owner, 1); }
    }
  }

  /** The dynamic linker finds .dynamic through its own program header, and MIPS its ABI flags. */
  lemma QuickLocations(f: Format, sections: seq<Section>, rodata: nat, text: nat, bss: nat, c: Cache, phdrs: seq<Phdr>,
                       loads: seq<Phdr>, owner: seq<nat>)
    requires QuickSections(f, sections, rodata, text, bss, c)
    requires Loadable(sections, f.Ehdr(), f.Phdr(), phdrs, loads, owner)
    ensures var n := DynstrAt(f, bss);
            && |phdrs| == 1 + |loads| + (if f.mips then 2 else 1)
            && var h := phdrs[|phdrs| - 1];
               h.kind == PtOther(Dynamic) && h.vaddr == sections[n + 3].addr && h.memsz == sections[n + 3].size
    ensures f.mips ==>
              var h, s := phdrs[|phdrs| - 2], sections[DynstrAt(f, bss) - 1];
              h.kind == PtOther(MipsAbiflags) && h.vaddr == s.addr && h.memsz == s.size
  {
    var n, m := DynstrAt(f, bss), |sections|;
    NoneLocated(sections, n + 4, m);
    NoneLocated(sections, n, n + 3);
    NoneLocated(sections, 0, if f.mips then n - 1 else n);
    OtherInsideLoad(sections, f.Ehdr(), f.Phdr(), phdrs, loads, owner, n + 3);
    if f.mips { OtherInsideLoad(sections, f.Ehdr(), f.Phdr(), phdrs, loads, owner, n - 1); }
  }
}
