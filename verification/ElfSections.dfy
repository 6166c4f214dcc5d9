/** Sections of an ELF file as ElfBuilder places them (compiler/elf_builder.h Section::Start, Section::End,
    AlignFileOffset, AlignVirtualAddress). */
module ElfSections {
  import opened Alignment

  /** Access rights of a segment (PF_R, PF_W, PF_X). */
  datatype Access = R | RX | RW

  datatype Flags = Flags(alloc: bool, exec: bool)

  /** phdr_type_: the extra program header of a section. */
  datatype PhdrType = None | Dynamic | EhFrameHdr | MipsAbiflags

  datatype SectionName =
    | RodataName
    | TextName
    | BssName
    | AbiflagsName
    | DynstrName
    | DynsymName
    | HashName
    | DynamicName
    | OatPatchesName
    | ShstrtabName

  /** What a section's constructor fixes. */
  datatype Spec = Spec(name: SectionName, noBits: bool, flags: Flags, align: nat, access: Access, phdr: PhdrType)
  {
    predicate Valid() {
      align > 0 && PAGE_SIZE % align == 0 && (noBits ==> flags.alloc)
    }
  }

  /** A section header.  `align` is sh_addralign, which Start may raise to a page. */
  datatype Section = Section(spec: Spec, align: nat, offset: nat, addr: nat, size: nat)
  {
    predicate Loaded() { spec.flags.alloc && size != 0 }
  }

  /** The file position behind the first n sections. */
  function Pos(sections: seq<Section>, start: nat, n: nat): nat
    requires n <= |sections|
  {
    if n == 0 then start
    else if sections[n - 1].spec.noBits then Pos(sections, start, n - 1)
    else sections[n - 1].offset + sections[n - 1].size
  }

  /** The virtual address behind the first n sections. */
  function Va(sections: seq<Section>, start: nat, n: nat): nat
    requires n <= |sections|
  {
    if n == 0 then start
    else if sections[n - 1].spec.flags.alloc then sections[n - 1].addr + sections[n - 1].size
    else Va(sections, start, n - 1)
  }

  /** A change of flags asks for a new page. */
  function AlignmentOf(sections: seq<Section>, spec: Spec): nat {
    if sections != [] && sections[|sections| - 1].spec.flags != spec.flags then PAGE_SIZE else spec.align
  }

  /** Section i lies at the first suitable place behind the sections before it. */
  ghost predicate PlacedAt(sections: seq<Section>, start: nat, i: nat)
    requires i < |sections|
  {
    var s := sections[i];
    && s.spec.Valid() && s.align == AlignmentOf(sections[..i], s.spec)
    && s.offset == (if s.spec.noBits then 0 else RoundUp(Pos(sections, start, i), s.align))
    && s.addr == (if s.spec.flags.alloc then RoundUp(Va(sections, start, i), s.align) else 0)
    && (s.spec.noBits ==> s.size > 0)
  }

  ghost predicate WellPlaced(sections: seq<Section>, start: nat) {
    forall i {:trigger PlacedAt(sections, start, i)} :: 0 <= i < |sections| ==> PlacedAt(sections, start, i)
  }

  lemma {:induction false} PrefixEnds(a: seq<Section>, s: Section, start: nat, n: nat)
    requires n <= |a|
    ensures Pos(a + [s], start, n) == Pos(a, start, n) && Va(a + [s], start, n) == Va(a, start, n)
  {
    if n == 0 {
    } else {
      PrefixEnds(a, s, start, n - 1);
    }
  }

  /** One more section, placed behind the others; its size may still change. */
  lemma PlaceOne(a: seq<Section>, s: Section, start: nat)
    requires WellPlaced(a, start) && s.spec.Valid() && s.align == AlignmentOf(a, s.spec)
    requires s.offset == if s.spec.noBits then 0 else RoundUp(Pos(a, start, |a|), s.align)
    requires s.addr == if s.spec.flags.alloc then RoundUp(Va(a, start, |a|), s.align) else 0
    requires s.spec.noBits ==> s.size > 0
    ensures WellPlaced(a + [s], start)
  {
    forall i {:trigger PlacedAt(a + [s], start, i)} | 0 <= i < |a + [s]|
      ensures PlacedAt(a + [s], start, i)
    {
      PrefixEnds(a, s, start, i);
      assert (a + [s])[..i] == a[..i];
      assert a[..|a|] == a;
      if i < |a| { assert PlacedAt(a, start, i); }
    }
  }

  lemma WithoutLast(a: seq<Section>, s: Section, start: nat)
    requires WellPlaced(a + [s], start)
    ensures WellPlaced(a, start)
    ensures s.spec.Valid() && s.align == AlignmentOf(a, s.spec)
    ensures s.offset == if s.spec.noBits then 0 else RoundUp(Pos(a, start, |a|), s.align)
    ensures s.addr == if s.spec.flags.alloc then RoundUp(Va(a, start, |a|), s.align) else 0
  {
    var b := a + [s];
    assert PlacedAt(b, start, |a|);
    PrefixEnds(a, s, start, |a|);
    assert b[..|a|] == a;
    forall i {:trigger PlacedAt(a, start, i)} | 0 <= i < |a|
      ensures PlacedAt(a, start, i)
    {
      PrefixEnds(a, s, start, i);
      assert PlacedAt(b, start, i);
      assert b[..i] == a[..i];
    }
  }

  /** A multiple of the page size is a multiple of every section alignment. */
  lemma PageMultiple(x: nat, align: nat)
    requires align > 0 && PAGE_SIZE % align == 0 && x % PAGE_SIZE == 0
    ensures x % align == 0
  {
    var k := MultipleOf(x, PAGE_SIZE);
    var m := MultipleOf(PAGE_SIZE, align);
    assert x == (k * m) * align;
    MultipleHasNoRemainder(k * m, align);
  }

  /** File positions and addresses a whole number of pages apart stay so under alignment. */
  lemma AlignTogether(pos: nat, va: nat, align: nat, offset: nat, vaddr: nat)
    requires align > 0 && PAGE_SIZE % align == 0 && offset % PAGE_SIZE == 0 && vaddr % PAGE_SIZE == 0
    requires pos + vaddr == va + offset
    ensures RoundUp(pos, align) + vaddr == RoundUp(va, align) + offset
  {
    PageMultiple(offset, align);
    PageMultiple(vaddr, align);
    RoundUpShift(pos, vaddr, align);
    RoundUpShift(va, offset, align);
  }

  /** Sections with different flags never share a page, neither in the file nor in memory. */
  lemma FlagChangeStartsPage(sections: seq<Section>, start: nat, i: nat)
    requires WellPlaced(sections, start) && 0 < i < |sections| && sections[i].spec.flags != sections[i - 1].spec.flags
    ensures !sections[i].spec.noBits ==>
              sections[i].offset % PAGE_SIZE == 0 && RoundUp(Pos(sections, start, i), PAGE_SIZE) == sections[i].offset
    ensures sections[i].spec.flags.alloc ==>
              sections[i].addr % PAGE_SIZE == 0 && RoundUp(Va(sections, start, i), PAGE_SIZE) == sections[i].addr
  {
    assert PlacedAt(sections, start, i);
    assert sections[..i][i - 1] == sections[i - 1];
  }
}
