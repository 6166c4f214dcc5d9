/** Program headers (compiler/elf_builder.h MakeProgramHeaders; System V generic ABI, chapter 5, "Program
    Header"). */
module ProgramHeaders {
  import opened Alignment
  import opened ElfSections

  datatype Kind = PtPhdr | PtLoad | PtOther(phdr: PhdrType)

  datatype Phdr = Phdr(kind: Kind, access: Access, offset: nat, vaddr: nat, filesz: nat, memsz: nat, align: nat)
  {
    function End(): nat { vaddr + memsz }
  }

  /** The loader, mapping l, puts section s at its own address with its own contents. */
  ghost predicate MappedBy(s: Section, l: Phdr) {
    && l.access == s.spec.access && l.vaddr <= s.addr && s.addr + s.size <= l.End()
    && (if s.spec.noBits then l.filesz == 0
        else s.offset + l.vaddr == s.addr + l.offset && s.offset + s.size <= l.offset + l.filesz)
  }

  /** The pages of l end before those of m start. */
  ghost predicate PagesBefore(l: Phdr, m: Phdr) { RoundUp(l.End(), PAGE_SIZE) <= m.vaddr }

  ghost predicate PageDisjoint(loads: seq<Phdr>) {
    forall j, k {:trigger PagesBefore(loads[j], loads[k])} :: 0 <= j < k < |loads| ==> PagesBefore(loads[j], loads[k])
  }

  /** Segments the loader can map: whole pages of the file to whole pages of memory. */
  ghost predicate Mappable(l: Phdr) {
    l.kind == PtLoad && l.offset % PAGE_SIZE == 0 && l.vaddr % PAGE_SIZE == 0 && l.align == PAGE_SIZE &&
    l.filesz <= l.memsz
  }

  ghost predicate AllocFirst(sections: seq<Section>) {
    forall i, j :: 0 <= i < j < |sections| && sections[j].spec.flags.alloc ==> sections[i].spec.flags.alloc
  }

  /** The last loaded section before n, or -1. */
  function LastLoaded(sections: seq<Section>, n: nat): (r: int)
    requires n <= |sections|
    ensures -1 <= r < n && (r >= 0 ==> sections[r].Loaded())
    ensures forall i :: r < i < n ==> !sections[i].Loaded()
  {
    if n == 0 then -1 else if sections[n - 1].Loaded() then n - 1 else LastLoaded(sections, n - 1)
  }

  function LoadedCount(sections: seq<Section>, n: nat): nat
    requires n <= |sections|
  {
    if n == 0 then 0 else LoadedCount(sections, n - 1) + if sections[n - 1].Loaded() then 1 else 0
  }

  /** The sections with a program header of their own. */
  predicate Located(s: Section) { s.Loaded() && s.spec.phdr != None }

  function LocatedCount(sections: seq<Section>, n: nat): nat
    requires n <= |sections|
  {
    if n == 0 then 0 else LocatedCount(sections, n - 1) + if Located(sections[n - 1]) then 1 else 0
  }

  /** Section i can extend the segment of the loaded section before it, or of the file headers. */
  ghost predicate Joins(sections: seq<Section>, i: nat)
    requires i < |sections|
  {
    var s, p := sections[i], LastLoaded(sections, i);
    && !s.spec.noBits
    && (if p < 0 then s.spec.access == R else sections[p].spec.access == s.spec.access && !sections[p].spec.noBits)
  }

  /** A loaded section joins its predecessor's segment or starts on a page of its own. */
  ghost predicate ChecksAt(sections: seq<Section>, i: nat)
    requires i < |sections|
  {
    sections[i].Loaded() ==> Joins(sections, i) || sections[i].align == PAGE_SIZE
  }

  ghost predicate MappedAt(sections: seq<Section>, loads: seq<Phdr>, owner: seq<nat>, i: nat)
    requires i < |sections| && i < |owner|
  {
    sections[i].Loaded() ==> owner[i] < |loads| && MappedBy(sections[i], loads[owner[i]])
  }

  /** Segment k was made for one of the first n sections. */
  ghost predicate HasOwner(sections: seq<Section>, owner: seq<nat>, n: nat, k: nat)
    requires n <= |sections|
  {
    exists i :: 0 <= i < n && i < |owner| && sections[i].Loaded() && owner[i] == k
  }

  /** The segments made from the first n sections, the last of which can still grow. */
  ghost predicate LoadsSoFar(sections: seq<Section>, start: nat, n: nat, loads: seq<Phdr>, owner: seq<nat>)
    requires n <= |sections|
  {
    && |owner| == n && 0 < |loads| <= 1 + LoadedCount(sections, n)
    && PageDisjoint(loads) && (forall k {:trigger Mappable(loads[k])} :: 0 <= k < |loads| ==> Mappable(loads[k]))
    && (forall i {:trigger MappedAt(sections, loads, owner, i)} :: 0 <= i < n ==> MappedAt(sections, loads, owner, i))
    && loads[0].offset == loads[0].vaddr == 0 && start <= loads[0].filesz && loads[0].access == R
    && (forall k {:trigger HasOwner(sections, owner, n, k)} :: 0 < k < |loads| ==> HasOwner(sections, owner, n, k))
  }

  /** More sections keep the owners. */
  lemma OwnerStays(sections: seq<Section>, owner: seq<nat>, n: nat, k: nat, more: nat)
    requires n < |sections| && |owner| == n && HasOwner(sections, owner, n, k)
    ensures HasOwner(sections, owner + [more], n + 1, k)
  {
    var i :| 0 <= i < n && i < |owner| && sections[i].Loaded() && owner[i] == k;
    assert (owner + [more])[i] == k;
  }

  /** The last segment ends with the last loaded section, and its file and memory images run in parallel up to
      the current positions, unless that section has no bits. */
  ghost predicate LastLoad(sections: seq<Section>, start: nat, n: nat, l: Phdr)
    requires n <= |sections|
  {
    var p := LastLoaded(sections, n);
    && l.access == (if p < 0 then R else sections[p].spec.access)
    && (l.filesz == l.memsz <==> p < 0 || !sections[p].spec.noBits)
    && l.End() <= Va(sections, start, n)
    && (l.filesz == l.memsz ==> Pos(sections, start, n) + l.vaddr == Va(sections, start, n) + l.offset)
  }

  function LoadOf(s: Section): Phdr {
    Phdr(PtLoad, s.spec.access, s.offset, s.addr, if s.spec.noBits then 0 else s.size, s.size, s.align)
  }

  /** A section that is not loaded leaves the last segment in place. */
  lemma SkipSection(sections: seq<Section>, start: nat, n: nat, l: Phdr)
    requires n < |sections| && PlacedAt(sections, start, n) && sections[n].spec.flags.alloc && sections[n].size == 0
    requires LastLoad(sections, start, n, l) && Mappable(l)
    ensures LastLoad(sections, start, n + 1, l)
  {
    var s := sections[n];
    if l.filesz == l.memsz {
      AlignTogether(Pos(sections, start, n), Va(sections, start, n), s.align, l.offset, l.vaddr);
    }
  }

  /** A section joining the last segment is mapped by it, at its own address. */
  lemma MergeSection(sections: seq<Section>, start: nat, n: nat, l: Phdr, l': Phdr)
    requires n < |sections| && PlacedAt(sections, start, n) && sections[n].Loaded() && Joins(sections, n)
    requires LastLoad(sections, start, n, l) && Mappable(l)
    requires var size := sections[n].offset + sections[n].size - l.offset;
             size >= 0 ==> l' == l.(filesz := size, memsz := size)
    ensures l.offset <= sections[n].offset && l.memsz <= l'.memsz && Mappable(l')
    ensures MappedBy(sections[n], l') && LastLoad(sections, start, n + 1, l')
  {
    AlignTogether(Pos(sections, start, n), Va(sections, start, n), sections[n].align, l.offset, l.vaddr);
  }

  /** A page-aligned section starts a segment behind all others. */
  lemma NewSegment(sections: seq<Section>, start: nat, n: nat, l: Phdr)
    requires n < |sections| && PlacedAt(sections, start, n) && sections[n].Loaded() && sections[n].align == PAGE_SIZE
    requires LastLoad(sections, start, n, l)
    ensures PagesBefore(l, LoadOf(sections[n]))
    ensures Mappable(LoadOf(sections[n])) && MappedBy(sections[n], LoadOf(sections[n]))
    ensures LastLoad(sections, start, n + 1, LoadOf(sections[n]))
  {
    RoundUpMonotone(l.End(), Va(sections, start, n), PAGE_SIZE);
  }

  lemma GrowLast(sections: seq<Section>, start: nat, n: nat, loads: seq<Phdr>, owner: seq<nat>, l: Phdr)
    requires n < |sections| && LoadsSoFar(sections, start, n, loads, owner)
    requires var k := |loads| - 1;
             && Mappable(l) && l.offset == loads[k].offset && l.vaddr == loads[k].vaddr && l.access == loads[k].access
             && loads[k].memsz <= l.memsz && l.filesz == l.memsz && loads[k].filesz == loads[k].memsz
    requires MappedBy(sections[n], l)
    ensures LoadsSoFar(sections, start, n + 1, loads[|loads| - 1 := l], owner + [|loads| - 1])
  {
    var k := |loads| - 1;
    var loads', owner' := loads[k := l], owner + [k];
    assert Mappable(loads[0]);
    forall j {:trigger Mappable(loads'[j])} | 0 <= j < |loads'| ensures Mappable(loads'[j]) {
      if j < k { assert Mappable(loads[j]); }
    }
    forall i, j {:trigger PagesBefore(loads'[i], loads'[j])} | 0 <= i < j < |loads'|
      ensures PagesBefore(loads'[i], loads'[j])
    {
      assert PagesBefore(loads[i], loads[j]);
    }
    forall i {:trigger MappedAt(sections, loads', owner', i)} | 0 <= i < n + 1
      ensures MappedAt(sections, loads', owner', i)
    {
      if i < n { assert MappedAt(sections, loads, owner, i); }
    }
    forall j {:trigger HasOwner(sections, owner', n + 1, j)} | 0 < j < |loads'|
      ensures HasOwner(sections, owner', n + 1, j)
    {
      OwnerStays(sections, owner, n, j, k);
    }
  }

  lemma AddLoad(sections: seq<Section>, start: nat, n: nat, loads: seq<Phdr>, owner: seq<nat>, l: Phdr)
    requires n < |sections| && LoadsSoFar(sections, start, n, loads, owner) && Mappable(l) && sections[n].Loaded()
    requires PagesBefore(loads[|loads| - 1], l) && MappedBy(sections[n], l)
    ensures LoadsSoFar(sections, start, n + 1, loads + [l], owner + [|loads|])
  {
    var loads', owner' := loads + [l], owner + [|loads|];
    forall j {:trigger Mappable(loads'[j])} | 0 <= j < |loads'| ensures Mappable(loads'[j]) {
      if j < |loads| { assert Mappable(loads[j]); }
    }
    forall i, j {:trigger PagesBefore(loads'[i], loads'[j])} | 0 <= i < j < |loads'|
      ensures PagesBefore(loads'[i], loads'[j])
    {
      var last := loads[|loads| - 1];
      if j < |loads| {
        assert PagesBefore(loads[i], loads[j]);
      } else if i < |loads| - 1 {
        assert PagesBefore(loads[i], last) && last.vaddr <= last.End() <= RoundUp(last.End(), PAGE_SIZE);
      }
    }
    forall i {:trigger MappedAt(sections, loads', owner', i)} | 0 <= i < n + 1
      ensures MappedAt(sections, loads', owner', i)
    {
      if i < n { assert MappedAt(sections, loads, owner, i); }
    }
    forall j {:trigger HasOwner(sections, owner', n + 1, j)} | 0 < j < |loads'|
      ensures HasOwner(sections, owner', n + 1, j)
    {
      if j < |loads| { OwnerStays(sections, owner, n, j, |loads|); } else { assert owner'[n] == j; }
    }
  }

  lemma SkipOwner(sections: seq<Section>, start: nat, n: nat, loads: seq<Phdr>, owner: seq<nat>)
    requires n < |sections| && LoadsSoFar(sections, start, n, loads, owner) && !sections[n].Loaded()
    ensures LoadsSoFar(sections, start, n + 1, loads, owner + [0])
  {
    var owner' := owner + [0];
    forall i {:trigger MappedAt(sections, loads, owner', i)} | 0 <= i < n + 1
      ensures MappedAt(sections, loads, owner', i)
    {
      if i < n { assert MappedAt(sections, loads, owner, i); }
    }
    forall j {:trigger HasOwner(sections, owner', n + 1, j)} | 0 < j < |loads|
      ensures HasOwner(sections, owner', n + 1, j)
    {
      OwnerStays(sections, owner, n, j, 0);
    }
  }

  /** One section of the loop; `ok` is false if its CHECK fires. */
  method AddSection(headers: nat, sections: seq<Section>, n: nat, loads: seq<Phdr>, ghost owner: seq<nat>)
    returns (ok: bool, loads': seq<Phdr>, ghost owner': seq<nat>)
    requires n < |sections| && PlacedAt(sections, headers, n) && LoadsSoFar(sections, headers, n, loads, owner)
    requires sections[n].spec.flags.alloc ==> LastLoad(sections, headers, n, loads[|loads| - 1])
    ensures ok == ChecksAt(sections, n)
    ensures ok ==> LoadsSoFar(sections, headers, n + 1, loads', owner')
    ensures ok && sections[n].spec.flags.alloc ==> LastLoad(sections, headers, n + 1, loads'[|loads'| - 1])
  {
    var s, prev := sections[n], loads[|loads| - 1];
    assert Mappable(prev);
    if s.Loaded() {
      var load := LoadOf(s);
      if prev.access == load.access && prev.filesz == prev.memsz && load.filesz == load.memsz {
        ghost var size := s.offset + s.size - prev.offset;
        MergeSection(sections, headers, n, prev, if size >= 0 then prev.(filesz := size, memsz := size) else prev);
        var merged := prev.(filesz := s.offset + s.size - prev.offset, memsz := s.offset + s.size - prev.offset);
        GrowLast(sections, headers, n, loads, owner, merged);
        return true, loads[|loads| - 1 := merged], owner + [|loads| - 1];
      } else if s.align != PAGE_SIZE {
        return false, loads, owner;
      } else {
        NewSegment(sections, headers, n, prev);
        AddLoad(sections, headers, n, loads, owner, load);
        return true, loads + [load], owner + [|loads|];
      }
    } else {
      if s.spec.flags.alloc { SkipSection(sections, headers, n, prev); }
      SkipOwner(sections, headers, n, loads, owner);
      return true, loads, owner + [0];
    }
  }

  /** The loop over the loaded sections: its CHECK never fires exactly when every loaded section can join its
      predecessor's segment or starts on a page of its own. */
  method MakeLoads(headers: nat, sections: seq<Section>) returns (ok: bool, loads: seq<Phdr>, ghost owner: seq<nat>)
    requires WellPlaced(sections, headers) && AllocFirst(sections)
    ensures ok <==> forall i {:trigger ChecksAt(sections, i)} :: 0 <= i < |sections| ==> ChecksAt(sections, i)
    ensures ok ==> LoadsSoFar(sections, headers, |sections|, loads, owner)
  {
    loads, owner := [Phdr(PtLoad, R, 0, 0, headers, headers, PAGE_SIZE)], [];
    for n := 0 to |sections|
      invariant LoadsSoFar(sections, headers, n, loads, owner)
      invariant n < |sections| && sections[n].spec.flags.alloc ==> LastLoad(sections, headers, n, loads[|loads| - 1])
      invariant forall i {:trigger ChecksAt(sections, i)} :: 0 <= i < n ==> ChecksAt(sections, i)
    {
      assert PlacedAt(sections, headers, n);
      ok, loads, owner := AddSection(headers, sections, n, loads, owner);
      if !ok { return; }
    }
    ok := true;
  }

  /** Every section that wants a header of its own has one, in order, and there are no others. */
  ghost predicate Locates(sections: seq<Section>, n: nat, others: seq<Phdr>)
    requires n <= |sections|
  {
    && |others| == LocatedCount(sections, n)
    && forall i {:trigger LocatedAt(sections, others, i)} :: 0 <= i < n ==> LocatedAt(sections, others, i)
  }

  ghost predicate LocatedAt(sections: seq<Section>, others: seq<Phdr>, i: nat)
    requires i < |sections|
  {
    Located(sections[i]) ==>
      LocatedCount(sections, i) < |others| && others[LocatedCount(sections, i)] == LocationOf(sections[i])
  }

  function LocationOf(s: Section): Phdr {
    Phdr(PtOther(s.spec.phdr), s.spec.access, s.offset, s.addr, s.size, s.size, s.align)
  }

  /** The loop over the sections that the program locates through their own headers. */
  method MakeOthers(sections: seq<Section>) returns (others: seq<Phdr>)
    ensures Locates(sections, |sections|, others)
  {
    others := [];
    for n := 0 to |sections|
      invariant Locates(sections, n, others)
    {
      var s := sections[n];
      ghost var before := others;
      if s.spec.flags.alloc && s.size != 0 {
        if s.spec.phdr != None {
          others := others + [LocationOf(s)];
        }
      }
      forall i {:trigger LocatedAt(sections, others, i)} | 0 <= i < n + 1 ensures LocatedAt(sections, others, i) {
        if i < n { assert LocatedAt(sections, before, i); }
      }
    }
  }

  /** What the loader sees: segments on disjoint pages that map every loaded section at its address, preceded by
      a header that covers the program headers themselves and followed by headers inside those segments. */
  ghost predicate Loadable(sections: seq<Section>, ehdr: nat, phdrSize: nat, phdrs: seq<Phdr>, loads: seq<Phdr>,
                           owner: seq<nat>)
  {
    && LoadsSoFar(sections, ehdr + 16 * phdrSize, |sections|, loads, owner)
    && |phdrs| == 1 + |loads| + LocatedCount(sections, |sections|) && phdrs[1..1 + |loads|] == loads
    && Locates(sections, |sections|, phdrs[1 + |loads|..])
    && phdrs[0].kind == PtPhdr && phdrs[0].access == R && phdrs[0].offset == phdrs[0].vaddr == ehdr
    && phdrs[0].filesz == phdrs[0].memsz == |phdrs| * phdrSize
  }

  method MakeProgramHeaders(ehdr: nat, phdrSize: nat, wordSize: nat, sections: seq<Section>)
    returns (ok: bool, phdrs: seq<Phdr>, ghost loads: seq<Phdr>, ghost owner: seq<nat>)
    requires WellPlaced(sections, ehdr + 16 * phdrSize) && AllocFirst(sections)
    ensures ok <==> forall i {:trigger ChecksAt(sections, i)} :: 0 <= i < |sections| ==> ChecksAt(sections, i)
    ensures ok ==> Loadable(sections, ehdr, phdrSize, phdrs, loads, owner)
  {
    var l;
    ok, l, owner := MakeLoads(ehdr + 16 * phdrSize, sections);
    loads, phdrs := l, [];
    if ok {
      var others := MakeOthers(sections);
      phdrs := [Phdr(PtPhdr, R, ehdr, ehdr, 0, 0, wordSize)] + l + others;
      phdrs := phdrs[0 := phdrs[0].(filesz := |phdrs| * phdrSize, memsz := |phdrs| * phdrSize)];
      assert phdrs[1..1 + |l|] == l && phdrs[1 + |l|..] == others;
    }
  }

  /** Every segment but the first, which holds the file headers and is read-only, has the rights of a section in it. */
  lemma RightsOfSegment(sections: seq<Section>, start: nat, loads: seq<Phdr>, owner: seq<nat>, k: nat)
    requires LoadsSoFar(sections, start, |sections|, loads, owner) && k < |loads|
    ensures || (k == 0 && loads[k].access == R)
            || exists i :: 0 <= i < |sections| && sections[i].Loaded() && owner[i] == k
                           && loads[k].access == sections[i].spec.access
  {
    if k > 0 {
      assert HasOwner(sections, owner, |sections|, k);
      var i :| 0 <= i < |sections| && sections[i].Loaded() && owner[i] == k;
      assert MappedAt(sections, loads, owner, i);
    }
  }

  /** Exactly one segment maps a loaded section. */
  lemma OneSegment(sections: seq<Section>, start: nat, loads: seq<Phdr>, owner: seq<nat>, i: nat, k: nat)
    requires LoadsSoFar(sections, start, |sections|, loads, owner) && i < |sections| && sections[i].Loaded()
    requires k < |loads|
    ensures MappedBy(sections[i], loads[k]) <==> k == owner[i]
  {
    assert MappedAt(sections, loads, owner, i);
    if k < owner[i] {
      assert PagesBefore(loads[k], loads[owner[i]]);
    } else if owner[i] < k {
      assert PagesBefore(loads[owner[i]], loads[k]);
    }
  }

  /** With at most sixteen headers the program headers are themselves in the first segment. */
  lemma HeadersAreLoaded(sections: seq<Section>, ehdr: nat, phdrSize: nat, phdrs: seq<Phdr>, loads: seq<Phdr>,
                         owner: seq<nat>)
    requires Loadable(sections, ehdr, phdrSize, phdrs, loads, owner)
    requires LoadedCount(sections, |sections|) + LocatedCount(sections, |sections|) <= 14
    ensures |phdrs| <= 16 && loads[0].vaddr == 0
    ensures phdrs[0].offset + phdrs[0].filesz <= loads[0].filesz
  {
    ScaleMonotone(|phdrs|, 16, phdrSize);
  }

  /** The header of a located section is inside the segment that maps the section, same bytes, same place. */
  lemma OtherInsideLoad(sections: seq<Section>, ehdr: nat, phdrSize: nat, phdrs: seq<Phdr>, loads: seq<Phdr>,
                        owner: seq<nat>, i: nat)
    requires Loadable(sections, ehdr, phdrSize, phdrs, loads, owner)
    requires i < |sections| && Located(sections[i]) && !sections[i].spec.noBits
    ensures owner[i] < |loads| && 1 + |loads| + LocatedCount(sections, i) < |phdrs|
    ensures var h, l := phdrs[1 + |loads| + LocatedCount(sections, i)], loads[owner[i]];
            && h.kind == PtOther(sections[i].spec.phdr) && h.vaddr == sections[i].addr && h.memsz == sections[i].size
            && l.offset <= h.offset && h.offset + h.filesz <= l.offset + l.filesz
            && h.offset + l.vaddr == h.vaddr + l.offset && h.access == l.access
  {
    assert MappedAt(sections, loads, owner, i);
    assert LocatedAt(sections, phdrs[1 + |loads|..], i);
  }
}
