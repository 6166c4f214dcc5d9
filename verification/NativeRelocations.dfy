/** native_object_relocations_ (compiler/image_writer.cc AssignMethodOffset, TryAssignConflictTableOffset,
    TryAssignImTableOffset): runtime methods, conflict tables and interface method tables are shared between classes and
    images, and each of them gets one place. */
module NativeRelocations {
  import opened ImageBins
  import opened ImageInfos

  /** A native object; 0 is the null pointer. */
  type Pointer = nat

  /** The image that a native object belongs to, and its item there. */
  datatype Relocation = Relocation(image: nat, at: nat)

  /** An entry of an interface method table.  Only runtime methods have a conflict table, of so many entries. */
  datatype ImtMethod = ImtMethod(ptr: Pointer, runtime: bool, table: Pointer, tableEntries: nat)

  class Relocations {
    var entries: map<Pointer, Relocation>

    /** The entries of image k lead to items of it, different ones to different ones. */
    ghost predicate LeadTo(k: nat, items: seq<Item>)
      reads this
    {
      && (forall p :: p in entries && entries[p].image == k ==> entries[p].at < |items|)
      && (forall p, q :: p in entries && q in entries && p != q ==> entries[p] != entries[q])
    }

    constructor ()
      ensures entries == map[]
    {
      entries := map[];
    }

    /** The next bytes of a bin of image k, for a native object that has no place yet. */
    method Put(info: ImageInfo, k: nat, ptr: Pointer, bin: nat, size: nat)
      requires info.Valid() && LeadTo(k, info.items) && ptr !in entries
      requires MIRROR_BINS <= bin < BINS && Aligned(info.target, bin, size)
      modifies this, info`sizes, info`items
      ensures info.Valid() && LeadTo(k, info.items)
      ensures entries == old(entries)[ptr := Relocation(k, |old(info.items)|)]
      ensures info.items == old(info.items) + [Item(bin, old(info.sizes)[bin], size)]
      ensures info.sizes == old(info.sizes)[bin := old(info.sizes)[bin] + size]
    {
      entries := entries[ptr := Relocation(k, |info.items|)];
      var slot := info.Take(bin, size);
    }

    /** TryAssignImTableOffset: a table outside the boot image gets its place once. */
    method TryAssignImTable(info: ImageInfo, k: nat, imt: Pointer, boot: set<Pointer>)
      requires info.Valid() && LeadTo(k, info.items)
      modifies this, info`sizes, info`items
      ensures info.Valid() && LeadTo(k, info.items)
      ensures if imt == 0 || imt in boot || imt in old(entries)
              then entries == old(entries) && info.items == old(info.items)
              else && entries == old(entries)[imt := Relocation(k, |old(info.items)|)]
                   && info.items == old(info.items) + [Item(IM_TABLE, old(info.sizes)[IM_TABLE], info.target.Imt())]
    {
      if imt == 0 || imt in boot || imt in entries {
        return;
      }
      Put(info, k, imt, IM_TABLE, info.target.Imt());
    }

    /** TryAssignConflictTableOffset; `ok` is the outcome of the CHECK that a new table is not in the boot image. */
    method TryAssignConflictTable(info: ImageInfo, k: nat, table: Pointer, tableEntries: nat, boot: set<Pointer>)
      returns (ok: bool)
      requires info.Valid() && LeadTo(k, info.items)
      modifies this, info`sizes, info`items
      ensures info.Valid() && LeadTo(k, info.items)
      ensures ok <==> table == 0 || table in old(entries) || table !in boot
      ensures if table == 0 || table in old(entries) || !ok
              then entries == old(entries) && info.items == old(info.items)
              else && entries == old(entries)[table := Relocation(k, |old(info.items)|)]
                   && info.items == old(info.items) + [Item(IMT_CONFLICT_TABLE, old(info.sizes)[IMT_CONFLICT_TABLE],
                                                            info.target.ConflictTable(tableEntries))]
      ensures info.sizes == old(info.sizes)[IMT_CONFLICT_TABLE := info.sizes[IMT_CONFLICT_TABLE]]
    {
      if table == 0 || table in entries {
        return true;
      }
      if table in boot {
        return false;
      }
      Put(info, k, table, IMT_CONFLICT_TABLE, info.target.ConflictTable(tableEntries));
      return true;
    }

    /** AssignMethodOffset of a runtime method, behind its conflict table if that has no place yet; `ok` is the outcome
        of the CHECKs. */
    method AssignRuntimeMethod(info: ImageInfo, k: nat, m: ImtMethod, boot: set<Pointer>) returns (ok: bool)
      requires info.Valid() && LeadTo(k, info.items) && m.runtime && m.ptr != m.table
      modifies this, info`sizes, info`items
      ensures info.Valid() && LeadTo(k, info.items) && old(info.items) <= info.items
      ensures ok <==> m.ptr !in old(entries) && (m.table == 0 || m.table in old(entries) || m.table !in boot)
      ensures Grows(old(entries), entries, k)
      ensures ok ==> entries.Keys == old(entries).Keys + {m.ptr} + (if m.table == 0 then {} else {m.table})
      ensures ok ==>
                && |info.items| > 0 && entries[m.ptr] == Relocation(k, |info.items| - 1)
                && info.items[|info.items| - 1] ==
                   Item(RUNTIME_METHOD, old(info.sizes)[RUNTIME_METHOD], info.target.Method())
      ensures ok && m.table != 0 && m.table !in old(entries) ==>
                && entries[m.table] == Relocation(k, |old(info.items)|) && |info.items| == |old(info.items)| + 2
                && info.items[|old(info.items)|].bin == IMT_CONFLICT_TABLE
                && info.items[|old(info.items)|].size == info.target.ConflictTable(m.tableEntries)
    {
      if m.ptr in entries {
        return false;
      }
      ok := TryAssignConflictTable(info, k, m.table, m.tableEntries, boot);
      if ok {
        Put(info, k, m.ptr, RUNTIME_METHOD, info.target.Method());
      }
    }

    /** The loop over the interface method table of a class: every runtime method outside the boot image gets its place
        once, and so does its conflict table.  `ok` is the outcome of the CHECKs. */
    method AssignImtMethods(info: ImageInfo, k: nat, methods: seq<ImtMethod>, boot: set<Pointer>) returns (ok: bool)
      requires info.Valid() && LeadTo(k, info.items) && NoMethodIsTable(methods)
      modifies this, info`sizes, info`items
      ensures info.Valid() && LeadTo(k, info.items) && old(info.items) <= info.items && Grows(old(entries), entries, k)
      ensures ok <==> forall i :: 0 <= i < |methods| ==> !Blocked(methods, boot, old(entries).Keys, i)
      ensures ok ==> Processed(methods, boot, old(entries).Keys, entries.Keys, |methods|)
      ensures ok ==> forall j :: 0 <= j < |methods| && methods[j].runtime && methods[j].ptr !in boot ==>
                       methods[j].ptr in entries
      ensures ok ==> forall p :: p in entries && p !in old(entries) ==>
                       exists j :: 0 <= j < |methods| && methods[j].runtime && methods[j].ptr !in boot
                                   && (methods[j].ptr == p || methods[j].table == p)
    {
      ok := true;
      for i := 0 to |methods|
        invariant info.Valid() && LeadTo(k, info.items) && old(info.items) <= info.items
        invariant Grows(old(entries), entries, k) && ok
        invariant Processed(methods, boot, old(entries).Keys, entries.Keys, i)
      {
        ghost var before := entries.Keys;
        if methods[i].runtime && methods[i].ptr !in boot && methods[i].ptr !in entries {
          ok := AssignRuntimeMethod(info, k, methods[i], boot);
          if !ok {
            BlockedAt(methods, boot, old(entries).Keys, before, i);
            return;
          }
        }
        ProcessNext(methods, boot, old(entries).Keys, before, entries.Keys, i);
      }
      forall j | 0 <= j < |methods| && methods[j].runtime && methods[j].ptr !in boot ensures methods[j].ptr in entries {
        assert HasPlaces(methods, boot, old(entries).Keys, entries.Keys, j);
      }
    }
  }

  /** Methods and conflict tables are different objects. */
  ghost predicate NoMethodIsTable(methods: seq<ImtMethod>) {
    forall i, j :: 0 <= i < |methods| && 0 <= j < |methods| ==> methods[i].ptr != methods[j].table
  }

  /** A runtime method outside the boot image. */
  predicate Wanted(m: ImtMethod, boot: set<Pointer>) { m.runtime && m.ptr !in boot }

  /** No earlier entry is the same method. */
  ghost predicate IsFirst(methods: seq<ImtMethod>, boot: set<Pointer>, i: nat)
    requires i < |methods|
  {
    forall j :: 0 <= j < i && Wanted(methods[j], boot) ==> methods[j].ptr != methods[i].ptr
  }

  /** Entry i asks for a place for a conflict table of the boot image. */
  ghost predicate Blocked(methods: seq<ImtMethod>, boot: set<Pointer>, placed: set<Pointer>, i: nat)
    requires i < |methods|
  {
    && Wanted(methods[i], boot) && methods[i].ptr !in placed && IsFirst(methods, boot, i)
    && methods[i].table != 0 && methods[i].table !in placed && methods[i].table in boot
  }

  /** One of the first n entries needs p. */
  ghost predicate GivenBy(methods: seq<ImtMethod>, boot: set<Pointer>, n: nat, p: Pointer)
    requires n <= |methods|
  {
    exists j :: 0 <= j < n && Wanted(methods[j], boot) && (methods[j].ptr == p || methods[j].table == p)
  }

  /** After the first n entries, and without a failed CHECK: what they need has a place, and nothing else is new. */
  ghost predicate Processed(methods: seq<ImtMethod>, boot: set<Pointer>, placed: set<Pointer>, now: set<Pointer>,
                            n: nat)
    requires n <= |methods|
  {
    && placed <= now && (forall p :: p in now && p !in placed ==> p !in boot && GivenBy(methods, boot, n, p))
    && (forall j {:trigger HasPlaces(methods, boot, placed, now, j)} :: 0 <= j < n ==>
          HasPlaces(methods, boot, placed, now, j))
    && (forall j {:trigger Blocked(methods, boot, placed, j)} :: 0 <= j < n ==> !Blocked(methods, boot, placed, j))
  }

  /** Entry j has its place and, if it is new, its conflict table has one. */
  ghost predicate HasPlaces(methods: seq<ImtMethod>, boot: set<Pointer>, placed: set<Pointer>, now: set<Pointer>,
                            j: nat)
    requires j < |methods|
  {
    Wanted(methods[j], boot) ==>
      && methods[j].ptr in now
      && (methods[j].ptr !in placed && IsFirst(methods, boot, j) && methods[j].table != 0 ==> methods[j].table in now)
  }

  lemma ProcessNext(methods: seq<ImtMethod>, boot: set<Pointer>, placed: set<Pointer>, now: set<Pointer>,
                    now': set<Pointer>, i: nat)
    requires i < |methods| && NoMethodIsTable(methods) && Processed(methods, boot, placed, now, i)
    requires var m := methods[i];
             if Wanted(m, boot) && m.ptr !in now
             then (m.table == 0 || m.table in now || m.table !in boot)
                  && now' == now + {m.ptr} + (if m.table == 0 then {} else {m.table})
             else now' == now
    ensures Processed(methods, boot, placed, now', i + 1)
  {
    forall p | p in now' && p !in placed ensures p !in boot && GivenBy(methods, boot, i + 1, p) {
      if p in now {
        var j :| 0 <= j < i && Wanted(methods[j], boot) && (methods[j].ptr == p || methods[j].table == p);
      } else {
        assert Wanted(methods[i], boot) && (methods[i].ptr == p || methods[i].table == p);
      }
    }
    forall j {:trigger HasPlaces(methods, boot, placed, now', j)} | 0 <= j < i + 1
      ensures HasPlaces(methods, boot, placed, now', j)
    {
      if j < i { assert HasPlaces(methods, boot, placed, now, j); } else { FirstIsNew(methods, boot, placed, now, i); }
    }
    forall j {:trigger Blocked(methods, boot, placed, j)} | 0 <= j < i + 1 ensures !Blocked(methods, boot, placed, j) {
      if j == i { FirstIsNew(methods, boot, placed, now, i); }
    }
  }

  /** The first entry of a method finds a place for it only if there was one before. */
  lemma FirstIsNew(methods: seq<ImtMethod>, boot: set<Pointer>, placed: set<Pointer>, now: set<Pointer>, i: nat)
    requires i < |methods| && NoMethodIsTable(methods) && Processed(methods, boot, placed, now, i)
    ensures IsFirst(methods, boot, i) && methods[i].ptr !in placed ==> methods[i].ptr !in now
    ensures methods[i].table in boot && methods[i].table in now ==> methods[i].table in placed
  {
    if methods[i].ptr in now && methods[i].ptr !in placed {
      var j :| 0 <= j < i && Wanted(methods[j], boot)
               && (methods[j].ptr == methods[i].ptr || methods[j].table == methods[i].ptr);
    }
  }

  /** A CHECK fails only at a blocked entry. */
  lemma BlockedAt(methods: seq<ImtMethod>, boot: set<Pointer>, placed: set<Pointer>, now: set<Pointer>, i: nat)
    requires i < |methods| && Processed(methods, boot, placed, now, i) && Wanted(methods[i], boot)
    requires methods[i].ptr !in now && methods[i].table != 0 && methods[i].table !in now && methods[i].table in boot
    ensures Blocked(methods, boot, placed, i)
  {
    forall j | 0 <= j < i && Wanted(methods[j], boot) ensures methods[j].ptr != methods[i].ptr {
      assert HasPlaces(methods, boot, placed, now, j);
    }
  }

  /** A place once given stays, and new places are in image k. */
  ghost predicate Grows(a: map<Pointer, Relocation>, b: map<Pointer, Relocation>, k: nat) {
    && (forall p :: p in a ==> p in b && b[p] == a[p])
    && (forall p :: p in b && p !in a ==> b[p].image == k)
  }
}
