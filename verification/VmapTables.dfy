/** Vmap tables (compiler/oat_writer.cc InitMapMethodVisitor, WriteMapMethodVisitor and the header update of
    InitCodeMethodVisitor).

    A method header holds the distance from the code back to its vmap table.  The table is placed first,
    so the header holds 0 - offset, modulo 2^32, until the code offset is known. */
module VmapTables {
  import opened Alignment
  import opened OatClasses
  import opened Streams

  /** The table of visit k is met for the first time; tables are known by their data pointers. */
  ghost predicate NewTable(visits: seq<Visit>, k: nat)
    requires k < |visits|
  {
    && visits[k].cm.vmap.size != 0
    && forall j :: 0 <= j < k && visits[j].cm.vmap.size != 0 ==> visits[j].cm.vmap.ptr != visits[k].cm.vmap.ptr
  }

  /** The first pass as far as it has come: the running offset before every visit and at the end, the offset
      of every visit's table, and the visit that met the table first. */
  datatype MapPlan = MapPlan(visits: seq<Visit>, pos: seq<nat>, at: seq<nat>, first: seq<nat>)
  {
    ghost predicate OkAt(k: nat)
      requires k < |at| <= |visits| && |first| == |at| && |pos| == |at| + 1
    {
      if visits[k].cm.vmap.size == 0 then
        pos[k + 1] == pos[k]
      else if first[k] == k then
        && NewTable(visits, k)
        && at[k] == pos[k] && pos[k + 1] == pos[k] + visits[k].cm.vmap.size
      else
        && first[k] < k && NewTable(visits, first[k]) && visits[first[k]].cm.vmap.ptr == visits[k].cm.vmap.ptr
        && at[k] == at[first[k]] && first[first[k]] == first[k]
        && pos[k + 1] == pos[k]
    }

    ghost predicate Ok() {
      && |at| <= |visits| && |first| == |at| && |pos| == |at| + 1
      && forall k :: 0 <= k < |at| ==> OkAt(k)
    }

    ghost predicate Complete() { Ok() && |at| == |visits| }

    /** The plan with one more visit. */
    ghost function With(end: nat, offset: nat, origin: nat): MapPlan {
      MapPlan(visits, pos + [end], at + [offset], first + [origin])
    }
  }

  lemma {:induction false} PositionsGrow(t: MapPlan, i: nat, k: nat)
    requires t.Ok() && i <= k <= |t.at|
    ensures t.pos[i] <= t.pos[k]
    decreases k
  {
    if i == k {
    } else {
      PositionsGrow(t, i, k - 1);
      assert t.OkAt(k - 1);
    }
  }

  /** The table of a visit lies at the running offset when it is new and wholly below it afterwards. */
  lemma TableBelow(t: MapPlan, k: nat)
    requires t.Ok() && k < |t.at| && t.visits[k].cm.vmap.size != 0
    ensures t.first[k] <= k && NewTable(t.visits, t.first[k])
    ensures t.pos[0] <= t.at[k] && t.at[k] + t.visits[t.first[k]].cm.vmap.size <= t.pos[|t.at|]
    ensures if NewTable(t.visits, k) then t.first[k] == k && t.at[k] == t.pos[k]
            else t.first[k] < k && t.at[k] + t.visits[t.first[k]].cm.vmap.size <= t.pos[k]
  {
    assert t.OkAt(k);
    var j := t.first[k];
    assert t.OkAt(j);
    PositionsGrow(t, 0, j);
    PositionsGrow(t, j + 1, |t.at|);
    if j < k { PositionsGrow(t, j + 1, k); }
  }

  /** One table has one place. */
  lemma SameTable(t: MapPlan, i: nat, k: nat)
    requires t.Complete() && i < |t.visits| && k < |t.visits| && t.visits[i].cm.vmap.ptr == t.visits[k].cm.vmap.ptr
    requires t.visits[i].cm.vmap.size != 0 && t.visits[k].cm.vmap.size != 0
    ensures t.at[i] == t.at[k]
  {
    assert t.OkAt(i) && t.OkAt(k);
    assert t.first[i] == t.first[k];
  }

  /** 0u - offset. */
  function Negate32(x: nat): nat { (TWO_32 - x % TWO_32) % TWO_32 }

  /** Subtraction of 32-bit values. */
  function Sub32(a: int, b: int): nat { (a - b) % TWO_32 }

  /** Adding the code offset once it is known. */
  function Adjust(vmap: nat, codeOffset: int): nat {
    if vmap != 0 && codeOffset != 0 then (vmap + codeOffset) % TWO_32 else vmap
  }

  /** Entry a of dedupe_map_ is the place of the table that visit origin[a] met first. */
  ghost predicate EntryKnown(t: MapPlan, m: map<nat, nat>, origin: map<nat, nat>, a: nat)
    requires t.Ok() && a in m
  {
    && a in origin && origin[a] < |t.at| && t.visits[origin[a]].cm.vmap.ptr == a
    && t.visits[origin[a]].cm.vmap.size != 0 && t.first[origin[a]] == origin[a] && m[a] == t.at[origin[a]]
  }

  /** dedupe_map_ knows exactly the tables met so far. */
  ghost predicate TablesKnown(t: MapPlan, m: map<nat, nat>, origin: map<nat, nat>)
    requires t.Ok()
  {
    && (forall a {:trigger EntryKnown(t, m, origin, a)} :: a in m ==> EntryKnown(t, m, origin, a))
    && (forall k :: 0 <= k < |t.at| && t.visits[k].cm.vmap.size != 0 ==> t.visits[k].cm.vmap.ptr in m)
  }

  /** Adding one visit. */
  lemma ExtendTables(t: MapPlan, end: nat, offset: nat, first: nat)
    requires t.Ok() && |t.at| < |t.visits|
    requires t.With(end, offset, first).OkAt(|t.at|)
    ensures t.With(end, offset, first).Ok()
  {
    var u := t.With(end, offset, first);
    forall k | 0 <= k < |t.at| ensures u.OkAt(k) { assert t.OkAt(k); }
  }

  /** The entries of dedupe_map_ stay right, and one for the next visit may be added. */
  lemma ExtendKnown(t: MapPlan, u: MapPlan, m: map<nat, nat>, origin: map<nat, nat>, m': map<nat, nat>,
                    origin': map<nat, nat>)
    requires t.Ok() && u.Ok() && u.visits == t.visits && |u.at| == |t.at| + 1 && t.at <= u.at && t.first <= u.first
    requires TablesKnown(t, m, origin)
    requires u.visits[|t.at|].cm.vmap.size != 0 ==> u.visits[|t.at|].cm.vmap.ptr in m'
    requires forall a :: a in m' && a !in m ==> EntryKnown(u, m', origin', a)
    requires forall a :: a in m ==> a in m' && m'[a] == m[a] && a in origin' && a in origin && origin'[a] == origin[a]
    ensures TablesKnown(u, m', origin')
  {
    forall a {:trigger EntryKnown(u, m', origin', a)} | a in m' ensures EntryKnown(u, m', origin', a) {
      if a in m { assert EntryKnown(t, m, origin, a); }
    }
  }

  /** GetOrCreate for the table of the next visit, which begins at `end` if it is new. */
  method PlaceTable(table: Array, end: nat, dedupe: map<nat, nat>, ghost t: MapPlan, ghost origin: map<nat, nat>)
    returns (offset: nat, end': nat, dedupe': map<nat, nat>, ghost t': MapPlan, ghost origin': map<nat, nat>)
    requires t.Ok() && |t.at| < |t.visits| && t.visits[|t.at|].cm.vmap == table && table.size != 0
    requires end == t.pos[|t.at|] && TablesKnown(t, dedupe, origin)
    ensures t'.Ok() && t'.visits == t.visits && t'.at == t.at + [offset] && t.pos + [end'] == t'.pos
    ensures TablesKnown(t', dedupe', origin')
    ensures table.ptr in dedupe' && dedupe'[table.ptr] == offset && (table.ptr in dedupe ==> end' == end)
    ensures table.ptr !in dedupe ==> offset == end && end' == end + table.size
  {
    offset, end', dedupe', origin' := end, end, dedupe, origin;
    ghost var k := |t.at|;
    if table.ptr in dedupe {
      offset := dedupe[table.ptr];
      assert EntryKnown(t, dedupe, origin, table.ptr);
      ghost var j := origin[table.ptr];
      assert t.OkAt(j);
      ExtendTables(t, end, offset, j);
      t' := t.With(end, offset, j);
    } else {
      end' := end + table.size;
      dedupe', origin' := dedupe[table.ptr := offset], origin[table.ptr := k];
      ExtendTables(t, end', offset, k);
      t' := t.With(end', offset, k);
    }
    forall a | a in dedupe ensures a in origin && origin'[a] == origin[a] { assert EntryKnown(t, dedupe, origin, a); }
    ExtendKnown(t, t', dedupe, origin, dedupe', origin');
  }

  /** The header of visit k, before its code offset is known. */
  ghost predicate NegatedAt(t: MapPlan, vmap: seq<nat>, k: nat)
    requires k < |vmap| <= |t.at| <= |t.visits|
  {
    vmap[k] == if t.visits[k].cm.vmap.size == 0 then 0 else Negate32(t.at[k])
  }

  ghost predicate Negated(t: MapPlan, vmap: seq<nat>) {
    && |vmap| <= |t.at| <= |t.visits|
    && forall k {:trigger NegatedAt(t, vmap, k)} :: 0 <= k < |vmap| ==> NegatedAt(t, vmap, k)
  }

  lemma ExtendNegated(t: MapPlan, vmap: seq<nat>, t': MapPlan, value: nat)
    requires Negated(t, vmap) && |vmap| < |t'.at| <= |t'.visits| && t.at <= t'.at && t.visits == t'.visits
    requires value == if t'.visits[|vmap|].cm.vmap.size == 0 then 0 else Negate32(t'.at[|vmap|])
    ensures Negated(t', vmap + [value])
  {
    var vmap' := vmap + [value];
    forall k {:trigger NegatedAt(t', vmap', k)} | 0 <= k < |vmap'| ensures NegatedAt(t', vmap', k) {
      if k < |vmap| { assert NegatedAt(t, vmap, k); }
    }
  }

  /** InitOatMaps: a new table goes to the running offset. */
  method InitOatMaps(visits: seq<Visit>, from: nat) returns (end: nat, vmap: seq<nat>, ghost t: MapPlan)
    ensures t.Complete() && t.visits == visits && t.pos[0] == from && end == t.pos[|visits|]
    ensures |vmap| == |visits| && Negated(t, vmap)
  {
    end, vmap, t := from, [], MapPlan(visits, [from], [], []);
    var dedupe: map<nat, nat> := map[];
    ghost var origin: map<nat, nat> := map[];
    for k := 0 to |visits|
      invariant t.Ok() && t.visits == visits && |t.at| == k && t.pos[0] == from && end == t.pos[k]
      invariant |vmap| == k && Negated(t, vmap)
      invariant TablesKnown(t, dedupe, origin)
    {
      ghost var before := t;
      var value := 0;
      if visits[k].cm.vmap.size != 0 {
        var offset;
        offset, end, dedupe, t, origin := PlaceTable(visits[k].cm.vmap, end, dedupe, t, origin);
        value := Negate32(offset);
      } else {
        ExtendTables(t, end, 0, k);
        t := t.With(end, 0, k);
        forall a | a in dedupe ensures a in origin { assert EntryKnown(before, dedupe, origin, a); }
        ExtendKnown(before, t, dedupe, origin, dedupe, origin);
      }
      ExtendNegated(before, vmap, t, value);
      vmap := vmap + [value];
    }
  }

  /** The value in a header leads, modulo 2^32, from the code back to the table. */
  ghost predicate LeadsBack(vmap: nat, at: nat, code: int) {
    vmap < TWO_32 && (vmap + at - code) % TWO_32 == 0
  }

  lemma AdjustedLeadsBack(at: nat, code: int)
    requires at % TWO_32 != 0
    ensures LeadsBack(Adjust(Negate32(at), code), at, code)
  {
    var q := at / TWO_32;
    assert Negate32(at) + at == (q + 1) * TWO_32;
    if code != 0 {
      var sum := Negate32(at) + code;
      assert sum == sum / TWO_32 * TWO_32 + sum % TWO_32;
      assert sum % TWO_32 + at - code == (q + 1 - sum / TWO_32) * TWO_32;
    }
  }

  /** The header of visit k holds nothing if there is no table, and otherwise its distance from the code. */
  ghost predicate AdjustedAt(t: MapPlan, vmap: seq<nat>, codeOffsets: seq<nat>, k: nat)
    requires k < |vmap| <= |codeOffsets| && |vmap| <= |t.at| <= |t.visits|
  {
    if t.visits[k].cm.vmap.size == 0 then vmap[k] == 0
    else t.at[k] % TWO_32 != 0 ==> LeadsBack(vmap[k], t.at[k], codeOffsets[k] - t.visits[k].cm.Delta())
  }

  ghost predicate Adjusted(t: MapPlan, vmap: seq<nat>, codeOffsets: seq<nat>) {
    && |vmap| <= |codeOffsets| && |vmap| <= |t.at| <= |t.visits|
    && forall k {:trigger AdjustedAt(t, vmap, codeOffsets, k)} :: 0 <= k < |vmap| ==>
         AdjustedAt(t, vmap, codeOffsets, k)
  }

  /** The header update of InitCodeMethodVisitor::VisitMethod: from any header that leads from address 0 back to the
      table to one that leads there from the code. */
  method AdjustOffsets(visits: seq<Visit>, vmapIn: seq<nat>, codeOffsets: seq<nat>, ghost t: MapPlan)
    returns (vmap: seq<nat>)
    requires |vmapIn| == |codeOffsets| == |visits| && t.Complete() && t.visits == visits && Negated(t, vmapIn)
    ensures |vmap| == |visits| && Adjusted(t, vmap, codeOffsets)
  {
    vmap := [];
    for k := 0 to |visits|
      invariant |vmap| == k && Adjusted(t, vmap, codeOffsets)
    {
      assert NegatedAt(t, vmapIn, k);
      ghost var before := vmap;
      var code := codeOffsets[k] - visits[k].cm.Delta();
      if t.at[k] % TWO_32 != 0 { AdjustedLeadsBack(t.at[k], code); }
      vmap := vmap + [Adjust(vmapIn[k], code)];
      forall i {:trigger AdjustedAt(t, vmap, codeOffsets, i)} | 0 <= i < k + 1
        ensures AdjustedAt(t, vmap, codeOffsets, i)
      {
        if i < k { assert AdjustedAt(t, before, codeOffsets, i); }
      }
    }
  }

  /** The code of visit k lies behind all tables and below 2^32. */
  ghost predicate CodeBehind(t: MapPlan, codeOffsets: seq<nat>, k: nat)
    requires k < |t.visits| && k < |codeOffsets| && |t.pos| > 0
  {
    t.pos[|t.pos| - 1] < codeOffsets[k] - t.visits[k].cm.Delta() < TWO_32
  }

  /** The headers as the write pass finds them: tables below their code, everything below 2^32. */
  ghost predicate Headers(t: MapPlan, vmap: seq<nat>, codeOffsets: seq<nat>) {
    && t.Complete() && 0 < t.pos[0]
    && |vmap| == |codeOffsets| == |t.visits| && Adjusted(t, vmap, codeOffsets)
    && forall k {:trigger CodeBehind(t, codeOffsets, k)} :: 0 <= k < |t.visits| ==> CodeBehind(t, codeOffsets, k)
  }

  lemma LeadsBackIsDistance(vmap: nat, at: nat, code: nat)
    requires LeadsBack(vmap, at, code) && 0 < at < code < TWO_32
    ensures vmap == code - at && Sub32(code, vmap) == at
  {
    assert 0 - TWO_32 < vmap + at - code < TWO_32;
  }

  /** What a header says: nothing for a method without a table, otherwise where its table is. */
  lemma HeaderSays(t: MapPlan, vmap: seq<nat>, codeOffsets: seq<nat>, k: nat)
    requires Headers(t, vmap, codeOffsets) && k < |t.visits|
    ensures vmap[k] != 0 <==> t.visits[k].cm.vmap.size != 0
    ensures var code := codeOffsets[k] - t.visits[k].cm.Delta();
            vmap[k] != 0 ==> vmap[k] == code - t.at[k] && vmap[k] < code && Sub32(code, vmap[k]) == t.at[k]
  {
    assert AdjustedAt(t, vmap, codeOffsets, k) && CodeBehind(t, codeOffsets, k);
    if t.visits[k].cm.vmap.size != 0 {
      TableBelow(t, k);
      LeadsBackIsDistance(vmap[k], t.at[k], codeOffsets[k] - t.visits[k].cm.Delta());
    }
  }

  /** The table of visit k, if it has one, is in the file at its reserved offset. */
  ghost predicate MapAt(t: MapPlan, log: seq<Chunk>, base: nat, k: nat)
    requires k < |t.at| <= |t.visits| && |t.first| == |t.at|
  {
    t.visits[k].cm.vmap.size != 0 ==>
      && t.first[k] < |t.visits|
      && Chunk(base + t.at[k], t.visits[t.first[k]].cm.vmap.size, VmapTable(t.visits[k].cm.vmap.ptr)) in log
  }

  ghost predicate MapsInFile(t: MapPlan, log: seq<Chunk>, base: nat, n: nat)
    requires n <= |t.at| <= |t.visits| && |t.first| == |t.at|
  {
    forall k {:trigger MapAt(t, log, base, k)} :: 0 <= k < n ==> MapAt(t, log, base, k)
  }

  lemma MapsStayInFile(t: MapPlan, log: seq<Chunk>, log': seq<Chunk>, base: nat, n: nat)
    requires n <= |t.at| <= |t.visits| && |t.first| == |t.at| && MapsInFile(t, log, base, n) && log <= log'
    ensures MapsInFile(t, log', base, n)
  {
    forall k {:trigger MapAt(t, log', base, k)} | 0 <= k < n ensures MapAt(t, log', base, k) {
      assert MapAt(t, log, base, k);
    }
  }

  /** One visit of the write pass: the table is met at the running offset exactly if it is new; otherwise the visit that
      met it first has written it. */
  lemma MapMet(t: MapPlan, log: seq<Chunk>, base: nat, k: nat)
    requires t.Complete() && k < |t.visits| && MapsInFile(t, log, base, k) && t.visits[k].cm.vmap.size != 0
    ensures t.at[k] == t.pos[k] <==> NewTable(t.visits, k)
    ensures !NewTable(t.visits, k) ==> MapAt(t, log, base, k) && t.pos[k + 1] == t.pos[k]
    ensures NewTable(t.visits, k) ==> t.first[k] == k && t.pos[k + 1] == t.pos[k] + t.visits[k].cm.vmap.size
  {
    TableBelow(t, k);
    assert t.OkAt(k);
    if !NewTable(t.visits, k) {
      assert t.OkAt(t.first[k]);
      assert MapAt(t, log, base, t.first[k]);
    }
  }

  /** WriteMaps: every table is written once, at its first visit and at its reserved offset. */
  method WriteMaps(out: Stream, visits: seq<Visit>, vmap: seq<nat>, codeOffsets: seq<nat>, from: nat, ghost t: MapPlan)
    returns (offset: nat, wrote: seq<bool>)
    requires Headers(t, vmap, codeOffsets) && t.visits == visits && t.pos[0] == from
    requires from <= out.pos
    modifies out
    ensures offset == t.pos[|visits|] && out.pos - old(out.pos) == offset - from
    ensures Appends(old(out.log), old(out.pos), out.log, out.pos)
    ensures |wrote| == |visits| && forall k :: 0 <= k < |visits| ==> wrote[k] == NewTable(visits, k)
    ensures MapsInFile(t, out.log, old(out.pos) - from, |visits|)
  {
    offset, wrote := from, [];
    ghost var base := out.pos - from;
    for k := 0 to |visits|
      invariant offset == t.pos[k] && out.pos == base + offset
      invariant Appends(old(out.log), old(out.pos), out.log, out.pos)
      invariant |wrote| == k && forall i :: 0 <= i < k ==> wrote[i] == NewTable(visits, i)
      invariant MapsInFile(t, out.log, base, k)
    {
      ghost var log, pos := out.log, out.pos;
      HeaderSays(t, vmap, codeOffsets, k);
      assert t.OkAt(k);
      if visits[k].cm.vmap.size != 0 { MapMet(t, log, base, k); }
      var mapOffset := vmap[k];
      var write := false;
      if mapOffset != 0 {
        mapOffset := Sub32(codeOffsets[k] - visits[k].cm.Delta(), mapOffset);
        if mapOffset == offset {
          write := true;
          out.WriteFully(visits[k].cm.vmap.size, VmapTable(visits[k].cm.vmap.ptr));
          AppendsMore(old(out.log), old(out.pos), log, pos, out.log, out.pos);
          offset := offset + visits[k].cm.vmap.size;
        }
      }
      wrote := wrote + [write];
      MapsStayInFile(t, log, out.log, base, k);
      assert MapAt(t, out.log, base, k);
    }
  }
}
