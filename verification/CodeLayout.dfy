/** Reserving method code (compiler/oat_writer.cc InitCodeMethodVisitor, with the call thunks of
    compiler/linker/arm/relative_patcher_arm_base.cc).

    The first pass over the methods assigns every compiled method a code offset and lets methods share
    code; CodeWriter holds the second pass, which has only those offsets to go by. */
module CodeLayout {
  import opened Alignment
  import opened PatchStream
  import opened OatClasses

  /** sizeof(OatQuickMethodHeader). */
  const METHOD_HEADER: nat := 20

  datatype InstructionSet = Arm | Thumb2 | Arm64 | Mips | Mips64 | X86 | X86_64

  /** The target, the --debuggable option, and the size of a call thunk. */
  datatype Config = Config(isa: InstructionSet, debuggable: bool, thunkSize: nat)
  {
    /** AlignCode: GetInstructionSetAlignment is 8 on 32-bit ARM and MIPS and 16 elsewhere.  Arm and
        Thumb-2 methods of one oat file have the same alignment. */
    function Align(x: nat): (r: nat)
      ensures x <= r < x + 16
    {
      if isa in {Arm64, X86, X86_64} then RoundUp(x, 16) else RoundUp(x, 8)
    }

    /** Where a method header goes when space is reserved at `start`, behind a thunk or not. */
    function HeaderAt(start: nat, thunk: bool): nat {
      Align(if thunk then Align(Align(start) + thunkSize) else start)
    }
  }

  /** What identifies shared code: the data pointers of the code, vmap and patch arrays in dedupe_map_, or, for
      debuggable code, the method in the relative patcher's method_offset_map_. */
  datatype Key = Pointers(code: nat, vmap: nat, patches: nat) | OneMethod(ref: MethodRef)

  function KeyOf(cfg: Config, v: Visit): Key {
    if cfg.debuggable then OneMethod(v.ref) else Pointers(v.cm.code.ptr, v.cm.vmap.ptr, v.cm.patches.ptr)
  }

  /** Whether a visit leaves its key in the map: the patcher only learns methods with code. */
  predicate Leaves(cfg: Config, v: Visit) {
    cfg.debuggable ==> v.cm.code.size != 0
  }

  /** Visit b can reuse the code of the earlier visit a. */
  predicate Shares(cfg: Config, a: Visit, b: Visit) {
    Leaves(cfg, a) && KeyOf(cfg, a) == KeyOf(cfg, b)
  }

  /** The first visit whose code visit k uses: k itself when nothing earlier can be shared. */
  ghost predicate FirstUse(cfg: Config, visits: seq<Visit>, k: nat, first: nat) {
    && first <= k < |visits|
    && (first == k || Shares(cfg, visits[first], visits[k]))
    && (forall j :: 0 <= j < first ==> !Shares(cfg, visits[j], visits[k]))
  }

  /** What the first pass did at one visit: the running offset before and after it, the number of
      thunks reserved before it, whether it reserved one, the first visit that uses the same code, the
      place of the method header and the entry point (code_offset_, with the Thumb bit). */
  datatype Reserved = Reserved(start: nat, thunksBefore: nat, thunk: bool, first: nat, header: nat, code: nat, end: nat)
  {
    function ThunksAfter(): nat { thunksBefore + if thunk then 1 else 0 }
  }

  /** The first pass over `visits`, from offset `from`, as far as it has come. */
  datatype Plan = Plan(cfg: Config, visits: seq<Visit>, from: nat, reserved: seq<Reserved>, thunks: seq<nat>)
  {
    ghost function End(): nat {
      if reserved == [] then from else reserved[|reserved| - 1].end
    }

    ghost function ThunkCount(): nat {
      if reserved == [] then 0 else reserved[|reserved| - 1].ThunksAfter()
    }

    /** New code gets an optional thunk, padding, a header and its bytes; shared code gets nothing.
        Thunks reserved later lie behind everything reserved here. */
    ghost predicate OkAt(k: nat)
      requires k < |reserved| <= |visits|
    {
      var r := reserved[k];
      && r.start == (if k == 0 then from else reserved[k - 1].end)
      && r.thunksBefore == (if k == 0 then 0 else reserved[k - 1].ThunksAfter())
      && r.ThunksAfter() <= |thunks|
      && FirstUse(cfg, visits, k, r.first)
      && (if r.first == k then
            && r.header == cfg.HeaderAt(r.start, r.thunk)
            && r.code == r.header + METHOD_HEADER + visits[k].cm.Delta()
            && r.end == r.header + METHOD_HEADER + visits[k].cm.code.size
            && (r.thunk ==> thunks[r.thunksBefore] == cfg.Align(r.start))
          else
            && !r.thunk && r.end == r.start
            && r.header == reserved[r.first].header && r.code == reserved[r.first].code)
      && (forall t :: r.ThunksAfter() <= t < |thunks| ==> r.end <= thunks[t])
    }

    ghost predicate Ok() {
      && |reserved| <= |visits|
      && forall k :: 0 <= k < |reserved| ==> OkAt(k)
    }

    ghost predicate Complete() {
      Ok() && |reserved| == |visits|
    }
  }

  /** Running offsets never decrease, and new code advances them by at least a header. */
  lemma {:induction false} OffsetsGrow(p: Plan, i: nat, k: nat)
    requires p.Ok() && i <= k < |p.reserved|
    ensures p.from <= p.reserved[i].start <= p.reserved[k].start <= p.reserved[k].end
    ensures i < k ==> p.reserved[i].end <= p.reserved[k].start
    ensures p.reserved[i].first == i ==>
              p.reserved[i].start <= p.reserved[i].header && p.reserved[i].header + METHOD_HEADER <= p.reserved[i].end
    decreases k
  {
    assert p.OkAt(k) && p.OkAt(i);
    if i < k {
      OffsetsGrow(p, i, k - 1);
    } else if i > 0 {
      OffsetsGrow(p, i - 1, i - 1);
    }
  }

  /** What is reserved for different methods does not overlap: new code lies behind all earlier code, and its thunk, if
      it has one, between the two. */
  lemma ReservedApart(p: Plan, i: nat, k: nat)
    requires p.Ok() && i < k < |p.reserved| && p.reserved[i].first == i && p.reserved[k].first == k
    ensures p.reserved[i].header + METHOD_HEADER + p.visits[i].cm.code.size <= p.reserved[k].header
    ensures p.reserved[k].thunk ==>
              && p.reserved[k].thunksBefore < |p.thunks|
              && var thunk := p.thunks[p.reserved[k].thunksBefore];
                 && p.reserved[i].header + METHOD_HEADER + p.visits[i].cm.code.size <= thunk
                 && thunk + p.cfg.thunkSize <= p.reserved[k].header
  {
    assert p.OkAt(i) && p.OkAt(k);
    OffsetsGrow(p, i, k);
  }

  /** The address is one that the instruction set lets code start at. */
  ghost predicate OnBoundary(isa: InstructionSet, x: nat) {
    match isa
    case Arm | Thumb2 | Mips | Mips64 => x % 8 == 0
    case Arm64 | X86 | X86_64 => x % 16 == 0
  }

  /** AlignCode goes to the next such address. */
  lemma AlignIsNext(cfg: Config, x: nat, y: nat)
    requires x <= y && OnBoundary(cfg.isa, y)
    ensures OnBoundary(cfg.isa, cfg.Align(x)) && x <= cfg.Align(x) <= y
  {
    if y < cfg.Align(x) {
      RoundUpUnique(x, if cfg.isa in {Arm64, X86, X86_64} then 16 else 8, y);
    }
  }

  /** Every method header, and every thunk in front of one, is aligned for the instruction set. */
  lemma ReservedAligned(p: Plan, k: nat)
    requires p.Ok() && k < |p.reserved|
    ensures OnBoundary(p.cfg.isa, p.reserved[k].header)
    ensures p.reserved[k].thunk ==>
              && p.reserved[k].thunksBefore < |p.thunks|
              && OnBoundary(p.cfg.isa, p.thunks[p.reserved[k].thunksBefore])
  {
    assert p.OkAt(k);
    FirstIsNew(p, k);
    assert p.OkAt(p.reserved[k].first);
  }

  /** Code offsets tell exactly which visits use the same code, and visits that can share code do. */
  lemma OffsetsTellCode(p: Plan, i: nat, k: nat)
    requires p.Ok() && i < k < |p.reserved|
    ensures p.reserved[i].code == p.reserved[k].code <==> p.reserved[i].first == p.reserved[k].first
    ensures Shares(p.cfg, p.visits[i], p.visits[k]) ==> p.reserved[i].code == p.reserved[k].code
  {
    assert p.OkAt(i) && p.OkAt(k);
    FirstIsNew(p, i);
    FirstIsNew(p, k);
    var a, b := p.reserved[i].first, p.reserved[k].first;
    assert p.OkAt(a) && p.OkAt(b);
    OffsetsGrow(p, a, a);
    OffsetsGrow(p, b, b);
    if a < b { OffsetsGrow(p, a, b); } else if b < a { OffsetsGrow(p, b, a); }
  }

  /** Sharing is transitive, so the code a visit shares is new at the visit that first used it. */
  lemma FirstIsNew(p: Plan, k: nat)
    requires p.Ok() && k < |p.reserved|
    ensures p.reserved[k].first <= k && p.OkAt(p.reserved[k].first)
    ensures p.reserved[p.reserved[k].first].first == p.reserved[k].first
  {
    assert p.OkAt(k);
    assert p.OkAt(p.reserved[k].first);
  }

  /** A repeated Thumb-2 method without code, met before any further code was reserved. */
  ghost predicate EmptyThumbRepeat(cfg: Config, visits: seq<Visit>, k: nat)
    requires k < |visits|
  {
    exists j :: 0 <= j < k && FirstUse(cfg, visits, k, j) && visits[j].cm.thumb && visits[j].cm.code.size == 0
                && forall i :: j < i < k ==> !FirstUse(cfg, visits, i, i)
  }

  /** Without new code in between, the running offset stands still, and no thunk is reserved. */
  lemma {:induction false} Stalls(p: Plan, j: nat, k: nat)
    requires p.Ok() && j < k < |p.reserved|
    requires forall i :: j < i < k ==> !FirstUse(p.cfg, p.visits, i, i)
    ensures p.reserved[k].start == p.reserved[j].end && p.reserved[k].thunksBefore == p.reserved[j].ThunksAfter()
    decreases k
  {
    assert p.OkAt(k);
    if k == j + 1 {
    } else {
      Stalls(p, j, k - 1);
      assert p.OkAt(k - 1);
    }
  }

  /** The comparison `code_offset_ > offset_`, made at the reserved offset, recognises exactly the methods
      whose code is new, unless the method is an empty Thumb-2 repeat; there it is always wrong. */
  lemma ComparisonFindsNewCode(p: Plan, k: nat)
    requires p.Ok() && k < |p.reserved|
    ensures (p.reserved[k].code > p.reserved[k].start) == (p.reserved[k].first == k)
            <==> !EmptyThumbRepeat(p.cfg, p.visits, k)
  {
    assert p.OkAt(k);
    OffsetsGrow(p, k, k);
    var j := p.reserved[k].first;
    if j < k {
      FirstIsNew(p, k);
      OffsetsGrow(p, j, k);
      if i :| j < i < k && FirstUse(p.cfg, p.visits, i, i) {
        assert p.OkAt(i);
        OffsetsGrow(p, j, i);
        OffsetsGrow(p, i, k);
      } else {
        Stalls(p, j, k);
      }
    }
  }

  /** Adding what is reserved for the next visit. */
  lemma ExtendPlan(p: Plan, r: Reserved, more: seq<nat>)
    requires p.Ok() && |p.reserved| < |p.visits| && |p.thunks| == p.ThunkCount()
    requires forall t :: 0 <= t < |more| ==> p.End() <= more[t]
    requires |p.thunks + more| == r.ThunksAfter()
    requires p.(reserved := p.reserved + [r], thunks := p.thunks + more).OkAt(|p.reserved|)
    ensures p.(reserved := p.reserved + [r], thunks := p.thunks + more).Ok()
  {
    var q := p.(reserved := p.reserved + [r], thunks := p.thunks + more);
    forall k | 0 <= k < |p.reserved|
      ensures q.OkAt(k)
    {
      assert p.OkAt(k);
      OffsetsGrow(p, k, |p.reserved| - 1);
    }
  }

  /** What is reserved for new code, and for code that visit j already has. */
  ghost function NewCode(p: Plan, thunk: bool): Reserved
    requires |p.reserved| < |p.visits|
  {
    var header := p.cfg.HeaderAt(p.End(), thunk);
    var cm := p.visits[|p.reserved|].cm;
    Reserved(p.End(), |p.thunks|, thunk, |p.reserved|, header,
             header + METHOD_HEADER + cm.Delta(), header + METHOD_HEADER + cm.code.size)
  }

  ghost function SharedCode(p: Plan, j: nat): Reserved
    requires j < |p.reserved|
  {
    Reserved(p.End(), |p.thunks|, false, j, p.reserved[j].header, p.reserved[j].code, p.End())
  }

  ghost function MoreThunks(p: Plan, thunk: bool): seq<nat> {
    if thunk then [p.cfg.Align(p.End())] else []
  }

  lemma PlanNew(p: Plan, thunk: bool)
    requires p.Ok() && |p.reserved| < |p.visits| && |p.thunks| == p.ThunkCount()
    requires FirstUse(p.cfg, p.visits, |p.reserved|, |p.reserved|)
    ensures p.(reserved := p.reserved + [NewCode(p, thunk)], thunks := p.thunks + MoreThunks(p, thunk)).Ok()
  {
    ExtendPlan(p, NewCode(p, thunk), MoreThunks(p, thunk));
  }

  lemma PlanShared(p: Plan, j: nat)
    requires p.Ok() && |p.reserved| < |p.visits| && |p.thunks| == p.ThunkCount()
    requires j < |p.reserved| && FirstUse(p.cfg, p.visits, |p.reserved|, j)
    ensures p.(reserved := p.reserved + [SharedCode(p, j)]).Ok()
  {
    ExtendPlan(p, SharedCode(p, j), []);
    assert p.thunks + [] == p.thunks;
  }

  /** Locations of the absolute patches of one method whose code starts at `base`. */
  function AbsoluteLocations(patches: seq<LinkerPatch>, base: int): seq<int> {
    if patches == [] then []
    else
      var front := AbsoluteLocations(patches[..|patches| - 1], base);
      var p := patches[|patches| - 1];
      if IsPcRelative(p) then front else front + [base + p.literalOffset]
  }

  /** absolute_patch_locations_ after the first n visits, relative to the executable section. */
  ghost function AllLocations(visits: seq<Visit>, reserved: seq<Reserved>, n: nat, executable: nat): seq<int>
    requires n <= |reserved| <= |visits|
  {
    if n == 0 then []
    else
      AllLocations(visits, reserved, n - 1, executable) +
      LocationsAt(visits[n - 1], reserved[n - 1], n - 1, executable)
  }

  /** What visit k adds to them. */
  ghost function LocationsAt(v: Visit, r: Reserved, k: nat, executable: nat): seq<int> {
    if r.first == k then AbsoluteLocations(v.cm.patches.patches, r.header + METHOD_HEADER - executable) else []
  }

  lemma {:induction false} LocationsExtend(visits: seq<Visit>, reserved: seq<Reserved>, r: Reserved, n: nat,
                                           executable: nat)
    requires n <= |reserved| < |visits|
    ensures AllLocations(visits, reserved + [r], n, executable) == AllLocations(visits, reserved, n, executable)
  {
    if n == 0 {
    } else {
      LocationsExtend(visits, reserved, r, n - 1, executable);
      assert (reserved + [r])[n - 1] == reserved[n - 1];
    }
  }

  /** The map of known keys holds exactly the keys that the visits so far left, each with the code offset
      of the visit that left it first. */
  ghost predicate KeysKnown(p: Plan, m: map<Key, nat>, origin: map<Key, nat>)
    requires |p.reserved| <= |p.visits|
  {
    && (forall key :: key in m ==>
          && key in origin && origin[key] < |p.reserved|
          && KeyOf(p.cfg, p.visits[origin[key]]) == key && Leaves(p.cfg, p.visits[origin[key]])
          && m[key] == p.reserved[origin[key]].code)
    && (forall k :: 0 <= k < |p.reserved| && Leaves(p.cfg, p.visits[k]) ==>
          KeyOf(p.cfg, p.visits[k]) in m && origin[KeyOf(p.cfg, p.visits[k])] <= k)
  }

  /** What the map says about the next visit: the visit it shares code with, or that there is none. */
  lemma LookUp(p: Plan, m: map<Key, nat>, origin: map<Key, nat>)
    requires p.Ok() && |p.reserved| < |p.visits| && KeysKnown(p, m, origin)
    ensures var n, key := |p.reserved|, KeyOf(p.cfg, p.visits[|p.reserved|]);
            if key !in m then FirstUse(p.cfg, p.visits, n, n)
            else origin[key] < n && FirstUse(p.cfg, p.visits, n, origin[key])
                 && m[key] == p.reserved[origin[key]].code >= METHOD_HEADER
  {
    var key := KeyOf(p.cfg, p.visits[|p.reserved|]);
    if key in m {
      FirstIsNew(p, origin[key]);
      assert p.OkAt(origin[key]);
    }
  }

  lemma KeysExtend(p: Plan, q: Plan, r: Reserved, m: map<Key, nat>, origin: map<Key, nat>)
    requires |p.reserved| < |p.visits| && KeysKnown(p, m, origin)
    requires q.cfg == p.cfg && q.visits == p.visits && q.reserved == p.reserved + [r]
    ensures var n, v := |p.reserved|, p.visits[|p.reserved|];
            var key := KeyOf(p.cfg, v);
            if !Leaves(p.cfg, v) || key in m then KeysKnown(q, m, origin)
            else KeysKnown(q, m[key := r.code], origin[key := n])
  {
  }

  /** The variables of the first pass after some visits. */
  datatype State = State(offset: nat, known: map<Key, nat>, thunks: seq<nat>, codeOffsets: seq<nat>,
                         patchLocations: seq<int>)

  ghost predicate CodeOffsetsOf(reserved: seq<Reserved>, codeOffsets: seq<nat>) {
    |codeOffsets| == |reserved| && forall k :: 0 <= k < |reserved| ==> codeOffsets[k] == reserved[k].code
  }

  lemma OffsetsExtend(reserved: seq<Reserved>, codeOffsets: seq<nat>, r: Reserved)
    requires CodeOffsetsOf(reserved, codeOffsets)
    ensures CodeOffsetsOf(reserved + [r], codeOffsets + [r.code])
  {
  }

  ghost predicate Consistent(p: Plan, origin: map<Key, nat>, executable: nat, s: State) {
    && p.Ok() && p.thunks == s.thunks && |s.thunks| == p.ThunkCount()
    && s.offset == p.End()
    && CodeOffsetsOf(p.reserved, s.codeOffsets)
    && s.patchLocations == AllLocations(p.visits, p.reserved, |p.reserved|, executable)
    && KeysKnown(p, s.known, origin)
  }

  /** NewQuickCodeOffset and the patcher's ReserveSpace.  Whether the pending relative calls need a thunk
      here is an input: the layout is right for every decision. */
  method NewQuickCodeOffset(cfg: Config, offset: nat, thunks: seq<nat>, delta: nat, needsThunk: bool)
    returns (offset': nat, thunks': seq<nat>, codeOffset: nat)
    ensures offset' == cfg.HeaderAt(offset, needsThunk)
    ensures codeOffset == offset' + METHOD_HEADER + delta
    ensures thunks' == thunks + if needsThunk then [cfg.Align(offset)] else []
  {
    offset', thunks' := offset, thunks;
    if needsThunk {
      var location := cfg.Align(offset');
      thunks' := thunks' + [location];
      offset' := cfg.Align(location + cfg.thunkSize);
    }
    offset' := cfg.Align(offset');
    codeOffset := offset' + METHOD_HEADER + delta;
  }

  /** The loop that records the absolute patch locations of a method. */
  method RecordPatches(patches: seq<LinkerPatch>, base: int, locations: seq<int>) returns (locations': seq<int>)
    ensures locations' == locations + AbsoluteLocations(patches, base)
  {
    locations' := locations;
    for i := 0 to |patches|
      invariant locations' == locations + AbsoluteLocations(patches[..i], base)
    {
      assert patches[..i + 1][..i] == patches[..i];
      if !IsPcRelative(patches[i]) {
        locations' := locations' + [base + patches[i].literalOffset];
      }
    }
    assert patches[..|patches|] == patches;
  }

  /** A map after visit v, which had the code offset or origin x, if v is the first to leave its key. */
  function Learn<T>(cfg: Config, v: Visit, known: map<Key, nat>, m: map<Key, T>, x: T): map<Key, T> {
    if Leaves(cfg, v) && KeyOf(cfg, v) !in known then m[KeyOf(cfg, v) := x] else m
  }

  /** The variables after a visit that gets new code, and after one that shares code. */
  function AfterNew(cfg: Config, s: State, v: Visit, thunk: bool, executable: nat): State {
    var header := cfg.HeaderAt(s.offset, thunk);
    var code := header + METHOD_HEADER + v.cm.Delta();
    State(header + METHOD_HEADER + v.cm.code.size,
          Learn(cfg, v, s.known, s.known, code),
          s.thunks + (if thunk then [cfg.Align(s.offset)] else []),
          s.codeOffsets + [code],
          s.patchLocations + AbsoluteLocations(v.cm.patches.patches, header + METHOD_HEADER - executable))
  }

  function AfterShared(s: State, code: nat): State {
    s.(codeOffsets := s.codeOffsets + [code])
  }

  /** Reserving new code keeps the variables consistent with a plan. */
  lemma ConsistentNew(p: Plan, origin: map<Key, nat>, executable: nat, s: State, thunk: bool)
    requires Consistent(p, origin, executable, s) && |p.reserved| < |p.visits|
    requires KeyOf(p.cfg, p.visits[|p.reserved|]) !in s.known
    ensures var n, r, v := |p.reserved|, NewCode(p, thunk), p.visits[|p.reserved|];
            Consistent(p.(reserved := p.reserved + [r], thunks := p.thunks + MoreThunks(p, thunk)),
                       Learn(p.cfg, v, s.known, origin, n), executable, AfterNew(p.cfg, s, v, thunk, executable))
  {
    var r := NewCode(p, thunk);
    LookUp(p, s.known, origin);
    PlanNew(p, thunk);
    var q := p.(reserved := p.reserved + [r], thunks := p.thunks + MoreThunks(p, thunk));
    KeysExtend(p, q, r, s.known, origin);
    LocationsExtend(p.visits, p.reserved, r, |p.reserved|, executable);
    OffsetsExtend(p.reserved, s.codeOffsets, r);
    assert q.reserved[|p.reserved|] == r;
  }

  /** Sharing code keeps them consistent. */
  lemma ConsistentShared(p: Plan, origin: map<Key, nat>, executable: nat, s: State)
    requires Consistent(p, origin, executable, s) && |p.reserved| < |p.visits|
    requires KeyOf(p.cfg, p.visits[|p.reserved|]) in s.known
    ensures var key := KeyOf(p.cfg, p.visits[|p.reserved|]);
            && s.known[key] > 0 && key in origin && origin[key] < |p.reserved|
            && Consistent(p.(reserved := p.reserved + [SharedCode(p, origin[key])]), origin, executable,
                          AfterShared(s, s.known[key]))
  {
    LookUp(p, s.known, origin);
    var r := SharedCode(p, origin[KeyOf(p.cfg, p.visits[|p.reserved|])]);
    PlanShared(p, r.first);
    KeysExtend(p, p.(reserved := p.reserved + [r]), r, s.known, origin);
    LocationsExtend(p.visits, p.reserved, r, |p.reserved|, executable);
  }

  /** Visit k has a thunk reserved in front of it if its code is new and the patcher asks for one. */
  ghost predicate ThunkAsked(reserved: seq<Reserved>, k: nat, needsThunk: bool)
    requires k < |reserved|
  {
    reserved[k].thunk <==> needsThunk && reserved[k].first == k
  }

  /** The steps of InitCodeMethodVisitor::VisitMethod. */
  method UpdateOffsets(cfg: Config, s: State, v: Visit, needsThunk: bool, executable: nat) returns (s': State)
    requires KeyOf(cfg, v) in s.known ==> s.known[KeyOf(cfg, v)] > 0
    ensures s' == if KeyOf(cfg, v) in s.known then AfterShared(s, s.known[KeyOf(cfg, v)])
                  else AfterNew(cfg, s, v, needsThunk, executable)
  {
    var offset, known, thunks := s.offset, s.known, s.thunks;
    var quickCodeOffset := 0;
    var deduped := true;
    var key := KeyOf(cfg, v);
    if cfg.debuggable {
      quickCodeOffset := if key in known then known[key] else 0;
      if quickCodeOffset == 0 {
        offset, thunks, quickCodeOffset := NewQuickCodeOffset(cfg, offset, thunks, v.cm.Delta(), needsThunk);
        deduped := false;
      }
      if v.cm.code.size != 0 && key !in known {
        known := known[key := quickCodeOffset];
      }
    } else if key in known {
      quickCodeOffset := known[key];
    } else {
      offset, thunks, quickCodeOffset := NewQuickCodeOffset(cfg, offset, thunks, v.cm.Delta(), needsThunk);
      deduped := false;
      known := known[key := quickCodeOffset];
    }
    var locations := s.patchLocations;
    if !deduped {
      offset := offset + METHOD_HEADER;
      offset := offset + v.cm.code.size;
      locations := RecordPatches(v.cm.patches.patches, offset - v.cm.code.size - executable, locations);
    }
    s' := State(offset, known, thunks, s.codeOffsets + [quickCodeOffset], locations);
  }

  /** InitCodeMethodVisitor::VisitMethod: the plan grows by the visit, and the offset, the known keys, the thunks, the
      code offsets and the patch locations stay what the plan says. */
  method VisitMethod(cfg: Config, s: State, v: Visit, needsThunk: bool, executable: nat, ghost p: Plan,
                     ghost origin: map<Key, nat>)
    returns (s': State, ghost p': Plan, ghost origin': map<Key, nat>)
    requires Consistent(p, origin, executable, s) && p.cfg == cfg
    requires |p.reserved| < |p.visits| && v == p.visits[|p.reserved|]
    ensures Consistent(p', origin', executable, s')
    ensures p'.cfg == cfg && p'.visits == p.visits && p'.from == p.from
    ensures |p'.reserved| == |p.reserved| + 1 && p.reserved <= p'.reserved && p.thunks <= p'.thunks
    ensures ThunkAsked(p'.reserved, |p.reserved|, needsThunk)
    ensures |s'.codeOffsets| == |s.codeOffsets| + 1 && s.codeOffsets <= s'.codeOffsets && s.thunks <= s'.thunks
    ensures var code := s'.codeOffsets[|s.codeOffsets|];
            if KeyOf(cfg, v) in s.known then code == s.known[KeyOf(cfg, v)] && s'.offset == s.offset
            else s.offset + METHOD_HEADER <= code && s'.offset == code - v.cm.Delta() + v.cm.code.size
  {
    if KeyOf(cfg, v) in s.known {
      ConsistentShared(p, origin, executable, s);
      p', origin' := p.(reserved := p.reserved + [SharedCode(p, origin[KeyOf(cfg, v)])]), origin;
    } else {
      ConsistentNew(p, origin, executable, s, needsThunk);
      p' := p.(reserved := p.reserved + [NewCode(p, needsThunk)], thunks := p.thunks + MoreThunks(p, needsThunk));
      origin' := Learn(cfg, v, s.known, origin, |p.reserved|);
    }
    s' := UpdateOffsets(cfg, s, v, needsThunk, executable);
  }

  /** The plan after ReserveSpaceEnd: the final thunk lies behind all code. */
  lemma AddFinalThunk(p: Plan)
    requires p.Ok() && |p.thunks| == p.ThunkCount()
    ensures p.(thunks := p.thunks + [p.cfg.Align(p.End())]).Ok()
  {
    var q := p.(thunks := p.thunks + [p.cfg.Align(p.End())]);
    forall k | 0 <= k < |p.reserved|
      ensures q.OkAt(k)
    {
      assert p.OkAt(k);
      OffsetsGrow(p, k, |p.reserved| - 1);
    }
  }

  /** The offset behind a thunk placed at or after `offset`. */
  function BehindThunk(cfg: Config, offset: nat): nat { cfg.Align(cfg.Align(offset) + cfg.thunkSize) }

  /** Thunks are reserved where the patcher asks for them, so far. */
  ghost predicate ThunksAsked(reserved: seq<Reserved>, needsThunk: seq<bool>, n: nat)
    requires n <= |reserved| && n <= |needsThunk|
  {
    forall k {:trigger ThunkAsked(reserved, k, needsThunk[k])} :: 0 <= k < n ==>
      ThunkAsked(reserved, k, needsThunk[k])
  }

  lemma NextAsked(reserved: seq<Reserved>, reserved': seq<Reserved>, needsThunk: seq<bool>, n: nat)
    requires n < |reserved'| && n < |needsThunk| && n <= |reserved| && reserved <= reserved'
    requires ThunksAsked(reserved, needsThunk, n) && ThunkAsked(reserved', n, needsThunk[n])
    ensures ThunksAsked(reserved', needsThunk, n + 1)
  {
    forall k {:trigger ThunkAsked(reserved', k, needsThunk[k])} | 0 <= k < n + 1
      ensures ThunkAsked(reserved', k, needsThunk[k])
    {
      if k < n { assert ThunkAsked(reserved, k, needsThunk[k]); }
    }
  }

  lemma NothingReserved(cfg: Config, visits: seq<Visit>, from: nat, executable: nat)
    ensures Consistent(Plan(cfg, visits, from, [], []), map[], executable, State(from, map[], [], [], []))
  {
  }

  /** Visits i < k are to have the same code.  Without --debuggable these are the methods whose code, vmap and patch
      arrays are the same.  With it they are visits of one method, if code for it was met by visit i. */
  ghost predicate SameCode(cfg: Config, visits: seq<Visit>, i: nat, k: nat)
    requires i < |visits| && k < |visits|
  {
    var a, b := visits[i].cm, visits[k].cm;
    if cfg.debuggable then
      && visits[i].ref == visits[k].ref
      && exists j :: 0 <= j <= i && visits[j].ref == visits[i].ref && visits[j].cm.code.size != 0
    else a.code.ptr == b.code.ptr && a.vmap.ptr == b.vmap.ptr && a.patches.ptr == b.patches.ptr
  }

  lemma FirstTellsCode(p: Plan, i: nat, k: nat)
    requires p.Ok() && i < k < |p.reserved|
    ensures p.reserved[i].first == p.reserved[k].first <==> SameCode(p.cfg, p.visits, i, k)
  {
    assert p.OkAt(i) && p.OkAt(k);
    var a, b := p.reserved[i].first, p.reserved[k].first;
    if SameCode(p.cfg, p.visits, i, k) {
      assert forall j :: 0 <= j < i ==>
               (Shares(p.cfg, p.visits[j], p.visits[i]) <==> Shares(p.cfg, p.visits[j], p.visits[k]));
    }
  }

  /** The code offsets are equal for exactly the visits that are to have the same code. */
  ghost predicate SharedExactly(cfg: Config, visits: seq<Visit>, codeOffsets: seq<nat>)
    requires |codeOffsets| == |visits|
  {
    forall i, k {:trigger SameCode(cfg, visits, i, k)} :: 0 <= i < k < |visits| ==>
      (codeOffsets[i] == codeOffsets[k] <==> SameCode(cfg, visits, i, k))
  }

  lemma OffsetsAreShared(p: Plan, codeOffsets: seq<nat>)
    requires p.Complete() && CodeOffsetsOf(p.reserved, codeOffsets)
    ensures SharedExactly(p.cfg, p.visits, codeOffsets)
  {
    forall i, k {:trigger SameCode(p.cfg, p.visits, i, k)} | 0 <= i < k < |p.visits|
      ensures codeOffsets[i] == codeOffsets[k] <==> SameCode(p.cfg, p.visits, i, k)
    {
      OffsetsTellCode(p, i, k);
      FirstTellsCode(p, i, k);
    }
  }

  /** Visit k is the first with its code offset. */
  ghost predicate IsNew(codeOffsets: seq<nat>, k: nat)
    requires k < |codeOffsets|
  {
    forall j :: 0 <= j < k ==> codeOffsets[j] != codeOffsets[k]
  }

  lemma FirstIffNew(p: Plan, codeOffsets: seq<nat>, k: nat)
    requires p.Ok() && CodeOffsetsOf(p.reserved, codeOffsets) && k < |p.reserved|
    ensures p.reserved[k].first == k <==> IsNew(codeOffsets, k)
  {
    assert p.OkAt(k);
    forall j | 0 <= j < k ensures codeOffsets[j] == codeOffsets[k] <==> p.reserved[j].first == p.reserved[k].first {
      OffsetsTellCode(p, j, k);
    }
    forall j | 0 <= j < k ensures p.reserved[j].first <= j { FirstIsNew(p, j); }
    if p.reserved[k].first < k { FirstIsNew(p, k); }
  }

  /** The patch is a place that holds an address, which patchoat must find. */
  ghost predicate HoldsAddress(p: LinkerPatch) {
    p.patchType in {RecordPosition, Method, Call, Type, String}
  }

  lemma AddressIffNotRelative(p: LinkerPatch)
    ensures HoldsAddress(p) <==> !IsPcRelative(p)
  {
    match p.patchType
    case RecordPosition | Method | Call | Type | String =>
    case CallRelative | StringRelative | DexCacheArray =>
  }

  ghost function Addresses(patches: seq<LinkerPatch>): nat {
    if patches == [] then 0
    else Addresses(patches[..|patches| - 1]) + if HoldsAddress(patches[|patches| - 1]) then 1 else 0
  }

  /** The patches that hold addresses are listed in order from entry `from` on. */
  ghost predicate PatchesListed(patches: seq<LinkerPatch>, base: int, ls: seq<int>, from: nat) {
    forall i {:trigger PatchListed(patches, base, ls, from, i)} :: 0 <= i < |patches| ==>
      PatchListed(patches, base, ls, from, i)
  }

  ghost predicate PatchListed(patches: seq<LinkerPatch>, base: int, ls: seq<int>, from: nat, i: nat)
    requires i < |patches|
  {
    HoldsAddress(patches[i]) ==>
      var at := from + Addresses(patches[..i]); at < |ls| && ls[at] == base + patches[i].literalOffset
  }

  /** A list stays in order within a longer list. */
  lemma ListedInside(patches: seq<LinkerPatch>, base: int, a: seq<int>, ls: seq<int>, from: nat, b: seq<int>)
    requires PatchesListed(patches, base, ls, from)
    ensures PatchesListed(patches, base, a + ls + b, |a| + from)
  {
    forall i {:trigger PatchListed(patches, base, a + ls + b, |a| + from, i)} | 0 <= i < |patches|
      ensures PatchListed(patches, base, a + ls + b, |a| + from, i)
    {
      assert PatchListed(patches, base, ls, from, i);
    }
  }

  lemma {:induction false} MethodLocations(patches: seq<LinkerPatch>, base: int)
    ensures |AbsoluteLocations(patches, base)| == Addresses(patches)
    ensures PatchesListed(patches, base, AbsoluteLocations(patches, base), 0)
    decreases |patches|
  {
    if patches == [] {
    } else {
      var n := |patches| - 1;
      var front, ls := patches[..n], AbsoluteLocations(patches, base);
      MethodLocations(front, base);
      AddressIffNotRelative(patches[n]);
      forall i {:trigger PatchListed(patches, base, ls, 0, i)} | 0 <= i < |patches|
        ensures PatchListed(patches, base, ls, 0, i)
      {
        if i < n {
          assert PatchListed(front, base, AbsoluteLocations(front, base), 0, i) && front[..i] == patches[..i];
        }
      }
    }
  }

  /** Every number below the count is that of a patch that holds an address. */
  lemma {:induction false} AddressNumber(patches: seq<LinkerPatch>, j: nat) returns (i: nat)
    requires j < Addresses(patches)
    ensures i < |patches| && HoldsAddress(patches[i]) && Addresses(patches[..i]) == j
    decreases |patches|
  {
    var n := |patches| - 1;
    if j == Addresses(patches[..n]) {
      i := n;
    } else {
      i := AddressNumber(patches[..n], j);
      assert patches[..n][..i] == patches[..i];
    }
  }

  /** The addresses in the code that the first n visits brought. */
  ghost function AddressesBefore(visits: seq<Visit>, codeOffsets: seq<nat>, n: nat): nat
    requires n <= |visits| == |codeOffsets|
  {
    if n == 0 then 0
    else AddressesBefore(visits, codeOffsets, n - 1) +
         if IsNew(codeOffsets, n - 1) then Addresses(visits[n - 1].cm.patches.patches) else 0
  }

  /** If visit k brought its code, its addresses are listed behind those of the visits before it, in order. */
  ghost predicate VisitListed(visits: seq<Visit>, codeOffsets: seq<nat>, executable: nat, ls: seq<int>, k: nat)
    requires k < |visits| == |codeOffsets|
  {
    IsNew(codeOffsets, k) ==>
      PatchesListed(visits[k].cm.patches.patches, codeOffsets[k] - visits[k].cm.Delta() - executable, ls,
                    AddressesBefore(visits, codeOffsets, k))
  }

  /** The list has one entry for every patch that holds an address in the code of the first n visits, in order. */
  ghost predicate Listed(visits: seq<Visit>, codeOffsets: seq<nat>, executable: nat, ls: seq<int>, n: nat)
    requires n <= |visits| == |codeOffsets|
  {
    && |ls| == AddressesBefore(visits, codeOffsets, n)
    && forall k {:trigger VisitListed(visits, codeOffsets, executable, ls, k)} :: 0 <= k < n ==>
         VisitListed(visits, codeOffsets, executable, ls, k)
  }

  /** The addresses of the next visit, if it brought its code, go behind the others. */
  lemma NextListed(visits: seq<Visit>, codeOffsets: seq<nat>, executable: nat, ls: seq<int>, more: seq<int>, n: nat)
    requires n < |visits| == |codeOffsets| && Listed(visits, codeOffsets, executable, ls, n)
    requires if IsNew(codeOffsets, n)
             then && |more| == Addresses(visits[n].cm.patches.patches)
                  && PatchesListed(visits[n].cm.patches.patches,
                                   codeOffsets[n] - visits[n].cm.Delta() - executable, more, 0)
             else more == []
    ensures Listed(visits, codeOffsets, executable, ls + more, n + 1)
  {
    forall k {:trigger VisitListed(visits, codeOffsets, executable, ls + more, k)} | 0 <= k < n + 1
      ensures VisitListed(visits, codeOffsets, executable, ls + more, k)
    {
      if IsNew(codeOffsets, k) {
        var patches, base := visits[k].cm.patches.patches, codeOffsets[k] - visits[k].cm.Delta() - executable;
        if k < n {
          assert VisitListed(visits, codeOffsets, executable, ls, k);
          ListedInside(patches, base, [], ls, AddressesBefore(visits, codeOffsets, k), more);
          assert [] + ls + more == ls + more;
        } else {
          ListedInside(patches, base, ls, more, 0, []);
          assert ls + more + [] == ls + more;
        }
      }
    }
  }

  lemma {:induction false} LocationsListed(p: Plan, codeOffsets: seq<nat>, executable: nat, n: nat)
    requires p.Complete() && CodeOffsetsOf(p.reserved, codeOffsets) && n <= |p.visits|
    ensures Listed(p.visits, codeOffsets, executable, AllLocations(p.visits, p.reserved, n, executable), n)
  {
    if n == 0 {
    } else {
      var m := n - 1;
      LocationsListed(p, codeOffsets, executable, m);
      assert p.OkAt(m);
      FirstIffNew(p, codeOffsets, m);
      MethodLocations(p.visits[m].cm.patches.patches, codeOffsets[m] - p.visits[m].cm.Delta() - executable);
      NextListed(p.visits, codeOffsets, executable, AllLocations(p.visits, p.reserved, m, executable),
                 LocationsAt(p.visits[m], p.reserved[m], m, executable), m);
    }
  }

  /** Patch i of visit k is an address at x, in code that this visit brought. */
  ghost predicate AddressAt(visits: seq<Visit>, codeOffsets: seq<nat>, executable: nat, k: nat, i: nat, x: int)
    requires |visits| == |codeOffsets|
  {
    && k < |visits| && IsNew(codeOffsets, k) && i < |visits[k].cm.patches.patches|
    && visits[k].cm.patches.patches[i].patchType in {RecordPosition, Method, Call, Type, String}
    && x == codeOffsets[k] - visits[k].cm.Delta() - executable + visits[k].cm.patches.patches[i].literalOffset
  }

  /** Entry j of the list is an address. */
  lemma {:induction false} EntryIsAddress(visits: seq<Visit>, codeOffsets: seq<nat>, executable: nat, ls: seq<int>,
                                          n: nat, j: nat)
    returns (k: nat, i: nat)
    requires n <= |visits| == |codeOffsets| && j < AddressesBefore(visits, codeOffsets, n) <= |ls|
    requires forall k {:trigger VisitListed(visits, codeOffsets, executable, ls, k)} :: 0 <= k < n ==>
               VisitListed(visits, codeOffsets, executable, ls, k)
    ensures AddressAt(visits, codeOffsets, executable, k, i, ls[j])
    decreases n
  {
    var before := AddressesBefore(visits, codeOffsets, n - 1);
    if j < before {
      k, i := EntryIsAddress(visits, codeOffsets, executable, ls, n - 1, j);
    } else {
      k := n - 1;
      var patches := visits[k].cm.patches.patches;
      i := AddressNumber(patches, j - before);
      assert VisitListed(visits, codeOffsets, executable, ls, k);
      assert PatchListed(patches, codeOffsets[k] - visits[k].cm.Delta() - executable, ls, before, i);
    }
  }

  /** A location is in the list exactly if the code holds an address there. */
  lemma ListedIffAddress(visits: seq<Visit>, codeOffsets: seq<nat>, executable: nat, ls: seq<int>, x: int)
    requires |visits| == |codeOffsets| && Listed(visits, codeOffsets, executable, ls, |visits|)
    ensures x in ls <==> exists k: nat, i: nat :: AddressAt(visits, codeOffsets, executable, k, i, x)
  {
    if x in ls {
      var j :| 0 <= j < |ls| && ls[j] == x;
      var k, i := EntryIsAddress(visits, codeOffsets, executable, ls, |visits|, j);
    }
    if k: nat, i: nat :| AddressAt(visits, codeOffsets, executable, k, i, x) {
      assert VisitListed(visits, codeOffsets, executable, ls, k);
      assert PatchListed(visits[k].cm.patches.patches, codeOffsets[k] - visits[k].cm.Delta() - executable, ls,
                         AddressesBefore(visits, codeOffsets, k), i);
    }
  }

  /** VisitDexMethods with the InitCodeMethodVisitor. */
  method VisitMethods(cfg: Config, visits: seq<Visit>, from: nat, executable: nat, needsThunk: seq<bool>)
    returns (s: State, ghost p: Plan, ghost origin: map<Key, nat>)
    requires |needsThunk| == |visits|
    ensures Consistent(p, origin, executable, s)
    ensures p.Complete() && p.cfg == cfg && p.visits == visits && p.from == from
    ensures ThunksAsked(p.reserved, needsThunk, |visits|)
    ensures |s.codeOffsets| == |visits| && SharedExactly(cfg, visits, s.codeOffsets)
  {
    s := State(from, map[], [], [], []);
    p := Plan(cfg, visits, from, [], []);
    origin := map[];
    NothingReserved(cfg, visits, from, executable);
    for k := 0 to |visits|
      invariant Consistent(p, origin, executable, s) && |p.reserved| == k
      invariant p.cfg == cfg && p.visits == visits && p.from == from
      invariant ThunksAsked(p.reserved, needsThunk, k)
    {
      ghost var before := p.reserved;
      s, p, origin := VisitMethod(cfg, s, visits[k], needsThunk[k], executable, p, origin);
      NextAsked(before, p.reserved, needsThunk, k);
    }
    OffsetsAreShared(p, s.codeOffsets);
  }

  /** The InitCodeMethodVisitor part of InitOatCodeDexFiles.  needsThunk and finalThunk are the decisions of
      the relative patcher; EndClass asks for the final thunk only if there is a class. */
  method InitOatCodeDexFiles(cfg: Config, visits: seq<Visit>, from: nat, executable: nat, needsThunk: seq<bool>,
                             finalThunk: bool)
    returns (end: nat, codeOffsets: seq<nat>, thunks: seq<nat>, locations: seq<int>, ghost p: Plan)
    requires |needsThunk| == |visits|
    ensures p.Complete() && p.cfg == cfg && p.visits == visits && p.from == from && p.thunks == thunks
    ensures |codeOffsets| == |visits|
    ensures forall k :: 0 <= k < |visits| ==> codeOffsets[k] == p.reserved[k].code
    ensures locations == AllLocations(visits, p.reserved, |visits|, executable)
    ensures SharedExactly(cfg, visits, codeOffsets) && Listed(visits, codeOffsets, executable, locations, |visits|)
    ensures ThunksAsked(p.reserved, needsThunk, |visits|)
    ensures |thunks| == p.ThunkCount() + if finalThunk then 1 else 0
    ensures finalThunk ==> thunks[|thunks| - 1] == cfg.Align(p.End())
    ensures end == if finalThunk then BehindThunk(cfg, p.End()) else p.End()
  {
    var s;
    ghost var origin;
    s, p, origin := VisitMethods(cfg, visits, from, executable, needsThunk);
    end, codeOffsets, thunks, locations := s.offset, s.codeOffsets, s.thunks, s.patchLocations;
    LocationsListed(p, codeOffsets, executable, |visits|);
    if finalThunk {
      AddFinalThunk(p);
      var location := cfg.Align(end);
      thunks := thunks + [location];
      end := cfg.Align(location + cfg.thunkSize);
      p := p.(thunks := thunks);
    }
  }

  ghost predicate Ascending(ls: seq<int>) {
    forall i, j :: 0 <= i < j < |ls| ==> ls[i] <= ls[j]
  }

  ghost predicate Within(ls: seq<int>, lo: int, hi: int) {
    forall i :: 0 <= i < |ls| ==> lo <= ls[i] <= hi
  }

  /** A method's patches are sorted and lie in its code. */
  ghost predicate PatchesOk(cm: CompiledMethod) {
    && SortedPatches(cm.patches.patches)
    && forall i :: 0 <= i < |cm.patches.patches| ==> cm.patches.patches[i].literalOffset <= cm.code.size
  }

  /** The absolute patches of one method come out in address order, inside its code. */
  lemma {:induction false} MethodLocationsAscend(patches: seq<LinkerPatch>, base: int, limit: nat)
    requires SortedPatches(patches)
    requires forall i :: 0 <= i < |patches| ==> patches[i].literalOffset <= limit
    ensures Ascending(AbsoluteLocations(patches, base))
    ensures Within(AbsoluteLocations(patches, base), base, base + limit)
    decreases |patches|
  {
    if patches == [] {
    } else {
      var front := patches[..|patches| - 1];
      MethodLocationsAscend(front, base, patches[|patches| - 1].literalOffset);
    }
  }

  lemma AppendLocations(a: seq<int>, b: seq<int>, lo: int, mid: int, hi: int)
    requires Ascending(a) && Within(a, lo, mid) && Ascending(b) && Within(b, mid, hi) && lo <= mid <= hi
    ensures Ascending(a + b) && Within(a + b, lo, hi)
  {
  }

  /** With sorted patches that lie inside their code, the recorded absolute locations ascend over the whole
      file and stay inside the executable section. */
  lemma {:induction false} LocationsAscend(p: Plan, n: nat, executable: nat)
    requires p.Ok() && n <= |p.reserved| && executable <= p.from
    requires forall k {:trigger PatchesOk(p.visits[k].cm)} :: 0 <= k < n ==> PatchesOk(p.visits[k].cm)
    ensures var ls := AllLocations(p.visits, p.reserved, n, executable);
            var end := if n == 0 then p.from else p.reserved[n - 1].end;
            Ascending(ls) && Within(ls, 0, end - executable)
  {
    if n == 0 {
    } else {
      LocationsAscend(p, n - 1, executable);
      assert p.OkAt(n - 1);
      OffsetsGrow(p, n - 1, n - 1);
      var r := p.reserved[n - 1];
      if r.first == n - 1 {
        assert PatchesOk(p.visits[n - 1].cm);
        var code := r.header + METHOD_HEADER - executable;
        MethodLocationsAscend(p.visits[n - 1].cm.patches.patches, code, p.visits[n - 1].cm.code.size);
        AppendLocations(AllLocations(p.visits, p.reserved, n - 1, executable),
                        AbsoluteLocations(p.visits[n - 1].cm.patches.patches, code), 0, code, r.end - executable);
      }
    }
  }
}
