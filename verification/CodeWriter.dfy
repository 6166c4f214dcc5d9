/** Writing method code (compiler/oat_writer.cc WriteCodeMethodVisitor, WriteCodeDexFiles, and
    ArmBaseRelativePatcher::WriteThunks).  The pass knows the code offsets and the thunk locations, but not
    which methods share code. */
module CodeWriter {
  import opened OatClasses
  import opened CodeLayout
  import opened Streams

  /** The size counters this pass adds to; padding and thunks are partly counted by the patcher. */
  datatype Sizes = Sizes(headers: nat, code: nat, alignment: nat, patcherAlignment: nat, thunks: nat)
  {
    function Total(): nat { headers + code + alignment + patcherAlignment + thunks }
  }

  /** offset_ and the number of thunks written. */
  datatype Cursor = Cursor(offset: nat, thunks: nat)

  /** The next unwritten thunk belongs at the cursor. */
  predicate Meets(cfg: Config, thunks: seq<nat>, c: Cursor) {
    c.thunks < |thunks| && thunks[c.thunks] == cfg.Align(c.offset)
  }

  /** The cursor after WriteThunks. */
  function AfterThunk(cfg: Config, thunks: seq<nat>, c: Cursor): Cursor {
    if Meets(cfg, thunks, c) then Cursor(BehindThunk(cfg, c.offset), c.thunks + 1) else c
  }

  /** A call thunk as it appears in the file. */
  ghost function ThunkAt(base: int, location: nat, cfg: Config): Chunk
    requires 0 <= base + location
  {
    Chunk(base + location, cfg.thunkSize, CallThunk)
  }

  /** The only method header among the chunks from n on is that of visit k, at `at`. */
  ghost predicate OnlyHeader(log: seq<Chunk>, n: nat, k: nat, at: int) {
    forall i :: n <= i < |log| && log[i].content.MethodHeaderOf? ==> log[i].content.visit == k && log[i].at == at
  }

  /** WriteThunks. */
  method WriteThunks(out: Stream, cfg: Config, thunks: seq<nat>, c: Cursor, sizes: Sizes)
    returns (c': Cursor, sizes': Sizes)
    modifies out
    ensures c' == AfterThunk(cfg, thunks, c)
    ensures out.pos - old(out.pos) == c'.offset - c.offset == sizes'.Total() - sizes.Total()
    ensures Appends(old(out.log), old(out.pos), out.log, out.pos)
    ensures c' != c ==> ThunkAt(old(out.pos) - c.offset, thunks[c.thunks], cfg) in out.log
    ensures forall i :: |old(out.log)| <= i < |out.log| ==> !out.log[i].content.MethodHeaderOf?
  {
    c', sizes' := c, sizes;
    if c.thunks == |thunks| {
      return;
    }
    var aligned := cfg.Align(c.offset);
    if c.thunks < |thunks| && aligned == thunks[c.thunks] {
      if aligned != c.offset {
        out.WriteFully(aligned - c.offset, Padding);
      }
      ghost var log, pos := out.log, out.pos;
      out.WriteFully(cfg.thunkSize, CallThunk);
      AppendsMore(old(out.log), old(out.pos), log, pos, out.log, out.pos);
      log, pos := out.log, out.pos;
      var thunkEnd := aligned + cfg.thunkSize;
      var end := cfg.Align(thunkEnd);
      if end != thunkEnd {
        out.WriteFully(end - thunkEnd, Padding);
        AppendsMore(old(out.log), old(out.pos), log, pos, out.log, out.pos);
      }
      c' := Cursor(end, c.thunks + 1);
      sizes' := sizes.(patcherAlignment := sizes.patcherAlignment + (aligned - c.offset) + (end - thunkEnd),
                       thunks := sizes.thunks + cfg.thunkSize);
    }
  }

  /** The header and the code of visit k as they appear in the file, its first byte at `header`. */
  ghost predicate Holds(log: seq<Chunk>, header: nat, k: nat, size: nat) {
    Chunk(header, METHOD_HEADER, MethodHeaderOf(k)) in log &&
    Chunk(header + METHOD_HEADER, size, MethodCodeOf(k)) in log
  }

  /** Padding, header and code of visit k. */
  method WriteBody(out: Stream, cfg: Config, k: nat, v: Visit, offset: nat, sizes: Sizes)
    returns (offset': nat, sizes': Sizes)
    modifies out
    ensures out.pos - old(out.pos) == offset' - offset == sizes'.Total() - sizes.Total()
    ensures Appends(old(out.log), old(out.pos), out.log, out.pos)
    ensures offset' == cfg.Align(offset) + METHOD_HEADER + v.cm.code.size
    ensures Holds(out.log, old(out.pos) - offset + cfg.Align(offset), k, v.cm.code.size)
    ensures OnlyHeader(out.log, |old(out.log)|, k, old(out.pos) - offset + cfg.Align(offset))
  {
    offset', sizes' := offset, sizes;
    var aligned := cfg.Align(offset');
    if aligned != offset' {
      out.WriteFully(aligned - offset', Padding);
      sizes' := sizes'.(alignment := sizes'.alignment + (aligned - offset'));
      offset' := aligned;
    }
    ghost var log, pos := out.log, out.pos;
    out.WriteFully(METHOD_HEADER, MethodHeaderOf(k));
    AppendsMore(old(out.log), old(out.pos), log, pos, out.log, out.pos);
    offset' := offset' + METHOD_HEADER;
    log, pos := out.log, out.pos;
    out.WriteFully(v.cm.code.size, MethodCodeOf(k));
    AppendsMore(old(out.log), old(out.pos), log, pos, out.log, out.pos);
    offset' := offset' + v.cm.code.size;
    sizes' := sizes'.(headers := sizes'.headers + METHOD_HEADER, code := sizes'.code + v.cm.code.size);
  }

  /** Where the pass puts a header when it stands at a cursor, and where it stands behind a method of that size. */
  function HeaderFor(cfg: Config, thunks: seq<nat>, c: Cursor): nat { cfg.HeaderAt(c.offset, Meets(cfg, thunks, c)) }

  function AfterMethod(cfg: Config, thunks: seq<nat>, codeOffset: nat, size: nat, c: Cursor): Cursor {
    if codeOffset > c.offset
    then Cursor(HeaderFor(cfg, thunks, c) + METHOD_HEADER + size, AfterThunk(cfg, thunks, c).thunks)
    else c
  }

  /** WriteCodeMethodVisitor::VisitMethod for visit k. */
  method WriteMethod(out: Stream, cfg: Config, thunks: seq<nat>, k: nat, v: Visit, codeOffset: nat, c: Cursor,
                     sizes: Sizes)
    returns (c': Cursor, sizes': Sizes)
    modifies out
    ensures c' == AfterMethod(cfg, thunks, codeOffset, v.cm.code.size, c)
    ensures out.pos - old(out.pos) == c'.offset - c.offset == sizes'.Total() - sizes.Total()
    ensures Appends(old(out.log), old(out.pos), out.log, out.pos)
    ensures c'.thunks > c.thunks ==>
              && c.thunks < |thunks| && c.offset <= thunks[c.thunks] && c'.thunks == c.thunks + 1
              && ThunkAt(old(out.pos) - c.offset, thunks[c.thunks], cfg) in out.log
    ensures codeOffset <= c.offset ==> out.log == old(out.log)
    ensures codeOffset > c.offset ==>
              Holds(out.log, old(out.pos) - c.offset + HeaderFor(cfg, thunks, c), k, v.cm.code.size)
    ensures OnlyHeader(out.log, |old(out.log)|, k, old(out.pos) - c.offset + HeaderFor(cfg, thunks, c))
  {
    c', sizes' := c, sizes;
    if codeOffset > c.offset {
      c', sizes' := WriteThunks(out, cfg, thunks, c, sizes);
      ghost var log, pos := out.log, out.pos;
      var offset;
      offset, sizes' := WriteBody(out, cfg, k, v, c'.offset, sizes');
      c' := c'.(offset := offset);
      AppendsMore(old(out.log), old(out.pos), log, pos, out.log, out.pos);
    }
  }

  /** Where the second pass stands before visit n, whether or not its comparisons are right. */
  ghost function CursorAt(p: Plan, n: nat): Cursor
    requires n <= |p.reserved| <= |p.visits|
  {
    if n == 0 then Cursor(p.from, 0)
    else AfterMethod(p.cfg, p.thunks, p.reserved[n - 1].code, p.visits[n - 1].cm.code.size, CursorAt(p, n - 1))
  }

  /** The comparison takes the code of visit k for new, and where its header goes then. */
  ghost predicate Writes(p: Plan, k: nat)
    requires k < |p.reserved| <= |p.visits|
  {
    p.reserved[k].code > CursorAt(p, k).offset
  }

  ghost function HeaderWritten(p: Plan, k: nat): nat
    requires k < |p.reserved| <= |p.visits|
  {
    HeaderFor(p.cfg, p.thunks, CursorAt(p, k))
  }

  /** If the code of visit k is new, it is written at its reserved place. */
  ghost predicate Lands(p: Plan, k: nat)
    requires k < |p.reserved| <= |p.visits|
  {
    p.reserved[k].first == k ==> Writes(p, k) && HeaderWritten(p, k) == p.reserved[k].header
  }

  /** No comparison before visit n goes wrong. */
  ghost predicate Safe(cfg: Config, visits: seq<Visit>, n: nat)
    requires n <= |visits|
  {
    forall k {:trigger EmptyThumbRepeat(cfg, visits, k)} :: 0 <= k < n ==> !EmptyThumbRepeat(cfg, visits, k)
  }

  /** The second pass before visit n is exactly where the first pass was. */
  ghost predicate InStep(p: Plan, n: nat)
    requires n <= |p.reserved| <= |p.visits|
  {
    && CursorAt(p, n).offset == (if n == 0 then p.from else p.reserved[n - 1].end)
    && CursorAt(p, n).thunks == (if n == 0 then 0 else p.reserved[n - 1].ThunksAfter())
  }

  /** At a visit with new code the next unwritten thunk is met exactly if the first pass reserved one. */
  lemma ThunkMetIffReserved(p: Plan, k: nat)
    requires p.Ok() && k < |p.reserved| && p.reserved[k].first == k
    ensures var r := p.reserved[k];
            r.thunk <==> Meets(p.cfg, p.thunks, Cursor(r.start, r.thunksBefore))
  {
    assert p.OkAt(k);
  }

  /** One visit keeps the two passes in step, if the comparison is right there. */
  lemma StaysInStep(p: Plan, k: nat)
    requires p.Ok() && k < |p.reserved| && InStep(p, k)
    requires !EmptyThumbRepeat(p.cfg, p.visits, k)
    ensures InStep(p, k + 1) && (Writes(p, k) <==> p.reserved[k].first == k) && Lands(p, k)
  {
    assert p.OkAt(k);
    ComparisonFindsNewCode(p, k);
    if p.reserved[k].first == k { ThunkMetIffReserved(p, k); }
  }

  /** The comparison goes wrong at an empty Thumb-2 repeat reached in step. */
  lemma LosesStep(p: Plan, k: nat)
    requires p.Ok() && k < |p.reserved| && InStep(p, k)
    requires EmptyThumbRepeat(p.cfg, p.visits, k)
    ensures Writes(p, k) && p.reserved[k].first != k
  {
    assert p.OkAt(k);
    ComparisonFindsNewCode(p, k);
  }

  /** Up to the first empty Thumb-2 repeat the passes are in step. */
  lemma {:induction false} SafeInStep(p: Plan, n: nat)
    requires p.Ok() && n <= |p.reserved| && Safe(p.cfg, p.visits, n)
    ensures InStep(p, n)
  {
    if n == 0 {
    } else {
      SafeInStep(p, n - 1);
      StaysInStep(p, n - 1);
    }
  }

  lemma SafeLands(p: Plan, n: nat, k: nat)
    requires p.Ok() && k < n <= |p.reserved| && Safe(p.cfg, p.visits, n)
    ensures Lands(p, k) && (Writes(p, k) <==> p.reserved[k].first == k)
  {
    SafeInStep(p, k);
    StaysInStep(p, k);
  }

  lemma {:induction false} CursorGrows(p: Plan, i: nat, k: nat)
    requires i <= k <= |p.reserved| <= |p.visits|
    ensures CursorAt(p, i).offset <= CursorAt(p, k).offset
    decreases k
  {
    if i == k {
    } else {
      CursorGrows(p, i, k - 1);
    }
  }

  /** The first empty Thumb-2 repeat of an unsafe walk. */
  lemma {:induction false} FirstRepeat(cfg: Config, visits: seq<Visit>, n: nat) returns (k: nat)
    requires n <= |visits| && !Safe(cfg, visits, n)
    ensures k < n && EmptyThumbRepeat(cfg, visits, k) && Safe(cfg, visits, k)
  {
    if EmptyThumbRepeat(cfg, visits, n - 1) && Safe(cfg, visits, n - 1) {
      k := n - 1;
    } else {
      k := FirstRepeat(cfg, visits, n - 1);
    }
  }

  /** The next new code behind visit k, if there is any. */
  lemma NextNew(cfg: Config, visits: seq<Visit>, k: nat, n: nat) returns (m: nat)
    requires k < n <= |visits|
    ensures k < m <= n && (m < n ==> FirstUse(cfg, visits, m, m))
    ensures forall i :: k < i < m ==> !FirstUse(cfg, visits, i, i)
  {
    m := k + 1;
    while m < n && !FirstUse(cfg, visits, m, m)
      invariant k < m <= n && forall i :: k < i < m ==> !FirstUse(cfg, visits, i, i)
    {
      m := m + 1;
    }
  }

  /** From shared code until code is new again, the first pass stands still. */
  lemma SharedStalls(p: Plan, k: nat, m: nat)
    requires p.Ok() && k < m <= |p.reserved| && p.reserved[k].first != k
    requires forall i :: k < i < m ==> !FirstUse(p.cfg, p.visits, i, i)
    ensures p.reserved[m - 1].end == p.reserved[k].start
    ensures p.reserved[m - 1].ThunksAfter() == p.reserved[k].thunksBefore
    ensures m < |p.reserved| ==>
              p.reserved[m].start == p.reserved[k].start && p.reserved[m].thunksBefore == p.reserved[k].thunksBefore
  {
    assert p.OkAt(k) && p.OkAt(m - 1);
    if k < m - 1 { Stalls(p, k, m - 1); }
    if m < |p.reserved| { Stalls(p, k, m); }
  }

  /** New code behind an empty Thumb-2 repeat that was reached in step is not written at its place: the repeat's header
      is there. */
  lemma RepeatMisplaces(p: Plan, k: nat, m: nat)
    requires p.Ok() && k < m < |p.reserved| && InStep(p, k) && Writes(p, k) && p.reserved[k].first != k
    requires forall i :: k < i < m ==> !FirstUse(p.cfg, p.visits, i, i)
    requires FirstUse(p.cfg, p.visits, m, m)
    ensures p.reserved[m].first == m && HeaderWritten(p, k) == p.reserved[m].header && !Lands(p, m)
  {
    assert p.OkAt(k) && p.OkAt(m);
    SharedStalls(p, k, m);
    ThunkMetIffReserved(p, m);
    CursorGrows(p, k + 1, m);
  }

  /** Without new code behind such a repeat, the second pass ends behind the first. */
  lemma RepeatOvershoots(p: Plan, k: nat)
    requires p.Complete() && k < |p.visits| && InStep(p, k) && Writes(p, k) && p.reserved[k].first != k
    requires forall i :: k < i < |p.visits| ==> !FirstUse(p.cfg, p.visits, i, i)
    ensures HeaderWritten(p, k) == HeaderFor(p.cfg, p.thunks, Cursor(p.End(), p.ThunkCount()))
    ensures HeaderWritten(p, k) + METHOD_HEADER <= CursorAt(p, |p.visits|).offset
  {
    assert p.OkAt(k);
    SharedStalls(p, k, |p.visits|);
    CursorGrows(p, k + 1, |p.visits|);
  }

  /** The offset in the end: EndClass of the last class writes the final thunk. */
  ghost function FinalCursor(p: Plan, hasClasses: bool): Cursor
    requires p.Complete()
  {
    var c := CursorAt(p, |p.visits|);
    if hasClasses then AfterThunk(p.cfg, p.thunks, c) else c
  }

  /** The thunks of a complete plan: those of the visits and, if asked for, one behind the code. */
  ghost predicate HasFinalThunk(p: Plan, finalThunk: bool) {
    && |p.thunks| == p.ThunkCount() + (if finalThunk then 1 else 0)
    && (finalThunk ==> p.thunks[|p.thunks| - 1] == p.cfg.Align(p.End()))
  }

  /** Where the first pass ends. */
  ghost function ReservedEnd(p: Plan, finalThunk: bool): nat {
    if finalThunk then BehindThunk(p.cfg, p.End()) else p.End()
  }

  /** All code lands at its place. */
  ghost predicate AllLand(p: Plan)
    requires p.Complete()
  {
    forall k {:trigger Lands(p, k)} :: 0 <= k < |p.visits| ==> Lands(p, k)
  }

  /** All comparisons tell new code from old. */
  ghost predicate AllTold(p: Plan)
    requires p.Complete()
  {
    forall k {:trigger Writes(p, k)} :: 0 <= k < |p.visits| ==> (Writes(p, k) <==> p.reserved[k].first == k)
  }

  lemma SafeEnds(p: Plan, hasClasses: bool, finalThunk: bool)
    requires p.Complete() && HasFinalThunk(p, finalThunk)
    requires (finalThunk ==> hasClasses) && Safe(p.cfg, p.visits, |p.visits|)
    ensures FinalCursor(p, hasClasses) == Cursor(ReservedEnd(p, finalThunk), |p.thunks|)
  {
    SafeInStep(p, |p.visits|);
  }

  lemma UnsafeEnds(p: Plan, hasClasses: bool, finalThunk: bool)
    requires p.Complete() && HasFinalThunk(p, finalThunk)
    requires (finalThunk ==> hasClasses) && !Safe(p.cfg, p.visits, |p.visits|)
    ensures !AllTold(p) && (AllLand(p) ==> FinalCursor(p, hasClasses).offset > ReservedEnd(p, finalThunk))
  {
    var n := |p.visits|;
    var k := FirstRepeat(p.cfg, p.visits, n);
    SafeInStep(p, k);
    LosesStep(p, k);
    var m := NextNew(p.cfg, p.visits, k, n);
    if m < n { RepeatMisplaces(p, k, m); } else { RepeatOvershoots(p, k); }
  }

  /** For exactly the walks without an empty Thumb-2 repeat, all code is written at its place and the second pass ends
      where the first one ended, and for exactly these the comparisons are right. */
  lemma LandsIffSafe(p: Plan, hasClasses: bool, finalThunk: bool)
    requires p.Complete() && HasFinalThunk(p, finalThunk) && (finalThunk ==> hasClasses)
    ensures Safe(p.cfg, p.visits, |p.visits|)
            <==> AllLand(p) && FinalCursor(p, hasClasses).offset == ReservedEnd(p, finalThunk)
    ensures Safe(p.cfg, p.visits, |p.visits|) <==> AllTold(p)
  {
    if Safe(p.cfg, p.visits, |p.visits|) {
      forall k | 0 <= k < |p.visits| ensures Lands(p, k) && (Writes(p, k) <==> p.reserved[k].first == k) {
        SafeLands(p, |p.visits|, k);
      }
      SafeEnds(p, hasClasses, finalThunk);
    } else {
      UnsafeEnds(p, hasClasses, finalThunk);
    }
  }

  /** What the pass has put into the file for visit i. */
  ghost predicate WrittenAt(p: Plan, log: seq<Chunk>, base: nat, i: nat)
    requires i < |p.reserved| <= |p.visits|
  {
    Writes(p, i) ==> Holds(log, base + HeaderWritten(p, i), i, p.visits[i].cm.code.size)
  }

  /** A method header is in the file only where its own visit has written it. */
  ghost predicate HeaderFrom(p: Plan, c: Chunk, base: nat, n: nat)
    requires n <= |p.reserved| <= |p.visits|
  {
    c.content.MethodHeaderOf? ==>
      c.content.visit < n && Writes(p, c.content.visit) && c.at == base + HeaderWritten(p, c.content.visit)
  }

  /** The first n visits have written their code where the cursor was, and from chunk `start` on no other method header
      was written. */
  ghost predicate Written(p: Plan, log: seq<Chunk>, base: nat, n: nat, start: nat)
    requires n <= |p.reserved| <= |p.visits|
  {
    && (forall i {:trigger WrittenAt(p, log, base, i)} :: 0 <= i < n ==> WrittenAt(p, log, base, i))
    && (forall i {:trigger HeaderFrom(p, log[i], base, n)} :: start <= i < |log| ==> HeaderFrom(p, log[i], base, n))
  }

  lemma NextWritten(p: Plan, log: seq<Chunk>, log': seq<Chunk>, base: nat, n: nat, start: nat)
    requires n < |p.reserved| <= |p.visits| && Written(p, log, base, n, start) && start <= |log| && log <= log'
    requires WrittenAt(p, log', base, n)
    requires if Writes(p, n) then OnlyHeader(log', |log|, n, base + HeaderWritten(p, n)) else log' == log
    ensures Written(p, log', base, n + 1, start)
  {
    forall i {:trigger WrittenAt(p, log', base, i)} | 0 <= i < n + 1 ensures WrittenAt(p, log', base, i) {
      if i < n { assert WrittenAt(p, log, base, i); }
    }
    forall i {:trigger HeaderFrom(p, log'[i], base, n + 1)} | start <= i < |log'|
      ensures HeaderFrom(p, log'[i], base, n + 1)
    {
      if i < |log| { assert HeaderFrom(p, log[i], base, n); }
    }
  }

  /** The outcomes of the first comparisons. */
  ghost predicate Outcomes(p: Plan, wrote: seq<bool>) {
    && |wrote| <= |p.reserved| <= |p.visits|
    && forall k {:trigger OutcomeAt(p, wrote, k)} :: 0 <= k < |wrote| ==> OutcomeAt(p, wrote, k)
  }

  ghost predicate OutcomeAt(p: Plan, wrote: seq<bool>, k: nat)
    requires k < |wrote| <= |p.reserved| <= |p.visits|
  {
    wrote[k] == Writes(p, k)
  }

  lemma NextOutcome(p: Plan, wrote: seq<bool>, next: bool)
    requires Outcomes(p, wrote) && |wrote| < |p.reserved| && next == Writes(p, |wrote|)
    ensures Outcomes(p, wrote + [next])
  {
    forall k {:trigger OutcomeAt(p, wrote + [next], k)} | 0 <= k < |wrote| + 1 ensures OutcomeAt(p, wrote + [next], k) {
      if k < |wrote| { assert OutcomeAt(p, wrote, k); }
    }
  }

  /** The first n thunks are in the file. */
  ghost predicate ThunksInFile(thunks: seq<nat>, n: nat, cfg: Config, log: seq<Chunk>, base: nat) {
    n <= |thunks| && forall t :: 0 <= t < n ==> ThunkAt(base, thunks[t], cfg) in log
  }

  /** One visit, seen from the plan. */
  method VisitNext(out: Stream, cfg: Config, thunks: seq<nat>, k: nat, v: Visit, codeOffset: nat, c: Cursor,
                   sizes: Sizes, wrote: seq<bool>, ghost p: Plan, ghost base: nat, ghost log: seq<Chunk>,
                   ghost pos: nat)
    returns (c': Cursor, sizes': Sizes, wrote': seq<bool>)
    requires k < |p.reserved| <= |p.visits| && p.cfg == cfg && p.thunks == thunks && v == p.visits[k]
    requires codeOffset == p.reserved[k].code && c == CursorAt(p, k) && out.pos == base + c.offset
    requires Appends(log, pos, out.log, out.pos) && Written(p, out.log, base, k, |log|)
    requires ThunksInFile(thunks, c.thunks, cfg, out.log, base) && |wrote| == k && Outcomes(p, wrote)
    modifies out
    ensures c' == CursorAt(p, k + 1) && out.pos == base + c'.offset
    ensures c'.offset - c.offset == sizes'.Total() - sizes.Total()
    ensures Appends(log, pos, out.log, out.pos) && Written(p, out.log, base, k + 1, |log|)
    ensures ThunksInFile(thunks, c'.thunks, cfg, out.log, base) && |wrote'| == k + 1 && Outcomes(p, wrote')
  {
    NextOutcome(p, wrote, codeOffset > c.offset);
    wrote' := wrote + [codeOffset > c.offset];
    c', sizes' := WriteMethod(out, cfg, thunks, k, v, codeOffset, c, sizes);
    NextWritten(p, old(out.log), out.log, base, k, |log|);
    AppendsMore(log, pos, old(out.log), old(out.pos), out.log, out.pos);
  }

  /** VisitDexMethods with the WriteCodeMethodVisitor.  `wrote` records the outcome of every comparison. */
  method WriteMethods(out: Stream, cfg: Config, visits: seq<Visit>, codeOffsets: seq<nat>, thunks: seq<nat>, from: nat,
                      ghost p: Plan)
    returns (c: Cursor, sizes: Sizes, wrote: seq<bool>)
    requires p.Complete() && p.cfg == cfg && p.visits == visits && p.from == from && p.thunks == thunks
    requires |codeOffsets| == |visits| && forall k :: 0 <= k < |visits| ==> codeOffsets[k] == p.reserved[k].code
    requires from <= out.pos
    modifies out
    ensures c == CursorAt(p, |visits|)
    ensures out.pos - old(out.pos) == c.offset - from == sizes.Total()
    ensures Appends(old(out.log), old(out.pos), out.log, out.pos)
    ensures ThunksInFile(thunks, c.thunks, cfg, out.log, old(out.pos) - from)
    ensures Outcomes(p, wrote) && |wrote| == |visits|
    ensures Written(p, out.log, old(out.pos) - from, |visits|, |old(out.log)|)
  {
    c, sizes, wrote := Cursor(from, 0), Sizes(0, 0, 0, 0, 0), [];
    ghost var base, log, pos := out.pos - from, out.log, out.pos;
    for k := 0 to |visits|
      invariant c == CursorAt(p, k) && out.pos == base + c.offset && c.offset - from == sizes.Total()
      invariant Appends(log, pos, out.log, out.pos) && Written(p, out.log, base, k, |log|)
      invariant ThunksInFile(thunks, c.thunks, cfg, out.log, base) && |wrote| == k && Outcomes(p, wrote)
    {
      c, sizes, wrote := VisitNext(out, cfg, thunks, k, visits[k], codeOffsets[k], c, sizes, wrote, p, base, log, pos);
    }
  }

  /** Visit k finds its header and code in the file, those of the visit that first used the code. */
  ghost predicate CodeInFileAt(p: Plan, log: seq<Chunk>, base: nat, k: nat)
    requires p.Complete() && k < |p.visits|
  {
    var r := p.reserved[k];
    r.first <= k && Holds(log, base + r.header, r.first, p.visits[r.first].cm.code.size)
  }

  ghost predicate AllCodeInFile(p: Plan, log: seq<Chunk>, base: nat)
    requires p.Complete()
  {
    forall k {:trigger CodeInFileAt(p, log, base, k)} :: 0 <= k < |p.visits| ==> CodeInFileAt(p, log, base, k)
  }

  /** Visit j has the code of visit k: its arrays are the same, or, with --debuggable, its method. */
  ghost predicate HasCodeOf(cfg: Config, a: Visit, b: Visit) {
    if cfg.debuggable then a.ref == b.ref
    else a.cm.code.ptr == b.cm.code.ptr && a.cm.vmap.ptr == b.cm.vmap.ptr && a.cm.patches.ptr == b.cm.patches.ptr
  }

  /** At this code offset lies code of visit k, behind a header. */
  ghost predicate FindsCode(cfg: Config, visits: seq<Visit>, codeOffset: nat, k: nat, log: seq<Chunk>, base: nat)
    requires k < |visits|
  {
    exists j {:trigger visits[j]} ::
      && 0 <= j <= k && HasCodeOf(cfg, visits[j], visits[k])
      && var code := base + codeOffset - visits[j].cm.Delta();
         && METHOD_HEADER <= code && Chunk(code - METHOD_HEADER, METHOD_HEADER, MethodHeaderOf(j)) in log
         && Chunk(code, visits[j].cm.code.size, MethodCodeOf(j)) in log
  }

  lemma FindsOwnCode(p: Plan, codeOffsets: seq<nat>, log: seq<Chunk>, base: nat, k: nat)
    requires p.Complete() && AllCodeInFile(p, log, base) && CodeOffsetsOf(p.reserved, codeOffsets) && k < |p.visits|
    ensures FindsCode(p.cfg, p.visits, codeOffsets[k], k, log, base)
  {
    assert CodeInFileAt(p, log, base, k) && p.OkAt(k);
    FirstIsNew(p, k);
    var j := p.reserved[k].first;
    if j < k { FirstTellsCode(p, j, k); }
    assert p.OkAt(j) && HasCodeOf(p.cfg, p.visits[j], p.visits[k]);
  }

  lemma CodeStaysInFile(p: Plan, log: seq<Chunk>, log': seq<Chunk>, base: nat)
    requires p.Complete() && AllCodeInFile(p, log, base) && log <= log'
    ensures AllCodeInFile(p, log', base)
  {
    forall k {:trigger CodeInFileAt(p, log', base, k)} | 0 <= k < |p.visits|
      ensures CodeInFileAt(p, log', base, k)
    {
      assert CodeInFileAt(p, log, base, k);
    }
  }

  /** Visits that share code find what the first of them has written. */
  lemma LandedIsFound(p: Plan, log: seq<Chunk>, base: nat, start: nat)
    requires p.Complete() && Written(p, log, base, |p.visits|, start)
    requires AllLand(p)
    ensures AllCodeInFile(p, log, base)
  {
    forall k {:trigger CodeInFileAt(p, log, base, k)} | 0 <= k < |p.visits| ensures CodeInFileAt(p, log, base, k) {
      FirstIsNew(p, k);
      var j := p.reserved[k].first;
      assert p.OkAt(k) && p.OkAt(j) && WrittenAt(p, log, base, j) && Lands(p, j);
    }
  }

  /** And conversely, if nothing was in the way before. */
  lemma FoundHasLanded(p: Plan, log: seq<Chunk>, base: nat, start: nat, k: nat)
    requires p.Complete() && Written(p, log, base, |p.visits|, start) && AllCodeInFile(p, log, base)
    requires start <= |log| && Below(log[..start], base + p.from) && k < |p.visits|
    ensures Lands(p, k)
  {
    if p.reserved[k].first == k {
      assert CodeInFileAt(p, log, base, k) && p.OkAt(k);
      OffsetsGrow(p, k, k);
      var c := Chunk(base + p.reserved[k].header, METHOD_HEADER, MethodHeaderOf(k));
      var i :| 0 <= i < |log| && log[i] == c;
      EarlierIsBelow(log, start, base + p.from, i);
      assert HeaderFrom(p, log[i], base, |p.visits|);
    }
  }

  /** WriteCodeDexFiles: for exactly the walks without an empty Thumb-2 repeat, the second pass ends where the first one
      ended and every method finds its header and code at the reserved place; the comparisons tell new code from old for
      exactly these walks too. */
  method WriteCodeDexFiles(out: Stream, cfg: Config, visits: seq<Visit>, codeOffsets: seq<nat>, thunks: seq<nat>,
                           from: nat, hasClasses: bool, ghost finalThunk: bool, ghost p: Plan)
    returns (offset: nat, sizes: Sizes, wrote: seq<bool>)
    requires p.Complete() && p.cfg == cfg && p.visits == visits && p.from == from && p.thunks == thunks
    requires |codeOffsets| == |visits| && forall k :: 0 <= k < |visits| ==> codeOffsets[k] == p.reserved[k].code
    requires HasFinalThunk(p, finalThunk) && (finalThunk ==> hasClasses)
    requires from <= out.pos && Below(out.log, out.pos)
    modifies out
    ensures out.pos - old(out.pos) == offset - from == sizes.Total()
    ensures Appends(old(out.log), old(out.pos), out.log, out.pos)
    ensures offset == FinalCursor(p, hasClasses).offset
    ensures |wrote| == |visits| && (WroteNew(p, wrote) <==> Safe(p.cfg, p.visits, |visits|))
    ensures Safe(p.cfg, p.visits, |visits|) <==>
              offset == ReservedEnd(p, finalThunk) && AllCodeInFile(p, out.log, old(out.pos) - from)
    ensures Safe(p.cfg, p.visits, |visits|) ==> ThunksInFile(thunks, |thunks|, cfg, out.log, old(out.pos) - from)
  {
    ghost var base := out.pos - from;
    var c;
    c, sizes, wrote := WriteMethods(out, cfg, visits, codeOffsets, thunks, from, p);
    ghost var log, pos := out.log, out.pos;
    if hasClasses {
      c, sizes := WriteThunks(out, cfg, thunks, c, sizes);
      AppendsMore(old(out.log), old(out.pos), log, pos, out.log, out.pos);
    }
    offset := c.offset;
    StillWritten(p, log, out.log, base, |old(out.log)|);
    assert out.log[..|old(out.log)|] == old(out.log);
    FoundIffSafe(p, out.log, base, |old(out.log)|, hasClasses, finalThunk);
    WroteNewIffTold(p, wrote);
  }

  /** What is written behind the methods leaves them as they are. */
  lemma StillWritten(p: Plan, log: seq<Chunk>, log': seq<Chunk>, base: nat, start: nat)
    requires p.Complete() && Written(p, log, base, |p.visits|, start) && start <= |log| && log <= log'
    requires forall i :: |log| <= i < |log'| ==> !log'[i].content.MethodHeaderOf?
    ensures Written(p, log', base, |p.visits|, start)
  {
    var n := |p.visits|;
    forall i {:trigger WrittenAt(p, log', base, i)} | 0 <= i < n ensures WrittenAt(p, log', base, i) {
      assert WrittenAt(p, log, base, i);
    }
    forall i {:trigger HeaderFrom(p, log'[i], base, n)} | start <= i < |log'| ensures HeaderFrom(p, log'[i], base, n) {
      if i < |log| { assert HeaderFrom(p, log[i], base, n); }
    }
  }

  /** All comparisons were right. */
  ghost predicate WroteNew(p: Plan, wrote: seq<bool>)
    requires |wrote| == |p.reserved|
  {
    forall k :: 0 <= k < |wrote| ==> (wrote[k] <==> p.reserved[k].first == k)
  }

  lemma WroteNewIffTold(p: Plan, wrote: seq<bool>)
    requires p.Complete() && Outcomes(p, wrote) && |wrote| == |p.visits|
    ensures WroteNew(p, wrote) <==> AllTold(p)
  {
    forall k | 0 <= k < |wrote| ensures wrote[k] == Writes(p, k) { assert OutcomeAt(p, wrote, k); }
  }

  lemma FoundIffSafe(p: Plan, log: seq<Chunk>, base: nat, start: nat, hasClasses: bool, finalThunk: bool)
    requires p.Complete() && HasFinalThunk(p, finalThunk) && (finalThunk ==> hasClasses)
    requires Written(p, log, base, |p.visits|, start) && start <= |log| && Below(log[..start], base + p.from)
    ensures Safe(p.cfg, p.visits, |p.visits|) <==>
              FinalCursor(p, hasClasses).offset == ReservedEnd(p, finalThunk) && AllCodeInFile(p, log, base)
    ensures Safe(p.cfg, p.visits, |p.visits|) <==> AllTold(p)
    ensures Safe(p.cfg, p.visits, |p.visits|) ==> FinalCursor(p, hasClasses).thunks == |p.thunks|
  {
    LandsIffSafe(p, hasClasses, finalThunk);
    if Safe(p.cfg, p.visits, |p.visits|) {
      SafeEnds(p, hasClasses, finalThunk);
      LandedIsFound(p, log, base, start);
    } else if AllCodeInFile(p, log, base) {
      forall k | 0 <= k < |p.visits| ensures Lands(p, k) { FoundHasLanded(p, log, base, start, k); }
    }
  }

  /** The quickening compiler gives methods without code the Arm instruction set instead of Thumb-2
      (compiler/dex/dex_to_dex_compiler.cc), which keeps every walk safe. */
  lemma NoEmptyThumbIsSafe(cfg: Config, visits: seq<Visit>)
    requires forall k :: 0 <= k < |visits| && visits[k].cm.thumb ==> visits[k].cm.code.size != 0
    ensures Safe(cfg, visits, |visits|)
  {
  }

  /** Two visits to one empty Thumb-2 method, in non-debuggable code, make an unsafe walk. */
  lemma EmptyThumbTwiceIsUnsafe(cfg: Config, v: Visit)
    requires !cfg.debuggable && v.cm.thumb && v.cm.code.size == 0
    ensures !Safe(cfg, [v, v], 2)
  {
    assert FirstUse(cfg, [v, v], 1, 0);
    assert EmptyThumbRepeat(cfg, [v, v], 1);
  }

  /** An unsafe walk that the final comparisons of WriteCode do not notice: with a further empty method that is not
      Thumb-2, the second pass ends at the right offset, but the header of the repeat is where that method's belongs. */
  lemma UnsafeWalkEndsInPlace(p: Plan, v: Visit, w: Visit)
    requires p.Complete() && p.visits == [v, v, w] && p.thunks == [] && !p.cfg.debuggable
    requires v.cm.thumb && v.cm.code.size == 0 && !w.cm.thumb && w.cm.code.size == 0
    requires KeyOf(p.cfg, v) != KeyOf(p.cfg, w)
    ensures !Safe(p.cfg, p.visits, 3) && CursorAt(p, 3).offset == p.End()
    ensures Writes(p, 1) && HeaderWritten(p, 1) == p.reserved[2].header && !Writes(p, 2) && !Lands(p, 2)
  {
    assert p.OkAt(0) && p.OkAt(1) && p.OkAt(2);
    assert FirstUse(p.cfg, p.visits, 1, 0) && FirstUse(p.cfg, p.visits, 2, 2);
    assert EmptyThumbRepeat(p.cfg, p.visits, 1);
    assert CursorAt(p, 1) == Cursor(p.reserved[0].header + METHOD_HEADER, 0);
    assert CursorAt(p, 2) == Cursor(p.cfg.Align(CursorAt(p, 1).offset) + METHOD_HEADER, 0);
  }
}
