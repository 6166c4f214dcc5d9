/** The output stream of the writers: a position and the list of what was written where.  Every write
    and seek succeeds. */
module Streams {

  /** The fields of an OatDexFile and of an OatClass, each of which is a write of its own. */
  datatype RecordPart =
    | LocationSize
    | LocationData
    | LocationChecksum
    | DexFileOffset
    | ClassOffsetsOffset
    | LookupTableOffset

  datatype ClassPart =
    | ClassStatus
    | ClassKind
    | BitmapSize
    | Bitmap
    | MethodOffsets

  /** What a write puts into the file. */
  datatype Content =
    | MethodHeaderOf(visit: nat)
    | MethodCodeOf(visit: nat)
    | VmapTable(ptr: nat)
    | CallThunk
    | Padding
    | Trampoline(number: nat)
    | DexFile(index: nat)
    | OatDexFile(index: nat, recordPart: RecordPart)
    | ClassOffsets(index: nat)
    | OatClassRecord(index: nat, classPart: ClassPart)
    | OatHeader
    | SectionBytes(section: nat)

  datatype Chunk = Chunk(at: nat, size: nat, content: Content)
  {
    function End(): nat { at + size }
  }

  ghost predicate InSpan(c: Chunk, lo: nat, hi: nat) { lo <= c.at && c.End() <= hi }

  ghost predicate Before(c: Chunk, d: Chunk) { c.End() <= d.at }

  ghost predicate Apart(c: Chunk, d: Chunk) { Before(c, d) || Before(d, c) }

  /** Everything was written between two positions, and nothing over something else. */
  ghost predicate Tidy(log: seq<Chunk>, lo: nat, hi: nat) {
    && (forall i {:trigger InSpan(log[i], lo, hi)} :: 0 <= i < |log| ==> InSpan(log[i], lo, hi))
    && (forall i, j {:trigger Apart(log[i], log[j])} :: 0 <= i < j < |log| ==> Apart(log[i], log[j]))
  }

  /** The stream has moved from one position to another and has written nothing outside, in ascending order. */
  ghost predicate Appends(log: seq<Chunk>, pos: nat, log': seq<Chunk>, pos': nat) {
    && log <= log' && pos <= pos'
    && (forall i {:trigger InSpan(log'[i], pos, pos')} :: |log| <= i < |log'| ==> InSpan(log'[i], pos, pos'))
    && (forall i, j {:trigger Before(log'[i], log'[j])} :: |log| <= i < j < |log'| ==> Before(log'[i], log'[j]))
  }

  /** Chunks one behind the other that fill the bytes between two positions. */
  ghost predicate Run(chunks: seq<Chunk>, pos: nat, pos': nat) {
    && |chunks| > 0 && chunks[0].at == pos && chunks[|chunks| - 1].End() == pos'
    && forall i :: 0 <= i < |chunks| - 1 ==> chunks[i].End() == chunks[i + 1].at
  }

  lemma {:induction false} RunAscends(chunks: seq<Chunk>, pos: nat, pos': nat, i: nat, j: nat)
    requires Run(chunks, pos, pos') && i <= j < |chunks|
    ensures chunks[i].at <= chunks[j].at && chunks[i].End() <= chunks[j].End()
    ensures i < j ==> Before(chunks[i], chunks[j])
    decreases j
  {
    if i == j {
    } else {
      RunAscends(chunks, pos, pos', i, j - 1);
    }
  }

  /** Several writes one after the other. */
  lemma AppendsRun(log: seq<Chunk>, pos: nat, chunks: seq<Chunk>, pos': nat)
    requires Run(chunks, pos, pos')
    ensures Appends(log, pos, log + chunks, pos')
  {
    var log' := log + chunks;
    RunAscends(chunks, pos, pos', 0, |chunks| - 1);
    forall i {:trigger InSpan(log'[i], pos, pos')} | |log| <= i < |log'| ensures InSpan(log'[i], pos, pos') {
      RunAscends(chunks, pos, pos', 0, i - |log|);
      RunAscends(chunks, pos, pos', i - |log|, |chunks| - 1);
    }
    forall i, j {:trigger Before(log'[i], log'[j])} | |log| <= i < j < |log'| ensures Before(log'[i], log'[j]) {
      RunAscends(chunks, pos, pos', i - |log|, j - |log|);
    }
  }

  /** A seek forward. */
  lemma AppendsSeek(log: seq<Chunk>, pos: nat, log': seq<Chunk>, pos': nat, pos'': nat)
    requires Appends(log, pos, log', pos') && pos' <= pos''
    ensures Appends(log, pos, log', pos'')
  {
    forall i {:trigger InSpan(log'[i], pos, pos'')} | |log| <= i < |log'| ensures InSpan(log'[i], pos, pos'') {
      assert InSpan(log'[i], pos, pos');
    }
  }

  lemma AppendsMore(log: seq<Chunk>, pos: nat, log': seq<Chunk>, pos': nat, log'': seq<Chunk>, pos'': nat)
    requires Appends(log, pos, log', pos') && Appends(log', pos', log'', pos'')
    ensures Appends(log, pos, log'', pos'')
  {
    forall i {:trigger InSpan(log''[i], pos, pos'')} | |log| <= i < |log''| ensures InSpan(log''[i], pos, pos'') {
      if i < |log'| { assert InSpan(log'[i], pos, pos'); } else { assert InSpan(log''[i], pos', pos''); }
    }
    forall i, j {:trigger Before(log''[i], log''[j])} | |log| <= i < j < |log''| ensures Before(log''[i], log''[j]) {
      if j < |log'| {
        assert Before(log'[i], log'[j]);
      } else if i < |log'| {
        assert InSpan(log'[i], pos, pos') && InSpan(log''[j], pos', pos'');
      }
    }
  }

  /** Appending to a tidy log keeps it tidy. */
  lemma AppendsTidy(log: seq<Chunk>, lo: nat, pos: nat, log': seq<Chunk>, pos': nat)
    requires Tidy(log, lo, pos) && lo <= pos && Appends(log, pos, log', pos')
    ensures Tidy(log', lo, pos')
  {
    forall i {:trigger InSpan(log'[i], lo, pos')} | 0 <= i < |log'| ensures InSpan(log'[i], lo, pos') {
      if i < |log| { assert InSpan(log[i], lo, pos); } else { assert InSpan(log'[i], pos, pos'); }
    }
    forall i, j {:trigger Apart(log'[i], log'[j])} | 0 <= i < j < |log'| ensures Apart(log'[i], log'[j]) {
      if j < |log| {
        assert Apart(log[i], log[j]);
      } else if i < |log| {
        assert InSpan(log[i], lo, pos) && InSpan(log'[j], pos, pos');
      } else {
        assert Before(log'[i], log'[j]);
      }
    }
  }

  /** Writing in front of everything else. */
  lemma AppendsInFront(log: seq<Chunk>, lo: nat, hi: nat, pos: nat, log': seq<Chunk>, pos': nat)
    requires Tidy(log, lo, hi) && pos' <= lo <= hi && Appends(log, pos, log', pos')
    ensures Tidy(log', pos, hi)
  {
    forall i {:trigger InSpan(log'[i], pos, hi)} | 0 <= i < |log'| ensures InSpan(log'[i], pos, hi) {
      if i < |log| { assert InSpan(log[i], lo, hi); } else { assert InSpan(log'[i], pos, pos'); }
    }
    forall i, j {:trigger Apart(log'[i], log'[j])} | 0 <= i < j < |log'| ensures Apart(log'[i], log'[j]) {
      if j < |log| {
        assert Apart(log[i], log[j]);
      } else if i < |log| {
        assert InSpan(log[i], lo, hi) && InSpan(log'[j], pos, pos');
      } else {
        assert Before(log'[i], log'[j]);
      }
    }
  }

  lemma TidyFurther(log: seq<Chunk>, lo: nat, hi: nat, hi': nat)
    requires Tidy(log, lo, hi) && hi <= hi'
    ensures Tidy(log, lo, hi')
  {
    forall i {:trigger InSpan(log[i], lo, hi')} | 0 <= i < |log| ensures InSpan(log[i], lo, hi') {
      assert InSpan(log[i], lo, hi);
    }
  }

  /** Nothing was written behind a position. */
  ghost predicate Below(log: seq<Chunk>, pos: nat) { forall c {:trigger c in log} :: c in log ==> c.End() <= pos }

  lemma TidyIsBelow(log: seq<Chunk>, lo: nat, hi: nat)
    requires Tidy(log, lo, hi)
    ensures Below(log, hi)
  {
    forall c {:trigger c in log} | c in log ensures c.End() <= hi {
      var i :| 0 <= i < |log| && log[i] == c;
      assert InSpan(log[i], lo, hi);
    }
  }

  lemma EarlierIsBelow(log: seq<Chunk>, start: nat, pos: nat, i: nat)
    requires start <= |log| && Below(log[..start], pos) && i < |log|
    ensures i < start ==> log[i].End() <= pos
  {
    if i < start { assert log[..start][i] in log[..start]; }
  }

  class Stream {
    var pos: nat
    var log: seq<Chunk>

    constructor (pos: nat)
      ensures this.pos == pos && log == []
    {
      this.pos, log := pos, [];
    }

    method WriteFully(size: nat, content: Content)
      modifies this
      ensures pos == old(pos) + size && log == old(log) + [Chunk(old(pos), size, content)]
      ensures Appends(old(log), old(pos), log, pos)
    {
      log := log + [Chunk(pos, size, content)];
      pos := pos + size;
    }

    method Seek(offset: nat)
      modifies `pos
      ensures pos == offset
    {
      pos := offset;
    }
  }
}
