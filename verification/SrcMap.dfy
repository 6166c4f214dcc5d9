/** The compressed source map (compiler/compiled_method.h, SrcMap). */
module SrcMap {

  newtype uint32 = x: int | 0 <= x < 0x1_0000_0000
  newtype int32 = x: int | -0x8000_0000 <= x < 0x8000_0000

  const INT32_MIN: int32 := -0x8000_0000

  datatype Elem = Elem(from: uint32, to: int32)

  /** operator< on SrcMapElem. */
  predicate Less(a: Elem, b: Elem) {
    if a.from != b.from then a.from < b.from else a.to < b.to
  }

  /** Plain lookup: the last entry whose address is not above q is in effect. */
  function Naive(s: seq<Elem>, q: uint32): (bool, int32) {
    if s == [] then (false, 0)
    else if s[|s| - 1].from <= q then (true, s[|s| - 1].to)
    else Naive(s[..|s| - 1], q)
  }

  ghost predicate Ascending(s: seq<Elem>) {
    forall i, j :: 0 <= i < j < |s| ==> s[i].from <= s[j].from
  }

  /** What push_back keeps of a list of pushes. */
  function Compress(pushes: seq<Elem>): (s: seq<Elem>)
    ensures pushes != [] ==> s != []
  {
    if pushes == [] then []
    else
      var s := Compress(pushes[..|pushes| - 1]);
      var e := pushes[|pushes| - 1];
      if s != [] && e.to == s[|s| - 1].to then s else s + [e]
  }

  /** Every push satisfied the DCHECK of push_back. */
  ghost predicate Accepted(pushes: seq<Elem>) {
    pushes == [] ||
    var front := pushes[..|pushes| - 1];
    var s := Compress(front);
    Accepted(front) && (s == [] || s[|s| - 1].from <= pushes[|pushes| - 1].from)
  }

  class Map {
    var elems: seq<Elem>

    constructor ()
      ensures elems == Compress([])
    {
      elems := [];
    }

    /** push_back.  Only the address of the last retained entry is checked. */
    method PushBack(e: Elem, ghost pushes: seq<Elem>)
      requires elems == Compress(pushes)
      requires elems != [] ==> elems[|elems| - 1].from <= e.from
      modifies this
      ensures elems == Compress(pushes + [e])
    {
      assert (pushes + [e])[..|pushes|] == pushes;
      if elems != [] && e.to == elems[|elems| - 1].to {
        return;
      }
      elems := elems + [e];
    }

    /** std::lower_bound.  Entries with equal addresses need not be sorted by operator<; the search
        is sound because no entry is below the key's minimal `to`. */
    method LowerBound(key: Elem) returns (lb: nat)
      requires Ascending(elems) && key.to == INT32_MIN
      ensures lb <= |elems|
      ensures forall i :: 0 <= i < lb ==> elems[i].from < key.from
      ensures forall i :: lb <= i < |elems| ==> key.from <= elems[i].from
    {
      lb := 0;
      var count := |elems|;
      while count > 0
        invariant 0 <= lb <= lb + count <= |elems|
        invariant forall i :: 0 <= i < lb ==> elems[i].from < key.from
        invariant forall i :: lb + count <= i < |elems| ==> key.from <= elems[i].from
      {
        var step := count / 2;
        var mid := lb + step;
        if Less(elems[mid], key) {
          lb, count := mid + 1, count - (step + 1);
        } else {
          count := step;
        }
      }
    }

    /** Find: the first entry at exactly `from` if there is one, otherwise the plain lookup. */
    method Find(from: uint32) returns (found: bool, to: int32)
      requires Ascending(elems)
      ensures (found, to) == Lookup(elems, from)
    {
      var lb := LowerBound(Elem(from, INT32_MIN));
      LookupAt(elems, from, lb);
      if lb != |elems| && elems[lb].from == from {
        return true, elems[lb].to;
      } else if lb != 0 {
        return true, elems[lb - 1].to;
      } else {
        return false, 0;
      }
    }
  }

  /** The first entry at q, if any. */
  ghost predicate FirstAt(s: seq<Elem>, q: uint32, i: nat) {
    i < |s| && s[i].from == q && forall k :: 0 <= k < i ==> s[k].from != q
  }

  /** The last entry at q, if any. */
  ghost predicate LastAt(s: seq<Elem>, q: uint32, j: nat) {
    j < |s| && s[j].from == q && forall k :: j < k < |s| ==> s[k].from != q
  }

  /** What Find returns. */
  ghost function Lookup(s: seq<Elem>, q: uint32): (bool, int32) {
    if exists i: nat :: FirstAt(s, q, i) then
      var i: nat :| FirstAt(s, q, i);
      (true, s[i].to)
    else Naive(s, q)
  }

  lemma LookupAt(s: seq<Elem>, q: uint32, lb: nat)
    requires lb <= |s|
    requires forall i :: 0 <= i < lb ==> s[i].from < q
    requires forall i :: lb <= i < |s| ==> q <= s[i].from
    ensures lb < |s| && s[lb].from == q ==> FirstAt(s, q, lb) && Lookup(s, q) == (true, s[lb].to)
    ensures !(lb < |s| && s[lb].from == q) && Ascending(s) ==>
              Lookup(s, q) == if lb == 0 then (false, 0) else (true, s[lb - 1].to)
  {
    if lb < |s| && s[lb].from == q {
      assert FirstAt(s, q, lb);
    } else if Ascending(s) {
      assert forall i :: lb <= i < |s| ==> q < s[i].from;
      NaiveBelow(s, q, lb);
    }
  }

  lemma {:induction false} NaiveBelow(s: seq<Elem>, q: uint32, lb: nat)
    requires lb <= |s|
    requires forall i :: 0 <= i < lb ==> s[i].from <= q
    requires forall i :: lb <= i < |s| ==> q < s[i].from
    ensures Naive(s, q) == if lb == 0 then (false, 0) else (true, s[lb - 1].to)
  {
    if lb == |s| {
    } else {
      NaiveBelow(s[..|s| - 1], q, lb);
    }
  }

  /** The push at which run i of equal targets ends. */
  ghost function RunEnd(starts: seq<nat>, n: nat, i: nat): nat
    requires i < |starts|
  {
    if i + 1 < |starts| then starts[i + 1] else n
  }

  /** Run i begins with entry i of the map, and all of it has the same target. */
  ghost predicate IsRun(pushes: seq<Elem>, s: seq<Elem>, starts: seq<nat>, i: nat)
    requires i < |starts| == |s|
  {
    && starts[i] < RunEnd(starts, |pushes|, i) <= |pushes| && pushes[starts[i]] == s[i]
    && (forall k :: starts[i] <= k < RunEnd(starts, |pushes|, i) ==> pushes[k].to == s[i].to)
    && (i + 1 < |s| ==> s[i].to != s[i + 1].to)
  }

  /** The map keeps exactly the first push of every run of pushes with one target. */
  lemma {:induction false} CompressKeepsRuns(pushes: seq<Elem>) returns (starts: seq<nat>)
    ensures |starts| == |Compress(pushes)| && (pushes != [] ==> |starts| > 0 && starts[0] == 0)
    ensures forall i {:trigger IsRun(pushes, Compress(pushes), starts, i)} :: 0 <= i < |starts| ==>
              IsRun(pushes, Compress(pushes), starts, i)
    decreases |pushes|
  {
    if pushes == [] {
      starts := [];
    } else {
      var n := |pushes| - 1;
      var front := pushes[..n];
      var before := CompressKeepsRuns(front);
      var s := Compress(pushes);
      starts := if |s| == |before| then before else before + [n];
      forall i {:trigger IsRun(pushes, s, starts, i)} | 0 <= i < |starts| ensures IsRun(pushes, s, starts, i) {
        if i < |before| { assert IsRun(front, Compress(front), before, i); }
      }
    }
  }

  /** Dropping the pushes that repeat the value in effect changes no plain lookup. */
  lemma {:induction false} CompressKeepsNaive(pushes: seq<Elem>, q: uint32)
    requires Accepted(pushes)
    ensures Naive(Compress(pushes), q) == Naive(pushes, q)
  {
    if |pushes| == 0 {
    } else {
      var n := |pushes| - 1;
      var front, e := pushes[..n], pushes[n];
      CompressKeepsNaive(front, q);
      var s := Compress(front);
      if s == [] || e.to != s[|s| - 1].to {
        assert (s + [e])[..|s|] == s;
      }
    }
  }

  lemma {:induction false} CompressAscending(pushes: seq<Elem>)
    requires Accepted(pushes)
    ensures Ascending(Compress(pushes))
  {
    if |pushes| == 0 {
    } else {
      var front := pushes[..|pushes| - 1];
      CompressAscending(front);
    }
  }

  /** For every accepted list of pushes and every query, Find on the compressed map gives the plain
      answer on the full list exactly when the first and the last retained entry at the queried
      address carry the same value. */
  lemma FindAgreesIff(pushes: seq<Elem>, q: uint32)
    requires Accepted(pushes)
    ensures Ascending(Compress(pushes))
    ensures var s := Compress(pushes);
            Lookup(s, q) == Naive(pushes, q) <==>
            forall i: nat, j: nat :: FirstAt(s, q, i) && LastAt(s, q, j) ==> s[i].to == s[j].to
  {
    CompressAscending(pushes);
    CompressKeepsNaive(pushes, q);
    SortedAgreesIff(Compress(pushes), q);
  }

  lemma FirstFound(s: seq<Elem>, q: uint32, i: nat)
    requires FirstAt(s, q, i)
    ensures Lookup(s, q) == (true, s[i].to) && forall k: nat :: FirstAt(s, q, k) ==> k == i
  {
  }

  lemma LastFound(s: seq<Elem>, q: uint32, j: nat)
    requires LastAt(s, q, j)
    ensures forall k: nat :: LastAt(s, q, k) ==> k == j
  {
  }

  lemma SortedAgreesIff(s: seq<Elem>, q: uint32)
    requires Ascending(s)
    ensures Lookup(s, q) == Naive(s, q) <==>
            forall i: nat, j: nat :: FirstAt(s, q, i) && LastAt(s, q, j) ==> s[i].to == s[j].to
  {
    if first: nat :| FirstAt(s, q, first) {
      FirstFound(s, q, first);
      var last := FindLast(s, q, first);
      LastFound(s, q, last);
      NaiveBelow(s, q, last + 1);
    }
  }

  lemma FindLast(s: seq<Elem>, q: uint32, i: nat) returns (j: nat)
    requires Ascending(s) && i < |s| && s[i].from == q
    ensures LastAt(s, q, j)
    ensures forall k :: j < k < |s| ==> q < s[k].from
  {
    j := i;
    while j + 1 < |s| && s[j + 1].from == q
      invariant i <= j < |s| && s[j].from == q
    {
      j := j + 1;
    }
  }

  /** Strictly increasing pushes are accepted and never tie, so Find is the plain lookup. */
  lemma FindAgreesOnIncreasing(pushes: seq<Elem>, q: uint32)
    requires forall i, j :: 0 <= i < j < |pushes| ==> pushes[i].from < pushes[j].from
    ensures Accepted(pushes)
    ensures Lookup(Compress(pushes), q) == Naive(pushes, q)
  {
    RetainedIncreases(pushes);
    FindAgreesIff(pushes, q);
  }

  lemma {:induction false} RetainedIncreases(pushes: seq<Elem>)
    requires forall i, j :: 0 <= i < j < |pushes| ==> pushes[i].from < pushes[j].from
    ensures Accepted(pushes)
    ensures var s := Compress(pushes);
            && (forall i, j :: 0 <= i < j < |s| ==> s[i].from < s[j].from)
            && (s != [] ==> s[|s| - 1].from <= pushes[|pushes| - 1].from)
  {
    if |pushes| == 0 {
    } else {
      RetainedIncreases(pushes[..|pushes| - 1]);
    }
  }

  /** push_back accepts two entries at one address; there Find and the plain lookup part ways. */
  lemma TiesDisagree(q: uint32, a: int32, b: int32)
    requires a != b
    ensures var pushes := [Elem(q, a), Elem(q, b)];
            Accepted(pushes) && Lookup(Compress(pushes), q) == (true, a) && Naive(pushes, q) == (true, b)
  {
    var pushes := [Elem(q, a), Elem(q, b)];
    assert pushes[..1] == [Elem(q, a)];
    assert Compress([Elem(q, a)]) == [Elem(q, a)];
    assert Compress(pushes) == pushes;
    assert FirstAt(pushes, q, 0);
  }
}
