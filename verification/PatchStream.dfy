/** Linker patches and their delta-encoded location list
    (compiler/compiled_method.h LinkerPatch, compiler/elf_builder.h EncodeOatPatches, runtime/leb128.h). */
module PatchStream {
  import opened Alignment

  type byte = x: int | 0 <= x < 256

  datatype PatchType =
    RecordPosition | Method | Call | CallRelative | Type | String | StringRelative | DexCacheArray

  function Ordinal(t: PatchType): nat {
    match t
    case RecordPosition => 0
    case Method => 1
    case Call => 2
    case CallRelative => 3
    case Type => 4
    case String => 5
    case StringRelative => 6
    case DexCacheArray => 7
  }

  /** cmp1 and cmp2 are the two unions the relational operators compare; dexFile is a pointer value. */
  datatype LinkerPatch = LinkerPatch(literalOffset: nat, patchType: PatchType, dexFile: nat, cmp1: nat, cmp2: nat)

  predicate IsPcRelative(p: LinkerPatch) {
    p.patchType in {CallRelative, StringRelative, DexCacheArray}
  }

  /** operator< on LinkerPatch. */
  predicate Less(a: LinkerPatch, b: LinkerPatch) {
    if a.literalOffset != b.literalOffset then a.literalOffset < b.literalOffset
    else if a.patchType != b.patchType then Ordinal(a.patchType) < Ordinal(b.patchType)
    else if a.dexFile != b.dexFile then a.dexFile < b.dexFile
    else if a.cmp1 != b.cmp1 then a.cmp1 < b.cmp1
    else a.cmp2 < b.cmp2
  }

  /** operator< is a strict total order whose equivalence is operator==. */
  lemma LessIsStrictTotalOrder(a: LinkerPatch, b: LinkerPatch, c: LinkerPatch)
    ensures !(Less(a, b) && Less(b, a))
    ensures Less(a, b) && Less(b, c) ==> Less(a, c)
    ensures !Less(a, b) && !Less(b, a) <==> a == b
    ensures Ordinal(RecordPosition) < Ordinal(Method) < Ordinal(Call) < Ordinal(CallRelative) < Ordinal(Type)
    ensures Ordinal(Type) < Ordinal(String) < Ordinal(StringRelative) < Ordinal(DexCacheArray)
  {
    assert Ordinal(a.patchType) == Ordinal(b.patchType) ==> a.patchType == b.patchType;
  }

  ghost predicate SortedPatches(ps: seq<LinkerPatch>) {
    forall i, j :: 0 <= i < j < |ps| ==> !Less(ps[j], ps[i])
  }

  /** Unsigned LEB128 as section 7.6 of DWARF version 4 defines it. */
  function Uleb128(v: nat): (bytes: seq<byte>)
    ensures |bytes| >= 1
  {
    if v < 128 then [v] else [v % 128 + 128] + Uleb128(v / 128)
  }

  lemma NextDigit(value: nat, digit: nat)
    requires value != 0 && digit < 128
    ensures Uleb128(value * 128 + digit) == [digit + 128] + Uleb128(value)
    ensures value == value / 128 * 128 + value % 128
  {
    assert (value * 128 + digit) / 128 == value && (value * 128 + digit) % 128 == digit;
  }

  lemma Regroup(buffer: seq<byte>, digits: seq<byte>, r: seq<byte>, digit: byte, rest: seq<byte>)
    requires buffer + digits == r + ([digit] + rest)
    ensures buffer + digits == (r + [digit]) + rest
  {
  }

  /** EncodeUnsignedLeb128: the loop holds one byte back until it knows whether more follow. */
  method EncodeUnsignedLeb128(buffer: seq<byte>, v: nat) returns (r: seq<byte>)
    requires v < TWO_32
    ensures r == buffer + Uleb128(v)
  {
    r := buffer;
    var out: byte := v % 128;
    var value := v / 128;
    while value != 0
      invariant 0 <= value && out < 128
      invariant buffer + Uleb128(v) == r + Uleb128(value * 128 + out)
    {
      NextDigit(value, out);
      Regroup(buffer, Uleb128(v), r, out + 128, Uleb128(value));
      r := r + [out + 128];
      out := value % 128;
      value := value / 128;
    }
    r := r + [out];
  }

  /** The encoding of v starts at pos. */
  ghost predicate EncodedAt(data: seq<byte>, pos: nat, v: nat) {
    pos + |Uleb128(v)| <= |data| && data[pos..pos + |Uleb128(v)|] == Uleb128(v)
  }

  /** One step of reading: the low seven bits, and the rest of the value if the high bit is set. */
  lemma FirstDigit(data: seq<byte>, pos: nat, v: nat) returns (digit: nat, rest: nat)
    requires EncodedAt(data, pos, v)
    ensures v == digit + 128 * rest && digit < 128 && pos < |data|
    ensures data[pos] % 128 == digit && (data[pos] > 0x7f <==> rest != 0)
    ensures if rest == 0 then |Uleb128(v)| == 1
            else EncodedAt(data, pos + 1, rest) && |Uleb128(v)| == 1 + |Uleb128(rest)|
  {
    digit, rest := v % 128, v / 128;
    var u := data[pos..pos + |Uleb128(v)|];
    assert data[pos] == u[0];
    if v >= 128 {
      assert data[pos + 1..pos + |u|] == u[1..] == Uleb128(v / 128);
    }
  }

  /** DecodeUnsignedLeb128: five unrolled steps in 32-bit arithmetic.  Reading is unchecked in the
      code, so the caller vouches that an encoded value `v` starts at `pos`. */
  method DecodeUnsignedLeb128(data: seq<byte>, pos: nat, ghost v: nat) returns (result: int, next: nat)
    requires v < TWO_32 && EncodedAt(data, pos, v)
    ensures result == v && next == pos + |Uleb128(v)|
  {
    ghost var d0, v1 := FirstDigit(data, pos, v);
    next := pos;
    result := data[next];
    next := next + 1;
    if result > 0x7f {
      ghost var d1, v2 := FirstDigit(data, next, v1);
      var cur: int := data[next];
      next := next + 1;
      result := result % 128 + cur % 128 * 0x80;
      if cur > 0x7f {
        ghost var d2, v3 := FirstDigit(data, next, v2);
        cur := data[next];
        next := next + 1;
        result := result + cur % 128 * 0x4000;
        if cur > 0x7f {
          ghost var d3, v4 := FirstDigit(data, next, v3);
          cur := data[next];
          next := next + 1;
          result := result + cur % 128 * 0x20_0000;
          if cur > 0x7f {
            ghost var d4, v5 := FirstDigit(data, next, v4);
            cur := data[next];
            next := next + 1;
            assert v4 < 16 && v5 == 0 && cur == v4;
            result := (result + cur * 0x1000_0000) % TWO_32;
          }
        }
      }
    }
  }

  /** Locations that the encoder accepts: ascending from `from`, each step fitting 32 bits. */
  ghost predicate Encodable(from: nat, locations: seq<nat>)
    decreases |locations|
  {
    locations == [] || (0 <= locations[0] - from < TWO_32 && Encodable(locations[0], locations[1..]))
  }

  /** The byte stream of the steps between consecutive locations. */
  ghost function Stream(from: nat, locations: seq<nat>): seq<byte>
    requires Encodable(from, locations)
    decreases |locations|
  {
    if locations == [] then [] else Uleb128(locations[0] - from) + Stream(locations[0], locations[1..])
  }

  /** Ascending 32-bit locations can be encoded. */
  lemma {:induction false} AscendingIsEncodable(from: nat, locations: seq<nat>)
    requires forall i, j :: 0 <= i < j < |locations| ==> locations[i] <= locations[j]
    requires forall i :: 0 <= i < |locations| ==> from <= locations[i] < TWO_32
    ensures Encodable(from, locations)
    decreases |locations|
  {
    if locations == [] {
    } else {
      AscendingIsEncodable(locations[0], locations[1..]);
    }
  }

  /** EncodeOatPatches. */
  method EncodeOatPatches(locations: seq<nat>, buffer: seq<byte>) returns (r: seq<byte>)
    requires Encodable(0, locations)
    ensures r == buffer + Stream(0, locations)
  {
    r := buffer;
    var address := 0;
    for i := 0 to |locations|
      invariant address == if i == 0 then 0 else locations[i - 1]
      invariant Encodable(address, locations[i..])
      invariant r + Stream(address, locations[i..]) == buffer + Stream(0, locations)
    {
      ghost var rest := locations[i..];
      assert rest[1..] == locations[i + 1..];
      var location := locations[i];
      assert location == rest[0];
      assert Stream(address, rest) == Uleb128(location - address) + Stream(location, rest[1..]);
      ghost var before := r;
      r := EncodeUnsignedLeb128(r, location - address);
      assert before + (Uleb128(location - address) + Stream(location, rest[1..])) == r + Stream(location, rest[1..]);
      address := location;
    }
    assert locations[|locations|..] == [];
  }

  /** ApplyOatPatches (runtime/elf_file.cc): the addresses the loader patches are the ones recorded. */
  method DecodeOatPatches(data: seq<byte>, ghost locations: seq<nat>) returns (addresses: seq<nat>)
    requires Encodable(0, locations) && data == Stream(0, locations)
    ensures addresses == locations
  {
    addresses := [];
    var toPatch, pos := 0, 0;
    while pos < |data|
      invariant pos <= |data| && |addresses| <= |locations|
      invariant addresses == locations[..|addresses|]
      invariant toPatch == if |addresses| == 0 then 0 else locations[|addresses| - 1]
      invariant Encodable(toPatch, locations[|addresses|..])
      invariant data[pos..] == Stream(toPatch, locations[|addresses|..])
      decreases |data| - pos
    {
      ghost var rest := locations[|addresses|..];
      ghost var step := rest[0] - toPatch;
      ghost var tail := data[pos..];
      assert tail == Uleb128(step) + Stream(rest[0], rest[1..]);
      assert tail[..|Uleb128(step)|] == Uleb128(step);
      assert data[pos..pos + |Uleb128(step)|] == tail[..|Uleb128(step)|];
      var delta: int;
      delta, pos := DecodeUnsignedLeb128(data, pos, step);
      assert data[pos..] == tail[|Uleb128(step)|..] == Stream(rest[0], rest[1..]);
      toPatch := toPatch + delta;
      assert rest[1..] == locations[|addresses| + 1..];
      addresses := addresses + [toPatch];
    }
  }
}
