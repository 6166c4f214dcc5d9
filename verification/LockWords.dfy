/** Lock words during image writing (compiler/image_writer.cc SetImageBinSlot, AssignImageOffset, CopyAndFixupObjects
    and BinSlot; runtime/lock_word.h).

    The 32-bit lock word of an object first holds its bin slot, then its image offset, both as forwarding addresses. */
module LockWords {
  import opened Alignment
  import opened ImageBins

  const TWO_27: nat := 0x800_0000
  const TWO_28: nat := 0x1000_0000
  const TWO_30: nat := 0x4000_0000

  /** Bitwise or of three-bit numbers. */
  function Or3(a: nat, b: nat): nat
    requires a < 8 && b < 8
  {
    (if a % 2 == 1 || b % 2 == 1 then 1 else 0) +
    (if a / 2 % 2 == 1 || b / 2 % 2 == 1 then 2 else 0) +
    (if a / 4 == 1 || b / 4 == 1 then 4 else 0)
  }

  /** BinSlot(bin, index): index | bin << 27. */
  function BinSlot(bin: nat, index: nat): nat
    requires bin < 8
  {
    index / TWO_30 * TWO_30 + Or3(index / TWO_27 % 8, bin) * TWO_27 + index % TWO_27
  }

  function GetBin(slot: nat): (bin: nat)
    ensures bin < 8
  {
    slot / TWO_27 % 8
  }

  function GetIndex(slot: nat): nat { slot - GetBin(slot) * TWO_27 }

  /** LockWord::FromForwardingAddress: the two lowest bits make room for the state. */
  function Forward(target: nat): nat
    requires target < TWO_32
  {
    target / 4 + 3 * TWO_30
  }

  function ForwardingAddress(word: nat): nat { word * 4 % TWO_32 }

  function ReadBarrierState(word: nat): nat { word / TWO_28 % 4 }

  datatype State = Unlocked | ThinLocked | FatLocked | HashCode | Forwarded

  /** LockWord::GetState, without read barriers. */
  function GetState(word: nat): State {
    if word == 0 then Unlocked
    else match word / TWO_30
         case 0 => ThinLocked
         case 1 => FatLocked
         case 2 => HashCode
         case _ => Forwarded
  }

  /** LockWord::FromHashCode with a clear read barrier state. */
  function FromHashCode(hash: nat): nat { 2 * TWO_30 + hash }

  function GetHashCode(word: nat): nat { word % TWO_28 }

  lemma Or3Same(a: nat, b: nat)
    requires a < 8 && b < 8
    ensures Or3(a, b) < 8 && (a == 0 ==> Or3(a, b) == b)
  {
  }

  /** It is the or of the bits. */
  lemma Or3IsOr(a: nat, b: nat)
    requires a < 8 && b < 8
    ensures Or3(a, b) == ((a as bv3) | (b as bv3)) as nat
  {
    var x, y := a as bv3, b as bv3;
    assert x as nat == a && y as nat == b;
  }

  /** The fields of a 32-bit word. */
  lemma Fields(high: nat, middle: nat, low: nat)
    requires high < 4 && middle < 8 && low < TWO_27
    ensures var x := high * TWO_30 + middle * TWO_27 + low;
            x < TWO_32 && x / TWO_30 == high && x / TWO_27 % 8 == middle && x % TWO_27 == low
  {
    var x := high * TWO_30 + middle * TWO_27 + low;
    assert x / TWO_27 == high * 8 + middle;
  }

  lemma SplitFields(x: nat)
    requires x < TWO_32
    ensures x == x / TWO_30 * TWO_30 + (x / TWO_27 % 8) * TWO_27 + x % TWO_27 && x / TWO_30 < 4
  {
    assert x / TWO_27 / 8 == x / TWO_30;
  }

  /** A bin slot is its index, with the bits of the bin or-ed into bits 27 to 29. */
  lemma SlotBits(bin: nat, index: nat)
    requires bin < 8 && index < TWO_32
    ensures var slot := BinSlot(bin, index);
            && slot / TWO_30 == index / TWO_30 && slot % TWO_27 == index % TWO_27
            && slot / TWO_27 % 8 == (((index / TWO_27 % 8) as bv3) | (bin as bv3)) as nat
  {
    SplitFields(index);
    Or3Same(index / TWO_27 % 8, bin);
    Fields(index / TWO_30, Or3(index / TWO_27 % 8, bin), index % TWO_27);
    Or3IsOr(index / TWO_27 % 8, bin);
  }

  /** The states of the words that the runtime makes: a default word, a thin lock with its owner and count, a fat lock
      with its monitor, and a hash code. */
  lemma StatesOfWords(x: nat)
    requires x < TWO_28
    ensures GetState(0) == Unlocked && (x != 0 ==> GetState(x) == ThinLocked)
    ensures GetState(TWO_30 + x) == FatLocked
    ensures GetState(FromHashCode(x)) == HashCode && GetHashCode(FromHashCode(x)) == x
  {
    assert (2 * TWO_30 + x) % TWO_28 == x;
  }

  /** An address aligned to four bytes survives forwarding; its two highest bits become the read barrier state. */
  lemma ForwardSurvives(target: nat)
    requires target < TWO_32 && target % 4 == 0
    ensures var word := Forward(target);
            && ForwardingAddress(word) == target && GetState(word) == Forwarded
            && ReadBarrierState(word) == target / TWO_30
  {
    var word := Forward(target);
    assert word * 4 == target + 3 * TWO_32;
    assert word / TWO_28 == target / TWO_30 + 12;
  }

  /** A bin slot decodes to what went into it, with clear read barrier bits, exactly if its index is below 2^27. */
  lemma BinSlotSurvivesIff(bin: nat, index: nat)
    requires bin < MIRROR_BINS && index < TWO_32 && index % 8 == 0
    ensures BinSlot(bin, index) < TWO_32
    ensures var word := Forward(BinSlot(bin, index));
            && ReadBarrierState(word) == 0
            && GetBin(ForwardingAddress(word)) == bin && GetIndex(ForwardingAddress(word)) == index
            <==> index < TWO_27
  {
    SplitFields(index);
    var high, middle, low := index / TWO_30, index / TWO_27 % 8, index % TWO_27;
    Or3Same(middle, bin);
    Fields(high, Or3(middle, bin), low);
    SlotAligned(high, Or3(middle, bin), low, index, middle);
    ForwardSurvives(BinSlot(bin, index));
  }

  lemma SlotAligned(high: nat, middle: nat, low: nat, index: nat, m: nat)
    requires index == high * TWO_30 + m * TWO_27 + low && index % 8 == 0
    ensures (high * TWO_30 + middle * TWO_27 + low) % 4 == 0
  {
    assert low == index - 4 * (high * 0x1000_0000 + m * 0x200_0000);
  }
}
