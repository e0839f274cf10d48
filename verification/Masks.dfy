/** The two packed words of the wallet: 32 byte counters in one uint256, and 32 flags in one uint32. */
module Masks {
  import opened Bytes

  // ---- byte counters ----

  /** `mask >> (8 * index)`. */
  function Shr8(mask: int, index: nat): int
    decreases index
  {
    if index == 0 then mask else Shr8(mask / 256, index - 1)
  }

  function GetMaskValue(mask: int, index: nat): nat { Shr8(mask, index) % 256 }

  /** Adds `1 << (8 * index)`. */
  function IncMaskValue(mask: int, index: nat): int { mask + Pow256(index) }

  /** Subtracts `1 << (8 * index)`. */
  function DecMaskValue(mask: int, index: nat): int { mask - Pow256(index) }

  /** Byte `index` of the word. */
  lemma {:induction false} MaskByte(mask: nat, index: nat)
    ensures GetMaskValue(mask, index) == mask / Pow256(index) % 256
    decreases index
  {
    if index == 0 {
    } else {
      MaskByte(mask / 256, index - 1);
      DivideByte(mask, Pow256(index - 1));
    }
  }

  /** The bytes of a word are its lowest one and those of the word above. */
  lemma BytesAbove(mask: int, index: nat)
    ensures GetMaskValue(mask, index) == if index == 0 then mask % 256 else GetMaskValue(mask / 256, index - 1)
  {
  }

  lemma AddAbove(mask: int, p: int)
    ensures (mask + 256 * p) / 256 == mask / 256 + p && (mask + 256 * p) % 256 == mask % 256
  {
  }

  lemma PowerAbove(i: nat)
    requires i > 0
    ensures Pow256(i) == 256 * Pow256(i - 1)
  {
  }

  /** Counting up one byte below 255 carries into no other byte and stays within the word. */
  lemma {:induction false} IncActsOnOneByte(mask: nat, i: nat, j: nat, width: nat)
    requires GetMaskValue(mask, i) < 255 && i < width && mask < Pow256(width)
    ensures GetMaskValue(IncMaskValue(mask, i), j) == GetMaskValue(mask, j) + if i == j then 1 else 0
    ensures IncMaskValue(mask, i) < Pow256(width)
    decreases i
  {
    hide GetMaskValue, Pow256;
    PowerAbove(width);
    BytesAbove(mask, i);
    BytesAbove(mask, j);
    BytesAbove(IncMaskValue(mask, i), j);
    if i == 0 {
      PowerOfZero();
      assert (mask + 1) / 256 == mask / 256;
    } else {
      PowerAbove(i);
      AddAbove(mask, Pow256(i - 1));
      IncActsOnOneByte(mask / 256, i - 1, if j == 0 then 0 else j - 1, width - 1);
    }
  }

  lemma PowerOfZero()
    ensures Pow256(0) == 1
  {
  }

  /** Counting down a byte above 0 borrows from no other byte, and the word does not underflow. */
  lemma {:induction false} DecActsOnOneByte(mask: nat, i: nat, j: nat)
    requires GetMaskValue(mask, i) > 0
    ensures Pow256(i) <= mask
    ensures GetMaskValue(DecMaskValue(mask, i), j) == GetMaskValue(mask, j) - if i == j then 1 else 0
    decreases i
  {
    hide GetMaskValue, Pow256;
    BytesAbove(mask, i);
    BytesAbove(mask, j);
    BytesAbove(DecMaskValue(mask, i), j);
    if i == 0 {
      PowerOfZero();
      assert (mask - 1) / 256 == mask / 256;
    } else {
      PowerAbove(i);
      AddAbove(DecMaskValue(mask, i), Pow256(i - 1));
      DecActsOnOneByte(mask / 256, i - 1, if j == 0 then 0 else j - 1);
    }
  }

  lemma {:induction false} ZeroMask(i: nat)
    ensures GetMaskValue(0, i) == 0
  {
    if i == 0 {
    } else {
      ZeroMask(i - 1);
    }
  }

  // ---- confirmation flags ----

  function Bit(index: nat): bv32
    requires index < 32
  {
    (1 as bv32) << index
  }

  predicate CheckBit(mask: bv32, index: nat)
    requires index < 32
  {
    mask & Bit(index) != 0
  }

  function SetConfirmed(mask: bv32, index: nat): bv32
    requires index < 32
  {
    mask | Bit(index)
  }

  /** The custodians whose flag is set. */
  ghost function Members(mask: bv32): set<nat> { set i: nat | i < 32 && CheckBit(mask, i) }

  lemma NoMembers()
    ensures Members(0) == {}
  {
  }

  lemma FlagsAreIndependent(mask: bv32, index: nat, j: nat)
    requires index < 32 && j < 32
    ensures ((mask | Bit(index)) & Bit(j) != 0) <==> (index == j || mask & Bit(j) != 0)
  {
  }

  lemma OneFlag(mask: bv32, index: nat, j: nat)
    requires index < 32 && j < 32
    ensures CheckBit(SetConfirmed(mask, index), j) <==> (index == j || CheckBit(mask, j))
  {
    FlagsAreIndependent(mask, index, j);
  }

  lemma SetOneFlag(mask: bv32, index: nat)
    requires index < 32
    ensures Members(SetConfirmed(mask, index)) == Members(mask) + {index}
  {
    forall j: nat | j < 32 ensures CheckBit(SetConfirmed(mask, index), j) == (j == index || CheckBit(mask, j)) {
      OneFlag(mask, index, j);
    }
    hide CheckBit, SetConfirmed;
  }
}
