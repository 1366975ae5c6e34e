/** The bit-mask test behind the A2DP offload configuration checks. */
module SupportedCodecs {
  import opened Bits

  type Uint32 = x: int | 0 <= x < 0x1_0000_0000

  const TOP_BIT: Uint32 := 0x8000_0000

  ghost predicate Common(bitmasks: Uint32, bitfield: Uint32, i: nat) {
    i < 32 && Bit(bitmasks, i) && Bit(bitfield, i)
  }

  ghost predicate ExactlyOneCommon(bitmasks: Uint32, bitfield: Uint32) {
    exists i: nat :: Common(bitmasks, bitfield, i)
                     && forall j: nat :: Common(bitmasks, bitfield, j) ==> j == i
  }

  /** `v & testBit`, for a test bit that is a power of two. */
  predicate Masks(v: Uint32, testBit: Uint32)
    requires testBit > 0
  {
    (v / testBit) % 2 == 1
  }

  lemma {:induction false} PowersGrow(i: nat, j: nat)
    requires i < j
    ensures Pow2(i) < Pow2(j)
    decreases j
  {
    if i < j - 1 {
      PowersGrow(i, j - 1);
    }
  }

  lemma TopBitIsLast(i: nat)
    requires i < 32
    ensures Pow2(i) == TOP_BIT <==> i == 31
    ensures i < 31 ==> Pow2(i) < TOP_BIT
  {
    assert Pow2(8) == 256 && Pow2(16) == 65536 by {
      assert Pow2(4) == 16;
      assert Pow2(12) == 4096;
    }
    assert Pow2(20) == 0x10_0000;
    assert Pow2(24) == 0x100_0000;
    assert Pow2(28) == 0x1000_0000;
    assert Pow2(31) == TOP_BIT;
    if i < 31 {
      PowersGrow(i, 31);
    }
  }

  lemma ProbeTooLarge(bitmasks: Uint32, bitfield: Uint32, i: nat, j: nat)
    requires Common(bitmasks, bitfield, j)
    requires !(Pow2(i) <= bitmasks && Pow2(i) <= bitfield)
    ensures j < i
  {
    if i <= j {
      if bitmasks < Pow2(i) {
        HighBitsClear(bitmasks, i, j);
      } else {
        HighBitsClear(bitfield, i, j);
      }
    }
  }

  /** The loop gives up once the probe exceeds either operand, yet decides the whole conjunction. */
  method IsSingleBit(bitmasks: Uint32, bitfield: Uint32) returns (single: bool)
    ensures single <==> ExactlyOneCommon(bitmasks, bitfield)
  {
    single := false;
    var testBit: Uint32 := 1;
    ghost var i: nat := 0;
    ghost var found: nat := 0;
    while testBit <= bitmasks && testBit <= bitfield
      invariant i < 32 && testBit == Pow2(i)
      invariant single ==> found < i && Common(bitmasks, bitfield, found)
      invariant forall j: nat | j < i && Common(bitmasks, bitfield, j) :: single && j == found
      decreases 32 - i
    {
      BitIsShifted(bitmasks, i);
      BitIsShifted(bitfield, i);
      if Masks(bitfield, testBit) && Masks(bitmasks, testBit) {
        assert Common(bitmasks, bitfield, i);
        if single {
          return false;
        }
        single, found := true, i;
      }
      if testBit == TOP_BIT {
        TopBitIsLast(i);
        return;
      }
      TopBitIsLast(i);
      testBit, i := testBit * 2, i + 1;
    }
    forall j: nat | Common(bitmasks, bitfield, j) ensures j < i {
      ProbeTooLarge(bitmasks, bitfield, i, j);
    }
  }
}
