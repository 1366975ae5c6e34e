/** SBC capability negotiation (A2DP section 4.3) and the bitrate formulas of A2DP section 12.9. */
module A2dpSbc {
  import opened Bits
  import opened A2dpBits
  import opened A2dpCodec

  const SAMPLING_FREQUENCY := Range(0, 4)
  const CHANNEL_MODE := Range(4, 4)
  const BLOCK_LENGTH := Range(8, 4)
  const SUBBANDS := Range(12, 2)
  const ALLOCATION_METHOD := Range(14, 2)
  const MINIMUM_BITPOOL := Range(16, 8)
  const MAXIMUM_BITPOOL := Range(24, 8)
  const CAPABILITIES_SIZE := 4
  const CAPABILITIES_BITS := 32

  const FREQUENCY_16000 := 0
  const FREQUENCY_32000 := 1
  const FREQUENCY_44100 := 2
  const FREQUENCY_48000 := 3
  const MODE_MONO := 4
  const MODE_DUAL_CHANNEL := 5
  const MODE_STEREO := 6
  const MODE_JOINT_STEREO := 7
  const BLOCKS_4 := 8
  const BLOCKS_8 := 9
  const BLOCKS_12 := 10
  const BLOCKS_16 := 11
  const SUBBANDS_8 := 12
  const SUBBANDS_4 := 13
  const ALLOCATION_SNR := 14
  const ALLOCATION_LOUDNESS := 15

  const BITDEPTH := 16

  datatype AllocationMethod = SNR | LOUDNESS

  datatype SbcParameters = SbcParameters(
    allocationMethod: AllocationMethod, blockLength: int, subbands: int, minBitpool: int, maxBitpool: int)

  // ---------- Conversions ----------

  function SamplingFrequencyBit(hz: int): int {
    match hz
    case 16000 => FREQUENCY_16000
    case 32000 => FREQUENCY_32000
    case 44100 => FREQUENCY_44100
    case 48000 => FREQUENCY_48000
    case _ => -1
  }

  function SamplingFrequencyValue(bit: int): int {
    if bit == FREQUENCY_16000 then 16000
    else if bit == FREQUENCY_32000 then 32000
    else if bit == FREQUENCY_44100 then 44100
    else if bit == FREQUENCY_48000 then 48000
    else 0
  }

  /** STEREO ors the two stereo bit numbers together: 7 | 6 is the joint-stereo bit. */
  function ChannelModeBit(mode: ChannelMode): int {
    match mode
    case STEREO => MODE_JOINT_STEREO
    case DUALMONO => MODE_DUAL_CHANNEL
    case MONO => MODE_MONO
    case UNKNOWN => -1
  }

  function ChannelModeOf(bit: int): ChannelMode {
    if bit == MODE_MONO then MONO
    else if bit == MODE_DUAL_CHANNEL then DUALMONO
    else if bit == MODE_STEREO || bit == MODE_JOINT_STEREO then STEREO
    else UNKNOWN
  }

  function BlockLengthValue(bit: int): int {
    if bit == BLOCKS_4 then 4
    else if bit == BLOCKS_8 then 8
    else if bit == BLOCKS_12 then 12
    else if bit == BLOCKS_16 then 16
    else 0
  }

  function SubbandsValue(bit: int): int {
    if bit == SUBBANDS_4 then 4 else if bit == SUBBANDS_8 then 8 else 0
  }

  function AllocationMethodOf(bit: int): AllocationMethod {
    if bit == ALLOCATION_SNR then SNR else LOUDNESS
  }

  // ---------- Frame length and bitrate, A2DP section 12.9 ----------

  /** The coding shape of a configuration: what the bitrate depends on besides the bitpool. */
  datatype Shape = Shape(frequency: int, mode: int, blocks: int, subbands: int) {
    predicate Valid() {
      && frequency in {16000, 32000, 44100, 48000}
      && MODE_MONO <= mode <= MODE_JOINT_STEREO
      && blocks in {4, 8, 12, 16}
      && subbands in {4, 8}
    }
  }

  function CeilingOfEighth(n: nat): nat {
    if n % 8 == 0 then n / 8 else n / 8 + 1
  }

  lemma ProductOfNats(x: nat, y: nat)
    ensures x * y >= 0
  {
  }

  /** The bits that the specification rounds up: they scale with the bitpool. */
  function ScaledBits(h: Shape, bitpool: nat): nat
    requires h.Valid()
  {
    var channels := if h.mode == MODE_MONO then 1 else 2;
    var join := if h.mode == MODE_JOINT_STEREO then 1 else 0;
    ProductOfNats(h.blocks * channels, bitpool);
    ProductOfNats(h.blocks, bitpool);
    if h.mode == MODE_MONO || h.mode == MODE_DUAL_CHANNEL then h.blocks * channels * bitpool
    else join * h.subbands + h.blocks * bitpool
  }

  function FrameLength(h: Shape, bitpool: nat): nat
    requires h.Valid()
  {
    4 + (4 * h.subbands * (if h.mode == MODE_MONO then 1 else 2)) / 8 + CeilingOfEighth(ScaledBits(h, bitpool))
  }

  lemma BlockSamples(h: Shape)
    requires h.Valid()
    ensures 16 <= h.blocks * h.subbands <= 128
  {
  }

  function Bitrate(h: Shape, bitpool: nat): nat
    requires h.Valid()
  {
    BlockSamples(h);
    ProductOfNats(8 * FrameLength(h, bitpool), h.frequency);
    var samples := h.blocks * h.subbands;
    var bits := 8 * FrameLength(h, bitpool) * h.frequency;
    QuotientMonotone(0, bits, samples);
    bits / samples
  }

  lemma QuotientBounds(n: int, d: nat)
    requires d > 0
    ensures n / d * d <= n < (n / d + 1) * d
  {
    var q := n / d;
    assert n == q * d + n % d;
    assert (q + 1) * d == q * d + d;
  }

  /** The bitrate is the bits of a frame times the frames in a second, rounded down. */
  lemma BitrateIsQuotient(h: Shape, bitpool: nat)
    requires h.Valid()
    ensures Bitrate(h, bitpool) * (h.blocks * h.subbands) <= 8 * FrameLength(h, bitpool) * h.frequency
          < (Bitrate(h, bitpool) + 1) * (h.blocks * h.subbands)
  {
    BlockSamples(h);
    QuotientBounds(8 * FrameLength(h, bitpool) * h.frequency, h.blocks * h.subbands);
  }

  lemma ProductMonotone(x: nat, p: nat, q: nat)
    requires p <= q
    ensures x * p <= x * q
  {
    ProductOfNats(x, q - p);
    assert x * (q - p) == x * q - x * p;
  }

  lemma FrameLengthMonotone(h: Shape, p: nat, q: nat)
    requires h.Valid() && p <= q
    ensures FrameLength(h, p) <= FrameLength(h, q)
  {
    ProductMonotone(h.blocks, p, q);
    ProductMonotone(h.blocks * 2, p, q);
    assert ScaledBits(h, p) <= ScaledBits(h, q);
  }

  lemma BitrateMonotone(h: Shape, p: nat, q: nat)
    requires h.Valid() && p <= q
    ensures Bitrate(h, p) <= Bitrate(h, q)
  {
    FrameLengthMonotone(h, p, q);
    ProductMonotone(h.frequency, 8 * FrameLength(h, p), 8 * FrameLength(h, q));
    BlockSamples(h);
    QuotientMonotone(8 * FrameLength(h, p) * h.frequency, 8 * FrameLength(h, q) * h.frequency, h.blocks * h.subbands);
  }

  lemma DoubleProduct(x: nat, y: nat)
    ensures x * 2 * y == (x * y) * 2
  {
  }

  /** The source's shifted sum spells the scaled bits. */
  lemma ScaledBitsFromSum(h: Shape, bitpool: nat)
    requires h.Valid()
    ensures ScaledBits(h, bitpool)
         == (h.blocks * bitpool) * (if h.mode == MODE_DUAL_CHANNEL then 2 else 1)
            + (if h.mode == MODE_JOINT_STEREO then h.subbands else 0)
  {
    if h.mode == MODE_DUAL_CHANNEL {
      DoubleProduct(h.blocks, bitpool);
    }
  }

  lemma FrameLengthBounded(h: Shape, bitpool: nat)
    requires h.Valid() && bitpool <= 255
    ensures FrameLength(h, bitpool) <= 1032
  {
    ScaledBitsFromSum(h, bitpool);
    ProductMonotone(h.blocks, bitpool, 255);
    assert ScaledBits(h, bitpool) <= 8160;
  }

  lemma QuotientAtMost(n: nat, d: nat)
    requires d > 0
    ensures n / d <= n
  {
    var q := n / d;
    ProductMonotone(q, 1, d);
    assert q * 1 <= q * d <= n;
  }

  /** Every intermediate of the bitrate computation fits a 32-bit int. */
  lemma BitrateFits(h: Shape, bitpool: nat)
    requires h.Valid() && bitpool <= 255
    ensures 8 * FrameLength(h, bitpool) * h.frequency < 0x8000_0000
    ensures Bitrate(h, bitpool) < 0x8000_0000
  {
    FrameLengthBounded(h, bitpool);
    var bits := 8 * FrameLength(h, bitpool);
    ProductMonotone(h.frequency, bits, 8256);
    assert h.frequency * 8256 <= 48000 * 8256;
    assert h.frequency * bits == bits * h.frequency;
    BlockSamples(h);
    QuotientAtMost(bits * h.frequency, h.blocks * h.subbands);
  }

  /** The bitrates of a shape, bitpool by bitpool. */
  ghost function Rates(h: Shape): nat -> nat
    requires h.Valid()
  {
    (bitpool: nat) => Bitrate(h, bitpool)
  }

  /** The largest bitpool up to `limit` whose rate stays strictly below the request; 0 if none does. */
  ghost function LargestBelow(rates: nat -> nat, request: int, limit: nat): (p: nat)
    ensures p <= limit
  {
    if limit == 0 || rates(limit) < request then limit
    else LargestBelow(rates, request, limit - 1)
  }

  lemma {:induction false} LargestBelowIsLargest(rates: nat -> nat, request: int, limit: nat)
    ensures var p := LargestBelow(rates, request, limit);
            && (p == 0 || rates(p) < request)
            && forall q: nat | p < q <= limit :: rates(q) >= request
  {
    if limit > 0 && rates(limit) >= request {
      LargestBelowIsLargest(rates, request, limit - 1);
    }
  }

  lemma LargestBelowUnique(rates: nat -> nat, request: int, limit: nat, p: nat)
    requires p <= limit && (p == 0 || rates(p) < request)
    requires forall q: nat | p < q <= limit :: rates(q) >= request
    ensures p == LargestBelow(rates, request, limit)
  {
    LargestBelowIsLargest(rates, request, limit);
  }

  function Clamp(p: int): (c: nat)
    ensures 2 <= c <= 250
  {
    if p < 2 then 2 else if p > 250 then 250 else p
  }

  ghost function BitpoolFor(h: Shape, request: int): (c: nat)
    requires h.Valid()
    ensures 2 <= c <= 250
  {
    Clamp(LargestBelow(Rates(h), request, 255))
  }

  /** Within 2..250 it is the largest bitpool whose bitrate stays strictly below the request. */
  lemma BitpoolIsLargest(h: Shape, request: int)
    requires h.Valid()
    ensures BitpoolFor(h, request) > 2 ==> Bitrate(h, BitpoolFor(h, request)) < request
    ensures BitpoolFor(h, request) < 250 ==>
              forall q: nat | BitpoolFor(h, request) < q <= 255 :: Bitrate(h, q) >= request
  {
    var rates, p := Rates(h), LargestBelow(Rates(h), request, 255);
    LargestBelowIsLargest(rates, request, 255);
    BitrateMonotone(h, Clamp(p), if p >= Clamp(p) then p else Clamp(p));
    forall q: nat | p < q <= 255 ensures Bitrate(h, q) >= request {
      assert rates(q) >= request;
    }
  }

  lemma BitpoolMonotone(h: Shape, low: int, high: int)
    requires h.Valid() && low <= high
    ensures BitpoolFor(h, low) <= BitpoolFor(h, high)
  {
    LargestBelowIsLargest(Rates(h), low, 255);
    LargestBelowIsLargest(Rates(h), high, 255);
  }

  // ---------- Reading a configuration's shape ----------

  ghost predicate Shaped(s: BitString) {
    && |s| == CAPABILITIES_BITS
    && ActiveBit(s, SAMPLING_FREQUENCY) >= 0
    && ActiveBit(s, CHANNEL_MODE) >= 0
    && ActiveBit(s, BLOCK_LENGTH) >= 0
    && ActiveBit(s, SUBBANDS) >= 0
  }

  ghost function ShapeOf(s: BitString): (h: Shape)
    requires Shaped(s)
    ensures h.Valid()
  {
    Shape(SamplingFrequencyValue(ActiveBit(s, SAMPLING_FREQUENCY)), ActiveBit(s, CHANNEL_MODE),
          BlockLengthValue(ActiveBit(s, BLOCK_LENGTH)), SubbandsValue(ActiveBit(s, SUBBANDS)))
  }

  lemma ModeBit(s: BitString, mode: nat)
    requires Shaped(s) && InRange(CHANNEL_MODE, mode)
    ensures s[mode] == (ShapeOf(s).mode == mode)
  {
  }

  lemma RoundUpSplits(subbands: nat, n: nat)
    requires subbands in {4, 8}
    ensures (4 * subbands + n + 7) / 8 == (4 * subbands) / 8 + CeilingOfEighth(n)
    ensures (4 * subbands * 2 + n + 7) / 8 == (4 * subbands * 2) / 8 + CeilingOfEighth(n)
  {
  }

  /** Rounding the whole bit count up to bytes is the per-mode formula of the specification. */
  lemma FrameLengthFromBits(h: Shape, bitpool: nat)
    requires h.Valid()
    ensures FrameLength(h, bitpool)
         == 4 + ((4 * h.subbands) * (if h.mode != MODE_MONO then 2 else 1)
                 + (h.blocks * bitpool) * (if h.mode == MODE_DUAL_CHANNEL then 2 else 1)
                 + (if h.mode == MODE_JOINT_STEREO then h.subbands else 0) + 7) / 8
  {
    ScaledBitsFromSum(h, bitpool);
    RoundUpSplits(h.subbands, ScaledBits(h, bitpool));
  }

  method GetFrameSize(configuration: View, bitpool: nat) returns (size: int)
    requires Shaped(BitsOf(configuration.data[..]))
    ensures size == FrameLength(ShapeOf(BitsOf(configuration.data[..])), bitpool)
  {
    var subbandsBit := configuration.FindActiveBit(SUBBANDS);
    var blocksBit := configuration.FindActiveBit(BLOCK_LENGTH);
    var subbands := SubbandsValue(subbandsBit);
    var blocks := BlockLengthValue(blocksBit);
    ModeBit(BitsOf(configuration.data[..]), MODE_MONO);
    ModeBit(BitsOf(configuration.data[..]), MODE_DUAL_CHANNEL);
    ModeBit(BitsOf(configuration.data[..]), MODE_JOINT_STEREO);
    ghost var h := ShapeOf(BitsOf(configuration.data[..]));
    var bits := (4 * subbands) * (if !configuration.Get(MODE_MONO) then 2 else 1)
                + (blocks * bitpool) * (if configuration.Get(MODE_DUAL_CHANNEL) then 2 else 1)
                + (if configuration.Get(MODE_JOINT_STEREO) then subbands else 0);
    size := 4 + (bits + 7) / 8;
    FrameLengthFromBits(h, bitpool);
  }

  method GetBitrate(configuration: View, bitpool: nat) returns (bitrate: int)
    requires Shaped(BitsOf(configuration.data[..]))
    ensures bitrate == Bitrate(ShapeOf(BitsOf(configuration.data[..])), bitpool)
    ensures var h := ShapeOf(BitsOf(configuration.data[..]));
            bitrate * (h.blocks * h.subbands) <= 8 * FrameLength(h, bitpool) * h.frequency
            < (bitrate + 1) * (h.blocks * h.subbands)
  {
    BitrateIsQuotient(ShapeOf(BitsOf(configuration.data[..])), bitpool);
    var frequencyBit := configuration.FindActiveBit(SAMPLING_FREQUENCY);
    var subbandsBit := configuration.FindActiveBit(SUBBANDS);
    var blocksBit := configuration.FindActiveBit(BLOCK_LENGTH);
    var frameSize := GetFrameSize(configuration, bitpool);
    var bits := 8 * frameSize;
    bitrate := (bits * SamplingFrequencyValue(frequencyBit)) / (BlockLengthValue(blocksBit) * SubbandsValue(subbandsBit));
  }

  lemma HighRatesStay(h: Shape, request: int, bitpool: nat)
    requires h.Valid() && Rates(h)(bitpool) >= request
    ensures forall q: nat | q >= bitpool :: Rates(h)(q) >= request
  {
    forall q: nat | q >= bitpool ensures Rates(h)(q) >= request {
      BitrateMonotone(h, bitpool, q);
    }
  }

  /** The bitwise search finds what a linear search over all bitpools would. */
  method GetBitpool(configuration: View, bitrate: int) returns (pool: nat)
    requires Shaped(BitsOf(configuration.data[..]))
    ensures pool == BitpoolFor(ShapeOf(BitsOf(configuration.data[..])), bitrate)
  {
    ghost var h := ShapeOf(BitsOf(configuration.data[..]));
    ghost var rates := Rates(h);
    var bitpool := 0;
    var i := 128;
    ghost var span := 256;
    while i != 0
      invariant i in {0, 1, 2, 4, 8, 16, 32, 64, 128}
      invariant span == if i == 0 then 1 else 2 * i
      invariant 0 <= bitpool && bitpool + span <= 256
      invariant bitpool == 0 || rates(bitpool) < bitrate
      invariant forall q: nat | bitpool + span <= q <= 255 :: rates(q) >= bitrate
      decreases i
    {
      var candidate := GetBitrate(configuration, bitpool + i);
      if bitrate > candidate {
        bitpool := bitpool + i;
      } else {
        HighRatesStay(h, bitrate, bitpool + i);
      }
      span := i;
      i := i / 2;
    }
    LargestBelowUnique(rates, bitrate, 255, bitpool);
    pool := Clamp(bitpool);
  }
}
