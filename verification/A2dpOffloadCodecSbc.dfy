/** Building and parsing SBC configurations against the local capabilities. */
module A2dpOffloadCodecSbc {
  import opened Wrappers
  import opened Bits
  import opened A2dpBits
  import opened A2dpCodec
  import opened A2dpSbc

  /** The local capabilities: 44.1 and 48 kHz, every mode, block length, subband count and allocation, 2..250. */
  ghost predicate LocalCapabilities(l: BitString) {
    && |l| == CAPABILITIES_BITS
    && (forall b: nat | b < 16 :: l[b] == (b >= 2))
    && RangeValue(l, MINIMUM_BITPOOL) == 2
    && RangeValue(l, MAXIMUM_BITPOOL) == 250
  }

  function FrequencyOrder(hint: Option<CodecParameters>): seq<int> {
    [if hint.Some? then SamplingFrequencyBit(hint.value.samplingFrequencyHz) else -1,
     FREQUENCY_44100, FREQUENCY_48000]
  }

  function ModeOrder(hint: Option<CodecParameters>): seq<int> {
    [if hint.Some? then ChannelModeBit(hint.value.channelMode) else -1,
     MODE_JOINT_STEREO, MODE_STEREO, MODE_DUAL_CHANNEL, MODE_MONO]
  }

  const BLOCK_ORDER: seq<int> := [BLOCKS_16, BLOCKS_12, BLOCKS_8, BLOCKS_4]
  const SUBBAND_ORDER: seq<int> := [SUBBANDS_8, SUBBANDS_4]
  const ALLOCATION_ORDER: seq<int> := [ALLOCATION_LOUDNESS, ALLOCATION_SNR]

  // ---------- Bitpool selection ----------

  function Max(a: int, b: int): int {
    if a >= b then a else b
  }

  function Min(a: int, b: int): int {
    if a <= b then a else b
  }

  /** The remote bitpool bounds, replaced by 2..250 when they make no sense. */
  function SanePools(low: nat, high: nat): (nat, nat) {
    if low < 2 || low > 250 || high < 2 || high > 250 || low > high then (2, 250) else (low, high)
  }

  predicate UsableMaximum(hint: CodecParameters) {
    hint.maxBitrate != 0 && hint.maxBitrate >= hint.minBitrate
  }

  /** The maximum is raised to the local 250, as the source has it. */
  function UnhintedPools(low: nat, high: nat): (nat, nat) {
    (Max(SanePools(low, high).0, 2), Max(SanePools(low, high).1, 250))
  }

  ghost function HintedPools(h: Shape, unhinted: (nat, nat), hint: CodecParameters): (nat, nat)
    requires h.Valid()
  {
    (Max(unhinted.0, BitpoolFor(h, hint.minBitrate)),
     if UsableMaximum(hint) then Min(unhinted.1, BitpoolFor(h, hint.maxBitrate)) else unhinted.1)
  }

  ghost function BuiltPools(h: Shape, remote: (nat, nat), hint: Option<CodecParameters>): (nat, nat)
    requires h.Valid()
  {
    var unhinted := UnhintedPools(remote.0, remote.1);
    if hint.Some? then HintedPools(h, unhinted, hint.value) else unhinted
  }

  /** Both built bounds are legal, and they are in order exactly when a usable maximum hint reaches the remote minimum. */
  lemma PoolsOrdered(h: Shape, remote: (nat, nat), hint: Option<CodecParameters>)
    requires h.Valid()
    ensures var pools := BuiltPools(h, remote, hint);
            && 2 <= pools.0 <= 250 && 2 <= pools.1 <= 250
            && (pools.0 <= pools.1 <==>
                hint.None? || !UsableMaximum(hint.value)
                || BitpoolFor(h, hint.value.maxBitrate) >= SanePools(remote.0, remote.1).0)
  {
    if hint.Some? && UsableMaximum(hint.value) {
      BitpoolMonotone(h, hint.value.minBitrate, hint.value.maxBitrate);
    }
  }

  /** A remote minimum of 53 and a hinted maximum of 100 bit/s: the built minimum exceeds the built maximum. */
  lemma PoolsCanCross()
    ensures var h := Shape(44100, MODE_JOINT_STEREO, 16, 8);
            var hint := CodecParameters(STEREO, 44100, 16, 0, 100);
            var pools := BuiltPools(h, (53, 53), Some(hint));
            pools.0 == 53 && pools.1 == 2
  {
    var h := Shape(44100, MODE_JOINT_STEREO, 16, 8);
    assert Bitrate(h, 0) >= 100;
    forall p: nat ensures Bitrate(h, p) >= 100 {
      BitrateMonotone(h, 0, p);
    }
    LargestBelowIsLargest(Rates(h), 100, 255);
    LargestBelowIsLargest(Rates(h), 0, 255);
  }

  // ---------- What a built configuration is ----------

  ghost predicate FieldsSelected(l: BitString, r: BitString, hint: Option<CodecParameters>, c: BitString) {
    && |l| == |r| == |c| == CAPABILITIES_BITS
    && Selected(l, r, FrequencyOrder(hint), c, SAMPLING_FREQUENCY)
    && Selected(l, r, ModeOrder(hint), c, CHANNEL_MODE)
    && Selected(l, r, BLOCK_ORDER, c, BLOCK_LENGTH)
    && Selected(l, r, SUBBAND_ORDER, c, SUBBANDS)
    && Selected(l, r, ALLOCATION_ORDER, c, ALLOCATION_METHOD)
  }

  ghost predicate Built(l: BitString, r: BitString, hint: Option<CodecParameters>, c: BitString) {
    && FieldsSelected(l, r, hint, c)
    && (RangeValue(c, MINIMUM_BITPOOL), RangeValue(c, MAXIMUM_BITPOOL))
       == BuiltPools(ShapeOf(c), (RangeValue(r, MINIMUM_BITPOOL), RangeValue(r, MAXIMUM_BITPOOL)), hint)
  }

  /** Both sides meet in every field a configuration must choose from. */
  ghost predicate Negotiable(l: BitString, r: BitString) {
    && |r| == CAPABILITIES_BITS
    && Mutual(l, r, SAMPLING_FREQUENCY)
    && Mutual(l, r, CHANNEL_MODE)
    && Mutual(l, r, BLOCK_LENGTH)
    && Mutual(l, r, SUBBANDS)
    && Mutual(l, r, ALLOCATION_METHOD)
  }

  // ---------- What parsing reports ----------

  ghost function MinimumFault(l: BitString, c: BitString): A2dpStatus
    requires |l| == |c| == CAPABILITIES_BITS
  {
    var low := RangeValue(c, MINIMUM_BITPOOL);
    if low < 2 || low > 250 then INVALID_MINIMUM_BITPOOL_VALUE
    else if low < RangeValue(l, MINIMUM_BITPOOL) then NOT_SUPPORTED_MINIMUM_BITPOOL_VALUE
    else OK
  }

  ghost function MaximumFault(l: BitString, c: BitString): A2dpStatus
    requires |l| == |c| == CAPABILITIES_BITS
  {
    var high := RangeValue(c, MAXIMUM_BITPOOL);
    if high < 2 || high > 250 then INVALID_MAXIMUM_BITPOOL_VALUE
    else if high > RangeValue(l, MAXIMUM_BITPOOL) then NOT_SUPPORTED_MAXIMUM_BITPOOL_VALUE
    else OK
  }

  /** The faults of the first three fields checked; the block length only has to be one bit. */
  ghost function ShapeFault(l: BitString, c: BitString): A2dpStatus
    requires |l| == |c| == CAPABILITIES_BITS
  {
    Then(FieldFault(l, c, SAMPLING_FREQUENCY, INVALID_SAMPLING_FREQUENCY, NOT_SUPPORTED_SAMPLING_FREQUENCY),
    Then(FieldFault(l, c, CHANNEL_MODE, INVALID_CHANNEL_MODE, NOT_SUPPORTED_CHANNEL_MODE),
         if ActiveBit(c, BLOCK_LENGTH) < 0 then INVALID_BLOCK_LENGTH else OK))
  }

  /** The first fault of a configuration, in the order the fields are checked. */
  ghost function ParseStatus(l: BitString, c: BitString): A2dpStatus
    requires |l| == CAPABILITIES_BITS
  {
    if |c| != |l| then BAD_LENGTH else
    Then(ShapeFault(l, c),
    Then(FieldFault(l, c, SUBBANDS, INVALID_SUBBANDS, NOT_SUPPORTED_SUBBANDS),
    Then(FieldFault(l, c, ALLOCATION_METHOD, INVALID_ALLOCATION_METHOD, NOT_SUPPORTED_ALLOCATION_METHOD),
    Then(MinimumFault(l, c), MaximumFault(l, c)))))
  }

  ghost function ParsedParameters(c: BitString): CodecParameters
    requires Shaped(c)
  {
    var h := ShapeOf(c);
    CodecParameters(ChannelModeOf(h.mode), h.frequency, BITDEPTH,
                    Bitrate(h, RangeValue(c, MINIMUM_BITPOOL)), Bitrate(h, RangeValue(c, MAXIMUM_BITPOOL)))
  }

  ghost function ParsedSbc(c: BitString): SbcParameters
    requires Shaped(c)
  {
    SbcParameters(AllocationMethodOf(ActiveBit(c, ALLOCATION_METHOD)), ShapeOf(c).blocks, ShapeOf(c).subbands,
                  RangeValue(c, MINIMUM_BITPOOL), RangeValue(c, MAXIMUM_BITPOOL))
  }

  // ---------- Theorems ----------

  /** Every field holds exactly one bit, which the local side supports, and both bitpools are legal. */
  ghost predicate Legal(l: BitString, c: BitString)
    requires |l| == CAPABILITIES_BITS
  {
    && |c| == CAPABILITIES_BITS
    && LocallySupported(l, c, SAMPLING_FREQUENCY) && LocallySupported(l, c, CHANNEL_MODE)
    && LocallySupported(l, c, BLOCK_LENGTH) && LocallySupported(l, c, SUBBANDS)
    && LocallySupported(l, c, ALLOCATION_METHOD)
    && 2 <= RangeValue(c, MINIMUM_BITPOOL) <= 250 && 2 <= RangeValue(c, MAXIMUM_BITPOOL) <= 250
  }

  lemma FaultlessShape(l: BitString, c: BitString)
    requires LocalCapabilities(l) && |c| == CAPABILITIES_BITS
    ensures ShapeFault(l, c) == OK <==>
      LocallySupported(l, c, SAMPLING_FREQUENCY) && LocallySupported(l, c, CHANNEL_MODE) && LocallySupported(l, c, BLOCK_LENGTH)
  {
    FaultlessField(l, c, SAMPLING_FREQUENCY, INVALID_SAMPLING_FREQUENCY, NOT_SUPPORTED_SAMPLING_FREQUENCY);
    FaultlessField(l, c, CHANNEL_MODE, INVALID_CHANNEL_MODE, NOT_SUPPORTED_CHANNEL_MODE);
    var block := ActiveBit(c, BLOCK_LENGTH);
    assert block >= 0 ==> OnlyBit(c, BLOCK_LENGTH, block) && l[block];
  }

  lemma FaultlessPools(l: BitString, c: BitString)
    requires LocalCapabilities(l) && |c| == CAPABILITIES_BITS
    ensures MinimumFault(l, c) == OK <==> 2 <= RangeValue(c, MINIMUM_BITPOOL) <= 250
    ensures MaximumFault(l, c) == OK <==> 2 <= RangeValue(c, MAXIMUM_BITPOOL) <= 250
  {
  }

  /** Exactly the legal configurations parse. */
  lemma LegalParses(l: BitString, c: BitString)
    requires LocalCapabilities(l)
    ensures ParseStatus(l, c) == OK <==> Legal(l, c)
  {
    if |c| == CAPABILITIES_BITS {
      FaultlessShape(l, c);
      FaultlessField(l, c, SUBBANDS, INVALID_SUBBANDS, NOT_SUPPORTED_SUBBANDS);
      FaultlessField(l, c, ALLOCATION_METHOD, INVALID_ALLOCATION_METHOD, NOT_SUPPORTED_ALLOCATION_METHOD);
      FaultlessPools(l, c);
    }
  }

  lemma SelectionsSupported(l: BitString, r: BitString, hint: Option<CodecParameters>, c: BitString)
    requires FieldsSelected(l, r, hint, c)
    ensures LocallySupported(l, c, SAMPLING_FREQUENCY) && LocallySupported(l, c, CHANNEL_MODE)
    ensures LocallySupported(l, c, BLOCK_LENGTH) && LocallySupported(l, c, SUBBANDS)
    ensures LocallySupported(l, c, ALLOCATION_METHOD)
  {
    SelectedIsLocal(l, r, FrequencyOrder(hint), c, SAMPLING_FREQUENCY);
    SelectedIsLocal(l, r, ModeOrder(hint), c, CHANNEL_MODE);
    SelectedIsLocal(l, r, BLOCK_ORDER, c, BLOCK_LENGTH);
    SelectedIsLocal(l, r, SUBBAND_ORDER, c, SUBBANDS);
    SelectedIsLocal(l, r, ALLOCATION_ORDER, c, ALLOCATION_METHOD);
  }

  /** Whatever is built also parses: the factory's assertion holds for every remote and every hint. */
  lemma BuiltParses(l: BitString, r: BitString, hint: Option<CodecParameters>, c: BitString)
    requires LocalCapabilities(l) && Built(l, r, hint, c)
    ensures ParseStatus(l, c) == OK
  {
    PoolsOrdered(ShapeOf(c), (RangeValue(r, MINIMUM_BITPOOL), RangeValue(r, MAXIMUM_BITPOOL)), hint);
    SelectionsSupported(l, r, hint, c);
    LegalParses(l, c);
  }

  lemma BitsInvert(hint: CodecParameters)
    ensures SamplingFrequencyBit(hint.samplingFrequencyHz) >= 0 ==>
              SamplingFrequencyValue(SamplingFrequencyBit(hint.samplingFrequencyHz)) == hint.samplingFrequencyHz
    ensures ChannelModeBit(hint.channelMode) >= 0 ==> ChannelModeOf(ChannelModeBit(hint.channelMode)) == hint.channelMode
  {
  }

  /** A mutually supported sampling rate or channel mode asked for is the one parsed back. */
  lemma HintSurvives(l: BitString, r: BitString, hint: CodecParameters, c: BitString)
    requires FieldsSelected(l, r, Some(hint), c)
    ensures Shared(l, r, SamplingFrequencyBit(hint.samplingFrequencyHz)) ==>
              ParsedParameters(c).samplingFrequencyHz == hint.samplingFrequencyHz
    ensures Shared(l, r, ChannelModeBit(hint.channelMode)) ==>
              ParsedParameters(c).channelMode == hint.channelMode
  {
    var frequency, mode := ActiveBit(c, SAMPLING_FREQUENCY), ActiveBit(c, CHANNEL_MODE);
    FirstChoiceTaken(l, r, FrequencyOrder(Some(hint)), frequency);
    FirstChoiceTaken(l, r, ModeOrder(Some(hint)), mode);
    BitsInvert(hint);
    var p := ParsedParameters(c);
    assert p.samplingFrequencyHz == SamplingFrequencyValue(frequency) && p.channelMode == ChannelModeOf(mode);
  }

  lemma SameFieldsSameBits(c: BitString, d: BitString)
    requires |c| == |d| == CAPABILITIES_BITS && forall b: nat | b < 16 :: c[b] == d[b]
    requires RangeValue(c, MINIMUM_BITPOOL) == RangeValue(d, MINIMUM_BITPOOL)
    requires RangeValue(c, MAXIMUM_BITPOOL) == RangeValue(d, MAXIMUM_BITPOOL)
    ensures c == d
  {
    SameValueSameBits(c, d, MINIMUM_BITPOOL);
    SameValueSameBits(c, d, MAXIMUM_BITPOOL);
    assert forall b: nat | b < |c| :: b < 16 || InRange(MINIMUM_BITPOOL, b) || InRange(MAXIMUM_BITPOOL, b);
  }

  lemma FieldsUnique(l: BitString, r: BitString, hint: Option<CodecParameters>, c: BitString, d: BitString)
    requires FieldsSelected(l, r, hint, c) && FieldsSelected(l, r, hint, d)
    ensures forall b: nat | b < 16 :: c[b] == d[b]
    ensures ShapeOf(c) == ShapeOf(d)
  {
    SelectionUnique(l, r, FrequencyOrder(hint), c, d, SAMPLING_FREQUENCY);
    SelectionUnique(l, r, ModeOrder(hint), c, d, CHANNEL_MODE);
    SelectionUnique(l, r, BLOCK_ORDER, c, d, BLOCK_LENGTH);
    SelectionUnique(l, r, SUBBAND_ORDER, c, d, SUBBANDS);
    SelectionUnique(l, r, ALLOCATION_ORDER, c, d, ALLOCATION_METHOD);
    forall b: nat | b < 16 ensures c[b] == d[b] {
      assert InRange(SAMPLING_FREQUENCY, b) || InRange(CHANNEL_MODE, b) || InRange(BLOCK_LENGTH, b)
             || InRange(SUBBANDS, b) || InRange(ALLOCATION_METHOD, b);
    }
  }

  /** The built bytes are fully determined by the remote capabilities and the hint. */
  lemma BuiltUnique(l: BitString, r: BitString, hint: Option<CodecParameters>, c: BitString, d: BitString)
    requires Built(l, r, hint, c) && Built(l, r, hint, d)
    ensures c == d
  {
    FieldsUnique(l, r, hint, c, d);
    SameFieldsSameBits(c, d);
  }

  // ---------- What the bits mean, bit by bit ----------

  /** The parsed parameters, field by field from the bits of A2DP section 4.3. */
  lemma ParsedRateAndMode(c: BitString)
    requires Shaped(c)
    ensures OnlyBit(c, Range(0, 4), 0) ==> ParsedParameters(c).samplingFrequencyHz == 16000
    ensures OnlyBit(c, Range(0, 4), 1) ==> ParsedParameters(c).samplingFrequencyHz == 32000
    ensures OnlyBit(c, Range(0, 4), 2) ==> ParsedParameters(c).samplingFrequencyHz == 44100
    ensures OnlyBit(c, Range(0, 4), 3) ==> ParsedParameters(c).samplingFrequencyHz == 48000
    ensures OnlyBit(c, Range(4, 4), 4) ==> ParsedParameters(c).channelMode == MONO
    ensures OnlyBit(c, Range(4, 4), 5) ==> ParsedParameters(c).channelMode == DUALMONO
    ensures OnlyBit(c, Range(4, 4), 6) || OnlyBit(c, Range(4, 4), 7) ==> ParsedParameters(c).channelMode == STEREO
    ensures ParsedParameters(c).bitdepth == 16
  {
  }

  lemma ParsedFrame(c: BitString)
    requires Shaped(c)
    ensures OnlyBit(c, Range(8, 4), 8) ==> ParsedSbc(c).blockLength == 4
    ensures OnlyBit(c, Range(8, 4), 9) ==> ParsedSbc(c).blockLength == 8
    ensures OnlyBit(c, Range(8, 4), 10) ==> ParsedSbc(c).blockLength == 12
    ensures OnlyBit(c, Range(8, 4), 11) ==> ParsedSbc(c).blockLength == 16
    ensures OnlyBit(c, Range(12, 2), 12) ==> ParsedSbc(c).subbands == 8
    ensures OnlyBit(c, Range(12, 2), 13) ==> ParsedSbc(c).subbands == 4
    ensures OnlyBit(c, Range(14, 2), 14) ==> ParsedSbc(c).allocationMethod == SNR
    ensures OnlyBit(c, Range(14, 2), 15) ==> ParsedSbc(c).allocationMethod == LOUDNESS
    ensures ParsedSbc(c).minBitpool == RangeValue(c, Range(16, 8)) && ParsedSbc(c).maxBitpool == RangeValue(c, Range(24, 8))
  {
  }

  /** The parsed bitrates are those of the parsed bitpools, rounded down from the bits of a second. */
  lemma ParsedBitrates(c: BitString)
    requires Shaped(c)
    ensures var h, p, s := ShapeOf(c), ParsedParameters(c), ParsedSbc(c);
            && h.frequency == p.samplingFrequencyHz && h.blocks == s.blockLength && h.subbands == s.subbands
            && OnlyBit(c, Range(4, 4), h.mode)
            && p.minBitrate * (h.blocks * h.subbands) <= 8 * FrameLength(h, s.minBitpool) * h.frequency
               < (p.minBitrate + 1) * (h.blocks * h.subbands)
            && p.maxBitrate * (h.blocks * h.subbands) <= 8 * FrameLength(h, s.maxBitpool) * h.frequency
               < (p.maxBitrate + 1) * (h.blocks * h.subbands)
  {
    BitrateIsQuotient(ShapeOf(c), ParsedSbc(c).minBitpool);
    BitrateIsQuotient(ShapeOf(c), ParsedSbc(c).maxBitpool);
  }

  /** Every status of the parser, by the first field in the order of the checks that is at fault. */
  lemma FaultsNamed(l: BitString, c: BitString)
    requires |l| == CAPABILITIES_BITS
    ensures ParseStatus(l, c) == BAD_LENGTH <==> |c| != 32
    ensures |c| == 32 ==>
      var rate := Supported(l, c, 0, 4);
      var mode := rate && Supported(l, c, 4, 4);
      var block := mode && Single(c, 8, 4);
      var subbands := block && Supported(l, c, 12, 2);
      && (ParseStatus(l, c) == INVALID_SAMPLING_FREQUENCY <==> !Single(c, 0, 4))
      && (ParseStatus(l, c) == NOT_SUPPORTED_SAMPLING_FREQUENCY <==> Single(c, 0, 4) && !rate)
      && (ParseStatus(l, c) == INVALID_CHANNEL_MODE <==> rate && !Single(c, 4, 4))
      && (ParseStatus(l, c) == NOT_SUPPORTED_CHANNEL_MODE <==> rate && Single(c, 4, 4) && !mode)
      && (ParseStatus(l, c) == INVALID_BLOCK_LENGTH <==> mode && !Single(c, 8, 4))
      && (ParseStatus(l, c) == INVALID_SUBBANDS <==> block && !Single(c, 12, 2))
      && (ParseStatus(l, c) == NOT_SUPPORTED_SUBBANDS <==> block && Single(c, 12, 2) && !subbands)
      && (ParseStatus(l, c) == INVALID_ALLOCATION_METHOD <==> subbands && !Single(c, 14, 2))
      && (ParseStatus(l, c) == NOT_SUPPORTED_ALLOCATION_METHOD <==>
            subbands && Single(c, 14, 2) && !Supported(l, c, 14, 2))
  {
    if |c| == 32 {
      FieldFaultNamed(l, c, SAMPLING_FREQUENCY, INVALID_SAMPLING_FREQUENCY, NOT_SUPPORTED_SAMPLING_FREQUENCY);
      FieldFaultNamed(l, c, CHANNEL_MODE, INVALID_CHANNEL_MODE, NOT_SUPPORTED_CHANNEL_MODE);
      FieldFaultNamed(l, c, BLOCK_LENGTH, INVALID_BLOCK_LENGTH, INVALID_BLOCK_LENGTH);
      FieldFaultNamed(l, c, SUBBANDS, INVALID_SUBBANDS, NOT_SUPPORTED_SUBBANDS);
      FieldFaultNamed(l, c, ALLOCATION_METHOD, INVALID_ALLOCATION_METHOD, NOT_SUPPORTED_ALLOCATION_METHOD);
    }
  }

  /** With all fields in order, the bitpools: out of 2..250 is invalid, beyond the local bounds not supported. */
  lemma BitpoolFaultsNamed(l: BitString, c: BitString)
    requires |l| == |c| == CAPABILITIES_BITS
    requires Supported(l, c, 0, 4) && Supported(l, c, 4, 4) && Single(c, 8, 4)
    requires Supported(l, c, 12, 2) && Supported(l, c, 14, 2)
    ensures var low, high := RangeValue(c, Range(16, 8)), RangeValue(c, Range(24, 8));
            var lowOk, highOk := 2 <= low <= 250, 2 <= high <= 250;
            var lowIn, highIn := low >= RangeValue(l, Range(16, 8)), high <= RangeValue(l, Range(24, 8));
            && (ParseStatus(l, c) == INVALID_MINIMUM_BITPOOL_VALUE <==> !lowOk)
            && (ParseStatus(l, c) == NOT_SUPPORTED_MINIMUM_BITPOOL_VALUE <==> lowOk && !lowIn)
            && (ParseStatus(l, c) == INVALID_MAXIMUM_BITPOOL_VALUE <==> lowOk && lowIn && !highOk)
            && (ParseStatus(l, c) == NOT_SUPPORTED_MAXIMUM_BITPOOL_VALUE <==> lowOk && lowIn && highOk && !highIn)
            && (ParseStatus(l, c) == OK <==> lowOk && lowIn && highOk && highIn)
  {
    FieldFaultNamed(l, c, SAMPLING_FREQUENCY, INVALID_SAMPLING_FREQUENCY, NOT_SUPPORTED_SAMPLING_FREQUENCY);
    FieldFaultNamed(l, c, CHANNEL_MODE, INVALID_CHANNEL_MODE, NOT_SUPPORTED_CHANNEL_MODE);
    FieldFaultNamed(l, c, BLOCK_LENGTH, INVALID_BLOCK_LENGTH, INVALID_BLOCK_LENGTH);
    FieldFaultNamed(l, c, SUBBANDS, INVALID_SUBBANDS, NOT_SUPPORTED_SUBBANDS);
    FieldFaultNamed(l, c, ALLOCATION_METHOD, INVALID_ALLOCATION_METHOD, NOT_SUPPORTED_ALLOCATION_METHOD);
  }

  /** Which remotes a configuration can be built for, by the remote's bits. */
  lemma NegotiableRemotes(l: BitString, r: BitString)
    requires LocalCapabilities(l)
    ensures Negotiable(l, r) <==>
      && |r| == 32
      && (r[2] || r[3]) && (r[4] || r[5] || r[6] || r[7]) && (r[8] || r[9] || r[10] || r[11])
      && (r[12] || r[13]) && (r[14] || r[15])
  {
    if |r| == 32 {
      forall b: nat | b < 16 ensures Shared(l, r, b) <==> b >= 2 && r[b] {
      }
    }
  }

  /** Of the capabilities both sides support a build takes the longest blocks, eight subbands, and loudness. */
  lemma BuiltFrame(l: BitString, r: BitString, hint: Option<CodecParameters>, c: BitString)
    requires FieldsSelected(l, r, hint, c)
    ensures ParsedSbc(c).blockLength ==
      if l[11] && r[11] then 16 else if l[10] && r[10] then 12 else if l[9] && r[9] then 8 else 4
    ensures ParsedSbc(c).subbands == if l[12] && r[12] then 8 else 4
    ensures ParsedSbc(c).allocationMethod == if l[15] && r[15] then LOUDNESS else SNR
  {
    var block := ActiveBit(c, BLOCK_LENGTH);
    if l[11] && r[11] { PreferredEntry(l, r, BLOCK_ORDER, 0, block); }
    else if l[10] && r[10] { PreferredEntry(l, r, BLOCK_ORDER, 1, block); }
    else if l[9] && r[9] { PreferredEntry(l, r, BLOCK_ORDER, 2, block); }
    var subbands := ActiveBit(c, SUBBANDS);
    if l[12] && r[12] { PreferredEntry(l, r, SUBBAND_ORDER, 0, subbands); }
    var allocation := ActiveBit(c, ALLOCATION_METHOD);
    if l[15] && r[15] { PreferredEntry(l, r, ALLOCATION_ORDER, 0, allocation); }
  }

  /** The hinted sampling rate is one that both sides support. */
  predicate RateHinted(l: BitString, r: BitString, hint: Option<CodecParameters>)
    requires |l| == |r| == 32
  {
    hint.Some? &&
    match hint.value.samplingFrequencyHz
    case 16000 => l[0] && r[0]
    case 32000 => l[1] && r[1]
    case 44100 => l[2] && r[2]
    case 48000 => l[3] && r[3]
    case _ => false
  }

  /** The hinted channel mode is one that both sides support; stereo asks for joint stereo. */
  predicate ModeHinted(l: BitString, r: BitString, hint: Option<CodecParameters>)
    requires |l| == |r| == 32
  {
    hint.Some? &&
    match hint.value.channelMode
    case MONO => l[4] && r[4]
    case DUALMONO => l[5] && r[5]
    case STEREO => l[7] && r[7]
    case UNKNOWN => false
  }

  /** The rate is the hinted one where both sides support it, else 44.1 kHz before 48 kHz. */
  lemma BuiltRate(l: BitString, r: BitString, hint: Option<CodecParameters>, c: BitString)
    requires FieldsSelected(l, r, hint, c)
    ensures ParsedParameters(c).samplingFrequencyHz ==
      if RateHinted(l, r, hint) then hint.value.samplingFrequencyHz else if l[2] && r[2] then 44100 else 48000
  {
    var order, rate := FrequencyOrder(hint), ActiveBit(c, SAMPLING_FREQUENCY);
    assert order[1] == 2 && order[2] == 3;
    assert RateHinted(l, r, hint) <==> Shared(l, r, order[0]);
    if RateHinted(l, r, hint) { PreferredEntry(l, r, order, 0, rate); }
    else if l[2] && r[2] { PreferredEntry(l, r, order, 1, rate); }
  }

  /** The mode is the hinted one where both sides support it, else joint stereo, stereo, dual channel, mono. */
  lemma BuiltMode(l: BitString, r: BitString, hint: Option<CodecParameters>, c: BitString)
    requires FieldsSelected(l, r, hint, c)
    ensures ModeHinted(l, r, hint) ==> ParsedParameters(c).channelMode == hint.value.channelMode
    ensures ModeHinted(l, r, hint) && hint.value.channelMode == STEREO ==> OnlyBit(c, Range(4, 4), 7)
    ensures !ModeHinted(l, r, hint) ==>
      OnlyBit(c, Range(4, 4), if l[7] && r[7] then 7 else if l[6] && r[6] then 6 else if l[5] && r[5] then 5 else 4)
  {
    var order, mode := ModeOrder(hint), ActiveBit(c, CHANNEL_MODE);
    assert order[1] == 7 && order[2] == 6 && order[3] == 5 && order[4] == 4;
    assert ModeHinted(l, r, hint) <==> Shared(l, r, order[0]);
    if ModeHinted(l, r, hint) { PreferredEntry(l, r, order, 0, mode); }
    else if l[7] && r[7] { PreferredEntry(l, r, order, 1, mode); }
    else if l[6] && r[6] { PreferredEntry(l, r, order, 2, mode); }
    else if l[5] && r[5] { PreferredEntry(l, r, order, 3, mode); }
  }

  /** The remote bounds make sense: both in 2..250 and in order. */
  predicate SaneBounds(low: nat, high: nat) {
    2 <= low <= high <= 250
  }

  /** The built bitpools. The remote maximum only matters for whether the remote bounds make sense: the built maximum is
      250, or the bitpool of a usable maximum hint. The built minimum is the larger of the remote's and the hint's. */
  lemma BuiltBitpools(l: BitString, r: BitString, hint: Option<CodecParameters>, c: BitString)
    requires Built(l, r, hint, c)
    ensures var h, s := ShapeOf(c), ParsedSbc(c);
            var low, high := RangeValue(r, Range(16, 8)), RangeValue(r, Range(24, 8));
            var floor := if SaneBounds(low, high) then low else 2;
            && (hint.None? ==> s.minBitpool == floor && s.maxBitpool == 250)
            && (hint.Some? ==>
                  && s.minBitpool >= floor && s.minBitpool >= BitpoolFor(h, hint.value.minBitrate)
                  && s.minBitpool in {floor, BitpoolFor(h, hint.value.minBitrate)}
                  && s.maxBitpool == if hint.value.maxBitrate != 0 && hint.value.minBitrate <= hint.value.maxBitrate
                                     then BitpoolFor(h, hint.value.maxBitrate) else 250)
  {
  }

  lemma LowBitsOf63(j: nat)
    requires j < 8
    ensures Bit(0x3F, j) == (j < 6) && Bit(0xFF, j)
  {
    assert Bit(0x3F, 0) && Bit(0x3F, 1) && Bit(0x3F, 2) && Bit(0x3F, 3) && Bit(0x3F, 4) && Bit(0x3F, 5);
    assert !Bit(0x3F, 6) && !Bit(0x3F, 7);
    assert Bit(0xFF, 0) && Bit(0xFF, 1) && Bit(0xFF, 2) && Bit(0xFF, 3);
    assert Bit(0xFF, 4) && Bit(0xFF, 5) && Bit(0xFF, 6) && Bit(0xFF, 7);
  }

  /** The local capability bytes. */
  lemma LocalBytes(v: seq<Byte>)
    requires LocalCapabilities(BitsOf(v))
    ensures v == [0x3F, 0xFF, 2, 250]
  {
    assert |v| == 4;
    ByteIsRange(v, 2);
    ByteIsRange(v, 3);
    forall j: nat | j < 8 ensures Bit(0x3F, j) == (j < 6) && Bit(0xFF, j) {
      LowBitsOf63(j);
    }
    ByteWithBits(v, 0, 0x3F);
    ByteWithBits(v, 1, 0xFF);
  }

  // ---------- The codec ----------

  method AllowFields(caps: View)
    requires caps.data.Length == CAPABILITIES_SIZE && forall b: nat | b < 16 :: !BitsOf(caps.data[..])[b]
    modifies caps.data
    ensures forall b: nat | b < 16 :: BitsOf(caps.data[..])[b] == (b >= 2)
  {
    caps.Set(FREQUENCY_44100, true);
    caps.Set(FREQUENCY_48000, true);
    caps.Set(MODE_MONO, true);
    caps.Set(MODE_DUAL_CHANNEL, true);
    caps.Set(MODE_STEREO, true);
    caps.Set(MODE_JOINT_STEREO, true);
    caps.Set(BLOCKS_4, true);
    caps.Set(BLOCKS_8, true);
    caps.Set(BLOCKS_12, true);
    caps.Set(BLOCKS_16, true);
    caps.Set(SUBBANDS_4, true);
    caps.Set(SUBBANDS_8, true);
    caps.Set(ALLOCATION_SNR, true);
    caps.Set(ALLOCATION_LOUDNESS, true);
  }

  lemma ByteValue(v: nat)
    requires v < 256
    ensures v % Pow2(8) == v
  {
    assert Pow2(8) == 256;
  }

  method AllowBitpools(caps: View)
    requires caps.data.Length == CAPABILITIES_SIZE && forall b: nat | b < 16 :: BitsOf(caps.data[..])[b] == (b >= 2)
    modifies caps.data
    ensures LocalCapabilities(BitsOf(caps.data[..]))
  {
    ByteValue(2);
    ByteValue(250);
    caps.SetRange(MINIMUM_BITPOOL, 2);
    ghost var before := BitsOf(caps.data[..]);
    caps.SetRange(MAXIMUM_BITPOOL, 250);
    ValueKept(before, BitsOf(caps.data[..]), MAXIMUM_BITPOOL, MINIMUM_BITPOOL);
    assert forall b: nat | b < 16 :: BitsOf(caps.data[..])[b] == before[b];
  }

  /** Writing a later field keeps the earlier selections. */
  lemma FieldsKept(l: BitString, r: BitString, hint: Option<CodecParameters>, s: BitString, t: BitString, written: Range)
    requires |s| == CAPABILITIES_BITS && SameOutside(s, t, written)
    requires written == ALLOCATION_METHOD || written == MINIMUM_BITPOOL || written == MAXIMUM_BITPOOL
    ensures Selected(l, r, FrequencyOrder(hint), s, SAMPLING_FREQUENCY) ==> Selected(l, r, FrequencyOrder(hint), t, SAMPLING_FREQUENCY)
    ensures Selected(l, r, ModeOrder(hint), s, CHANNEL_MODE) ==> Selected(l, r, ModeOrder(hint), t, CHANNEL_MODE)
    ensures Selected(l, r, BLOCK_ORDER, s, BLOCK_LENGTH) ==> Selected(l, r, BLOCK_ORDER, t, BLOCK_LENGTH)
    ensures Selected(l, r, SUBBAND_ORDER, s, SUBBANDS) ==> Selected(l, r, SUBBAND_ORDER, t, SUBBANDS)
    ensures written != ALLOCATION_METHOD && Selected(l, r, ALLOCATION_ORDER, s, ALLOCATION_METHOD) ==>
              Selected(l, r, ALLOCATION_ORDER, t, ALLOCATION_METHOD)
    ensures Shaped(s) ==> Shaped(t) && ShapeOf(t) == ShapeOf(s)
  {
    SelectionKept(l, r, FrequencyOrder(hint), s, t, written, SAMPLING_FREQUENCY);
    SelectionKept(l, r, ModeOrder(hint), s, t, written, CHANNEL_MODE);
    SelectionKept(l, r, BLOCK_ORDER, s, t, written, BLOCK_LENGTH);
    SelectionKept(l, r, SUBBAND_ORDER, s, t, written, SUBBANDS);
    if written != ALLOCATION_METHOD {
      SelectionKept(l, r, ALLOCATION_ORDER, s, t, written, ALLOCATION_METHOD);
    }
  }

  /** The preference orders name every bit of their fields, but for the two rates the local side lacks. */
  lemma RatesCovered(l: BitString, hint: Option<CodecParameters>)
    requires |l| == CAPABILITIES_BITS && !l[FREQUENCY_16000] && !l[FREQUENCY_32000]
    ensures Covers(l, FrequencyOrder(hint), SAMPLING_FREQUENCY)
  {
    var order := FrequencyOrder(hint);
    assert order[1] == FREQUENCY_44100 && order[2] == FREQUENCY_48000;
  }

  method SelectSamplingFrequency(lcaps: View, rcaps: View, config: View, hint: Option<CodecParameters>) returns (ok: bool)
    requires LocalCapabilities(BitsOf(lcaps.data[..]))
    requires rcaps.data.Length == config.data.Length == CAPABILITIES_SIZE
    requires config.data != lcaps.data && config.data != rcaps.data
    requires Clear(BitsOf(config.data[..]), SAMPLING_FREQUENCY)
    modifies config.data
    ensures ok <==> Mutual(BitsOf(lcaps.data[..]), BitsOf(rcaps.data[..]), SAMPLING_FREQUENCY)
    ensures ok ==> Selected(BitsOf(lcaps.data[..]), BitsOf(rcaps.data[..]), FrequencyOrder(hint), BitsOf(config.data[..]), SAMPLING_FREQUENCY)
    ensures SameOutside(old(BitsOf(config.data[..])), BitsOf(config.data[..]), SAMPLING_FREQUENCY)
  {
    RatesCovered(BitsOf(lcaps.data[..]), hint);
    ok := SelectFirst(lcaps, rcaps, config, FrequencyOrder(hint), SAMPLING_FREQUENCY);
  }

  lemma ModesCovered(l: BitString, hint: Option<CodecParameters>)
    ensures Covers(l, ModeOrder(hint), CHANNEL_MODE)
  {
    var order := ModeOrder(hint);
    assert order[1] == MODE_JOINT_STEREO && order[2] == MODE_STEREO && order[3] == MODE_DUAL_CHANNEL && order[4] == MODE_MONO;
  }

  method SelectChannelMode(lcaps: View, rcaps: View, config: View, hint: Option<CodecParameters>) returns (ok: bool)
    requires LocalCapabilities(BitsOf(lcaps.data[..]))
    requires rcaps.data.Length == config.data.Length == CAPABILITIES_SIZE
    requires config.data != lcaps.data && config.data != rcaps.data
    requires Clear(BitsOf(config.data[..]), CHANNEL_MODE)
    modifies config.data
    ensures ok <==> Mutual(BitsOf(lcaps.data[..]), BitsOf(rcaps.data[..]), CHANNEL_MODE)
    ensures ok ==> Selected(BitsOf(lcaps.data[..]), BitsOf(rcaps.data[..]), ModeOrder(hint), BitsOf(config.data[..]), CHANNEL_MODE)
    ensures SameOutside(old(BitsOf(config.data[..])), BitsOf(config.data[..]), CHANNEL_MODE)
  {
    ModesCovered(BitsOf(lcaps.data[..]), hint);
    ok := SelectFirst(lcaps, rcaps, config, ModeOrder(hint), CHANNEL_MODE);
  }

  lemma BlocksCovered(l: BitString)
    ensures Covers(l, BLOCK_ORDER, BLOCK_LENGTH)
  {
    var order := BLOCK_ORDER;
    assert order[0] == BLOCKS_16 && order[1] == BLOCKS_12 && order[2] == BLOCKS_8 && order[3] == BLOCKS_4;
  }

  method SelectBlockLength(lcaps: View, rcaps: View, config: View) returns (ok: bool)
    requires LocalCapabilities(BitsOf(lcaps.data[..]))
    requires rcaps.data.Length == config.data.Length == CAPABILITIES_SIZE
    requires config.data != lcaps.data && config.data != rcaps.data
    requires Clear(BitsOf(config.data[..]), BLOCK_LENGTH)
    modifies config.data
    ensures ok <==> Mutual(BitsOf(lcaps.data[..]), BitsOf(rcaps.data[..]), BLOCK_LENGTH)
    ensures ok ==> Selected(BitsOf(lcaps.data[..]), BitsOf(rcaps.data[..]), BLOCK_ORDER, BitsOf(config.data[..]), BLOCK_LENGTH)
    ensures SameOutside(old(BitsOf(config.data[..])), BitsOf(config.data[..]), BLOCK_LENGTH)
  {
    BlocksCovered(BitsOf(lcaps.data[..]));
    ok := SelectFirst(lcaps, rcaps, config, BLOCK_ORDER, BLOCK_LENGTH);
  }

  lemma SubbandsCovered(l: BitString)
    ensures Covers(l, SUBBAND_ORDER, SUBBANDS)
  {
    assert SUBBAND_ORDER[0] == SUBBANDS_8 && SUBBAND_ORDER[1] == SUBBANDS_4;
  }

  method SelectSubbands(lcaps: View, rcaps: View, config: View) returns (ok: bool)
    requires LocalCapabilities(BitsOf(lcaps.data[..]))
    requires rcaps.data.Length == config.data.Length == CAPABILITIES_SIZE
    requires config.data != lcaps.data && config.data != rcaps.data
    requires Clear(BitsOf(config.data[..]), SUBBANDS)
    modifies config.data
    ensures ok <==> Mutual(BitsOf(lcaps.data[..]), BitsOf(rcaps.data[..]), SUBBANDS)
    ensures ok ==> Selected(BitsOf(lcaps.data[..]), BitsOf(rcaps.data[..]), SUBBAND_ORDER, BitsOf(config.data[..]), SUBBANDS)
    ensures SameOutside(old(BitsOf(config.data[..])), BitsOf(config.data[..]), SUBBANDS)
  {
    SubbandsCovered(BitsOf(lcaps.data[..]));
    ok := SelectFirst(lcaps, rcaps, config, SUBBAND_ORDER, SUBBANDS);
  }

  lemma AllocationsCovered(l: BitString)
    ensures Covers(l, ALLOCATION_ORDER, ALLOCATION_METHOD)
  {
    assert ALLOCATION_ORDER[0] == ALLOCATION_LOUDNESS && ALLOCATION_ORDER[1] == ALLOCATION_SNR;
  }

  method SelectAllocationMethod(lcaps: View, rcaps: View, config: View) returns (ok: bool)
    requires LocalCapabilities(BitsOf(lcaps.data[..]))
    requires rcaps.data.Length == config.data.Length == CAPABILITIES_SIZE
    requires config.data != lcaps.data && config.data != rcaps.data
    requires Clear(BitsOf(config.data[..]), ALLOCATION_METHOD)
    modifies config.data
    ensures ok <==> Mutual(BitsOf(lcaps.data[..]), BitsOf(rcaps.data[..]), ALLOCATION_METHOD)
    ensures ok ==> Selected(BitsOf(lcaps.data[..]), BitsOf(rcaps.data[..]), ALLOCATION_ORDER, BitsOf(config.data[..]), ALLOCATION_METHOD)
    ensures SameOutside(old(BitsOf(config.data[..])), BitsOf(config.data[..]), ALLOCATION_METHOD)
  {
    AllocationsCovered(BitsOf(lcaps.data[..]));
    ok := SelectFirst(lcaps, rcaps, config, ALLOCATION_ORDER, ALLOCATION_METHOD);
  }

  /** The five selections in the order the source makes them. */
  method SelectFields(lcaps: View, rcaps: View, config: View, hint: Option<CodecParameters>) returns (ok: bool)
    requires LocalCapabilities(BitsOf(lcaps.data[..]))
    requires rcaps.data.Length == config.data.Length == CAPABILITIES_SIZE
    requires config.data != lcaps.data && config.data != rcaps.data
    requires Clear(BitsOf(config.data[..]), Range(0, 32))
    modifies config.data
    ensures ok <==> Negotiable(BitsOf(lcaps.data[..]), BitsOf(rcaps.data[..]))
    ensures ok ==> FieldsSelected(BitsOf(lcaps.data[..]), BitsOf(rcaps.data[..]), hint, BitsOf(config.data[..]))
  {
    ghost var l, r := BitsOf(lcaps.data[..]), BitsOf(rcaps.data[..]);
    ok := SelectSamplingFrequency(lcaps, rcaps, config, hint);
    if !ok { return; }
    ghost var s1 := BitsOf(config.data[..]);
    ok := SelectChannelMode(lcaps, rcaps, config, hint);
    if !ok { return; }
    ghost var s2 := BitsOf(config.data[..]);
    SelectionKept(l, r, FrequencyOrder(hint), s1, s2, CHANNEL_MODE, SAMPLING_FREQUENCY);
    ok := SelectBlockLength(lcaps, rcaps, config);
    if !ok { return; }
    ghost var s3 := BitsOf(config.data[..]);
    SelectionKept(l, r, FrequencyOrder(hint), s2, s3, BLOCK_LENGTH, SAMPLING_FREQUENCY);
    SelectionKept(l, r, ModeOrder(hint), s2, s3, BLOCK_LENGTH, CHANNEL_MODE);
    ok := SelectSubbands(lcaps, rcaps, config);
    if !ok { return; }
    ghost var s4 := BitsOf(config.data[..]);
    SelectionKept(l, r, FrequencyOrder(hint), s3, s4, SUBBANDS, SAMPLING_FREQUENCY);
    SelectionKept(l, r, ModeOrder(hint), s3, s4, SUBBANDS, CHANNEL_MODE);
    SelectionKept(l, r, BLOCK_ORDER, s3, s4, SUBBANDS, BLOCK_LENGTH);
    ok := SelectAllocationMethod(lcaps, rcaps, config);
    FieldsKept(l, r, hint, s4, BitsOf(config.data[..]), ALLOCATION_METHOD);
  }

  lemma PoolsWritten(l: BitString, r: BitString, hint: Option<CodecParameters>, s: BitString, t: BitString, u: BitString, low: nat, high: nat)
    requires |s| == CAPABILITIES_BITS && low < 256 && high < 256
    requires SameOutside(s, t, MINIMUM_BITPOOL) && RangeValue(t, MINIMUM_BITPOOL) == low % Pow2(8)
    requires SameOutside(t, u, MAXIMUM_BITPOOL) && RangeValue(u, MAXIMUM_BITPOOL) == high % Pow2(8)
    ensures FieldsSelected(l, r, hint, s) ==> FieldsSelected(l, r, hint, u)
    ensures Shaped(s) ==> Shaped(u) && ShapeOf(u) == ShapeOf(s)
    ensures RangeValue(u, MINIMUM_BITPOOL) == low && RangeValue(u, MAXIMUM_BITPOOL) == high
  {
    assert RangeValue(u, MINIMUM_BITPOOL) == low && RangeValue(u, MAXIMUM_BITPOOL) == high by {
      ValueKept(t, u, MAXIMUM_BITPOOL, MINIMUM_BITPOOL);
      ByteValue(low);
      ByteValue(high);
    }
    FieldsKept(l, r, hint, s, t, MINIMUM_BITPOOL);
    FieldsKept(l, r, hint, t, u, MAXIMUM_BITPOOL);
  }

  method GetBitpools(caps: View) returns (low: nat, high: nat)
    requires caps.data.Length == CAPABILITIES_SIZE
    ensures low == RangeValue(BitsOf(caps.data[..]), MINIMUM_BITPOOL)
    ensures high == RangeValue(BitsOf(caps.data[..]), MAXIMUM_BITPOOL)
  {
    low := caps.GetRange(MINIMUM_BITPOOL);
    high := caps.GetRange(MAXIMUM_BITPOOL);
  }

  /** The bounds before any hint: the remote's where they make sense, raised to the local ones. */
  method UnhintedBitpools(lcaps: View, rcaps: View) returns (low: nat, high: nat)
    requires LocalCapabilities(BitsOf(lcaps.data[..])) && rcaps.data.Length == CAPABILITIES_SIZE
    ensures (low, high) == UnhintedPools(RangeValue(BitsOf(rcaps.data[..]), MINIMUM_BITPOOL),
                                         RangeValue(BitsOf(rcaps.data[..]), MAXIMUM_BITPOOL))
  {
    low, high := GetBitpools(rcaps);
    if low < 2 || low > 250 || high < 2 || high > 250 || low > high {
      low, high := 2, 250;
    }
    var localLow, localHigh := GetBitpools(lcaps);
    low := Max(low, localLow);
    high := Max(high, localHigh);
  }

  method HintedBitpools(config: View, unhinted: (nat, nat), hint: CodecParameters) returns (low: nat, high: nat)
    requires Shaped(BitsOf(config.data[..])) && unhinted.0 < 256 && unhinted.1 < 256
    ensures (low, high) == HintedPools(ShapeOf(BitsOf(config.data[..])), unhinted, hint)
    ensures low < 256 && high < 256
  {
    low, high := unhinted.0, unhinted.1;
    var hintedLow := GetBitpool(config, hint.minBitrate);
    low := Max(low, hintedLow);
    if hint.maxBitrate != 0 && hint.maxBitrate >= hint.minBitrate {
      var hintedHigh := GetBitpool(config, hint.maxBitrate);
      high := Min(high, hintedHigh);
    }
  }

  method SelectBitpools(lcaps: View, rcaps: View, config: View, hint: Option<CodecParameters>)
    requires LocalCapabilities(BitsOf(lcaps.data[..]))
    requires FieldsSelected(BitsOf(lcaps.data[..]), BitsOf(rcaps.data[..]), hint, BitsOf(config.data[..]))
    requires config.data != lcaps.data && config.data != rcaps.data
    modifies config.data
    ensures Built(BitsOf(lcaps.data[..]), BitsOf(rcaps.data[..]), hint, BitsOf(config.data[..]))
  {
    ghost var l, r, s := BitsOf(lcaps.data[..]), BitsOf(rcaps.data[..]), BitsOf(config.data[..]);
    var low, high := UnhintedBitpools(lcaps, rcaps);
    if hint.Some? {
      low, high := HintedBitpools(config, (low, high), hint.value);
    }
    config.SetRange(MINIMUM_BITPOOL, low);
    ghost var t := BitsOf(config.data[..]);
    config.SetRange(MAXIMUM_BITPOOL, high);
    PoolsWritten(l, r, hint, s, t, BitsOf(config.data[..]), low, high);
  }

  class A2dpOffloadCodecSbc {
    const capabilities: array<Byte>

    ghost predicate Valid()
      reads capabilities
    {
      LocalCapabilities(BitsOf(capabilities[..]))
    }

    constructor ()
      ensures Valid() && fresh(capabilities) && capabilities[..] == [0x3F, 0xFF, 2, 250]
    {
      capabilities := new Byte[CAPABILITIES_SIZE](_ => 0);
      new;
      var caps := new View(capabilities);
      ZeroIsClear(caps.data[..]);
      AllowFields(caps);
      AllowBitpools(caps);
      LocalBytes(capabilities[..]);
    }

    method ParseConfiguration(configuration: array<Byte>)
      returns (status: A2dpStatus, parameters: Option<CodecParameters>, sbc: Option<SbcParameters>)
      requires Valid()
      ensures status == ParseStatus(BitsOf(capabilities[..]), BitsOf(configuration[..]))
      ensures status == OK <==> parameters.Some?
      ensures status == OK ==> parameters == Some(ParsedParameters(BitsOf(configuration[..])))
                               && sbc == Some(ParsedSbc(BitsOf(configuration[..])))
    {
      parameters, sbc := None, None;
      if configuration.Length != capabilities.Length {
        return BAD_LENGTH, None, None;
      }
      var config := new View(configuration);
      var lcaps := new View(capabilities);

      var frequency := config.FindActiveBit(SAMPLING_FREQUENCY);
      if frequency < 0 { return INVALID_SAMPLING_FREQUENCY, None, None; }
      if !lcaps.Get(frequency) { return NOT_SUPPORTED_SAMPLING_FREQUENCY, None, None; }

      var mode := config.FindActiveBit(CHANNEL_MODE);
      if mode < 0 { return INVALID_CHANNEL_MODE, None, None; }
      if !lcaps.Get(mode) { return NOT_SUPPORTED_CHANNEL_MODE, None, None; }

      var blocks := config.FindActiveBit(BLOCK_LENGTH);
      if blocks < 0 { return INVALID_BLOCK_LENGTH, None, None; }

      var subbands := config.FindActiveBit(SUBBANDS);
      if subbands < 0 { return INVALID_SUBBANDS, None, None; }
      if !lcaps.Get(subbands) { return NOT_SUPPORTED_SUBBANDS, None, None; }

      var allocation := config.FindActiveBit(ALLOCATION_METHOD);
      if allocation < 0 { return INVALID_ALLOCATION_METHOD, None, None; }
      if !lcaps.Get(allocation) { return NOT_SUPPORTED_ALLOCATION_METHOD, None, None; }

      var low := config.GetRange(MINIMUM_BITPOOL);
      if low < 2 || low > 250 { return INVALID_MINIMUM_BITPOOL_VALUE, None, None; }
      var localLow := lcaps.GetRange(MINIMUM_BITPOOL);
      if low < localLow { return NOT_SUPPORTED_MINIMUM_BITPOOL_VALUE, None, None; }

      var high := config.GetRange(MAXIMUM_BITPOOL);
      if high < 2 || high > 250 { return INVALID_MAXIMUM_BITPOOL_VALUE, None, None; }
      var localHigh := lcaps.GetRange(MAXIMUM_BITPOOL);
      if high > localHigh { return NOT_SUPPORTED_MAXIMUM_BITPOOL_VALUE, None, None; }

      var minBitrate := GetBitrate(config, low);
      var maxBitrate := GetBitrate(config, high);
      return OK,
        Some(CodecParameters(ChannelModeOf(mode), SamplingFrequencyValue(frequency), BITDEPTH, minBitrate, maxBitrate)),
        Some(SbcParameters(AllocationMethodOf(allocation), BlockLengthValue(blocks), SubbandsValue(subbands), low, high));
    }

    /** Builds exactly when both sides meet in every field. */
    method BuildConfiguration(remote: array<Byte>, hint: Option<CodecParameters>)
      returns (ok: bool, configuration: array<Byte>)
      requires Valid()
      ensures fresh(configuration)
      ensures ok <==> Negotiable(BitsOf(capabilities[..]), BitsOf(remote[..]))
      ensures ok ==> Built(BitsOf(capabilities[..]), BitsOf(remote[..]), hint, BitsOf(configuration[..]))
    {
      configuration := new Byte[capabilities.Length](_ => 0);
      if remote.Length != capabilities.Length {
        return false, configuration;
      }
      var lcaps := new View(capabilities);
      var rcaps := new View(remote);
      var config := new View(configuration);
      ZeroIsClear(config.data[..]);
      ok := SelectFields(lcaps, rcaps, config, hint);
      if !ok {
        return false, configuration;
      }
      SelectBitpools(lcaps, rcaps, config, hint);
    }

    /** A build followed by the parse that the factory asserts to succeed. */
    method Configure(remote: seq<Byte>, hint: Option<CodecParameters>)
      returns (configured: Option<(seq<Byte>, CodecParameters)>)
      requires Valid()
      ensures configured.Some? <==> Negotiable(BitsOf(capabilities[..]), BitsOf(remote))
      ensures configured.Some? ==>
        && Built(BitsOf(capabilities[..]), BitsOf(remote), hint, BitsOf(configured.value.0))
        && configured.value.1 == ParsedParameters(BitsOf(configured.value.0))
    {
      var vector := new Byte[|remote|](i requires 0 <= i < |remote| => remote[i]);
      assert vector[..] == remote;
      var ok, bytes := BuildConfiguration(vector, hint);
      if !ok {
        return None;
      }
      BuiltParses(BitsOf(capabilities[..]), BitsOf(remote), hint, BitsOf(bytes[..]));
      var status, parameters, _ := ParseConfiguration(bytes);
      assert status == OK;
      return Some((bytes[..], parameters.value));
    }
  }
}
