/** AAC capability negotiation (A2DP section 4.5). */
module A2dpOffloadCodecAac {
  import opened Wrappers
  import opened Bits
  import opened A2dpBits
  import opened A2dpCodec

  const OBJECT_TYPE := Range(0, 7)
  const SAMPLING_FREQUENCY := Range(8, 12)
  const CHANNELS := Range(20, 4)
  const VBR_SUPPORTED := Range(24, 1)
  const BITRATE := Range(25, 23)
  const CAPABILITIES_SIZE := 6
  const CAPABILITIES_BITS := 48

  const OBJECT_MPEG2_AAC_LC := 0
  const OBJECT_MPEG4_AAC_LC := 1
  const FREQUENCY_44100 := 15
  const FREQUENCY_48000 := 16
  const FREQUENCY_88200 := 18
  const FREQUENCY_96000 := 19
  const CHANNELS_1 := 20
  const CHANNELS_2 := 21

  const BITDEPTH := 24

  datatype ObjectType = MPEG2_AAC_LC | MPEG4_AAC_LC

  /** The twelve sampling rates, in the order of their bits from bit 8 on. */
  const FREQUENCIES: seq<int> := [8000, 11025, 12000, 16000, 22050, 24000, 32000, 44100, 48000, 64000, 88200, 96000]

  function SamplingFrequencyBit(hz: int): int {
    match hz
    case 8000 => 8
    case 11025 => 9
    case 12000 => 10
    case 16000 => 11
    case 22050 => 12
    case 24000 => 13
    case 32000 => 14
    case 44100 => FREQUENCY_44100
    case 48000 => FREQUENCY_48000
    case 64000 => 17
    case 88200 => FREQUENCY_88200
    case 96000 => FREQUENCY_96000
    case _ => -1
  }

  function SamplingFrequencyValue(bit: int): int {
    if 8 <= bit < 20 then FREQUENCIES[bit - 8] else 0
  }

  function ChannelsBit(mode: ChannelMode): int {
    match mode
    case MONO => CHANNELS_1
    case STEREO => CHANNELS_2
    case _ => -1
  }

  function ChannelModeOf(bit: int): ChannelMode {
    if bit == CHANNELS_1 then MONO else if bit == CHANNELS_2 then STEREO else UNKNOWN
  }

  function ObjectTypeOf(bit: int): ObjectType {
    if bit == OBJECT_MPEG2_AAC_LC then MPEG2_AAC_LC else MPEG4_AAC_LC
  }

  lemma BitsInvert(hint: CodecParameters)
    ensures SamplingFrequencyBit(hint.samplingFrequencyHz) >= 0 ==>
              SamplingFrequencyValue(SamplingFrequencyBit(hint.samplingFrequencyHz)) == hint.samplingFrequencyHz
    ensures ChannelsBit(hint.channelMode) >= 0 ==> ChannelModeOf(ChannelsBit(hint.channelMode)) == hint.channelMode
  {
  }

  const LOCAL_BITS: set<int> :=
    {OBJECT_MPEG2_AAC_LC, OBJECT_MPEG4_AAC_LC, FREQUENCY_44100, FREQUENCY_48000, CHANNELS_1, CHANNELS_2, 24}

  /** Both LC object types, 44.1 and 48 kHz, mono and stereo, VBR; no bitrate limit. */
  ghost predicate LocalCapabilities(l: BitString) {
    && |l| == CAPABILITIES_BITS
    && (forall b: nat | b < 25 :: l[b] == (b in LOCAL_BITS))
    && RangeValue(l, BITRATE) == 0
  }

  const OBJECT_ORDER: seq<int> := [OBJECT_MPEG2_AAC_LC, OBJECT_MPEG4_AAC_LC]

  function FrequencyOrder(hint: Option<CodecParameters>): seq<int> {
    [if hint.Some? then SamplingFrequencyBit(hint.value.samplingFrequencyHz) else -1,
     FREQUENCY_96000, FREQUENCY_88200, FREQUENCY_48000, FREQUENCY_44100]
  }

  function ChannelOrder(hint: Option<CodecParameters>): seq<int> {
    [if hint.Some? then ChannelsBit(hint.value.channelMode) else -1, CHANNELS_2, CHANNELS_1]
  }

  /** Variable bitrate needs both sides and no hinted minimum. */
  ghost predicate WantsVbr(l: BitString, r: BitString, hint: Option<CodecParameters>)
    requires Fits(VBR_SUPPORTED, l) && Fits(VBR_SUPPORTED, r)
  {
    (hint.None? || hint.value.minBitrate == 0) && RangeValue(l, VBR_SUPPORTED) != 0 && RangeValue(r, VBR_SUPPORTED) != 0
  }

  function WantedBitrate(local: int, hint: Option<CodecParameters>): int {
    if hint.None? || hint.value.maxBitrate <= 0 then local
    else if local != 0 && local < hint.value.maxBitrate then local
    else hint.value.maxBitrate
  }

  /** The source's two guarded assignments. */
  function LimitedBitrate(limit: int, hint: Option<CodecParameters>): (bitrate: int)
    ensures bitrate == WantedBitrate(limit, hint)
  {
    if hint.Some? && hint.value.maxBitrate > 0 && limit != 0 then
      if limit < hint.value.maxBitrate then limit else hint.value.maxBitrate
    else if hint.Some? && hint.value.maxBitrate > 0 then hint.value.maxBitrate
    else limit
  }

  ghost predicate FieldsSelected(l: BitString, r: BitString, hint: Option<CodecParameters>, c: BitString) {
    && |l| == |r| == |c| == CAPABILITIES_BITS
    && Selected(l, r, OBJECT_ORDER, c, OBJECT_TYPE)
    && Selected(l, r, FrequencyOrder(hint), c, SAMPLING_FREQUENCY)
    && Selected(l, r, ChannelOrder(hint), c, CHANNELS)
  }

  ghost predicate Built(l: BitString, r: BitString, hint: Option<CodecParameters>, c: BitString) {
    && FieldsSelected(l, r, hint, c)
    && (RangeValue(c, VBR_SUPPORTED) != 0 <==> WantsVbr(l, r, hint))
    && RangeValue(c, BITRATE) == WantedBitrate(RangeValue(l, BITRATE), hint) % Pow2(23)
    && !c[7]
  }

  ghost predicate Negotiable(l: BitString, r: BitString) {
    && |r| == CAPABILITIES_BITS
    && Mutual(l, r, OBJECT_TYPE)
    && Mutual(l, r, SAMPLING_FREQUENCY)
    && Mutual(l, r, CHANNELS)
  }

  /** A bitrate above the local limit only matters with VBR; a limit of zero is none. */
  ghost function RateFault(l: BitString, c: BitString): A2dpStatus
    requires |l| == |c| == CAPABILITIES_BITS
  {
    var vbr, limit := RangeValue(c, VBR_SUPPORTED) != 0, RangeValue(l, BITRATE);
    if vbr && RangeValue(l, VBR_SUPPORTED) == 0 then NOT_SUPPORTED_VBR
    else if vbr && limit != 0 && RangeValue(c, BITRATE) > limit then NOT_SUPPORTED_BIT_RATE
    else OK
  }

  /** The first fault of a configuration, in the order the fields are checked. */
  ghost function ParseStatus(l: BitString, c: BitString): A2dpStatus
    requires |l| == CAPABILITIES_BITS
  {
    if |c| != |l| then BAD_LENGTH else
    Then(FieldFault(l, c, OBJECT_TYPE, INVALID_OBJECT_TYPE, NOT_SUPPORTED_OBJECT_TYPE),
    Then(FieldFault(l, c, SAMPLING_FREQUENCY, INVALID_SAMPLING_FREQUENCY, NOT_SUPPORTED_SAMPLING_FREQUENCY),
    Then(FieldFault(l, c, CHANNELS, INVALID_CHANNELS, NOT_SUPPORTED_CHANNELS),
         RateFault(l, c))))
  }

  ghost function ParsedParameters(c: BitString): CodecParameters
    requires |c| == CAPABILITIES_BITS
  {
    var bitrate := RangeValue(c, BITRATE);
    CodecParameters(ChannelModeOf(ActiveBit(c, CHANNELS)), SamplingFrequencyValue(ActiveBit(c, SAMPLING_FREQUENCY)),
                    BITDEPTH, if RangeValue(c, VBR_SUPPORTED) != 0 then 0 else bitrate, bitrate)
  }

  // ---------- Theorems ----------

  lemma OneBitRange(s: BitString, bit: nat)
    requires bit < |s|
    ensures RangeValue(s, Range(bit, 1)) == if s[bit] then 1 else 0
  {
    assert s[bit..bit + 1] == [s[bit]] && [s[bit]][..0] == [];
    assert Value([s[bit]]) == 2 * Value([]) + (if s[bit] then 1 else 0);
  }

  /** Exactly the configurations with one locally supported bit in each field parse; any VBR flag and bitrate will do. */
  lemma LegalParses(l: BitString, c: BitString)
    requires LocalCapabilities(l)
    ensures ParseStatus(l, c) == OK <==>
      && |c| == CAPABILITIES_BITS
      && LocallySupported(l, c, OBJECT_TYPE) && LocallySupported(l, c, SAMPLING_FREQUENCY)
      && LocallySupported(l, c, CHANNELS)
  {
    if |c| == CAPABILITIES_BITS {
      FaultlessField(l, c, OBJECT_TYPE, INVALID_OBJECT_TYPE, NOT_SUPPORTED_OBJECT_TYPE);
      FaultlessField(l, c, SAMPLING_FREQUENCY, INVALID_SAMPLING_FREQUENCY, NOT_SUPPORTED_SAMPLING_FREQUENCY);
      FaultlessField(l, c, CHANNELS, INVALID_CHANNELS, NOT_SUPPORTED_CHANNELS);
      OneBitRange(l, 24);
    }
  }

  /** Whatever is built also parses, for every remote and every hint. */
  lemma BuiltParses(l: BitString, r: BitString, hint: Option<CodecParameters>, c: BitString)
    requires LocalCapabilities(l) && Built(l, r, hint, c)
    ensures ParseStatus(l, c) == OK
  {
    SelectedIsLocal(l, r, OBJECT_ORDER, c, OBJECT_TYPE);
    SelectedIsLocal(l, r, FrequencyOrder(hint), c, SAMPLING_FREQUENCY);
    SelectedIsLocal(l, r, ChannelOrder(hint), c, CHANNELS);
    LegalParses(l, c);
  }

  /** A mutually supported sampling rate or channel mode asked for is the one parsed back. */
  lemma HintSurvives(l: BitString, r: BitString, hint: CodecParameters, c: BitString)
    requires FieldsSelected(l, r, Some(hint), c)
    ensures Shared(l, r, SamplingFrequencyBit(hint.samplingFrequencyHz)) ==>
              ParsedParameters(c).samplingFrequencyHz == hint.samplingFrequencyHz
    ensures Shared(l, r, ChannelsBit(hint.channelMode)) ==>
              ParsedParameters(c).channelMode == hint.channelMode
  {
    FirstChoiceTaken(l, r, FrequencyOrder(Some(hint)), ActiveBit(c, SAMPLING_FREQUENCY));
    FirstChoiceTaken(l, r, ChannelOrder(Some(hint)), ActiveBit(c, CHANNELS));
    BitsInvert(hint);
  }

  /** A hinted maximum bitrate comes back exactly when it fits the 23-bit field. */
  lemma BitrateHintSurvives(l: BitString, r: BitString, hint: CodecParameters, c: BitString)
    requires LocalCapabilities(l) && Built(l, r, Some(hint), c) && hint.maxBitrate > 0
    ensures ParsedParameters(c).maxBitrate == hint.maxBitrate <==> hint.maxBitrate < Pow2(23)
  {
    RangeValueBelow(c, BITRATE);
    if hint.maxBitrate < Pow2(23) {
      SmallRemainder(hint.maxBitrate, Pow2(23));
    }
  }

  /** The built bytes are fully determined by the remote capabilities and the hint. */
  lemma BuiltUnique(l: BitString, r: BitString, hint: Option<CodecParameters>, c: BitString, d: BitString)
    requires Built(l, r, hint, c) && Built(l, r, hint, d)
    ensures c == d
  {
    SelectionUnique(l, r, OBJECT_ORDER, c, d, OBJECT_TYPE);
    SelectionUnique(l, r, FrequencyOrder(hint), c, d, SAMPLING_FREQUENCY);
    SelectionUnique(l, r, ChannelOrder(hint), c, d, CHANNELS);
    OneBitRange(c, 24);
    OneBitRange(d, 24);
    SameValueSameBits(c, d, BITRATE);
    forall b: nat | b < CAPABILITIES_BITS ensures c[b] == d[b] {
      assert b == 7 || b == 24 || InRange(OBJECT_TYPE, b) || InRange(SAMPLING_FREQUENCY, b)
             || InRange(CHANNELS, b) || InRange(BITRATE, b);
    }
  }

  // ---------- What the bits mean, bit by bit ----------

  /** The parsed parameters, field by field from the bits of A2DP section 4.5. */
  lemma ParsedRate(c: BitString)
    requires |c| == CAPABILITIES_BITS
    ensures OnlyBit(c, Range(8, 12), 8) ==> ParsedParameters(c).samplingFrequencyHz == 8000
    ensures OnlyBit(c, Range(8, 12), 9) ==> ParsedParameters(c).samplingFrequencyHz == 11025
    ensures OnlyBit(c, Range(8, 12), 10) ==> ParsedParameters(c).samplingFrequencyHz == 12000
    ensures OnlyBit(c, Range(8, 12), 11) ==> ParsedParameters(c).samplingFrequencyHz == 16000
    ensures OnlyBit(c, Range(8, 12), 12) ==> ParsedParameters(c).samplingFrequencyHz == 22050
    ensures OnlyBit(c, Range(8, 12), 13) ==> ParsedParameters(c).samplingFrequencyHz == 24000
    ensures OnlyBit(c, Range(8, 12), 14) ==> ParsedParameters(c).samplingFrequencyHz == 32000
    ensures OnlyBit(c, Range(8, 12), 15) ==> ParsedParameters(c).samplingFrequencyHz == 44100
    ensures OnlyBit(c, Range(8, 12), 16) ==> ParsedParameters(c).samplingFrequencyHz == 48000
    ensures OnlyBit(c, Range(8, 12), 17) ==> ParsedParameters(c).samplingFrequencyHz == 64000
    ensures OnlyBit(c, Range(8, 12), 18) ==> ParsedParameters(c).samplingFrequencyHz == 88200
    ensures OnlyBit(c, Range(8, 12), 19) ==> ParsedParameters(c).samplingFrequencyHz == 96000
  {
  }

  lemma ParsedRest(c: BitString)
    requires |c| == CAPABILITIES_BITS
    ensures OnlyBit(c, Range(20, 4), 20) ==> ParsedParameters(c).channelMode == MONO
    ensures OnlyBit(c, Range(20, 4), 21) ==> ParsedParameters(c).channelMode == STEREO
    ensures OnlyBit(c, Range(0, 7), 0) ==> ObjectTypeOf(ActiveBit(c, OBJECT_TYPE)) == MPEG2_AAC_LC
    ensures OnlyBit(c, Range(0, 7), 1) ==> ObjectTypeOf(ActiveBit(c, OBJECT_TYPE)) == MPEG4_AAC_LC
    ensures ParsedParameters(c).maxBitrate == RangeValue(c, Range(25, 23))
    ensures ParsedParameters(c).minBitrate == if c[24] then 0 else RangeValue(c, Range(25, 23))
    ensures ParsedParameters(c).bitdepth == 24
  {
    OneBitRange(c, 24);
  }

  /** Every status of the parser, by the first field in the order of the checks that is at fault. */
  lemma FaultsNamed(l: BitString, c: BitString)
    requires |l| == CAPABILITIES_BITS
    ensures ParseStatus(l, c) == BAD_LENGTH <==> |c| != 48
    ensures |c| == 48 ==>
      var kind := Supported(l, c, 0, 7);
      var rate := kind && Supported(l, c, 8, 12);
      var channels := rate && Supported(l, c, 20, 4);
      var limit := RangeValue(l, Range(25, 23));
      var tooFast := limit != 0 && RangeValue(c, Range(25, 23)) > limit;
      && (ParseStatus(l, c) == INVALID_OBJECT_TYPE <==> !Single(c, 0, 7))
      && (ParseStatus(l, c) == NOT_SUPPORTED_OBJECT_TYPE <==> Single(c, 0, 7) && !kind)
      && (ParseStatus(l, c) == INVALID_SAMPLING_FREQUENCY <==> kind && !Single(c, 8, 12))
      && (ParseStatus(l, c) == NOT_SUPPORTED_SAMPLING_FREQUENCY <==> kind && Single(c, 8, 12) && !rate)
      && (ParseStatus(l, c) == INVALID_CHANNELS <==> rate && !Single(c, 20, 4))
      && (ParseStatus(l, c) == NOT_SUPPORTED_CHANNELS <==> rate && Single(c, 20, 4) && !channels)
      && (ParseStatus(l, c) == NOT_SUPPORTED_VBR <==> channels && c[24] && !l[24])
      && (ParseStatus(l, c) == NOT_SUPPORTED_BIT_RATE <==> channels && c[24] && l[24] && tooFast)
      && (ParseStatus(l, c) == OK <==> channels && (!c[24] || (l[24] && !tooFast)))
  {
    if |c| == 48 {
      FieldFaultNamed(l, c, OBJECT_TYPE, INVALID_OBJECT_TYPE, NOT_SUPPORTED_OBJECT_TYPE);
      FieldFaultNamed(l, c, SAMPLING_FREQUENCY, INVALID_SAMPLING_FREQUENCY, NOT_SUPPORTED_SAMPLING_FREQUENCY);
      FieldFaultNamed(l, c, CHANNELS, INVALID_CHANNELS, NOT_SUPPORTED_CHANNELS);
      OneBitRange(c, 24);
      OneBitRange(l, 24);
    }
  }

  /** Which remotes a configuration can be built for, by the remote's bits. */
  lemma NegotiableRemotes(l: BitString, r: BitString)
    requires LocalCapabilities(l)
    ensures Negotiable(l, r) <==> |r| == 48 && (r[0] || r[1]) && (r[15] || r[16]) && (r[20] || r[21])
  {
    if |r| == 48 {
      forall b: nat | b < 24 ensures Shared(l, r, b) <==> b in {0, 1, 15, 16, 20, 21} && r[b] {
      }
    }
  }

  /** Of the object types both sides support a build takes MPEG-2. */
  lemma BuiltObjectType(l: BitString, r: BitString, hint: Option<CodecParameters>, c: BitString)
    requires FieldsSelected(l, r, hint, c)
    ensures OnlyBit(c, Range(0, 7), if l[0] && r[0] then 0 else 1)
  {
    if l[0] && r[0] {
      PreferredEntry(l, r, OBJECT_ORDER, 0, ActiveBit(c, OBJECT_TYPE));
    }
  }

  /** The hinted sampling rate is one that both sides support. */
  predicate RateHinted(l: BitString, r: BitString, hint: Option<CodecParameters>)
    requires |l| == |r| == 48
  {
    hint.Some? &&
    match hint.value.samplingFrequencyHz
    case 8000 => l[8] && r[8]
    case 11025 => l[9] && r[9]
    case 12000 => l[10] && r[10]
    case 16000 => l[11] && r[11]
    case 22050 => l[12] && r[12]
    case 24000 => l[13] && r[13]
    case 32000 => l[14] && r[14]
    case 44100 => l[15] && r[15]
    case 48000 => l[16] && r[16]
    case 64000 => l[17] && r[17]
    case 88200 => l[18] && r[18]
    case 96000 => l[19] && r[19]
    case _ => false
  }

  /** The rate is the hinted one where both sides support it, else the highest shared of the four it looks at. */
  lemma BuiltRate(l: BitString, r: BitString, hint: Option<CodecParameters>, c: BitString)
    requires FieldsSelected(l, r, hint, c)
    ensures ParsedParameters(c).samplingFrequencyHz ==
      if RateHinted(l, r, hint) then hint.value.samplingFrequencyHz
      else if l[19] && r[19] then 96000 else if l[18] && r[18] then 88200 else if l[16] && r[16] then 48000 else 44100
  {
    var order, rate := FrequencyOrder(hint), ActiveBit(c, SAMPLING_FREQUENCY);
    assert order[1] == 19 && order[2] == 18 && order[3] == 16 && order[4] == 15;
    assert RateHinted(l, r, hint) <==> Shared(l, r, order[0]);
    if RateHinted(l, r, hint) { PreferredEntry(l, r, order, 0, rate); }
    else if l[19] && r[19] { PreferredEntry(l, r, order, 1, rate); }
    else if l[18] && r[18] { PreferredEntry(l, r, order, 2, rate); }
    else if l[16] && r[16] { PreferredEntry(l, r, order, 3, rate); }
  }

  /** The channels are the hinted ones where both sides support them, else stereo before mono. */
  lemma BuiltChannels(l: BitString, r: BitString, hint: Option<CodecParameters>, c: BitString)
    requires FieldsSelected(l, r, hint, c)
    ensures var wanted := if hint.Some? then hint.value.channelMode else UNKNOWN;
            ParsedParameters(c).channelMode ==
              if wanted == MONO && l[20] && r[20] then MONO else if l[21] && r[21] then STEREO else MONO
  {
    var order, channels := ChannelOrder(hint), ActiveBit(c, CHANNELS);
    assert order[1] == 21 && order[2] == 20;
    if hint.Some? && hint.value.channelMode == MONO && l[20] && r[20] { PreferredEntry(l, r, order, 0, channels); }
    else if hint.Some? && hint.value.channelMode == STEREO && l[21] && r[21] { PreferredEntry(l, r, order, 0, channels); }
    else if l[21] && r[21] { PreferredEntry(l, r, order, 1, channels); }
  }

  lemma BitrateWidth()
    ensures Pow2(23) == 0x80_0000
  {
    assert Pow2(8) == 256;
    assert Pow2(16) == 65536;
  }

  /** The VBR flag wants both sides and no hinted minimum; the bitrate is the hinted maximum, if any, cut to 23 bits. */
  lemma BuiltRates(l: BitString, r: BitString, hint: Option<CodecParameters>, c: BitString)
    requires LocalCapabilities(l) && Built(l, r, hint, c)
    ensures c[24] <==> r[24] && (hint.None? || hint.value.minBitrate == 0)
    ensures RangeValue(c, Range(25, 23)) ==
      if hint.Some? && hint.value.maxBitrate > 0 then hint.value.maxBitrate % 0x80_0000 else 0
  {
    OneBitRange(l, 24);
    OneBitRange(r, 24);
    OneBitRange(c, 24);
    BitrateWidth();
  }

  const LOCAL_BYTES: seq<Byte> := [0xC0, 0x01, 0x8C, 0x80, 0, 0]

  lemma LocalByteBits(i: nat, j: nat)
    requires i < 6 && j < 8
    ensures Bit(LOCAL_BYTES[i], j) == (8 * i + 7 - j in LOCAL_BITS)
  {
    assert !Bit(0xC0, 0) && !Bit(0xC0, 1) && !Bit(0xC0, 2) && !Bit(0xC0, 3) && !Bit(0xC0, 4) && !Bit(0xC0, 5);
    assert Bit(0xC0, 6) && Bit(0xC0, 7);
    assert Bit(1, 0) && !Bit(1, 1) && !Bit(1, 2) && !Bit(1, 3) && !Bit(1, 4) && !Bit(1, 5) && !Bit(1, 6) && !Bit(1, 7);
    assert !Bit(0x8C, 0) && !Bit(0x8C, 1) && Bit(0x8C, 2) && Bit(0x8C, 3);
    assert !Bit(0x8C, 4) && !Bit(0x8C, 5) && !Bit(0x8C, 6) && Bit(0x8C, 7);
    assert !Bit(0x80, 0) && !Bit(0x80, 1) && !Bit(0x80, 2) && !Bit(0x80, 3);
    assert !Bit(0x80, 4) && !Bit(0x80, 5) && !Bit(0x80, 6) && Bit(0x80, 7);
    HighBitsClear(0, 0, j);
  }

  lemma LocalBits(l: BitString)
    requires LocalCapabilities(l)
    ensures forall b: nat | b < 48 :: l[b] == (b in LOCAL_BITS)
  {
    forall b: nat | 25 <= b < 48 ensures !l[b] {
      RangeValueBits(l, BITRATE, 47 - b);
      HighBitsClear(0, 0, 47 - b);
    }
  }

  lemma LocalByte(v: seq<Byte>, i: nat)
    requires |v| == 6 && i < 6 && forall b: nat | b < 48 :: BitsOf(v)[b] == (b in LOCAL_BITS)
    ensures v[i] == LOCAL_BYTES[i]
  {
    forall j: nat | j < 8 ensures Bit(LOCAL_BYTES[i], j) == BitsOf(v)[8 * i + 7 - j] {
      LocalByteBits(i, j);
    }
    ByteWithBits(v, i, LOCAL_BYTES[i]);
  }

  /** The local capability bytes. */
  lemma LocalBytes(v: seq<Byte>)
    requires LocalCapabilities(BitsOf(v))
    ensures v == [0xC0, 0x01, 0x8C, 0x80, 0, 0]
  {
    assert |v| == 6;
    LocalBits(BitsOf(v));
    forall i: nat | i < 6 ensures v[i] == LOCAL_BYTES[i] {
      LocalByte(v, i);
    }
  }

  // ---------- The codec ----------

  method AllowFields(caps: View)
    requires caps.data.Length == CAPABILITIES_SIZE && Clear(BitsOf(caps.data[..]), Range(0, CAPABILITIES_BITS))
    modifies caps.data
    ensures forall b: nat | b < CAPABILITIES_BITS :: BitsOf(caps.data[..])[b] == (b in LOCAL_BITS && b != 24)
  {
    caps.Set(OBJECT_MPEG2_AAC_LC, true);
    caps.Set(OBJECT_MPEG4_AAC_LC, true);
    caps.Set(FREQUENCY_44100, true);
    caps.Set(FREQUENCY_48000, true);
    caps.Set(FREQUENCY_88200, false);
    caps.Set(FREQUENCY_96000, false);
    caps.Set(CHANNELS_1, true);
    caps.Set(CHANNELS_2, true);
  }

  method AllowVbr(caps: View)
    requires caps.data.Length == CAPABILITIES_SIZE
    requires forall b: nat | b < CAPABILITIES_BITS :: BitsOf(caps.data[..])[b] == (b in LOCAL_BITS && b != 24)
    modifies caps.data
    ensures LocalCapabilities(BitsOf(caps.data[..]))
  {
    ghost var before := BitsOf(caps.data[..]);
    ClearIsZero(before, BITRATE);
    caps.SetRange(VBR_SUPPORTED, 1);
    OneBitRange(BitsOf(caps.data[..]), 24);
    ValueKept(before, BitsOf(caps.data[..]), VBR_SUPPORTED, BITRATE);
    assert Pow2(1) == 2;
  }

  lemma FieldsKept(l: BitString, r: BitString, hint: Option<CodecParameters>, s: BitString, t: BitString, written: Range)
    requires |s| == CAPABILITIES_BITS && SameOutside(s, t, written) && written in {CHANNELS, VBR_SUPPORTED, BITRATE}
    ensures Selected(l, r, OBJECT_ORDER, s, OBJECT_TYPE) ==> Selected(l, r, OBJECT_ORDER, t, OBJECT_TYPE)
    ensures Selected(l, r, FrequencyOrder(hint), s, SAMPLING_FREQUENCY) ==>
              Selected(l, r, FrequencyOrder(hint), t, SAMPLING_FREQUENCY)
    ensures written != CHANNELS && Selected(l, r, ChannelOrder(hint), s, CHANNELS) ==>
              Selected(l, r, ChannelOrder(hint), t, CHANNELS)
  {
    SelectionKept(l, r, OBJECT_ORDER, s, t, written, OBJECT_TYPE);
    SelectionKept(l, r, FrequencyOrder(hint), s, t, written, SAMPLING_FREQUENCY);
    if written != CHANNELS {
      SelectionKept(l, r, ChannelOrder(hint), s, t, written, CHANNELS);
    }
  }

  method SelectObjectType(lcaps: View, rcaps: View, config: View) returns (ok: bool)
    requires LocalCapabilities(BitsOf(lcaps.data[..]))
    requires rcaps.data.Length == config.data.Length == CAPABILITIES_SIZE
    requires config.data != lcaps.data && config.data != rcaps.data
    requires Clear(BitsOf(config.data[..]), OBJECT_TYPE)
    modifies config.data
    ensures ok <==> Mutual(BitsOf(lcaps.data[..]), BitsOf(rcaps.data[..]), OBJECT_TYPE)
    ensures ok ==> Selected(BitsOf(lcaps.data[..]), BitsOf(rcaps.data[..]), OBJECT_ORDER, BitsOf(config.data[..]), OBJECT_TYPE)
    ensures SameOutside(old(BitsOf(config.data[..])), BitsOf(config.data[..]), OBJECT_TYPE)
  {
    ok := SelectFirst(lcaps, rcaps, config, OBJECT_ORDER, OBJECT_TYPE);
  }

  method SelectSamplingFrequency(lcaps: View, rcaps: View, config: View, hint: Option<CodecParameters>) returns (ok: bool)
    requires LocalCapabilities(BitsOf(lcaps.data[..]))
    requires rcaps.data.Length == config.data.Length == CAPABILITIES_SIZE
    requires config.data != lcaps.data && config.data != rcaps.data
    requires Clear(BitsOf(config.data[..]), SAMPLING_FREQUENCY)
    modifies config.data
    ensures ok <==> Mutual(BitsOf(lcaps.data[..]), BitsOf(rcaps.data[..]), SAMPLING_FREQUENCY)
    ensures ok ==> Selected(BitsOf(lcaps.data[..]), BitsOf(rcaps.data[..]), FrequencyOrder(hint), BitsOf(config.data[..]), SAMPLING_FREQUENCY)
    ensures SameOutside(old(BitsOf(config.data[..])), BitsOf(config.data[..]), SAMPLING_FREQUENCY)
  {
    ok := SelectFirst(lcaps, rcaps, config, FrequencyOrder(hint), SAMPLING_FREQUENCY);
  }

  method SelectChannels(lcaps: View, rcaps: View, config: View, hint: Option<CodecParameters>) returns (ok: bool)
    requires LocalCapabilities(BitsOf(lcaps.data[..]))
    requires rcaps.data.Length == config.data.Length == CAPABILITIES_SIZE
    requires config.data != lcaps.data && config.data != rcaps.data
    requires Clear(BitsOf(config.data[..]), CHANNELS)
    modifies config.data
    ensures ok <==> Mutual(BitsOf(lcaps.data[..]), BitsOf(rcaps.data[..]), CHANNELS)
    ensures ok ==> Selected(BitsOf(lcaps.data[..]), BitsOf(rcaps.data[..]), ChannelOrder(hint), BitsOf(config.data[..]), CHANNELS)
    ensures SameOutside(old(BitsOf(config.data[..])), BitsOf(config.data[..]), CHANNELS)
  {
    ok := SelectFirst(lcaps, rcaps, config, ChannelOrder(hint), CHANNELS);
  }

  method SelectFields(lcaps: View, rcaps: View, config: View, hint: Option<CodecParameters>) returns (ok: bool)
    requires LocalCapabilities(BitsOf(lcaps.data[..]))
    requires rcaps.data.Length == config.data.Length == CAPABILITIES_SIZE
    requires config.data != lcaps.data && config.data != rcaps.data
    requires Clear(BitsOf(config.data[..]), Range(0, CAPABILITIES_BITS))
    modifies config.data
    ensures ok <==> Negotiable(BitsOf(lcaps.data[..]), BitsOf(rcaps.data[..]))
    ensures ok ==> FieldsSelected(BitsOf(lcaps.data[..]), BitsOf(rcaps.data[..]), hint, BitsOf(config.data[..]))
    ensures forall b: nat | b == 7 || 24 <= b < CAPABILITIES_BITS :: !BitsOf(config.data[..])[b]
  {
    ghost var l, r := BitsOf(lcaps.data[..]), BitsOf(rcaps.data[..]);
    ok := SelectObjectType(lcaps, rcaps, config);
    if !ok { return; }
    ghost var s1 := BitsOf(config.data[..]);
    ok := SelectSamplingFrequency(lcaps, rcaps, config, hint);
    if !ok { return; }
    ghost var s2 := BitsOf(config.data[..]);
    SelectionKept(l, r, OBJECT_ORDER, s1, s2, SAMPLING_FREQUENCY, OBJECT_TYPE);
    ok := SelectChannels(lcaps, rcaps, config, hint);
    if !ok { return; }
    FieldsKept(l, r, hint, s2, BitsOf(config.data[..]), CHANNELS);
  }

  method GetRates(caps: View) returns (vbr: nat, bitrate: nat)
    requires caps.data.Length == CAPABILITIES_SIZE
    ensures vbr == RangeValue(BitsOf(caps.data[..]), VBR_SUPPORTED)
    ensures bitrate == RangeValue(BitsOf(caps.data[..]), BITRATE)
  {
    vbr := caps.GetRange(VBR_SUPPORTED);
    bitrate := caps.GetRange(BITRATE);
  }

  method SelectVbr(lcaps: View, rcaps: View, config: View, hint: Option<CodecParameters>)
    requires lcaps.data.Length == rcaps.data.Length == config.data.Length == CAPABILITIES_SIZE
    requires Clear(BitsOf(config.data[..]), VBR_SUPPORTED)
    requires config.data != lcaps.data && config.data != rcaps.data
    modifies config.data
    ensures RangeValue(BitsOf(config.data[..]), VBR_SUPPORTED) != 0
       <==> WantsVbr(BitsOf(lcaps.data[..]), BitsOf(rcaps.data[..]), hint)
    ensures SameOutside(old(BitsOf(config.data[..])), BitsOf(config.data[..]), VBR_SUPPORTED)
  {
    ClearIsZero(BitsOf(config.data[..]), VBR_SUPPORTED);
    assert Pow2(1) == 2;
    if hint.None? || hint.value.minBitrate == 0 {
      var localVbr := lcaps.GetRange(VBR_SUPPORTED);
      var remoteVbr := rcaps.GetRange(VBR_SUPPORTED);
      config.SetRange(VBR_SUPPORTED, if localVbr != 0 && remoteVbr != 0 then 1 else 0);
    }
  }

  method SelectBitrate(lcaps: View, config: View, hint: Option<CodecParameters>)
    requires lcaps.data.Length == config.data.Length == CAPABILITIES_SIZE && config.data != lcaps.data
    modifies config.data
    ensures RangeValue(BitsOf(config.data[..]), BITRATE)
         == WantedBitrate(RangeValue(BitsOf(lcaps.data[..]), BITRATE), hint) % Pow2(23)
    ensures SameOutside(old(BitsOf(config.data[..])), BitsOf(config.data[..]), BITRATE)
  {
    var limit := lcaps.GetRange(BITRATE);
    config.SetRange(BITRATE, LimitedBitrate(limit, hint));
  }

  method SelectRates(lcaps: View, rcaps: View, config: View, hint: Option<CodecParameters>)
    requires FieldsSelected(BitsOf(lcaps.data[..]), BitsOf(rcaps.data[..]), hint, BitsOf(config.data[..]))
    requires Clear(BitsOf(config.data[..]), VBR_SUPPORTED) && !BitsOf(config.data[..])[7]
    requires config.data != lcaps.data && config.data != rcaps.data
    modifies config.data
    ensures Built(BitsOf(lcaps.data[..]), BitsOf(rcaps.data[..]), hint, BitsOf(config.data[..]))
  {
    ghost var l, r, s := BitsOf(lcaps.data[..]), BitsOf(rcaps.data[..]), BitsOf(config.data[..]);
    SelectVbr(lcaps, rcaps, config, hint);
    ghost var t := BitsOf(config.data[..]);
    FieldsKept(l, r, hint, s, t, VBR_SUPPORTED);
    SelectBitrate(lcaps, config, hint);
    FieldsKept(l, r, hint, t, BitsOf(config.data[..]), BITRATE);
    ValueKept(t, BitsOf(config.data[..]), BITRATE, VBR_SUPPORTED);
  }

  class A2dpOffloadCodecAac {
    const capabilities: array<Byte>

    ghost predicate Valid()
      reads capabilities
    {
      LocalCapabilities(BitsOf(capabilities[..]))
    }

    constructor ()
      ensures Valid() && fresh(capabilities) && capabilities[..] == [0xC0, 0x01, 0x8C, 0x80, 0, 0]
    {
      capabilities := new Byte[CAPABILITIES_SIZE](_ => 0);
      new;
      var caps := new View(capabilities);
      ZeroIsClear(caps.data[..]);
      AllowFields(caps);
      AllowVbr(caps);
      LocalBytes(capabilities[..]);
    }

    method ParseConfiguration(configuration: array<Byte>)
      returns (status: A2dpStatus, parameters: Option<CodecParameters>, objectType: Option<ObjectType>)
      requires Valid()
      ensures status == ParseStatus(BitsOf(capabilities[..]), BitsOf(configuration[..]))
      ensures status == OK <==> parameters.Some?
      ensures status == OK ==> parameters == Some(ParsedParameters(BitsOf(configuration[..])))
                               && objectType == Some(ObjectTypeOf(ActiveBit(BitsOf(configuration[..]), OBJECT_TYPE)))
    {
      if configuration.Length != capabilities.Length {
        return BAD_LENGTH, None, None;
      }
      var config := new View(configuration);
      var lcaps := new View(capabilities);

      var objectBit := config.FindActiveBit(OBJECT_TYPE);
      if objectBit < 0 { return INVALID_OBJECT_TYPE, None, None; }
      if !lcaps.Get(objectBit) { return NOT_SUPPORTED_OBJECT_TYPE, None, None; }

      var frequency := config.FindActiveBit(SAMPLING_FREQUENCY);
      if frequency < 0 { return INVALID_SAMPLING_FREQUENCY, None, None; }
      if !lcaps.Get(frequency) { return NOT_SUPPORTED_SAMPLING_FREQUENCY, None, None; }

      var channels := config.FindActiveBit(CHANNELS);
      if channels < 0 { return INVALID_CHANNELS, None, None; }
      if !lcaps.Get(channels) { return NOT_SUPPORTED_CHANNELS, None, None; }

      var vbr, bitrate := GetRates(config);
      var localVbr, limit := GetRates(lcaps);
      if vbr != 0 && localVbr == 0 { return NOT_SUPPORTED_VBR, None, None; }
      if vbr != 0 && limit != 0 && bitrate > limit { return NOT_SUPPORTED_BIT_RATE, None, None; }

      return OK,
        Some(CodecParameters(ChannelModeOf(channels), SamplingFrequencyValue(frequency), BITDEPTH,
                             if vbr != 0 then 0 else bitrate, bitrate)),
        Some(ObjectTypeOf(objectBit));
    }

    /** Builds exactly when both sides meet in object type, sampling rate and channels. */
    method BuildConfiguration(remote: array<Byte>, hint: Option<CodecParameters>)
      returns (ok: bool, configuration: array<Byte>)
      requires Valid()
      ensures fresh(configuration)
      ensures ok <==> Negotiable(BitsOf(capabilities[..]), BitsOf(remote[..]))
      ensures ok ==> Built(BitsOf(capabilities[..]), BitsOf(remote[..]), hint, BitsOf(configuration[..]))
    {
      configuration := new Byte[capabilities.Length](_ => 0);
      if remote.Length != capabilities.Length {
        return false, configuration;
      }
      var lcaps := new View(capabilities);
      var rcaps := new View(remote);
      var config := new View(configuration);
      ZeroIsClear(config.data[..]);
      ok := SelectFields(lcaps, rcaps, config, hint);
      if !ok {
        return false, configuration;
      }
      SelectRates(lcaps, rcaps, config, hint);
    }

    /** A build followed by the parse that the factory asserts to succeed. */
    method Configure(remote: seq<Byte>, hint: Option<CodecParameters>)
      returns (configured: Option<(seq<Byte>, CodecParameters)>)
      requires Valid()
      ensures configured.Some? <==> Negotiable(BitsOf(capabilities[..]), BitsOf(remote))
      ensures configured.Some? ==>
        && Built(BitsOf(capabilities[..]), BitsOf(remote), hint, BitsOf(configured.value.0))
        && configured.value.1 == ParsedParameters(BitsOf(configured.value.0))
    {
      var vector := new Byte[|remote|](i requires 0 <= i < |remote| => remote[i]);
      assert vector[..] == remote;
      var ok, bytes := BuildConfiguration(vector, hint);
      if !ok {
        return None;
      }
      BuiltParses(BitsOf(capabilities[..]), BitsOf(remote), hint, BitsOf(bytes[..]));
      var status, parameters, _ := ParseConfiguration(bytes);
      assert status == OK;
      return Some((bytes[..], parameters.value));
    }
  }
}
