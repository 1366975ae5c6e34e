/** Types shared by the A2DP offload codecs, and the notion of a mutually supported capability bit. */
module A2dpCodec {
  import opened Bits
  import opened A2dpBits

  datatype ChannelMode = UNKNOWN | MONO | STEREO | DUALMONO

  datatype CodecParameters = CodecParameters(
    channelMode: ChannelMode, samplingFrequencyHz: int, bitdepth: int, minBitrate: int, maxBitrate: int)

  datatype A2dpStatus =
    | OK
    | BAD_LENGTH
    | INVALID_OBJECT_TYPE | NOT_SUPPORTED_OBJECT_TYPE
    | INVALID_SAMPLING_FREQUENCY | NOT_SUPPORTED_SAMPLING_FREQUENCY
    | INVALID_CHANNEL_MODE | NOT_SUPPORTED_CHANNEL_MODE
    | INVALID_CHANNELS | NOT_SUPPORTED_CHANNELS
    | INVALID_BLOCK_LENGTH
    | INVALID_SUBBANDS | NOT_SUPPORTED_SUBBANDS
    | INVALID_ALLOCATION_METHOD | NOT_SUPPORTED_ALLOCATION_METHOD
    | INVALID_MINIMUM_BITPOOL_VALUE | NOT_SUPPORTED_MINIMUM_BITPOOL_VALUE
    | INVALID_MAXIMUM_BITPOOL_VALUE | NOT_SUPPORTED_MAXIMUM_BITPOOL_VALUE
    | NOT_SUPPORTED_VBR | NOT_SUPPORTED_BIT_RATE

  /** Both sides support the capability bit; -1 stands for "no such bit". */
  predicate Shared(l: BitString, r: BitString, bit: int) {
    0 <= bit < |l| && bit < |r| && l[bit] && r[bit]
  }

  /** Some bit of the field is supported by both sides. */
  ghost predicate Mutual(l: BitString, r: BitString, field: Range) {
    exists b: nat :: InRange(field, b) && Shared(l, r, b)
  }

  /** `bit` is the first mutually supported entry of a preference order. */
  ghost predicate Prefers(l: BitString, r: BitString, order: seq<int>, bit: int) {
    exists k: nat ::
      k < |order| && order[k] == bit && Shared(l, r, bit)
      && forall j: nat | j < k :: !Shared(l, r, order[j])
  }

  ghost predicate Clear(s: BitString, field: Range)
    requires Fits(field, s)
  {
    forall b: nat | InRange(field, b) :: !s[b]
  }

  ghost predicate Disjoint(f: Range, g: Range) {
    f.first + f.len <= g.first || g.first + g.len <= f.first
  }

  /** The field holds exactly the first mutually supported bit of the order. */
  ghost predicate Selected(l: BitString, r: BitString, order: seq<int>, config: BitString, field: Range)
    requires Fits(field, config)
  {
    var b := ActiveBit(config, field);
    b >= 0 && OnlyBit(config, field, b) && Prefers(l, r, order, b)
  }

  lemma OneBitSet(s: BitString, field: Range, bit: nat)
    requires Fits(field, s) && Clear(s, field) && InRange(field, bit)
    ensures var t := s[bit := true];
            ActiveBit(t, field) == bit && OnlyBit(t, field, bit) && SameOutside(s, t, field)
  {
    assert OnlyBit(s[bit := true], field, bit);
  }

  /** Writing one field leaves the selection made in another. */
  lemma SelectionKept(l: BitString, r: BitString, order: seq<int>, s: BitString, t: BitString, written: Range, field: Range)
    requires SameOutside(s, t, written) && Disjoint(written, field) && Fits(field, s)
    ensures ActiveBit(t, field) == ActiveBit(s, field)
    ensures Selected(l, r, order, s, field) ==> Selected(l, r, order, t, field)
    ensures Clear(s, field) ==> Clear(t, field)
  {
    var b, c := ActiveBit(s, field), ActiveBit(t, field);
    if OnlyBit(s, field, b) {
      assert OnlyBit(t, field, b);
    }
    if OnlyBit(t, field, c) {
      assert OnlyBit(s, field, c);
    }
  }

  lemma ValueKept(s: BitString, t: BitString, written: Range, field: Range)
    requires SameOutside(s, t, written) && Disjoint(written, field) && Fits(field, s)
    ensures RangeValue(t, field) == RangeValue(s, field)
  {
    assert s[field.first..field.first + field.len] == t[field.first..field.first + field.len];
  }

  ghost predicate LocallySupported(l: BitString, c: BitString, field: Range)
    requires Fits(field, c) && |l| == |c|
  {
    ActiveBit(c, field) >= 0 && l[ActiveBit(c, field)]
  }

  /** What is wrong with one field of a configuration: not exactly one bit, or a bit without local support. */
  ghost function FieldFault(l: BitString, c: BitString, field: Range, invalid: A2dpStatus, unsupported: A2dpStatus): A2dpStatus
    requires Fits(field, c) && |l| == |c|
  {
    if ActiveBit(c, field) < 0 then invalid else if !l[ActiveBit(c, field)] then unsupported else OK
  }

  /** The first fault of two checks made one after the other. */
  function Then(first: A2dpStatus, second: A2dpStatus): A2dpStatus {
    if first != OK then first else second
  }

  lemma FaultlessField(l: BitString, c: BitString, field: Range, invalid: A2dpStatus, unsupported: A2dpStatus)
    requires Fits(field, c) && |l| == |c| && invalid != OK && unsupported != OK
    ensures FieldFault(l, c, field, invalid, unsupported) == OK <==> LocallySupported(l, c, field)
  {
  }

  lemma SelectedIsLocal(l: BitString, r: BitString, order: seq<int>, c: BitString, field: Range)
    requires Fits(field, c) && |l| == |c| && Selected(l, r, order, c, field)
    ensures LocallySupported(l, c, field)
  {
  }

  lemma FirstChoiceTaken(l: BitString, r: BitString, order: seq<int>, bit: int)
    requires |order| > 0 && Prefers(l, r, order, bit)
    ensures Shared(l, r, order[0]) ==> bit == order[0]
  {
  }

  method Shares(lcaps: View, rcaps: View, bit: int) returns (shared: bool)
    requires -1 <= bit < 8 * lcaps.data.Length && lcaps.data.Length == rcaps.data.Length
    ensures shared == Shared(BitsOf(lcaps.data[..]), BitsOf(rcaps.data[..]), bit)
  {
    shared := bit >= 0 && lcaps.Get(bit) && rcaps.Get(bit);
  }

  /** None of the first k entries of the order is mutually supported. */
  ghost predicate NoneShared(l: BitString, r: BitString, order: seq<int>, k: nat) {
    forall j: nat | j < k && j < |order| :: !Shared(l, r, order[j])
  }

  /** The order names every bit of the field that l supports, and no bit outside the field. */
  ghost predicate Covers(l: BitString, order: seq<int>, field: Range) {
    && (forall b: nat | InRange(field, b) && b < |l| && l[b] :: b in order)
    && forall j: nat | j < |order| :: order[j] == -1 || InRange(field, order[j])
  }

  /** Over an order that covers the field, a shared entry exists exactly when the two sides meet in the field. */
  lemma OrderDecides(l: BitString, r: BitString, order: seq<int>, field: Range)
    requires Covers(l, order, field)
    ensures NoneShared(l, r, order, |order|) <==> !Mutual(l, r, field)
  {
    if b: nat :| InRange(field, b) && Shared(l, r, b) {
      var j :| 0 <= j < |order| && order[j] == b;
    }
    if j: nat :| j < |order| && Shared(l, r, order[j]) {
      assert InRange(field, order[j]);
    }
  }

  /** Sets the first mutually supported entry of a preference order in a still empty field; fails exactly when
      the two sides do not meet in the field. The codecs' chains of alternatives are calls of this method. */
  method SelectFirst(lcaps: View, rcaps: View, config: View, order: seq<int>, ghost field: Range) returns (ok: bool)
    requires lcaps.data.Length == rcaps.data.Length == config.data.Length
    requires config.data != lcaps.data && config.data != rcaps.data
    requires Fits(field, BitsOf(config.data[..])) && Clear(BitsOf(config.data[..]), field)
    requires Covers(BitsOf(lcaps.data[..]), order, field)
    modifies config.data
    ensures ok <==> Mutual(BitsOf(lcaps.data[..]), BitsOf(rcaps.data[..]), field)
    ensures ok ==> Selected(BitsOf(lcaps.data[..]), BitsOf(rcaps.data[..]), order, BitsOf(config.data[..]), field)
    ensures SameOutside(old(BitsOf(config.data[..])), BitsOf(config.data[..]), field)
  {
    ghost var l, r, before := BitsOf(lcaps.data[..]), BitsOf(rcaps.data[..]), BitsOf(config.data[..]);
    OrderDecides(l, r, order, field);
    for k := 0 to |order|
      invariant NoneShared(l, r, order, k)
      invariant config.data[..] == old(config.data[..])
    {
      var shared := Shares(lcaps, rcaps, order[k]);
      if shared {
        config.Set(order[k]);
        OneBitSet(before, field, order[k]);
        return true;
      }
    }
    return false;
  }

  lemma ZeroIsClear(v: seq<Byte>)
    requires forall i: nat | i < |v| :: v[i] == 0
    ensures forall b: nat | b < 8 * |v| :: !BitsOf(v)[b]
  {
    HighBitsAllClear(8);
    forall b: nat | b < 8 * |v| ensures !BitsOf(v)[b] {
      BitsSpell(v, b);
    }
  }

  lemma PreferenceUnique(l: BitString, r: BitString, order: seq<int>, a: int, b: int)
    requires Prefers(l, r, order, a) && Prefers(l, r, order, b)
    ensures a == b
  {
    var i: nat :| i < |order| && order[i] == a && forall j: nat | j < i :: !Shared(l, r, order[j]);
    var k: nat :| k < |order| && order[k] == b && forall j: nat | j < k :: !Shared(l, r, order[j]);
    assert Shared(l, r, order[i]) && Shared(l, r, order[k]);
  }

  /** The first shared entry of the order is the preferred one. */
  lemma PreferredEntry(l: BitString, r: BitString, order: seq<int>, k: nat, bit: int)
    requires Prefers(l, r, order, bit) && k < |order| && Shared(l, r, order[k])
    requires forall j: nat | j < k :: !Shared(l, r, order[j])
    ensures bit == order[k]
  {
    assert Prefers(l, r, order, order[k]);
    PreferenceUnique(l, r, order, bit, order[k]);
  }

  /** Exactly one bit of the field is set. */
  ghost predicate Single(c: BitString, first: nat, len: nat)
    requires first + len <= |c|
  {
    exists b: nat :: OnlyBit(c, Range(first, len), b)
  }

  /** Exactly one bit of the field is set, and l supports it. */
  ghost predicate Supported(l: BitString, c: BitString, first: nat, len: nat)
    requires first + len <= |c| && |l| == |c|
  {
    exists b: nat :: OnlyBit(c, Range(first, len), b) && l[b]
  }

  lemma FieldFaultNamed(l: BitString, c: BitString, field: Range, invalid: A2dpStatus, unsupported: A2dpStatus)
    requires Fits(field, c) && |l| == |c|
    ensures !Single(c, field.first, field.len) ==> FieldFault(l, c, field, invalid, unsupported) == invalid
    ensures Single(c, field.first, field.len) && !Supported(l, c, field.first, field.len) ==>
              FieldFault(l, c, field, invalid, unsupported) == unsupported
    ensures Supported(l, c, field.first, field.len) ==> FieldFault(l, c, field, invalid, unsupported) == OK
  {
    var b := ActiveBit(c, field);
    assert field == Range(field.first, field.len);
    if b >= 0 {
      assert OnlyBit(c, Range(field.first, field.len), b);
    }
  }

  lemma SameValueSameBits(c: BitString, d: BitString, field: Range)
    requires |c| == |d| && Fits(field, c) && RangeValue(c, field) == RangeValue(d, field)
    ensures forall b: nat | InRange(field, b) :: c[b] == d[b]
  {
    forall b: nat | InRange(field, b) ensures c[b] == d[b] {
      RangeValueBits(c, field, field.first + field.len - 1 - b);
      RangeValueBits(d, field, field.first + field.len - 1 - b);
    }
  }

  lemma SelectionUnique(l: BitString, r: BitString, order: seq<int>, c: BitString, d: BitString, field: Range)
    requires Fits(field, c) && Fits(field, d)
    requires Selected(l, r, order, c, field) && Selected(l, r, order, d, field)
    ensures ActiveBit(c, field) == ActiveBit(d, field)
    ensures forall b: nat | InRange(field, b) :: c[b] == d[b]
  {
    PreferenceUnique(l, r, order, ActiveBit(c, field), ActiveBit(d, field));
  }

  lemma {:induction false} NoBitsNoValue(bits: BitString)
    requires forall b: nat | b < |bits| :: !bits[b]
    ensures Value(bits) == 0
  {
    if bits == [] {
    } else {
      NoBitsNoValue(bits[..|bits| - 1]);
    }
  }

  lemma ClearIsZero(s: BitString, field: Range)
    requires Fits(field, s) && Clear(s, field)
    ensures RangeValue(s, field) == 0
  {
    NoBitsNoValue(s[field.first..field.first + field.len]);
  }
}
