/** Bit-field view of an A2DP capability or configuration vector; bit 0 is the top bit of byte 0. */
module A2dpBits {
  import opened Bits

  type Byte = x: int | 0 <= x < 256
  type BitString = seq<bool>

  datatype Range = Range(first: nat, len: nat)

  ghost predicate InRange(r: Range, bit: int) {
    r.first <= bit < r.first + r.len
  }

  predicate Fits(r: Range, s: BitString) {
    r.first + r.len <= |s|
  }

  /** Bit `bit` of a byte vector; the top bit of each byte comes first. */
  predicate BitAt(v: seq<Byte>, bit: nat)
    requires bit < 8 * |v|
  {
    Bit(v[bit / 8], 7 - bit % 8)
  }

  ghost predicate Spells(v: seq<Byte>, s: BitString) {
    |s| == 8 * |v| && forall b: nat {:trigger BitAt(v, b)} | b < 8 * |v| :: s[b] == BitAt(v, b)
  }

  lemma BitsExist(v: seq<Byte>)
    ensures exists s :: Spells(v, s)
  {
    var s := seq(8 * |v|, i requires 0 <= i < 8 * |v| => BitAt(v, i));
    assert Spells(v, s);
  }

  /** All the bits of a byte vector in order. */
  ghost function BitsOf(v: seq<Byte>): (s: BitString)
    ensures |s| == 8 * |v|
  {
    BitsExist(v);
    var s :| Spells(v, s);
    s
  }

  lemma BitsSpell(v: seq<Byte>, b: nat)
    requires b < 8 * |v|
    ensures BitsOf(v)[b] == BitAt(v, b)
  {
  }

  /** Nothing about the bytes is lost in the bits. */
  lemma BitsDetermineBytes(v: seq<Byte>, w: seq<Byte>)
    requires BitsOf(v) == BitsOf(w)
    ensures v == w
  {
    assert |v| == |w| by {
      assert 8 * |v| == 8 * |w|;
    }
    forall i: nat | i < |v| ensures v[i] == w[i] {
      forall j: nat | j < 8 ensures Bit(v[i], j) == Bit(w[i], j) {
        BitsSpell(v, 8 * i + (7 - j));
        BitsSpell(w, 8 * i + (7 - j));
      }
      assert Pow2(8) == 256;
      LowBitsDetermine(v[i], w[i], 8);
    }
  }

  /** The number a bit string spells, most significant bit first. */
  function Value(bits: BitString): nat {
    if bits == [] then 0 else 2 * Value(bits[..|bits| - 1]) + (if bits[|bits| - 1] then 1 else 0)
  }

  lemma {:induction false} ValueBelow(bits: BitString)
    ensures Value(bits) < Pow2(|bits|)
  {
    if bits == [] {
    } else {
      ValueBelow(bits[..|bits| - 1]);
    }
  }

  lemma {:induction false} ValueBits(bits: BitString, i: nat)
    requires i < |bits|
    ensures Bit(Value(bits), i) == bits[|bits| - 1 - i]
    decreases i
  {
    var shorter, last := bits[..|bits| - 1], bits[|bits| - 1];
    BitOfDouble(Value(shorter), last, i);
    if i == 0 {
    } else {
      ValueBits(shorter, i - 1);
    }
  }

  function RangeValue(s: BitString, r: Range): nat
    requires Fits(r, s)
  {
    Value(s[r.first..r.first + r.len])
  }

  lemma RangeValueBelow(s: BitString, r: Range)
    requires Fits(r, s)
    ensures RangeValue(s, r) < Pow2(r.len)
  {
    ValueBelow(s[r.first..r.first + r.len]);
  }

  lemma RangeValueBits(s: BitString, r: Range, i: nat)
    requires Fits(r, s) && i < r.len
    ensures Bit(RangeValue(s, r), i) == s[r.first + r.len - 1 - i]
  {
    ValueBits(s[r.first..r.first + r.len], i);
  }

  /** A number with the range's bits is the range's value. */
  lemma RangeValueUnique(s: BitString, r: Range, v: int)
    requires Fits(r, s)
    requires forall i: nat | i < r.len :: Bit(v, i) == s[r.first + r.len - 1 - i]
    ensures RangeValue(s, r) == v % Pow2(r.len)
  {
    forall i: nat | i < r.len ensures Bit(RangeValue(s, r), i) == Bit(v, i) {
      RangeValueBits(s, r, i);
    }
    RangeValueBelow(s, r);
    LowBitsDetermine(RangeValue(s, r), v, r.len);
  }

  /** Eight bits from a byte's border on spell the byte. */
  lemma ByteIsRange(v: seq<Byte>, i: nat)
    requires i < |v|
    ensures RangeValue(BitsOf(v), Range(8 * i, 8)) == v[i]
  {
    forall j: nat | j < 8 ensures Bit(v[i], j) == BitsOf(v)[8 * i + 8 - 1 - j] {
      BitsSpell(v, 8 * i + 8 - 1 - j);
    }
    RangeValueUnique(BitsOf(v), Range(8 * i, 8), v[i]);
    assert Pow2(8) == 256;
  }

  /** The byte with the eight bits from its border on. */
  lemma ByteWithBits(v: seq<Byte>, i: nat, w: Byte)
    requires i < |v| && forall j: nat | j < 8 :: Bit(w, j) == BitsOf(v)[8 * i + 7 - j]
    ensures v[i] == w
  {
    forall j: nat | j < 8 ensures Bit(w, j) == Bit(v[i], j) {
      BitsSpell(v, 8 * i + 7 - j);
    }
    assert Pow2(8) == 256;
    LowBitsDetermine(w, v[i], 8);
  }

  /** `bit` is the one set bit of the range. */
  ghost predicate OnlyBit(s: BitString, r: Range, bit: int)
    requires Fits(r, s)
  {
    InRange(r, bit) && forall b: nat | InRange(r, b) :: s[b] == (b == bit)
  }

  /** The one set bit of the range, or -1. */
  ghost function ActiveBit(s: BitString, r: Range): (b: int)
    requires Fits(r, s)
    ensures b == -1 || OnlyBit(s, r, b)
    ensures forall x :: OnlyBit(s, r, x) ==> x == b
  {
    if exists x :: OnlyBit(s, r, x) then
      var x :| OnlyBit(s, r, x);
      assert forall y :: OnlyBit(s, r, y) ==> s[y] && y == x;
      x
    else -1
  }

  /** With bit i cleared nothing remains exactly when bit i stood alone. */
  lemma ClearedRest(s: BitString, r: Range, v: nat, i: nat)
    requires Fits(r, s) && v == RangeValue(s, r) && i < r.len && Bit(v, i)
    ensures WithBit(v, i, false) == 0 <==> OnlyBit(s, r, r.first + r.len - 1 - i)
    ensures forall b :: OnlyBit(s, r, b) ==> b == r.first + r.len - 1 - i
  {
    var rest := WithBit(v, i, false);
    RangeValueBelow(s, r);
    WithBitStaysBelow(v, i, false, r.len);
    RangeValueBits(s, r, i);
    if rest > 0 {
      var j := SomeBitSet(rest, r.len);
      WithBitReads(v, i, false, j);
      RangeValueBits(s, r, j);
    } else {
      forall b: nat | InRange(r, b) ensures s[b] == (b == r.first + r.len - 1 - i) {
        var j := r.first + r.len - 1 - b;
        WithBitReads(v, i, false, j);
        HighBitsClear(0, 0, j);
        RangeValueBits(s, r, j);
      }
    }
  }

  /** i is the lowest set bit of the range's value, or its length when no bit is set. */
  lemma LowestSetBit(s: BitString, r: Range, v: nat, i: nat)
    requires Fits(r, s) && v == RangeValue(s, r) && i <= r.len
    requires forall j: nat | j < i :: !Bit(v, j)
    requires i < r.len ==> Bit(v, i)
    ensures ActiveBit(s, r) == if i < r.len && WithBit(v, i, false) == 0 then r.first + (r.len - 1) - i else -1
  {
    if i < r.len {
      ClearedRest(s, r, v, i);
    } else {
      forall b: nat | InRange(r, b) ensures !s[b] {
        RangeValueBits(s, r, r.first + r.len - 1 - b);
      }
    }
  }

  /** s and t agree on every bit outside the range. */
  ghost predicate SameOutside(s: BitString, t: BitString, r: Range) {
    |s| == |t| && forall b: nat | b < |s| && !InRange(r, b) :: s[b] == t[b]
  }

  lemma OneBitWritten(v: seq<Byte>, w: seq<Byte>, bit: nat, value: bool)
    requires bit < 8 * |v| && |v| == |w|
    requires forall i: nat | i < |v| :: w[i] == if i == bit / 8 then WithBit(v[i], 7 - bit % 8, value) else v[i]
    ensures BitsOf(w) == BitsOf(v)[bit := value]
  {
    var k := 7 - bit % 8;
    forall b: nat | b < 8 * |v| ensures BitsOf(w)[b] == BitsOf(v)[bit := value][b] {
      BitsSpell(v, b);
      BitsSpell(w, b);
      if b / 8 == bit / 8 {
        assert 7 - b % 8 == k <==> b == bit;
        WithBitReads(v[bit / 8], k, value, 7 - b % 8);
      }
    }
  }

  lemma HighBitsAllClear(n: nat)
    ensures forall j: nat | j < n :: !Bit(0, j)
  {
    forall j: nat | j < n ensures !Bit(0, j) {
      HighBitsClear(0, 0, j);
    }
  }

  lemma SmallRemainder(v: nat, p: nat)
    requires v < p
    ensures v % p == v
  {
  }

  class View {
    const data: array<Byte>

    constructor (vector: array<Byte>)
      ensures data == vector
    {
      data := vector;
    }

    predicate Get(bit: nat): (b: bool)
      requires bit < 8 * data.Length
      reads data
      ensures b == BitsOf(data[..])[bit]
    {
      BitsSpell(data[..], bit);
      ShiftedBit(data[bit / 8], 7 - bit % 8)
    }

    method GetRange(r: Range) returns (v: nat)
      requires r.first + r.len <= 8 * data.Length && r.len <= 32
      ensures v == RangeValue(BitsOf(data[..]), r)
      ensures v < Pow2(r.len)
    {
      ghost var s := BitsOf(data[..]);
      v := 0;
      var i := 0;
      HighBitsAllClear(r.len);
      while i < r.len
        invariant i <= r.len
        invariant v < Pow2(r.len)
        invariant forall j: nat | j < r.len :: Bit(v, j) == (r.len - 1 - j < i && s[r.first + r.len - 1 - j])
      {
        if Get(r.first + i) {
          var k := r.len - 1 - i;
          WithBitStaysBelow(v, k, true, r.len);
          forall j: nat | j < r.len ensures Bit(WithBit(v, k, true), j) == (j == k || Bit(v, j)) {
            WithBitReads(v, k, true, j);
          }
          v := WithBit(v, k, true);
        }
        i := i + 1;
      }
      RangeValueUnique(s, r, v);
      SmallRemainder(v, Pow2(r.len));
    }

    method Set(bit: nat, value: bool := true)
      requires bit < 8 * data.Length
      modifies data
      ensures BitsOf(data[..]) == old(BitsOf(data[..]))[bit := value]
    {
      var k := 7 - bit % 8;
      assert Pow2(8) == 256;
      WithBitStaysBelow(data[bit / 8], k, value, 8);
      ghost var before := data[..];
      data[bit / 8] := WithBit(data[bit / 8], k, value);
      OneBitWritten(before, data[..], bit, value);
    }

    /** Reading a range back gives the value written modulo 2^len; every other bit keeps its value. */
    method SetRange(r: Range, value: int)
      requires r.first + r.len <= 8 * data.Length
      modifies data
      ensures RangeValue(BitsOf(data[..]), r) == value % Pow2(r.len)
      ensures SameOutside(old(BitsOf(data[..])), BitsOf(data[..]), r)
    {
      ghost var before := BitsOf(data[..]);
      var i := 0;
      while i < r.len
        invariant i <= r.len
        invariant forall b: nat | b < |before| ::
          BitsOf(data[..])[b] == if r.first <= b < r.first + i then Bit(value, r.first + r.len - 1 - b) else before[b]
      {
        Set(r.first + i, ShiftedBit(value, r.len - 1 - i));
        i := i + 1;
      }
      RangeValueUnique(BitsOf(data[..]), r, value);
    }

    method FindActiveBit(r: Range) returns (bit: int)
      requires r.first + r.len <= 8 * data.Length && r.len <= 31
      ensures bit == ActiveBit(BitsOf(data[..]), r)
    {
      ghost var s := BitsOf(data[..]);
      var v := GetRange(r);
      var i := 0;
      while i < r.len && !ShiftedBit(v, i)
        invariant i <= r.len
        invariant forall j: nat | j < i :: !Bit(v, j)
      {
        i := i + 1;
      }
      LowestSetBit(s, r, v, i);
      if i == r.len {
        return -1;
      }
      // v ^ (1 << i) with bit i set
      var rest := WithBit(v, i, false);
      bit := if rest == 0 then r.first + (r.len - 1) - i else -1;
    }
  }
}
