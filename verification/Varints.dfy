/** Base 128 varints, fixed-width integers and length prefixes, written and read as the generated codec does. */
module Varints {
  import opened Int64
  import opened Bytes

  const TWO_32: int := 0x1_0000_0000

  datatype ParseError =
    | IntOverflow
    | UnexpectedEof
    | InvalidLength
    | EndGroup
    | IllegalTag
    | WrongWireType
    | IllegalWireType
    | UnexpectedEndOfGroup
    | BadTimestamp

  datatype Parsed<+T> = Ok(value: T) | Err(error: ParseError)

  /** A value read from a buffer and the index behind it. */
  datatype Read<+T> = Read(value: T, next: nat)

  // ---- integer conversions

  type Uint64 = x: int | 0 <= x < 0x1_0000_0000_0000_0000
  type Int32 = x: int | -0x8000_0000 <= x <= 0x7FFF_FFFF

  function ToUint64(x: int): (u: Uint64)
    ensures (u - x) % TWO_64 == 0
  {
    x % TWO_64
  }

  function ToInt64(u: Uint64): (x: Int64)
    ensures (x - u) % TWO_64 == 0
  {
    if u > MAX_INT64 then u - TWO_64 else u
  }

  /** int32(x): the low 32 bits, read as a signed number. */
  function ToInt32(u: int): (x: Int32)
    ensures (x - u) % TWO_32 == 0
  {
    var low := u % TWO_32;
    if low >= 0x8000_0000 then low - TWO_32 else low
  }

  lemma ConversionsRoundTrip(x: Int64, y: Int32)
    ensures ToInt64(ToUint64(x)) == x
    ensures ToInt32(ToUint64(y)) == y
  {
  }

  // ---- varints

  function EncodeVarint(v: nat): (bs: ByteString)
    ensures |bs| >= 1
  {
    if v < 128 then [v] else [v % 128 + 128] + EncodeVarint(v / 128)
  }

  /** bits.Len64. */
  function BitLength(x: nat): nat { if x == 0 then 0 else 1 + BitLength(x / 2) }

  /** x | 1. */
  function WithLowBit(x: nat): nat { if x % 2 == 0 then x + 1 else x }

  /** sovCanonical. */
  function VarintSize(x: nat): nat { (BitLength(WithLowBit(x)) + 6) / 7 }

  lemma SevenBits(x: nat)
    requires x >= 128
    ensures BitLength(x) == 7 + BitLength(x / 128)
  {
    var x1 := x / 2; var x2 := x1 / 2; var x3 := x2 / 2; var x4 := x3 / 2; var x5 := x4 / 2; var x6 := x5 / 2;
    assert x6 / 2 == x / 128;
    assert BitLength(x) == 1 + BitLength(x1) && BitLength(x1) == 1 + BitLength(x2);
    assert BitLength(x2) == 1 + BitLength(x3);
    assert BitLength(x3) == 1 + BitLength(x4) && BitLength(x4) == 1 + BitLength(x5);
    assert BitLength(x5) == 1 + BitLength(x6);
  }

  lemma {:induction false} BitLengthMonotone(x: nat, y: nat)
    requires x <= y
    ensures BitLength(x) <= BitLength(y)
  {
    if x > 0 { BitLengthMonotone(x / 2, y / 2); }
  }

  /** The closed form of sovCanonical is the length of the encoding. */
  lemma {:induction false} VarintSizeIsLength(v: nat)
    ensures VarintSize(v) == |EncodeVarint(v)|
  {
    if v < 128 {
      BitLengthMonotone(1, WithLowBit(v));
      BitLengthMonotone(WithLowBit(v), 127);
      assert BitLength(1) == 1;
      assert BitLength(127) == 1 + BitLength(63) && BitLength(63) == 1 + BitLength(31);
      assert BitLength(31) == 1 + BitLength(15);
      assert BitLength(15) == 1 + BitLength(7) && BitLength(7) == 1 + BitLength(3) && BitLength(3) == 1 + BitLength(1);
    } else {
      SevenBits(WithLowBit(v));
      assert WithLowBit(v) / 128 == v / 128;
      var high := v / 128;
      assert high >= 1 && WithLowBit(high) / 2 == high / 2;
      assert BitLength(WithLowBit(high)) == 1 + BitLength(WithLowBit(high) / 2);
      assert 1 + BitLength(WithLowBit(high) / 2) == 1 + BitLength(high / 2) == BitLength(high);
      VarintSizeIsLength(high);
    }
  }

  function Pow2(k: nat): nat { if k == 0 then 1 else 2 * Pow2(k - 1) }

  /** acc | (b & 0x7F) << shift in 64 bits: the two operands share no bit, so the or is a sum. */
  function Accumulate(acc: Uint64, b: Byte, shift: nat): Uint64 {
    (acc + b % 128 * Pow2(shift)) % TWO_64
  }

  function ReadVarintFrom(data: ByteString, i: nat, shift: nat, acc: Uint64): (r: Parsed<Read<Uint64>>)
    ensures r.Ok? ==> i < r.value.next <= |data|
    decreases |data| - i
  {
    if shift >= 64 then Err(IntOverflow)
    else if i >= |data| then Err(UnexpectedEof)
    else
      var acc' := Accumulate(acc, data[i], shift);
      if data[i] < 128 then Ok(Read(acc', i + 1)) else ReadVarintFrom(data, i + 1, shift + 7, acc')
  }

  function ReadVarint(data: ByteString, i: nat): (r: Parsed<Read<Uint64>>)
    ensures r.Ok? ==> i < r.value.next <= |data|
  {
    ReadVarintFrom(data, i, 0, 0)
  }

  /** The bytes `part` stand at index `i`. */
  ghost predicate At(data: ByteString, i: nat, part: ByteString) {
    i + |part| <= |data| && data[i..i + |part|] == part
  }

  lemma AtSplit(data: ByteString, i: nat, a: ByteString, b: ByteString)
    requires At(data, i, a + b)
    ensures At(data, i, a) && At(data, i + |a|, b)
  {
    var whole := data[i..i + |a + b|];
    assert whole[..|a|] == a && whole[|a|..] == b;
    assert data[i..i + |a|] == whole[..|a|];
    assert data[i + |a|..i + |a| + |b|] == whole[|a|..];
  }

  lemma {:induction false} Pow2Seven(k: nat)
    ensures Pow2(k + 7) == 128 * Pow2(k) && Pow2(k) >= 1
  {
    assert Pow2(k + 7) == 2 * Pow2(k + 6) && Pow2(k + 6) == 2 * Pow2(k + 5) && Pow2(k + 5) == 2 * Pow2(k + 4);
    assert Pow2(k + 4) == 2 * Pow2(k + 3) && Pow2(k + 3) == 2 * Pow2(k + 2) && Pow2(k + 2) == 2 * Pow2(k + 1);
    if k > 0 { Pow2Seven(k - 1); }
  }

  lemma {:induction false} Pow2Monotone(j: nat, k: nat)
    requires j <= k
    ensures Pow2(j) <= Pow2(k)
  {
    if j < k { Pow2Monotone(j, k - 1); Pow2Seven(k - 1); }
  }

  lemma Pow2Steps(k: nat)
    ensures Pow2(0) == 1 && Pow2(k + 1) == 2 * Pow2(k)
  {
  }

  lemma Pow2At64()
    ensures Pow2(64) == TWO_64
  {
    hide Pow2;
    Pow2Seven(0); Pow2Seven(7); Pow2Seven(14); Pow2Seven(21); Pow2Seven(28); Pow2Seven(35);
    Pow2Seven(42); Pow2Seven(49); Pow2Seven(56);
    Pow2Steps(63);
  }

  lemma ShiftInRange(v: nat, shift: nat)
    requires v >= 1 && v * Pow2(shift) < TWO_64
    ensures shift < 64
  {
    if shift >= 64 {
      Pow2Monotone(64, shift);
      Pow2At64();
      ProductOrder(Pow2(shift), 1, v);
      assert false;
    }
  }

  /** Taking seven bits off a number and shifting the rest keeps its value. */
  lemma SevenBitStep(v: nat, acc: nat, p: nat)
    ensures v / 128 * (128 * p) + (acc + v % 128 * p) == v * p + acc
  {
    assert v == 128 * (v / 128) + v % 128;
    assert v * p == 128 * (v / 128) * p + v % 128 * p;
  }

  lemma AccumulateExact(acc: Uint64, b: Byte, low: nat, shift: nat)
    requires low < 128 && (b == low || b == low + 128) && 0 <= acc + low * Pow2(shift) < TWO_64
    ensures Accumulate(acc, b, shift) == acc + low * Pow2(shift)
  {
    hide Pow2;
    assert b % 128 == low;
  }

  lemma AtHead(data: ByteString, i: nat, b: Byte, rest: ByteString)
    requires At(data, i, [b] + rest)
    ensures i < |data| && data[i] == b && At(data, i + 1, rest)
  {
    AtSplit(data, i, [b], rest);
    assert data[i..i + 1][0] == data[i];
  }

  /** Reading takes back what was written, whatever follows it. */
  lemma {:induction false} ReadBackFrom(data: ByteString, i: nat, shift: nat, acc: Uint64, v: nat)
    requires At(data, i, EncodeVarint(v)) && (shift == 0 || v >= 1)
    requires v * Pow2(shift) + acc < TWO_64
    ensures ReadVarintFrom(data, i, shift, acc) == Ok(Read(acc + v * Pow2(shift), i + |EncodeVarint(v)|))
    decreases v
  {
    hide Pow2, At, Accumulate;
    var p := Pow2(shift);
    if v >= 1 { ShiftInRange(v, shift); }
    if v < 128 {
      assert [v] + [] == [v as Byte];
      AccumulateExact(acc, v, v, shift);
      AtHead(data, i, v, []);
    } else {
      AtHead(data, i, v % 128 + 128, EncodeVarint(v / 128));
      SevenBitStep(v, acc, p);
      Pow2Seven(shift);
      ProductSign(v / 128, 128 * p);
      ProductSign(v % 128, p);
      AccumulateExact(acc, v % 128 + 128, v % 128, shift);
      ReadBackFrom(data, i + 1, shift + 7, acc + v % 128 * p, v / 128);
    }
  }

  lemma ReadBack(data: ByteString, i: nat, v: Uint64)
    requires At(data, i, EncodeVarint(v))
    ensures ReadVarint(data, i) == Ok(Read(v, i + |EncodeVarint(v)|))
  {
    Pow2Steps(0);
    ReadBackFrom(data, i, 0, 0, v);
  }

  // ---- fixed 64-bit little-endian integers

  function LittleEndian(u: nat, n: nat): (bs: ByteString)
    ensures |bs| == n
  {
    if n == 0 then [] else [u % 256] + LittleEndian(u / 256, n - 1)
  }

  function FromLittleEndian(bs: ByteString): nat {
    if |bs| == 0 then 0 else bs[0] + 256 * FromLittleEndian(bs[1..])
  }

  function Pow256(n: nat): nat { if n == 0 then 1 else 256 * Pow256(n - 1) }

  lemma {:induction false} FixedRoundTrip(u: nat, n: nat)
    requires u < Pow256(n)
    ensures FromLittleEndian(LittleEndian(u, n)) == u
  {
    if n > 0 {
      FixedRoundTrip(u / 256, n - 1);
      assert LittleEndian(u, n)[1..] == LittleEndian(u / 256, n - 1);
    }
  }

  lemma {:induction false} FixedBounded(bs: ByteString)
    ensures FromLittleEndian(bs) < Pow256(|bs|)
  {
    if |bs| > 0 { FixedBounded(bs[1..]); }
  }

  lemma Pow256At8()
    ensures Pow256(8) == TWO_64
  {
    assert Pow256(8) == 256 * Pow256(7) && Pow256(7) == 256 * Pow256(6) && Pow256(6) == 256 * Pow256(5);
    assert Pow256(5) == 256 * Pow256(4) && Pow256(4) == 256 * Pow256(3) && Pow256(3) == 256 * Pow256(2);
  }

  function Fixed64(v: Int64): (bs: ByteString)
    ensures |bs| == 8
  {
    LittleEndian(ToUint64(v), 8)
  }

  function ReadFixed64(data: ByteString, i: nat): (r: Parsed<Read<Int64>>)
    ensures r.Ok? ==> i < r.value.next <= |data|
  {
    if i + 8 > |data| then Err(UnexpectedEof)
    else
      FixedBounded(data[i..i + 8]);
      Pow256At8();
      Ok(Read(ToInt64(FromLittleEndian(data[i..i + 8])), i + 8))
  }

  lemma ReadBackFixed(data: ByteString, i: nat, v: Int64)
    requires At(data, i, Fixed64(v))
    ensures ReadFixed64(data, i) == Ok(Read(v, i + 8))
  {
    Pow256At8();
    FixedRoundTrip(ToUint64(v), 8);
  }

  // ---- length-delimited records

  /** A length prefix and its checks; on success the announced bytes lie inside the buffer. */
  function ReadLength(data: ByteString, i: nat): (r: Parsed<Read<nat>>)
    requires |data| <= MAX_INT64
    ensures r.Ok? ==> i < r.value.next && r.value.next + r.value.value <= |data|
  {
    match ReadVarint(data, i)
    case Err(e) => Err(e)
    case Ok(Read(u, next)) =>
      var length := ToInt64(u);
      if length < 0 || Wrap64(next + length) < 0 then Err(InvalidLength)
      else if Wrap64(next + length) > |data| then Err(UnexpectedEof)
      else Ok(Read(length, next))
  }

  function Delimited(body: ByteString): ByteString { EncodeVarint(|body|) + body }

  lemma ReadBackLength(data: ByteString, i: nat, body: ByteString)
    requires At(data, i, Delimited(body)) && |data| <= MAX_INT64
    ensures var start := i + |EncodeVarint(|body|)|;
      ReadLength(data, i) == Ok(Read(|body|, start)) && data[start..start + |body|] == body
  {
    AtSplit(data, i, EncodeVarint(|body|), body);
    ReadBack(data, i, |body|);
  }
}
