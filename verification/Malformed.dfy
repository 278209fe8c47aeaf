/** What the parser refuses, and with which error: varints, tags, and messages cut short. */
module Malformed {
  import opened Int64
  import opened Bytes
  import opened Options
  import opened Varints
  import opened Canonical

  // ---- varints

  /** The first `n` bytes from index `i` all announce another one. */
  ghost predicate Continues(data: ByteString, i: nat, n: nat) {
    i + n <= |data| && forall l :: i <= l < i + n ==> data[l] >= 128
  }

  /** The number in `n` bytes from index `i`: seven bits each, the lowest first. */
  function Digits(data: ByteString, i: nat, n: nat): nat
    requires i + n <= |data|
    decreases n
  {
    if n == 0 then 0 else data[i] % 128 + 128 * Digits(data, i + 1, n - 1)
  }

  lemma ModSum(a: int, b: int, m: int)
    requires m > 0
    ensures (a % m + b) % m == (a + b) % m
  {
    var q := a / m;
    assert a == m * q + a % m;
    ModShift(a % m + b, m, q);
  }

  lemma ModShift(x: int, m: int, q: int)
    requires m > 0
    ensures (x + m * q) % m == x % m
  {
    var d, e := x / m, (x + m * q) / m;
    assert x == m * d + x % m && x + m * q == m * e + (x + m * q) % m;
    assert m * (e - d - q) == m * e - m * d - m * q;
    SmallerFactor(m, e - d - q, 1);
    SmallerFactor(m, -1, e - d - q);
  }

  lemma OneDigit(acc: Uint64, b: Byte, p: nat, rest: nat)
    ensures ((acc + b % 128 * p) % TWO_64 + rest * (128 * p)) % TWO_64
            == (acc + (b % 128 + 128 * rest) * p) % TWO_64
  {
    ModSum(acc + b % 128 * p, rest * (128 * p), TWO_64);
    assert (b % 128 + 128 * rest) * p == b % 128 * p + 128 * rest * p;
    assert rest * (128 * p) == 128 * rest * p;
  }

  /** A varint that ends after `n` more continuation bytes: its value in 64 bits, or an overflow. */
  lemma {:induction false} ReadsDigits(data: ByteString, i: nat, shift: nat, acc: Uint64, n: nat)
    requires Continues(data, i, n) && i + n < |data| && data[i + n] < 128
    ensures shift + 7 * n < 64 ==>
      ReadVarintFrom(data, i, shift, acc)
      == Ok(Read((acc + Digits(data, i, n + 1) * Pow2(shift)) % TWO_64, i + n + 1))
    decreases n
  {
    hide Pow2;
    var p := Pow2(shift);
    if shift + 7 * n < 64 {
      OneDigit(acc, data[i], p, Digits(data, i + 1, n));
      if n > 0 {
        Pow2Seven(shift);
        ReadsDigits(data, i + 1, shift + 7, Accumulate(acc, data[i], shift), n - 1);
      } else {
        assert Digits(data, i + 1, 0) == 0;
      }
    }
  }

  /** Too many continuation bytes: an overflow; the data ending among the first ten: an unexpected end. */
  lemma {:induction false} ReadsOn(data: ByteString, i: nat, shift: nat, acc: Uint64, n: nat)
    requires Continues(data, i, n)
    ensures shift + 7 * n >= 64 ==> ReadVarintFrom(data, i, shift, acc) == Err(IntOverflow)
    ensures shift + 7 * n < 64 && i + n == |data| ==> ReadVarintFrom(data, i, shift, acc) == Err(UnexpectedEof)
    decreases n
  {
    hide Pow2;
    if n > 0 && shift < 64 {
      ReadsOn(data, i + 1, shift + 7, Accumulate(acc, data[i], shift), n - 1);
    }
  }

  /** How many bytes from index `i` on announce another one. */
  function Announced(data: ByteString, i: nat): (n: nat)
    requires i <= |data|
    ensures Continues(data, i, n) && (i + n < |data| ==> data[i + n] < 128)
    decreases |data| - i
  {
    if i < |data| && data[i] >= 128 then 1 + Announced(data, i + 1) else 0
  }

  /**
   * Every varint, also one longer than it needs to be: up to ten bytes are a number modulo 2^64, ten bytes that all
   * announce another one overflow, and otherwise the data must not end.
   */
  lemma ReadVarintExactly(data: ByteString, i: nat)
    requires i <= |data|
    ensures var n := Announced(data, i);
      ReadVarint(data, i) == if n >= 10 then Err(IntOverflow)
                             else if i + n == |data| then Err(UnexpectedEof)
                             else Ok(Read(Digits(data, i, n + 1) % TWO_64, i + n + 1))
  {
    hide ReadVarintFrom, Digits;
    var n := Announced(data, i);
    Pow2Steps(0);
    if n >= 10 {
      ReadsOn(data, i, 0, 0, n);
    } else if i + n == |data| {
      ReadsOn(data, i, 0, 0, n);
    } else {
      ReadsDigits(data, i, 0, 0, n);
    }
  }

  // ---- tags

  /** The wire type of each known field. */
  function Expected(field: nat): nat { if field == 1 then 0 else if field <= 3 then 1 else 2 }

  /** A tag that is no field, ends a group nobody opened, or gives a known field the wrong wire type is refused. */
  lemma BadTagRefused(tc: TimeCodec, data: ByteString, i: nat, m: CanonicalVote)
    requires i < |data| <= MAX_INT64 && data[i] < 56
    ensures var field, wireType := data[i] / 8, data[i] % 8;
      && (wireType == 4 ==> DecodeVote(tc, data, i, m) == Err(EndGroup))
      && (wireType != 4 && field == 0 ==> DecodeVote(tc, data, i, m) == Err(IllegalTag))
      && (wireType != 4 && field != 0 && wireType != Expected(field) ==>
            DecodeVote(tc, data, i, m) == Err(WrongWireType))
  {
    hide ReadFixed64, DecodeHash, ReadLength;
    OneByteVarint(data, i);
  }

  /** Any tag: the low 32 bits of the field number count, as a signed number, and have to be positive. */
  lemma ReadTagExactly(data: ByteString, i: nat)
    requires ReadVarint(data, i).Ok?
    ensures var u, next := ReadVarint(data, i).value.value, ReadVarint(data, i).value.next;
      var low := u / 8 % 0x1_0000_0000;
      ReadTag(data, i) == if u % 8 == 4 then Err(EndGroup)
                          else if low == 0 || low >= 0x8000_0000 then Err(IllegalTag)
                          else Ok(Read(Tag(low, u % 8), next))
  {
    hide ReadVarint;
  }

  /** Nor is an unknown field of a wire type that does not exist passed over. */
  lemma BadWireTypeRefused(tc: TimeCodec, data: ByteString, i: nat, m: CanonicalVote)
    requires i < |data| <= MAX_INT64 && 56 <= data[i] < 128
    ensures data[i] % 8 == 4 ==> DecodeVote(tc, data, i, m) == Err(EndGroup)
    ensures data[i] % 8 > 5 ==> DecodeVote(tc, data, i, m) == Err(IllegalWireType)
  {
    hide KnownField, ReadVarint;
    OneByteVarint(data, i);
    var rest := data[i..];
    assert rest[0] == data[i];
    OneByteVarint(rest, 0);
  }

  /** A length prefix: negative as an int64, beyond the int64 range, beyond the data, or fine. */
  lemma ReadLengthExactly(data: ByteString, i: nat)
    requires |data| <= MAX_INT64
    ensures ReadVarint(data, i).Err? ==> ReadLength(data, i) == Err(ReadVarint(data, i).error)
    ensures ReadVarint(data, i).Ok? ==>
      var u, start := ReadVarint(data, i).value.value, ReadVarint(data, i).value.next;
      ReadLength(data, i) == if start + u > MAX_INT64 then Err(InvalidLength)
                             else if start + u > |data| then Err(UnexpectedEof)
                             else Ok(Read(u, start))
  {
    hide ReadVarint;
  }

  lemma OneByteVarint(data: ByteString, i: nat)
    requires i < |data| && data[i] < 128
    ensures ReadVarint(data, i) == Ok(Read(data[i], i + 1))
  {
    ReadVarintExactly(data, i);
    assert Digits(data, i, 1) == data[i] + 128 * Digits(data, i + 1, 0);
  }

  // ---- messages cut short

  /** The marshalled field with the given number. */
  function FieldBytes(v: CanonicalVote, time: ByteString, j: nat): ByteString
    requires 1 <= j <= 6
  {
    match j
    case 1 => TypeField(v)
    case 2 => HeightField(v)
    case 3 => RoundField(v)
    case 4 => HashField(v)
    case 5 => Tagged(0x2a, time)
    case 6 => ChainField(v)
  }

  /** The fields from number `j` on. */
  function FieldsFrom(v: CanonicalVote, time: ByteString, j: nat): ByteString
    requires 1 <= j <= 7
    decreases 7 - j
  {
    if j == 7 then [] else FieldBytes(v, time, j) + FieldsFrom(v, time, j + 1)
  }

  /** The vote as far as the fields below `j` tell. */
  function Partly(v: CanonicalVote, j: nat): CanonicalVote {
    CanonicalVote(
      if j > 1 then v.msgType else 0,
      if j > 2 then v.height else 0,
      if j > 3 then v.round else 0,
      if j > 4 then v.dataHash else None,
      if j > 5 then v.timestamp else ZERO_TIME,
      if j > 6 then v.chainID else [])
  }

  lemma WholeField(tc: TimeCodec, data: ByteString, i: nat, v: CanonicalVote, j: nat)
    requires TimesRoundTrip(tc) && tc.encode(v.timestamp).Some? && |data| <= MAX_INT64 && 1 <= j <= 6
    requires At(data, i, FieldBytes(v, tc.encode(v.timestamp).value, j))
    ensures i + |FieldBytes(v, tc.encode(v.timestamp).value, j)| <= |data|
    ensures DecodeVote(tc, data, i, Partly(v, j))
            == DecodeVote(tc, data, i + |FieldBytes(v, tc.encode(v.timestamp).value, j)|, Partly(v, j + 1))
  {
    hide DecodeVote, At, TypeField, HeightField, RoundField, HashField, ChainField, Tagged, TimesRoundTrip;
    AtFits(data, i, FieldBytes(v, tc.encode(v.timestamp).value, j));
    match j {
      case 1 => TypeStep(tc, data, i, Partly(v, 1), v);
      case 2 => HeightStep(tc, data, i, Partly(v, 2), v);
      case 3 => RoundStep(tc, data, i, Partly(v, 3), v);
      case 4 => HashFieldStep(tc, data, i, Partly(v, 4), v);
      case 5 => TimeStep(tc, data, i, Partly(v, 5), v.timestamp);
      case 6 => ChainStep(tc, data, i, Partly(v, 6), v);
    }
  }

  /** The data ends with the first `k` bytes of the part that stands at index `i`. */
  ghost predicate CutAt(data: ByteString, i: nat, part: ByteString, k: nat) {
    k < |part| && i <= |data| && data[i..] == part[..k]
  }

  lemma {:induction false} VarintContinues(v: nat, k: nat)
    requires k < |EncodeVarint(v)| - 1
    ensures EncodeVarint(v)[k] >= 128
  {
    if k > 0 { VarintContinues(v / 128, k - 1); }
  }

  lemma {:induction false} VarintLength(v: nat, n: nat)
    requires v < Pow2(7 * n) && n > 0
    ensures |EncodeVarint(v)| <= n
    decreases n
  {
    if v >= 128 {
      Pow2Seven(7 * (n - 1));
      VarintLength(v / 128, n - 1);
    }
  }

  lemma TenBytes(v: Uint64)
    ensures |EncodeVarint(v)| <= 10
  {
    hide Pow2;
    Pow2At64();
    Pow2Monotone(64, 70);
    VarintLength(v, 10);
  }

  /** A varint cut short. */
  lemma CutVarint(data: ByteString, i: nat, v: Uint64, k: nat)
    requires CutAt(data, i, EncodeVarint(v), k)
    ensures ReadVarint(data, i) == Err(UnexpectedEof)
  {
    hide EncodeVarint, ReadVarintFrom;
    TenBytes(v);
    forall l | i <= l < |data| ensures data[l] >= 128 {
      VarintContinues(v, l - i);
      assert data[l] == data[i..][l - i];
    }
    Pow2Steps(0);
    ReadsOn(data, i, 0, 0, |data| - i);
  }

  /** A length-delimited record cut short, in the length or in the body. */
  lemma CutRecord(data: ByteString, i: nat, body: ByteString, k: nat)
    requires CutAt(data, i, Delimited(body), k) && i + |Delimited(body)| <= MAX_INT64
    ensures ReadBytes(data, i, 2) == Err(UnexpectedEof)
  {
    hide EncodeVarint, ReadVarint;
    var head := EncodeVarint(|body|);
    if k < |head| {
      assert data[i..] == head[..k];
      CutVarint(data, i, |body|, k);
    } else {
      assert data[i..][..|head|] == Delimited(body)[..k][..|head|] == head;
      assert data[i..i + |head|] == data[i..][..|head|];
      ReadBack(data, i, |body|);
    }
  }

  /** A tag is there and the payload behind it is refused. */
  lemma PayloadRefused(tc: TimeCodec, data: ByteString, i: nat, m: CanonicalVote)
    requires i < |data| <= MAX_INT64 && 8 <= data[i] < 56 && data[i] % 8 != 4
    requires KnownField(tc, data, i + 1, Tag(data[i] / 8, data[i] % 8), m) == Err(UnexpectedEof)
    ensures DecodeVote(tc, data, i, m) == Err(UnexpectedEof)
  {
    hide ReadVarint, KnownField, SkipField;
    OneByteVarint(data, i);
  }

  lemma TagBeforeCut(data: ByteString, i: nat, tag: Byte, rest: ByteString, k: nat)
    requires CutAt(data, i, [tag] + rest, k) && k > 0
    ensures i < |data| && data[i] == tag && CutAt(data, i + 1, rest, k - 1)
  {
    assert data[i..][0] == data[i] && data[i..][1..] == data[i + 1..];
    assert ([tag] + rest)[..k][1..] == rest[..k - 1];
  }

  /** A field cut short: after its first byte and before its last. */
  lemma CutField(tc: TimeCodec, data: ByteString, i: nat, m: CanonicalVote, v: CanonicalVote, time: ByteString, j: nat,
                 k: nat)
    requires 1 <= j <= 6 && CutAt(data, i, FieldBytes(v, time, j), k) && k > 0
    requires |data| <= MAX_INT64 && i + |FieldBytes(v, time, j)| <= MAX_INT64
    ensures DecodeVote(tc, data, i, m) == Err(UnexpectedEof)
  {
    hide DecodeVote, DecodeHash, EncodeVarint, Fixed64, Delimited, EncodeHash, ReadVarint, ReadLength, ReadBytes,
         ToUint64;
    assert 0 < k < |FieldBytes(v, time, j)|;
    match j {
      case 1 =>
        TagBeforeCut(data, i, 0x08, EncodeVarint(ToUint64(v.msgType)), k);
        CutVarint(data, i + 1, ToUint64(v.msgType), k - 1);
      case 2 =>
        TagBeforeCut(data, i, 0x11, Fixed64(v.height), k);
        CutFixed(data, i + 1, v.height, k - 1);
      case 3 =>
        TagBeforeCut(data, i, 0x19, Fixed64(v.round), k);
        CutFixed(data, i + 1, v.round, k - 1);
      case 4 =>
        TagBeforeCut(data, i, 0x22, Delimited(EncodeHash(v.dataHash.value)), k);
        CutRecord(data, i + 1, EncodeHash(v.dataHash.value), k - 1);
      case 5 =>
        TagBeforeCut(data, i, 0x2a, Delimited(time), k);
        CutRecord(data, i + 1, time, k - 1);
      case 6 =>
        TagBeforeCut(data, i, 0x32, Delimited(v.chainID), k);
        CutRecord(data, i + 1, v.chainID, k - 1);
    }
    PayloadRefused(tc, data, i, m);
  }

  lemma CutFixed(data: ByteString, i: nat, x: Int64, k: nat)
    requires CutAt(data, i, Fixed64(x), k)
    ensures ReadFixed64(data, i) == Err(UnexpectedEof)
  {
    hide Fixed64;
    assert |data[i..]| == k;
  }

  /** Where the fields up to a number end. */
  function FieldEnd(v: CanonicalVote, time: ByteString, j: nat): nat
    requires j <= 6
  {
    if j == 0 then 0 else FieldEnd(v, time, j - 1) + |FieldBytes(v, time, j)|
  }

  lemma InFieldOrder(tc: TimeCodec, v: CanonicalVote)
    requires tc.encode(v.timestamp).Some?
    ensures EncodeVote(tc, v) == Some(FieldsFrom(v, tc.encode(v.timestamp).value, 1))
  {
    hide TypeField, HeightField, RoundField, HashField, ChainField, Tagged;
    var time := tc.encode(v.timestamp).value;
    assert FieldsFrom(v, time, 6) == ChainField(v) + FieldsFrom(v, time, 7) == ChainField(v);
    assert FieldsFrom(v, time, 4) == HashField(v) + FieldsFrom(v, time, 5);
    assert FieldsFrom(v, time, 2) == HeightField(v) + FieldsFrom(v, time, 3);
  }

  /** The parser from field `j` on, on data that ends with the first `k` bytes of what is left. */
  lemma {:induction false} CutFrom(tc: TimeCodec, data: ByteString, i: nat, v: CanonicalVote, j: nat, k: nat)
    returns (last: nat)
    requires TimesRoundTrip(tc) && tc.encode(v.timestamp).Some? && 1 <= j <= 7
    requires var all := FieldsFrom(v, tc.encode(v.timestamp).value, j);
      k <= |all| && i <= |data| && data[i..] == all[..k] && i + |all| <= MAX_INT64
    requires i == FieldEnd(v, tc.encode(v.timestamp).value, j - 1)
    ensures j <= last <= 7
    ensures (|data| == FieldEnd(v, tc.encode(v.timestamp).value, last - 1)
             && DecodeVote(tc, data, i, Partly(v, j)) == Ok(Partly(v, last)))
            || (last <= 6 && DecodeVote(tc, data, i, Partly(v, j)) == Err(UnexpectedEof)
                && FieldEnd(v, tc.encode(v.timestamp).value, last - 1) < |data|
                   < FieldEnd(v, tc.encode(v.timestamp).value, last))
    decreases 7 - j
  {
    hide DecodeVote, FieldBytes, Partly, TimesRoundTrip;
    var time := tc.encode(v.timestamp).value;
    assert |data| == i + k;
    if k == 0 {
      last := j;
      NothingLeft(tc, data, Partly(v, j));
    } else {
      var part, rest := FieldBytes(v, time, j), FieldsFrom(v, time, j + 1);
      if k < |part| {
        last := j;
        assert data[i..] == (part + rest)[..k] == part[..k];
        CutField(tc, data, i, Partly(v, j), v, time, j, k);
      } else {
        assert data[i..][..|part|] == (part + rest)[..k][..|part|] == part;
        assert data[i..i + |part|] == data[i..][..|part|];
        WholeField(tc, data, i, v, j);
        assert data[i + |part|..] == data[i..][|part|..] == (part + rest)[..k][|part|..] == rest[..k - |part|];
        last := CutFrom(tc, data, i + |part|, v, j + 1, k - |part|);
      }
    }
  }

  lemma NothingLeft(tc: TimeCodec, data: ByteString, m: CanonicalVote)
    requires |data| <= MAX_INT64
    ensures DecodeVote(tc, data, |data|, m) == Ok(m)
  {
  }

  /**
   * A marshalled vote cut short is refused as an unexpected end, unless the cut falls between two fields: then the
   * fields in front of it are read and the others keep their zero values.
   */
  lemma CutExactly(tc: TimeCodec, v: CanonicalVote, n: nat) returns (last: nat)
    requires TimesRoundTrip(tc) && EncodeVote(tc, v).Some? && n <= |EncodeVote(tc, v).value| <= MAX_INT64
    ensures 1 <= last <= 7
    ensures var time := tc.encode(v.timestamp).value;
      var data := EncodeVote(tc, v).value[..n];
      || (n == FieldEnd(v, time, last - 1) && DecodeVote(tc, data, 0, ZERO_VOTE) == Ok(Partly(v, last)))
      || (last <= 6 && FieldEnd(v, time, last - 1) < n < FieldEnd(v, time, last)
          && DecodeVote(tc, data, 0, ZERO_VOTE) == Err(UnexpectedEof))
  {
    hide DecodeVote, FieldsFrom, FieldBytes, EncodeVote, TimesRoundTrip;
    TimeIsWritten(tc, v);
    InFieldOrder(tc, v);
    var data := EncodeVote(tc, v).value[..n];
    assert data[0..] == data;
    last := CutFrom(tc, data, 0, v, 1, n);
  }

  lemma TimeIsWritten(tc: TimeCodec, v: CanonicalVote)
    requires EncodeVote(tc, v).Some?
    ensures tc.encode(v.timestamp).Some?
  {
  }
}
