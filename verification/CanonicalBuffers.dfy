/** The generated marshalling code: writing backwards into a sized buffer, and the index-driven parsers. */
module CanonicalBuffers {
  import opened Int64
  import opened Bytes
  import opened Options
  import opened Varints
  import opened Canonical

  // ---- writing

  /** Writes the varint so that it ends before `offset`; everything from `offset` on stays. */
  method EncodeVarintCanonical(dAtA: array<Byte>, offset: nat, v: Uint64) returns (base: nat)
    requires VarintSize(v) <= offset <= dAtA.Length
    modifies dAtA
    ensures base == offset - |EncodeVarint(v)|
    ensures dAtA[base..] == EncodeVarint(v) + old(dAtA[offset..])
  {
    hide VarintSize, Pow2;
    VarintSizeIsLength(v);
    base := offset - VarintSize(v);
    var o, x: nat := base, v;
    while x >= 128
      invariant base <= o <= offset && o + |EncodeVarint(x)| == offset
      invariant dAtA[base..o] + EncodeVarint(x) == EncodeVarint(v)
      invariant dAtA[offset..] == old(dAtA[offset..])
      decreases x
    {
      ghost var written := dAtA[base..o];
      dAtA[o] := x % 128 + 128;
      assert dAtA[base..o + 1] == written + [(x % 128 + 128) as Byte];
      x := x / 128;
      o := o + 1;
    }
    ghost var written := dAtA[base..o];
    dAtA[o] := x;
    assert dAtA[base..offset] == written + [x as Byte];
    assert dAtA[base..] == dAtA[base..offset] + dAtA[offset..];
  }

  /** copy(dAtA[i - len(bs):], bs). */
  method PutBytes(dAtA: array<Byte>, i: nat, bs: ByteString) returns (j: nat)
    requires |bs| <= i <= dAtA.Length
    modifies dAtA
    ensures j == i - |bs| && dAtA[j..] == bs + old(dAtA[i..])
  {
    j := i - |bs|;
    forall k | 0 <= k < |bs| {
      dAtA[j + k] := bs[k];
    }
    assert dAtA[j..] == dAtA[j..i] + dAtA[i..];
    assert dAtA[j..i] == bs;
  }

  /** A length-delimited field: body, length, tag, from the back. */
  method PutTagged(dAtA: array<Byte>, i: nat, tag: Byte, body: ByteString) returns (j: nat)
    requires |Tagged(tag, body)| <= i <= dAtA.Length && |body| <= MAX_INT64
    modifies dAtA
    ensures j == i - |Tagged(tag, body)| && dAtA[j..] == Tagged(tag, body) + old(dAtA[i..])
  {
    ghost var rest := dAtA[i..];
    TaggedSize(tag, body);
    VarintSizeIsLength(|body|);
    j := PutBytes(dAtA, i, body);
    j := EncodeVarintCanonical(dAtA, j, |body|);
    j := PutBytes(dAtA, j, [tag]);
    assert [tag] + (EncodeVarint(|body|) + (body + rest)) == Tagged(tag, body) + rest;
  }

  /** The varint-valued type field. */
  method PutType(dAtA: array<Byte>, i: nat, m: CanonicalVote) returns (j: nat)
    requires |TypeField(m)| <= i <= dAtA.Length
    modifies dAtA
    ensures j == i - |TypeField(m)| && dAtA[j..] == TypeField(m) + old(dAtA[i..])
  {
    ghost var rest := dAtA[i..];
    j := i;
    if m.msgType != 0 {
      VarintSizeIsLength(ToUint64(m.msgType));
      j := EncodeVarintCanonical(dAtA, j, ToUint64(m.msgType));
      j := PutBytes(dAtA, j, [0x08]);
      assert [0x08] + (EncodeVarint(ToUint64(m.msgType)) + rest) == TypeField(m) + rest;
    }
  }

  method PutFixed(dAtA: array<Byte>, i: nat, tag: Byte, v: Int64) returns (j: nat)
    requires v != 0 ==> 9 <= i
    requires i <= dAtA.Length
    modifies dAtA
    ensures j == i - (if v != 0 then 9 else 0)
    ensures dAtA[j..] == (if v != 0 then [tag] + Fixed64(v) else []) + old(dAtA[i..])
  {
    ghost var rest := dAtA[i..];
    j := i;
    if v != 0 {
      j := PutBytes(dAtA, j, Fixed64(v));
      j := PutBytes(dAtA, j, [tag]);
      assert [tag] + (Fixed64(v) + rest) == [tag] + Fixed64(v) + rest;
    }
  }

  /** CanonicalDataHash.MarshalToSizedBuffer on the first `i` bytes. */
  method MarshalHashToSizedBuffer(h: CanonicalDataHash, dAtA: array<Byte>, i: nat) returns (size: nat)
    requires |EncodeHash(h)| <= i <= dAtA.Length && |h.hash| <= MAX_INT64
    modifies dAtA
    ensures size == |EncodeHash(h)| && dAtA[i - size..] == EncodeHash(h) + old(dAtA[i..])
  {
    var j := i;
    if |h.hash| > 0 {
      j := PutTagged(dAtA, i, 0x0a, h.hash);
    }
    size := i - j;
  }

  /** The embedded data hash: the inner message is marshalled in place, then length and tag. */
  method PutHash(dAtA: array<Byte>, i: nat, m: CanonicalVote) returns (j: nat)
    requires |HashField(m)| <= i <= dAtA.Length && |HashField(m)| <= MAX_INT64
    modifies dAtA
    ensures j == i - |HashField(m)| && dAtA[j..] == HashField(m) + old(dAtA[i..])
  {
    ghost var rest := dAtA[i..];
    j := i;
    if m.dataHash.Some? {
      var h := m.dataHash.value;
      ghost var body := EncodeHash(h);
      TaggedSize(0x22, body);
      HashSizeIsLength(h);
      VarintSizeIsLength(|body|);
      var size := MarshalHashToSizedBuffer(h, dAtA, i);
      j := EncodeVarintCanonical(dAtA, i - size, size);
      j := PutBytes(dAtA, j, [0x22]);
      assert [0x22] + (EncodeVarint(|body|) + (body + rest)) == HashField(m) + rest;
    }
  }

  /** CanonicalVote.MarshalToSizedBuffer: fields from the last to the first, backwards. */
  method MarshalToSizedBuffer(tc: TimeCodec, m: CanonicalVote, dAtA: array<Byte>) returns (n: nat, ok: bool)
    requires dAtA.Length == VoteSize(tc, m) <= MAX_INT64
    modifies dAtA
    ensures ok <==> tc.encode(m.timestamp).Some?
    ensures ok ==> n == dAtA.Length && EncodeVote(tc, m) == Some(dAtA[..])
    ensures !ok ==> EncodeVote(tc, m) == None
  {
    hide EncodeVarint, VarintSize, Tagged, TypeField, Fixed64, HashField;
    n := 0;
    if tc.encode(m.timestamp).Some? {
      SizeIsLength(tc, m);
    }
    var i := dAtA.Length;
    ghost var tail := [];
    assert dAtA[i..] == tail;
    if |m.chainID| > 0 {
      if tc.encode(m.timestamp).None? { TaggedSize(0x32, m.chainID); }
      i := PutTagged(dAtA, i, 0x32, m.chainID);
      tail := ChainField(m);
    }
    assert dAtA[i..] == ChainField(m);
    match tc.encode(m.timestamp) {
      case None =>
        ok := false;
      case Some(time) =>
        i := PutTagged(dAtA, i, 0x2a, time);
        i := PutHash(dAtA, i, m);
        i := PutFixed(dAtA, i, 0x19, m.round);
        i := PutFixed(dAtA, i, 0x11, m.height);
        i := PutType(dAtA, i, m);
        n := dAtA.Length - i;
        ok := true;
        assert i == 0 && dAtA[..] == dAtA[0..];
    }
  }

  /** CanonicalVote.Marshal. */
  method Marshal(tc: TimeCodec, m: CanonicalVote) returns (r: Option<ByteString>)
    requires VoteSize(tc, m) <= MAX_INT64
    ensures r == EncodeVote(tc, m)
  {
    hide EncodeVote, VoteSize;
    var size := VoteSize(tc, m);
    var dAtA := new Byte[size](_ => 0);
    var n, ok := MarshalToSizedBuffer(tc, m, dAtA);
    if !ok {
      return None;
    }
    assert dAtA[..n] == dAtA[..];
    return Some(dAtA[..n]);
  }

  // ---- reading

  /** The loop every varint is read with. */
  method ReadVarintLoop(dAtA: ByteString, start: nat) returns (r: Parsed<Read<Uint64>>)
    ensures r == ReadVarint(dAtA, start)
  {
    var iNdEx, shift, value: Uint64 := start, 0, 0;
    while true
      invariant 0 <= shift && start <= iNdEx
      invariant ReadVarintFrom(dAtA, iNdEx, shift, value) == ReadVarint(dAtA, start)
      decreases |dAtA| - iNdEx
    {
      if shift >= 64 {
        return Err(IntOverflow);
      }
      if iNdEx >= |dAtA| {
        return Err(UnexpectedEof);
      }
      var b := dAtA[iNdEx];
      iNdEx := iNdEx + 1;
      value := Accumulate(value, b, shift);
      if b < 0x80 {
        return Ok(Read(value, iNdEx));
      }
      shift := shift + 7;
    }
  }

  /** The switch of skipCanonical: the index behind the payload, which may have wrapped, and the new depth. */
  method SkipPayloadAt(dAtA: ByteString, start: nat, wireType: int, depth: nat) returns (r: Parsed<(Int64, nat)>)
    requires start <= |dAtA| <= MAX_INT64
    ensures r == SkipPayload(dAtA, start, wireType, depth)
  {
    hide ReadVarint;
    match wireType {
      case 0 =>
        var v := ReadVarintLoop(dAtA, start);
        if v.Err? {
          return Err(v.error);
        }
        return Ok((v.value.next, depth));
      case 1 => return Ok((Wrap64(start + 8), depth));
      case 2 =>
        var v := ReadVarintLoop(dAtA, start);
        if v.Err? {
          return Err(v.error);
        }
        var length := ToInt64(v.value.value);
        if length < 0 {
          return Err(InvalidLength);
        }
        return Ok((Wrap64(v.value.next + length), depth));
      case 3 => return Ok((start, depth + 1));
      case 4 =>
        if depth == 0 {
          return Err(UnexpectedEndOfGroup);
        }
        return Ok((start, depth - 1));
      case 5 => return Ok((Wrap64(start + 4), depth));
      case _ => return Err(IllegalWireType);
    }
  }

  /** skipCanonical. */
  method SkipCanonical(dAtA: ByteString) returns (r: Parsed<nat>)
    requires |dAtA| <= MAX_INT64
    ensures r == SkipFrom(dAtA, 0, 0)
  {
    var iNdEx, depth := 0, 0;
    while iNdEx < |dAtA|
      invariant 0 <= iNdEx && 0 <= depth
      invariant SkipFrom(dAtA, iNdEx, depth) == SkipFrom(dAtA, 0, 0)
      decreases |dAtA| - iNdEx
    {
      var wire := ReadVarintLoop(dAtA, iNdEx);
      if wire.Err? {
        return Err(wire.error);
      }
      var payload := SkipPayloadAt(dAtA, wire.value.next, wire.value.value % 8, depth);
      if payload.Err? {
        return Err(payload.error);
      }
      iNdEx, depth := payload.value.0, payload.value.1;
      if iNdEx < 0 {
        return Err(InvalidLength);
      }
      if depth == 0 {
        return Ok(iNdEx);
      }
    }
    return Err(UnexpectedEof);
  }

  /** The tag at the head of every iteration. */
  method ReadTagAt(dAtA: ByteString, preIndex: nat) returns (r: Parsed<Read<Tag>>)
    ensures r == ReadTag(dAtA, preIndex)
    ensures r.Ok? ==> r.value.value.field >= 1
  {
    var wire := ReadVarintLoop(dAtA, preIndex);
    if wire.Err? {
      return Err(wire.error);
    }
    var fieldNum, wireType := ToInt32(wire.value.value / 8), wire.value.value % 8;
    if wireType == 4 {
      return Err(EndGroup);
    }
    if fieldNum <= 0 {
      return Err(IllegalTag);
    }
    return Ok(Read(Tag(fieldNum, wireType), wire.value.next));
  }

  /** The length, its checks and the bytes of a length-delimited field. */
  method ReadBytesAt(dAtA: ByteString, start: nat, wireType: int) returns (r: Parsed<Read<ByteString>>)
    requires |dAtA| <= MAX_INT64
    ensures r == ReadBytes(dAtA, start, wireType)
  {
    hide ReadVarint;
    if wireType != 2 {
      return Err(WrongWireType);
    }
    var read := ReadVarintLoop(dAtA, start);
    if read.Err? {
      return Err(read.error);
    }
    var byteLen, iNdEx := ToInt64(read.value.value), read.value.next;
    if byteLen < 0 {
      return Err(InvalidLength);
    }
    var postIndex := Wrap64(iNdEx + byteLen);
    if postIndex < 0 {
      return Err(InvalidLength);
    }
    if postIndex > |dAtA| {
      return Err(UnexpectedEof);
    }
    return Ok(Read(dAtA[iNdEx..postIndex], postIndex));
  }

  /** Eight bytes, little-endian, as a signed number. */
  method ReadFixed64At(dAtA: ByteString, iNdEx: nat) returns (r: Parsed<Read<Int64>>)
    requires |dAtA| <= MAX_INT64
    ensures r == ReadFixed64(dAtA, iNdEx)
  {
    if iNdEx + 8 > |dAtA| {
      return Err(UnexpectedEof);
    }
    var u: nat, p: nat := 0, 1;
    for k := 0 to 8
      invariant p == Pow256(k) && u == FromLittleEndian(dAtA[iNdEx..iNdEx + k])
    {
      LittleEndianAppend(dAtA[iNdEx..iNdEx + k], dAtA[iNdEx + k]);
      assert dAtA[iNdEx..iNdEx + k] + [dAtA[iNdEx + k]] == dAtA[iNdEx..iNdEx + (k + 1)];
      u := u + dAtA[iNdEx + k] * p;
      p := 256 * p;
    }
    FixedBounded(dAtA[iNdEx..iNdEx + 8]);
    Pow256At8();
    return Ok(Read(ToInt64(u), iNdEx + 8));
  }

  lemma {:induction false} LittleEndianAppend(bs: ByteString, b: Byte)
    ensures FromLittleEndian(bs + [b]) == FromLittleEndian(bs) + b * Pow256(|bs|)
  {
    if |bs| > 0 {
      LittleEndianAppend(bs[1..], b);
      assert (bs + [b])[1..] == bs[1..] + [b];
    }
  }

  /** The default branch: skips the field that starts at `preIndex`. */
  method SkipFieldAt(dAtA: ByteString, preIndex: nat) returns (r: Parsed<nat>)
    requires preIndex <= |dAtA| <= MAX_INT64
    ensures r == SkipField(dAtA, preIndex)
  {
    var skippy := SkipCanonical(dAtA[preIndex..]);
    if skippy.Err? {
      return Err(skippy.error);
    }
    var iNdEx := Wrap64(preIndex + skippy.value);
    if iNdEx < 0 {
      return Err(InvalidLength);
    }
    if iNdEx > |dAtA| {
      return Err(UnexpectedEof);
    }
    return Ok(iNdEx);
  }

  /** CanonicalDataHash.Unmarshal into `m`. */
  method UnmarshalHash(dAtA: ByteString, m: CanonicalDataHash) returns (r: Parsed<CanonicalDataHash>)
    requires |dAtA| <= MAX_INT64
    ensures r == DecodeHash(dAtA, 0, m)
  {
    hide ReadTag, ReadBytes, SkipField;
    var hash, iNdEx := m.hash, 0;
    while iNdEx < |dAtA|
      invariant 0 <= iNdEx <= |dAtA|
      invariant DecodeHash(dAtA, iNdEx, CanonicalDataHash(hash)) == DecodeHash(dAtA, 0, m)
      decreases |dAtA| - iNdEx
    {
      var preIndex := iNdEx;
      var tag := ReadTagAt(dAtA, iNdEx);
      if tag.Err? {
        return Err(tag.error);
      }
      if tag.value.value.field == 1 {
        var bytes := ReadBytesAt(dAtA, tag.value.next, tag.value.value.wireType);
        if bytes.Err? {
          return Err(bytes.error);
        }
        hash, iNdEx := bytes.value.value, bytes.value.next;
      } else {
        var after := SkipFieldAt(dAtA, preIndex);
        if after.Err? {
          return Err(after.error);
        }
        iNdEx := after.value;
      }
    }
    return Ok(CanonicalDataHash(hash));
  }

  /** The switch over the known fields. */
  method UnmarshalField(tc: TimeCodec, dAtA: ByteString, iNdEx: nat, fieldNum: Int32, wireType: int, m: CanonicalVote)
    returns (r: Parsed<Read<CanonicalVote>>)
    requires iNdEx <= |dAtA| <= MAX_INT64 && 1 <= fieldNum <= 6
    ensures r == KnownField(tc, dAtA, iNdEx, Tag(fieldNum, wireType), m)
  {
    hide ReadVarint, ReadFixed64, ReadBytes, DecodeHash;
    match fieldNum {
      case 1 =>
        if wireType != 0 {
          return Err(WrongWireType);
        }
        var v := ReadVarintLoop(dAtA, iNdEx);
        if v.Err? {
          return Err(v.error);
        }
        return Ok(Read(m.(msgType := ToInt32(v.value.value)), v.value.next));
      case 2 =>
        if wireType != 1 {
          return Err(WrongWireType);
        }
        var v := ReadFixed64At(dAtA, iNdEx);
        if v.Err? {
          return Err(v.error);
        }
        return Ok(Read(m.(height := v.value.value), v.value.next));
      case 3 =>
        if wireType != 1 {
          return Err(WrongWireType);
        }
        var v := ReadFixed64At(dAtA, iNdEx);
        if v.Err? {
          return Err(v.error);
        }
        return Ok(Read(m.(round := v.value.value), v.value.next));
      case 4 =>
        var bytes := ReadBytesAt(dAtA, iNdEx, wireType);
        if bytes.Err? {
          return Err(bytes.error);
        }
        var known := if m.dataHash.Some? then m.dataHash.value else CanonicalDataHash([]);
        var hash := UnmarshalHash(bytes.value.value, known);
        if hash.Err? {
          return Err(hash.error);
        }
        return Ok(Read(m.(dataHash := Some(hash.value)), bytes.value.next));
      case 5 =>
        var bytes := ReadBytesAt(dAtA, iNdEx, wireType);
        if bytes.Err? {
          return Err(bytes.error);
        }
        var time := tc.decode(bytes.value.value);
        if time.None? {
          return Err(BadTimestamp);
        }
        return Ok(Read(m.(timestamp := time.value), bytes.value.next));
      case _ =>
        var bytes := ReadBytesAt(dAtA, iNdEx, wireType);
        if bytes.Err? {
          return Err(bytes.error);
        }
        return Ok(Read(m.(chainID := bytes.value.value), bytes.value.next));
    }
  }

  /** CanonicalVote.Unmarshal into `m`: terminates on every byte string and reads inside it only. */
  method Unmarshal(tc: TimeCodec, dAtA: ByteString, m: CanonicalVote) returns (r: Parsed<CanonicalVote>)
    requires |dAtA| <= MAX_INT64
    ensures r == DecodeVote(tc, dAtA, 0, m)
  {
    hide ReadTag, KnownField, SkipField;
    var current, iNdEx := m, 0;
    while iNdEx < |dAtA|
      invariant 0 <= iNdEx <= |dAtA|
      invariant DecodeVote(tc, dAtA, iNdEx, current) == DecodeVote(tc, dAtA, 0, m)
      decreases |dAtA| - iNdEx
    {
      var preIndex := iNdEx;
      var tag := ReadTagAt(dAtA, iNdEx);
      if tag.Err? {
        return Err(tag.error);
      }
      var fieldNum := tag.value.value.field;
      if fieldNum <= 6 {
        var field := UnmarshalField(tc, dAtA, tag.value.next, fieldNum, tag.value.value.wireType, current);
        if field.Err? {
          return Err(field.error);
        }
        current, iNdEx := field.value.value, field.value.next;
      } else {
        var after := SkipFieldAt(dAtA, preIndex);
        if after.Err? {
          return Err(after.error);
        }
        iNdEx := after.value;
      }
    }
    return Ok(current);
  }
}
