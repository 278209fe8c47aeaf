/** The canonical vote, its wire form and its parser. */
module Canonical {
  import opened Int64
  import opened Bytes
  import opened Options
  import opened Varints

  /** A point in time. Its wire form belongs to another library and is a parameter. */
  type Time = int

  const ZERO_TIME: Time := 0

  /** The timestamp codec: marshalling may refuse a time, unmarshalling may refuse bytes. */
  datatype TimeCodec = TimeCodec(encode: Time -> Option<ByteString>, decode: ByteString -> Option<Time>)

  /** What is assumed of the timestamp codec. */
  ghost predicate TimesRoundTrip(tc: TimeCodec) {
    forall t :: tc.encode(t).Some? ==> tc.decode(tc.encode(t).value) == Some(t)
  }

  datatype CanonicalDataHash = CanonicalDataHash(hash: ByteString)

  datatype CanonicalVote = CanonicalVote(
    msgType: Int32,
    height: Int64,
    round: Int64,
    dataHash: Option<CanonicalDataHash>,
    timestamp: Time,
    chainID: ByteString)

  const ZERO_VOTE := CanonicalVote(0, 0, 0, None, ZERO_TIME, [])

  // ---- encoding

  function Tagged(tag: Byte, body: ByteString): ByteString { [tag] + Delimited(body) }

  function EncodeHash(h: CanonicalDataHash): ByteString {
    if |h.hash| > 0 then Tagged(0x0a, h.hash) else []
  }

  function TypeField(m: CanonicalVote): ByteString {
    if m.msgType != 0 then [0x08] + EncodeVarint(ToUint64(m.msgType)) else []
  }

  function HeightField(m: CanonicalVote): ByteString {
    if m.height != 0 then [0x11] + Fixed64(m.height) else []
  }

  function RoundField(m: CanonicalVote): ByteString {
    if m.round != 0 then [0x19] + Fixed64(m.round) else []
  }

  function HashField(m: CanonicalVote): ByteString {
    if m.dataHash.Some? then Tagged(0x22, EncodeHash(m.dataHash.value)) else []
  }

  function ChainField(m: CanonicalVote): ByteString {
    if |m.chainID| > 0 then Tagged(0x32, m.chainID) else []
  }

  /** Marshal: the fields in order of their numbers; None if the time cannot be marshalled. */
  function EncodeVote(tc: TimeCodec, m: CanonicalVote): Option<ByteString> {
    match tc.encode(m.timestamp)
    case None => None
    case Some(time) =>
      Some(TypeField(m) + (HeightField(m) + (RoundField(m) + (HashField(m) + (Tagged(0x2a, time) + ChainField(m))))))
  }

  // ---- sizes, as the generated code computes them

  function HashSize(h: CanonicalDataHash): nat {
    var l := |h.hash|;
    if l > 0 then 1 + l + VarintSize(l) else 0
  }

  function VoteSize(tc: TimeCodec, m: CanonicalVote): nat {
    (if m.msgType != 0 then 1 + VarintSize(ToUint64(m.msgType)) else 0)
    + (if m.height != 0 then 9 else 0)
    + (if m.round != 0 then 9 else 0)
    + (if m.dataHash.Some? then var l := HashSize(m.dataHash.value); 1 + l + VarintSize(l) else 0)
    + (var l := if tc.encode(m.timestamp).Some? then |tc.encode(m.timestamp).value| else 0; 1 + l + VarintSize(l))
    + (var l := |m.chainID|; if l > 0 then 1 + l + VarintSize(l) else 0)
  }

  lemma TaggedSize(tag: Byte, body: ByteString)
    ensures |Tagged(tag, body)| == 1 + |body| + VarintSize(|body|)
  {
    VarintSizeIsLength(|body|);
  }

  lemma HashSizeIsLength(h: CanonicalDataHash)
    ensures HashSize(h) == |EncodeHash(h)|
  {
    TaggedSize(0x0a, h.hash);
  }

  /** Size announces exactly the bytes that are written. */
  lemma SizeIsLength(tc: TimeCodec, m: CanonicalVote)
    requires EncodeVote(tc, m).Some?
    ensures VoteSize(tc, m) == |EncodeVote(tc, m).value|
  {
    hide VarintSize, EncodeVarint, HashSize, EncodeHash, Tagged;
    VarintSizeIsLength(ToUint64(m.msgType));
    if m.dataHash.Some? {
      HashSizeIsLength(m.dataHash.value);
      TaggedSize(0x22, EncodeHash(m.dataHash.value));
    }
    TaggedSize(0x2a, tc.encode(m.timestamp).value);
    TaggedSize(0x32, m.chainID);
  }

  // ---- skipping unknown fields

  /** The index `n` bytes further on, unless it would leave the int64 range and wrap. */
  function Advance(i: nat, n: nat): (r: Int64)
    requires i <= MAX_INT64 && n <= MAX_INT64
    ensures r == if i + n <= MAX_INT64 then i + n else i + n - TWO_64
  {
    Wrap64(i + n)
  }

  /** The bytes behind the tag of one field inside skipCanonical: the index after them and the new depth. */
  function SkipPayload(data: ByteString, i: nat, wireType: int, depth: nat): (r: Parsed<(Int64, nat)>)
    requires i <= |data| <= MAX_INT64
    ensures r.Ok? && r.value.0 >= 0 ==> i <= r.value.0
  {
    match wireType
    case 0 =>
      (match ReadVarint(data, i) case Err(e) => Err(e) case Ok(Read(_, next)) => Ok((next, depth)))
    case 1 => Ok((Advance(i, 8), depth))
    case 2 =>
      (match ReadVarint(data, i)
       case Err(e) => Err(e)
       case Ok(Read(u, next)) =>
         if ToInt64(u) < 0 then Err(InvalidLength) else Ok((Advance(next, ToInt64(u)), depth)))
    case 3 => Ok((i, depth + 1))
    case 4 => if depth == 0 then Err(UnexpectedEndOfGroup) else Ok((i, depth - 1))
    case 5 => Ok((Advance(i, 4), depth))
    case _ => Err(IllegalWireType)
  }

  /** skipCanonical from index `i` inside `depth` open groups; the result may lie beyond the end of the data. */
  function SkipFrom(data: ByteString, i: nat, depth: nat): (r: Parsed<nat>)
    requires |data| <= MAX_INT64
    ensures r.Ok? ==> i < r.value <= MAX_INT64
    decreases |data| - i
  {
    if i >= |data| then Err(UnexpectedEof)
    else
      match ReadVarint(data, i)
      case Err(e) => Err(e)
      case Ok(Read(wire, next)) =>
        match SkipPayload(data, next, wire % 8, depth)
        case Err(e) => Err(e)
        case Ok((after, depth')) =>
          if after < 0 then Err(InvalidLength)
          else if depth' == 0 then Ok(after)
          else SkipFrom(data, after, depth')
  }

  /** The default branch of a parser: skip the field starting at `i`, with the caller's checks. */
  function SkipField(data: ByteString, i: nat): (r: Parsed<nat>)
    requires i <= |data| <= MAX_INT64
    ensures r.Ok? ==> i < r.value <= |data|
  {
    match SkipFrom(data[i..], 0, 0)
    case Err(e) => Err(e)
    case Ok(n) =>
      var after := Advance(i, n);
      if after < 0 then Err(InvalidLength)
      else if after > |data| then Err(UnexpectedEof)
      else Ok(after)
  }

  // ---- decoding

  datatype Tag = Tag(field: Int32, wireType: int)

  function ReadTag(data: ByteString, i: nat): (r: Parsed<Read<Tag>>)
    ensures r.Ok? ==> i < r.value.next <= |data|
  {
    match ReadVarint(data, i)
    case Err(e) => Err(e)
    case Ok(Read(wire, next)) =>
      var tag := Tag(ToInt32(wire / 8), wire % 8);
      if tag.wireType == 4 then Err(EndGroup)
      else if tag.field <= 0 then Err(IllegalTag)
      else Ok(Read(tag, next))
  }

  /** A length-delimited field: its bytes and the index behind them. */
  function ReadBytes(data: ByteString, i: nat, wireType: int): (r: Parsed<Read<ByteString>>)
    requires |data| <= MAX_INT64
    ensures r.Ok? ==> i < r.value.next <= |data| && |r.value.value| <= |data|
  {
    if wireType != 2 then Err(WrongWireType)
    else
      match ReadLength(data, i)
      case Err(e) => Err(e)
      case Ok(Read(n, start)) => Ok(Read(data[start..start + n], start + n))
  }

  /** One iteration of CanonicalDataHash.Unmarshal. */
  function HashStep(data: ByteString, i: nat, m: CanonicalDataHash): (r: Parsed<Read<CanonicalDataHash>>)
    requires i < |data| <= MAX_INT64
    ensures r.Ok? ==> i < r.value.next <= |data|
  {
    match ReadTag(data, i)
    case Err(e) => Err(e)
    case Ok(Read(tag, next)) =>
      if tag.field == 1 then
        match ReadBytes(data, next, tag.wireType)
        case Err(e) => Err(e)
        case Ok(Read(bytes, after)) => Ok(Read(CanonicalDataHash(bytes), after))
      else
        match SkipField(data, i)
        case Err(e) => Err(e)
        case Ok(after) => Ok(Read(m, after))
  }

  /** CanonicalDataHash.Unmarshal into `m`, from index `i`. */
  function DecodeHash(data: ByteString, i: nat, m: CanonicalDataHash): Parsed<CanonicalDataHash>
    requires i <= |data| <= MAX_INT64
    decreases |data| - i
  {
    if i == |data| then Ok(m)
    else
      match HashStep(data, i, m)
      case Err(e) => Err(e)
      case Ok(Read(m', next)) => DecodeHash(data, next, m')
  }

  /** One known field of CanonicalVote, behind its tag. */
  function KnownField(tc: TimeCodec, data: ByteString, i: nat, tag: Tag, m: CanonicalVote)
    : (r: Parsed<Read<CanonicalVote>>)
    requires i <= |data| <= MAX_INT64 && 1 <= tag.field <= 6
    ensures r.Ok? ==> i < r.value.next <= |data|
  {
    match tag.field
    case 1 =>
      if tag.wireType != 0 then Err(WrongWireType)
      else
        (match ReadVarint(data, i)
         case Err(e) => Err(e)
         case Ok(Read(u, next)) => Ok(Read(m.(msgType := ToInt32(u)), next)))
    case 2 =>
      if tag.wireType != 1 then Err(WrongWireType)
      else
        (match ReadFixed64(data, i)
         case Err(e) => Err(e)
         case Ok(Read(v, next)) => Ok(Read(m.(height := v), next)))
    case 3 =>
      if tag.wireType != 1 then Err(WrongWireType)
      else
        (match ReadFixed64(data, i)
         case Err(e) => Err(e)
         case Ok(Read(v, next)) => Ok(Read(m.(round := v), next)))
    case 4 =>
      (match ReadBytes(data, i, tag.wireType)
       case Err(e) => Err(e)
       case Ok(Read(bytes, next)) =>
         match DecodeHash(bytes, 0, if m.dataHash.Some? then m.dataHash.value else CanonicalDataHash([]))
         case Err(e) => Err(e)
         case Ok(h) => Ok(Read(m.(dataHash := Some(h)), next)))
    case 5 =>
      (match ReadBytes(data, i, tag.wireType)
       case Err(e) => Err(e)
       case Ok(Read(bytes, next)) =>
         match tc.decode(bytes)
         case None => Err(BadTimestamp)
         case Some(t) => Ok(Read(m.(timestamp := t), next)))
    case _ =>
      (match ReadBytes(data, i, tag.wireType)
       case Err(e) => Err(e)
       case Ok(Read(bytes, next)) => Ok(Read(m.(chainID := bytes), next)))
  }

  /** One iteration of CanonicalVote.Unmarshal. */
  function VoteStep(tc: TimeCodec, data: ByteString, i: nat, m: CanonicalVote): (r: Parsed<Read<CanonicalVote>>)
    requires i < |data| <= MAX_INT64
    ensures r.Ok? ==> i < r.value.next <= |data|
  {
    match ReadTag(data, i)
    case Err(e) => Err(e)
    case Ok(Read(tag, next)) =>
      if tag.field <= 6 then KnownField(tc, data, next, tag, m)
      else
        match SkipField(data, i)
        case Err(e) => Err(e)
        case Ok(after) => Ok(Read(m, after))
  }

  /** CanonicalVote.Unmarshal into `m`, from index `i`. */
  function DecodeVote(tc: TimeCodec, data: ByteString, i: nat, m: CanonicalVote): Parsed<CanonicalVote>
    requires i <= |data| <= MAX_INT64
    decreases |data| - i
  {
    if i == |data| then Ok(m)
    else
      match VoteStep(tc, data, i, m)
      case Err(e) => Err(e)
      case Ok(Read(m', next)) => DecodeVote(tc, data, next, m')
  }

  // ---- the round trip

  lemma ReadBackTag(data: ByteString, i: nat, tag: Byte, rest: ByteString)
    requires 8 <= tag < 128 && tag % 8 != 4 && At(data, i, [tag] + rest)
    ensures i < |data| && ReadTag(data, i) == Ok(Read(Tag(tag / 8, tag % 8), i + 1)) && At(data, i + 1, rest)
  {
    AtHead(data, i, tag, rest);
    AtSplit(data, i, [tag], rest);
    assert EncodeVarint(tag) == [tag];
    ReadBack(data, i, tag);
  }

  lemma ReadBackBytes(data: ByteString, i: nat, body: ByteString)
    requires At(data, i, Delimited(body)) && |data| <= MAX_INT64
    ensures ReadBytes(data, i, 2) == Ok(Read(body, i + |Delimited(body)|))
  {
    ReadBackLength(data, i, body);
  }

  lemma HashRoundTrip(h: CanonicalDataHash)
    requires |EncodeHash(h)| <= MAX_INT64
    ensures DecodeHash(EncodeHash(h), 0, CanonicalDataHash([])) == Ok(h)
  {
    hide ReadTag, ReadBytes, Delimited, SkipField;
    var data := EncodeHash(h);
    if |h.hash| > 0 {
      assert data[0..|data|] == data;
      ReadBackTag(data, 0, 0x0a, Delimited(h.hash));
      ReadBackBytes(data, 1, h.hash);
      assert HashStep(data, 0, CanonicalDataHash([])) == Ok(Read(h, |data|));
    }
  }

  /** A present field moves the parser to its end and is stored. */
  lemma StepOver(tc: TimeCodec, data: ByteString, i: nat, m: CanonicalVote, tag: Byte, rest: ByteString,
                 m': CanonicalVote)
    requires |data| <= MAX_INT64 && 8 <= tag < 56 && tag % 8 != 4 && At(data, i, [tag] + rest)
    requires i + 1 <= |data| && At(data, i + 1, rest) ==>
               KnownField(tc, data, i + 1, Tag(tag / 8, tag % 8), m) == Ok(Read(m', i + 1 + |rest|))
    ensures i + 1 + |rest| <= |data|
    ensures DecodeVote(tc, data, i, m) == DecodeVote(tc, data, i + 1 + |rest|, m')
  {
    hide ReadTag, KnownField, SkipField;
    ReadBackTag(data, i, tag, rest);
  }

  lemma TypeStep(tc: TimeCodec, data: ByteString, i: nat, m: CanonicalVote, v: CanonicalVote)
    requires |data| <= MAX_INT64 && At(data, i, TypeField(v)) && m.msgType == 0
    ensures DecodeVote(tc, data, i, m) == DecodeVote(tc, data, i + |TypeField(v)|, m.(msgType := v.msgType))
  {
    hide DecodeVote, At, ReadVarint, ReadFixed64, ReadBytes, Fixed64, EncodeVarint, EncodeHash, DecodeHash, Delimited;
    if v.msgType != 0 {
      var rest := EncodeVarint(ToUint64(v.msgType));
      ConversionsRoundTrip(0, v.msgType);
      if At(data, i + 1, rest) { ReadBack(data, i + 1, ToUint64(v.msgType)); }
      StepOver(tc, data, i, m, 0x08, rest, m.(msgType := v.msgType));
    }
  }

  lemma HeightStep(tc: TimeCodec, data: ByteString, i: nat, m: CanonicalVote, v: CanonicalVote)
    requires |data| <= MAX_INT64 && At(data, i, HeightField(v)) && m.height == 0
    ensures DecodeVote(tc, data, i, m) == DecodeVote(tc, data, i + |HeightField(v)|, m.(height := v.height))
  {
    hide DecodeVote, At, ReadVarint, ReadFixed64, ReadBytes, Fixed64, EncodeVarint, EncodeHash, DecodeHash, Delimited;
    if v.height != 0 {
      if At(data, i + 1, Fixed64(v.height)) { ReadBackFixed(data, i + 1, v.height); }
      StepOver(tc, data, i, m, 0x11, Fixed64(v.height), m.(height := v.height));
    }
  }

  lemma RoundStep(tc: TimeCodec, data: ByteString, i: nat, m: CanonicalVote, v: CanonicalVote)
    requires |data| <= MAX_INT64 && At(data, i, RoundField(v)) && m.round == 0
    ensures DecodeVote(tc, data, i, m) == DecodeVote(tc, data, i + |RoundField(v)|, m.(round := v.round))
  {
    hide DecodeVote, At, ReadVarint, ReadFixed64, ReadBytes, Fixed64, EncodeVarint, EncodeHash, DecodeHash, Delimited;
    if v.round != 0 {
      if At(data, i + 1, Fixed64(v.round)) { ReadBackFixed(data, i + 1, v.round); }
      StepOver(tc, data, i, m, 0x19, Fixed64(v.round), m.(round := v.round));
    }
  }

  lemma DelimitedFits(data: ByteString, i: nat, body: ByteString)
    requires At(data, i, Delimited(body))
    ensures |body| <= |data|
  {
  }

  lemma HashFieldStep(tc: TimeCodec, data: ByteString, i: nat, m: CanonicalVote, v: CanonicalVote)
    requires |data| <= MAX_INT64 && At(data, i, HashField(v)) && m.dataHash == None
    ensures DecodeVote(tc, data, i, m) == DecodeVote(tc, data, i + |HashField(v)|, m.(dataHash := v.dataHash))
  {
    hide DecodeVote, At, ReadVarint, ReadFixed64, ReadBytes, Fixed64, EncodeVarint, EncodeHash, DecodeHash, Delimited;
    if v.dataHash.Some? {
      var body := EncodeHash(v.dataHash.value);
      if At(data, i + 1, Delimited(body)) {
        DelimitedFits(data, i + 1, body);
        HashRoundTrip(v.dataHash.value);
        ReadBackBytes(data, i + 1, body);
      }
      StepOver(tc, data, i, m, 0x22, Delimited(body), m.(dataHash := v.dataHash));
    }
  }

  lemma TimeStep(tc: TimeCodec, data: ByteString, i: nat, m: CanonicalVote, t: Time)
    requires |data| <= MAX_INT64 && TimesRoundTrip(tc) && tc.encode(t).Some?
    requires At(data, i, Tagged(0x2a, tc.encode(t).value))
    ensures DecodeVote(tc, data, i, m)
            == DecodeVote(tc, data, i + |Tagged(0x2a, tc.encode(t).value)|, m.(timestamp := t))
  {
    hide DecodeVote, At, ReadVarint, ReadFixed64, ReadBytes, Fixed64, EncodeVarint, EncodeHash, DecodeHash, Delimited;
    var body := tc.encode(t).value;
    if At(data, i + 1, Delimited(body)) { ReadBackBytes(data, i + 1, body); }
    StepOver(tc, data, i, m, 0x2a, Delimited(body), m.(timestamp := t));
  }

  lemma ChainStep(tc: TimeCodec, data: ByteString, i: nat, m: CanonicalVote, v: CanonicalVote)
    requires |data| <= MAX_INT64 && At(data, i, ChainField(v)) && m.chainID == []
    ensures DecodeVote(tc, data, i, m) == DecodeVote(tc, data, i + |ChainField(v)|, m.(chainID := v.chainID))
  {
    hide DecodeVote, At, ReadVarint, ReadFixed64, ReadBytes, Fixed64, EncodeVarint, EncodeHash, DecodeHash, Delimited;
    if |v.chainID| > 0 {
      if At(data, i + 1, Delimited(v.chainID)) { ReadBackBytes(data, i + 1, v.chainID); }
      StepOver(tc, data, i, m, 0x32, Delimited(v.chainID), m.(chainID := v.chainID));
    }
  }

  /** The parser takes a marshalled vote back from the front of any data. */
  lemma VotePrefix(tc: TimeCodec, data: ByteString, i: nat, v: CanonicalVote)
    requires TimesRoundTrip(tc) && EncodeVote(tc, v).Some? && At(data, i, EncodeVote(tc, v).value)
    requires |data| <= MAX_INT64
    ensures i + |EncodeVote(tc, v).value| <= |data|
    ensures DecodeVote(tc, data, i, ZERO_VOTE) == DecodeVote(tc, data, i + |EncodeVote(tc, v).value|, v)
  {
    hide TypeField, HeightField, RoundField, HashField, ChainField, Tagged, DecodeVote, At;
    var time := Tagged(0x2a, tc.encode(v.timestamp).value);
    var b1 := TypeField(v);
    var r5 := time + ChainField(v);
    var r4 := HashField(v) + r5;
    var r3 := RoundField(v) + r4;
    var r2 := HeightField(v) + r3;
    AtSplit(data, i, b1, r2);
    var i2 := i + |b1|;
    AtSplit(data, i2, HeightField(v), r3);
    var i3 := i2 + |HeightField(v)|;
    AtSplit(data, i3, RoundField(v), r4);
    var i4 := i3 + |RoundField(v)|;
    AtSplit(data, i4, HashField(v), r5);
    var i5 := i4 + |HashField(v)|;
    AtSplit(data, i5, time, ChainField(v));
    var i6 := i5 + |time|;
    var m1 := ZERO_VOTE.(msgType := v.msgType);
    var m2 := m1.(height := v.height);
    var m3 := m2.(round := v.round);
    var m4 := m3.(dataHash := v.dataHash);
    var m5 := m4.(timestamp := v.timestamp);
    TypeStep(tc, data, i, ZERO_VOTE, v);
    HeightStep(tc, data, i2, m1, v);
    RoundStep(tc, data, i3, m2, v);
    HashFieldStep(tc, data, i4, m3, v);
    TimeStep(tc, data, i5, m4, v.timestamp);
    ChainStep(tc, data, i6, m5, v);
    AtFits(data, i, EncodeVote(tc, v).value);
    assert i6 + |ChainField(v)| == i + |EncodeVote(tc, v).value|;
  }

  lemma AtFits(data: ByteString, i: nat, part: ByteString)
    requires At(data, i, part)
    ensures i + |part| <= |data|
  {
  }

  /** Unmarshalling a marshalled vote into a zero value gives the vote back. */
  lemma VoteRoundTrip(tc: TimeCodec, v: CanonicalVote)
    requires TimesRoundTrip(tc) && EncodeVote(tc, v).Some? && |EncodeVote(tc, v).value| <= MAX_INT64
    ensures DecodeVote(tc, EncodeVote(tc, v).value, 0, ZERO_VOTE) == Ok(v)
  {
    hide EncodeVote, DecodeVote;
    var data := EncodeVote(tc, v).value;
    WholeAt(data);
    VotePrefix(tc, data, 0, v);
    AtTheEnd(tc, data, v);
  }

  lemma WholeAt(data: ByteString)
    ensures At(data, 0, data)
  {
  }

  lemma AtTheEnd(tc: TimeCodec, data: ByteString, v: CanonicalVote)
    requires |data| <= MAX_INT64
    ensures DecodeVote(tc, data, |data|, v) == Ok(v)
  {
  }

  /** Equal encodings mean equal votes. */
  lemma EncodingInjective(tc: TimeCodec, v: CanonicalVote, w: CanonicalVote)
    requires TimesRoundTrip(tc) && EncodeVote(tc, v).Some? && |EncodeVote(tc, v).value| <= MAX_INT64
    requires EncodeVote(tc, v) == EncodeVote(tc, w)
    ensures v == w
  {
    VoteRoundTrip(tc, v);
    VoteRoundTrip(tc, w);
  }

  /** The length prefix of MarshalDelimited keeps different messages apart. */
  lemma DelimitedInjective(a: ByteString, b: ByteString)
    requires Delimited(a) == Delimited(b) && |Delimited(a)| <= MAX_INT64
    ensures a == b
  {
    hide ReadLength, EncodeVarint;
    WholeAt(Delimited(a));
    ReadBackLength(Delimited(a), 0, a);
    ReadBackLength(Delimited(b), 0, b);
  }
}
