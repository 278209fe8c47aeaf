/** The canonical vote as a list of numbered fields: what marshalling writes, and what any list of fields is read as. */
module WireFormat {
  import opened Int64
  import opened Bytes
  import opened Options
  import opened Varints
  import opened Canonical
  import opened UnknownFields

  // ---- what is written

  function When(present: bool, f: Field, rest: Fields): Fields { if present then Fields(f, rest) else rest }

  function HashFields(h: CanonicalDataHash): Fields { When(|h.hash| > 0, BytesField(1, h.hash), NoFields) }

  function HashBody(v: CanonicalVote): ByteString {
    if v.dataHash.Some? then EncodeAll(HashFields(v.dataHash.value)) else []
  }

  /** The fields of a vote: zero values and an absent hash are left out, the time never is. */
  function FieldsOf(v: CanonicalVote, time: ByteString): Fields {
    When(v.msgType != 0, VarintField(1, ToUint64(v.msgType)),
         When(v.height != 0, Fixed64Field(2, LittleEndian(ToUint64(v.height), 8)),
              When(v.round != 0, Fixed64Field(3, LittleEndian(ToUint64(v.round), 8)),
                   When(v.dataHash.Some?, BytesField(4, HashBody(v)),
                        Fields(BytesField(5, time),
                               When(|v.chainID| > 0, BytesField(6, v.chainID), NoFields))))))
  }

  lemma SmallTag(number: nat, wireType: nat)
    requires number < 16 && wireType < 8
    ensures TagOf(number, wireType) == [number * 8 + wireType]
  {
  }

  lemma HashWireForm(h: CanonicalDataHash)
    ensures EncodeHash(h) == EncodeAll(HashFields(h))
  {
    hide Delimited;
    SmallTag(1, 2);
    if |h.hash| > 0 { assert Encode(BytesField(1, h.hash)) + [] == Encode(BytesField(1, h.hash)); }
  }

  lemma OneMore(present: bool, f: Field, rest: Fields, bytes: ByteString)
    requires present ==> bytes == Encode(f)
    requires !present ==> bytes == []
    ensures EncodeAll(When(present, f, rest)) == bytes + EncodeAll(rest)
  {
    hide Encode;
    assert [] + EncodeAll(rest) == EncodeAll(rest);
  }

  /** Marshalling writes the fields in the order of their numbers. */
  lemma WireForm(tc: TimeCodec, v: CanonicalVote)
    requires tc.encode(v.timestamp).Some?
    ensures EncodeVote(tc, v) == Some(EncodeAll(FieldsOf(v, tc.encode(v.timestamp).value)))
  {
    hide Delimited, EncodeVarint, EncodeHash, LittleEndian, ToUint64, EncodeAll, When;
    var time := tc.encode(v.timestamp).value;
    SmallTags();
    if v.dataHash.Some? { HashWireForm(v.dataHash.value); }
    var f6 := When(|v.chainID| > 0, BytesField(6, v.chainID), NoFields);
    var f5 := Fields(BytesField(5, time), f6);
    var f4 := When(v.dataHash.Some?, BytesField(4, HashBody(v)), f5);
    var f3 := When(v.round != 0, Fixed64Field(3, LittleEndian(ToUint64(v.round), 8)), f4);
    var f2 := When(v.height != 0, Fixed64Field(2, LittleEndian(ToUint64(v.height), 8)), f3);
    OneMore(|v.chainID| > 0, BytesField(6, v.chainID), NoFields, ChainField(v));
    EncodeNothing();
    assert ChainField(v) + [] == ChainField(v);
    FirstOfAll(BytesField(5, time), f6);
    OneMore(v.dataHash.Some?, BytesField(4, HashBody(v)), f5, HashField(v));
    OneMore(v.round != 0, Fixed64Field(3, LittleEndian(ToUint64(v.round), 8)), f4, RoundField(v));
    OneMore(v.height != 0, Fixed64Field(2, LittleEndian(ToUint64(v.height), 8)), f3, HeightField(v));
    OneMore(v.msgType != 0, VarintField(1, ToUint64(v.msgType)), f2, TypeField(v));
  }

  lemma EncodeNothing()
    ensures EncodeAll(NoFields) == []
  {
  }

  lemma FirstOfAll(f: Field, rest: Fields)
    ensures EncodeAll(Fields(f, rest)) == Encode(f) + EncodeAll(rest)
  {
  }

  lemma SmallTags()
    ensures TagOf(1, 0) == [0x08] && TagOf(2, 1) == [0x11] && TagOf(3, 1) == [0x19]
    ensures TagOf(4, 2) == [0x22] && TagOf(5, 2) == [0x2a] && TagOf(6, 2) == [0x32]
  {
    SmallTag(1, 0); SmallTag(2, 1); SmallTag(3, 1); SmallTag(4, 2); SmallTag(5, 2); SmallTag(6, 2);
  }

  // ---- what is read

  /** What one field does to the message being filled. */
  function Meaning(tc: TimeCodec, f: Field, m: CanonicalVote): Parsed<CanonicalVote> {
    if f.number > 6 then Ok(m)
    else
      match (f.number, f)
      case (1, VarintField(_, u)) => Ok(m.(msgType := ToInt32(u)))
      case (2, Fixed64Field(_, bytes)) => Ok(m.(height := Fixed(bytes)))
      case (3, Fixed64Field(_, bytes)) => Ok(m.(round := Fixed(bytes)))
      case (4, BytesField(_, body)) =>
        if |body| > MAX_INT64 then Err(InvalidLength)
        else
          (match DecodeHash(body, 0, if m.dataHash.Some? then m.dataHash.value else CanonicalDataHash([]))
           case Err(e) => Err(e)
           case Ok(h) => Ok(m.(dataHash := Some(h))))
      case (5, BytesField(_, body)) =>
        (match tc.decode(body) case None => Err(BadTimestamp) case Some(t) => Ok(m.(timestamp := t)))
      case (6, BytesField(_, body)) => Ok(m.(chainID := body))
      case _ => Err(WrongWireType)
  }

  /** Eight bytes as a signed number, the lowest first. */
  function Fixed(bytes: ByteString): Int64 {
    if |bytes| != 8 then 0
    else
      FixedBounded(bytes);
      Pow256At8();
      ToInt64(FromLittleEndian(bytes))
  }

  /** What a list of fields does: one after the other, so that of several with one number the last one stays. */
  function Meanings(tc: TimeCodec, fs: Fields, m: CanonicalVote): Parsed<CanonicalVote> {
    match fs
    case NoFields => Ok(m)
    case Fields(f, rest) =>
      match Meaning(tc, f, m)
      case Err(e) => Err(e)
      case Ok(m') => Meanings(tc, rest, m')
  }

  lemma ReadFieldTag(data: ByteString, i: nat, f: Field)
    requires WellFormed(f) && |data| <= MAX_INT64 && At(data, i, Encode(f))
    ensures var next := i + |TagOf(f.number, WireType(f))|;
      && next <= |data| && ReadTag(data, i) == Ok(Read(Tag(f.number, WireType(f)), next))
      && At(data, next, Payload(f)) && next + |Payload(f)| == i + |Encode(f)| <= |data|
  {
    hide ReadVarint, EncodeVarint, At, Payload, WellFormed;
    AtFits(data, i, Encode(f));
    AtSplit(data, i, TagOf(f.number, WireType(f)), Payload(f));
    NumberFits(f);
    ReadTagOf(data, i, f.number, WireType(f));
  }

  /** The payload of a known field. */
  lemma KnownMeaning(tc: TimeCodec, data: ByteString, i: nat, f: Field, m: CanonicalVote)
    requires WellFormed(f) && f.number <= 6 && |data| <= MAX_INT64
    requires At(data, i, Payload(f)) && i + |Payload(f)| <= |data|
    ensures KnownField(tc, data, i, Tag(f.number, WireType(f)), m)
            == match Meaning(tc, f, m)
               case Err(e) => Err(e)
               case Ok(m') => Ok(Read(m', i + |Payload(f)|))
  {
    hide ReadVarint, EncodeVarint, ReadLength, DecodeHash, At, Delimited, ReadBytes, ReadFixed64, FromLittleEndian;
    match f {
      case VarintField(_, v) => ReadBack(data, i, v);
      case Fixed64Field(_, bytes) => ReadFixedAt(data, i, bytes);
      case BytesField(_, body) =>
        ReadBackBytes(data, i, body);
        DelimitedFits(data, i, body);
      case _ =>
    }
    if !f.BytesField? { NotBytes(data, i, WireType(f)); }
  }

  lemma NotBytes(data: ByteString, i: nat, wireType: int)
    requires wireType != 2 && |data| <= MAX_INT64
    ensures ReadBytes(data, i, wireType) == Err(WrongWireType)
  {
  }

  lemma ReadFixedAt(data: ByteString, i: nat, bytes: ByteString)
    requires |bytes| == 8 && At(data, i, bytes)
    ensures ReadFixed64(data, i) == Ok(Read(Fixed(bytes), i + 8))
  {
  }

  /** One turn of the parser on any field, known or not. */
  lemma StepMeans(tc: TimeCodec, data: ByteString, i: nat, f: Field, m: CanonicalVote)
    requires WellFormed(f) && |data| <= MAX_INT64 && At(data, i, Encode(f))
    ensures i < i + |Encode(f)| <= |data|
    ensures VoteStep(tc, data, i, m)
            == match Meaning(tc, f, m)
               case Err(e) => Err(e)
               case Ok(m') => Ok(Read(m', i + |Encode(f)|))
  {
    hide ReadTag, KnownField, Meaning, SkipField, At, WellFormed, Encode, Payload, TagOf;
    if f.number > 6 {
      StepIgnores(tc, data, i, m, f);
      UnknownMeansNothing(tc, f, m);
    } else {
      ReadFieldTag(data, i, f);
      KnownMeaning(tc, data, i + |TagOf(f.number, WireType(f))|, f, m);
      TagNotEmpty(f);
    }
  }

  lemma UnknownMeansNothing(tc: TimeCodec, f: Field, m: CanonicalVote)
    requires f.number > 6
    ensures Meaning(tc, f, m) == Ok(m)
  {
  }

  lemma TagNotEmpty(f: Field)
    ensures |Encode(f)| > 0
  {
  }

  /**
   * Unmarshal of any list of fields, in any order, with repetitions and unknown ones, into any value: the fields act
   * one after the other, and a known field of the wrong kind is refused.
   */
  lemma {:induction false} UnmarshalMeans(tc: TimeCodec, data: ByteString, i: nat, fs: Fields, m: CanonicalVote)
    requires AllWellFormed(fs) && |data| <= MAX_INT64 && At(data, i, EncodeAll(fs)) && i + |EncodeAll(fs)| == |data|
    ensures DecodeVote(tc, data, i, m) == Meanings(tc, fs, m)
    decreases fs
  {
    hide VoteStep, At, Encode, WellFormed, Meaning;
    match fs {
      case NoFields =>
      case Fields(f, rest) =>
        AtSplit(data, i, Encode(f), EncodeAll(rest));
        StepMeans(tc, data, i, f, m);
        if Meaning(tc, f, m).Ok? {
          UnmarshalMeans(tc, data, i + |Encode(f)|, rest, Meaning(tc, f, m).value);
        }
    }
  }

  /** What one field does to a data hash: the first is its bytes, all others are passed over. */
  function HashMeaning(f: Field, h: CanonicalDataHash): Parsed<CanonicalDataHash> {
    if f.number > 1 then Ok(h)
    else
      match f
      case BytesField(_, body) => Ok(CanonicalDataHash(body))
      case _ => Err(WrongWireType)
  }

  function HashMeanings(fs: Fields, h: CanonicalDataHash): Parsed<CanonicalDataHash> {
    match fs
    case NoFields => Ok(h)
    case Fields(f, rest) =>
      match HashMeaning(f, h)
      case Err(e) => Err(e)
      case Ok(h') => HashMeanings(rest, h')
  }

  lemma HashStepMeans(data: ByteString, i: nat, f: Field, h: CanonicalDataHash)
    requires WellFormed(f) && |data| <= MAX_INT64 && At(data, i, Encode(f))
    ensures i < i + |Encode(f)| <= |data|
    ensures HashStep(data, i, h)
            == match HashMeaning(f, h)
               case Err(e) => Err(e)
               case Ok(h') => Ok(Read(h', i + |Encode(f)|))
  {
    hide ReadTag, SkipFrom, At, ReadBytes, Delimited, TagOf;
    ReadFieldTag(data, i, f);
    TagNotEmpty(f);
    if f.number > 1 {
      AtShift(data, i, Encode(f));
      SkipsField(f, data[i..], 0, 0);
    } else if f.BytesField? {
      ReadBackBytes(data, i + |TagOf(1, 2)|, f.body);
    } else {
      NotBytes(data, i + |TagOf(f.number, WireType(f))|, WireType(f));
    }
  }

  /** The same for the data hash inside a vote. */
  lemma {:induction false} UnmarshalHashMeans(data: ByteString, i: nat, fs: Fields, h: CanonicalDataHash)
    requires AllWellFormed(fs) && |data| <= MAX_INT64 && At(data, i, EncodeAll(fs)) && i + |EncodeAll(fs)| == |data|
    ensures DecodeHash(data, i, h) == HashMeanings(fs, h)
    decreases fs
  {
    hide HashStep, At, Encode, WellFormed, HashMeaning;
    match fs {
      case NoFields =>
      case Fields(f, rest) =>
        AtSplit(data, i, Encode(f), EncodeAll(rest));
        HashStepMeans(data, i, f, h);
        if HashMeaning(f, h).Ok? {
          UnmarshalHashMeans(data, i + |Encode(f)|, rest, HashMeaning(f, h).value);
        }
    }
  }

  // ---- test vectors

  lemma BareVote(tc: TimeCodec, v: CanonicalVote)
    requires tc.encode(v.timestamp).Some? && v.dataHash == None && v.chainID == []
    ensures EncodeVote(tc, v)
            == Some(TypeField(v) + (HeightField(v) + (RoundField(v) + Tagged(0x2a, tc.encode(v.timestamp).value))))
  {
    hide Tagged, TypeField, HeightField, RoundField;
    var time := Tagged(0x2a, tc.encode(v.timestamp).value);
    assert [] + (time + []) == time;
  }

  lemma ElevenBytes(time: ByteString)
    requires |time| == 11
    ensures Tagged(0x2a, time) == [0x2a, 0x0b] + time
  {
    OneByte(11);
    assert [0x2a] + ([0x0b] + time) == [0x2a, 0x0b] + time;
  }

  /** The first test vector for votes: nothing but a time of eleven bytes. */
  lemma EmptyVoteVector(tc: TimeCodec, t: Time, time: ByteString)
    requires tc.encode(t) == Some(time) && |time| == 11
    ensures EncodeVote(tc, CanonicalVote(0, 0, 0, None, t, [])).Some?
    ensures Delimited(EncodeVote(tc, CanonicalVote(0, 0, 0, None, t, [])).value) == [0x0d, 0x2a, 0x0b] + time
  {
    hide Tagged, EncodeVarint, EncodeVote;
    var v := CanonicalVote(0, 0, 0, None, t, []);
    BareVote(tc, v);
    ElevenBytes(time);
    OneByte(13);
    assert [] + ([] + ([] + Tagged(0x2a, time))) == [0x2a, 0x0b] + time;
    assert [0x0d] + ([0x2a, 0x0b] + time) == [0x0d, 0x2a, 0x0b] + time;
  }

  /** The bytes of the other two vectors between the length and the time, for the type `m`. */
  function VectorHead(m: Byte): ByteString {
    [0x08, m] + ([0x11, 1, 0, 0, 0, 0, 0, 0, 0] + [0x19, 1, 0, 0, 0, 0, 0, 0, 0])
  }

  /** The other two: a type, height 1, round 1 and the time. */
  lemma VoteVectors(tc: TimeCodec, t: Time, time: ByteString, m: Int32)
    requires tc.encode(t) == Some(time) && |time| == 11 && 1 <= m <= 2
    ensures EncodeVote(tc, CanonicalVote(m, 1, 1, None, t, [])).Some?
    ensures Delimited(EncodeVote(tc, CanonicalVote(m, 1, 1, None, t, [])).value)
            == [0x21] + (VectorHead(m) + ([0x2a, 0x0b] + time))
  {
    hide Tagged, EncodeVarint, EncodeVote, TypeField, HeightField, RoundField, VectorHead;
    var w := CanonicalVote(m, 1, 1, None, t, []);
    BareVote(tc, w);
    ElevenBytes(time);
    OneByte(33);
    VectorFields(m, t);
    var tail := [0x2a, 0x0b] + time;
    assert TypeField(w) + (HeightField(w) + (RoundField(w) + tail))
        == (TypeField(w) + (HeightField(w) + RoundField(w))) + tail;
  }

  lemma VectorFields(m: Int32, t: Time)
    requires 1 <= m <= 2
    ensures var w := CanonicalVote(m, 1, 1, None, t, []);
      TypeField(w) + (HeightField(w) + RoundField(w)) == VectorHead(m) && |VectorHead(m)| == 20
  {
    hide Fixed64, EncodeVarint;
    OneFixed();
    OneByte(m);
  }

  lemma OneByte(x: nat)
    requires x < 128
    ensures EncodeVarint(x) == [x] && ToUint64(x) == x
  {
  }

  lemma OneFixed()
    ensures Fixed64(1) == [1, 0, 0, 0, 0, 0, 0, 0]
  {
    assert LittleEndian(0, 4) == [0, 0, 0, 0];
    assert LittleEndian(0, 7) == [0, 0, 0] + LittleEndian(0, 4);
  }
}
