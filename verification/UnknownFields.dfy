/** Fields a parser does not know: what they look like on the wire, and that skipping lands right behind them. */
module UnknownFields {
  import opened Int64
  import opened Bytes
  import opened Varints
  import opened Canonical

  /** Any field of a message, groups with their fields included. */
  datatype Field =
    | VarintField(number: nat, value: Uint64)
    | Fixed64Field(number: nat, bytes: ByteString)
    | BytesField(number: nat, body: ByteString)
    | GroupField(number: nat, inner: Fields)
    | Fixed32Field(number: nat, bytes: ByteString)

  datatype Fields = NoFields | Fields(first: Field, rest: Fields)

  const MAX_FIELD_NUMBER := 0x1FFF_FFFF

  predicate WellFormed(f: Field) {
    && 1 <= f.number <= MAX_FIELD_NUMBER
    && match f
       case Fixed64Field(_, bytes) => |bytes| == 8
       case Fixed32Field(_, bytes) => |bytes| == 4
       case GroupField(_, inner) => AllWellFormed(inner)
       case _ => true
  }

  predicate AllWellFormed(fs: Fields) {
    match fs
    case NoFields => true
    case Fields(f, rest) => WellFormed(f) && AllWellFormed(rest)
  }

  function WireType(f: Field): (t: nat)
    ensures t <= 5 && t != 4
  {
    match f
    case VarintField(_, _) => 0
    case Fixed64Field(_, _) => 1
    case BytesField(_, _) => 2
    case GroupField(_, _) => 3
    case Fixed32Field(_, _) => 5
  }

  function TagOf(number: nat, wireType: nat): ByteString { EncodeVarint(number * 8 + wireType) }

  function Payload(f: Field): ByteString
    decreases f, 0
  {
    match f
    case VarintField(_, v) => EncodeVarint(v)
    case Fixed64Field(_, bytes) => bytes
    case BytesField(_, body) => Delimited(body)
    case GroupField(number, inner) => EncodeAll(inner) + TagOf(number, 4)
    case Fixed32Field(_, bytes) => bytes
  }

  function Encode(f: Field): ByteString
    decreases f, 1
  {
    TagOf(f.number, WireType(f)) + Payload(f)
  }

  function EncodeAll(fs: Fields): ByteString
    decreases fs, 0
  {
    match fs
    case NoFields => []
    case Fields(f, rest) => Encode(f) + EncodeAll(rest)
  }

  /** Where skipping stands behind the bytes up to `j`: done at depth zero, else going on. */
  function SkippedTo(data: ByteString, j: nat, depth: nat): Parsed<nat>
    requires |data| <= MAX_INT64 && j <= |data|
  {
    if depth == 0 then Ok(j) else SkipFrom(data, j, depth)
  }

  lemma ReadTagOf(data: ByteString, i: nat, number: nat, wireType: nat)
    requires 1 <= number <= MAX_FIELD_NUMBER && wireType <= 7 && At(data, i, TagOf(number, wireType))
    ensures i < |data| && i + |TagOf(number, wireType)| <= |data|
    ensures ReadVarint(data, i) == Ok(Read(number * 8 + wireType, i + |TagOf(number, wireType)|))
    ensures (number * 8 + wireType) % 8 == wireType && (number * 8 + wireType) / 8 == number
  {
    ReadBack(data, i, number * 8 + wireType);
  }

  /** One field of any kind: skipping moves right behind it, at any depth of open groups. */
  lemma {:induction false} SkipsField(f: Field, data: ByteString, i: nat, depth: nat)
    requires WellFormed(f) && |data| <= MAX_INT64 && At(data, i, Encode(f))
    ensures i + |Encode(f)| <= |data|
    ensures SkipFrom(data, i, depth) == SkippedTo(data, i + |Encode(f)|, depth)
    decreases f, 1
  {
    hide SkipFrom, ReadVarint, EncodeVarint, At, EncodeAll;
    AtFits(data, i, Encode(f));
    var tag := TagOf(f.number, WireType(f));
    AtSplit(data, i, tag, Payload(f));
    ReadTagOf(data, i, f.number, WireType(f));
    var next := i + |tag|;
    SkipTurn(data, i, depth, f.number, WireType(f));
    match f {
      case VarintField(_, v) => ReadBack(data, next, v);
      case BytesField(_, body) => SkipBody(data, next, body);
      case GroupField(number, inner) => SkipsGroup(number, inner, data, next, depth);
      case _ =>
    }
  }

  /** One turn of the loop, up to the payload. */
  lemma SkipTurn(data: ByteString, i: nat, depth: nat, number: nat, wireType: nat)
    requires 1 <= number <= MAX_FIELD_NUMBER && wireType <= 7 && |data| <= MAX_INT64
    requires At(data, i, TagOf(number, wireType)) && i + |TagOf(number, wireType)| <= |data|
    ensures SkipFrom(data, i, depth)
            == match SkipPayload(data, i + |TagOf(number, wireType)|, wireType, depth)
               case Err(e) => Err(e)
               case Ok((after, depth')) =>
                 if after < 0 then Err(InvalidLength)
                 else if depth' == 0 then Ok(after)
                 else SkipFrom(data, after, depth')
  {
    hide ReadVarint, EncodeVarint, At, SkipPayload;
    ReadTagOf(data, i, number, wireType);
  }

  lemma SkipBody(data: ByteString, i: nat, body: ByteString)
    requires At(data, i, Delimited(body)) && |data| <= MAX_INT64
    ensures ReadVarint(data, i) == Ok(Read(|body|, i + |EncodeVarint(|body|)|))
    ensures i + |EncodeVarint(|body|)| + |body| <= |data|
  {
    AtSplit(data, i, EncodeVarint(|body|), body);
    ReadBack(data, i, |body|);
  }

  /** The inside of a group and its end tag. */
  lemma {:induction false} SkipsGroup(number: nat, inner: Fields, data: ByteString, i: nat, depth: nat)
    requires 1 <= number <= MAX_FIELD_NUMBER && AllWellFormed(inner) && |data| <= MAX_INT64
    requires At(data, i, EncodeAll(inner) + TagOf(number, 4)) && i + |EncodeAll(inner) + TagOf(number, 4)| <= |data|
    ensures SkipFrom(data, i, depth + 1) == SkippedTo(data, i + |EncodeAll(inner) + TagOf(number, 4)|, depth)
    decreases inner, 3
  {
    hide SkipFrom, ReadVarint, EncodeVarint, At, EncodeAll;
    AtSplit(data, i, EncodeAll(inner), TagOf(number, 4));
    SkipsAll(inner, data, i, depth + 1);
    SkipTurn(data, i + |EncodeAll(inner)|, depth + 1, number, 4);
  }

  lemma {:induction false} SkipsAll(fs: Fields, data: ByteString, i: nat, depth: nat)
    requires AllWellFormed(fs) && |data| <= MAX_INT64 && At(data, i, EncodeAll(fs)) && depth > 0
    ensures i + |EncodeAll(fs)| <= |data| && SkipFrom(data, i, depth) == SkipFrom(data, i + |EncodeAll(fs)|, depth)
    decreases fs, 2
  {
    hide SkipFrom, At, Encode, WellFormed;
    AtFits(data, i, EncodeAll(fs));
    match fs {
      case NoFields =>
      case Fields(f, rest) =>
        AtSplit(data, i, Encode(f), EncodeAll(rest));
        SkipsField(f, data, i, depth);
        SkipsAll(rest, data, i + |Encode(f)|, depth);
    }
  }

  // ---- what the vote parser does with them

  predicate Unknown(fs: Fields) {
    match fs
    case NoFields => true
    case Fields(f, rest) => f.number > 6 && Unknown(rest)
  }

  lemma AtShift(data: ByteString, i: nat, part: ByteString)
    requires At(data, i, part)
    ensures At(data[i..], 0, part)
  {
    assert data[i..][0..|part|] == data[i..i + |part|];
  }

  /** A step of the vote parser passes over an unknown field and leaves the message as it is. */
  lemma StepIgnores(tc: TimeCodec, data: ByteString, i: nat, m: CanonicalVote, f: Field)
    requires WellFormed(f) && f.number > 6 && |data| <= MAX_INT64 && At(data, i, Encode(f))
    ensures i < i + |Encode(f)| <= |data|
    ensures VoteStep(tc, data, i, m) == Ok(Read(m, i + |Encode(f)|))
  {
    hide SkipFrom, ReadVarint, EncodeVarint, At, Payload, KnownField, WellFormed;
    AtFits(data, i, Encode(f));
    AtSplit(data, i, TagOf(f.number, WireType(f)), Payload(f));
    NumberFits(f);
    ReadTagOf(data, i, f.number, WireType(f));
    AtShift(data, i, Encode(f));
    SkipsField(f, data[i..], 0, 0);
  }

  lemma NumberFits(f: Field)
    requires WellFormed(f)
    ensures 1 <= f.number <= MAX_FIELD_NUMBER && ToInt32(f.number) == f.number
  {
  }

  lemma {:induction false} ParserIgnores(tc: TimeCodec, data: ByteString, i: nat, m: CanonicalVote, fs: Fields)
    requires AllWellFormed(fs) && Unknown(fs) && |data| <= MAX_INT64 && At(data, i, EncodeAll(fs))
    ensures i + |EncodeAll(fs)| <= |data|
    ensures DecodeVote(tc, data, i, m) == DecodeVote(tc, data, i + |EncodeAll(fs)|, m)
    decreases fs
  {
    hide VoteStep, At, Encode, WellFormed;
    AtFits(data, i, EncodeAll(fs));
    match fs {
      case NoFields =>
      case Fields(f, rest) =>
        AtSplit(data, i, Encode(f), EncodeAll(rest));
        StepIgnores(tc, data, i, m, f);
        ParserIgnores(tc, data, i + |Encode(f)|, m, rest);
    }
  }

  /**
   * Forward compatibility: unknown fields before and after a marshalled vote, of any kind and depth, change nothing.
   */
  lemma UnknownFieldsIgnored(tc: TimeCodec, before: Fields, v: CanonicalVote, behind: Fields)
    requires TimesRoundTrip(tc) && EncodeVote(tc, v).Some?
    requires AllWellFormed(before) && Unknown(before) && AllWellFormed(behind) && Unknown(behind)
    requires |EncodeAll(before) + (EncodeVote(tc, v).value + EncodeAll(behind))| <= MAX_INT64
    ensures DecodeVote(tc, EncodeAll(before) + (EncodeVote(tc, v).value + EncodeAll(behind)), 0, ZERO_VOTE) == Ok(v)
  {
    hide DecodeVote, EncodeVote, At, EncodeAll, AllWellFormed, Unknown;
    var bytes := EncodeVote(tc, v).value;
    var data := EncodeAll(before) + (bytes + EncodeAll(behind));
    WholeAt(data);
    AtSplit(data, 0, EncodeAll(before), bytes + EncodeAll(behind));
    var start := |EncodeAll(before)|;
    AtSplit(data, start, bytes, EncodeAll(behind));
    ParserIgnores(tc, data, 0, ZERO_VOTE, before);
    VotePrefix(tc, data, start, v);
    ParserIgnores(tc, data, start + |bytes|, v, behind);
    AtTheEnd(tc, data, v);
  }
}
