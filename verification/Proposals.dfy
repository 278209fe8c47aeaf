/** The bytes a proposer signs, and why they are never the bytes of a vote. */
module Proposals {
  import opened Int64
  import opened Bytes
  import opened Options
  import opened Varints
  import opened Canonical
  import opened Votes

  const PROPOSAL_TYPE: Int32 := 32

  /** CanonicalProposal as CanonicalizeProposal fills it: no height, no rounds, the data in place of a hash. */
  function EncodeProposal(tc: TimeCodec, data: Option<CanonicalDataHash>, t: Time,
                          chainID: ByteString): Option<ByteString> {
    match tc.encode(t)
    case None => None
    case Some(time) =>
      Some([0x08] + EncodeVarint(ToUint64(PROPOSAL_TYPE))
           + (if data.Some? then Tagged(0x2a, EncodeHash(data.value)) else [])
           + Tagged(0x32, time)
           + if |chainID| > 0 then Tagged(0x3a, chainID) else [])
  }

  /** ProposalSignBytes; None is a panic, also on data that is neither empty nor as long as a hash. */
  function ProposalBytes(times: TimeCodec, chainID: ByteString, data: ByteString, t: Time): Option<ByteString> {
    match CanonicalizeHash(data)
    case None => None
    case Some(canonical) =>
      match EncodeProposal(times, canonical, t, chainID)
      case None => None
      case Some(bytes) => if |Delimited(bytes)| <= MAX_INT64 then Some(Delimited(bytes)) else None
  }

  /** A signature on a proposal never counts as a vote. */
  lemma ProposalIsNoVote(times: TimeCodec, c: ByteString, data: ByteString, t: Time,
                         c': ByteString, m: Int32, h: Hash, t': Time)
    requires m == PREVOTE_TYPE || m == PRECOMMIT_TYPE
    requires ProposalBytes(times, c, data, t).Some? && SignBytes(times, c', m, h, t').Some?
    ensures ProposalBytes(times, c, data, t) != SignBytes(times, c', m, h, t')
  {
    hide Delimited, Tagged, HashField, ChainField, EncodeHash;
    var proposal := EncodeProposal(times, CanonicalizeHash(data).value, t, c).value;
    var vote := EncodeVote(times, CanonicalVote(m, 0, 0, CanonicalizeHash(h).value, t', c')).value;
    assert proposal[1] == 32 && vote[1] == m;
    DelimitedLength(vote);
    if Delimited(proposal) == Delimited(vote) {
      DelimitedInjective(proposal, vote);
      assert false;
    }
  }

  // ---- what a proposal signature speaks for

  function DataField(data: Option<CanonicalDataHash>): ByteString {
    if data.Some? then Tagged(0x2a, EncodeHash(data.value)) else []
  }

  function IdField(chainID: ByteString): ByteString {
    if |chainID| > 0 then Tagged(0x3a, chainID) else []
  }

  /** Two length-delimited fields with the same tag, each followed by something: equal bytes mean equal parts. */
  lemma SameField(tag: Byte, a: ByteString, x: ByteString, b: ByteString, y: ByteString)
    requires Tagged(tag, a) + x == Tagged(tag, b) + y && |Tagged(tag, a) + x| <= MAX_INT64
    ensures a == b && x == y
  {
    hide EncodeVarint, ReadLength;
    var data := Tagged(tag, a) + x;
    WholeAt(data);
    assert data == [tag] + (Delimited(a) + x) == [tag] + (Delimited(b) + y);
    AtSplit(data, 0, [tag], Delimited(a) + x);
    AtSplit(data, 0, [tag], Delimited(b) + y);
    AtSplit(data, 1, Delimited(a), x);
    AtSplit(data, 1, Delimited(b), y);
    ReadBackLength(data, 1, a);
    ReadBackLength(data, 1, b);
    assert x == data[|Tagged(tag, a)|..] && y == data[|Tagged(tag, b)|..];
  }

  lemma ProposalFields(tc: TimeCodec, data: Option<CanonicalDataHash>, t: Time, chainID: ByteString)
    requires tc.encode(t).Some?
    ensures EncodeProposal(tc, data, t, chainID)
            == Some([0x08, 0x20] + (DataField(data) + (Tagged(0x32, tc.encode(t).value) + IdField(chainID))))
  {
    hide Tagged, EncodeHash;
    assert EncodeVarint(ToUint64(PROPOSAL_TYPE)) == [0x20];
    var time := Tagged(0x32, tc.encode(t).value);
    assert [0x08] + [0x20] + DataField(data) + time + IdField(chainID)
        == [0x08, 0x20] + (DataField(data) + (time + IdField(chainID)));
  }

  lemma SameData(a: Option<CanonicalDataHash>, time: ByteString, x: ByteString,
                 b: Option<CanonicalDataHash>, time': ByteString, y: ByteString)
    requires a.Some? ==> |a.value.hash| > 0
    requires b.Some? ==> |b.value.hash| > 0
    requires DataField(a) + (Tagged(0x32, time) + x) == DataField(b) + (Tagged(0x32, time') + y)
    requires |DataField(a) + (Tagged(0x32, time) + x)| <= MAX_INT64
    ensures a == b && Tagged(0x32, time) + x == Tagged(0x32, time') + y
  {
    hide Delimited;
    var l, r := DataField(a) + (Tagged(0x32, time) + x), DataField(b) + (Tagged(0x32, time') + y);
    assert l[0] == if a.Some? then 0x2a else 0x32;
    assert r[0] == if b.Some? then 0x2a else 0x32;
    if a.Some? {
      SameField(0x2a, EncodeHash(a.value), Tagged(0x32, time) + x, EncodeHash(b.value), Tagged(0x32, time') + y);
      assert Tagged(0x0a, a.value.hash) + [] == Tagged(0x0a, b.value.hash) + [];
      DelimitedLength(EncodeHash(a.value));
      SameField(0x0a, a.value.hash, [], b.value.hash, []);
    } else {
      assert l == Tagged(0x32, time) + x && r == Tagged(0x32, time') + y;
    }
  }

  lemma SameId(c: ByteString, c': ByteString)
    requires IdField(c) == IdField(c') && |IdField(c)| <= MAX_INT64
    ensures c == c'
  {
    hide Delimited;
    if |c| > 0 && |c'| > 0 {
      assert Tagged(0x3a, c) + [] == Tagged(0x3a, c') + [];
      SameField(0x3a, c, [], c', []);
    }
  }

  /** Equal proposal bytes mean equal identifier, data and time: a signature on one proposal counts for no other. */
  lemma ProposalBytesInjective(times: TimeCodec, c: ByteString, data: ByteString, t: Time,
                               c': ByteString, data': ByteString, t': Time)
    requires TimesRoundTrip(times) && ProposalBytes(times, c, data, t).Some?
    requires ProposalBytes(times, c, data, t) == ProposalBytes(times, c', data', t')
    ensures c == c' && data == data' && t == t'
  {
    hide Delimited, Tagged, DataField, IdField, EncodeProposal, EncodeHash;
    var d, d' := CanonicalizeHash(data).value, CanonicalizeHash(data').value;
    var bytes, bytes' := EncodeProposal(times, d, t, c).value, EncodeProposal(times, d', t', c').value;
    DelimitedInjective(bytes, bytes');
    DelimitedLength(bytes);
    EncodesTime(times, d, t, c);
    EncodesTime(times, d', t', c');
    ProposalFields(times, d, t, c);
    ProposalFields(times, d', t', c');
    var time, time' := times.encode(t).value, times.encode(t').value;
    SameTail([0x08, 0x20], DataField(d) + (Tagged(0x32, time) + IdField(c)),
             DataField(d') + (Tagged(0x32, time') + IdField(c')));
    SameData(d, time, IdField(c), d', time', IdField(c'));
    SameField(0x32, time, IdField(c), time', IdField(c'));
    SameId(c, c');
  }

  /**
   * They exist exactly for data that is empty or 32 bytes long, times with a wire form, and messages that fit a slice.
   */
  lemma ProposalBytesExist(times: TimeCodec, c: ByteString, data: ByteString, t: Time)
    ensures ProposalBytes(times, c, data, t).Some? <==>
      && (|data| == 0 || |data| == 32) && times.encode(t).Some?
      && var d := if |data| == 0 then None else Some(CanonicalDataHash(data));
      |Delimited([0x08, 0x20] + (DataField(d) + (Tagged(0x32, times.encode(t).value) + IdField(c))))| <= MAX_INT64
  {
    hide Delimited, Tagged, DataField, IdField, EncodeHash, EncodeVarint;
    if times.encode(t).Some? {
      ProposalFields(times, None, t, c);
      ProposalFields(times, Some(CanonicalDataHash(data)), t, c);
    }
  }

  lemma EncodesTime(tc: TimeCodec, data: Option<CanonicalDataHash>, t: Time, chainID: ByteString)
    requires EncodeProposal(tc, data, t, chainID).Some?
    ensures tc.encode(t).Some?
  {
  }

  lemma SameTail(front: ByteString, x: ByteString, y: ByteString)
    requires front + x == front + y
    ensures x == y
  {
    assert x == (front + x)[|front|..] && y == (front + y)[|front|..];
  }
}
