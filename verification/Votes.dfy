/** Votes, commit signatures and commits, and the bytes a validator signs. */
module Votes {
  import opened Int64
  import opened Bytes
  import opened Options
  import opened Proposers
  import opened Varints
  import opened Canonical

  type Hash = ByteString
  type Signature = ByteString

  /** The foreign functions: signature verification, address derivation and the timestamp codec. */
  datatype Crypto = Crypto(
    verify: (PubKey, ByteString, Signature) -> bool,
    addressOf: PubKey -> Address,
    times: TimeCodec)

  const PREVOTE_TYPE: Int32 := 1
  const PRECOMMIT_TYPE: Int32 := 2

  /** tmhash.Size. */
  const HASH_SIZE := 32

  datatype Vote = Vote(
    msgType: Int32,
    dataHash: Hash,
    timestamp: Time,
    address: Address,
    index: Int32,
    signature: Signature)

  predicate IsZero(h: Hash) { |h| == 0 }

  predicate IsComplete(h: Hash) { |h| == HASH_SIZE }

  predicate ValidHash(h: Hash) { IsZero(h) || IsComplete(h) }

  // ---- sign bytes

  /** CanonicalizeDataHash; None is its panic on a hash that is neither empty nor complete. */
  function CanonicalizeHash(h: Hash): Option<Option<CanonicalDataHash>> {
    if !ValidHash(h) then None
    else if IsZero(h) then Some(None)
    else Some(Some(CanonicalDataHash(h)))
  }

  /**
   * VoteSignBytes of a vote that went through Vote.ToProto, which leaves height and round at zero.
   * None stands for a panic: a malformed hash, a time without encoding, or bytes beyond any slice.
   */
  function SignBytes(times: TimeCodec, chainID: ByteString, msgType: Int32, h: Hash, t: Time): (r: Option<ByteString>)
    ensures r.Some? ==> ValidHash(h)
  {
    match CanonicalizeHash(h)
    case None => None
    case Some(canonical) =>
      match EncodeVote(times, CanonicalVote(msgType, 0, 0, canonical, t, chainID))
      case None => None
      case Some(bytes) => if |Delimited(bytes)| <= MAX_INT64 then Some(Delimited(bytes)) else None
  }

  /** Equal sign bytes mean equal type, hash, time and chain: one signature never speaks for two votes. */
  lemma SignBytesInjective(times: TimeCodec, c: ByteString, m: Int32, h: Hash, t: Time,
                           c': ByteString, m': Int32, h': Hash, t': Time)
    requires TimesRoundTrip(times)
    requires SignBytes(times, c, m, h, t).Some?
    requires SignBytes(times, c, m, h, t) == SignBytes(times, c', m', h', t')
    ensures c == c' && m == m' && h == h' && t == t'
  {
    hide EncodeVote, Delimited;
    var v := CanonicalVote(m, 0, 0, CanonicalizeHash(h).value, t, c);
    var v' := CanonicalVote(m', 0, 0, CanonicalizeHash(h').value, t', c');
    var bytes, bytes' := EncodeVote(times, v).value, EncodeVote(times, v').value;
    DelimitedInjective(bytes, bytes');
    DelimitedLength(bytes);
    EncodingInjective(times, v, v');
  }

  lemma DelimitedLength(bytes: ByteString)
    ensures |bytes| <= |Delimited(bytes)|
  {
  }

  /** What the signed bytes say: read back, they are the vote's type, hash, time and chain, at height and round zero. */
  lemma SignBytesSay(times: TimeCodec, c: ByteString, m: Int32, h: Hash, t: Time) returns (body: ByteString)
    requires TimesRoundTrip(times) && SignBytes(times, c, m, h, t).Some?
    ensures SignBytes(times, c, m, h, t) == Some(Delimited(body)) && |body| <= MAX_INT64
    ensures DecodeVote(times, body, 0, ZERO_VOTE)
            == Ok(CanonicalVote(m, 0, 0, if |h| == 0 then None else Some(CanonicalDataHash(h)), t, c))
  {
    hide EncodeVote, Delimited, DecodeVote;
    var v := CanonicalVote(m, 0, 0, CanonicalizeHash(h).value, t, c);
    body := EncodeVote(times, v).value;
    DelimitedLength(body);
    VoteRoundTrip(times, v);
  }

  /** They exist exactly for empty and 32-byte hashes, times with a wire form, and messages that fit a slice. */
  lemma SignBytesExist(times: TimeCodec, c: ByteString, m: Int32, h: Hash, t: Time)
    ensures SignBytes(times, c, m, h, t).Some? <==>
      && (|h| == 0 || |h| == 32) && times.encode(t).Some?
      && var v := CanonicalVote(m, 0, 0, if |h| == 0 then None else Some(CanonicalDataHash(h)), t, c);
      VoteSize(times, v) + VarintSize(VoteSize(times, v)) <= MAX_INT64
  {
    hide VoteSize, VarintSize, EncodeVarint;
    var v := CanonicalVote(m, 0, 0, if |h| == 0 then None else Some(CanonicalDataHash(h)), t, c);
    if times.encode(t).Some? {
      SizeIsLength(times, v);
      VarintSizeIsLength(VoteSize(times, v));
    }
  }

  function VoteBytes(crypto: Crypto, chainID: ByteString, v: Vote): Option<ByteString> {
    SignBytes(crypto.times, chainID, v.msgType, v.dataHash, v.timestamp)
  }

  datatype Verdict = Valid | WrongAddress | WrongSignature | CannotEncode

  /** Vote.Verify; CannotEncode is the panic of VoteSignBytes. */
  function Verify(crypto: Crypto, chainID: ByteString, pk: PubKey, v: Vote): Verdict {
    if crypto.addressOf(pk) != v.address then WrongAddress
    else
      match VoteBytes(crypto, chainID, v)
      case None => CannotEncode
      case Some(bytes) => if crypto.verify(pk, bytes, v.signature) then Valid else WrongSignature
  }

  // ---- commits

  datatype DataHashFlag = FlagAbsent | FlagCommit | FlagNil | FlagOther(code: nat)

  datatype CommitSig = CommitSig(flag: DataHashFlag, address: Address, timestamp: Time, signature: Signature)

  const ABSENT_SIG := CommitSig(FlagAbsent, [], ZERO_TIME, [])

  datatype Commit = Commit(dataHash: Hash, signatures: seq<CommitSig>)

  /** Vote.CommitSig; a nil vote gives the absent signature, a malformed hash panics. */
  function ToCommitSig(v: Option<Vote>): CommitSig
    requires v.Some? ==> ValidHash(v.value.dataHash)
  {
    match v
    case None => ABSENT_SIG
    case Some(vote) =>
      CommitSig(if IsComplete(vote.dataHash) then FlagCommit else FlagNil, vote.address, vote.timestamp, vote.signature)
  }

  /** CommitSig.DataHash; None is its panic on an unknown flag. */
  function SigHash(cs: CommitSig, commitHash: Hash): Option<Hash> {
    match cs.flag
    case FlagAbsent => Some([])
    case FlagCommit => Some(commitHash)
    case FlagNil => Some([])
    case FlagOther(_) => None
  }

  /** Commit.GetVote; None is the panic. */
  function GetVote(c: Commit, i: nat): Option<Vote>
    requires i < |c.signatures| <= 0x7FFF_FFFF
  {
    var cs := c.signatures[i];
    match SigHash(cs, c.dataHash)
    case None => None
    case Some(h) => Some(Vote(PRECOMMIT_TYPE, h, cs.timestamp, cs.address, i, cs.signature))
  }

  /** Commit.VoteSignBytes; None is a panic. */
  function CommitBytes(crypto: Crypto, chainID: ByteString, c: Commit, i: nat): Option<ByteString>
    requires i < |c.signatures| <= 0x7FFF_FFFF
  {
    match GetVote(c, i)
    case None => None
    case Some(v) => VoteBytes(crypto, chainID, v)
  }
}
