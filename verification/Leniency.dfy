/** What each commit verifier looks at and what it does not, spelled out signature by signature. */
module Leniency {
  import opened Bytes
  import opened Options
  import opened Sums
  import opened Proposers
  import opened Quorums
  import opened Varints
  import opened Canonical
  import opened ChangePipeline
  import opened Votes
  import opened Signals
  import opened Disagreement
  import opened Certificates

  // ---- one signature

  /** The signature is the key's over a precommit for the commit's hash, or for nil under any other flag. */
  ghost predicate Attests(crypto: Crypto, chainID: ByteString, pk: PubKey, hash: Hash, cs: CommitSig) {
    var bytes := SignBytes(crypto.times, chainID, 2, if cs.flag == FlagCommit then hash else [], cs.timestamp);
    bytes.Some? && crypto.verify(pk, bytes.value, cs.signature)
  }

  lemma AttestsExactly(crypto: Crypto, chainID: ByteString, pk: PubKey, c: Commit, i: nat)
    requires i < |c.signatures| <= 0x7FFF_FFFF
    ensures CheckSig(crypto, chainID, pk, c, i) == Good <==>
              !c.signatures[i].flag.FlagOther? && Attests(crypto, chainID, pk, c.dataHash, c.signatures[i])
    ensures CheckSig(crypto, chainID, pk, c, i) == Panics <==>
              var cs := c.signatures[i];
              || cs.flag.FlagOther?
              || SignBytes(crypto.times, chainID, 2, if cs.flag == FlagCommit then c.dataHash else [], cs.timestamp)
                 == None
  {
    hide SignBytes;
  }

  /** The power of the validators whose signature at one of the first `k` positions is for the block. */
  function BlockPower(vals: seq<Proposer>, c: Commit, k: nat): int
    requires k <= |vals| == |c.signatures|
  {
    if k == 0 then 0
    else BlockPower(vals, c, k - 1) + if c.signatures[k - 1].flag == FlagCommit then vals[k - 1].votingPower else 0
  }

  lemma {:induction false} BlockPowerIsWeight(vals: seq<Proposer>, c: Commit, k: nat)
    requires k <= |vals| == |c.signatures|
    ensures BlockPower(vals, c, k) == Weight(vals, Take(ForBlock(c), k))
  {
    hide Weight, Take;
    if k == 0 {
      TakeNone(vals, ForBlock(c));
    } else {
      BlockPowerIsWeight(vals, c, k - 1);
      TakeStep(vals, ForBlock(c), k - 1);
    }
  }

  /** The first `k` signatures that are for the block are their validators'. */
  ghost predicate BlockAttested(crypto: Crypto, chainID: ByteString, vals: seq<Proposer>, c: Commit, k: nat)
    requires k <= |vals| == |c.signatures|
  {
    forall i :: 0 <= i < k && c.signatures[i].flag == FlagCommit ==>
      Attests(crypto, chainID, vals[i].pubKey, c.dataHash, c.signatures[i])
  }

  // ---- VerifyCommit

  /**
   * VerifyCommit accepts exactly if size and hash fit, every signature that is not absent is its validator's, for the
   * block or for nil, and those for the block have more than two thirds of the power.
   */
  lemma FullExactly(crypto: Crypto, chainID: ByteString, vals: seq<Proposer>, h: Hash, c: Commit)
    requires NonNegative(vals)
    ensures Certifies(crypto, chainID, vals, h, c) <==>
      && |vals| == |c.signatures| <= 0x7FFF_FFFF && h == c.dataHash
      && (forall i :: 0 <= i < |vals| && c.signatures[i].flag != FlagAbsent ==>
            !c.signatures[i].flag.FlagOther?
            && Attests(crypto, chainID, vals[i].pubKey, c.dataHash, c.signatures[i]))
      && 3 * BlockPower(vals, c, |vals|) > 2 * TotalPower(vals)
  {
    hide CheckSig, Attests, TotalPower, Weight;
    if |vals| == |c.signatures| <= 0x7FFF_FFFF {
      forall i | 0 <= i < |vals|
        ensures CheckSig(crypto, chainID, vals[i].pubKey, c, i) == Good <==>
                  !c.signatures[i].flag.FlagOther?
                  && Attests(crypto, chainID, vals[i].pubKey, c.dataHash, c.signatures[i])
      {
        AttestsExactly(crypto, chainID, vals[i].pubKey, c, i);
      }
      BlockPowerIsWeight(vals, c, |vals|);
      assert Take(ForBlock(c), |vals|) == ForBlock(c);
    }
  }

  // ---- VerifyCommitLight

  /** VerifyCommitLight accepts exactly if size and hash fit and some first signatures suffice, those for nil aside. */
  lemma LightExactly(crypto: Crypto, chainID: ByteString, vals: seq<Proposer>, h: Hash, c: Commit)
    requires NonNegative(vals)
    ensures CertifiesLight(crypto, chainID, vals, h, c) <==>
      && |vals| == |c.signatures| <= 0x7FFF_FFFF && h == c.dataHash
      && exists k :: 0 <= k <= |vals| && BlockAttested(crypto, chainID, vals, c, k)
                     && 3 * BlockPower(vals, c, k) > 2 * TotalPower(vals)
  {
    hide CheckSig, Attests, TotalPower, Weight, LightUpto, BlockAttested;
    if Matches(vals, h, c) {
      if k :| 0 <= k < |vals| && LightUpto(crypto, chainID, vals, c, k) {
        LightAttests(crypto, chainID, vals, c, k);
      }
      if k :| 0 <= k <= |vals| && BlockAttested(crypto, chainID, vals, c, k)
              && 3 * BlockPower(vals, c, k) > 2 * TotalPower(vals) {
        var last := AttestsLight(crypto, chainID, vals, c, k);
      }
    }
  }

  lemma LightAttests(crypto: Crypto, chainID: ByteString, vals: seq<Proposer>, c: Commit, k: nat)
    requires k < |vals| == |c.signatures| <= 0x7FFF_FFFF && LightUpto(crypto, chainID, vals, c, k)
    ensures BlockAttested(crypto, chainID, vals, c, k + 1) && 3 * BlockPower(vals, c, k + 1) > 2 * TotalPower(vals)
  {
    hide CheckSig, Attests, TotalPower, Weight;
    BlockPowerIsWeight(vals, c, k + 1);
    forall i | 0 <= i < k + 1 && c.signatures[i].flag == FlagCommit
      ensures Attests(crypto, chainID, vals[i].pubKey, c.dataHash, c.signatures[i])
    {
      AttestsExactly(crypto, chainID, vals[i].pubKey, c, i);
    }
  }

  lemma AttestsLight(crypto: Crypto, chainID: ByteString, vals: seq<Proposer>, c: Commit, k: nat) returns (last: nat)
    requires NonNegative(vals) && k <= |vals| == |c.signatures| <= 0x7FFF_FFFF
    requires BlockAttested(crypto, chainID, vals, c, k) && 3 * BlockPower(vals, c, k) > 2 * TotalPower(vals)
    ensures last < |vals| && LightUpto(crypto, chainID, vals, c, last)
  {
    hide CheckSig, Attests, TotalPower, Weight;
    TotalIsNat(vals);
    BlockPowerIsWeight(vals, c, k);
    last := LastCrossing(vals, ForBlock(c), k, TwoThirds(vals));
    forall i | 0 <= i <= last && ForBlock(c)[i] ensures CheckSig(crypto, chainID, vals[i].pubKey, c, i) == Good {
      AttestsExactly(crypto, chainID, vals[i].pubKey, c, i);
    }
  }

  lemma {:induction false} SameBlockPower(vals: seq<Proposer>, c: Commit, c': Commit, k: nat)
    requires k <= |vals| == |c.signatures| == |c'.signatures| && c.signatures[..k] == c'.signatures[..k]
    ensures BlockPower(vals, c, k) == BlockPower(vals, c', k)
  {
    if k > 0 {
      assert c.signatures[k - 1] == c.signatures[..k][k - 1] == c'.signatures[k - 1];
      assert c.signatures[..k - 1] == c.signatures[..k][..k - 1] == c'.signatures[..k - 1];
      SameBlockPower(vals, c, c', k - 1);
    }
  }

  /** Once the first `k` signatures suffice, the commit is accepted whatever stands behind them. */
  lemma LightIgnoresTheRest(crypto: Crypto, chainID: ByteString, vals: seq<Proposer>, c: Commit, k: nat, c': Commit)
    requires NonNegative(vals) && k <= |vals| == |c.signatures| <= 0x7FFF_FFFF
    requires BlockAttested(crypto, chainID, vals, c, k) && 3 * BlockPower(vals, c, k) > 2 * TotalPower(vals)
    requires c'.dataHash == c.dataHash && |c'.signatures| == |c.signatures|
    requires c'.signatures[..k] == c.signatures[..k]
    ensures CertifiesLight(crypto, chainID, vals, c.dataHash, c')
  {
    hide CertifiesLight, Attests, TotalPower, BlockPower;
    SameBlockPower(vals, c, c', k);
    forall i | 0 <= i < k ensures c'.signatures[i] == c.signatures[i] {
      assert c'.signatures[..k][i] == c.signatures[..k][i];
    }
    LightExactly(crypto, chainID, vals, c.dataHash, c');
  }

  // ---- VerifyCommitLightTrusting

  /** The signature is not for the block, or names nobody in the set. */
  ghost predicate Stranger(vals: seq<Proposer>, cs: CommitSig) {
    cs.flag == FlagCommit ==> forall m :: 0 <= m < |vals| ==> vals[m].address != cs.address
  }

  lemma StrangerExactly(vals: seq<Proposer>, c: Commit, i: nat)
    requires i < |c.signatures|
    ensures Signer(vals, c, i) < 0 <==> Stranger(vals, c.signatures[i])
    ensures Signer(vals, c, i) >= 0 ==> Signer(vals, c, i) == IndexOf(vals, c.signatures[i].address)
  {
  }

  lemma SameSigner(crypto: Crypto, chainID: ByteString, vals: seq<Proposer>, c: Commit, c': Commit, i: nat)
    requires i < |c.signatures| == |c'.signatures| <= 0x7FFF_FFFF && c.dataHash == c'.dataHash
    requires c.signatures[i] == c'.signatures[i]
             || (Stranger(vals, c.signatures[i]) && Stranger(vals, c'.signatures[i]))
    ensures Signer(vals, c, i) == Signer(vals, c', i)
    ensures Signer(vals, c, i) >= 0 ==>
      CheckSig(crypto, chainID, vals[Signer(vals, c, i)].pubKey, c, i)
      == CheckSig(crypto, chainID, vals[Signer(vals, c, i)].pubKey, c', i)
  {
    hide Stranger, SignBytes;
    StrangerExactly(vals, c, i);
    StrangerExactly(vals, c', i);
  }

  lemma TrustingUptoSame(crypto: Crypto, chainID: ByteString, vals: seq<Proposer>, c: Commit, c': Commit, needed: int,
                         k: nat)
    requires k < |c.signatures| == |c'.signatures| <= 0x7FFF_FFFF && c.dataHash == c'.dataHash
    requires forall i :: 0 <= i <= k ==>
               c.signatures[i] == c'.signatures[i]
               || (Stranger(vals, c.signatures[i]) && Stranger(vals, c'.signatures[i]))
    requires TrustingUpto(crypto, chainID, vals, c, needed, k)
    ensures TrustingUpto(crypto, chainID, vals, c', needed, k)
  {
    hide Signer, CheckSig, Stranger;
    forall i | 0 <= i <= k
      ensures Signer(vals, c, i) == Signer(vals, c', i)
      ensures Signer(vals, c, i) >= 0 ==>
        CheckSig(crypto, chainID, vals[Signer(vals, c, i)].pubKey, c, i)
        == CheckSig(crypto, chainID, vals[Signer(vals, c, i)].pubKey, c', i)
    {
      SameSigner(crypto, chainID, vals, c, c', i);
    }
    assert SignerPowers(vals, c, k + 1) == SignerPowers(vals, c', k + 1);
  }

  /** Signatures for nil and of strangers to the set never matter, however malformed. */
  lemma TrustingIgnoresStrangers(crypto: Crypto, chainID: ByteString, vals: seq<Proposer>, c: Commit, c': Commit,
                                 needed: int)
    requires |c.signatures| == |c'.signatures| <= 0x7FFF_FFFF && c.dataHash == c'.dataHash
    requires forall i :: 0 <= i < |c.signatures| ==>
               c.signatures[i] == c'.signatures[i]
               || (Stranger(vals, c.signatures[i]) && Stranger(vals, c'.signatures[i]))
    ensures CertifiesTrusting(crypto, chainID, vals, c, needed)
            <==> CertifiesTrusting(crypto, chainID, vals, c', needed)
  {
    hide TrustingUpto, Stranger;
    if k :| 0 <= k < |c.signatures| && TrustingUpto(crypto, chainID, vals, c, needed, k) {
      TrustingUptoSame(crypto, chainID, vals, c, c', needed, k);
    }
    if k :| 0 <= k < |c.signatures| && TrustingUpto(crypto, chainID, vals, c', needed, k) {
      TrustingUptoSame(crypto, chainID, vals, c', c, needed, k);
    }
  }

  /** Nor does anything behind the position at which the members named so far suffice. */
  lemma TrustingIgnoresTheRest(crypto: Crypto, chainID: ByteString, vals: seq<Proposer>, c: Commit, c': Commit,
                               needed: int, k: nat)
    requires k < |c.signatures| == |c'.signatures| <= 0x7FFF_FFFF && c.dataHash == c'.dataHash
    requires TrustingUpto(crypto, chainID, vals, c, needed, k)
    requires c.signatures[..k + 1] == c'.signatures[..k + 1]
    ensures CertifiesTrusting(crypto, chainID, vals, c', needed)
  {
    hide TrustingUpto;
    forall i | 0 <= i <= k ensures c.signatures[i] == c'.signatures[i] {
      assert c.signatures[..k + 1][i] == c'.signatures[..k + 1][i];
    }
    TrustingUptoSame(crypto, chainID, vals, c, c', needed, k);
  }

  /** The power of the members named at the first `k` positions. */
  function NamedPower(vals: seq<Proposer>, c: Commit, k: nat): int
    requires k <= |c.signatures|
  {
    if k == 0 then 0
    else
      var m := IndexOf(vals, c.signatures[k - 1].address);
      NamedPower(vals, c, k - 1) + if c.signatures[k - 1].flag == FlagCommit && m >= 0 then vals[m].votingPower else 0
  }

  lemma {:induction false} NamedPowerIsSum(vals: seq<Proposer>, c: Commit, k: nat)
    requires k <= |c.signatures|
    ensures NamedPower(vals, c, k) == Sum(SignerPowers(vals, c, k))
  {
    hide IndexOf;
    if k > 0 {
      NamedPowerIsSum(vals, c, k - 1);
      assert SignerPowers(vals, c, k)[..k - 1] == SignerPowers(vals, c, k - 1);
    }
  }

  /** The first `k` signatures that name members name distinct ones, and are theirs. */
  ghost predicate MembersAttested(crypto: Crypto, chainID: ByteString, vals: seq<Proposer>, c: Commit, k: nat)
    requires k <= |c.signatures|
  {
    && (forall i, j :: 0 <= i < j < k && !Stranger(vals, c.signatures[i]) && !Stranger(vals, c.signatures[j]) ==>
          c.signatures[i].address != c.signatures[j].address)
    && forall i :: 0 <= i < k && !Stranger(vals, c.signatures[i]) ==>
         exists m :: 0 <= m < |vals| && vals[m].address == c.signatures[i].address
                     && Attests(crypto, chainID, vals[m].pubKey, c.dataHash, c.signatures[i])
  }

  /** Some member is named at one of the first `k` positions. */
  ghost predicate SomebodyNamed(vals: seq<Proposer>, c: Commit, k: nat)
    requires k <= |c.signatures|
  {
    exists i :: 0 <= i < k && !Stranger(vals, c.signatures[i])
  }

  /** The same in terms of the positions of the signers. */
  lemma MembersAttestedExactly(crypto: Crypto, chainID: ByteString, vals: seq<Proposer>, c: Commit, k: nat)
    requires DistinctAddresses(vals) && k <= |c.signatures| <= 0x7FFF_FFFF
    ensures MembersAttested(crypto, chainID, vals, c, k) <==>
              DistinctSigners(vals, c, k) && SignersGood(crypto, chainID, vals, c, k)
  {
    hide Signer, CheckSig, Attests, Stranger, SignBytes;
    forall i | 0 <= i < k
      ensures Signer(vals, c, i) < 0 <==> Stranger(vals, c.signatures[i])
      ensures Signer(vals, c, i) >= 0 ==>
        && vals[Signer(vals, c, i)].address == c.signatures[i].address
        && (CheckSig(crypto, chainID, vals[Signer(vals, c, i)].pubKey, c, i) == Good <==>
              exists m :: 0 <= m < |vals| && vals[m].address == c.signatures[i].address
                          && Attests(crypto, chainID, vals[m].pubKey, c.dataHash, c.signatures[i]))
    {
      SignerAttests(crypto, chainID, vals, c, i);
    }
  }

  lemma SignerAttests(crypto: Crypto, chainID: ByteString, vals: seq<Proposer>, c: Commit, i: nat)
    requires DistinctAddresses(vals) && i < |c.signatures| <= 0x7FFF_FFFF
    ensures Signer(vals, c, i) < 0 <==> Stranger(vals, c.signatures[i])
    ensures Signer(vals, c, i) >= 0 ==>
      && vals[Signer(vals, c, i)].address == c.signatures[i].address
      && (CheckSig(crypto, chainID, vals[Signer(vals, c, i)].pubKey, c, i) == Good <==>
            exists m :: 0 <= m < |vals| && vals[m].address == c.signatures[i].address
                        && Attests(crypto, chainID, vals[m].pubKey, c.dataHash, c.signatures[i]))
  {
    hide CheckSig, Attests, IndexOf;
    var m := Signer(vals, c, i);
    StrangerExactly(vals, c, i);
    if m >= 0 { AttestsExactly(crypto, chainID, vals[m].pubKey, c, i); }
  }

  /** The last position before `k` that names a member closes what the first `k` positions hold. */
  lemma {:induction false} LastNamed(crypto: Crypto, chainID: ByteString, vals: seq<Proposer>, c: Commit, needed: int,
                                     k: nat)
    returns (last: nat)
    requires DistinctAddresses(vals) && k <= |c.signatures| <= 0x7FFF_FFFF && SomebodyNamed(vals, c, k)
    requires MembersAttested(crypto, chainID, vals, c, k) && NamedPower(vals, c, k) > needed
    ensures last < k && TrustingUpto(crypto, chainID, vals, c, needed, last)
  {
    hide Signer, CheckSig, Attests, Stranger, SignBytes, SignersGood, DistinctSigners;
    StrangerExactly(vals, c, k - 1);
    if Stranger(vals, c.signatures[k - 1]) {
      NamesNobody(vals, c, k);
      last := LastNamed(crypto, chainID, vals, c, needed, k - 1);
    } else {
      last := k - 1;
      MembersAttestedExactly(crypto, chainID, vals, c, k);
      NamedPowerIsSum(vals, c, k);
    }
  }

  lemma NamesNobody(vals: seq<Proposer>, c: Commit, k: nat)
    requires 0 < k <= |c.signatures| && Stranger(vals, c.signatures[k - 1])
    ensures NamedPower(vals, c, k) == NamedPower(vals, c, k - 1)
  {
  }

  /**
   * VerifyCommitLightTrusting accepts, beyond a given threshold, exactly if the first k signatures for some k name at
   * least one member, name distinct members only, are theirs, and these hold more than the threshold.
   */
  lemma TrustingExactly(crypto: Crypto, chainID: ByteString, vals: seq<Proposer>, c: Commit, needed: int)
    requires DistinctAddresses(vals) && |c.signatures| <= 0x7FFF_FFFF
    ensures CertifiesTrusting(crypto, chainID, vals, c, needed) <==>
      exists k :: 0 <= k <= |c.signatures| && SomebodyNamed(vals, c, k)
                  && MembersAttested(crypto, chainID, vals, c, k) && NamedPower(vals, c, k) > needed
  {
    hide MembersAttested, TrustingUpto, NamedPower, SomebodyNamed, DistinctAddresses;
    if k :| 0 <= k < |c.signatures| && TrustingUpto(crypto, chainID, vals, c, needed, k) {
      TrustedMembers(crypto, chainID, vals, c, needed, k);
    }
    if k :| 0 <= k <= |c.signatures| && SomebodyNamed(vals, c, k)
            && MembersAttested(crypto, chainID, vals, c, k) && NamedPower(vals, c, k) > needed {
      var last := LastNamed(crypto, chainID, vals, c, needed, k);
    }
  }

  lemma TrustedMembers(crypto: Crypto, chainID: ByteString, vals: seq<Proposer>, c: Commit, needed: int, k: nat)
    requires DistinctAddresses(vals) && k < |c.signatures| <= 0x7FFF_FFFF
    requires TrustingUpto(crypto, chainID, vals, c, needed, k)
    ensures SomebodyNamed(vals, c, k + 1) && MembersAttested(crypto, chainID, vals, c, k + 1)
    ensures NamedPower(vals, c, k + 1) > needed
  {
    hide MembersAttested, Signer, CheckSig, DistinctSigners, SignersGood, Stranger, NamedPower;
    StrangerExactly(vals, c, k);
    MembersAttestedExactly(crypto, chainID, vals, c, k + 1);
    NamedPowerIsSum(vals, c, k + 1);
  }

  // ---- a commit on which they differ

  /** Four validators of power 10. */
  const SQUARE: seq<Proposer> := [Member(1, 10), Member(2, 10), Member(3, 10), Member(4, 10)]

  function MarkOf(mark: Byte, signature: Signature): CommitSig {
    CommitSig(FlagCommit, seq(20, i => mark), ZERO_TIME, signature)
  }

  /** Signed for the block by the first three; the fourth signature is bad. */
  function OneBad(h: Hash, flag: DataHashFlag): Commit {
    Commit(h, [MarkOf(1, [1]), MarkOf(2, [2]), MarkOf(3, [3]), MarkOf(4, [9]).(flag := flag)])
  }

  lemma SquareTotal()
    ensures NonNegative(SQUARE) && TotalPower(SQUARE) == 40
  {
    var p := Powers(SQUARE);
    SumOfThree(p[..3]);
    SumPrefix(p, 3);
    assert p[..4] == p;
  }

  lemma SquareEncodes(h: Hash)
    requires ValidHash(h)
    ensures SignBytes(ONE_INSTANT, [], PRECOMMIT_TYPE, h, ZERO_TIME).Some?
  {
    hide EncodeVote, Delimited;
    SmallEncoding(CanonicalVote(PRECOMMIT_TYPE, 0, 0, CanonicalizeHash(h).value, ZERO_TIME, []));
  }

  lemma SquarePower(h: Hash, flag: DataHashFlag)
    ensures BlockPower(SQUARE, OneBad(h, flag), 3) == 30
  {
    var c := OneBad(h, flag);
    assert BlockPower(SQUARE, c, 0) == 0;
    assert BlockPower(SQUARE, c, 1) == 10 && BlockPower(SQUARE, c, 2) == 20;
  }

  /**
   * A precise commit on which they differ: with three of four equal validators signing, the light verifier accepts
   * and VerifyCommit does not, because the fourth signature, for the block or for nil, is bad.
   */
  lemma LightIsLaxer(h: Hash, flag: DataHashFlag)
    requires IsComplete(h) && (flag == FlagCommit || flag == FlagNil)
    ensures CertifiesLight(MARKED, [], SQUARE, h, OneBad(h, flag))
    ensures !Certifies(MARKED, [], SQUARE, h, OneBad(h, flag))
  {
    hide CertifiesLight, Certifies, SignBytes, TotalPower, BlockPower;
    var c := OneBad(h, flag);
    SquareTotal();
    SquareEncodes(h);
    SquareEncodes([]);
    SquarePower(h, flag);
    assert BlockAttested(MARKED, [], SQUARE, c, 3);
    LightIgnoresTheRest(MARKED, [], SQUARE, c, 3, c);
    assert !Attests(MARKED, [], SQUARE[3].pubKey, c.dataHash, c.signatures[3]);
    FullExactly(MARKED, [], SQUARE, h, c);
  }
}
