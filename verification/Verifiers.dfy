/** The three commit verifiers as loops, proved against what they accept. */
module Verifiers {
  import opened Int64
  import opened Bytes
  import opened Sums
  import opened Proposers
  import opened Quorums
  import opened Varints
  import opened ChangePipeline
  import opened Votes
  import opened Certificates

  datatype Check =
    | Accepted
    | WrongSize
    | WrongHash
    | BadSignature(position: nat)
    | NotEnoughPower(got: int, needed: int)
    | ZeroTrustDenominator
    | TrustOverflow
    | DoubleVote(first: nat, second: nat)
    | Panicked

  /** The first signature in `pick` that does not check, and how. */
  ghost predicate FirstBad(crypto: Crypto, chainID: ByteString, vals: seq<Proposer>, c: Commit, pick: seq<bool>,
                           i: nat, verdict: SigVerdict)
    requires |vals| == |c.signatures| == |pick| <= 0x7FFF_FFFF
  {
    && i < |vals| && pick[i] && CheckSig(crypto, chainID, vals[i].pubKey, c, i) == verdict
    && forall j :: 0 <= j < i && pick[j] ==> CheckSig(crypto, chainID, vals[j].pubKey, c, j) == Good
  }

  function Present(c: Commit): (r: seq<bool>)
    ensures |r| == |c.signatures|
  {
    seq(|c.signatures|, i requires 0 <= i < |c.signatures| => c.signatures[i].flag != FlagAbsent)
  }

  ghost predicate AllGood(crypto: Crypto, chainID: ByteString, vals: seq<Proposer>, c: Commit, pick: seq<bool>)
    requires |vals| == |c.signatures| == |pick| <= 0x7FFF_FFFF
  {
    forall i :: 0 <= i < |pick| && pick[i] ==> CheckSig(crypto, chainID, vals[i].pubKey, c, i) == Good
  }

  method VerifyCommit(crypto: Crypto, chainID: ByteString, vals: seq<Proposer>, data: Hash, commit: Commit)
    returns (r: Check)
    requires Legal(vals) && |commit.signatures| <= 0x7FFF_FFFF
    ensures r == Accepted <==> Certifies(crypto, chainID, vals, data, commit)
    ensures r == WrongSize <==> |vals| != |commit.signatures|
    ensures r == WrongHash <==> |vals| == |commit.signatures| && data != commit.dataHash
    ensures r == Panicked ==>
      && Matches(vals, data, commit)
      && exists i :: FirstBad(crypto, chainID, vals, commit, Present(commit), i, Panics)
    ensures r.BadSignature? ==>
      && Matches(vals, data, commit)
      && FirstBad(crypto, chainID, vals, commit, Present(commit), r.position, Wrong)
    ensures r.NotEnoughPower? ==>
      && Matches(vals, data, commit) && r.needed == TwoThirds(vals) >= r.got
      && r.got == Weight(vals, ForBlock(commit))
      && AllGood(crypto, chainID, vals, commit, Present(commit))
    ensures !r.ZeroTrustDenominator? && !r.TrustOverflow? && !r.DoubleVote?
  {
    hide TotalPower, Weight, CheckSig;
    if |vals| != |commit.signatures| {
      return WrongSize;
    }
    if data != commit.dataHash {
      return WrongHash;
    }
    var talliedVotingPower := 0;
    var votingPowerNeeded := TwoThirds(vals);
    TakeNone(vals, ForBlock(commit));
    for idx := 0 to |vals|
      invariant talliedVotingPower == Weight(vals, Take(ForBlock(commit), idx))
      invariant forall j :: 0 <= j < idx && Present(commit)[j] ==>
                  CheckSig(crypto, chainID, vals[j].pubKey, commit, j) == Good
    {
      TakeStep(vals, ForBlock(commit), idx);
      if commit.signatures[idx].flag == FlagAbsent {
        continue;
      }
      match CheckSig(crypto, chainID, vals[idx].pubKey, commit, idx) {
        case Panics =>
          assert FirstBad(crypto, chainID, vals, commit, Present(commit), idx, Panics);
          return Panicked;
        case Wrong => return BadSignature(idx);
        case Good =>
      }
      if commit.signatures[idx].flag == FlagCommit {
        talliedVotingPower := talliedVotingPower + vals[idx].votingPower;
      }
    }
    assert Take(ForBlock(commit), |vals|) == ForBlock(commit);
    if talliedVotingPower <= votingPowerNeeded {
      return NotEnoughPower(talliedVotingPower, votingPowerNeeded);
    }
    return Accepted;
  }

  /** Before position k the checked signatures did not pass the threshold. */
  lemma NotYet(crypto: Crypto, chainID: ByteString, vals: seq<Proposer>, c: Commit, k: nat)
    requires NonNegative(vals) && |vals| == |c.signatures| <= 0x7FFF_FFFF && k <= |vals|
    requires Weight(vals, Take(ForBlock(c), k)) <= TwoThirds(vals)
    ensures forall j :: 0 <= j < k ==> !LightUpto(crypto, chainID, vals, c, j)
  {
    hide TotalPower, Weight, CheckSig;
    forall j | 0 <= j < k ensures !LightUpto(crypto, chainID, vals, c, j) {
      WeightMonotone(vals, Take(ForBlock(c), j + 1), Take(ForBlock(c), k));
    }
  }

  method VerifyCommitLight(crypto: Crypto, chainID: ByteString, vals: seq<Proposer>, blockID: Hash, commit: Commit)
    returns (r: Check)
    requires Legal(vals) && |commit.signatures| <= 0x7FFF_FFFF
    ensures r == Accepted <==> CertifiesLight(crypto, chainID, vals, blockID, commit)
    ensures r == WrongSize <==> |vals| != |commit.signatures|
    ensures r == WrongHash <==> |vals| == |commit.signatures| && blockID != commit.dataHash
    ensures r == Panicked ==>
      && Matches(vals, blockID, commit)
      && exists i :: FirstBad(crypto, chainID, vals, commit, ForBlock(commit), i, Panics)
    ensures r.BadSignature? ==>
      && Matches(vals, blockID, commit)
      && FirstBad(crypto, chainID, vals, commit, ForBlock(commit), r.position, Wrong)
    ensures r.NotEnoughPower? ==>
      && Matches(vals, blockID, commit) && r.needed == TwoThirds(vals) >= r.got
      && r.got == Weight(vals, ForBlock(commit))
      && AllGood(crypto, chainID, vals, commit, ForBlock(commit))
    ensures !r.ZeroTrustDenominator? && !r.TrustOverflow? && !r.DoubleVote?
  {
    hide TotalPower, Weight, CheckSig;
    if |vals| != |commit.signatures| {
      return WrongSize;
    }
    if blockID != commit.dataHash {
      return WrongHash;
    }
    var talliedVotingPower := 0;
    var votingPowerNeeded := TwoThirds(vals);
    TotalIsNat(vals);
    TakeNone(vals, ForBlock(commit));
    for idx := 0 to |vals|
      invariant talliedVotingPower == Weight(vals, Take(ForBlock(commit), idx)) <= votingPowerNeeded
      invariant forall j :: 0 <= j < idx && ForBlock(commit)[j] ==>
                  CheckSig(crypto, chainID, vals[j].pubKey, commit, j) == Good
    {
      TakeStep(vals, ForBlock(commit), idx);
      if commit.signatures[idx].flag != FlagCommit {
        continue;
      }
      NotYet(crypto, chainID, vals, commit, idx);
      match CheckSig(crypto, chainID, vals[idx].pubKey, commit, idx) {
        case Panics =>
          assert FirstBad(crypto, chainID, vals, commit, ForBlock(commit), idx, Panics);
          return Panicked;
        case Wrong => return BadSignature(idx);
        case Good =>
      }
      talliedVotingPower := talliedVotingPower + vals[idx].votingPower;
      if talliedVotingPower > votingPowerNeeded {
        assert LightUpto(crypto, chainID, vals, commit, idx);
        return Accepted;
      }
    }
    NotYet(crypto, chainID, vals, commit, |vals|);
    assert Take(ForBlock(commit), |vals|) == ForBlock(commit);
    return NotEnoughPower(talliedVotingPower, votingPowerNeeded);
  }

  // ---- trusting

  lemma SignerPowersStep(vals: seq<Proposer>, c: Commit, k: nat)
    requires k < |c.signatures|
    ensures Sum(SignerPowers(vals, c, k + 1))
            == Sum(SignerPowers(vals, c, k)) + var m := Signer(vals, c, k); if m >= 0 then vals[m].votingPower else 0
  {
    hide Signer;
    assert SignerPowers(vals, c, k + 1)[..k] == SignerPowers(vals, c, k);
  }

  /** No position before k passed the threshold, whatever comes later. */
  ghost predicate NoneBefore(crypto: Crypto, chainID: ByteString, vals: seq<Proposer>, c: Commit, needed: int, k: nat)
    requires k <= |c.signatures| <= 0x7FFF_FFFF
  {
    forall j :: 0 <= j < k ==> !TrustingUpto(crypto, chainID, vals, c, needed, j)
  }

  /** A bad signature or a repeated signer at k rules out acceptance at k and later. */
  lemma NoneAfter(crypto: Crypto, chainID: ByteString, vals: seq<Proposer>, c: Commit, needed: int, k: nat)
    requires k < |c.signatures| <= 0x7FFF_FFFF && NoneBefore(crypto, chainID, vals, c, needed, k)
    requires !DistinctSigners(vals, c, k + 1) || !SignersGood(crypto, chainID, vals, c, k + 1)
    ensures !CertifiesTrusting(crypto, chainID, vals, c, needed)
  {
    hide Signer, CheckSig, SignerPowers;
  }

  /** The signatures before position k name distinct members and check. */
  ghost predicate SignersFine(crypto: Crypto, chainID: ByteString, vals: seq<Proposer>, c: Commit, k: nat)
    requires k <= |c.signatures| <= 0x7FFF_FFFF
  {
    DistinctSigners(vals, c, k) && SignersGood(crypto, chainID, vals, c, k)
  }

  /** Position i names a member whose signature does not check, the ones before it are fine. */
  ghost predicate FirstBadSigner(crypto: Crypto, chainID: ByteString, vals: seq<Proposer>, c: Commit, i: nat,
                                 verdict: SigVerdict)
    requires |c.signatures| <= 0x7FFF_FFFF
  {
    && i < |c.signatures| && DistinctSigners(vals, c, i + 1) && SignersGood(crypto, chainID, vals, c, i)
    && Signer(vals, c, i) >= 0 && CheckSig(crypto, chainID, vals[Signer(vals, c, i)].pubKey, c, i) == verdict
  }

  lemma ZeroDenominatorExactly(total: Int64, numerator: Uint64, denominator: Uint64)
    ensures Threshold(total, numerator, denominator) == Trust.ZeroDenominator <==> denominator == 0
  {
  }

  method VerifyCommitLightTrusting(crypto: Crypto, chainID: ByteString, vals: seq<Proposer>, commit: Commit,
                                   numerator: Uint64, denominator: Uint64) returns (r: Check)
    requires Legal(vals) && |commit.signatures| <= 0x7FFF_FFFF && InInt64(TotalPower(vals))
    ensures var t := Threshold(TotalPower(vals), numerator, denominator);
      && (r == ZeroTrustDenominator <==> denominator == 0) && (r == TrustOverflow <==> t == TooLarge)
      && (r == Accepted <==> t.Needs? && CertifiesTrusting(crypto, chainID, vals, commit, t.power))
      && (r.NotEnoughPower? ==>
            && t.Needs? && r.needed == t.power
            && r.got == Weight(vals, Named(vals, commit, |commit.signatures|))
            && SignersFine(crypto, chainID, vals, commit, |commit.signatures|))
    ensures r == Panicked ==> exists i :: FirstBadSigner(crypto, chainID, vals, commit, i, Panics)
    ensures r.BadSignature? ==> FirstBadSigner(crypto, chainID, vals, commit, r.position, Wrong)
    ensures r.DoubleVote? ==>
      && r.first < r.second < |commit.signatures|
      && Signer(vals, commit, r.first) == Signer(vals, commit, r.second) >= 0
      && SignersFine(crypto, chainID, vals, commit, r.second)
    ensures !r.WrongSize? && !r.WrongHash?
  {
    hide TotalPower, Weight, CheckSig, Threshold, SignerPowers, IndexOf;
    ZeroDenominatorExactly(TotalPower(vals), numerator, denominator);
    var threshold := Threshold(TotalPower(vals), numerator, denominator);
    match threshold {
      case ZeroDenominator => return ZeroTrustDenominator;
      case TooLarge => return TrustOverflow;
      case Needs(power) =>
        r := TrustingLoop(crypto, chainID, vals, commit, power);
    }
  }

  /** The loop of VerifyCommitLightTrusting. */
  method TrustingLoop(crypto: Crypto, chainID: ByteString, vals: seq<Proposer>, commit: Commit, needed: int)
    returns (r: Check)
    requires |commit.signatures| <= 0x7FFF_FFFF
    ensures r == Accepted <==> CertifiesTrusting(crypto, chainID, vals, commit, needed)
    ensures r == Panicked ==> exists i :: FirstBadSigner(crypto, chainID, vals, commit, i, Panics)
    ensures r.BadSignature? ==> FirstBadSigner(crypto, chainID, vals, commit, r.position, Wrong)
    ensures r.DoubleVote? ==>
      && r.first < r.second < |commit.signatures|
      && Signer(vals, commit, r.first) == Signer(vals, commit, r.second) >= 0
      && SignersFine(crypto, chainID, vals, commit, r.second)
    ensures r.NotEnoughPower? ==>
      && r.needed == needed && r.got == Weight(vals, Named(vals, commit, |commit.signatures|))
      && SignersFine(crypto, chainID, vals, commit, |commit.signatures|)
    ensures r.NotEnoughPower? ==>
      r.got <= needed || forall i :: 0 <= i < |commit.signatures| ==> Signer(vals, commit, i) < 0
    ensures r.Accepted? || r.Panicked? || r.BadSignature? || r.DoubleVote? || r.NotEnoughPower?
  {
    hide TotalPower, Weight, CheckSig, SignerPowers, Signer, Named, IndexOf, ForBlock, DistinctSigners, SignersGood,
         CertifiesTrusting;
    var n := |commit.signatures|;
    var talliedVotingPower := 0;
    var seenVals: map<int, nat> := map[];
    NothingTallied(crypto, chainID, vals, commit);
    for idx := 0 to n
      invariant talliedVotingPower == Sum(SignerPowers(vals, commit, idx))
      invariant SignersFine(crypto, chainID, vals, commit, idx)
      invariant NoneBefore(crypto, chainID, vals, commit, needed, idx)
      invariant talliedVotingPower <= needed || seenVals == map[]
      invariant forall i :: 0 <= i < idx && Signer(vals, commit, i) >= 0 ==> Signer(vals, commit, i) in seenVals
      invariant forall m :: m in seenVals ==> m >= 0 && seenVals[m] < idx && Signer(vals, commit, seenVals[m]) == m
    {
      SignerPowersStep(vals, commit, idx);
      SignerIs(vals, commit, idx);
      SignersStep(crypto, chainID, vals, commit, idx);
      if commit.signatures[idx].flag != FlagCommit {
        continue;
      }
      var valIdx := IndexOf(vals, commit.signatures[idx].address);
      if valIdx >= 0 {
        if valIdx in seenVals {
          RepeatedSigner(vals, commit, seenVals[valIdx], idx);
          NoneAfter(crypto, chainID, vals, commit, needed, idx);
          return DoubleVote(seenVals[valIdx], idx);
        }
        seenVals := seenVals[valIdx := idx];
        match CheckSig(crypto, chainID, vals[valIdx].pubKey, commit, idx) {
          case Panics =>
            assert FirstBadSigner(crypto, chainID, vals, commit, idx, Panics);
            NoneAfter(crypto, chainID, vals, commit, needed, idx);
            return Panicked;
          case Wrong =>
            NoneAfter(crypto, chainID, vals, commit, needed, idx);
            return BadSignature(idx);
          case Good =>
        }
        talliedVotingPower := talliedVotingPower + vals[valIdx].votingPower;
        if talliedVotingPower > needed {
          Reached(crypto, chainID, vals, commit, needed, idx);
          return Accepted;
        }
      }
    }
    NoneAtAll(crypto, chainID, vals, commit, needed);
    SignerPowersAreWeight(vals, commit, n);
    return NotEnoughPower(talliedVotingPower, needed);
  }

  /** What the next signature means for the ones so far: a fresh member keeps them distinct, and its check decides. */
  lemma SignersStep(crypto: Crypto, chainID: ByteString, vals: seq<Proposer>, c: Commit, k: nat)
    requires k < |c.signatures| <= 0x7FFF_FFFF && SignersFine(crypto, chainID, vals, c, k)
    ensures (forall i :: 0 <= i < k && Signer(vals, c, i) >= 0 ==> Signer(vals, c, i) != Signer(vals, c, k)) ==>
              DistinctSigners(vals, c, k + 1)
    ensures SignersGood(crypto, chainID, vals, c, k + 1) <==>
              (Signer(vals, c, k) >= 0 ==>
                 CheckSig(crypto, chainID, vals[Signer(vals, c, k)].pubKey, c, k) == Good)
  {
    hide Signer, CheckSig;
  }

  lemma RepeatedSigner(vals: seq<Proposer>, c: Commit, i: nat, k: nat)
    requires i < k < |c.signatures| && Signer(vals, c, i) == Signer(vals, c, k) >= 0
    ensures !DistinctSigners(vals, c, k + 1)
  {
    hide Signer;
  }

  lemma Reached(crypto: Crypto, chainID: ByteString, vals: seq<Proposer>, c: Commit, needed: int, k: nat)
    requires k < |c.signatures| <= 0x7FFF_FFFF && TrustingUpto(crypto, chainID, vals, c, needed, k)
    ensures CertifiesTrusting(crypto, chainID, vals, c, needed)
  {
  }

  lemma NoneAtAll(crypto: Crypto, chainID: ByteString, vals: seq<Proposer>, c: Commit, needed: int)
    requires |c.signatures| <= 0x7FFF_FFFF && NoneBefore(crypto, chainID, vals, c, needed, |c.signatures|)
    ensures !CertifiesTrusting(crypto, chainID, vals, c, needed)
  {
    hide TrustingUpto;
  }

  lemma NothingTallied(crypto: Crypto, chainID: ByteString, vals: seq<Proposer>, c: Commit)
    requires |c.signatures| <= 0x7FFF_FFFF
    ensures Sum(SignerPowers(vals, c, 0)) == 0 && SignersFine(crypto, chainID, vals, c, 0)
  {
  }

  lemma SignerIs(vals: seq<Proposer>, c: Commit, i: nat)
    requires i < |c.signatures|
    ensures Signer(vals, c, i)
            == if c.signatures[i].flag == FlagCommit then IndexOf(vals, c.signatures[i].address) else -1
  {
  }
}
