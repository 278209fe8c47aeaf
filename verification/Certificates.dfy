/** What the three commit verifiers accept, and how their verdicts relate. */
module Certificates {
  import opened Int64
  import opened Bytes
  import opened Sums
  import opened Proposers
  import opened Quorums
  import opened Varints
  import opened Canonical
  import opened ChangePipeline
  import opened Votes

  datatype SigVerdict = Good | Wrong | Panics

  /** The signature check all verifiers share: the reconstructed bytes under a given key. */
  function CheckSig(crypto: Crypto, chainID: ByteString, pk: PubKey, c: Commit, i: nat): SigVerdict
    requires i < |c.signatures| <= 0x7FFF_FFFF
  {
    match CommitBytes(crypto, chainID, c, i)
    case None => Panics
    case Some(bytes) => if crypto.verify(pk, bytes, c.signatures[i].signature) then Good else Wrong
  }

  function ForBlock(c: Commit): (r: seq<bool>)
    ensures |r| == |c.signatures|
  {
    seq(|c.signatures|, i requires 0 <= i < |c.signatures| => c.signatures[i].flag == FlagCommit)
  }

  /** The choice cut off after k positions. */
  function Take(pick: seq<bool>, k: nat): (r: seq<bool>)
    ensures |r| == |pick|
  {
    seq(|pick|, i requires 0 <= i < |pick| => i < k && pick[i])
  }

  lemma TakeStep(vals: seq<Proposer>, pick: seq<bool>, k: nat)
    requires |pick| == |vals| && k < |vals|
    ensures Weight(vals, Take(pick, k + 1)) == Weight(vals, Take(pick, k)) + if pick[k] then vals[k].votingPower else 0
  {
    var w := Weights(vals, Take(pick, k));
    assert Weights(vals, Take(pick, k + 1)) == w[k := if pick[k] then vals[k].votingPower as int else 0];
    SumUpdate(w, k, if pick[k] then vals[k].votingPower else 0);
  }

  lemma TakeNone(vals: seq<Proposer>, pick: seq<bool>)
    requires |pick| == |vals|
    ensures Weight(vals, Take(pick, 0)) == 0
  {
    SumConst(Weights(vals, Take(pick, 0)), 0);
  }

  // ---- what is accepted

  function TwoThirds(vals: seq<Proposer>): int { TotalPower(vals) * 2 / 3 }

  /** Size and hash fit. */
  predicate Matches(vals: seq<Proposer>, h: Hash, c: Commit) {
    |vals| == |c.signatures| <= 0x7FFF_FFFF && h == c.dataHash
  }

  /** Every present signature, also one for nil, is its validator's, and those for the block have over two thirds. */
  ghost predicate Certifies(crypto: Crypto, chainID: ByteString, vals: seq<Proposer>, h: Hash, c: Commit) {
    && Matches(vals, h, c)
    && (forall i :: 0 <= i < |vals| && c.signatures[i].flag != FlagAbsent ==>
          CheckSig(crypto, chainID, vals[i].pubKey, c, i) == Good)
    && Weight(vals, ForBlock(c)) > TwoThirds(vals)
  }

  /** The signatures for the block up to position k are their validators' and pass two thirds. */
  ghost predicate LightUpto(crypto: Crypto, chainID: ByteString, vals: seq<Proposer>, c: Commit, k: nat)
    requires |vals| == |c.signatures| <= 0x7FFF_FFFF && k < |vals|
  {
    && (forall i :: 0 <= i <= k && ForBlock(c)[i] ==> CheckSig(crypto, chainID, vals[i].pubKey, c, i) == Good)
    && ForBlock(c)[k] && Weight(vals, Take(ForBlock(c), k + 1)) > TwoThirds(vals)
  }

  ghost predicate CertifiesLight(crypto: Crypto, chainID: ByteString, vals: seq<Proposer>, h: Hash, c: Commit) {
    Matches(vals, h, c) && exists k :: 0 <= k < |vals| && LightUpto(crypto, chainID, vals, c, k)
  }

  // ---- trusting: the signers are looked up by address

  datatype Trust = ZeroDenominator | TooLarge | Needs(power: Int64)

  /** The power that more is needed of: the fraction of the total, in uint64 operands and int64 arithmetic. */
  function Threshold(total: Int64, numerator: Uint64, denominator: Uint64): Trust {
    if denominator == 0 then ZeroDenominator
    else
      var (product, overflow) := SafeMul(total, ToInt64(numerator));
      if overflow then TooLarge else Needs(Wrap64(TruncDiv(product, ToInt64(denominator))))
  }

  /** The member of the set that a signature for the block names, or -1. */
  function Signer(vals: seq<Proposer>, c: Commit, i: nat): (m: int)
    requires i < |c.signatures|
    ensures -1 <= m < |vals|
  {
    if ForBlock(c)[i] then IndexOf(vals, c.signatures[i].address) else -1
  }

  function SignerPowers(vals: seq<Proposer>, c: Commit, k: nat): (r: seq<int>)
    requires k <= |c.signatures|
    ensures |r| == k
  {
    seq(k, i requires 0 <= i < k => var m := Signer(vals, c, i); if m >= 0 then vals[m].votingPower as int else 0)
  }

  /** No member signs twice up to position k. */
  ghost predicate DistinctSigners(vals: seq<Proposer>, c: Commit, k: nat)
    requires k <= |c.signatures|
  {
    forall i, j :: 0 <= i < j < k && Signer(vals, c, i) >= 0 ==> Signer(vals, c, j) != Signer(vals, c, i)
  }

  ghost predicate SignersGood(crypto: Crypto, chainID: ByteString, vals: seq<Proposer>, c: Commit, k: nat)
    requires k <= |c.signatures| <= 0x7FFF_FFFF
  {
    forall i :: 0 <= i < k && Signer(vals, c, i) >= 0 ==>
      CheckSig(crypto, chainID, vals[Signer(vals, c, i)].pubKey, c, i) == Good
  }

  /** The members named up to position k are distinct, signed, and hold more than is needed. */
  ghost predicate TrustingUpto(crypto: Crypto, chainID: ByteString, vals: seq<Proposer>, c: Commit, needed: int, k: nat)
    requires k < |c.signatures| <= 0x7FFF_FFFF
  {
    && DistinctSigners(vals, c, k + 1) && SignersGood(crypto, chainID, vals, c, k + 1)
    && Signer(vals, c, k) >= 0 && Sum(SignerPowers(vals, c, k + 1)) > needed
  }

  ghost predicate CertifiesTrusting(crypto: Crypto, chainID: ByteString, vals: seq<Proposer>, c: Commit, needed: int)
    requires |c.signatures| <= 0x7FFF_FFFF
  {
    exists k :: 0 <= k < |c.signatures| && TrustingUpto(crypto, chainID, vals, c, needed, k)
  }

  // ---- refinement

  /** A total over the threshold is reached at some chosen position. */
  lemma {:induction false} LastCrossing(vals: seq<Proposer>, pick: seq<bool>, n: nat, needed: nat) returns (k: nat)
    requires |pick| == |vals| && n <= |vals| && Weight(vals, Take(pick, n)) > needed
    ensures k < n && pick[k] && Weight(vals, Take(pick, k + 1)) > needed
  {
    if n == 0 {
      TakeNone(vals, pick);
      assert false;
    } else {
      TakeStep(vals, pick, n - 1);
      if pick[n - 1] { k := n - 1; } else { k := LastCrossing(vals, pick, n - 1, needed); }
    }
  }

  lemma {:induction false} TotalIsNat(vals: seq<Proposer>)
    requires NonNegative(vals)
    ensures TotalPower(vals) >= 0 && TwoThirds(vals) >= 0
  {
    SumAtLeast(Powers(vals), 0);
  }

  /** What VerifyCommit accepts, VerifyCommitLight accepts. */
  lemma FullImpliesLight(crypto: Crypto, chainID: ByteString, vals: seq<Proposer>, h: Hash, c: Commit)
    requires NonNegative(vals) && Certifies(crypto, chainID, vals, h, c)
    ensures CertifiesLight(crypto, chainID, vals, h, c)
  {
    hide CheckSig, TotalPower, Weight;
    TotalIsNat(vals);
    assert Take(ForBlock(c), |vals|) == ForBlock(c);
    var k := LastCrossing(vals, ForBlock(c), |vals|, TwoThirds(vals));
    assert LightUpto(crypto, chainID, vals, c, k);
  }

  /** Each signature for the block carries the address of the validator at its position. */
  ghost predicate OwnAddresses(vals: seq<Proposer>, c: Commit)
    requires |vals| == |c.signatures|
  {
    forall i :: 0 <= i < |vals| && ForBlock(c)[i] ==> c.signatures[i].address == vals[i].address
  }

  lemma OwnSigner(vals: seq<Proposer>, c: Commit, i: nat)
    requires |vals| == |c.signatures| && OwnAddresses(vals, c) && DistinctAddresses(vals) && i < |vals|
    ensures Signer(vals, c, i) == if ForBlock(c)[i] then i else -1
  {
  }

  lemma OwnSignerPowers(vals: seq<Proposer>, c: Commit, k: nat)
    requires |vals| == |c.signatures| && OwnAddresses(vals, c) && DistinctAddresses(vals) && k <= |vals|
    ensures Sum(SignerPowers(vals, c, k)) == Weight(vals, Take(ForBlock(c), k))
  {
    hide Signer, IndexOf;
    var w := Weights(vals, Take(ForBlock(c), k));
    forall i | 0 <= i < k ensures SignerPowers(vals, c, k)[i] == w[..k][i] { OwnSigner(vals, c, i); }
    assert SignerPowers(vals, c, k) == w[..k];
    SumConst(w[k..], 0);
    assert w == w[..k] + w[k..];
    SumConcat(w[..k], w[k..]);
  }

  /** A trust level of at most two thirds never asks for more than two thirds of the total. */
  lemma ThresholdAtMostTwoThirds(total: Int64, numerator: Uint64, denominator: Uint64)
    requires total > 0 && denominator > 0 && 3 * numerator <= 2 * denominator && total * numerator <= MAX_INT64
    ensures Threshold(total, numerator, denominator).Needs?
    ensures Threshold(total, numerator, denominator).power <= total * 2 / 3
    ensures denominator <= MAX_INT64 ==>
              Threshold(total, numerator, denominator).power == total * numerator / denominator
  {
    hide SafeMul;
    NumeratorFits(total, numerator);
    ProductSign(total, numerator);
    SafeMulFlag(total, numerator);
    var product := total * numerator;
    var d := ToInt64(denominator);
    if d > 0 {
      TruncDivBounds(product, d);
      FractionBound(total, numerator, denominator, TruncDiv(product, d));
    } else {
      NegativeQuotient(product, d);
    }
  }

  /** When the trust level is turned down as too large: the product leaves int64, or is exactly its lowest number. */
  lemma OverflowExactly(total: Int64, numerator: Uint64, denominator: Uint64)
    requires total >= 0 && denominator > 0
    ensures Threshold(total, numerator, denominator) == TooLarge <==>
              !InInt64(total * ToInt64(numerator)) || total * ToInt64(numerator) == MIN_INT64
  {
    hide SafeMul;
    SafeMulFlag(total, ToInt64(numerator));
  }

  lemma NumeratorFits(total: int, numerator: nat)
    requires total > 0 && total * numerator <= MAX_INT64
    ensures numerator <= MAX_INT64 && ToInt64Fits(numerator)
  {
    ProductOrder(numerator, 1, total);
  }

  ghost predicate ToInt64Fits(u: nat) { 0 <= u <= MAX_INT64 ==> u < 0x1_0000_0000_0000_0000 && ToInt64(u) == u }

  lemma NegativeQuotient(product: nat, d: int)
    requires d < 0
    ensures 0 - product <= TruncDiv(product, d) <= 0
  {
  }

  lemma FractionBound(total: nat, numerator: nat, denominator: nat, q: int)
    requires denominator > 0 && 3 * numerator <= 2 * denominator
    requires denominator * q <= total * numerator
    ensures q <= total * 2 / 3
  {
    ProductOrder(total, 3 * numerator, 2 * denominator);
    assert denominator * (3 * q) == 3 * (denominator * q);
    assert total * (3 * numerator) == 3 * (total * numerator);
    assert denominator * (2 * total + 1) == total * (2 * denominator) + denominator;
    SmallerFactor(denominator, 3 * q, 2 * total + 1);
  }

  /**
   * What VerifyCommitLight accepts, VerifyCommitLightTrusting accepts on the same set, when the signatures carry
   * their validators' addresses and the trust level is at most two thirds.
   */
  lemma LightImpliesTrusting(crypto: Crypto, chainID: ByteString, vals: seq<Proposer>, h: Hash, c: Commit,
                             numerator: Uint64, denominator: Uint64)
    requires Legal(vals) && CertifiesLight(crypto, chainID, vals, h, c) && OwnAddresses(vals, c)
    requires denominator > 0 && 3 * numerator <= 2 * denominator && TotalPower(vals) * numerator <= MAX_INT64
    ensures InInt64(TotalPower(vals)) && Threshold(TotalPower(vals), numerator, denominator).Needs?
    ensures CertifiesTrusting(crypto, chainID, vals, c, Threshold(TotalPower(vals), numerator, denominator).power)
  {
    hide CheckSig, TotalPower, Weight, Signer, Threshold, SignerPowers;
    TotalIsNat(vals);
    var k :| 0 <= k < |vals| && LightUpto(crypto, chainID, vals, c, k);
    WeightAtMostTotal(vals, Take(ForBlock(c), k + 1));
    ThresholdAtMostTwoThirds(TotalPower(vals), numerator, denominator);
    var needed := Threshold(TotalPower(vals), numerator, denominator).power;
    OwnSignerPowers(vals, c, k + 1);
    forall i | 0 <= i < |vals| ensures Signer(vals, c, i) == if ForBlock(c)[i] then i else -1 { OwnSigner(vals, c, i); }
    assert TrustingUpto(crypto, chainID, vals, c, needed, k);
  }

  // ---- what acceptance proves

  /** The validators whose signature for the block checks. */
  ghost predicate Signed(crypto: Crypto, chainID: ByteString, vals: seq<Proposer>, c: Commit, pick: seq<bool>) {
    && |pick| == |vals| == |c.signatures| <= 0x7FFF_FFFF
    && forall i :: 0 <= i < |pick| && pick[i] ==>
         ForBlock(c)[i] && CheckSig(crypto, chainID, vals[i].pubKey, c, i) == Good
  }

  lemma LightSigned(crypto: Crypto, chainID: ByteString, vals: seq<Proposer>, h: Hash, c: Commit)
    returns (pick: seq<bool>)
    requires CertifiesLight(crypto, chainID, vals, h, c)
    ensures Signed(crypto, chainID, vals, c, pick) && Weight(vals, pick) > TwoThirds(vals)
  {
    hide CheckSig, TotalPower, Weight;
    var k :| 0 <= k < |vals| && LightUpto(crypto, chainID, vals, c, k);
    pick := Take(ForBlock(c), k + 1);
  }

  /** Two votes for different hashes have different sign bytes. */
  lemma DifferentBytes(crypto: Crypto, chainID: ByteString, c: Commit, c': Commit, i: nat)
    requires TimesRoundTrip(crypto.times) && c.dataHash != c'.dataHash
    requires i < |c.signatures| <= 0x7FFF_FFFF && i < |c'.signatures| <= 0x7FFF_FFFF
    requires ForBlock(c)[i] && ForBlock(c')[i]
    requires CommitBytes(crypto, chainID, c, i).Some? && CommitBytes(crypto, chainID, c', i).Some?
    ensures CommitBytes(crypto, chainID, c, i) != CommitBytes(crypto, chainID, c', i)
  {
    hide SignBytes;
    if CommitBytes(crypto, chainID, c, i) == CommitBytes(crypto, chainID, c', i) {
      SignBytesInjective(crypto.times,
        chainID, PRECOMMIT_TYPE, c.dataHash, c.signatures[i].timestamp,
        chainID, PRECOMMIT_TYPE, c'.dataHash, c'.signatures[i].timestamp);
      assert false;
    }
  }

  /** The validators in `pick` validly signed both commits, over different bytes. */
  ghost predicate SignedBoth(crypto: Crypto, chainID: ByteString, vals: seq<Proposer>, c: Commit, c': Commit,
                             pick: seq<bool>)
  {
    && Signed(crypto, chainID, vals, c, pick) && Signed(crypto, chainID, vals, c', pick)
    && forall i :: 0 <= i < |pick| && pick[i] ==>
         CommitBytes(crypto, chainID, c, i) != CommitBytes(crypto, chainID, c', i)
  }

  /** Two accepted commits for different hashes: over one third of the power signed both. */
  lemma ConflictNeedsAThird(crypto: Crypto, chainID: ByteString, vals: seq<Proposer>, c: Commit, c': Commit)
    returns (pick: seq<bool>)
    requires NonNegative(vals) && TimesRoundTrip(crypto.times) && c.dataHash != c'.dataHash
    requires CertifiesLight(crypto, chainID, vals, c.dataHash, c)
    requires CertifiesLight(crypto, chainID, vals, c'.dataHash, c')
    ensures SignedBoth(crypto, chainID, vals, c, c', pick) && 3 * Weight(vals, pick) > TotalPower(vals)
  {
    hide TotalPower, Weight, CommitBytes, CertifiesLight, ForBlock;
    var a := LightSigned(crypto, chainID, vals, c.dataHash, c);
    var b := LightSigned(crypto, chainID, vals, c'.dataHash, c');
    QuorumOverlap(vals, a, b);
    pick := Both(a, b);
    forall i | 0 <= i < |pick| && pick[i]
      ensures CommitBytes(crypto, chainID, c, i) != CommitBytes(crypto, chainID, c', i)
    {
      DifferentBytes(crypto, chainID, c, c', i);
    }
  }

  /** The members named up to position k. */
  ghost function Named(vals: seq<Proposer>, c: Commit, k: nat): (r: seq<bool>)
    requires k <= |c.signatures|
    ensures |r| == |vals|
  {
    seq(|vals|, m requires 0 <= m < |vals| => exists i :: 0 <= i < k && Signer(vals, c, i) == m)
  }

  lemma NamedStep(vals: seq<Proposer>, c: Commit, k: nat)
    requires k < |c.signatures|
    ensures forall m :: 0 <= m < |vals| ==>
              Named(vals, c, k + 1)[m] == (Named(vals, c, k)[m] || Signer(vals, c, k) == m)
  {
    hide Signer;
  }

  /** The tally of distinct signers is the weight of the members they are. */
  lemma {:induction false} SignerPowersAreWeight(vals: seq<Proposer>, c: Commit, k: nat)
    requires k <= |c.signatures| && DistinctSigners(vals, c, k)
    ensures Sum(SignerPowers(vals, c, k)) == Weight(vals, Named(vals, c, k))
  {
    hide Signer;
    if k == 0 {
      SumConst(Weights(vals, Named(vals, c, 0)), 0);
    } else {
      var n := k - 1;
      SignerPowersAreWeight(vals, c, n);
      NamedStep(vals, c, n);
      assert SignerPowers(vals, c, k)[..n] == SignerPowers(vals, c, n);
      var m, w := Signer(vals, c, n), Weights(vals, Named(vals, c, n));
      if m >= 0 {
        assert !Named(vals, c, n)[m];
        assert Weights(vals, Named(vals, c, k)) == w[m := vals[m].votingPower as int];
        SumUpdate(w, m, vals[m].votingPower);
      } else {
        assert Weights(vals, Named(vals, c, k)) == w;
      }
    }
  }

  /** LightTrusting acceptance: distinct members holding more than the threshold signed. */
  lemma TrustingSigners(crypto: Crypto, chainID: ByteString, vals: seq<Proposer>, c: Commit, needed: int)
    returns (members: seq<bool>)
    requires |c.signatures| <= 0x7FFF_FFFF && CertifiesTrusting(crypto, chainID, vals, c, needed)
    ensures |members| == |vals| && Weight(vals, members) > needed
    ensures forall m :: 0 <= m < |vals| && members[m] ==>
              exists i :: 0 <= i < |c.signatures| && ForBlock(c)[i] && c.signatures[i].address == vals[m].address
                          && CheckSig(crypto, chainID, vals[m].pubKey, c, i) == Good
  {
    hide CheckSig, Weight, SignerPowers;
    var k :| 0 <= k < |c.signatures| && TrustingUpto(crypto, chainID, vals, c, needed, k);
    SignerPowersAreWeight(vals, c, k + 1);
    members := Named(vals, c, k + 1);
    forall m | 0 <= m < |vals| && members[m]
      ensures exists i :: 0 <= i < |c.signatures| && ForBlock(c)[i] && c.signatures[i].address == vals[m].address
                          && CheckSig(crypto, chainID, vals[m].pubKey, c, i) == Good
    {
      var i :| 0 <= i < k + 1 && Signer(vals, c, i) == m;
    }
  }
}
