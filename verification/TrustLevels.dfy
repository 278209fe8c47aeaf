/** Which trust levels LightTrusting honours: the threshold in int64 conversions against floor(T * num / den). */
module TrustLevels {
  import opened Int64
  import opened Bytes
  import opened Sums
  import opened Proposers
  import opened Quorums
  import opened Varints
  import opened Canonical
  import opened Votes
  import opened Signals
  import opened Disagreement
  import opened Certificates

  /** What is left to 2^64: the magnitude of a uint64 that int64 reads as negative. */
  function Beyond(u: Uint64): nat { TWO_64 - u }

  /** The threshold by cases: either operand may have become negative. */
  function Form(total: nat, numerator: Uint64, denominator: Uint64): int
    requires denominator > 0
  {
    if numerator <= MAX_INT64 then
      if denominator <= MAX_INT64 then total * numerator / denominator
      else -(total * numerator / Beyond(denominator))
    else
      if denominator <= MAX_INT64 then -(total * Beyond(numerator) / denominator)
      else total * Beyond(numerator) / Beyond(denominator)
  }

  lemma QuotientFits(x: int, d: int)
    requires 0 <= x <= MAX_INT64 && d > 0
    ensures TruncDiv(x, d) == x / d && TruncDiv(x, -d) == -(x / d)
    ensures TruncDiv(-x, d) == -(x / d) && TruncDiv(-x, -d) == x / d
    ensures 0 <= x / d <= MAX_INT64
  {
    QuotientBounds(x, d);
  }

  /** A trust level that is not turned down asks for exactly this power. */
  lemma ThresholdForm(total: Int64, numerator: Uint64, denominator: Uint64)
    requires total > 0 && denominator > 0 && Threshold(total, numerator, denominator).Needs?
    ensures Threshold(total, numerator, denominator).power == Form(total, numerator, denominator)
  {
    hide SafeMul, TruncDiv;
    var a := if numerator <= MAX_INT64 then numerator else Beyond(numerator);
    var b := if denominator <= MAX_INT64 then denominator else Beyond(denominator);
    Negated(total, a);
    OverflowExactly(total, numerator, denominator);
    SafeMulFlag(total, ToInt64(numerator));
    ProductSign(total, a);
    Magnitude(total, a, numerator);
    QuotientFits(total * a, b);
  }

  lemma Negated(x: int, y: int)
    ensures x * -y == -(x * y)
  {
  }

  /** The product in int64 up to its sign. */
  lemma Magnitude(total: nat, a: nat, numerator: Uint64)
    requires a == if numerator <= MAX_INT64 then numerator else Beyond(numerator)
    ensures total * ToInt64(numerator) == if numerator <= MAX_INT64 then total * a else -(total * a)
  {
    Negated(total, a);
  }

  /** The levels that are honoured, by their operands. */
  predicate Honoured(total: nat, numerator: Uint64, denominator: Uint64) {
    if numerator <= MAX_INT64 then denominator <= MAX_INT64 || total * numerator + denominator < TWO_64
    else denominator > MAX_INT64 && numerator <= denominator
  }

  lemma SmallQuotient(x: nat, d: nat)
    requires d > 0
    ensures x / d == 0 <==> x < d
  {
    QuotientBounds(x, d);
    if x < d { SmallerFactor(d, x / d, 1); }
  }

  /** Between two fractions of the same total the larger one has the larger quotient. */
  lemma FractionOrder(x: nat, d: nat, y: nat, e: nat)
    requires d > 0 && e > 0 && x * e >= y * d
    ensures x / d >= y / e
  {
    QuotientBounds(x, d);
    QuotientBounds(y, e);
    var q := y / e;
    ProductOrder(d, e * q, y);
    Rearrange(e, d, q);
    Rearrange(1, d, y);
    Successor(e, x);
    SmallerFactor(e, d * q, x + 1);
    SmallerFactor(d, q, x / d + 1);
  }

  lemma Rearrange(x: int, y: int, z: int)
    ensures x * (y * z) == y * (x * z) && y * z == z * y
  {
  }

  lemma Successor(x: int, y: int)
    ensures x * (y + 1) == y * x + x
  {
  }

  lemma SmallerTimes(r: int, x: int, y: int)
    requires r > 0 && x < y
    ensures r * x < r * y
  {
    ProductOrder(r, x + 1, y);
    assert r * (x + 1) == r * x + r;
  }

  /** Both operands negative: the complements of a fraction of at most one are the larger fraction. */
  lemma Complements(total: nat, numerator: Uint64, denominator: Uint64)
    requires total > 0 && numerator > MAX_INT64 && denominator > MAX_INT64
    ensures total * Beyond(numerator) / Beyond(denominator) >= total * numerator / denominator
            <==> numerator <= denominator
  {
    var n, d, a, b := numerator as nat, denominator as nat, Beyond(numerator), Beyond(denominator);
    assert a * d - n * b == TWO_64 * (d - n) by {
      assert a * d == TWO_64 * d - n * d && n * b == n * TWO_64 - n * d;
    }
    if n <= d {
      assert a * d >= n * b;
      assert (total * a) * d == total * (a * d) && (total * n) * b == total * (n * b);
      ProductOrder(total, n * b, a * d);
      FractionOrder(total * a, b, total * n, d);
    } else {
      QuotientBounds(total * a, b);
      QuotientBounds(total * n, d);
      ProductOrder(total, d, n);
      AtLeastTotal(total, total * n, d);
      SmallerTimes(total, a, b);
      BelowTotal(total, total * a, b);
    }
  }

  lemma AtLeastTotal(total: nat, x: nat, d: nat)
    requires d > 0 && x >= total * d
    ensures x / d >= total
  {
    QuotientBounds(x, d);
    assert total * d == d * total;
    SmallerFactor(d, total, x / d + 1);
  }

  lemma BelowTotal(total: nat, x: nat, d: nat)
    requires d > 0 && x < total * d
    ensures x / d < total
  {
    QuotientBounds(x, d);
    assert total * d == d * total;
    SmallerFactor(d, x / d, total);
  }

  /** A trust level that is not turned down is honoured if and only if its operands say so. */
  lemma SoundExactly(total: Int64, numerator: Uint64, denominator: Uint64)
    requires total > 0 && denominator > 0 && Threshold(total, numerator, denominator).Needs?
    ensures Threshold(total, numerator, denominator).power >= total * numerator / denominator
            <==> Honoured(total, numerator, denominator)
    ensures numerator <= MAX_INT64 && Honoured(total, numerator, denominator) ==>
              Threshold(total, numerator, denominator).power == total * numerator / denominator
  {
    hide Threshold;
    ThresholdForm(total, numerator, denominator);
    ProductSign(total, numerator);
    if numerator <= MAX_INT64 && denominator > MAX_INT64 {
      ProductFits(total, numerator, denominator);
      SmallQuotient(total * numerator, denominator);
      SmallQuotient(total * numerator, Beyond(denominator));
      QuotientBounds(total * numerator, Beyond(denominator));
    } else if numerator > MAX_INT64 && denominator <= MAX_INT64 {
      ProductSign(total, Beyond(numerator));
      QuotientBounds(total * Beyond(numerator), denominator);
      ProductOrder(total, denominator, numerator);
      AtLeastTotal(total, total * numerator, denominator);
    } else if numerator > MAX_INT64 {
      Complements(total, numerator, denominator);
    }
  }

  /** What is not turned down has a product in int64. */
  lemma ProductFits(total: Int64, numerator: Uint64, denominator: Uint64)
    requires total > 0 && denominator > 0 && numerator <= MAX_INT64 && Threshold(total, numerator, denominator).Needs?
    ensures total * numerator <= MAX_INT64
  {
    hide SafeMul;
    OverflowExactly(total, numerator, denominator);
  }

  /** Acceptance at an honoured level: distinct members with more than floor(T * num / den) validly signed. */
  lemma HonouredSigners(crypto: Crypto, chainID: ByteString, vals: seq<Proposer>, c: Commit, numerator: Uint64,
                        denominator: Uint64)
    returns (members: seq<bool>)
    requires Legal(vals) && InInt64(TotalPower(vals)) && TotalPower(vals) > 0 && |c.signatures| <= 0x7FFF_FFFF
    requires denominator > 0 && Honoured(TotalPower(vals), numerator, denominator)
    requires Threshold(TotalPower(vals), numerator, denominator).Needs?
    requires CertifiesTrusting(crypto, chainID, vals, c, Threshold(TotalPower(vals), numerator, denominator).power)
    ensures |members| == |vals| && Weight(vals, members) > TotalPower(vals) * numerator / denominator
    ensures forall m :: 0 <= m < |vals| && members[m] ==>
              exists i :: 0 <= i < |c.signatures| && ForBlock(c)[i] && c.signatures[i].address == vals[m].address
                          && CheckSig(crypto, chainID, vals[m].pubKey, c, i) == Good
  {
    hide Threshold, TotalPower, Weight, CertifiesTrusting, CheckSig, Honoured;
    SoundExactly(TotalPower(vals), numerator, denominator);
    members := TrustingSigners(crypto, chainID, vals, c, Threshold(TotalPower(vals), numerator, denominator).power);
  }

  // ---- what a level that is not honoured accepts

  /** Position k names a member and no earlier position does. */
  ghost predicate FirstNamed(vals: seq<Proposer>, c: Commit, k: nat)
    requires k < |c.signatures|
  {
    Signer(vals, c, k) >= 0 && forall i :: 0 <= i < k ==> Signer(vals, c, i) < 0
  }

  lemma FirstPower(vals: seq<Proposer>, c: Commit, k: nat)
    requires k < |c.signatures| && FirstNamed(vals, c, k)
    ensures Sum(SignerPowers(vals, c, k + 1)) == vals[Signer(vals, c, k)].votingPower
  {
    hide Signer;
    SumConst(SignerPowers(vals, c, k + 1)[..k], 0);
  }

  /** The earliest position that names a member. */
  lemma EarliestNamed(vals: seq<Proposer>, c: Commit, k: nat) returns (first: nat)
    requires k < |c.signatures| && Signer(vals, c, k) >= 0
    ensures first <= k && FirstNamed(vals, c, first)
  {
    hide Signer;
    first := 0;
    while Signer(vals, c, first) < 0
      invariant first <= k && forall i :: 0 <= i < first ==> Signer(vals, c, i) < 0
      decreases k - first
    {
      first := first + 1;
    }
  }

  /** A negative threshold accepts exactly if the first signature that names a member checks, whatever its power. */
  lemma NegativeAccepts(crypto: Crypto, chainID: ByteString, vals: seq<Proposer>, c: Commit, needed: int)
    requires NonNegative(vals) && |c.signatures| <= 0x7FFF_FFFF && needed < 0
    ensures CertifiesTrusting(crypto, chainID, vals, c, needed) <==>
      exists k :: 0 <= k < |c.signatures| && FirstNamed(vals, c, k)
                  && CheckSig(crypto, chainID, vals[Signer(vals, c, k)].pubKey, c, k) == Good
  {
    hide Signer, CheckSig, SignerPowers;
    if CertifiesTrusting(crypto, chainID, vals, c, needed) {
      var k :| 0 <= k < |c.signatures| && TrustingUpto(crypto, chainID, vals, c, needed, k);
      var first := EarliestNamed(vals, c, k);
    }
    if k :| 0 <= k < |c.signatures| && FirstNamed(vals, c, k)
            && CheckSig(crypto, chainID, vals[Signer(vals, c, k)].pubKey, c, k) == Good {
      FirstPower(vals, c, k);
      assert TrustingUpto(crypto, chainID, vals, c, needed, k);
    }
  }

  // ---- an input that does it

  /** Three validators of power 1, and a commit that one of them signed. */
  const TRIPLE: seq<Proposer> := [Member(1, 1), Member(2, 1), Member(3, 1)]

  function OneSignature(h: Hash): Commit { Commit(h, [CommitSig(FlagCommit, Member(1, 1).address, ZERO_TIME, [1])]) }

  lemma OneSignatureChecks(h: Hash)
    requires IsComplete(h)
    ensures CheckSig(MARKED, [], Member(1, 1).pubKey, OneSignature(h), 0) == Good
  {
    hide EncodeVote, Delimited;
    SmallEncoding(CanonicalVote(PRECOMMIT_TYPE, 0, 0, CanonicalizeHash(h).value, ZERO_TIME, []));
  }

  lemma TripleTotal()
    ensures Legal(TRIPLE) && TotalPower(TRIPLE) == 3
  {
    hide Less;
    var vals := TRIPLE;
    SumOfThree(Powers(vals));
    assert vals[0].address[0] == 1 && vals[1].address[0] == 2 && vals[2].address[0] == 3;
  }

  /**
   * The counterexample: the level (2^64 - 1) / 1, far above 1, asks for more than -3, and a commit signed by one of
   * three validators is accepted.
   */
  lemma ExcessiveLevelAccepted(h: Hash)
    requires IsComplete(h)
    ensures TotalPower(TRIPLE) == 3 && Threshold(3, TWO_64 - 1, 1) == Needs(-3) && !Honoured(3, TWO_64 - 1, 1)
    ensures CertifiesTrusting(MARKED, [], TRIPLE, OneSignature(h), -3)
    ensures forall members: seq<bool> :: |members| == 3 ==> Weight(TRIPLE, members) < 3 * (TWO_64 - 1) / 1
  {
    hide CheckSig, TotalPower, Weight, CertifiesTrusting, Member, MARKED;
    var vals, c := TRIPLE, OneSignature(h);
    TripleTotal();
    OneSignatureChecks(h);
    assert vals[0] == Member(1, 1);
    assert FirstNamed(vals, c, 0) by { TripleSigner(h); }
    NegativeAccepts(MARKED, [], vals, c, -3);
    forall members: seq<bool> | |members| == 3 ensures Weight(TRIPLE, members) < 3 * (TWO_64 - 1) / 1 {
      WeightAtMostTotal(vals, members);
    }
  }

  lemma TripleSigner(h: Hash)
    ensures Signer(TRIPLE, OneSignature(h), 0) == 0
  {
    hide Member;
    var vals, c := TRIPLE, OneSignature(h);
    assert vals[0].address == c.signatures[0].address && ForBlock(c)[0];
  }
}
