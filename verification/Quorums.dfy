/** The power behind a choice of validators, and why two quora meet. */
module Quorums {
  import opened Sums
  import opened Proposers

  function Weights(vals: seq<Proposer>, pick: seq<bool>): (r: seq<int>)
    requires |pick| == |vals|
    ensures |r| == |vals|
  {
    seq(|vals|, i requires 0 <= i < |vals| => if pick[i] then vals[i].votingPower as int else 0)
  }

  function Weight(vals: seq<Proposer>, pick: seq<bool>): int
    requires |pick| == |vals|
  {
    Sum(Weights(vals, pick))
  }

  ghost predicate NonNegative(vals: seq<Proposer>) {
    forall i :: 0 <= i < |vals| ==> 0 <= vals[i].votingPower
  }

  function Both(a: seq<bool>, b: seq<bool>): (r: seq<bool>)
    requires |a| == |b|
    ensures |r| == |a|
  {
    seq(|a|, i requires 0 <= i < |a| => a[i] && b[i])
  }

  lemma WeightMonotone(vals: seq<Proposer>, a: seq<bool>, b: seq<bool>)
    requires |a| == |b| == |vals| && NonNegative(vals)
    requires forall i :: 0 <= i < |a| && a[i] ==> b[i]
    ensures Weight(vals, a) <= Weight(vals, b)
  {
    SumMonotone(Weights(vals, a), Weights(vals, b));
  }

  lemma WeightAtMostTotal(vals: seq<Proposer>, a: seq<bool>)
    requires |a| == |vals| && NonNegative(vals)
    ensures 0 <= Weight(vals, a) <= TotalPower(vals)
  {
    SumAtLeast(Weights(vals, a), 0);
    SumMonotone(Weights(vals, a), Powers(vals));
  }

  /** Inclusion and exclusion: what two choices hold beyond the total, they hold in common. */
  lemma CommonWeight(vals: seq<Proposer>, a: seq<bool>, b: seq<bool>)
    requires |a| == |b| == |vals| && NonNegative(vals)
    ensures Weight(vals, a) + Weight(vals, b) <= TotalPower(vals) + Weight(vals, Both(a, b))
  {
    var left := seq(|vals|, i requires 0 <= i < |vals| => Weights(vals, a)[i] + Weights(vals, b)[i]);
    var right := seq(|vals|, i requires 0 <= i < |vals| => Powers(vals)[i] + Weights(vals, Both(a, b))[i]);
    SumLinear(Weights(vals, a), Weights(vals, b), 0, left);
    SumLinear(Powers(vals), Weights(vals, Both(a, b)), 0, right);
    SumMonotone(left, right);
  }

  /** Two choices beyond two thirds share more than one third. */
  lemma QuorumOverlap(vals: seq<Proposer>, a: seq<bool>, b: seq<bool>)
    requires |a| == |b| == |vals| && NonNegative(vals)
    requires Weight(vals, a) > TotalPower(vals) * 2 / 3 && Weight(vals, b) > TotalPower(vals) * 2 / 3
    ensures 3 * Weight(vals, Both(a, b)) > TotalPower(vals)
  {
    CommonWeight(vals, a, b);
  }

  /** More power than the faulty validators hold includes one that is not faulty. */
  lemma SomeoneElse(vals: seq<Proposer>, a: seq<bool>, faulty: seq<bool>) returns (i: nat)
    requires |a| == |faulty| == |vals| && NonNegative(vals)
    requires Weight(vals, a) > Weight(vals, faulty)
    ensures i < |vals| && a[i] && !faulty[i]
  {
    if forall j :: 0 <= j < |a| && a[j] ==> faulty[j] {
      WeightMonotone(vals, a, faulty);
      assert false;
    }
    i :| 0 <= i < |a| && a[i] && !faulty[i];
  }
}
