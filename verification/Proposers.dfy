/** Weighted validators, their priority order and the quantities summed over a list of them. */
module Proposers {
  import opened Int64
  import opened Bytes
  import opened Sums
  import opened Sorting

  type Address = ByteString
  type PubKey = ByteString

  const MAX_TOTAL_VOTING_POWER: int := MAX_INT64 / 8

  datatype Proposer = Proposer(address: Address, pubKey: PubKey, votingPower: Int64, priority: Int64)

  function Powers(ps: seq<Proposer>): seq<int> {
    seq(|ps|, i requires 0 <= i < |ps| => ps[i].votingPower as int)
  }

  function Priorities(ps: seq<Proposer>): seq<int> {
    seq(|ps|, i requires 0 <= i < |ps| => ps[i].priority as int)
  }

  function TotalPower(ps: seq<Proposer>): int { Sum(Powers(ps)) }

  ghost predicate DistinctAddresses(ps: seq<Proposer>) {
    forall i, j :: 0 <= i < j < |ps| ==> ps[i].address != ps[j].address
  }

  /** What every set in use satisfies: no two entries share an address, and the total is within the cap. */
  ghost predicate Legal(ps: seq<Proposer>) {
    && DistinctAddresses(ps)
    && (forall i :: 0 <= i < |ps| ==> 0 <= ps[i].votingPower)
    && TotalPower(ps) <= MAX_TOTAL_VOTING_POWER
  }

  ghost predicate AllPositive(ps: seq<Proposer>) {
    forall i :: 0 <= i < |ps| ==> 1 <= ps[i].votingPower
  }

  /** The two lists differ in priorities only. */
  ghost predicate SameShape(ps: seq<Proposer>, qs: seq<Proposer>) {
    |ps| == |qs| && forall i {:trigger qs[i]} :: 0 <= i < |ps| ==> qs[i] == ps[i].(priority := qs[i].priority)
  }

  lemma SameShapePowers(ps: seq<Proposer>, qs: seq<Proposer>)
    requires SameShape(ps, qs)
    ensures Powers(ps) == Powers(qs) && TotalPower(ps) == TotalPower(qs)
    ensures Legal(ps) ==> Legal(qs)
    ensures AllPositive(ps) ==> AllPositive(qs)
  {
    assert Powers(ps) == Powers(qs);
  }

  lemma PowersBounded(ps: seq<Proposer>)
    requires Legal(ps)
    ensures 0 <= TotalPower(ps)
    ensures forall i :: 0 <= i < |ps| ==> ps[i].votingPower <= TotalPower(ps)
    ensures AllPositive(ps) ==> |ps| <= TotalPower(ps)
  {
    SumAtLeast(Powers(ps), 0);
    forall i | 0 <= i < |ps| ensures ps[i].votingPower <= TotalPower(ps) {
      ElementAtMost(Powers(ps), 0, i);
    }
    if AllPositive(ps) {
      SumAtLeast(Powers(ps), 1);
    }
  }

  // ---- the orders of the sorted lists

  predicate AddressLess(a: Proposer, b: Proposer) { Less(a.address, b.address) }

  /** ValidatorsByVotingPower: power descending, then address ascending. */
  predicate PowerLess(a: Proposer, b: Proposer) {
    if a.votingPower == b.votingPower then Less(a.address, b.address) else a.votingPower > b.votingPower
  }

  ghost predicate AddressSorted(ps: seq<Proposer>) { StrictlyOrdered(AddressLess, ps) }

  ghost predicate PowerSorted(ps: seq<Proposer>) { StrictlyOrdered(PowerLess, ps) }

  // ---- the order of CompareProposerPriority

  /** `a` is preferred to `b`: higher priority, and on a tie the lower address. */
  predicate Beats(a: Proposer, b: Proposer) {
    a.priority > b.priority || (a.priority == b.priority && Less(a.address, b.address))
  }

  /** Compares two validators; the precondition excludes the panic on identical ones. */
  function CompareProposerPriority(v: Proposer, other: Proposer): (r: Proposer)
    requires v.priority != other.priority || v.address != other.address
    ensures r == v || r == other
    ensures r.priority >= v.priority && r.priority >= other.priority
    ensures v.priority == other.priority ==> Less(r.address, (if r == v then other else v).address)
  {
    if v.priority > other.priority then v
    else if v.priority < other.priority then other
    else
      LessIrreflexive(v.address);
      LessTotal(v.address, other.address);
      if Less(v.address, other.address) then v else other
  }

  lemma BeatsTransitive(a: Proposer, b: Proposer, c: Proposer)
    requires Beats(a, b) && Beats(b, c)
    ensures Beats(a, c)
  {
    if a.priority == b.priority == c.priority {
      LessTransitive(a.address, b.address, c.address);
    }
  }

  /** The position the left-to-right scan of getValWithMostPriority ends on. */
  function Mostest(ps: seq<Proposer>): (m: nat)
    requires |ps| > 0
    ensures m < |ps|
  {
    var n := |ps| - 1;
    if n == 0 then 0
    else
      var m := Mostest(ps[..n]);
      if Beats(ps[m], ps[n]) then m else n
  }

  /** The scan finds the one element preferred to every other. */
  lemma {:induction false} MostestBeatsAll(ps: seq<Proposer>, j: nat)
    requires |ps| > 0 && DistinctAddresses(ps) && j < |ps| && j != Mostest(ps)
    ensures Beats(ps[Mostest(ps)], ps[j])
    ensures ps[Mostest(ps)].priority >= ps[j].priority
    ensures ps[Mostest(ps)].priority == ps[j].priority ==> Less(ps[Mostest(ps)].address, ps[j].address)
  {
    var n := |ps| - 1;
    var front := ps[..n];
    var m := Mostest(front);
    if j < n && j != m {
      MostestBeatsAll(front, j);
    }
    LessTotal(ps[m].address, ps[n].address);
    if !Beats(ps[m], ps[n]) && j != m {
      BeatsTransitive(ps[n], ps[m], ps[j]);
    }
  }

  lemma MostestIsMaximal(ps: seq<Proposer>)
    requires |ps| > 0 && DistinctAddresses(ps)
    ensures forall j :: 0 <= j < |ps| ==> ps[j].priority <= ps[Mostest(ps)].priority
  {
    forall j | 0 <= j < |ps| ensures ps[j].priority <= ps[Mostest(ps)].priority {
      if j != Mostest(ps) { MostestBeatsAll(ps, j); }
    }
  }
}
