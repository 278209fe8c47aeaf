/** The change sets once more, entry by entry: which lists are accepted, and what an accepted one leaves in the set. */
module Memberships {
  import opened Sums
  import opened Proposers
  import opened ChangeSets
  import opened ChangePipeline
  import opened ChangeEffects

  /** Some entry has the address. */
  ghost predicate Named(ps: seq<Proposer>, a: Address) {
    exists i :: 0 <= i < |ps| && ps[i].address == a
  }

  /** Some entry has the address, the key and the power of `p`. */
  ghost predicate Listed(ps: seq<Proposer>, p: Proposer) {
    exists i :: 0 <= i < |ps| && ps[i].address == p.address && ps[i].pubKey == p.pubKey
                && ps[i].votingPower == p.votingPower
  }

  lemma NamedInMap(ps: seq<Proposer>, a: Address)
    requires DistinctAddresses(ps)
    ensures Named(ps, a) <==> a in ByAddress(ps)
  {
  }

  lemma ListedInMap(ps: seq<Proposer>, p: Proposer)
    requires DistinctAddresses(ps)
    ensures Listed(ps, p) <==>
      p.address in Unprioritized(ByAddress(ps)) && Unprioritized(ByAddress(ps))[p.address] == p.(priority := 0)
  {
    if Listed(ps, p) {
      var i :| 0 <= i < |ps| && ps[i].address == p.address && ps[i].pubKey == p.pubKey
               && ps[i].votingPower == p.votingPower;
      InByAddress(ps, ps[i]);
    }
  }

  // ---- totals

  /** By how much each change, taken alone, raises the total before anything is removed. */
  ghost function Gains(ps: seq<Proposer>, changes: seq<Proposer>): seq<int>
    requires DistinctAddresses(ps)
  {
    seq(|changes|, i requires 0 <= i < |changes| =>
      if changes[i].votingPower == 0 then 0
      else changes[i].votingPower - PowerAt(ByAddress(ps), changes[i].address))
  }

  /** The power each removal takes out. */
  ghost function Losses(ps: seq<Proposer>, changes: seq<Proposer>): seq<int>
    requires DistinctAddresses(ps)
  {
    seq(|changes|, i requires 0 <= i < |changes| =>
      if changes[i].votingPower == 0 then PowerAt(ByAddress(ps), changes[i].address) else 0)
  }

  lemma PartStep(cs: seq<Proposer>, removing: bool)
    requires |cs| > 0
    ensures var n := |cs| - 1;
      Part(cs, removing)
      == if (cs[n].votingPower == 0) == removing then Part(cs[..n], removing) + [cs[n]] else Part(cs[..n], removing)
  {
    var n := |cs| - 1;
    assert Part(cs[..n], removing) + [] == Part(cs[..n], removing);
  }

  lemma GainsStep(ps: seq<Proposer>, cs: seq<Proposer>, us: seq<Proposer>)
    requires DistinctAddresses(ps) && |cs| > 0
    ensures var n, m := |cs| - 1, ByAddress(ps);
      && Sum(Deltas(m, us + [cs[n]])) == Sum(Deltas(m, us)) + Delta(m, cs[n])
      && Sum(PowersAt(m, us + [cs[n]])) == Sum(PowersAt(m, us)) + PowerAt(m, cs[n].address)
      && Sum(Gains(ps, cs)) == Sum(Gains(ps, cs[..n])) + (if cs[n].votingPower == 0 then 0 else Delta(m, cs[n]))
      && Sum(Losses(ps, cs))
         == Sum(Losses(ps, cs[..n])) + (if cs[n].votingPower == 0 then PowerAt(m, cs[n].address) else 0)
  {
    hide ByAddress, PowerAt;
    var n, m := |cs| - 1, ByAddress(ps);
    assert Deltas(m, us + [cs[n]])[..|us|] == Deltas(m, us);
    assert PowersAt(m, us + [cs[n]])[..|us|] == PowersAt(m, us);
    assert Gains(ps, cs)[..n] == Gains(ps, cs[..n]) && Losses(ps, cs)[..n] == Losses(ps, cs[..n]);
  }

  lemma {:induction false} GainsOfParts(ps: seq<Proposer>, cs: seq<Proposer>)
    requires DistinctAddresses(ps)
    ensures Sum(Deltas(ByAddress(ps), Part(cs, false))) == Sum(Gains(ps, cs))
    ensures Sum(PowersAt(ByAddress(ps), Part(cs, true))) == Sum(Losses(ps, cs))
  {
    hide ByAddress, PowerAt, Delta;
    if |cs| > 0 {
      hide Part, Sum, Deltas, PowersAt, Gains, Losses;
      var n := |cs| - 1;
      GainsOfParts(ps, cs[..n]);
      PartStep(cs, false);
      PartStep(cs, true);
      GainsStep(ps, cs, Part(cs[..n], false));
      GainsStep(ps, cs, Part(cs[..n], true));
    }
  }

  lemma GainsPermute(ps: seq<Proposer>, cs: seq<Proposer>, changes: seq<Proposer>)
    requires DistinctAddresses(ps) && multiset(cs) == multiset(changes)
    ensures Sum(Gains(ps, cs)) == Sum(Gains(ps, changes)) && Sum(Losses(ps, cs)) == Sum(Losses(ps, changes))
  {
    hide ByAddress, Sum;
    var m := ByAddress(ps);
    var gain := (u: Proposer) => if u.votingPower == 0 then 0 else u.votingPower - PowerAt(m, u.address);
    var loss := (u: Proposer) => if u.votingPower == 0 then PowerAt(m, u.address) else 0;
    SumPermutation(gain, cs, changes);
    SumPermutation(loss, cs, changes);
    assert Image(gain, cs) == Gains(ps, cs) && Image(gain, changes) == Gains(ps, changes);
    assert Image(loss, cs) == Losses(ps, cs) && Image(loss, changes) == Losses(ps, changes);
  }

  /** The totals before and after the removals, from the change list as it came. */
  lemma TotalsSpelled(ps: seq<Proposer>, changes: seq<Proposer>)
    requires DistinctAddresses(ps) && DistinctAddresses(changes)
    ensures TotalOf(Overridden(ByAddress(ps), ByAddress(changes))) == TotalPower(ps) + Sum(Gains(ps, changes))
    ensures RemovesOnlyMembers(ByAddress(ps), ByAddress(changes)) ==>
              TotalOf(Changed(ByAddress(ps), ByAddress(changes), 0))
              == TotalPower(ps) + Sum(Gains(ps, changes)) - Sum(Losses(ps, changes))
  {
    hide ByAddress, TotalOf, Overridden, Changed, TotalPower, Sum, Gains, Losses, AddressSorted, Part;
    var cs := SortedChanges(changes);
    TotalsFromDeltas(ps, changes, cs, 0);
    GainsOfParts(ps, cs);
    GainsPermute(ps, cs, changes);
  }

  // ---- what is accepted

  /** The set afterwards is not empty: something is added or updated, or somebody is not mentioned. */
  ghost predicate LeavesSomebody(ps: seq<Proposer>, changes: seq<Proposer>) {
    || (exists i :: 0 <= i < |changes| && changes[i].votingPower != 0)
    || exists j :: 0 <= j < |ps| && !Named(changes, ps[j].address)
  }

  lemma LeavesSomebodyInMap(ps: seq<Proposer>, changes: seq<Proposer>)
    requires DistinctAddresses(ps) && DistinctAddresses(changes)
    ensures LeavesSomebody(ps, changes) <==> Changed(ByAddress(ps), ByAddress(changes), 0) != map[]
  {
    hide ByAddress, Named;
    var m, ch := ByAddress(ps), ByAddress(changes);
    if i :| 0 <= i < |changes| && changes[i].votingPower != 0 {
      InByAddress(changes, changes[i]);
      assert changes[i].address in Changed(m, ch, 0);
    } else if j :| 0 <= j < |ps| && !Named(changes, ps[j].address) {
      InByAddress(ps, ps[j]);
      NamedInMap(changes, ps[j].address);
      assert ps[j].address in Changed(m, ch, 0);
    } else if a :| a in Changed(m, ch, 0) {
      if a in ch {
        ByAddressKey(changes, a);
        InByAddress(changes, ch[a]);
      } else {
        ByAddressKey(ps, a);
        InByAddress(ps, m[a]);
        NamedInMap(changes, a);
      }
    }
  }

  lemma RemovalsInMap(ps: seq<Proposer>, changes: seq<Proposer>)
    requires DistinctAddresses(ps) && DistinctAddresses(changes)
    ensures RemovesOnlyMembers(ByAddress(ps), ByAddress(changes)) <==>
      forall i :: 0 <= i < |changes| && changes[i].votingPower == 0 ==> Named(ps, changes[i].address)
  {
    hide ByAddress, Named;
    var m, ch := ByAddress(ps), ByAddress(changes);
    forall i | 0 <= i < |changes|
      ensures changes[i].address in ch && ch[changes[i].address] == changes[i]
      ensures Named(ps, changes[i].address) <==> changes[i].address in m
    {
      InByAddress(changes, changes[i]);
      NamedInMap(ps, changes[i].address);
    }
    forall a | a in ch ensures exists i :: 0 <= i < |changes| && changes[i] == ch[a] && changes[i].address == a {
      ByAddressKey(changes, a);
      InByAddress(changes, ch[a]);
    }
  }

  /**
   * The lists that succeed: distinct, non-empty addresses, powers between 0 and 2^60 - 1, no removals unless allowed
   * and then of members only, somebody left, and a total within 2^60 - 1 afterwards.
   */
  lemma AcceptedExactly(ps: seq<Proposer>, changes: seq<Proposer>, allowDeletes: bool)
    requires Legal(ps)
    ensures Acceptable(ps, changes, allowDeletes) <==>
      && (forall i, j :: 0 <= i < j < |changes| ==> changes[i].address != changes[j].address)
      && (forall i :: 0 <= i < |changes| ==>
            changes[i].address != [] && 0 <= changes[i].votingPower <= 0x0FFF_FFFF_FFFF_FFFF)
      && (forall i :: 0 <= i < |changes| && changes[i].votingPower == 0 ==>
            allowDeletes && Named(ps, changes[i].address))
      && LeavesSomebody(ps, changes)
      && TotalPower(ps) + Sum(Gains(ps, changes)) - Sum(Losses(ps, changes)) <= 0x0FFF_FFFF_FFFF_FFFF
  {
    hide ByAddress, TotalOf, Changed, TotalPower, Sum, Gains, Losses, LeavesSomebody, Named, RemovesOnlyMembers;
    if DistinctAddresses(changes) {
      LeavesSomebodyInMap(ps, changes);
      RemovalsInMap(ps, changes);
      TotalsSpelled(ps, changes);
    }
  }

  // ---- what an accepted list leaves

  lemma ChangedListed(ps: seq<Proposer>, changes: seq<Proposer>, p: Proposer)
    requires DistinctAddresses(ps) && DistinctAddresses(changes)
    ensures var after := Unprioritized(Changed(ByAddress(ps), ByAddress(changes), 0));
      (p.address in after && after[p.address] == p.(priority := 0)) <==>
        (if Named(changes, p.address) then p.votingPower != 0 && Listed(changes, p) else Listed(ps, p))
  {
    hide ByAddress, Named, Listed;
    NamedInMap(changes, p.address);
    ListedInMap(changes, p);
    ListedInMap(ps, p);
  }

  lemma NotNamed(res: seq<Proposer>, ps: seq<Proposer>, changes: seq<Proposer>, i: nat)
    requires DistinctAddresses(ps) && DistinctAddresses(changes) && DistinctAddresses(res)
    requires Unprioritized(ByAddress(res)) == Unprioritized(Changed(ByAddress(ps), ByAddress(changes), 0))
    requires i < |changes| && changes[i].votingPower == 0
    ensures !Named(res, changes[i].address)
  {
    hide ByAddress, Named;
    var a := changes[i].address;
    NamedInMap(res, a);
    InByAddress(changes, changes[i]);
    assert a in Unprioritized(ByAddress(res)) <==> a in ByAddress(res);
    assert a !in Changed(ByAddress(ps), ByAddress(changes), 0);
  }

  /**
   * The set after an accepted update: the added and updated validators with the keys and powers of the list, the
   * members nobody mentioned as they were, nobody else; listed from the highest power down, equal powers by address;
   * the total.
   */
  lemma UpdateSpelled(ps: seq<Proposer>, changes: seq<Proposer>, allowDeletes: bool, res: seq<Proposer>)
    requires Legal(ps) && Acceptable(ps, changes, allowDeletes) && Updates(ps, changes, res)
    ensures forall p {:trigger Listed(res, p)} ::
      Listed(res, p) <==>
        if Named(changes, p.address) then p.votingPower != 0 && Listed(changes, p) else Listed(ps, p)
    ensures forall i :: 0 <= i < |changes| && changes[i].votingPower == 0 ==> !Named(res, changes[i].address)
    ensures HighestFirst(res)
    ensures TotalPower(res) == TotalPower(ps) + Sum(Gains(ps, changes)) - Sum(Losses(ps, changes))
  {
    hide ByAddress, TotalOf, Changed, TotalPower, Sum, Gains, Losses, Listed, Named, Updates, Unprioritized,
         HighestFirst;
    UpdateEffects(ps, changes, allowDeletes, res);
    TotalsSpelled(ps, changes);
    forall p: Proposer
      ensures Listed(res, p) <==>
        if Named(changes, p.address) then p.votingPower != 0 && Listed(changes, p) else Listed(ps, p)
    {
      ListedInMap(res, p);
      ChangedListed(ps, changes, p);
    }
    forall i | 0 <= i < |changes| && changes[i].votingPower == 0 ensures !Named(res, changes[i].address) {
      NotNamed(res, ps, changes, i);
    }
  }
}
