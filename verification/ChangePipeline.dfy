/** The lists that updateWithChangeSet builds on its way, and what they say about the changed map. */
module ChangePipeline {
  import opened Int64
  import opened Bytes
  import opened Sums
  import opened Proposers
  import opened ChangeSets
  import opened Merging

  /** GetByAddress: the first position holding the address, or -1. */
  function IndexOf(ps: seq<Proposer>, a: Address): (i: int)
    ensures -1 <= i < |ps|
    ensures i >= 0 ==> ps[i].address == a
    ensures i < 0 ==> forall j :: 0 <= j < |ps| ==> ps[j].address != a
    ensures forall j :: 0 <= j < i ==> ps[j].address != a
  {
    if |ps| == 0 then -1
    else
      var n := |ps| - 1;
      var i := IndexOf(ps[..n], a);
      if i >= 0 then i else if ps[n].address == a then n else -1
  }

  lemma IndexInMap(ps: seq<Proposer>, a: Address)
    requires DistinctAddresses(ps)
    ensures IndexOf(ps, a) >= 0 <==> a in ByAddress(ps)
    ensures IndexOf(ps, a) >= 0 ==> ByAddress(ps)[a] == ps[IndexOf(ps, a)]
  {
    if IndexOf(ps, a) >= 0 {
      assert ps[IndexOf(ps, a)].address in ByAddress(ps);
    }
  }

  // ---- splitting the changes

  lemma {:induction false} PartMembers(cs: seq<Proposer>, removing: bool, x: Proposer)
    ensures x in Part(cs, removing) <==> x in cs && (x.votingPower == 0) == removing
  {
    if |cs| > 0 {
      var n := |cs| - 1;
      PartMembers(cs[..n], removing, x);
      assert cs == cs[..n] + [cs[n]];
    }
  }

  lemma {:induction false} PartSorted(cs: seq<Proposer>, removing: bool)
    requires AddressSorted(cs)
    ensures AddressSorted(Part(cs, removing))
  {
    hide Less;
    if |cs| > 0 {
      var n := |cs| - 1;
      PartSorted(cs[..n], removing);
      forall i | 0 <= i < |Part(cs[..n], removing)| ensures AddressLess(Part(cs[..n], removing)[i], cs[n]) {
        PartMembers(cs[..n], removing, Part(cs[..n], removing)[i]);
        var j :| 0 <= j < n && cs[j] == Part(cs[..n], removing)[i];
        assert AddressLess(cs[j], cs[n]);
      }
    }
  }

  ghost function Select(ch: map<Address, Proposer>, removing: bool): map<Address, Proposer> {
    map a | a in ch && (ch[a].votingPower == 0) == removing :: ch[a]
  }

  lemma AddressesAreKeys(ps: seq<Proposer>)
    requires DistinctAddresses(ps)
    ensures Addresses(ps) == ByAddress(ps).Keys
  {
  }

  lemma InPart(cs: seq<Proposer>, removing: bool, x: Proposer)
    requires DistinctAddresses(cs) && DistinctAddresses(Part(cs, removing))
    ensures (x.address in ByAddress(Part(cs, removing)) && ByAddress(Part(cs, removing))[x.address] == x)
            <==> (x.address in ByAddress(cs) && ByAddress(cs)[x.address] == x && (x.votingPower == 0) == removing)
  {
    hide ByAddress, Part;
    PartMembers(cs, removing, x);
    InByAddress(cs, x);
    InByAddress(Part(cs, removing), x);
  }

  lemma PartByAddress(cs: seq<Proposer>, removing: bool)
    requires AddressSorted(cs)
    ensures AddressSorted(Part(cs, removing))
    ensures DistinctAddresses(cs) && DistinctAddresses(Part(cs, removing))
    ensures ByAddress(Part(cs, removing)) == Select(ByAddress(cs), removing)
    ensures Addresses(Part(cs, removing)) == Select(ByAddress(cs), removing).Keys
  {
    hide Less, Part, ByAddress, AddressSorted, DistinctAddresses, Addresses;
    var part := Part(cs, removing);
    PartSorted(cs, removing);
    AddressSortedDistinct(cs);
    AddressSortedDistinct(part);
    AddressesAreKeys(part);
    var l, r := ByAddress(part), Select(ByAddress(cs), removing);
    forall a | a in l ensures a in r && r[a] == l[a] {
      ByAddressKey(part, a);
      InPart(cs, removing, l[a]);
    }
    forall a | a in r ensures a in l {
      ByAddressKey(cs, a);
      InPart(cs, removing, r[a]);
    }
  }

  // ---- new priorities

  /** computeNewPriorities. */
  function Priced(us: seq<Proposer>, ps: seq<Proposer>, newcomer: Int64): (r: seq<Proposer>)
    ensures |r| == |us|
  {
    seq(|us|, i requires 0 <= i < |us| =>
      var j := IndexOf(ps, us[i].address);
      us[i].(priority := if j >= 0 then ps[j].priority else newcomer))
  }

  lemma PricedByAddress(us: seq<Proposer>, ps: seq<Proposer>, newcomer: Int64)
    requires AddressSorted(us) && DistinctAddresses(ps)
    ensures var r := Priced(us, ps, newcomer);
      && AddressSorted(r) && DistinctAddresses(us) && DistinctAddresses(r)
      && ByAddress(r) == map a | a in ByAddress(us) ::
           ByAddress(us)[a].(priority := if a in ByAddress(ps) then ByAddress(ps)[a].priority else newcomer)
  {
    hide Less, IndexOf;
    var r := Priced(us, ps, newcomer);
    AddressSortedDistinct(us);
    forall i, j | 0 <= i < j < |r| ensures AddressLess(r[i], r[j]) {
      assert AddressLess(us[i], us[j]);
    }
    AddressSortedDistinct(r);
    forall i | 0 <= i < |us|
      ensures r[i] == us[i].(priority := if us[i].address in ByAddress(ps)
                                         then ByAddress(ps)[us[i].address].priority else newcomer)
      ensures us[i].address in ByAddress(us) && us[i].address in ByAddress(r) && r[i].address == us[i].address
    {
      IndexInMap(ps, us[i].address);
      InByAddress(us, us[i]);
      InByAddress(r, r[i]);
    }
  }

  // ---- the merged list carries the changed map

  lemma ChangedByParts(m: map<Address, Proposer>, ch: map<Address, Proposer>, newcomer: Int64, up: map<Address,
                       Proposer>)
    requires up == map a | a in Select(ch, false) ::
                     ch[a].(priority := if a in m then m[a].priority else newcomer)
    ensures (m + up) - Select(ch, true).Keys == Changed(m, ch, newcomer)
  {
  }

  lemma MergedIsChanged(ps: seq<Proposer>, changes: seq<Proposer>, e: seq<Proposer>, cs: seq<Proposer>, newcomer: Int64)
    requires DistinctAddresses(ps) && DistinctAddresses(changes)
    requires AddressSorted(e) && multiset(e) == multiset(ps)
    requires AddressSorted(cs) && multiset(cs) == multiset(changes)
    requires RemovesOnlyMembers(ByAddress(ps), ByAddress(changes))
    ensures var u, d := Priced(Part(cs, false), ps, newcomer), Part(cs, true);
      && var merged := Without(Merge(e, u), d);
      && AddressSorted(e) && AddressSorted(u) && AddressSorted(d) && AddressSorted(Merge(e, u))
      && MapOf(d).Keys <= MapOf(Merge(e, u)).Keys
      && AddressSorted(merged) && DistinctAddresses(merged)
      && ByAddress(merged) == Changed(ByAddress(ps), ByAddress(changes), newcomer)
  {
    hide Less, Part, Priced, Merge, Without, AddressSorted, ByAddress, MapOf, Changed;
    var us, d := Part(cs, false), Part(cs, true);
    var u := Priced(us, ps, newcomer);
    ByAddressPermutation(ps, e);
    ByAddressPermutation(changes, cs);
    PartByAddress(cs, false);
    PartByAddress(cs, true);
    PricedByAddress(us, ps, newcomer);
    MapOfIsByAddress(e);
    MapOfIsByAddress(u);
    MapOfIsByAddress(d);
    MergeSorted(e, u);
    MergeOverrides(e, u);
    WithoutRemoves(Merge(e, u), d);
    MapOfIsByAddress(Without(Merge(e, u), d));
    ChangedByParts(ByAddress(ps), ByAddress(changes), newcomer, ByAddress(u));
  }

  // ---- totals

  /** The change in the total that the updates bring, read off the sorted list. */
  ghost function GainOf(ps: seq<Proposer>, cs: seq<Proposer>): int
    requires DistinctAddresses(ps)
  {
    Sum(Deltas(ByAddress(ps), Part(cs, false)))
  }

  /** The power of the members that the removals take out. */
  ghost function LossOf(ps: seq<Proposer>, cs: seq<Proposer>): int
    requires DistinctAddresses(ps)
  {
    Sum(PowersAt(ByAddress(ps), Part(cs, true)))
  }

  lemma OverriddenByParts(m: map<Address, Proposer>, ch: map<Address, Proposer>)
    ensures Overridden(m, ch) == m + Select(ch, false)
  {
  }

  lemma ChangedPowers(m: map<Address, Proposer>, ch: map<Address, Proposer>, newcomer: Int64)
    ensures PowerMap(Changed(m, ch, newcomer)) == PowerMap(Overridden(m, ch) - Select(ch, true).Keys)
  {
  }

  /** The totals before and after the removals, as verifyUpdates computes them from deltas. */
  lemma TotalsFromDeltas(ps: seq<Proposer>, changes: seq<Proposer>, cs: seq<Proposer>, newcomer: Int64)
    requires DistinctAddresses(ps) && DistinctAddresses(changes)
    requires AddressSorted(cs) && multiset(cs) == multiset(changes)
    ensures TotalOf(Overridden(ByAddress(ps), ByAddress(changes))) == TotalPower(ps) + GainOf(ps, cs)
    ensures RemovesOnlyMembers(ByAddress(ps), ByAddress(changes)) ==>
              TotalOf(Changed(ByAddress(ps), ByAddress(changes), newcomer))
              == TotalPower(ps) + GainOf(ps, cs) - LossOf(ps, cs)
  {
    hide Less, Part, AddressSorted, ByAddress, PowerMap, MapSum, Changed, Overridden, TotalPower, Sum, Deltas;
    var m, ch := ByAddress(ps), ByAddress(changes);
    var us, d := Part(cs, false), Part(cs, true);
    ByAddressPermutation(changes, cs);
    PartByAddress(cs, false);
    PartByAddress(cs, true);
    OverriddenByParts(m, ch);
    TotalOfList(ps);
    TotalOfUpdates(m, us);
    if RemovesOnlyMembers(m, ch) {
      ChangedPowers(m, ch, newcomer);
      RemovalsUntouched(m, ch, d);
      TotalOfRemovals(m + ByAddress(us), d);
    }
  }

  lemma RemovalsUntouched(m: map<Address, Proposer>, ch: map<Address, Proposer>, d: seq<Proposer>)
    requires RemovesOnlyMembers(m, ch) && Addresses(d) == Select(ch, true).Keys
    ensures Addresses(d) <= (m + Select(ch, false)).Keys
    ensures PowersAt(m + Select(ch, false), d) == PowersAt(m, d)
  {
    forall i | 0 <= i < |d| ensures PowerAt(m + Select(ch, false), d[i].address) == PowerAt(m, d[i].address) {
      assert d[i].address in Addresses(d);
    }
  }
}
