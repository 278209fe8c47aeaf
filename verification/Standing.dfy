/** What an update does to the priorities: members keep their standing, and when joining is no advantage. */
module Standing {
  import opened Int64
  import opened Bytes
  import opened Sums
  import opened Proposers
  import opened Scheduler
  import opened ChangeSets
  import opened ChangeEffects
  import opened Memberships

  /** The total with all additions and updates but without the removals. */
  ghost function TotalBefore(ps: seq<Proposer>, changes: seq<Proposer>): int
    requires DistinctAddresses(ps)
  {
    TotalPower(ps) + Sum(Gains(ps, changes))
  }

  /** The price of joining lies between nine eighths of that total and one less. */
  lemma PriceExactly(ps: seq<Proposer>, changes: seq<Proposer>)
    requires DistinctAddresses(ps) && DistinctAddresses(changes)
    ensures 9 * TotalBefore(ps, changes) - 8 < -8 * Newcomer(ps, changes) <= 9 * TotalBefore(ps, changes)
  {
    hide TotalPower, Sum, Gains, TotalOf, Overridden;
    TotalsSpelled(ps, changes);
  }

  /** The priority with which the member under an address enters the rescaling. */
  ghost function Entry(ps: seq<Proposer>, changes: seq<Proposer>, a: Address): int
    requires DistinctAddresses(ps) && DistinctAddresses(changes)
  {
    if a in ByAddress(ps) then ByAddress(ps)[a].priority else Newcomer(ps, changes)
  }

  /** A member enters with the priority it has, anybody else with the price. */
  lemma EntryExactly(ps: seq<Proposer>, changes: seq<Proposer>, a: Address)
    requires DistinctAddresses(ps) && DistinctAddresses(changes)
    ensures forall j :: 0 <= j < |ps| && ps[j].address == a ==> Entry(ps, changes, a) == ps[j].priority
    ensures !Named(ps, a) ==> Entry(ps, changes, a) == Newcomer(ps, changes)
  {
    hide Newcomer;
    NamedInMap(ps, a);
  }

  lemma MergedEntry(ps: seq<Proposer>, changes: seq<Proposer>, merged: seq<Proposer>, i: nat)
    requires DistinctAddresses(ps) && DistinctAddresses(changes) && Merges(ps, changes, merged) && i < |merged|
    ensures merged[i].priority == Entry(ps, changes, merged[i].address)
  {
    hide ByAddress, Newcomer, AddressSorted;
    InByAddress(merged, merged[i]);
  }

  /** All entries of the updated set lie at most `d` apart when they enter the rescaling. */
  ghost predicate EntriesWithin(ps: seq<Proposer>, changes: seq<Proposer>, res: seq<Proposer>, d: int)
    requires DistinctAddresses(ps) && DistinctAddresses(changes)
  {
    forall k, l :: 0 <= k < |res| && 0 <= l < |res| ==>
      Entry(ps, changes, res[k].address) - Entry(ps, changes, res[l].address) <= d
  }

  /** Where an entry of the rearranged list comes from. */
  lemma CameFrom(merged: seq<Proposer>, ns: seq<Proposer>, res: seq<Proposer>, k: nat) returns (i: nat)
    requires SameShape(merged, ns) && multiset(res) == multiset(ns) && k < |res|
    ensures i < |merged| == |ns| && ns[i] == res[k] && merged[i].address == res[k].address
  {
    assert res[k] in multiset(ns);
    i :| 0 <= i < |ns| && ns[i] == res[k];
  }

  /** Where an entry of the list went. */
  lemma WentTo(merged: seq<Proposer>, ns: seq<Proposer>, res: seq<Proposer>, i: nat) returns (k: nat)
    requires SameShape(merged, ns) && multiset(res) == multiset(ns) && i < |merged|
    ensures k < |res| && res[k].address == merged[i].address
  {
    assert ns[i] in multiset(res);
    k :| 0 <= k < |res| && res[k] == ns[i];
  }

  lemma SameSpread(ps: seq<Proposer>, changes: seq<Proposer>, merged: seq<Proposer>, ns: seq<Proposer>,
                   res: seq<Proposer>, d: int)
    requires DistinctAddresses(ps) && DistinctAddresses(changes) && Merges(ps, changes, merged)
    requires SameShape(merged, ns) && multiset(res) == multiset(ns)
    ensures EntriesWithin(ps, changes, res, d) <==> SpreadWithin(merged, d)
  {
    hide Entry, Merges, SameShape, DistinctAddresses;
    if EntriesWithin(ps, changes, res, d) {
      forall i, j | 0 <= i < |merged| && 0 <= j < |merged| ensures merged[i].priority - merged[j].priority <= d {
        MergedEntry(ps, changes, merged, i);
        MergedEntry(ps, changes, merged, j);
        var k := WentTo(merged, ns, res, i);
        var l := WentTo(merged, ns, res, j);
      }
    }
    if SpreadWithin(merged, d) {
      forall k, l | 0 <= k < |res| && 0 <= l < |res|
        ensures Entry(ps, changes, res[k].address) - Entry(ps, changes, res[l].address) <= d
      {
        var i := CameFrom(merged, ns, res, k);
        var j := CameFrom(merged, ns, res, l);
        MergedEntry(ps, changes, merged, i);
        MergedEntry(ps, changes, merged, j);
      }
    }
  }

  /**
   * The priorities after an update, entry by entry: those the members enter with, divided by the smallest whole number
   * that brings their spread within twice the new total, and shifted by one constant so that the sum lies in [0, n).
   */
  lemma UpdatePriorities(ps: seq<Proposer>, changes: seq<Proposer>, allowDeletes: bool, res: seq<Proposer>)
    returns (r: nat, c: int)
    requires Legal(ps) && Acceptable(ps, changes, allowDeletes) && Updates(ps, changes, res)
    requires UpdateExact(ps, changes)
    ensures r >= 1 && 0 <= Sum(Priorities(res)) < |res| && TotalPower(res) > 0
    ensures forall k :: 0 <= k < |res| ==>
              QuotientOf(res[k].priority + c, Entry(ps, changes, res[k].address), r)
    ensures EntriesWithin(ps, changes, res, r * (2 * TotalPower(res)))
    ensures r > 1 ==> !EntriesWithin(ps, changes, res, (r - 1) * (2 * TotalPower(res)))
  {
    hide ByAddress, TotalOf, Changed, AddressSorted, TotalPower, Sum, Priorities, Normalize, Rescalable, RescaleExact,
         Newcomer, PowerSorted, TalliesExact, Overridden, ShiftExact, Merges, Entry, EntriesWithin, SpreadWithin,
         QuotientOf, SameShape, DistinctAddresses, SpreadWithin, RemovesOnlyMembers;
    var merged: seq<Proposer> :| UpdatesVia(ps, changes, merged, res);
    r, c := NormalizeExactly(merged);
    UpdateCentres(ps, changes, res);
    SameShapePowers(merged, Normalize(merged));
    RearrangedSums(Normalize(merged), res);
    SameSpread(ps, changes, merged, Normalize(merged), res, r * (2 * TotalPower(res)));
    SameSpread(ps, changes, merged, Normalize(merged), res, (r - 1) * (2 * TotalPower(res)));
    forall k | 0 <= k < |res| ensures QuotientOf(res[k].priority + c, Entry(ps, changes, res[k].address), r) {
      var i := CameFrom(merged, Normalize(merged), res, k);
      MergedEntry(ps, changes, merged, i);
    }
  }

  /** An update keeps the order in which its members enter, and within the window every difference. */
  lemma StandingKept(ps: seq<Proposer>, changes: seq<Proposer>, allowDeletes: bool, res: seq<Proposer>, k: nat, l: nat)
    requires Legal(ps) && Acceptable(ps, changes, allowDeletes) && Updates(ps, changes, res)
    requires UpdateExact(ps, changes) && k < |res| && l < |res|
    ensures var p, q := Entry(ps, changes, res[k].address), Entry(ps, changes, res[l].address);
      && (p <= q ==> res[k].priority <= res[l].priority)
      && (EntriesWithin(ps, changes, res, 2 * TotalPower(res)) ==> res[k].priority - res[l].priority == p - q)
  {
    hide DistinctAddresses, Updates, UpdateExact, Entry, EntriesWithin, QuotientOf, TotalPower, Sum, Priorities;
    var r, c := UpdatePriorities(ps, changes, allowDeletes, res);
    var p, q := Entry(ps, changes, res[k].address), Entry(ps, changes, res[l].address);
    if p <= q { QuotientMonotone(p, res[k].priority + c, q, res[l].priority + c, r); }
    if EntriesWithin(ps, changes, res, 2 * TotalPower(res)) {
      OneIsEnough(ps, changes, res, r, 2 * TotalPower(res));
      QuotientByOne(p);
      QuotientByOne(q);
    }
  }

  lemma OneIsEnough(ps: seq<Proposer>, changes: seq<Proposer>, res: seq<Proposer>, r: nat, w: int)
    requires DistinctAddresses(ps) && DistinctAddresses(changes) && r >= 1 && w >= 0
    requires r > 1 ==> !EntriesWithin(ps, changes, res, (r - 1) * w)
    requires EntriesWithin(ps, changes, res, w)
    ensures r == 1
  {
    hide Entry;
    assert (r - 1) * w == w * (r - 1);
    if r > 1 { ProductOrder(w, 1, r - 1); }
  }

  /** Every member that stays has at least the given priority. */
  ghost predicate NobodyBelow(ps: seq<Proposer>, changes: seq<Proposer>, res: seq<Proposer>, low: int) {
    forall j :: 0 <= j < |ps| && Named(res, ps[j].address) ==> low <= ps[j].priority
  }

  /**
   * Leaving and rejoining never gains: a newcomer enters below 1 - T, the lowest priority that an election can leave
   * behind in a set of total T, where T counts all additions and updates but no removals. If no member that stays is
   * below that, then every newcomer ends at or below every old member.
   */
  lemma NewcomersTrail(ps: seq<Proposer>, changes: seq<Proposer>, allowDeletes: bool, res: seq<Proposer>,
                       k: nat, l: nat)
    requires Legal(ps) && Acceptable(ps, changes, allowDeletes) && Updates(ps, changes, res)
    requires UpdateExact(ps, changes) && k < |res| && l < |res|
    requires NobodyBelow(ps, changes, res, 1 - TotalBefore(ps, changes))
    requires !Named(ps, res[k].address) && Named(ps, res[l].address)
    ensures Entry(ps, changes, res[k].address) < 1 - TotalBefore(ps, changes)
    ensures res[k].priority <= res[l].priority
  {
    hide TotalPower, Sum, Gains, Newcomer, DistinctAddresses, Updates, UpdateExact, Entry;
    PriceExactly(ps, changes);
    EntryExactly(ps, changes, res[k].address);
    EntryExactly(ps, changes, res[l].address);
    var j :| 0 <= j < |ps| && ps[j].address == res[l].address;
    BeforeIsNonNegative(ps, changes, allowDeletes);
    StandingKept(ps, changes, allowDeletes, res, k, l);
  }

  /**
   * The exact condition: a newcomer enters at or below a member if and only if that member is not below minus nine
   * eighths, rounded, of the total before removals; within the window the same holds of the result.
   */
  lemma TrailsExactly(ps: seq<Proposer>, changes: seq<Proposer>, allowDeletes: bool, res: seq<Proposer>,
                      k: nat, l: nat)
    requires Legal(ps) && Acceptable(ps, changes, allowDeletes) && Updates(ps, changes, res)
    requires UpdateExact(ps, changes) && k < |res| && l < |res|
    requires !Named(ps, res[k].address) && Named(ps, res[l].address)
    ensures var before := TotalBefore(ps, changes);
      forall j :: 0 <= j < |ps| && ps[j].address == res[l].address ==>
        && (Entry(ps, changes, res[k].address) <= ps[j].priority <==> -8 * ps[j].priority <= 9 * before - before % 8)
        && (EntriesWithin(ps, changes, res, 2 * TotalPower(res)) ==>
              (res[k].priority <= res[l].priority <==> -8 * ps[j].priority <= 9 * before - before % 8))
  {
    hide TotalPower, Sum, Gains, TotalOf, Overridden, DistinctAddresses, Updates, UpdateExact, Entry, EntriesWithin;
    TotalsSpelled(ps, changes);
    EntryExactly(ps, changes, res[k].address);
    EntryExactly(ps, changes, res[l].address);
    StandingKept(ps, changes, allowDeletes, res, k, l);
  }

  // ---- an input on which a newcomer enters above a member

  /** Two members of power 10, one of them far behind. */
  const APART: seq<Proposer> := [Proposer([1], [1], 10, -30), Proposer([2], [2], 10, 30)]

  const JOINING: seq<Proposer> := [Proposer([3], [3], 1, 0)]

  lemma TotalOfTwo()
    ensures Legal(APART) && TotalPower(APART) == 20
    ensures Sum(Gains(APART, JOINING)) == 1 && Sum(Losses(APART, JOINING)) == 0
  {
    var p := Powers(APART);
    SumPrefix(p, 0);
    SumPrefix(p, 1);
    assert p[..2] == p;
    NothingUnderThree();
    SumPrefix(Gains(APART, JOINING), 0);
    SumPrefix(Losses(APART, JOINING), 0);
    assert Gains(APART, JOINING)[..1] == Gains(APART, JOINING) && Losses(APART, JOINING)[..1] == Losses(APART, JOINING);
  }

  lemma NothingUnderThree()
    ensures DistinctAddresses(APART) && [3] !in ByAddress(APART)
  {
    assert APART[0].address[0] == 1 && APART[1].address[0] == 2 && [3 as Byte][0] == 3;
  }

  /** At a total of 21 the price is 23, so a member at -30 is overtaken. */
  lemma NewcomerOvertakes()
    ensures Legal(APART) && Acceptable(APART, JOINING, true)
    ensures Entry(APART, JOINING, [3]) == -23 && Entry(APART, JOINING, [1]) == -30
  {
    hide TotalPower, Sum, Gains, Losses, ByAddress, Acceptable;
    TotalOfTwo();
    AcceptedExactly(APART, JOINING, true);
    assert JOINING[0].votingPower == 1;
    PriceExactly(APART, JOINING);
    NothingUnderThree();
    NamedInMap(APART, [3]);
    EntryExactly(APART, JOINING, [3]);
    EntryExactly(APART, JOINING, [1]);
    assert APART[0].address == [1] && APART[0].priority == -30;
  }

  lemma BeforeIsNonNegative(ps: seq<Proposer>, changes: seq<Proposer>, allowDeletes: bool)
    requires Legal(ps) && Acceptable(ps, changes, allowDeletes)
    ensures TotalBefore(ps, changes) >= 0
  {
    hide TotalPower, Sum, Gains, TotalOf, Overridden;
    NewcomerBounds(ps, changes, allowDeletes);
    TotalsSpelled(ps, changes);
  }
}
