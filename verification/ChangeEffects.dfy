/** What an accepted change list leaves behind. */
module ChangeEffects {
  import opened Int64
  import opened Bytes
  import opened Sums
  import opened Sorting
  import opened Proposers
  import opened Scheduler
  import opened ChangeSets
  import opened ChangePipeline

  lemma {:induction false} MapSumNonNegative<K>(m: map<K, int>)
    requires forall k :: k in m ==> m[k] >= 0
    ensures MapSum(m) >= 0
    decreases |m|
  {
    if m != map[] { MapSumNonNegative(m - {AnyKey(m)}); }
  }

  ghost predicate NonNegative(m: map<Address, Proposer>) {
    forall a :: a in m ==> m[a].votingPower >= 0
  }

  lemma TotalOfNonNegative(m: map<Address, Proposer>)
    requires NonNegative(m)
    ensures TotalOf(m) >= 0
  {
    MapSumNonNegative(PowerMap(m));
  }

  lemma ListNonNegative(ps: seq<Proposer>)
    requires DistinctAddresses(ps) && forall i :: 0 <= i < |ps| ==> ps[i].votingPower >= 0
    ensures NonNegative(ByAddress(ps))
  {
  }

  lemma SortedChanges(changes: seq<Proposer>) returns (cs: seq<Proposer>)
    requires DistinctAddresses(changes)
    ensures AddressSorted(cs) && multiset(cs) == multiset(changes)
  {
    OrdersArePreorders();
    cs := SortExists(AddressLess, changes);
    DistinctPermutation(changes, cs);
    OrderedIsStrict(cs);
  }

  /** What is taken out is part of what was there. */
  lemma LossIsBounded(ps: seq<Proposer>, changes: seq<Proposer>, cs: seq<Proposer>)
    requires Legal(ps) && DistinctAddresses(changes)
    requires RemovesOnlyMembers(ByAddress(ps), ByAddress(changes))
    requires AddressSorted(cs) && multiset(cs) == multiset(changes)
    ensures 0 <= LossOf(ps, cs) <= TotalPower(ps)
  {
    hide Less, Part, ByAddress, AddressSorted, TotalOf;
    var m, ch, d := ByAddress(ps), ByAddress(changes), Part(cs, true);
    ByAddressPermutation(changes, cs);
    PartByAddress(cs, true);
    RemovalsUntouched(m, ch, d);
    ListNonNegative(ps);
    SelectedAreMembers(m, ch, d);
    TotalOfRemovals(m, d);
    TotalOfList(ps);
    TotalOfNonNegative(m - Addresses(d));
    SumAtLeast(PowersAt(m, d), 0);
  }

  /** Any distinct members together hold no more than the total. */
  lemma RemovedFits(ps: seq<Proposer>, ds: seq<Proposer>)
    requires Legal(ps) && DistinctAddresses(ds) && Addresses(ds) <= ByAddress(ps).Keys
    ensures 0 <= Sum(PowersAt(ByAddress(ps), ds)) <= TotalPower(ps)
  {
    hide ByAddress, TotalOf, Addresses;
    var m := ByAddress(ps);
    ListNonNegative(ps);
    TotalOfRemovals(m, ds);
    TotalOfList(ps);
    TotalOfNonNegative(m - Addresses(ds));
    SumAtLeast(PowersAt(m, ds), 0);
  }

  /** No updates take away more than the total. */
  lemma GainAtLeast(ps: seq<Proposer>, us: seq<Proposer>)
    requires Legal(ps) && ValidChanges(us)
    ensures Sum(Deltas(ByAddress(ps), us)) >= -TotalPower(ps)
  {
    hide ByAddress, TotalOf;
    var m := ByAddress(ps);
    ListNonNegative(ps);
    ListNonNegative(us);
    TotalOfUpdates(m, us);
    TotalOfList(ps);
    TotalOfNonNegative(m + ByAddress(us));
  }

  /** The running sums of verifyRemovals and of verifyUpdates, whose loop goes on only below the cap, fit int64. */
  ghost predicate TalliesExact(ps: seq<Proposer>)
    requires DistinctAddresses(ps)
  {
    && (forall ds :: DistinctAddresses(ds) && Addresses(ds) <= ByAddress(ps).Keys ==>
          InInt64(Sum(PowersAt(ByAddress(ps), ds))))
    && (forall us, removed :: NextUpdate(ps, us, removed) ==>
          InInt64(BeforeLast(ps, us, removed) + Delta(ByAddress(ps), us[|us| - 1])))
  }

  /** The loop of verifyUpdates gets as far as the last of these updates. */
  ghost predicate NextUpdate(ps: seq<Proposer>, us: seq<Proposer>, removed: int)
    requires DistinctAddresses(ps)
  {
    && ValidChanges(us) && |us| > 0 && 0 <= removed <= TotalPower(ps)
    && BeforeLast(ps, us, removed) <= MAX_TOTAL_VOTING_POWER
  }

  /** The running sum of verifyUpdates ahead of the last update. */
  ghost function BeforeLast(ps: seq<Proposer>, us: seq<Proposer>, removed: int): int
    requires DistinctAddresses(ps) && |us| > 0
  {
    TotalPower(ps) - removed + Sum(Deltas(ByAddress(ps), us[..|us| - 1]))
  }

  lemma DeltaBounds(ps: seq<Proposer>, u: Proposer)
    requires Legal(ps) && 0 <= u.votingPower <= MAX_TOTAL_VOTING_POWER
    ensures -MAX_TOTAL_VOTING_POWER <= Delta(ByAddress(ps), u) <= MAX_TOTAL_VOTING_POWER
  {
    hide TotalPower;
    PowersBounded(ps);
  }

  lemma UpdatedTallyFits(ps: seq<Proposer>, us: seq<Proposer>, removed: int)
    requires Legal(ps) && NextUpdate(ps, us, removed)
    ensures InInt64(BeforeLast(ps, us, removed) + Delta(ByAddress(ps), us[|us| - 1]))
  {
    hide ByAddress, TotalPower, Delta, Deltas, Sum;
    GainAtLeast(ps, us[..|us| - 1]);
    DeltaBounds(ps, us[|us| - 1]);
    PowersBounded(ps);
  }

  lemma TalliesAreExact(ps: seq<Proposer>)
    requires Legal(ps)
    ensures TalliesExact(ps)
  {
    hide ByAddress, TotalPower, Deltas, PowersAt, Sum, Addresses, BeforeLast, Delta, ValidChanges;
    PowersBounded(ps);
    forall ds | DistinctAddresses(ds) && Addresses(ds) <= ByAddress(ps).Keys
      ensures InInt64(Sum(PowersAt(ByAddress(ps), ds)))
    {
      RemovedFits(ps, ds);
    }
    forall us, removed | NextUpdate(ps, us, removed)
      ensures InInt64(BeforeLast(ps, us, removed) + Delta(ByAddress(ps), us[|us| - 1]))
    {
      UpdatedTallyFits(ps, us, removed);
    }
  }

  lemma SelectedAreMembers(m: map<Address, Proposer>, ch: map<Address, Proposer>, d: seq<Proposer>)
    requires RemovesOnlyMembers(m, ch) && Addresses(d) == Select(ch, true).Keys
    ensures Addresses(d) <= m.Keys
  {
  }

  /** The total before removals stays below twice the cap, so the starting priority of newcomers fits an int64. */
  lemma NewcomerBounds(ps: seq<Proposer>, changes: seq<Proposer>, allowDeletes: bool)
    requires Legal(ps) && Acceptable(ps, changes, allowDeletes)
    ensures 0 <= TotalOf(Overridden(ByAddress(ps), ByAddress(changes))) <= 2 * MAX_TOTAL_VOTING_POWER
    ensures -3 * MAX_TOTAL_VOTING_POWER <= Newcomer(ps, changes) <= 0
  {
    hide ByAddress, TotalOf, Changed, AddressSorted;
    var cs := SortedChanges(changes);
    TotalsFromDeltas(ps, changes, cs, 0);
    LossIsBounded(ps, changes, cs);
    ListNonNegative(ps);
    ListNonNegative(changes);
    OverriddenNonNegative(ByAddress(ps), ByAddress(changes));
    TotalOfNonNegative(Overridden(ByAddress(ps), ByAddress(changes)));
  }

  lemma OverriddenNonNegative(m: map<Address, Proposer>, ch: map<Address, Proposer>)
    requires NonNegative(m) && NonNegative(ch)
    ensures NonNegative(Overridden(m, ch))
  {
  }

  lemma ChangedPowersSame(m: map<Address, Proposer>, ch: map<Address, Proposer>, p: Int64, q: Int64)
    ensures TotalOf(Changed(m, ch, p)) == TotalOf(Changed(m, ch, q))
    ensures Changed(m, ch, p).Keys == Changed(m, ch, q).Keys
  {
    assert PowerMap(Changed(m, ch, p)) == PowerMap(Changed(m, ch, q));
  }

  /** The entries of the changed map come from the old set, the updates, or start as newcomers. */
  lemma ChangedEntries(ps: seq<Proposer>, changes: seq<Proposer>, newcomer: Int64, bound: int, a: Address)
    requires DistinctAddresses(ps) && DistinctAddresses(changes) && bound >= 0
    requires AllPositive(ps) && ValidChanges(changes) && Within(ps, -bound, bound) && -bound <= newcomer <= bound
    requires a in Changed(ByAddress(ps), ByAddress(changes), newcomer)
    ensures var p := Changed(ByAddress(ps), ByAddress(changes), newcomer)[a];
      p.votingPower >= 1 && -bound <= p.priority <= bound
  {
  }

  /** The merged list is a legal set with the total of the changed map. */
  lemma MergedIsUsable(ps: seq<Proposer>, changes: seq<Proposer>, allowDeletes: bool, merged: seq<Proposer>)
    requires Legal(ps) && Acceptable(ps, changes, allowDeletes) && Merges(ps, changes, merged)
    ensures TotalPower(merged) == TotalOf(Changed(ByAddress(ps), ByAddress(changes), 0))
    ensures |merged| > 0 && Legal(merged) && 0 <= TotalPower(merged)
    ensures AllPositive(ps) ==> InUse(merged) && AllPositive(merged)
  {
    hide ByAddress, TotalOf, Changed, AddressSorted, TotalPower, MaxPriority, MinPriority;
    var prio := Newcomer(ps, changes);
    ChangedPowersSame(ByAddress(ps), ByAddress(changes), prio, 0);
    TotalOfList(merged);
    forall i | 0 <= i < |merged|
      ensures merged[i].votingPower >= 0 && (AllPositive(ps) ==> merged[i].votingPower >= 1)
    {
      InByAddress(merged, merged[i]);
      ChangedPositive(ps, changes, prio, merged[i].address);
    }
    NonEmptyList(merged);
    PowersBounded(merged);
    if AllPositive(ps) { PositiveTotal(merged); }
  }

  lemma ChangedPositive(ps: seq<Proposer>, changes: seq<Proposer>, newcomer: Int64, a: Address)
    requires Legal(ps) && DistinctAddresses(changes) && ValidChanges(changes)
    requires a in Changed(ByAddress(ps), ByAddress(changes), newcomer)
    ensures var p := Changed(ByAddress(ps), ByAddress(changes), newcomer)[a];
      p.votingPower >= 0 && (AllPositive(ps) ==> p.votingPower >= 1)
  {
    hide TotalPower;
  }

  /** Priorities within three times the cap: the overflow guard of the rescaling holds on the merged list. */
  lemma MergedIsExact(ps: seq<Proposer>, changes: seq<Proposer>, allowDeletes: bool, merged: seq<Proposer>)
    requires Legal(ps) && AllPositive(ps) && Acceptable(ps, changes, allowDeletes) && Merges(ps, changes, merged)
    requires Within(ps, -3 * MAX_TOTAL_VOTING_POWER, 3 * MAX_TOTAL_VOTING_POWER)
    ensures InUse(merged) && RescaleExact(merged, Window(merged))
  {
    hide ByAddress, TotalOf, Changed, AddressSorted, TotalPower, MaxPriority, MinPriority;
    MergedIsUsable(ps, changes, allowDeletes, merged);
    NewcomerBounds(ps, changes, allowDeletes);
    forall i | 0 <= i < |merged|
      ensures -3 * MAX_TOTAL_VOTING_POWER <= merged[i].priority <= 3 * MAX_TOTAL_VOTING_POWER
    {
      InByAddress(merged, merged[i]);
      ChangedEntries(ps, changes, Newcomer(ps, changes), 3 * MAX_TOTAL_VOTING_POWER, merged[i].address);
    }
    WithinIsExact(merged);
  }

  lemma NonEmptyList(ps: seq<Proposer>)
    requires DistinctAddresses(ps)
    ensures ByAddress(ps) != map[] <==> |ps| > 0
  {
    if |ps| > 0 { InByAddress(ps, ps[0]); }
  }

  lemma PositiveTotal(ps: seq<Proposer>)
    requires |ps| > 0 && AllPositive(ps)
    ensures TotalPower(ps) > 0
  {
    SumAtLeast(Powers(ps), 1);
  }

  // ---- from the normalized list to its rearrangement

  lemma RearrangedSums(s: seq<Proposer>, t: seq<Proposer>)
    requires multiset(s) == multiset(t)
    ensures |s| == |t| && TotalPower(s) == TotalPower(t) && Sum(Priorities(s)) == Sum(Priorities(t))
  {
    assert |s| == |multiset(s)| == |t|;
    var power, priority := (p: Proposer) => p.votingPower as int, (p: Proposer) => p.priority as int;
    SumPermutation(power, s, t);
    SumPermutation(priority, s, t);
    assert Powers(s) == Image(power, s) && Powers(t) == Image(power, t);
    assert Priorities(s) == Image(priority, s) && Priorities(t) == Image(priority, t);
  }

  lemma Rearranged(s: seq<Proposer>, t: seq<Proposer>, d: int)
    requires multiset(s) == multiset(t) && Legal(s)
    ensures |t| == |s| && Legal(t) && TotalPower(t) == TotalPower(s) && (AllPositive(s) ==> AllPositive(t))
    ensures Centred(s) && SpreadWithin(s, d) ==> Centred(t) && SpreadWithin(t, d)
  {
    hide TotalPower, Sum, Priorities;
    RearrangedSums(s, t);
    DistinctPermutation(s, t);
    forall i | 0 <= i < |t| ensures t[i] in s {
      assert t[i] in multiset(s);
    }
  }

  ghost function Unprioritized(m: map<Address, Proposer>): map<Address, Proposer> {
    map a | a in m :: m[a].(priority := 0)
  }

  lemma SameShapeMaps(ps: seq<Proposer>, qs: seq<Proposer>)
    requires SameShape(ps, qs) && DistinctAddresses(ps) && DistinctAddresses(qs)
    ensures Unprioritized(ByAddress(ps)) == Unprioritized(ByAddress(qs))
  {
    var l, r := ByAddress(ps), ByAddress(qs);
    forall i | 0 <= i < |ps| ensures ps[i].address in r && r[ps[i].address] == ps[i].(priority := qs[i].priority) {
      InByAddress(qs, qs[i]);
    }
    forall i | 0 <= i < |qs| ensures qs[i].address in l {
      InByAddress(ps, ps[i]);
      assert qs[i].address == ps[i].address;
    }
  }

  lemma ChangedUnprioritized(m: map<Address, Proposer>, ch: map<Address, Proposer>, p: Int64, q: Int64)
    ensures Unprioritized(Changed(m, ch, p)) == Unprioritized(Changed(m, ch, q))
  {
  }

  /** The order of the list: from the highest power down, equal powers by address. */
  ghost predicate HighestFirst(ps: seq<Proposer>) {
    forall i, j :: 0 <= i < j < |ps| ==>
      || ps[i].votingPower > ps[j].votingPower
      || (ps[i].votingPower == ps[j].votingPower && Less(ps[i].address, ps[j].address))
  }

  lemma PowerSortedHighestFirst(ps: seq<Proposer>)
    requires PowerSorted(ps)
    ensures HighestFirst(ps)
  {
    hide Less;
    forall i, j | 0 <= i < j < |ps|
      ensures ps[i].votingPower > ps[j].votingPower
              || (ps[i].votingPower == ps[j].votingPower && Less(ps[i].address, ps[j].address))
    {
      assert PowerLess(ps[i], ps[j]);
    }
  }

  /**
   * The refinement theorem of updateWithChangeSet: keys and powers are the changed map's and the total is its total,
   * whatever the old priorities.
   */
  lemma UpdateEffects(ps: seq<Proposer>, changes: seq<Proposer>, allowDeletes: bool, res: seq<Proposer>)
    requires Legal(ps) && Acceptable(ps, changes, allowDeletes) && Updates(ps, changes, res)
    ensures |res| > 0 && Legal(res) && PowerSorted(res) && HighestFirst(res)
    ensures AllPositive(ps) ==> InUse(res) && AllPositive(res)
    ensures Unprioritized(ByAddress(res)) == Unprioritized(Changed(ByAddress(ps), ByAddress(changes), 0))
    ensures TotalPower(res) == TotalOf(Changed(ByAddress(ps), ByAddress(changes), 0))
  {
    hide ByAddress, TotalOf, Changed, AddressSorted, TotalPower, Sum, Priorities, Normalize, Rescalable, RescaleExact,
         Unprioritized, Newcomer, PowerSorted, HighestFirst;
    var merged :| UpdatesVia(ps, changes, merged, res);
    MergedIsUsable(ps, changes, allowDeletes, merged);
    NormalizeShape(merged);
    SameShapePowers(merged, Normalize(merged));
    Rearranged(Normalize(merged), res, Window(merged));
    PowerSortedHighestFirst(res);
    SameShapeMaps(merged, Normalize(merged));
    ByAddressPermutation(Normalize(merged), res);
    ChangedUnprioritized(ByAddress(ps), ByAddress(changes), Newcomer(ps, changes), 0);
  }

  /** The arithmetic inside an update, from the tallies of the checks over the merge to the centring, is exact. */
  ghost predicate UpdateExact(ps: seq<Proposer>, changes: seq<Proposer>)
    requires DistinctAddresses(ps) && DistinctAddresses(changes)
  {
    && TalliesExact(ps)
    && InInt64(TotalOf(Overridden(ByAddress(ps), ByAddress(changes))))
    && InInt64(Newcomer(ps, changes))
    && forall merged :: Merges(ps, changes, merged) ==>
         && InUse(merged)
         && RescaleExact(merged, Window(merged)) && Rescalable(merged, Window(merged))
         && ShiftExact(Rescale(merged, Window(merged)))
  }

  lemma UpdatesAreExact(ps: seq<Proposer>, changes: seq<Proposer>, allowDeletes: bool)
    requires Legal(ps) && AllPositive(ps) && Acceptable(ps, changes, allowDeletes)
    requires Within(ps, -3 * MAX_TOTAL_VOTING_POWER, 3 * MAX_TOTAL_VOTING_POWER)
    ensures UpdateExact(ps, changes)
  {
    hide Merges, Normalize, RescaleExact, TotalPower, Changed, TotalOf, ByAddress, TalliesExact;
    TalliesAreExact(ps);
    NewcomerBounds(ps, changes, allowDeletes);
    forall merged | Merges(ps, changes, merged)
      ensures InUse(merged) && RescaleExact(merged, Window(merged)) && Rescalable(merged, Window(merged))
      ensures ShiftExact(Rescale(merged, Window(merged)))
    {
      MergedIsExact(ps, changes, allowDeletes, merged);
      NormalizeFits(merged);
    }
  }

  /** After an update whose arithmetic is exact the priorities are centred within the window of the new total. */
  lemma UpdateCentres(ps: seq<Proposer>, changes: seq<Proposer>, res: seq<Proposer>)
    requires DistinctAddresses(ps) && DistinctAddresses(changes) && UpdateExact(ps, changes)
    requires Updates(ps, changes, res)
    ensures InUse(res) && Centred(res) && SpreadWithin(res, Window(res)) && Within(res, -Window(res), Window(res))
  {
    hide ByAddress, TotalOf, Changed, AddressSorted, TotalPower, Sum, Priorities, Normalize, Rescalable, RescaleExact,
         Newcomer, PowerSorted, TalliesExact, Overridden, ShiftExact, Merges;
    var merged :| UpdatesVia(ps, changes, merged, res);
    NormalizeFits(merged);
    NormalizeShape(merged);
    SameShapePowers(merged, Normalize(merged));
    Rearranged(Normalize(merged), res, Window(merged));
    CentredBounds(res, Window(merged));
  }
}
