/** The mutable validator set, each method proved against the list functions. */
module ProposerSets {
  import opened Int64
  import opened Bytes
  import opened Sums
  import opened Sorting
  import opened Options
  import opened Proposers
  import opened Scheduler
  import opened Fairness
  import opened ChangeSets
  import opened Merging
  import opened ChangePipeline
  import opened ChangeEffects
  import opened Memberships
  import opened Runs

  datatype ChangeError =
    | DuplicateEntry
    | NegativePower
    | PowerTooHigh
    | DeletesNotAllowed
    | EmptyResult
    | UnknownRemoval
    | TotalTooHigh

  /** The change in the total that one update brings. */
  function DeltaIn(ps: seq<Proposer>, u: Proposer): int {
    var i := IndexOf(ps, u.address);
    u.votingPower - if i >= 0 then ps[i].votingPower else 0
  }

  lemma DeltaInIsDelta(ps: seq<Proposer>, us: seq<Proposer>)
    requires DistinctAddresses(ps)
    ensures Image(u => DeltaIn(ps, u), us) == Deltas(ByAddress(ps), us)
  {
    hide ByAddress, IndexOf;
    forall i | 0 <= i < |us| ensures DeltaIn(ps, us[i]) == Delta(ByAddress(ps), us[i]) {
      IndexInMap(ps, us[i].address);
    }
  }

  /** In an ascending list a running sum that has passed the cap stays above it. */
  lemma PastTheCap(start: int, ds: seq<int>, i: nat, cap: int)
    requires i < |ds| && forall j, k :: 0 <= j < k < |ds| ==> ds[j] <= ds[k]
    requires start + Sum(ds[..i]) <= cap < start + Sum(ds[..i + 1])
    ensures start + Sum(ds) > cap
  {
    SumPrefix(ds, i);
    assert ds == ds[..i + 1] + ds[i + 1..];
    SumConcat(ds[..i + 1], ds[i + 1..]);
    var rest := ds[i + 1..];
    forall j | 0 <= j < |rest| ensures 0 <= rest[j] {
      assert ds[i] <= ds[i + 1 + j];
    }
    SumAtLeast(rest, 0);
  }

  lemma PrefixAtMost(s: seq<int>, i: nat)
    requires i <= |s| && forall j :: 0 <= j < |s| ==> 0 <= s[j]
    ensures 0 <= Sum(s[..i]) <= Sum(s)
  {
    assert s == s[..i] + s[i..];
    SumConcat(s[..i], s[i..]);
    SumAtLeast(s[..i], 0);
    SumAtLeast(s[i..], 0);
  }

  lemma PartAppend(cs: seq<Proposer>, i: nat, removing: bool)
    requires i < |cs|
    ensures Part(cs[..i + 1], removing)
            == Part(cs[..i], removing) + if (cs[i].votingPower == 0) == removing then [cs[i]] else []
  {
    assert cs[..i + 1][..i] == cs[..i];
  }

  lemma NothingSplit(cs: seq<Proposer>)
    requires |cs| == 0
    ensures Part(cs, false) == [] && Part(cs, true) == []
  {
  }

  lemma PermutedChanges(us: seq<Proposer>, vs: seq<Proposer>)
    requires multiset(us) == multiset(vs) && ValidChanges(us)
    ensures ValidChanges(vs)
  {
    DistinctPermutation(us, vs);
    forall i | 0 <= i < |vs| ensures vs[i] in us {
      assert vs[i] in multiset(us);
    }
  }

  /** The sum after one more update, as the loop of verifyUpdates computes it. */
  lemma NextTallyFits(ps: seq<Proposer>, us: seq<Proposer>, i: nat, removed: int, tally: int)
    requires Legal(ps) && ValidChanges(us) && i < |us| && 0 <= removed <= TotalPower(ps)
    requires tally == TotalPower(ps) - removed + Sum(Deltas(ByAddress(ps), us)[..i]) <= MAX_TOTAL_VOTING_POWER
    ensures InInt64(DeltaIn(ps, us[i])) && InInt64(tally + DeltaIn(ps, us[i]))
  {
    hide ByAddress, TotalPower, IndexOf;
    var front := us[..i + 1];
    assert Deltas(ByAddress(ps), front[..i]) == Deltas(ByAddress(ps), us)[..i];
    UpdatedTallyFits(ps, front, removed);
    DeltaBounds(ps, us[i]);
    IndexInMap(ps, us[i].address);
  }

  /** Distinct members are no more than all of them. */
  lemma MembersCount(ps: seq<Proposer>, ds: seq<Proposer>)
    requires DistinctAddresses(ps) && DistinctAddresses(ds)
    requires forall i :: 0 <= i < |ds| ==> ds[i].address in ByAddress(ps)
    ensures |ds| <= |ps|
  {
    hide ByAddress;
    AddressCount(ps);
    AddressCount(ds);
    AddressesAreKeys(ds);
    SubsetSize(ByAddress(ds).Keys, ByAddress(ps).Keys);
  }

  lemma {:induction false} SubsetSize<T>(a: set<T>, b: set<T>)
    requires a <= b
    ensures |a| <= |b|
  {
    if x :| x in a { SubsetSize(a - {x}, b - {x}); }
  }

  /** processChanges: copies, sorts by address, scans once and splits. */
  method ProcessChanges(changes: seq<Proposer>)
    returns (updates: seq<Proposer>, removals: seq<Proposer>, err: Option<ChangeError>, ghost cs: seq<Proposer>)
    ensures err.None? <==> ValidChanges(changes)
    ensures err.None? ==> AddressSorted(cs) && multiset(cs) == multiset(changes)
                          && updates == Part(cs, false) && removals == Part(cs, true)
    ensures err.Some? ==> match err.value
              case NegativePower => exists i :: 0 <= i < |changes| && changes[i].votingPower < 0
              case PowerTooHigh => exists i :: 0 <= i < |changes| && changes[i].votingPower > MAX_TOTAL_VOTING_POWER
              case DuplicateEntry => !DistinctAddresses(changes)
                                     || exists i :: 0 <= i < |changes| && changes[i].address == []
              case _ => false
  {
    hide Less, Part;
    OrdersArePreorders();
    var sorted := Sort(changes, AddressLess);
    NothingSplit(sorted[..0]);
    cs := sorted;
    updates, removals := [], [];
    err := None;
    var prevAddr: Address := [];
    for i := 0 to |sorted|
      invariant err == None && cs == sorted
      invariant prevAddr == if i == 0 then [] else sorted[i - 1].address
      invariant forall j :: 0 <= j < i ==> sorted[j].address != []
      invariant forall j :: 0 <= j < i ==> 0 <= sorted[j].votingPower <= MAX_TOTAL_VOTING_POWER
      invariant forall j, k :: 0 <= j < k < i ==> AddressLess(sorted[j], sorted[k])
      invariant updates == Part(sorted[..i], false) && removals == Part(sorted[..i], true)
    {
      var change := sorted[i];
      assert change in multiset(changes);
      if change.address == prevAddr {
        DuplicateFound(sorted, changes, i);
        err := Some(DuplicateEntry);
        return;
      }
      StillStrict(sorted, i);
      if change.votingPower < 0 {
        err := Some(NegativePower);
        return;
      } else if change.votingPower > MAX_TOTAL_VOTING_POWER {
        err := Some(PowerTooHigh);
        return;
      } else if change.votingPower == 0 {
        removals := removals + [change];
      } else {
        updates := updates + [change];
      }
      PartAppend(sorted, i, false);
      PartAppend(sorted, i, true);
      prevAddr := change.address;
    }
    assert sorted[..|sorted|] == sorted;
    AddressSortedDistinct(sorted);
    DistinctPermutation(sorted, changes);
    forall i | 0 <= i < |changes| ensures changes[i] in sorted {
      assert changes[i] in multiset(sorted);
    }
  }

  lemma DuplicateFound(sorted: seq<Proposer>, changes: seq<Proposer>, i: nat)
    requires multiset(sorted) == multiset(changes) && i < |sorted|
    requires sorted[i].address == if i == 0 then [] else sorted[i - 1].address
    ensures !DistinctAddresses(changes) || exists j :: 0 <= j < |changes| && changes[j].address == []
  {
    if i == 0 {
      assert sorted[0] in multiset(changes);
    } else {
      assert !DistinctAddresses(sorted);
      if DistinctAddresses(changes) { DistinctPermutation(changes, sorted); }
    }
  }

  lemma LessNonEmpty(a: Address, b: Address)
    ensures Less(a, b) ==> b != []
  {
  }

  lemma StillStrict(sorted: seq<Proposer>, i: nat)
    requires i < |sorted| && Ordered(AddressLess, sorted)
    requires forall j, k :: 0 <= j < k < i ==> AddressLess(sorted[j], sorted[k])
    requires i > 0 ==> sorted[i].address != sorted[i - 1].address
    ensures forall j, k :: 0 <= j < k < i + 1 ==> AddressLess(sorted[j], sorted[k])
    ensures i > 0 ==> sorted[i].address != []
  {
    hide Less;
    if i > 0 {
      LessTotal(sorted[i - 1].address, sorted[i].address);
      LessNonEmpty(sorted[i - 1].address, sorted[i].address);
      assert !AddressLess(sorted[i], sorted[i - 1]);
      forall j | 0 <= j < i ensures AddressLess(sorted[j], sorted[i]) {
        if j < i - 1 {
          assert AddressLess(sorted[j], sorted[i - 1]);
          LessTransitive(sorted[j].address, sorted[i - 1].address, sorted[i].address);
        }
      }
    }
  }

  lemma MaxMinAppend(ps: seq<Proposer>, i: nat)
    requires i < |ps|
    ensures var p, max, min := ps[i].priority, MaxPriority(ps[..i]), MinPriority(ps[..i]);
      && MaxPriority(ps[..i + 1]) == (if p > max then p else max)
      && MinPriority(ps[..i + 1]) == (if p < min then p else min)
  {
    assert ps[..i + 1][..i] == ps[..i];
  }

  lemma PowersAtNothing(m: map<Address, Proposer>, rs: seq<Proposer>)
    requires |rs| == 0
    ensures Sum(PowersAt(m, rs)) == 0
  {
  }

  lemma PowersAtAppend(m: map<Address, Proposer>, rs: seq<Proposer>, i: nat)
    requires i < |rs|
    ensures Sum(PowersAt(m, rs[..i + 1])) == Sum(PowersAt(m, rs[..i])) + PowerAt(m, rs[i].address)
  {
    assert PowersAt(m, rs[..i + 1]) == PowersAt(m, rs[..i]) + [PowerAt(m, rs[i].address)];
    SumAppend(PowersAt(m, rs[..i]), PowerAt(m, rs[i].address));
  }

  lemma MostestAppend(ps: seq<Proposer>, i: nat)
    requires i < |ps|
    ensures Mostest(ps[..i + 1])
            == if i > 0 && Beats(ps[Mostest(ps[..i])], ps[i]) then Mostest(ps[..i]) else i
  {
    assert ps[..i + 1][..i] == ps[..i];
  }

  lemma CompareIsBeats(v: Proposer, other: Proposer)
    requires v.address != other.address
    ensures CompareProposerPriority(v, other) == v <==> Beats(v, other)
  {
  }

  lemma CallPanics(ps: seq<Proposer>, times: int)
    requires 0 <= TotalPower(ps) <= MAX_TOTAL_VOTING_POWER
    ensures Call(ps, times) == Panic <==> |ps| == 0 || times <= 0
  {
    hide IncrementPriorities;
  }

  lemma NoPriorities(ps: seq<Proposer>)
    requires |ps| == 0
    ensures MaxPriority(ps) == MIN_INT64 && MinPriority(ps) == MAX_INT64
  {
  }

  // ---- which error

  ghost function RemovedAddresses(changes: seq<Proposer>): set<Address> {
    set i | 0 <= i < |changes| && changes[i].votingPower == 0 :: changes[i].address
  }

  /** The test for an empty result: nobody is added, and as many addresses are removed as there are members. */
  ghost predicate LooksEmpty(ps: seq<Proposer>, changes: seq<Proposer>) {
    && (forall i :: 0 <= i < |changes| && changes[i].votingPower != 0 ==> Named(ps, changes[i].address))
    && |RemovedAddresses(changes)| == |ps|
  }

  /** The first check that fails. */
  ghost predicate Reports(ps: seq<Proposer>, changes: seq<Proposer>, allowDeletes: bool, err: ChangeError)
    requires DistinctAddresses(ps)
  {
    match err
    case NegativePower => exists i :: 0 <= i < |changes| && changes[i].votingPower < 0
    case PowerTooHigh => exists i :: 0 <= i < |changes| && changes[i].votingPower > MAX_TOTAL_VOTING_POWER
    case DuplicateEntry => !DistinctAddresses(changes) || exists i :: 0 <= i < |changes| && changes[i].address == []
    case DeletesNotAllowed =>
      ValidChanges(changes) && !allowDeletes && exists i :: 0 <= i < |changes| && changes[i].votingPower == 0
    case EmptyResult =>
      && ValidChanges(changes) && LooksEmpty(ps, changes)
      && (allowDeletes || forall i :: 0 <= i < |changes| ==> changes[i].votingPower != 0)
    case UnknownRemoval =>
      && ValidChanges(changes) && allowDeletes && !LooksEmpty(ps, changes)
      && exists i :: 0 <= i < |changes| && changes[i].votingPower == 0 && !Named(ps, changes[i].address)
    case TotalTooHigh =>
      && ValidChanges(changes) && !LooksEmpty(ps, changes)
      && (forall i :: 0 <= i < |changes| && changes[i].votingPower == 0 ==>
            allowDeletes && Named(ps, changes[i].address))
      && TotalPower(ps) + Sum(Gains(ps, changes)) - Sum(Losses(ps, changes)) > MAX_TOTAL_VOTING_POWER
  }

  lemma LooksEmptyExactly(ps: seq<Proposer>, changes: seq<Proposer>, cs: seq<Proposer>)
    requires DistinctAddresses(ps) && DistinctAddresses(changes)
    requires AddressSorted(cs) && multiset(cs) == multiset(changes)
    ensures LooksEmpty(ps, changes) <==>
      && (forall i :: 0 <= i < |Part(cs, false)| ==> IndexOf(ps, Part(cs, false)[i].address) >= 0)
      && |ps| == |Part(cs, true)|
  {
    hide ByAddress, Part, AddressSorted, IndexOf, Named;
    ByAddressPermutation(changes, cs);
    PartByAddress(cs, true);
    AddressCount(Part(cs, true));
    AddressesAreKeys(Part(cs, true));
    UpdatesKnown(ps, changes, cs);
    var ch := ByAddress(changes);
    forall i | 0 <= i < |changes|
      ensures changes[i].address in ch && ch[changes[i].address] == changes[i]
      ensures Named(ps, changes[i].address) <==> changes[i].address in ByAddress(ps)
    {
      InByAddress(changes, changes[i]);
      NamedInMap(ps, changes[i].address);
    }
    forall a | a in ch ensures exists i :: 0 <= i < |changes| && changes[i] == ch[a] && changes[i].address == a {
      ByAddressKey(changes, a);
      InByAddress(changes, ch[a]);
    }
    assert RemovedAddresses(changes) == Select(ch, true).Keys;
  }

  class ProposerSet {
    var proposers: seq<Proposer>
    var proposer: Option<Proposer>
    var totalVotingPower: Int64

    ghost predicate Valid()
      reads this
    {
      && Legal(proposers)
      && (totalVotingPower == 0 || totalVotingPower == TotalPower(proposers))
    }

    /** Every index and every panic inside is out of reach under the stated conditions. */
    method UpdateTotalVotingPower()
      requires Legal(proposers)
      modifies `totalVotingPower
      ensures totalVotingPower == TotalPower(proposers)
    {
      var sum: Int64 := 0;
      for i := 0 to |proposers|
        invariant sum == Sum(Powers(proposers)[..i])
      {
        SumPrefix(Powers(proposers), i);
        PrefixAtMost(Powers(proposers), i + 1);
        sum := SafeAddClip(sum, proposers[i].votingPower);
        if sum > MAX_TOTAL_VOTING_POWER {
          assert false;
        }
      }
      assert Powers(proposers)[..|proposers|] == Powers(proposers);
      totalVotingPower := sum;
    }

    method TotalVotingPower() returns (total: Int64)
      requires Legal(proposers) && (totalVotingPower == 0 || totalVotingPower == TotalPower(proposers))
      modifies `totalVotingPower
      ensures total == totalVotingPower == TotalPower(proposers)
    {
      if totalVotingPower == 0 {
        UpdateTotalVotingPower();
      }
      PowersBounded(proposers);
      total := totalVotingPower;
    }

    method GetByAddress(address: Address) returns (index: int, found: Option<Proposer>)
      ensures index == IndexOf(proposers, address)
      ensures found == if index >= 0 then Some(proposers[index]) else None
    {
      for i := 0 to |proposers|
        invariant forall j :: 0 <= j < i ==> proposers[j].address != address
      {
        if proposers[i].address == address {
          return i, Some(proposers[i]);
        }
      }
      return -1, None;
    }

    // ---- priorities

    method ComputeMaxMinPriorityDiff() returns (diff: Int64)
      requires |proposers| > 0
      ensures diff == PriorityDiff(proposers)
    {
      hide MaxPriority, MinPriority;
      var max: Int64, min: Int64 := MIN_INT64, MAX_INT64;
      NoPriorities(proposers[..0]);
      for i := 0 to |proposers|
        invariant max == MaxPriority(proposers[..i]) && min == MinPriority(proposers[..i])
      {
        MaxMinAppend(proposers, i);
        if proposers[i].priority < min {
          min := proposers[i].priority;
        }
        if proposers[i].priority > max {
          max := proposers[i].priority;
        }
      }
      assert proposers[..|proposers|] == proposers;
      diff := Wrap64(max - min);
      if diff < 0 {
        diff := Wrap64(0 - diff);
      }
    }

    /** Panics on an empty set and on a division by zero, in both cases without having changed anything. */
    method RescalePriorities(diffMax: Int64) returns (panicked: bool)
      modifies `proposers
      ensures panicked <==> |old(proposers)| == 0 || ZeroRatioGuard(old(proposers), diffMax)
      ensures panicked ==> proposers == old(proposers)
      ensures Rescalable(old(proposers), diffMax) <==> !ZeroRatioGuard(old(proposers), diffMax)
      ensures !panicked ==> proposers == Rescale(old(proposers), diffMax)
      ensures diffMax <= 0 ==> proposers == old(proposers)
    {
      hide PriorityDiff, TruncDiv, Wrap64;
      ZeroDivisorExactly(proposers, diffMax);
      if |proposers| == 0 {
        return true;
      }
      if diffMax <= 0 {
        return false;
      }
      var diff := ComputeMaxMinPriorityDiff();
      var ratio := TruncDiv(Wrap64(diff + diffMax - 1), diffMax);
      if diff > diffMax {
        if ratio == 0 {
          return true;
        }
        for i := 0 to |proposers|
          invariant |proposers| == |old(proposers)|
          invariant forall j :: 0 <= j < i ==> proposers[j] == Rescale(old(proposers), diffMax)[j]
          invariant forall j :: i <= j < |proposers| ==> proposers[j] == old(proposers)[j]
        {
          var scaled := Wrap64(TruncDiv(proposers[i].priority, ratio));
          proposers := proposers[i := proposers[i].(priority := scaled)];
        }
      }
      return false;
    }

    method ComputeAvgProposerPriority() returns (avg: Int64)
      requires |proposers| > 0
      ensures avg == Average(proposers)
    {
      var sum := 0;
      for i := 0 to |proposers|
        invariant sum == Sum(Priorities(proposers)[..i])
      {
        SumPrefix(Priorities(proposers), i);
        sum := sum + proposers[i].priority;
      }
      assert Priorities(proposers)[..|proposers|] == Priorities(proposers);
      AverageBetween(proposers, MIN_INT64, MAX_INT64);
      avg := sum / |proposers|;
    }

    method ShiftByAvgProposerPriority()
      requires |proposers| > 0
      modifies `proposers
      ensures proposers == Shift(old(proposers))
    {
      var avg := ComputeAvgProposerPriority();
      for i := 0 to |proposers|
        invariant |proposers| == |old(proposers)|
        invariant forall j :: 0 <= j < i ==> proposers[j] == Shift(old(proposers))[j]
        invariant forall j :: i <= j < |proposers| ==> proposers[j] == old(proposers)[j]
      {
        proposers := proposers[i := proposers[i].(priority := SafeSubClip(proposers[i].priority, avg))];
      }
    }

    method GetValWithMostPriority() returns (best: nat)
      requires |proposers| > 0 && DistinctAddresses(proposers)
      ensures best == Mostest(proposers)
    {
      hide Mostest;
      best := 0;
      for i := 0 to |proposers|
        invariant best < |proposers| && best == if i == 0 then 0 else Mostest(proposers[..i])
      {
        MostestAppend(proposers, i);
        if i > 0 {
          CompareIsBeats(proposers[best], proposers[i]);
          if CompareProposerPriority(proposers[best], proposers[i]) != proposers[best] {
            best := i;
          }
        }
      }
      assert proposers[..|proposers|] == proposers;
    }

    method IncrementOncePriority() returns (mostest: nat)
      requires |proposers| > 0 && Legal(proposers) && totalVotingPower == TotalPower(proposers)
      modifies `proposers, `totalVotingPower
      ensures proposers == IncrementOnce(old(proposers), old(totalVotingPower))
      ensures mostest == Elect(old(proposers)) && totalVotingPower == old(totalVotingPower)
    {
      PowersBounded(proposers);
      for i := 0 to |proposers|
        invariant |proposers| == |old(proposers)| && totalVotingPower == old(totalVotingPower)
        invariant forall j :: 0 <= j < i ==> proposers[j] == Accrue(old(proposers))[j]
        invariant forall j :: i <= j < |proposers| ==> proposers[j] == old(proposers)[j]
      {
        var newPrio := SafeAddClip(proposers[i].priority, proposers[i].votingPower);
        proposers := proposers[i := proposers[i].(priority := newPrio)];
      }
      assert proposers == Accrue(old(proposers));
      assert SameShape(old(proposers), proposers);
      SameShapePowers(old(proposers), proposers);
      mostest := GetValWithMostPriority();
      var total := TotalVotingPower();
      var paid := SafeSubClip(proposers[mostest].priority, total);
      proposers := proposers[mostest := proposers[mostest].(priority := paid)];
    }

    /** Panics on an empty set and on times <= 0; otherwise rescales, centres and makes `times` passes. */
    method IncrementProposerPriority(times: int) returns (panicked: bool)
      requires Valid()
      modifies this
      ensures Valid()
      ensures panicked <==> |old(proposers)| == 0 || times <= 0
      ensures panicked <==> Call(old(proposers), times) == Panic
      ensures panicked ==> proposers == old(proposers) && proposer == old(proposer)
      ensures !panicked ==>
        && Call(old(proposers), times) == Done(proposers)
        && 0 <= Selected(old(proposers), times) < |proposers|
        && proposer == Some(proposers[Selected(old(proposers), times)])
    {
      hide TotalPower, Call, Selected, DistinctAddresses, IncrementPriorities, Rescalable;
      PowersBounded(proposers);
      CallPanics(proposers, times);
      if |proposers| == 0 || times <= 0 {
        return true;
      }
      MakePasses(times);
      return false;
    }

    method MakePasses(times: int)
      requires Valid() && |proposers| > 0 && times > 0
      modifies this
      ensures Valid() && Call(old(proposers), times) == Done(proposers)
      ensures 0 <= Selected(old(proposers), times) < |proposers|
      ensures proposer == Some(proposers[Selected(old(proposers), times)])
    {
      hide IncrementOnce, Elect, TotalPower, SameShape, Rescale, Shift, Rescalable, DistinctAddresses, ZeroRatioGuard;
      ghost var before := proposers;
      PowersBounded(proposers);
      NeverZeroDivisor(proposers, Window(proposers));
      ZeroDivisorExactly(proposers, Window(proposers));
      var total := TotalVotingPower();
      var stuck := RescalePriorities(PRIORITY_WINDOW_SIZE_FACTOR * total);
      ShiftByAvgProposerPriority();
      assert proposers == Normalize(before);
      NormalizeShape(before);
      ghost var start := proposers;
      SameShapePowers(before, start);
      var mostest := 0;
      for i := 0 to times
        invariant proposers == After(start, total, i) && mostest < |proposers|
        invariant Legal(proposers) && totalVotingPower == total == TotalPower(proposers)
        invariant i > 0 ==> mostest == Elect(After(start, total, i - 1))
      {
        ghost var now := proposers;
        IncrementOnceShape(now, total);
        SameShapePowers(now, IncrementOnce(now, total));
        mostest := IncrementOncePriority();
      }
      proposer := Some(proposers[mostest]);
    }

    // ---- change sets

    method NumNewValidators(updates: seq<Proposer>) returns (n: nat)
      ensures n == 0 <==> forall i :: 0 <= i < |updates| ==> IndexOf(proposers, updates[i].address) >= 0
    {
      n := 0;
      for i := 0 to |updates|
        invariant n == 0 <==> forall j :: 0 <= j < i ==> IndexOf(proposers, updates[j].address) >= 0
      {
        var _, found := GetByAddress(updates[i].address);
        if found.None? {
          n := n + 1;
        }
      }
    }

    /** Expects what processChanges lets through; the panic on more deletions than members is a dead branch. */
    method VerifyRemovals(deletes: seq<Proposer>) returns (power: Int64, ok: bool)
      requires Legal(proposers) && DistinctAddresses(deletes)
      ensures ok <==> forall i :: 0 <= i < |deletes| ==> deletes[i].address in ByAddress(proposers)
      ensures ok ==> power == Sum(PowersAt(ByAddress(proposers), deletes))
    {
      hide ByAddress, IndexOf, PowersAt, Sum, TotalPower;
      ghost var m := ByAddress(proposers);
      power := 0;
      PowersBounded(proposers);
      PowersAtNothing(m, deletes[..0]);
      for i := 0 to |deletes|
        invariant forall j :: 0 <= j < i ==> deletes[j].address in m
        invariant power == Sum(PowersAt(m, deletes[..i]))
      {
        IndexInMap(proposers, deletes[i].address);
        PowersAtAppend(m, deletes, i);
        var _, found := GetByAddress(deletes[i].address);
        if found.None? {
          return power, false;
        }
        RemovedFits(proposers, deletes[..i + 1]);
        power := power + found.value.votingPower;
      }
      assert deletes[..|deletes|] == deletes;
      if |deletes| > |proposers| {
        MembersCount(proposers, deletes);
        assert false;
      }
      ok := true;
    }

    /**
     * The overflow test: the deltas are added in ascending order and the first sum above the cap is an
     * error, which happens exactly when the final total is above the cap. No sum on the way leaves int64.
     */
    method VerifyUpdates(updates: seq<Proposer>, removedPower: Int64) returns (tvp: Int64, ok: bool)
      requires Valid() && ValidChanges(updates) && 0 <= removedPower <= TotalPower(proposers)
      modifies `totalVotingPower
      ensures Valid()
      ensures ok <==> TotalPower(proposers) + Sum(Deltas(ByAddress(proposers), updates)) - removedPower
                      <= MAX_TOTAL_VOTING_POWER
      ensures ok ==> tvp == TotalPower(proposers) + Sum(Deltas(ByAddress(proposers), updates))
    {
      hide TotalPower;
      ghost var delta := (u: Proposer) => DeltaIn(old(proposers), u);
      var ps := proposers;
      var sorted := Sort(updates, (a: Proposer, b: Proposer) => DeltaIn(ps, a) < DeltaIn(ps, b));
      ghost var ds := Image(delta, sorted);
      SumPermutation(delta, sorted, updates);
      DeltaInIsDelta(ps, updates);
      DeltaInIsDelta(ps, sorted);
      PermutedChanges(updates, sorted);
      assert Image(delta, updates) == Deltas(ByAddress(ps), updates);
      assert ds == Deltas(ByAddress(ps), sorted);
      var total := TotalVotingPower();
      PowersBounded(ps);
      var tvpAfterRemovals: Int64 := total - removedPower;
      for i := 0 to |sorted|
        invariant proposers == ps && Valid()
        invariant tvpAfterRemovals == total - removedPower + Sum(ds[..i]) <= MAX_TOTAL_VOTING_POWER
      {
        SumPrefix(ds, i);
        NextTallyFits(ps, sorted, i, removedPower, tvpAfterRemovals);
        tvpAfterRemovals := tvpAfterRemovals + DeltaIn(ps, sorted[i]);
        if tvpAfterRemovals > MAX_TOTAL_VOTING_POWER {
          PastTheCap(total - removedPower, ds, i, MAX_TOTAL_VOTING_POWER);
          return 0, false;
        }
      }
      assert ds[..|sorted|] == ds;
      return tvpAfterRemovals + removedPower, true;
    }

    method ComputeNewPriorities(updates: seq<Proposer>, updatedTotal: int) returns (priced: seq<Proposer>)
      requires InInt64(NewcomerPriority(updatedTotal))
      ensures priced == Priced(updates, proposers, NewcomerPriority(updatedTotal))
      ensures SameShape(updates, priced)
      ensures forall i :: 0 <= i < |updates| && Named(proposers, updates[i].address) ==>
                exists j :: 0 <= j < |proposers| && proposers[j].address == updates[i].address
                            && priced[i].priority == proposers[j].priority
      ensures forall i :: 0 <= i < |updates| && !Named(proposers, updates[i].address) ==>
                9 * updatedTotal - 8 < -8 * priced[i].priority <= 9 * updatedTotal
    {
      PriceBounds(updatedTotal);
      priced := updates;
      for i := 0 to |updates|
        invariant |priced| == |updates|
        invariant forall j :: 0 <= j < i ==> priced[j] == Priced(updates, proposers, NewcomerPriority(updatedTotal))[j]
        invariant forall j :: i <= j < |updates| ==> priced[j] == updates[j]
      {
        var _, found := GetByAddress(priced[i].address);
        if found.None? {
          priced := priced[i := priced[i].(priority := NewcomerPriority(updatedTotal))];
        } else {
          priced := priced[i := priced[i].(priority := found.value.priority)];
        }
      }
    }

    /** Merges into a buffer of fixed capacity, which is never exceeded. */
    method ApplyUpdates(updates: seq<Proposer>) returns (ghost e: seq<Proposer>)
      requires DistinctAddresses(proposers) && AddressSorted(updates)
      modifies `proposers
      ensures AddressSorted(e) && multiset(e) == multiset(old(proposers))
      ensures proposers == Merge(e, updates)
    {
      hide Less, Merge;
      OrdersArePreorders();
      var existing := Sort(proposers, AddressLess);
      DistinctPermutation(proposers, existing);
      OrderedIsStrict(existing);
      e := existing;
      var us := updates;
      ghost var capacity := |existing| + |updates|;
      var merged := [];
      while |existing| > 0 && |us| > 0
        invariant merged + Merge(existing, us) == Merge(e, updates)
        invariant |merged| + |existing| + |us| <= capacity
        decreases |existing| + |us|
      {
        assert |merged| < capacity;
        MergeTurn(merged, existing, us);
        if Less(existing[0].address, us[0].address) {
          merged := merged + [existing[0]];
          existing := existing[1..];
        } else {
          merged := merged + [us[0]];
          if existing[0].address == us[0].address {
            existing := existing[1..];
          }
          us := us[1..];
        }
      }
      MergeRest(merged, existing, us);
      proposers := merged + existing + us;
    }

    /** Removes members from the address-sorted list; the scan never indexes an exhausted list. */
    method ApplyRemovals(deletes: seq<Proposer>)
      requires AddressSorted(proposers) && AddressSorted(deletes)
      requires MapOf(deletes).Keys <= MapOf(proposers).Keys
      modifies `proposers
      ensures proposers == Without(old(proposers), deletes)
    {
      var existing, ds := proposers, deletes;
      WithoutRemoves(existing, ds);
      ghost var capacity := |existing| - |ds|;
      var merged := [];
      while |ds| > 0
        invariant merged + Without(existing, ds) == Without(proposers, deletes)
        invariant AddressSorted(existing) && AddressSorted(ds) && MapOf(ds).Keys <= MapOf(existing).Keys
        invariant |merged| + |existing| - |ds| == capacity && proposers == old(proposers)
        decreases |existing|
      {
        WithoutRemoves(existing, ds);
        assert |existing| > 0;
        RemovalAhead(existing, ds);
        SortedTail(existing);
        SortedTail(ds);
        if existing[0].address == ds[0].address {
          ds := ds[1..];
        } else {
          WithoutRemoves(existing[1..], ds);
          assert |merged| < capacity;
          merged := merged + [existing[0]];
        }
        existing := existing[1..];
      }
      proposers := merged + existing;
    }

    /** The checks of updateWithChangeSet, none of which changes the set. */
    method CheckChanges(changes: seq<Proposer>, allowDeletes: bool)
      returns (updates: seq<Proposer>, deletes: seq<Proposer>, tvp: Int64, err: Option<ChangeError>,
               ghost cs: seq<Proposer>)
      requires Valid()
      modifies `totalVotingPower
      ensures Valid()
      ensures err.None? <==> Acceptable(proposers, changes, allowDeletes)
      ensures err.Some? ==> Reports(proposers, changes, allowDeletes, err.value)
      ensures err.None? ==>
                && AddressSorted(cs) && multiset(cs) == multiset(changes)
                && updates == Part(cs, false) && deletes == Part(cs, true)
                && tvp == TotalOf(Overridden(ByAddress(proposers), ByAddress(changes)))
    {
      hide ByAddress, TotalOf, Changed, Overridden, TotalPower, Part, AddressSorted, LooksEmpty, Gains, Losses, Named,
           Sum;
      tvp := 0;
      updates, deletes, err, cs := ProcessChanges(changes);
      if err.Some? {
        return;
      }
      SplitFacts(changes, cs);
      if !allowDeletes && |deletes| != 0 {
        err := Some(DeletesNotAllowed);
        return;
      }
      LooksEmptyExactly(proposers, changes, cs);
      RemovalsInMap(proposers, changes);
      TotalsSpelled(proposers, changes);
      var newcomers := NumNewValidators(updates);
      if newcomers == 0 && |proposers| == |deletes| {
        EmptyAfterwards(proposers, changes, cs);
        err := Some(EmptyResult);
        return;
      }
      SplitValid(changes, cs);
      var removed, known := VerifyRemovals(deletes);
      RemovalsKnown(proposers, changes, cs);
      if !known {
        err := Some(UnknownRemoval);
        return;
      }
      LossIsBounded(proposers, changes, cs);
      TotalsFromDeltas(proposers, changes, cs, 0);
      var fits;
      tvp, fits := VerifyUpdates(updates, removed);
      if !fits {
        err := Some(TotalTooHigh);
        return;
      }
      NonEmptyAfterwards(proposers, changes, cs);
    }

    /** Merging, removing, rescaling, centring and sorting, after the checks. */
    method ApplyChanges(updates: seq<Proposer>, deletes: seq<Proposer>, tvp: int,
                        ghost changes: seq<Proposer>, ghost allowDeletes: bool, ghost cs: seq<Proposer>)
      requires Valid() && Acceptable(proposers, changes, allowDeletes)
      requires AddressSorted(cs) && multiset(cs) == multiset(changes)
      requires updates == Part(cs, false) && deletes == Part(cs, true)
      requires tvp == TotalOf(Overridden(ByAddress(proposers), ByAddress(changes)))
      modifies `proposers, `totalVotingPower
      ensures Valid() && Updates(old(proposers), changes, proposers) && totalVotingPower == TotalPower(proposers)
      ensures forall i, j :: 0 <= i < j < |proposers| ==>
        || proposers[i].votingPower > proposers[j].votingPower
        || (proposers[i].votingPower == proposers[j].votingPower && Less(proposers[i].address, proposers[j].address))
    {
      hide ByAddress, TotalOf, Changed, Overridden, TotalPower, Part, AddressSorted, MapOf, Priced, Merge, Without,
           Normalize, Rescale, Shift, Rescalable, RescaleExact;
      ghost var before := proposers;
      NewcomerBounds(before, changes, allowDeletes);
      PartSorted(cs, false);
      var priced := ComputeNewPriorities(updates, tvp);
      PricedByAddress(updates, before, NewcomerPriority(tvp));
      ghost var e := ApplyUpdates(priced);
      MergedIsChanged(before, changes, e, cs, NewcomerPriority(tvp));
      ApplyRemovals(deletes);
      ghost var merged := proposers;
      assert Merges(before, changes, merged);
      FinishUpdate(before, changes, allowDeletes);
    }

    method FinishUpdate(ghost before: seq<Proposer>, ghost changes: seq<Proposer>, ghost allowDeletes: bool)
      requires Legal(before) && Acceptable(before, changes, allowDeletes)
      requires Merges(before, changes, proposers)
      modifies `proposers, `totalVotingPower
      ensures Valid() && Updates(before, changes, proposers) && totalVotingPower == TotalPower(proposers)
      ensures forall i, j :: 0 <= i < j < |proposers| ==>
        || proposers[i].votingPower > proposers[j].votingPower
        || (proposers[i].votingPower == proposers[j].votingPower && Less(proposers[i].address, proposers[j].address))
    {
      hide ByAddress, TotalOf, Changed, Overridden, TotalPower, AddressSorted, PowerSorted, Newcomer, Ordered,
           Rescale, Shift, Rescalable, RescaleExact, Priorities, Sum, ZeroRatioGuard;
      ghost var merged := proposers;
      MergedIsUsable(before, changes, allowDeletes, merged);
      NeverZeroDivisor(merged, Window(merged));
      ZeroDivisorExactly(merged, Window(merged));
      NormalizeShape(merged);
      SameShapePowers(merged, Normalize(merged));
      UpdateTotalVotingPower();
      var stuck := RescalePriorities(PRIORITY_WINDOW_SIZE_FACTOR * totalVotingPower);
      ShiftByAvgProposerPriority();
      assert proposers == Normalize(merged);
      OrdersArePreorders();
      var res := Sort(proposers, PowerLess);
      Rearranged(proposers, res, Window(merged));
      OrderedIsStrict(res);
      PowerSortedHighestFirst(res);
      assert UpdatesVia(before, changes, merged, res);
      proposers := res;
    }

    /**
     * updateWithChangeSet: succeeds exactly on the acceptable lists, then holds the updated set; on error
     * the set is unchanged.
     */
    method UpdateWithChangeSet(changes: seq<Proposer>, allowDeletes: bool) returns (err: Option<ChangeError>)
      requires Valid()
      modifies this
      ensures Valid() && proposer == old(proposer)
      ensures |changes| == 0 ==> err.None?
      ensures |changes| > 0 ==> (err.None? <==> Acceptable(old(proposers), changes, allowDeletes))
      ensures |changes| > 0 && err.None? ==>
        Updates(old(proposers), changes, proposers) && totalVotingPower == TotalPower(proposers)
      ensures |changes| > 0 && err.None? ==>
        forall i, j :: 0 <= i < j < |proposers| ==>
          || proposers[i].votingPower > proposers[j].votingPower
          || (proposers[i].votingPower == proposers[j].votingPower && Less(proposers[i].address, proposers[j].address))
      ensures err.Some? ==> |changes| > 0 && Reports(old(proposers), changes, allowDeletes, err.value)
      ensures |changes| == 0 || err.Some? ==> proposers == old(proposers)
    {
      hide *;
      if |changes| == 0 {
        return None;
      }
      var updates, deletes, tvp, bad, cs := CheckChanges(changes, allowDeletes);
      if bad.None? {
        ApplyChanges(updates, deletes, tvp, changes, allowDeletes, cs);
      }
      return bad;
    }

    /** The zero value. */
    constructor ()
      ensures Valid() && proposers == [] && proposer == None
    {
      proposers, proposer, totalVotingPower := [], None, 0;
      new;
      assert TotalPower([]) == 0;
    }
  }

  /** NewValidatorSet; no result means it panicked, which it does exactly on a list the first update refuses. */
  method NewValidatorSet(valz: seq<Proposer>) returns (vals: ProposerSet?)
    ensures vals != null <==> |valz| == 0 || Acceptable([], valz, false)
    ensures vals != null ==> fresh(vals) && vals.Valid()
    ensures |valz| == 0 ==> vals.proposers == [] && vals.proposer == None
    ensures |valz| > 0 && vals != null ==>
      exists first ::
        (CreatedFrom(valz, first, vals.proposers) && vals.proposer == Some(vals.proposers[Selected(first, 1)]))
    ensures |valz| > 0 && vals != null ==>
      && |vals.proposers| > 0 && vals.proposer == Some(vals.proposers[0]) && HighestFirst(vals.proposers)
      && (forall p {:trigger Listed(vals.proposers, p)} :: Listed(vals.proposers, p) <==> Listed(valz, p))
      && forall i :: 0 <= i < |vals.proposers| ==>
           vals.proposers[i].priority
           == vals.proposers[i].votingPower - if i == 0 then TotalPower(vals.proposers) else 0
  {
    hide Acceptable, Updates, Call, Selected, TotalPower, DistinctAddresses, Listed, HighestFirst;
    var created := new ProposerSet();
    var err := created.UpdateWithChangeSet(valz, false);
    if err.Some? {
      return null;
    }
    if |valz| > 0 {
      ghost var first := created.proposers;
      FirstIsCallable(valz, first);
      var panicked := created.IncrementProposerPriority(1);
      assert CreatedFrom(valz, first, created.proposers);
      NewSetSpelled(valz, first, created.proposers);
    }
    return created;
  }

  lemma FirstIsCallable(valz: seq<Proposer>, first: seq<Proposer>)
    requires Acceptable([], valz, false) && Updates([], valz, first)
    ensures Call(first, 1) != Panic
  {
    hide Acceptable, Updates, Call, TotalPower;
    EmptyIsLegal();
    UpdateEffects([], valz, false, first);
    PowersBounded(first);
    CallPanics(first, 1);
  }

  lemma SplitValid(changes: seq<Proposer>, cs: seq<Proposer>)
    requires multiset(cs) == multiset(changes) && AddressSorted(cs) && ValidChanges(changes)
    ensures ValidChanges(Part(cs, false)) && ValidChanges(Part(cs, true))
  {
    hide Part, AddressSorted;
    PermutedChanges(changes, cs);
    forall removing: bool ensures ValidChanges(Part(cs, removing)) {
      PartSorted(cs, removing);
      AddressSortedDistinct(Part(cs, removing));
      forall i | 0 <= i < |Part(cs, removing)| ensures Part(cs, removing)[i] in cs {
        PartMembers(cs, removing, Part(cs, removing)[i]);
      }
    }
  }

  lemma SplitFacts(changes: seq<Proposer>, cs: seq<Proposer>)
    requires multiset(cs) == multiset(changes)
    ensures |Part(cs, true)| == 0 <==> forall i :: 0 <= i < |changes| ==> changes[i].votingPower != 0
  {
    hide Part;
    var d := Part(cs, true);
    if |d| > 0 {
      PartMembers(cs, true, d[0]);
      assert d[0] in multiset(changes);
    } else {
      forall i | 0 <= i < |changes| ensures changes[i].votingPower != 0 {
        assert changes[i] in multiset(cs);
        PartMembers(cs, true, changes[i]);
      }
    }
  }

  lemma RemovalsKnown(ps: seq<Proposer>, changes: seq<Proposer>, cs: seq<Proposer>)
    requires DistinctAddresses(ps) && DistinctAddresses(changes)
    requires AddressSorted(cs) && multiset(cs) == multiset(changes)
    ensures RemovesOnlyMembers(ByAddress(ps), ByAddress(changes))
            <==> forall i :: 0 <= i < |Part(cs, true)| ==> Part(cs, true)[i].address in ByAddress(ps)
  {
    hide ByAddress, Part, AddressSorted;
    ByAddressPermutation(changes, cs);
    PartByAddress(cs, true);
    var d := Part(cs, true);
    assert forall i :: 0 <= i < |d| ==> d[i].address in Addresses(d);
    assert forall a :: a in Addresses(d) ==> a in Select(ByAddress(changes), true);
    if forall i :: 0 <= i < |d| ==> d[i].address in ByAddress(ps) {
      forall a | a in ByAddress(changes) && ByAddress(changes)[a].votingPower == 0 ensures a in ByAddress(ps) {
        assert a in Addresses(d);
      }
    }
  }

  lemma {:induction false} AddressCount(ps: seq<Proposer>)
    requires DistinctAddresses(ps)
    ensures |ByAddress(ps).Keys| == |ps|
  {
    if |ps| > 0 {
      AddressCount(ps[..|ps| - 1]);
      ByAddressAppend(ps);
      assert ByAddress(ps).Keys == ByAddress(ps[..|ps| - 1]).Keys + {ps[|ps| - 1].address};
    }
  }

  lemma {:induction false} SubsetOfSameSize<T>(a: set<T>, b: set<T>)
    requires a <= b && |a| == |b|
    ensures a == b
  {
    if x :| x in a {
      SubsetOfSameSize(a - {x}, b - {x});
      assert a == (a - {x}) + {x} && b == (b - {x}) + {x};
    }
  }

  /** The removals take out every member exactly when there are as many of them as members. */
  lemma RemovalsCount(ps: seq<Proposer>, changes: seq<Proposer>, cs: seq<Proposer>)
    requires DistinctAddresses(ps) && DistinctAddresses(changes)
    requires AddressSorted(cs) && multiset(cs) == multiset(changes)
    requires RemovesOnlyMembers(ByAddress(ps), ByAddress(changes))
    ensures |ps| == |Part(cs, true)| <==> Select(ByAddress(changes), true).Keys == ByAddress(ps).Keys
  {
    hide ByAddress, Part, AddressSorted;
    ByAddressPermutation(changes, cs);
    PartByAddress(cs, true);
    AddressCount(ps);
    AddressCount(Part(cs, true));
    if |ps| == |Part(cs, true)| {
      SubsetOfSameSize(Select(ByAddress(changes), true).Keys, ByAddress(ps).Keys);
    }
  }

  lemma UpdatesKnown(ps: seq<Proposer>, changes: seq<Proposer>, cs: seq<Proposer>)
    requires DistinctAddresses(ps) && DistinctAddresses(changes)
    requires AddressSorted(cs) && multiset(cs) == multiset(changes)
    ensures (forall i :: 0 <= i < |Part(cs, false)| ==> IndexOf(ps, Part(cs, false)[i].address) >= 0)
            <==> Select(ByAddress(changes), false).Keys <= ByAddress(ps).Keys
  {
    hide ByAddress, Part, AddressSorted, IndexOf;
    ByAddressPermutation(changes, cs);
    PartByAddress(cs, false);
    var us := Part(cs, false);
    forall i | 0 <= i < |us|
      ensures us[i].address in Addresses(us)
      ensures IndexOf(ps, us[i].address) >= 0 <==> us[i].address in ByAddress(ps)
    {
      IndexInMap(ps, us[i].address);
    }
  }

  lemma ChangedKeys(m: map<Address, Proposer>, ch: map<Address, Proposer>)
    ensures Changed(m, ch, 0).Keys == (m.Keys - Select(ch, true).Keys) + Select(ch, false).Keys
  {
  }

  /** The emptiness test errs on the safe side only when a removal is unknown anyway. */
  lemma EmptyAfterwards(ps: seq<Proposer>, changes: seq<Proposer>, cs: seq<Proposer>)
    requires DistinctAddresses(ps) && DistinctAddresses(changes)
    requires AddressSorted(cs) && multiset(cs) == multiset(changes)
    requires forall i :: 0 <= i < |Part(cs, false)| ==> IndexOf(ps, Part(cs, false)[i].address) >= 0
    requires |ps| == |Part(cs, true)|
    ensures RemovesOnlyMembers(ByAddress(ps), ByAddress(changes)) ==>
              Changed(ByAddress(ps), ByAddress(changes), 0) == map[]
  {
    hide ByAddress, Part, AddressSorted, IndexOf, Changed;
    if RemovesOnlyMembers(ByAddress(ps), ByAddress(changes)) {
      RemovalsCount(ps, changes, cs);
      UpdatesKnown(ps, changes, cs);
      ChangedKeys(ByAddress(ps), ByAddress(changes));
      var ch := ByAddress(changes);
      assert Select(ch, true).Keys !! Select(ch, false).Keys;
      assert Changed(ByAddress(ps), ch, 0).Keys == {};
    }
  }

  lemma NonEmptyAfterwards(ps: seq<Proposer>, changes: seq<Proposer>, cs: seq<Proposer>)
    requires DistinctAddresses(ps) && DistinctAddresses(changes)
    requires AddressSorted(cs) && multiset(cs) == multiset(changes)
    requires RemovesOnlyMembers(ByAddress(ps), ByAddress(changes))
    requires |ps| != |Part(cs, true)|
             || !(forall i :: 0 <= i < |Part(cs, false)| ==> IndexOf(ps, Part(cs, false)[i].address) >= 0)
    ensures Changed(ByAddress(ps), ByAddress(changes), 0) != map[]
  {
    hide ByAddress, Part, AddressSorted, IndexOf, Changed;
    RemovalsCount(ps, changes, cs);
    UpdatesKnown(ps, changes, cs);
    ChangedKeys(ByAddress(ps), ByAddress(changes));
    var m, ch := ByAddress(ps).Keys, ByAddress(changes);
    var removed, updated := Select(ch, true).Keys, Select(ch, false).Keys;
    var kept :| kept in if |ps| != |Part(cs, true)| then m - removed else updated - m;
    assert kept in Changed(ByAddress(ps), ByAddress(changes), 0).Keys;
  }
}
