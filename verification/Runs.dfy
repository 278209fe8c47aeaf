/** Whole runs mixing updates and increments: nothing ever saturates or overflows. */
module Runs {
  import opened Int64
  import opened Bytes
  import opened Sums
  import opened Proposers
  import opened Scheduler
  import opened Levels
  import opened Varints
  import opened Fairness
  import opened ChangeSets
  import opened ChangeEffects
  import opened Memberships

  datatype Op = Increment(times: int) | Update(changes: seq<Proposer>)

  /** One successful call of a client; an update with an empty list returns at once and is no step. */
  ghost predicate Step(ps: seq<Proposer>, op: Op, next: seq<Proposer>) {
    match op
    case Increment(times) => Call(ps, times) == Done(next)
    case Update(changes) =>
      |changes| > 0 && DistinctAddresses(ps) && Acceptable(ps, changes, true) && Updates(ps, changes, next)
  }

  /** NewValidatorSet: a first update of the empty set to `first`, then one increment. */
  ghost predicate CreatedFrom(valz: seq<Proposer>, first: seq<Proposer>, ps: seq<Proposer>) {
    && Acceptable([], valz, false) && Updates([], valz, first)
    && Call(first, 1) == Done(ps) && 0 <= Selected(first, 1) < |ps|
  }

  /** What NewValidatorSet returns: the empty set for an empty list, otherwise a set made by way of `first`. */
  ghost predicate Begins(valz: seq<Proposer>, first: seq<Proposer>, ps: seq<Proposer>) {
    if |valz| == 0 then first == [] && ps == [] else CreatedFrom(valz, first, ps)
  }

  /** `states[0]` is a new set and each later state follows from the one before by the operation between them. */
  ghost predicate IsRun(valz: seq<Proposer>, first: seq<Proposer>, states: seq<seq<Proposer>>, ops: seq<Op>) {
    && |states| == |ops| + 1
    && Begins(valz, first, states[0])
    && forall i :: 0 <= i < |ops| ==> Step(states[i], ops[i], states[i + 1])
  }

  /** Small enough for calls with many passes: the highest level stays within three times the cap. */
  ghost predicate Small(ps: seq<Proposer>) {
    TotalPower(ps) as real * (Harmonic(|ps|) + 1.0) <= 3.0 * MAX_TOTAL_VOTING_POWER as real
  }

  lemma {:induction false} FewBits(x: nat, k: nat)
    requires x < Pow2(k)
    ensures BitLength(x) <= k
  {
    if x > 0 { FewBits(x / 2, k - 1); }
  }

  lemma TwoTo56()
    ensures Pow2(56) == 0x100_0000_0000_0000
  {
    hide Pow2;
    Pow2Steps(0);
    Pow2Seven(0); Pow2Seven(7); Pow2Seven(14); Pow2Seven(21); Pow2Seven(28); Pow2Seven(35);
    Pow2Seven(42); Pow2Seven(49);
  }

  /** Up to a twenty-first of the cap every set is small, whatever the number of its members. */
  lemma ModestPowerIsSmall(ps: seq<Proposer>)
    requires |ps| > 0 && Legal(ps) && AllPositive(ps) && 21 * TotalPower(ps) <= MAX_TOTAL_VOTING_POWER
    ensures Small(ps)
  {
    hide TotalPower, DistinctAddresses, Harmonic, Pow2, BitLength;
    PowersBounded(ps);
    TwoTo56();
    FewBits(|ps|, 56);
    HarmonicLog(|ps|);
    ModestLevel(TotalPower(ps), Harmonic(|ps|));
  }

  lemma ModestLevel(total: nat, h: real)
    requires 21 * total <= MAX_TOTAL_VOTING_POWER && h <= 56.0
    ensures total as real * (h + 1.0) <= 3.0 * MAX_TOTAL_VOTING_POWER as real
  {
    RealOrder(total as real, h + 1.0, 57.0);
    assert (57 * total) as real == total as real * 57.0;
    assert 57 * total <= 3 * MAX_TOTAL_VOTING_POWER;
  }

  /** Calls with more than one pass are made on small sets only. */
  ghost predicate Moderate(states: seq<seq<Proposer>>, ops: seq<Op>)
    requires |states| == |ops| + 1
  {
    forall i :: 0 <= i < |ops| ==> ModerateOp(states[i], ops[i])
  }

  ghost predicate ModerateOp(ps: seq<Proposer>, op: Op) {
    op.Increment? && op.times > 1 ==> Small(ps)
  }

  /** Every int64 operation of the call has its exact mathematical result. */
  ghost predicate StepExact(ps: seq<Proposer>, op: Op) {
    match op
    case Increment(times) => times > 0 && InUse(ps) && CallExact(ps, times)
    case Update(changes) => DistinctAddresses(ps) && DistinctAddresses(changes) && UpdateExact(ps, changes)
  }

  /** What every state of a run satisfies. */
  ghost predicate Steady(ps: seq<Proposer>) {
    && Floored(ps) && AllPositive(ps)
    && Within(ps, -3 * MAX_TOTAL_VOTING_POWER, 3 * MAX_TOTAL_VOTING_POWER)
  }

  lemma SteadyUpdate(ps: seq<Proposer>, changes: seq<Proposer>, allowDeletes: bool, next: seq<Proposer>)
    requires Legal(ps) && AllPositive(ps)
    requires Within(ps, -3 * MAX_TOTAL_VOTING_POWER, 3 * MAX_TOTAL_VOTING_POWER)
    requires Acceptable(ps, changes, allowDeletes) && Updates(ps, changes, next)
    ensures Steady(next) && Within(next, -2 * TotalPower(next), 2 * TotalPower(next))
    ensures StepExact(ps, Update(changes))
  {
    hide TotalPower, Sum, Priorities, Changed, TotalOf, ByAddress, PowerSorted, Updates, Unprioritized, UpdateExact,
         Levelled;
    UpdateEffects(ps, changes, allowDeletes, next);
    UpdatesAreExact(ps, changes, allowDeletes);
    UpdateCentres(ps, changes, next);
    PowersBounded(next);
    BoundIsLevel(next, 2 * TotalPower(next));
  }

  lemma OnePass(ps: seq<Proposer>, total: Int64)
    requires |ps| > 0
    ensures After(ps, total, 1) == IncrementOnce(ps, total)
    ensures IncrementExact(ps, total) ==> ExactUntil(ps, total, 1)
  {
    assert After(ps, total, 0) == ps;
  }

  /** One pass over a centred set in the window. */
  lemma WindowPass(ps: seq<Proposer>, total: Int64)
    requires InUse(ps) && Centred(ps) && total == TotalPower(ps) && Within(ps, -2 * total, 2 * total)
    ensures IncrementExact(ps, total)
    ensures Floored(IncrementOnce(ps, total)) && TotalPower(IncrementOnce(ps, total)) == total
    ensures Within(IncrementOnce(ps, total), -2 * total, 3 * total)
  {
    hide TotalPower, Sum, Priorities, IncrementOnce, Elect, IncrementExact, DistinctAddresses, Levelled;
    PowersBounded(ps);
    IncrementOnceShape(ps, total);
    IncrementIsExact(ps, total);
    WindowLevel(ps, total);
  }

  lemma WindowLevel(ps: seq<Proposer>, total: Int64)
    requires InUse(ps) && Centred(ps) && total == TotalPower(ps) && Within(ps, -2 * total, 2 * total)
    requires forall i :: 0 <= i < |ps| ==> InInt64(ps[i].priority + ps[i].votingPower)
    ensures Levelled(IncrementOnce(ps, total), 2.0 * total as real)
  {
    hide TotalPower, Sum, Priorities, IncrementOnce, Elect, DistinctAddresses, Levelled;
    BoundIsLevel(ps, 2 * total);
    TwiceReal(total);
    LevelStep(ps, total, 2.0 * total as real);
  }

  lemma TwiceReal(t: int)
    ensures (2 * t) as real == 2.0 * t as real
  {
  }

  lemma SteadyIncrement(ps: seq<Proposer>)
    requires Steady(ps)
    ensures StepExact(ps, Increment(1)) && Call(ps, 1).Done?
    ensures Steady(Call(ps, 1).proposers) && TotalPower(Call(ps, 1).proposers) == TotalPower(ps)
    ensures Within(Call(ps, 1).proposers, -2 * TotalPower(ps), 3 * TotalPower(ps))
  {
    hide TotalPower, Sum, Priorities, IncrementOnce, Elect, IncrementExact, Normalize, After, RescaleExact, Rescalable,
         ExactUntil, ShiftExact, AllPositive, DistinctAddresses, Centred;
    PowersBounded(ps);
    WithinIsExact(ps);
    NormalizeFits(ps);
    NormalizeShape(ps);
    var start, total: Int64 := Normalize(ps), TotalPower(ps);
    SameShapePowers(ps, start);
    WindowPass(start, total);
    OnePass(start, total);
    OnePassWithin(start, total);
  }

  /** The bounds of one pass also lie within three times the cap. */
  lemma OnePassWithin(ps: seq<Proposer>, total: Int64)
    requires |ps| > 0 && 0 <= total <= MAX_TOTAL_VOTING_POWER
    ensures SameShape(ps, IncrementOnce(ps, total))
    ensures AllPositive(ps) ==> AllPositive(IncrementOnce(ps, total))
    ensures Within(IncrementOnce(ps, total), -2 * total, 3 * total) ==>
              Within(IncrementOnce(ps, total), -3 * MAX_TOTAL_VOTING_POWER, 3 * MAX_TOTAL_VOTING_POWER)
  {
    hide IncrementOnce;
    IncrementOnceShape(ps, total);
  }

  lemma SmallCeiling(ps: seq<Proposer>)
    requires Floored(ps) && Small(ps)
    ensures Roomy(ps) && Within(ps, -3 * MAX_TOTAL_VOTING_POWER, 3 * MAX_TOTAL_VOTING_POWER)
  {
    hide TotalPower, Levelled, DistinctAddresses, Centred, Harmonic;
    LevelHolds(ps);
    PowersBounded(ps);
    LevelSum(TotalPower(ps) as real, Harmonic(|ps|));
  }

  lemma SteadyCall(ps: seq<Proposer>, times: nat)
    requires Steady(ps) && Small(ps) && times > 0
    ensures StepExact(ps, Increment(times)) && Call(ps, times).Done?
    ensures Steady(Call(ps, times).proposers)
  {
    hide TotalPower, Sum, Priorities, Normalize, After, RescaleExact, Rescalable, ExactUntil, ShiftExact, Roomy,
         DistinctAddresses, CallExact, Small, Levelled, Harmonic;
    SmallCeiling(ps);
    FlooredCallExact(ps, times);
    PowersBounded(ps);
    CallIsExact(ps, times);
    var next := IncrementPriorities(ps, times);
    SameShapePowers(ps, next);
    SmallSame(ps, next);
    SmallCeiling(next);
  }

  lemma SmallSame(ps: seq<Proposer>, qs: seq<Proposer>)
    requires Small(ps) && |ps| == |qs| && TotalPower(ps) == TotalPower(qs)
    ensures Small(qs)
  {
  }

  lemma CallIsExact(ps: seq<Proposer>, times: nat)
    requires InUse(ps) && CallExact(ps, times)
    ensures 0 <= TotalPower(ps) <= MAX_TOTAL_VOTING_POWER && Rescalable(ps, Window(ps))
  {
    PowersBounded(ps);
  }

  /** What one operation of a run guarantees. */
  ghost predicate GoodStep(ps: seq<Proposer>, op: Op, next: seq<Proposer>) {
    && StepExact(ps, op) && Steady(next)
    && (op.Update? ==> Within(next, -2 * TotalPower(next), 2 * TotalPower(next)))
    && (op == Increment(1) ==> Within(next, -2 * TotalPower(next), 3 * TotalPower(next)))
  }

  /** A set that NewValidatorSet made of nothing and that has not been updated yet, or a steady one. */
  ghost predicate EmptyOrSteady(ps: seq<Proposer>) { ps == [] || Steady(ps) }

  lemma SteadyStep(ps: seq<Proposer>, op: Op, next: seq<Proposer>)
    requires EmptyOrSteady(ps) && Step(ps, op, next) && ModerateOp(ps, op)
    ensures GoodStep(ps, op, next)
  {
    hide TotalPower, Small, StepExact, Updates, Acceptable, Call, Sum, Priorities;
    match op {
      case Update(changes) =>
        EmptyIsLegal();
        SteadyUpdate(ps, changes, true, next);
      case Increment(times) =>
        CalledPositive(ps, times);
        if times == 1 {
          SteadyIncrement(ps);
        } else {
          SteadyCall(ps, times);
        }
    }
  }

  lemma CalledPositive(ps: seq<Proposer>, times: int)
    requires Call(ps, times).Done?
    ensures times > 0 && ps != []
  {
  }

  /** A new set: the first update and the first increment are exact, and the window holds. */
  lemma CreatedIsSteady(valz: seq<Proposer>, first: seq<Proposer>, ps: seq<Proposer>)
    requires CreatedFrom(valz, first, ps)
    ensures Steady(ps) && Within(ps, -2 * TotalPower(ps), 3 * TotalPower(ps))
    ensures Steady(first) && Within(first, -2 * TotalPower(first), 2 * TotalPower(first))
    ensures StepExact([], Update(valz)) && StepExact(first, Increment(1))
  {
    hide TotalPower, StepExact, Updates, Changed, TotalOf, Call, Selected, Sum, Priorities;
    EmptyIsLegal();
    SteadyUpdate([], valz, false, first);
    SteadyIncrement(first);
  }

  lemma EmptyIsLegal()
    ensures Legal([]) && AllPositive([]) && TotalPower([]) == 0
  {
  }

  /** How the run begins: nothing, or an exact first update and an exact first increment. */
  ghost predicate GoodBeginning(valz: seq<Proposer>, first: seq<Proposer>, ps: seq<Proposer>) {
    if |valz| == 0 then ps == []
    else
      && StepExact([], Update(valz)) && Steady(first) && Within(first, -2 * TotalPower(first), 2 * TotalPower(first))
      && StepExact(first, Increment(1)) && Steady(ps) && Within(ps, -2 * TotalPower(ps), 3 * TotalPower(ps))
  }

  lemma BeginsWell(valz: seq<Proposer>, first: seq<Proposer>, ps: seq<Proposer>)
    requires Begins(valz, first, ps)
    ensures GoodBeginning(valz, first, ps) && EmptyOrSteady(ps)
  {
    hide StepExact, Steady, CreatedFrom, Within, TotalPower;
    if |valz| > 0 { CreatedIsSteady(valz, first, ps); }
  }

  /**
   * The proof the source leaves to the reader: in every run, from the empty set or from the update and the increment
   * that create a set, no clip ever engages, no overflow guard of the rescaling fails, and after every update or single
   * increment each priority lies in [-2T, 3T].
   */
  lemma {:induction false} NoClippingEver(valz: seq<Proposer>, first: seq<Proposer>,
                                          states: seq<seq<Proposer>>, ops: seq<Op>)
    requires IsRun(valz, first, states, ops) && Moderate(states, ops)
    ensures GoodBeginning(valz, first, states[0])
    ensures forall i :: 0 <= i < |ops| ==> GoodStep(states[i], ops[i], states[i + 1])
    decreases |ops|
  {
    hide StepExact, Steady, Begins, GoodBeginning, GoodStep, Step, Within, ModerateOp, TotalPower, EmptyOrSteady;
    BeginsWell(valz, first, states[0]);
    if |ops| > 0 {
      var n := |ops| - 1;
      NoClippingEver(valz, first, states[..n + 1], ops[..n]);
      assert Step(states[n], ops[n], states[n + 1]);
      LastIsSteady(states[..n + 1], ops[..n]);
      SteadyStep(states[n], ops[n], states[n + 1]);
      forall i | 0 <= i < |ops| ensures GoodStep(states[i], ops[i], states[i + 1]) {
        if i < n {
          assert GoodStep(states[..n + 1][i], ops[..n][i], states[..n + 1][i + 1]);
        }
      }
    }
  }

  lemma LastIsSteady(states: seq<seq<Proposer>>, ops: seq<Op>)
    requires |states| == |ops| + 1 && EmptyOrSteady(states[0])
    requires forall i :: 0 <= i < |ops| ==> GoodStep(states[i], ops[i], states[i + 1])
    ensures EmptyOrSteady(states[|ops|])
  {
    hide StepExact, Steady;
    if |ops| > 0 {
      assert GoodStep(states[|ops| - 1], ops[|ops| - 1], states[|ops|]);
    }
  }

  // ---- what a first update leaves is where the fairness results start

  /**
   * A first update, inside NewValidatorSet or of the empty set it returned, gives every validator priority zero, so
   * proportionality and round robin apply to it.
   */
  lemma FirstUpdateIsFresh(valz: seq<Proposer>, allowDeletes: bool, first: seq<Proposer>)
    requires Acceptable([], valz, allowDeletes) && Updates([], valz, first)
    ensures Fresh(first) && AllPositive(first) && PowerSorted(first)
  {
    hide TotalPower, Sum, Priorities, TotalOf, ByAddress, Normalize, RescaleExact, Rescalable, PowerSorted,
         Unprioritized;
    EmptyIsLegal();
    UpdateEffects([], valz, allowDeletes, first);
    var merged: seq<Proposer> :| UpdatesVia([], valz, merged, first);
    var prio := Newcomer([], valz);
    forall i | 0 <= i < |merged| ensures merged[i].priority == prio {
      InByAddress(merged, merged[i]);
      NothingBefore();
    }
    MergedIsUsable([], valz, allowDeletes, merged);
    MergedIsExact([], valz, allowDeletes, merged);
    LevelIsZeroed(merged, prio);
    forall i | 0 <= i < |first| ensures first[i].priority == 0 {
      assert first[i] in multiset(Normalize(merged));
    }
  }

  lemma NothingBefore()
    ensures ByAddress([]) == map[]
  {
  }

  /** Equal priorities are centred to zero. */
  lemma LevelIsZeroed(ps: seq<Proposer>, p: int)
    requires InUse(ps) && RescaleExact(ps, Window(ps)) && Rescalable(ps, Window(ps))
    requires forall i :: 0 <= i < |ps| ==> ps[i].priority == p
    ensures forall i :: 0 <= i < |ps| ==> Normalize(ps)[i].priority == 0
  {
    hide TotalPower, Rescale, Shift, Rescalable, RescaleExact;
    PowersBounded(ps);
    RescaleFits(ps, Window(ps));
    ShiftCentres(ps);
    AverageBetween(ps, p, p);
  }

  /** The highest power comes first in the list and is elected from equal priorities. */
  lemma FirstIsElected(ps: seq<Proposer>)
    requires Fresh(ps) && HighestFirst(ps)
    ensures Elect(ps) == 0
  {
    hide Elect, Less, TotalPower;
    LessIsPreorder();
    var e := Elect(ps);
    if e != 0 { ElectedExactly(ps, 0); }
  }

  lemma FreshCall(ps: seq<Proposer>)
    requires Fresh(ps)
    ensures Call(ps, 1) == Done(IncrementOnce(ps, TotalPower(ps))) && Selected(ps, 1) == Elect(ps)
  {
    hide Normalize, TotalPower, IncrementOnce, Elect;
    PowersBounded(ps);
    FreshIsNormal(ps);
    OnePass(ps, TotalPower(ps));
    assert After(ps, TotalPower(ps), 0) == ps;
  }

  /**
   * A new set: exactly the listed validators, from the highest power down. The first one has been elected once, so
   * it has its power less the total as priority; everybody else has its power.
   */
  lemma NewSetSpelled(valz: seq<Proposer>, first: seq<Proposer>, ps: seq<Proposer>)
    requires CreatedFrom(valz, first, ps)
    ensures HighestFirst(ps) && Selected(first, 1) == 0
    ensures forall p {:trigger Listed(ps, p)} :: Listed(ps, p) <==> Listed(valz, p)
    ensures forall i :: 0 <= i < |ps| ==>
              ps[i].priority == ps[i].votingPower - if i == 0 then TotalPower(ps) else 0
  {
    hide TotalPower, IncrementOnce, Elect, Selected, Updates, Acceptable, Call, Listed, HighestFirst, Named;
    EmptyIsLegal();
    FirstUpdateIsFresh(valz, false, first);
    UpdateSpelled([], valz, false, first);
    FirstIsElected(first);
    FreshCall(first);
    PowersBounded(first);
    SumIsZero(first);
    IncrementOnceShape(first, TotalPower(first));
    SameShapePowers(first, ps);
    IncrementIsExact(first, TotalPower(first));
    HighestFirstKept(first, ps);
    forall p: Proposer ensures Listed(ps, p) <==> Listed(valz, p) {
      ListedKept(first, ps, p);
      OnlyTheListed(valz, p);
    }
  }

  lemma SumIsZero(ps: seq<Proposer>)
    requires Fresh(ps)
    ensures Sum(Priorities(ps)) == 0
    ensures forall i :: 0 <= i < |ps| ==> ps[i].priority == 0 && InInt64(ps[i].priority + ps[i].votingPower)
  {
    SumConst(Priorities(ps), 0);
  }

  lemma HighestFirstKept(ps: seq<Proposer>, qs: seq<Proposer>)
    requires SameShape(ps, qs) && HighestFirst(ps)
    ensures HighestFirst(qs)
  {
    hide Less;
    forall i | 0 <= i < |qs| ensures qs[i].votingPower == ps[i].votingPower && qs[i].address == ps[i].address {
      assert qs[i] == ps[i].(priority := qs[i].priority);
    }
  }

  lemma ListedKept(ps: seq<Proposer>, qs: seq<Proposer>, p: Proposer)
    requires SameShape(ps, qs)
    ensures Listed(ps, p) <==> Listed(qs, p)
  {
    forall i | 0 <= i < |ps|
      ensures qs[i].votingPower == ps[i].votingPower && qs[i].address == ps[i].address && qs[i].pubKey == ps[i].pubKey
    {
      assert qs[i] == ps[i].(priority := qs[i].priority);
    }
  }

  /** A list that adds to nothing may not remove, so everything listed is named with a power. */
  lemma OnlyTheListed(valz: seq<Proposer>, p: Proposer)
    requires Acceptable([], valz, false)
    ensures Listed(valz, p) ==> Named(valz, p.address) && p.votingPower != 0
    ensures !Listed([], p)
  {
  }
}
