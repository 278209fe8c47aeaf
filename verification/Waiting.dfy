/** How long a validator can wait for its turn, within one call and across calls. */
module Waiting {
  import opened Int64
  import opened Sums
  import opened Proposers
  import opened Scheduler
  import opened Levels
  import opened Fairness

  /** The passes are enough for the validator's power: together they bring more than T(H(n) + 3). */
  ghost predicate Enough(ps: seq<Proposer>, i: nat, m: nat)
    requires i < |ps|
  {
    m as real * ps[i].votingPower as real > TotalPower(ps) as real * (Harmonic(|ps|) + 3.0)
  }

  lemma LevelLater(ps: seq<Proposer>, total: Int64, i: nat, k: nat)
    requires Floored(ps) && Roomy(ps) && total == TotalPower(ps) && i < |ps|
    ensures After(ps, total, k)[i].priority as real <= total as real * (Harmonic(|ps|) + 1.0)
    ensures -2 * total <= After(ps, total, k)[i].priority
  {
    hide After, TotalPower, Roomy, Priorities, Sum, Levelled, Legal, Harmonic;
    FlooredForever(ps, total, k);
    LevelHolds(After(ps, total, k));
  }

  /** Without a selection the gain of the passes would lead from the floor past the level. */
  lemma PastTheLevel(start: int, w: int, total: int, k: nat, m: nat, c: nat, h: real)
    requires m as real * w as real > total as real * (h + 3.0)
    requires -2 * total <= Owed(start, w, total, k, c)
    ensures Owed(start, w, total, k + m, c) as real > total as real * (h + 1.0)
  {
    RealProduct(m, w);
    assert (k + m) * w == k * w + m * w;
    assert total as real * (h + 3.0) == total as real * (h + 1.0) + 2.0 * total as real;
  }

  lemma Waited(ps: seq<Proposer>, total: Int64, i: nat, k: nat, m: nat, h: real)
    requires Floored(ps) && Roomy(ps) && InUse(ps) && Sum(Priorities(ps)) >= 0 && total == TotalPower(ps)
    requires i < |ps| && h == Harmonic(|ps|) && m as real * ps[i].votingPower as real > total as real * (h + 3.0)
    ensures Selections(ps, total, i, k + m) > Selections(ps, total, i, k)
  {
    hide *;
    FlooredForever(ps, total, k);
    FlooredForever(ps, total, k + m);
    LevelLater(ps, total, i, k);
    LevelLater(ps, total, i, k + m);
    PriorityFormula(ps, total, i, k);
    PriorityFormula(ps, total, i, k + m);
    SelectionsGrow(ps, total, i, k, k + m);
    PastTheLevel(ps[i].priority, ps[i].votingPower, total, k, m, Selections(ps, total, i, k), h);
  }

  /**
   * The short wait: in any m consecutive passes of one call that bring more than T(H(n) + 3) the validator is selected.
   */
  lemma ShortWait(ps: seq<Proposer>, total: Int64, i: nat, k: nat, m: nat)
    requires Floored(ps) && Roomy(ps) && total == TotalPower(ps) && i < |ps| && Enough(ps, i, m)
    ensures Selections(ps, total, i, k + m) > Selections(ps, total, i, k)
  {
    hide TotalPower, Sum, Priorities, Legal, Selections, Roomy, Levelled, Harmonic;
    Waited(ps, total, i, k, m, Harmonic(|ps|));
  }

  /** More selections at the end than at the start: one of the passes selected the validator. */
  lemma {:induction false} SomePass(ps: seq<Proposer>, total: Int64, i: nat, k: nat) returns (j: nat)
    requires |ps| > 0 && Selections(ps, total, i, k) > 0
    ensures j < k && Chosen(ps, total, j) == i
  {
    hide Chosen;
    if Chosen(ps, total, k - 1) == i { j := k - 1; } else { j := SomePass(ps, total, i, k - 1); }
  }

  // ---- one pass per call

  /** The state after j single calls, and whether the next one would rescale it. */
  ghost function Single(ps: seq<Proposer>, j: nat): Outcome { Calls(ps, Ones(j)) }

  ghost predicate NoRescale(ps: seq<Proposer>, j: nat)
    requires InUse(ps)
  {
    Single(ps, j).Done? && SpreadWithin(Single(ps, j).proposers, Window(ps))
  }

  /** The set after the rescaling and the shift of the first call. */
  ghost function Started(ps: seq<Proposer>): (r: seq<Proposer>)
    requires Startable(ps)
    ensures |r| == |ps| && Floored(r) && Roomy(r) && TotalPower(r) == TotalPower(ps)
  {
    StartableCall(ps);
    PowersBounded(ps);
    Normalize(ps)
  }

  lemma NextSingle(ps: seq<Proposer>, j: nat)
    ensures Single(ps, 0) == Done(ps)
    ensures j > 0 && Single(ps, j - 1).Done? ==> Single(ps, j) == Call(Single(ps, j - 1).proposers, 1)
  {
    hide Call;
    if j > 0 { OnesPrefix(j); }
  }

  lemma FirstSingle(ps: seq<Proposer>)
    requires Startable(ps)
    ensures Single(ps, 1) == Done(After(Started(ps), TotalPower(ps), 1))
  {
    hide Normalize, After, TotalPower, Rescalable, Call, RescaleExact, Roomy, Single, ShiftExact, Floored;
    NextSingle(ps, 1);
    StartableCall(ps);
    PowersBounded(ps);
    CallIsAfter(ps, 1);
  }

  /** Single calls that never rescale after the first make the passes of one long call. */
  lemma {:induction false} SinglesArePasses(ps: seq<Proposer>, j: nat)
    requires InUse(ps) && Startable(ps) && j > 0
    requires forall l :: 0 < l < j ==> NoRescale(ps, l)
    ensures Single(ps, j) == Done(After(Started(ps), TotalPower(ps), j))
  {
    hide Normalize, After, TotalPower, Startable, Floored, Roomy, Legal, SpreadWithin, Single, Call, Started;
    if j == 1 {
      FirstSingle(ps);
    } else {
      SinglesArePasses(ps, j - 1);
      assert NoRescale(ps, j - 1);
      PassAfterSingle(ps, Started(ps), j - 1);
      NextSingle(ps, j);
    }
  }

  /** A call on a state within the window is one more pass. */
  lemma PassAfterSingle(ps: seq<Proposer>, start: seq<Proposer>, j: nat)
    requires InUse(ps) && Floored(start) && Roomy(start) && TotalPower(start) == TotalPower(ps)
    requires SpreadWithin(After(start, TotalPower(ps), j), Window(ps))
    ensures Call(After(start, TotalPower(ps), j), 1) == Done(After(start, TotalPower(ps), j + 1))
  {
    hide After, TotalPower, Roomy, Legal, SpreadWithin, Call, ExactUntil, Levelled, Centred;
    FlooredForever(start, TotalPower(start), j);
    WindowOf(ps, start, j);
    BoundaryIsIdentity(start, j);
  }

  lemma WindowOf(ps: seq<Proposer>, start: seq<Proposer>, l: nat)
    requires InUse(ps) && InUse(start) && TotalPower(start) == TotalPower(ps)
    requires SpreadWithin(After(start, TotalPower(ps), l), Window(ps))
    ensures InWindow(start, l)
  {
  }

  lemma CallIsAfter(ps: seq<Proposer>, j: nat)
    requires InUse(ps) && j > 0 && 0 <= TotalPower(ps) <= MAX_TOTAL_VOTING_POWER && Rescalable(ps, Window(ps))
    ensures Call(ps, j) == Done(After(Normalize(ps), TotalPower(ps), j))
  {
    hide Normalize, After, TotalPower, Rescalable;
  }

  /** The validator that the j-th single call selects is the one the j-th pass of one long call would. */
  lemma SingleSelects(ps: seq<Proposer>, j: nat)
    requires InUse(ps) && Startable(ps)
    requires forall l :: 0 < l <= j ==> NoRescale(ps, l)
    ensures Single(ps, j).Done? && Selected(Single(ps, j).proposers, 1) == Chosen(Started(ps), TotalPower(ps), j)
  {
    hide TotalPower, Legal, SpreadWithin, Single, Call, Elect, Started, Startable;
    NextSingle(ps, 0);
    if j == 0 {
      FirstSelects(ps);
    } else {
      SinglesArePasses(ps, j);
      assert NoRescale(ps, j);
      LaterSelects(ps, Started(ps), j);
    }
  }

  lemma FirstSelects(ps: seq<Proposer>)
    requires InUse(ps) && Startable(ps)
    ensures Selected(ps, 1) == Chosen(Started(ps), TotalPower(ps), 0)
  {
    hide TotalPower, Normalize, Rescalable, RescaleExact, Roomy, ShiftExact, Floored, Elect;
    PowersBounded(ps);
    StartableCall(ps);
  }

  lemma LaterSelects(ps: seq<Proposer>, start: seq<Proposer>, j: nat)
    requires InUse(ps) && Floored(start) && Roomy(start) && TotalPower(start) == TotalPower(ps)
    requires SpreadWithin(After(start, TotalPower(ps), j), Window(ps))
    ensures Selected(After(start, TotalPower(ps), j), 1) == Chosen(start, TotalPower(ps), j)
  {
    hide After, TotalPower, Roomy, Legal, SpreadWithin, Elect, ExactUntil, Levelled, Centred, Normalize, Rescalable;
    FlooredForever(start, TotalPower(start), j);
    WindowOf(ps, start, j);
    BoundaryIsIdentity(start, j);
    var qs := After(start, TotalPower(ps), j);
    PowersBounded(qs);
    NothingAfter(qs, TotalPower(ps));
  }

  lemma NothingAfter(ps: seq<Proposer>, total: Int64)
    requires |ps| > 0
    ensures After(ps, total, 0) == ps
  {
  }

  /**
   * The wait across calls with one pass each: among m calls of which none but the first rescales, and that bring more
   * than T(H(n) + 3), one selects the validator. So who waits longer has seen a rescaling.
   */
  lemma WaitAcrossCalls(ps: seq<Proposer>, i: nat, m: nat) returns (j: nat)
    requires InUse(ps) && Startable(ps) && i < |ps| && Enough(ps, i, m)
    requires forall l :: 0 < l < m ==> NoRescale(ps, l)
    ensures j < m && Single(ps, j).Done? && Selected(Single(ps, j).proposers, 1) == i
  {
    hide TotalPower, Legal, Single, Selected, Selections, Roomy, Harmonic, NoRescale, Chosen, Enough, Floored, Started,
         Startable;
    StartedPower(ps, i);
    var start, total: Int64 := Started(ps), TotalPower(ps);
    EnoughSame(ps, start, i, m);
    ShortWait(start, total, i, 0, m);
    j := SomePass(start, total, i, m);
    SingleSelects(ps, j);
  }

  lemma EnoughSame(ps: seq<Proposer>, qs: seq<Proposer>, i: nat, m: nat)
    requires |ps| == |qs| && i < |ps| && TotalPower(ps) == TotalPower(qs) && ps[i].votingPower == qs[i].votingPower
    requires Enough(ps, i, m)
    ensures Enough(qs, i, m)
  {
  }

  lemma StartedPower(ps: seq<Proposer>, i: nat)
    requires InUse(ps) && Startable(ps) && i < |ps|
    ensures 0 <= TotalPower(ps) <= MAX_TOTAL_VOTING_POWER && Started(ps)[i].votingPower == ps[i].votingPower
    ensures Selections(Started(ps), TotalPower(ps), i, 0) == 0
  {
    hide TotalPower, Normalize, Rescalable, RescaleExact, Roomy, ShiftExact, Floored, DistinctAddresses;
    PowersBounded(ps);
    StartableCall(ps);
    NormalizeShape(ps);
  }

  // ---- sets that are never rescaled

  /** What passes from a fresh set keep: nobody owes a total, and every choice is below the level from zero. */
  ghost predicate Light(ps: seq<Proposer>) {
    && InUse(ps) && Sum(Priorities(ps)) == 0 && (forall i :: 0 <= i < |ps| ==> 1 - TotalPower(ps) <= ps[i].priority)
    && Levelled(ps, 0.0)
  }

  lemma FreshIsLight(ps: seq<Proposer>)
    requires Fresh(ps)
    ensures Light(ps)
  {
    hide TotalPower, DistinctAddresses, Levelled;
    SumConst(Priorities(ps), 0);
    BoundIsLevel(ps, 0);
  }

  /** With a harmonic number of at most 2, that is up to three validators, the spread stays within the window. */
  lemma LightInWindow(ps: seq<Proposer>)
    requires Light(ps) && Harmonic(|ps|) <= 2.0
    ensures (forall i :: 0 <= i < |ps| ==> ps[i].priority <= TotalPower(ps)) && SpreadWithin(ps, 2 * TotalPower(ps))
  {
    hide TotalPower, DistinctAddresses, Levelled, Harmonic, Sum;
    forall i | 0 <= i < |ps| ensures ps[i].priority <= TotalPower(ps) {
      SingleLevel(ps, 0.0, i);
      AtMostOnce(ps[i].priority, TotalPower(ps), Harmonic(|ps|));
    }
  }

  lemma AtMostOnce(p: int, total: nat, h: real)
    requires p as real <= 0.0 + total as real * (h - 1.0) && h <= 2.0
    ensures p <= total
  {
    RealOrder(total as real, h - 1.0, 1.0);
  }

  lemma LightStep(ps: seq<Proposer>, total: Int64)
    requires Light(ps) && total == TotalPower(ps) && Harmonic(|ps|) <= 2.0
    ensures Light(IncrementOnce(ps, total)) && TotalPower(IncrementOnce(ps, total)) == total
    ensures IncrementExact(ps, total)
  {
    hide TotalPower, DistinctAddresses, Levelled, Harmonic, Sum, IncrementOnce, Elect, Priorities;
    LightInWindow(ps);
    PowersBounded(ps);
    IncrementIsExact(ps, total);
    LevelStep(ps, total, 0.0);
  }

  lemma {:induction false} LightForever(ps: seq<Proposer>, total: Int64, k: nat)
    requires Light(ps) && total == TotalPower(ps) && |ps| > 0 && Harmonic(|ps|) <= 2.0
    ensures Light(After(ps, total, k)) && TotalPower(After(ps, total, k)) == total
  {
    hide TotalPower, Light, Harmonic, IncrementOnce, IncrementExact, Elect;
    if k > 0 {
      LightForever(ps, total, k - 1);
      LightStep(After(ps, total, k - 1), total);
    }
  }

  lemma FewHarmonics(n: nat)
    requires n <= 3
    ensures Harmonic(n) <= 2.0
  {
    SmallHarmonics();
  }

  /** A fresh set of up to three validators is never rescaled by single calls, however many. */
  lemma {:induction false} FewNeverRescale(ps: seq<Proposer>, j: nat)
    requires Fresh(ps) && InUse(ps) && Startable(ps) && |ps| <= 3
    ensures NoRescale(ps, j)
    decreases j
  {
    hide TotalPower, Legal, Single, Startable, Harmonic, SpreadWithin, Started, Light;
    FewHarmonics(|ps|);
    FreshIsLight(ps);
    NextSingle(ps, 0);
    if j == 0 {
      LightInWindow(ps);
    } else {
      forall l | 0 < l < j ensures NoRescale(ps, l) { FewNeverRescale(ps, l); }
      SinglesArePasses(ps, j);
      StartedFresh(ps);
      LightForever(ps, TotalPower(ps), j);
      LightInWindow(After(ps, TotalPower(ps), j));
    }
  }

  lemma StartedFresh(ps: seq<Proposer>)
    requires Fresh(ps) && Startable(ps)
    ensures Started(ps) == ps && 0 <= TotalPower(ps) <= MAX_TOTAL_VOTING_POWER
  {
    hide TotalPower, Normalize, Rescalable, RescaleExact, Roomy, DistinctAddresses;
    PowersBounded(ps);
    FreshIsNormal(ps);
  }

  /** So up to three validators never starve across calls with one pass each. */
  lemma FewNeverStarve(ps: seq<Proposer>, i: nat, m: nat) returns (j: nat)
    requires Fresh(ps) && InUse(ps) && Startable(ps) && |ps| <= 3 && i < |ps| && Enough(ps, i, m)
    ensures j < m && Single(ps, j).Done? && Selected(Single(ps, j).proposers, 1) == i
  {
    hide *;
    forall l: nat | 0 < l < m ensures NoRescale(ps, l) { FewNeverRescale(ps, l); }
    j := WaitAcrossCalls(ps, i, m);
  }
}
