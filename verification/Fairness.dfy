/** What whole runs of IncrementProposerPriority guarantee. */
module Fairness {
  import opened Int64
  import opened Bytes
  import opened Sums
  import opened Proposers
  import opened Scheduler
  import opened Levels

  datatype Outcome = Panic | Done(proposers: seq<Proposer>)

  /** IncrementProposerPriority(times) on any list: it panics on an empty set, on times <= 0, and above the cap. */
  function Call(ps: seq<Proposer>, times: int): Outcome {
    if |ps| > 0 && times > 0 && 0 <= TotalPower(ps) <= MAX_TOTAL_VOTING_POWER then
      NeverZeroDivisor(ps, Window(ps));
      Done(IncrementPriorities(ps, times))
    else Panic
  }

  /** The position such a call selects last, or -1 if it panics. */
  function Selected(ps: seq<Proposer>, times: int): int {
    if Call(ps, times).Done? then
      NeverZeroDivisor(ps, Window(ps));
      Elect(After(Normalize(ps), TotalPower(ps), times - 1)) else -1
  }

  function Calls(ps: seq<Proposer>, times: seq<int>): Outcome {
    if |times| == 0 then Done(ps)
    else
      match Calls(ps, times[..|times| - 1])
      case Panic => Panic
      case Done(qs) => Call(qs, times[|times| - 1])
  }

  /** The index selected by pass `k` of the loop, counting from 0. */
  function Chosen(ps: seq<Proposer>, total: Int64, k: nat): (m: nat)
    requires |ps| > 0
    ensures m < |ps|
  {
    Elect(After(ps, total, k))
  }

  /** How often index `i` is selected in the first `k` passes. */
  function Selections(ps: seq<Proposer>, total: Int64, i: nat, k: nat): nat
    requires |ps| > 0
  {
    if k == 0 then 0 else Selections(ps, total, i, k - 1) + if Chosen(ps, total, k - 1) == i then 1 else 0
  }

  /** None of the first `k` passes saturates. */
  ghost predicate ExactUntil(ps: seq<Proposer>, total: Int64, k: nat)
    requires |ps| > 0
  {
    k > 0 ==> ExactUntil(ps, total, k - 1) && IncrementExact(After(ps, total, k - 1), total)
  }

  /** Without saturation the passes keep the sum. */
  lemma {:induction false} SumConserved(ps: seq<Proposer>, total: Int64, k: nat)
    requires InUse(ps) && total == TotalPower(ps) && Sum(Priorities(ps)) >= 0 && ExactUntil(ps, total, k)
    ensures InUse(After(ps, total, k)) && TotalPower(After(ps, total, k)) == total
    ensures Sum(Priorities(After(ps, total, k))) == Sum(Priorities(ps))
  {
    assert |ps| > 0;
    hide InUse, IncrementOnce, Elect, Priorities, TotalPower;
    if k > 0 {
      SumConserved(ps, total, k - 1);
      IncrementIsExact(After(ps, total, k - 1), total);
    }
  }

  /** A priority `k` passes on, of which `c` selected the validator. */
  function Owed(start: int, w: int, total: int, k: nat, c: nat): int { start + k * w - total * c }

  lemma OwedStep(start: int, w: int, total: int, k: nat, c: nat)
    ensures Owed(start, w, total, 0, 0) == start
    ensures Owed(start, w, total, k + 1, c) == Owed(start, w, total, k, c) + w
    ensures Owed(start, w, total, k + 1, c + 1) == Owed(start, w, total, k, c) + w - total
  {
  }

  /** Without saturation a priority is its start plus k powers less one total per selection. */
  lemma {:induction false} PriorityFormula(ps: seq<Proposer>, total: Int64, i: nat, k: nat)
    requires InUse(ps) && total == TotalPower(ps) && Sum(Priorities(ps)) >= 0 && ExactUntil(ps, total, k)
    requires i < |ps|
    ensures After(ps, total, k)[i].priority
            == Owed(ps[i].priority, ps[i].votingPower, total, k, Selections(ps, total, i, k))
  {
    hide InUse, IncrementOnce, Elect, Priorities, TotalPower, SameShape, Owed, Sum, Legal;
    OwedStep(ps[i].priority, ps[i].votingPower, total, 0, 0);
    if k > 0 {
      PriorityFormula(ps, total, i, k - 1);
      SumConserved(ps, total, k - 1);
      AfterPower(ps, total, i, k - 1);
      IncrementIsExact(After(ps, total, k - 1), total);
      OwedStep(ps[i].priority, ps[i].votingPower, total, k - 1, Selections(ps, total, i, k - 1));
    }
  }

  lemma AfterPower(ps: seq<Proposer>, total: Int64, i: nat, k: nat)
    requires i < |ps|
    ensures After(ps, total, k)[i].votingPower == ps[i].votingPower
  {
    hide After;
    AfterShape(ps, total, k);
  }

  // ---- any number of passes

  /** What every pass keeps: centred, nobody further down than the window, every choice below its level. */
  ghost predicate Floored(ps: seq<Proposer>) {
    && InUse(ps) && Centred(ps) && (forall i :: 0 <= i < |ps| ==> -2 * TotalPower(ps) <= ps[i].priority)
    && Levelled(ps, 2.0 * TotalPower(ps) as real)
  }

  /** The int64 range leaves room for the highest level: a factor that grows with the logarithm of the set's size. */
  ghost predicate Roomy(ps: seq<Proposer>) {
    TotalPower(ps) as real * (Harmonic(|ps|) + 5.0) <= MAX_INT64 as real
  }

  /** The highest a priority can get: T(H(n) + 1). */
  function Highest(total: int, n: nat): real { total as real * (Harmonic(n) + 1.0) }

  /** No priority is above that. */
  lemma LevelHolds(ps: seq<Proposer>)
    requires Floored(ps)
    ensures forall i :: 0 <= i < |ps| ==> ps[i].priority as real <= TotalPower(ps) as real * (Harmonic(|ps|) + 1.0)
  {
    hide TotalPower, Levelled, Legal, Centred, Harmonic;
    forall i | 0 <= i < |ps| ensures ps[i].priority as real <= TotalPower(ps) as real * (Harmonic(|ps|) + 1.0) {
      SingleLevel(ps, 2.0 * TotalPower(ps) as real, i);
      LevelSum(TotalPower(ps) as real, Harmonic(|ps|));
    }
  }

  lemma LevelSum(t: real, h: real)
    ensures 2.0 * t + t * (h - 1.0) == t * (h + 1.0)
    ensures t * (h + 5.0) == t * (h + 1.0) + 4.0 * t
  {
  }

  /** What Roomy leaves above the highest priority. */
  lemma RoomLeft(ps: seq<Proposer>)
    requires Floored(ps) && Roomy(ps)
    ensures forall i :: 0 <= i < |ps| ==> ps[i].priority + 4 * TotalPower(ps) <= MAX_INT64
  {
    hide TotalPower, Levelled, Legal, Centred, Harmonic;
    LevelHolds(ps);
    LevelSum(TotalPower(ps) as real, Harmonic(|ps|));
  }

  /** The linear condition (n + 1)(2T + 1) <= MaxInt64 is one way to have room. */
  lemma LinearRoom(ps: seq<Proposer>)
    requires InUse(ps) && (|ps| + 1) * (2 * TotalPower(ps) + 1) <= MAX_INT64
    ensures Roomy(ps)
  {
    hide TotalPower, DistinctAddresses, Harmonic;
    var n, t := |ps|, TotalPower(ps);
    if n <= 2 {
      SmallHarmonics();
      assert t as real * (Harmonic(n) + 5.0) <= t as real * 8.0;
    } else {
      HarmonicBelow(n);
      RoomInReals(n, t, Harmonic(n));
    }
  }

  lemma SmallHarmonics()
    ensures Harmonic(0) == 0.0 && Harmonic(1) == 1.0 && Harmonic(2) == 1.5 && Harmonic(3) < 2.0
  {
    HarmonicOne();
    assert Harmonic(2) == Harmonic(1) + 1.0 / (2 as real);
    assert Harmonic(3) == Harmonic(2) + 1.0 / (3 as real);
  }

  lemma {:induction false} HarmonicBelow(n: nat)
    requires n >= 3
    ensures Harmonic(n) <= n as real - 1.0
  {
    if n == 3 {
      SmallHarmonics();
    } else {
      HarmonicBelow(n - 1);
      assert 1.0 / (n as real) <= 1.0;
    }
  }

  lemma RoomInReals(n: nat, t: nat, h: real)
    requires n >= 3 && h <= n as real - 1.0 && (n + 1) * (2 * t + 1) <= MAX_INT64
    ensures t as real * (h + 5.0) <= MAX_INT64 as real
  {
    var x, r := (n + 1) as real, t as real;
    RoomInIntegers(n, t);
    RealProduct(n + 1, 2 * t);
    assert (2 * t) as real == 2.0 * r;
    RealSwap(x, r);
    RealOrder(r, h + 5.0, 2.0 * x);
  }

  lemma RoomInIntegers(n: nat, t: nat)
    requires (n + 1) * (2 * t + 1) <= MAX_INT64
    ensures (n + 1) * (2 * t) <= MAX_INT64
  {
    ProductOrder(n + 1, 2 * t, 2 * t + 1);
  }

  lemma RealSwap(x: real, r: real)
    ensures x * (2.0 * r) == r * (2.0 * x)
  {
  }

  lemma RealOrder(t: real, x: real, y: real)
    requires t >= 0.0 && x <= y
    ensures t * x <= t * y
  {
  }

  function Ceiling(n: int, total: int): int { (n - 1) * (2 * total + 1) }

  lemma CeilingHolds(ps: seq<Proposer>)
    requires Floored(ps)
    ensures forall i :: 0 <= i < |ps| ==> ps[i].priority <= Ceiling(|ps|, TotalPower(ps))
  {
    hide TotalPower, Sum, Legal, Ceiling, Levelled;
    forall i | 0 <= i < |ps| ensures ps[i].priority <= Ceiling(|ps|, TotalPower(ps)) {
      ElementAtMost(Priorities(ps), -2 * TotalPower(ps), i);
      BelowCeiling(|ps|, TotalPower(ps), Sum(Priorities(ps)), ps[i].priority);
    }
  }

  lemma BelowCeiling(n: int, total: int, sum: int, p: int)
    requires n > 0 && sum < n && p <= sum - (n - 1) * (-2 * total)
    ensures p <= Ceiling(n, total)
  {
    assert (n - 1) * (2 * total + 1) == (n - 1) * (2 * total) + (n - 1);
    assert (n - 1) * (-2 * total) == -((n - 1) * (2 * total));
  }

  lemma FlooredStep(ps: seq<Proposer>, total: Int64)
    requires Floored(ps) && Roomy(ps) && total == TotalPower(ps)
    ensures IncrementExact(ps, total)
    ensures Floored(IncrementOnce(ps, total)) && Roomy(IncrementOnce(ps, total))
    ensures TotalPower(IncrementOnce(ps, total)) == total
  {
    hide IncrementOnce, Elect, TotalPower, Priorities, Sum, DistinctAddresses, Roomy, Levelled;
    RoomLeft(ps);
    PowersBounded(ps);
    IncrementIsExact(ps, total);
    LevelStep(ps, total, 2.0 * total as real);
    RoomySame(ps, IncrementOnce(ps, total));
  }

  lemma {:induction false} FlooredForever(ps: seq<Proposer>, total: Int64, k: nat)
    requires Floored(ps) && Roomy(ps) && total == TotalPower(ps)
    ensures Floored(After(ps, total, k)) && Roomy(After(ps, total, k)) && TotalPower(After(ps, total, k)) == total
    ensures ExactUntil(ps, total, k)
  {
    hide IncrementOnce, Elect, Legal, Centred, Levelled, Roomy, IncrementExact, TotalPower, Priorities, Sum;
    if k > 0 {
      FlooredForever(ps, total, k - 1);
      FlooredStep(After(ps, total, k - 1), total);
    }
  }

  lemma RoomySame(ps: seq<Proposer>, qs: seq<Proposer>)
    requires Roomy(ps) && |ps| == |qs| && TotalPower(ps) == TotalPower(qs)
    ensures Roomy(qs)
  {
  }

  lemma FlooredBounds(ps: seq<Proposer>)
    requires Floored(ps) && Roomy(ps)
    ensures RescaleExact(ps, Window(ps))
  {
    hide TotalPower, Priorities, Sum, DistinctAddresses, Roomy, Levelled;
    RoomLeft(ps);
    PowersBounded(ps);
  }

  /** A call with `k` passes does only exact int64 arithmetic. */
  ghost predicate CallExact(ps: seq<Proposer>, k: nat)
    requires InUse(ps)
  {
    && RescaleExact(ps, Window(ps)) && Rescalable(ps, Window(ps))
    && ShiftExact(Rescale(ps, Window(ps)))
    && ExactUntil(Normalize(ps), TotalPower(ps), k)
  }

  /** What AnyTimes starts from: the overflow guard of the first rescaling, and room. */
  ghost predicate Startable(ps: seq<Proposer>) {
    InUse(ps) && RescaleExact(ps, Window(ps)) && Roomy(ps)
  }

  /** The rescaling and the shift at the start of a call lead to the invariant, wherever the priorities stood. */
  lemma StartableCall(ps: seq<Proposer>)
    requires Startable(ps)
    ensures Rescalable(ps, Window(ps)) && ShiftExact(Rescale(ps, Window(ps)))
    ensures Floored(Normalize(ps)) && Roomy(Normalize(ps)) && TotalPower(Normalize(ps)) == TotalPower(ps)
  {
    hide Normalize, Rescalable, RescaleExact, ShiftExact, Rescale, Sum, Priorities, TotalPower, Roomy,
         DistinctAddresses,
         Centred, Levelled;
    NormalizeFits(ps);
    PowersBounded(ps);
    NormalizeShape(ps);
    SameShapePowers(ps, Normalize(ps));
    BoundIsLevel(Normalize(ps), 2 * TotalPower(ps));
    RoomySame(ps, Normalize(ps));
  }

  lemma StartableCallExact(ps: seq<Proposer>, k: nat)
    requires Startable(ps)
    ensures CallExact(ps, k) && 0 <= TotalPower(ps) <= MAX_TOTAL_VOTING_POWER
    ensures Floored(IncrementPriorities(ps, k)) && Roomy(IncrementPriorities(ps, k))
    ensures SameShape(ps, IncrementPriorities(ps, k))
  {
    hide Normalize, Roomy, After, TotalPower, DistinctAddresses, Centred, Rescalable, RescaleExact, ShiftExact,
         ExactUntil;
    StartableCall(ps);
    PowersBounded(ps);
    NormalizeShape(ps);
    AfterShape(Normalize(ps), TotalPower(ps), k);
    FlooredForever(Normalize(ps), TotalPower(ps), k);
  }

  lemma FlooredIsStartable(ps: seq<Proposer>)
    requires Floored(ps) && Roomy(ps)
    ensures Startable(ps)
  {
    hide Roomy, RescaleExact;
    FlooredBounds(ps);
  }

  lemma FlooredCallExact(ps: seq<Proposer>, k: nat)
    requires Floored(ps) && Roomy(ps)
    ensures CallExact(ps, k) && 0 <= TotalPower(ps) <= MAX_TOTAL_VOTING_POWER
    ensures Floored(IncrementPriorities(ps, k)) && Roomy(IncrementPriorities(ps, k))
    ensures SameShape(ps, IncrementPriorities(ps, k))
  {
    hide *;
    FlooredIsStartable(ps);
    StartableCallExact(ps, k);
  }

  lemma {:induction false} CallsStayStartable(ps: seq<Proposer>, times: seq<int>)
    requires Startable(ps)
    requires forall i :: 0 <= i < |times| ==> times[i] > 0
    ensures Calls(ps, times).Done?
    ensures Startable(Calls(ps, times).proposers) && SameShape(ps, Calls(ps, times).proposers)
  {
    hide IncrementPriorities, Roomy, RescaleExact, TotalPower, Rescalable, ExactUntil, ShiftExact, Floored,
         DistinctAddresses;
    if |times| > 0 {
      var n := |times| - 1;
      CallsStayStartable(ps, times[..n]);
      var before := Calls(ps, times[..n]).proposers;
      StartableCallExact(before, times[n]);
      PowersBounded(before);
      FlooredIsStartable(IncrementPriorities(before, times[n]));
    }
  }

  /**
   * Whatever numbers of passes the calls ask for, from any set whose first rescaling does not overflow and that leaves
   * room: nothing saturates or overflows in the next call, every pass conserves the sum and leaves each priority at its
   * starting value plus its accrued power less the total per selection, between -2T and T(H(n) + 1).
   */
  lemma AnyTimes(ps: seq<Proposer>, times: seq<int>, i: nat, k: nat)
    requires Startable(ps) && i < |ps|
    requires forall i :: 0 <= i < |times| ==> times[i] > 0
    ensures Calls(ps, times).Done?
    ensures var qs := Calls(ps, times).proposers;
      && SameShape(ps, qs) && InUse(qs) && CallExact(qs, k)
      && var start, total := Normalize(qs), TotalPower(qs);
      && Sum(Priorities(After(start, total, k))) == Sum(Priorities(start))
      && var p := After(start, total, k)[i].priority;
      && p == Owed(start[i].priority, ps[i].votingPower, total, k, Selections(start, total, i, k))
      && -2 * total <= p && p as real <= Highest(total, |ps|)
  {
    hide Calls, Floored, Normalize, Roomy, Highest, Elect, IncrementOnce, After, RescaleExact, Rescalable, ExactUntil,
         ShiftExact, Legal;
    CallsStayStartable(ps, times);
    var qs := Calls(ps, times).proposers;
    StartableCallExact(qs, k);
    StartableCall(qs);
    NormalizeShape(qs);
    var start, total: Int64 := Normalize(qs), TotalPower(qs);
    assert start[i].votingPower == ps[i].votingPower;
    PassFacts(start, total, i, k);
  }

  /** What any number of passes leaves. */
  lemma PassFacts(ps: seq<Proposer>, total: Int64, i: nat, k: nat)
    requires Floored(ps) && Roomy(ps) && total == TotalPower(ps) && i < |ps|
    ensures Sum(Priorities(After(ps, total, k))) == Sum(Priorities(ps))
    ensures var p := After(ps, total, k)[i].priority;
      && p == Owed(ps[i].priority, ps[i].votingPower, total, k, Selections(ps, total, i, k))
      && -2 * total <= p && p as real <= Highest(total, |ps|)
  {
    hide After, Roomy, Levelled, Harmonic, Legal, Priorities, Sum, TotalPower, ExactUntil, Owed, Selections;
    FlooredForever(ps, total, k);
    LevelHolds(After(ps, total, k));
    SumConserved(ps, total, k);
    PriorityFormula(ps, total, i, k);
  }

  lemma {:induction false} SelectionsGrow(ps: seq<Proposer>, total: Int64, i: nat, j: nat, k: nat)
    requires |ps| > 0 && j <= k
    ensures Selections(ps, total, i, j) <= Selections(ps, total, i, k)
    decreases k
  {
    hide Elect, After;
    if j < k { SelectionsGrow(ps, total, i, j, k - 1); }
  }

  lemma FloorAndCeiling(ps: seq<Proposer>, total: Int64, i: nat, k: nat)
    requires Floored(ps) && Roomy(ps) && total == TotalPower(ps) && i < |ps|
    ensures -2 * total <= After(ps, total, k)[i].priority <= Ceiling(|ps|, total)
  {
    hide After, TotalPower, Ceiling, Roomy, Priorities, Sum, Levelled;
    FlooredForever(ps, total, k);
    CeilingHolds(After(ps, total, k));
  }

  lemma SelectedWithin(ps: seq<Proposer>, total: Int64, i: nat, k: nat, m: nat)
    requires Floored(ps) && Roomy(ps) && InUse(ps) && total == TotalPower(ps) && total >= 0
    requires Sum(Priorities(ps)) >= 0 && |ps| > 0 && i < |ps| && ps[i].votingPower > 0
    requires m == |ps| * (2 * total + 1)
    ensures Selections(ps, total, i, k + m) > Selections(ps, total, i, k)
  {
    hide *;
    FlooredForever(ps, total, k);
    FlooredForever(ps, total, k + m);
    FloorAndCeiling(ps, total, i, k);
    FloorAndCeiling(ps, total, i, k + m);
    PriorityFormula(ps, total, i, k);
    PriorityFormula(ps, total, i, k + m);
    SelectionsGrow(ps, total, i, k, k + m);
    LongWait(|ps|, total, ps[i].votingPower, k, m, ps[i].priority,
             Selections(ps, total, i, k), Selections(ps, total, i, k + m));
  }

  /** No starvation: a validator with power is selected in any n(2T+1) consecutive passes. */
  lemma NoStarvation(ps: seq<Proposer>, total: Int64, i: nat, k: nat)
    requires Floored(ps) && Roomy(ps) && total == TotalPower(ps)
    requires i < |ps| && ps[i].votingPower > 0
    ensures |ps| * (2 * total + 1) >= 0
    ensures Selections(ps, total, i, k + |ps| * (2 * total + 1)) > Selections(ps, total, i, k)
  {
    hide TotalPower, Sum, Priorities, Legal, Selections, Roomy;
    PowersBounded(ps);
    ProductSign(|ps|, 2 * total + 1);
    SelectedWithin(ps, total, i, k, |ps| * (2 * total + 1));
  }

  /** Over n(2T+1) passes the gain alone spans more than the range between floor and ceiling. */
  lemma LongWait(n: nat, total: int, w: int, k: nat, m: nat, start: int, c: nat, c': nat)
    requires n > 0 && total >= 0 && w > 0 && m == n * (2 * total + 1) && c <= c'
    requires -2 * total <= Owed(start, w, total, k, c) && Owed(start, w, total, k + m, c') <= Ceiling(n, total)
    ensures c < c'
  {
    if c == c' {
      WaitingGain(n, total, w, k, m, start, c);
      assert false;
    }
  }

  lemma WaitingGain(n: nat, total: int, w: int, k: nat, m: nat, start: int, c: nat)
    requires n > 0 && total >= 0 && w > 0 && m == n * (2 * total + 1)
    ensures Owed(start, w, total, k + m, c) - Owed(start, w, total, k, c) > Ceiling(n, total) + 2 * total
  {
    assert (k + m) * w == k * w + m * w;
    ProductOrder(m, 1, w);
    assert n * (2 * total + 1) == (n - 1) * (2 * total + 1) + (2 * total + 1);
  }

  // ---- exact proportionality

  /** A set as a first update leaves it: every priority zero. */
  ghost predicate Fresh(ps: seq<Proposer>) {
    InUse(ps) && forall i :: 0 <= i < |ps| ==> ps[i].priority == 0
  }

  lemma FreshIsNormal(ps: seq<Proposer>)
    requires Fresh(ps)
    ensures Sum(Priorities(ps)) == 0 && SpreadWithin(ps, 0) && Centred(ps)
    ensures RescaleExact(ps, Window(ps)) && Rescalable(ps, Window(ps)) && Normalize(ps) == ps
  {
    hide Normalize, Rescalable, TotalPower, DistinctAddresses;
    SumConst(Priorities(ps), 0);
    PowersBounded(ps);
    SpreadIsExact(ps);
    NormalizeFits(ps);
  }

  ghost predicate AboveMinusTotal(ps: seq<Proposer>) {
    && InUse(ps) && AllPositive(ps) && Sum(Priorities(ps)) == 0
    && forall i :: 0 <= i < |ps| ==> 1 - TotalPower(ps) <= ps[i].priority
  }

  lemma ProductWithin32(a: int, b: int)
    requires 0 <= a <= 0x7FFF_FFFF && 0 <= b <= 0x7FFF_FFFF
    ensures 0 <= a * b <= 0x3FFF_FFFF_0000_0001
  {
    assert a * b <= 0x7FFF_FFFF * b;
  }

  lemma AboveMinusTotalStep(ps: seq<Proposer>, total: Int64)
    requires AboveMinusTotal(ps) && total == TotalPower(ps) <= 0x7FFF_FFFF
    ensures IncrementExact(ps, total) && AboveMinusTotal(IncrementOnce(ps, total))
    ensures TotalPower(IncrementOnce(ps, total)) == total
  {
    hide IncrementOnce, Elect, TotalPower, Sum, DistinctAddresses;
    PowersBounded(ps);
    forall i | 0 <= i < |ps| ensures InInt64(ps[i].priority + ps[i].votingPower) {
      RoomAbove(ps, total, i);
    }
    IncrementIsExact(ps, total);
    IncrementOnceShape(ps, total);
    SameShapePowers(ps, IncrementOnce(ps, total));
  }

  /** What the others owe bounds what one can hold. */
  lemma RoomAbove(ps: seq<Proposer>, total: Int64, i: nat)
    requires AboveMinusTotal(ps) && total == TotalPower(ps) <= 0x7FFF_FFFF && i < |ps| <= total
    ensures ps[i].priority <= 0x3FFF_FFFF_0000_0001
  {
    hide TotalPower, Sum, DistinctAddresses;
    ElementAtMost(Priorities(ps), 1 - total, i);
    ProductWithin32(|ps| - 1, total - 1);
    assert (|ps| - 1) * (1 - total) == -((|ps| - 1) * (total - 1));
  }

  lemma {:induction false} AboveMinusTotalForever(ps: seq<Proposer>, total: Int64, k: nat)
    requires AboveMinusTotal(ps) && total == TotalPower(ps) <= 0x7FFF_FFFF
    ensures AboveMinusTotal(After(ps, total, k)) && TotalPower(After(ps, total, k)) == total
    ensures ExactUntil(ps, total, k)
  {
    assert |ps| > 0;
    hide IncrementOnce, Elect, AboveMinusTotal, IncrementExact, TotalPower, Sum;
    if k > 0 {
      AboveMinusTotalForever(ps, total, k - 1);
      AboveMinusTotalStep(After(ps, total, k - 1), total);
    }
  }

  function SelectionCounts(ps: seq<Proposer>, total: Int64, k: nat): seq<int>
    requires |ps| > 0
  {
    seq(|ps|, i requires 0 <= i < |ps| => Selections(ps, total, i, k) as int)
  }

  /** Every pass selects one validator. */
  lemma {:induction false} OneSelectionPerPass(ps: seq<Proposer>, total: Int64, k: nat)
    requires |ps| > 0
    ensures Sum(SelectionCounts(ps, total, k)) == k
  {
    hide Elect, After, Sum;
    var counts := SelectionCounts(ps, total, k);
    if k == 0 {
      SumConst(counts, 0);
    } else {
      OneSelectionPerPass(ps, total, k - 1);
      var before, m := SelectionCounts(ps, total, k - 1), Chosen(ps, total, k - 1);
      assert counts == before[m := before[m] + 1];
      SumUpdate(before, m, before[m] + 1);
    }
  }

  /** No one is ever selected more often than its power by the end of T passes. */
  lemma NeverAhead(ps: seq<Proposer>, t: Int64, i: nat)
    requires Fresh(ps) && AllPositive(ps) && t == TotalPower(ps) <= 0x7FFF_FFFF && i < |ps|
    ensures After(ps, t, t)[i].priority == t * (ps[i].votingPower - Selections(ps, t, i, t))
    ensures Selections(ps, t, i, t) <= ps[i].votingPower
  {
    hide After, Selections, Normalize, Rescalable, RescaleExact, Sum, TotalPower, Priorities, Legal, Owed;
    FreshIsNormal(ps);
    AboveMinusTotalForever(ps, t, t);
    PriorityFormula(ps, t, i, t);
    NotOverspent(ps[i].votingPower, t, Selections(ps, t, i, t));
  }

  lemma NotOverspent(w: int, t: int, c: nat)
    requires t > 0 && Owed(0, w, t, t, c) >= 1 - t
    ensures Owed(0, w, t, t, c) == t * (w - c) && c <= w
  {
    assert t * (w - c) == t * w - t * c && t * -1 == -t;
    SmallerFactor(t, -1, w - c);
  }

  lemma AllCaughtUp(ps: seq<Proposer>, t: Int64, i: nat)
    requires Fresh(ps) && AllPositive(ps) && t == TotalPower(ps) <= 0x7FFF_FFFF && i < |ps|
    ensures Selections(ps, t, i, t) == ps[i].votingPower && After(ps, t, t)[i] == ps[i]
  {
    hide After, Selections, Fresh, AllPositive, Sum, InUse;
    PowersBounded(ps) by { assert Legal(ps) by { FreshLegal(ps); } }
    var counts := SelectionCounts(ps, t, t);
    forall j | 0 <= j < |ps| ensures counts[j] <= Powers(ps)[j] {
      NeverAhead(ps, t, j);
    }
    OneSelectionPerPass(ps, t, t);
    EqualSums(counts, Powers(ps), i);
    NeverAhead(ps, t, i);
    AfterShape(ps, t, t);
    FreshZero(ps, i);
  }

  lemma FreshLegal(ps: seq<Proposer>)
    requires Fresh(ps)
    ensures Legal(ps)
  {
  }

  lemma FreshZero(ps: seq<Proposer>, i: nat)
    requires Fresh(ps) && i < |ps|
    ensures ps[i].priority == 0
  {
  }

  /** From a fresh set, T passes select everyone exactly as often as its power says and end where they began. */
  lemma ExactProportionality(ps: seq<Proposer>)
    requires Fresh(ps) && AllPositive(ps) && TotalPower(ps) <= 0x7FFF_FFFF
    ensures Call(ps, TotalPower(ps)) == Done(ps)
    ensures ExactUntil(ps, TotalPower(ps), TotalPower(ps))
    ensures forall i :: 0 <= i < |ps| ==> Selections(ps, TotalPower(ps), i, TotalPower(ps)) == ps[i].votingPower
  {
    FreshIsNormal(ps);
    var t: Int64 := TotalPower(ps);
    hide Normalize, Rescalable, Window, RescaleExact, Sum, TotalPower, Priorities, Legal, After, Selections;
    AboveMinusTotalForever(ps, t, t);
    forall i | 0 <= i < |ps| ensures Selections(ps, t, i, t) == ps[i].votingPower && After(ps, t, t)[i] == ps[i] {
      AllCaughtUp(ps, t, i);
    }
    assert After(ps, t, t) == ps;
  }

  // ---- exact round robin

  /** A fresh set of equals, in the order a set keeps its members. */
  ghost predicate FreshEquals(ps: seq<Proposer>, w: int) {
    Fresh(ps) && PowerSorted(ps) && forall i :: 0 <= i < |ps| ==> ps[i].votingPower == w
  }

  lemma EqualsByAddress(ps: seq<Proposer>, w: int)
    requires FreshEquals(ps, w)
    ensures forall i, j :: 0 <= i < j < |ps| ==> Less(ps[i].address, ps[j].address)
  {
    hide Less;
    forall i, j | 0 <= i < j < |ps| ensures Less(ps[i].address, ps[j].address) {
      assert PowerLess(ps[i], ps[j]);
    }
  }

  lemma EqualsTotal(ps: seq<Proposer>, w: int)
    requires FreshEquals(ps, w)
    ensures TotalPower(ps) == |ps| * w && w > 0
  {
    SumConst(Powers(ps), w);
    assert w <= 0 ==> |ps| * w <= 0;
  }

  lemma MultiplesInOrder(w: int, r: int, n: int)
    requires w > 0 && 0 <= r < n
    ensures 0 <= r * w < n * w && r * w + w == (r + 1) * w <= n * w
  {
    var d := n - r - 1;
    assert n * w == r * w + w + d * w;
    assert r * w >= 0 && d * w >= 0;
  }

  /** The priority of position `i` of `n` when the first `r` have had their turn in this lap. */
  function LapPriority(n: nat, w: int, r: nat, i: nat): int {
    r * w - if i < r then n * w else 0
  }

  lemma LapPriorityBounds(ps: seq<Proposer>, w: int, r: nat, i: nat)
    requires FreshEquals(ps, w) && r < |ps|
    ensures -TotalPower(ps) <= LapPriority(|ps|, w, r, i) <= TotalPower(ps) <= MAX_TOTAL_VOTING_POWER
    ensures r == 0 ==> LapPriority(|ps|, w, r, i) == 0
  {
    EqualsTotal(ps, w);
    MultiplesInOrder(w, r, |ps|);
  }

  /** The set in the middle of a lap: the first `r` have had their turn. */
  ghost function LapState(ps: seq<Proposer>, w: int, r: nat): (qs: seq<Proposer>)
    requires FreshEquals(ps, w) && r < |ps|
    ensures |qs| == |ps|
  {
    seq(|ps|, i requires 0 <= i < |ps| =>
      LapPriorityBounds(ps, w, r, i);
      ps[i].(priority := LapPriority(|ps|, w, r, i)))
  }

  lemma LapShape(ps: seq<Proposer>, w: int, r: nat)
    requires FreshEquals(ps, w) && r < |ps|
    ensures SameShape(ps, LapState(ps, w, r))
    ensures InUse(LapState(ps, w, r)) && TotalPower(LapState(ps, w, r)) == TotalPower(ps)
    ensures r == 0 ==> LapState(ps, w, r) == ps
  {
    SameShapePowers(ps, LapState(ps, w, r));
    if r == 0 {
      forall i | 0 <= i < |ps| ensures LapState(ps, w, r)[i] == ps[i] {
        LapPriorityBounds(ps, w, 0, i);
      }
    }
  }

  lemma MostestUnique(ps: seq<Proposer>, m: nat)
    requires m < |ps| && DistinctAddresses(ps)
    requires forall j :: 0 <= j < |ps| && j != m ==> Beats(ps[m], ps[j])
    ensures Mostest(ps) == m
  {
    if Mostest(ps) != m {
      MostestBeatsAll(ps, m);
      BeatsTransitive(ps[m], ps[Mostest(ps)], ps[m]);
      LessIrreflexive(ps[m].address);
    }
  }

  /** The priorities once everyone has gained its power. */
  lemma LapAccrues(ps: seq<Proposer>, w: int, r: nat)
    requires FreshEquals(ps, w) && r < |ps|
    ensures var qs := LapState(ps, w, r);
      forall i :: 0 <= i < |ps| ==>
        && InInt64(qs[i].priority + qs[i].votingPower)
        && Accrue(qs)[i] == ps[i].(priority := LapPriority(|ps|, w, r, i) + w)
  {
    var qs := LapState(ps, w, r);
    forall i | 0 <= i < |ps|
      ensures InInt64(qs[i].priority + qs[i].votingPower)
      ensures Accrue(qs)[i] == ps[i].(priority := LapPriority(|ps|, w, r, i) + w)
    {
      LapPriorityBounds(ps, w, r, i);
      EqualsTotal(ps, w);
      MultiplesInOrder(w, 0, |ps|);
    }
  }

  /** The lowest address among those still to have their turn is preferred. */
  lemma LapElects(ps: seq<Proposer>, w: int, r: nat)
    requires FreshEquals(ps, w) && r < |ps|
    ensures Elect(LapState(ps, w, r)) == r
  {
    LapAccrues(ps, w, r);
    EqualsTotal(ps, w);
    EqualsByAddress(ps, w);
    MultiplesInOrder(w, 0, |ps|);
    hide Accrue, Mostest, TotalPower, Sum;
    MostestUnique(Accrue(LapState(ps, w, r)), r);
  }

  lemma LapPays(n: nat, w: int, r: nat, i: nat)
    requires r < n && i < n
    ensures LapPriority(n, w, r, i) + w - (if i == r then n * w else 0)
            == LapPriority(n, w, if r + 1 == n then 0 else r + 1, i)
  {
    assert r * w + w == (r + 1) * w;
  }

  lemma EqualPower(ps: seq<Proposer>, w: int, i: nat)
    requires FreshEquals(ps, w) && i < |ps|
    ensures ps[i].votingPower == w
  {
  }

  /** One pass hands the turn to the next position. */
  lemma LapStep(ps: seq<Proposer>, w: int, r: nat, total: Int64)
    requires FreshEquals(ps, w) && r < |ps| && total == TotalPower(ps)
    requires Sum(Priorities(LapState(ps, w, r))) == 0
    ensures var next := LapState(ps, w, if r + 1 == |ps| then 0 else r + 1);
      IncrementOnce(LapState(ps, w, r), total) == next && Sum(Priorities(next)) == 0
  {
    hide Elect, Accrue, TotalPower, Sum, Priorities, Legal, IncrementOnce, LapPriority, InUse, FreshEquals,
         IncrementExact;
    var qs, next := LapState(ps, w, r), LapState(ps, w, if r + 1 == |ps| then 0 else r + 1);
    LapShape(ps, w, r);
    LapAccrues(ps, w, r);
    LapElects(ps, w, r);
    EqualsTotal(ps, w);
    IncrementOnceShape(qs, total);
    IncrementIsExact(qs, total);
    forall i | 0 <= i < |ps| ensures IncrementOnce(qs, total)[i] == next[i] {
      EqualPower(ps, w, i);
      LapPays(|ps|, w, r, i);
    }
    assert IncrementOnce(qs, total) == next;
  }

  lemma {:induction false} LapSum(ps: seq<Proposer>, w: int, r: nat)
    requires FreshEquals(ps, w) && r < |ps|
    ensures Sum(Priorities(LapState(ps, w, r))) == 0
  {
    hide LapState, Sum, Priorities;
    if r == 0 {
      LapShape(ps, w, 0);
      FreshIsNormal(ps);
    } else {
      LapSum(ps, w, r - 1);
      LapStep(ps, w, r - 1, TotalPower(ps));
    }
  }

  lemma LapInWindow(ps: seq<Proposer>, w: int, r: nat)
    requires FreshEquals(ps, w) && r < |ps|
    ensures var qs := LapState(ps, w, r);
      && InUse(qs) && TotalPower(qs) == TotalPower(ps) && Centred(qs)
      && SpreadWithin(qs, 2 * TotalPower(ps)) && Within(qs, -TotalPower(ps), TotalPower(ps))
  {
    hide TotalPower, Sum, Priorities, LapPriority, Legal;
    LapShape(ps, w, r);
    LapSum(ps, w, r);
    forall i | 0 <= i < |ps| ensures -TotalPower(ps) <= LapState(ps, w, r)[i].priority <= TotalPower(ps) {
      LapPriorityBounds(ps, w, r, i);
    }
  }

  /** A call changes nothing before its first pass. */
  lemma LapIsNormal(ps: seq<Proposer>, w: int, r: nat)
    requires FreshEquals(ps, w) && r < |ps|
    ensures var qs := LapState(ps, w, r);
      InUse(qs) && TotalPower(qs) == TotalPower(ps) && Rescalable(qs, Window(qs)) && Normalize(qs) == qs
  {
    hide TotalPower, Sum, Priorities, LapState, Normalize, Rescalable, RescaleExact, FreshEquals;
    LapInWindow(ps, w, r);
    var qs := LapState(ps, w, r);
    PowersBounded(qs);
    WithinIsExact(qs);
    NormalizeFits(qs);
  }

  lemma RemainderUnique(x: int, n: int, q: int, r: int)
    requires 0 <= r < n && x == n * q + r
    ensures x % n == r
  {
    var d, e := x / n, x % n;
    assert n * (d - q) == r - e;
    assert d - q >= 1 ==> n * (d - q) >= n;
    assert d - q <= -1 ==> n * (d - q) <= -n;
  }

  /** Whose turn it is after `k` passes. */
  function Turn(k: nat, n: nat): (r: nat)
    requires n > 0
    ensures r < n
  {
    if k == 0 || Turn(k - 1, n) + 1 == n then 0 else Turn(k - 1, n) + 1
  }

  lemma {:induction false} TurnIsRemainder(k: nat, n: nat)
    requires n > 0
    ensures Turn(k, n) == k % n
  {
    if k > 0 {
      TurnIsRemainder(k - 1, n);
      var q, r := (k - 1) / n, (k - 1) % n;
      assert k - 1 == n * q + r;
      if r + 1 == n {
        RemainderUnique(k, n, q + 1, 0);
      } else {
        RemainderUnique(k, n, q, r + 1);
      }
    }
  }

  lemma {:induction false} LapAfter(ps: seq<Proposer>, w: int, done: nat, total: Int64, k: nat)
    requires FreshEquals(ps, w) && total == TotalPower(ps)
    ensures After(LapState(ps, w, Turn(done, |ps|)), total, k) == LapState(ps, w, Turn(done + k, |ps|))
  {
    hide LapState, FreshEquals, IncrementOnce, TotalPower, Sum, Priorities;
    if k > 0 {
      LapAfter(ps, w, done, total, k - 1);
      LapSum(ps, w, Turn(done + (k - 1), |ps|));
      LapStep(ps, w, Turn(done + (k - 1), |ps|), total);
    }
  }

  /** One call from the middle of a lap. */
  lemma LapCall(ps: seq<Proposer>, w: int, done: nat, times: nat)
    requires FreshEquals(ps, w) && times > 0
    ensures Call(LapState(ps, w, Turn(done, |ps|)), times) == Done(LapState(ps, w, Turn(done + times, |ps|)))
  {
    hide Normalize, Rescalable, LapState, TotalPower, After, Turn, PowerSorted, DistinctAddresses;
    LapIsNormal(ps, w, Turn(done, |ps|));
    PowersBounded(LapState(ps, w, Turn(done, |ps|)));
    LapAfter(ps, w, done, TotalPower(ps), times);
  }

  lemma {:induction false} LapCalls(ps: seq<Proposer>, w: int, times: seq<nat>)
    requires FreshEquals(ps, w)
    requires forall i :: 0 <= i < |times| ==> times[i] > 0
    ensures Sum(times) >= 0 && Calls(ps, times) == Done(LapState(ps, w, Turn(Sum(times), |ps|)))
  {
    hide Turn, Call, LapState, Legal, PowerSorted;
    if |times| == 0 {
      LapShape(ps, w, 0);
      TurnIsRemainder(0, |ps|);
    } else {
      var n := |times| - 1;
      LapCalls(ps, w, times[..n]);
      LapCall(ps, w, Sum(times[..n]), times[n]);
    }
  }

  /**
   * Exact round robin, however the increments are grouped into calls: after calls with the given
   * counts, the next call's k-th pass (from 0) selects position (number of passes so far + k) mod n.
   */
  lemma ExactRoundRobin(ps: seq<Proposer>, w: int, times: seq<nat>, k: nat)
    requires FreshEquals(ps, w)
    requires forall i :: 0 <= i < |times| ==> times[i] > 0
    ensures Sum(times) >= 0 && Calls(ps, times).Done?
    ensures var qs := Calls(ps, times).proposers;
      && InUse(qs) && Rescalable(qs, Window(qs))
      && Chosen(Normalize(qs), TotalPower(qs), k) == (Sum(times) + k) % |ps|
  {
    hide Turn, Normalize, Rescalable, TotalPower, After, Elect, LapState, Legal, PowerSorted, Calls;
    LapCalls(ps, w, times);
    var done := Sum(times);
    LapIsNormal(ps, w, Turn(done, |ps|));
    TurnIsRemainder(done + k, |ps|);
    LapAfter(ps, w, done, TotalPower(ps), k);
    LapElects(ps, w, Turn(done + k, |ps|));
  }

  // ---- the validator a call records

  /** The set as the last pass of a call finds it: centred and rescaled, after all other passes. */
  function BeforeLastPass(ps: seq<Proposer>, times: int): (qs: seq<Proposer>)
    requires InUse(ps) && times > 0
    ensures |qs| == |ps|
  {
    PowersBounded(ps);
    NeverZeroDivisor(ps, Window(ps));
    After(Normalize(ps), TotalPower(ps), times - 1)
  }

  /** That is where one pass less would have ended. */
  lemma OnePassLess(ps: seq<Proposer>, times: int)
    requires InUse(ps) && times > 1
    ensures Call(ps, times - 1) == Done(BeforeLastPass(ps, times))
  {
    hide Normalize, TotalPower, After, Rescalable;
    PowersBounded(ps);
  }

  lemma LastPassIsExact(ps: seq<Proposer>, times: nat)
    requires InUse(ps) && times > 0 && CallExact(ps, times)
    ensures InUse(BeforeLastPass(ps, times)) && IncrementExact(BeforeLastPass(ps, times), TotalPower(ps))
    ensures TotalPower(BeforeLastPass(ps, times)) == TotalPower(ps)
    ensures Sum(Priorities(BeforeLastPass(ps, times))) >= 0
  {
    hide Normalize, TotalPower, After, Rescalable, RescaleExact, ShiftExact, IncrementExact, Priorities, Sum,
         DistinctAddresses;
    PowersBounded(ps);
    NormalizeFits(ps);
    NormalizeShape(ps);
    SameShapePowers(ps, Normalize(ps));
    SumConserved(Normalize(ps), TotalPower(ps), times - 1);
  }

  /**
   * The validator a call records: after the additions of the last pass nobody has more, of equals it has the lowest
   * address, and it alone has paid the total in that pass.
   */
  lemma SelectedExactly(ps: seq<Proposer>, times: nat, j: nat)
    requires InUse(ps) && times > 0 && CallExact(ps, times) && j < |ps|
    ensures Call(ps, times).Done? && |Call(ps, times).proposers| == |ps| && 0 <= Selected(ps, times) < |ps|
    ensures var before, after, e := BeforeLastPass(ps, times), Call(ps, times).proposers, Selected(ps, times);
      && after[j].priority == before[j].priority + ps[j].votingPower - (if j == e then TotalPower(ps) else 0)
      && (j != e ==>
            var mine, other := before[e].priority + ps[e].votingPower, before[j].priority + ps[j].votingPower;
            mine > other || (mine == other && Less(ps[e].address, ps[j].address)))
  {
    hide Normalize, TotalPower, Rescalable, RescaleExact, ShiftExact, Priorities, Sum, CallExact, Less,
         DistinctAddresses,
         IncrementOnce, Elect;
    PowersBounded(ps);
    LastPassIsExact(ps, times);
    var before := BeforeLastPass(ps, times);
    LastPassShape(ps, times);
    IncrementIsExact(before, TotalPower(ps));
    if j != Elect(before) { ElectedExactly(before, j); }
  }

  lemma LastPassShape(ps: seq<Proposer>, times: nat)
    requires InUse(ps) && times > 0
    ensures SameShape(ps, BeforeLastPass(ps, times))
    ensures forall i :: 0 <= i < |ps| ==>
              BeforeLastPass(ps, times)[i].address == ps[i].address
              && BeforeLastPass(ps, times)[i].votingPower == ps[i].votingPower
  {
    hide Normalize, TotalPower, After, Rescalable;
    PowersBounded(ps);
    NeverZeroDivisor(ps, Window(ps));
    NormalizeShape(ps);
    AfterShape(Normalize(ps), TotalPower(ps), times - 1);
  }

  // ---- batching

  function Ones(k: nat): seq<int> { seq(k, i => 1) }

  /** A call boundary after pass `j` would find the spread within the window. */
  ghost predicate InWindow(ps: seq<Proposer>, j: nat)
    requires InUse(ps)
  {
    SpreadWithin(After(ps, TotalPower(ps), j), Window(ps))
  }

  lemma OneMorePass(ps: seq<Proposer>, total: Int64, j: nat)
    requires |ps| > 0
    ensures After(After(ps, total, j), total, 1) == After(ps, total, j + 1)
  {
    hide IncrementOnce;
    assert After(After(ps, total, j), total, 0) == After(ps, total, j);
  }

  lemma SpreadIsExact(ps: seq<Proposer>)
    requires InUse(ps) && SpreadWithin(ps, Window(ps))
    ensures 0 <= TotalPower(ps) <= MAX_TOTAL_VOTING_POWER && RescaleExact(ps, Window(ps))
  {
    hide TotalPower;
    PowersBounded(ps);
    SpreadIsDiff(ps);
    assert MinPriority(ps) <= ps[0].priority <= MaxPriority(ps);
  }

  lemma BoundaryIsIdentity(ps: seq<Proposer>, j: nat)
    requires InUse(ps) && Centred(ps) && ExactUntil(ps, TotalPower(ps), j) && InWindow(ps, j)
    ensures var qs := After(ps, TotalPower(ps), j);
      && InUse(qs) && TotalPower(qs) == TotalPower(ps) && Rescalable(qs, Window(qs)) && Normalize(qs) == qs
      && Call(qs, 1) == Done(After(ps, TotalPower(ps), j + 1))
  {
    hide After, Sum, Priorities, TotalPower, Normalize, Rescalable, ExactUntil, Legal, RescaleExact, SpreadWithin;
    var t: Int64 := TotalPower(ps);
    OneMorePass(ps, t, j);
    SumConserved(ps, t, j);
    var qs := After(ps, t, j);
    PowersBounded(qs);
    SpreadIsExact(qs);
    NormalizeFits(qs);
  }

  lemma BatchBase(ps: seq<Proposer>)
    requires InUse(ps) && RescaleExact(ps, Window(ps))
    ensures 0 <= TotalPower(ps) <= MAX_TOTAL_VOTING_POWER && Rescalable(ps, Window(ps))
    ensures Centred(Normalize(ps)) && TotalPower(Normalize(ps)) == TotalPower(ps)
  {
    hide Normalize, Rescalable, Sum, Priorities;
    PowersBounded(ps);
    NormalizeFits(ps);
    NormalizeShape(ps);
    SameShapePowers(ps, Normalize(ps));
  }

  lemma OnesPrefix(k: nat)
    requires k > 0
    ensures Ones(k)[..k - 1] == Ones(k - 1) && |Ones(k)| == k && Ones(k)[k - 1] == 1
  {
  }

  /**
   * One call with k equals k calls with 1, if nothing saturates and the spread is within the window
   * wherever a call boundary would fall.
   */
  lemma {:induction false} Batching(ps: seq<Proposer>, k: nat)
    requires InUse(ps) && k > 0 && CallExact(ps, k) && InUse(Normalize(ps))
    requires forall j :: 0 < j < k ==> InWindow(Normalize(ps), j)
    ensures Calls(ps, Ones(k)) == Call(ps, k)
  {
    hide Normalize, Rescalable, RescaleExact, TotalPower, Legal, IncrementOnce, Ones, InWindow, IncrementExact,
         ShiftExact;
    OnesPrefix(k);
    BatchBase(ps);
    if k == 1 {
      assert Calls(ps, Ones(k)[..0]) == Done(ps);
    } else {
      Batching(ps, k - 1);
      BoundaryIsIdentity(Normalize(ps), k - 1);
    }
  }
}
