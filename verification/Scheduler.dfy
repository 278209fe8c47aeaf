/** The weighted round robin over priorities, with the int64 arithmetic the code performs. */
module Scheduler {
  import opened Int64
  import opened Bytes
  import opened Sums
  import opened Proposers

  const PRIORITY_WINDOW_SIZE_FACTOR: int := 2

  // ---- the code's steps

  function MaxPriority(ps: seq<Proposer>): (m: Int64)
    ensures forall i :: 0 <= i < |ps| ==> ps[i].priority <= m
    ensures |ps| > 0 ==> exists i :: 0 <= i < |ps| && ps[i].priority == m
  {
    if |ps| == 0 then MIN_INT64
    else
      var n := |ps| - 1;
      var m := MaxPriority(ps[..n]);
      if ps[n].priority > m then ps[n].priority
      else
        assert n == 0 ==> ps[0].priority == m;
        m
  }

  function MinPriority(ps: seq<Proposer>): (m: Int64)
    ensures forall i :: 0 <= i < |ps| ==> m <= ps[i].priority
    ensures |ps| > 0 ==> exists i :: 0 <= i < |ps| && ps[i].priority == m
  {
    if |ps| == 0 then MAX_INT64
    else
      var n := |ps| - 1;
      var m := MinPriority(ps[..n]);
      if ps[n].priority < m then ps[n].priority
      else
        assert n == 0 ==> ps[0].priority == m;
        m
  }

  /** computeMaxMinPriorityDiff: the subtraction may wrap. */
  function PriorityDiff(ps: seq<Proposer>): Int64 {
    var diff := Wrap64(MaxPriority(ps) - MinPriority(ps));
    if diff < 0 then Wrap64(0 - diff) else diff
  }

  function Ratio(ps: seq<Proposer>, diffMax: Int64): Int64
    requires diffMax > 0
  {
    var sum := Wrap64(PriorityDiff(ps) + diffMax - 1);
    TruncDivBounds(sum, diffMax);
    TruncDiv(sum, diffMax)
  }

  predicate NeedsRescale(ps: seq<Proposer>, diffMax: Int64) {
    diffMax > 0 && PriorityDiff(ps) > diffMax
  }

  /** The division in RescalePriorities does not divide by zero. */
  predicate Rescalable(ps: seq<Proposer>, diffMax: Int64) {
    NeedsRescale(ps, diffMax) ==> Ratio(ps, diffMax) != 0
  }

  function Rescale(ps: seq<Proposer>, diffMax: Int64): (qs: seq<Proposer>)
    requires Rescalable(ps, diffMax)
    ensures |qs| == |ps|
  {
    if NeedsRescale(ps, diffMax) then
      var ratio := Ratio(ps, diffMax);
      seq(|ps|, i requires 0 <= i < |ps| => ps[i].(priority := Wrap64(TruncDiv(ps[i].priority, ratio))))
    else ps
  }

  /** computeAvgProposerPriority: a big integer sum and a Euclidean division, which always fits an int64. */
  function Average(ps: seq<Proposer>): Int64
    requires |ps| > 0
  {
    AverageBetween(ps, MIN_INT64, MAX_INT64);
    Sum(Priorities(ps)) / |ps|
  }

  lemma QuotientBetween(s: int, n: int, low: int, high: int)
    requires n > 0 && n * low <= s <= n * high
    ensures low <= s / n <= high
  {
    var q := s / n;
    assert s == n * q + s % n;
    assert n * (q + 1) == n * q + n && n * (high + 1) == n * high + n;
    SmallerFactor(n, low, q + 1);
    SmallerFactor(n, q, high + 1);
  }

  lemma AverageBetween(ps: seq<Proposer>, low: int, high: int)
    requires |ps| > 0
    requires forall i :: 0 <= i < |ps| ==> low <= ps[i].priority <= high
    ensures low <= Sum(Priorities(ps)) / |ps| <= high
  {
    SumAtLeast(Priorities(ps), low);
    SumAtMost(Priorities(ps), high);
    QuotientBetween(Sum(Priorities(ps)), |ps|, low, high);
  }

  function Shift(ps: seq<Proposer>): (qs: seq<Proposer>)
    requires |ps| > 0
    ensures |qs| == |ps|
  {
    var avg := Average(ps);
    seq(|ps|, i requires 0 <= i < |ps| => ps[i].(priority := SafeSubClip(ps[i].priority, avg)))
  }

  function Accrue(ps: seq<Proposer>): (qs: seq<Proposer>)
    ensures |qs| == |ps|
  {
    seq(|ps|, i requires 0 <= i < |ps| => ps[i].(priority := SafeAddClip(ps[i].priority, ps[i].votingPower)))
  }

  /** The index that the next increment selects. */
  function Elect(ps: seq<Proposer>): (m: nat)
    requires |ps| > 0
    ensures m < |ps|
  {
    Mostest(Accrue(ps))
  }

  function IncrementOnce(ps: seq<Proposer>, total: Int64): (qs: seq<Proposer>)
    requires |ps| > 0
    ensures |qs| == |ps|
  {
    var accrued, m := Accrue(ps), Elect(ps);
    accrued[m := accrued[m].(priority := SafeSubClip(accrued[m].priority, total))]
  }

  /** The state after `k` passes of the increment loop. */
  function After(ps: seq<Proposer>, total: Int64, k: nat): (qs: seq<Proposer>)
    requires |ps| > 0
    ensures |qs| == |ps|
  {
    if k == 0 then ps else IncrementOnce(After(ps, total, k - 1), total)
  }

  ghost predicate InUse(ps: seq<Proposer>) {
    |ps| > 0 && Legal(ps) && TotalPower(ps) > 0
  }

  function Window(ps: seq<Proposer>): (w: Int64)
    requires 0 <= TotalPower(ps) <= MAX_TOTAL_VOTING_POWER
  {
    PRIORITY_WINDOW_SIZE_FACTOR * TotalPower(ps)
  }

  lemma IncrementOnceShape(ps: seq<Proposer>, total: Int64)
    requires |ps| > 0
    ensures SameShape(ps, IncrementOnce(ps, total))
  {
  }

  lemma {:induction false} AfterShape(ps: seq<Proposer>, total: Int64, k: nat)
    requires |ps| > 0
    ensures SameShape(ps, After(ps, total, k))
  {
    if k > 0 {
      AfterShape(ps, total, k - 1);
      IncrementOnceShape(After(ps, total, k - 1), total);
    }
  }

  lemma NormalizeShape(ps: seq<Proposer>)
    requires |ps| > 0 && 0 <= TotalPower(ps) <= MAX_TOTAL_VOTING_POWER && Rescalable(ps, Window(ps))
    ensures SameShape(ps, Normalize(ps))
  {
    var rescaled := Rescale(ps, Window(ps));
    assert SameShape(ps, rescaled);
    assert SameShape(rescaled, Shift(rescaled));
  }

  /** RescalePriorities to the window, then shiftByAvgProposerPriority. */
  function Normalize(ps: seq<Proposer>): (qs: seq<Proposer>)
    requires |ps| > 0 && 0 <= TotalPower(ps) <= MAX_TOTAL_VOTING_POWER
    requires Rescalable(ps, Window(ps))
    ensures |qs| == |ps|
  {
    Shift(Rescale(ps, Window(ps)))
  }

  /** IncrementProposerPriority(times). */
  function IncrementPriorities(ps: seq<Proposer>, times: nat): (qs: seq<Proposer>)
    requires |ps| > 0 && 0 <= TotalPower(ps) <= MAX_TOTAL_VOTING_POWER
    requires Rescalable(ps, Window(ps))
    ensures |qs| == |ps|
  {
    After(Normalize(ps), TotalPower(ps), times)
  }

  // ---- no operation leaves the exact integers

  /** Both subtractions and additions of RescalePriorities are exact. */
  ghost predicate RescaleExact(ps: seq<Proposer>, diffMax: int) {
    var diff := MaxPriority(ps) - MinPriority(ps);
    InInt64(diff) && InInt64(diff + diffMax - 1)
  }

  /** No subtraction of the average saturates. */
  ghost predicate ShiftExact(ps: seq<Proposer>)
    requires |ps| > 0
  {
    forall i :: 0 <= i < |ps| ==> InInt64(ps[i].priority - Average(ps))
  }

  /** Neither the additions nor the subtraction of one increment saturates. */
  ghost predicate IncrementExact(ps: seq<Proposer>, total: int)
    requires |ps| > 0
  {
    && (forall i :: 0 <= i < |ps| ==> InInt64(ps[i].priority + ps[i].votingPower))
    && InInt64(ps[Elect(ps)].priority + ps[Elect(ps)].votingPower - total)
  }

  // ---- rescaling and centring

  ghost predicate SpreadWithin(ps: seq<Proposer>, d: int) {
    forall i, j :: 0 <= i < |ps| && 0 <= j < |ps| ==> ps[i].priority - ps[j].priority <= d
  }

  ghost predicate Centred(ps: seq<Proposer>) {
    0 <= Sum(Priorities(ps)) < |ps|
  }

  ghost predicate Within(ps: seq<Proposer>, low: int, high: int) {
    forall i :: 0 <= i < |ps| ==> low <= ps[i].priority <= high
  }

  lemma SpreadIsDiff(ps: seq<Proposer>)
    requires |ps| > 0
    ensures SpreadWithin(ps, MaxPriority(ps) - MinPriority(ps))
    ensures forall d :: SpreadWithin(ps, d) ==> MaxPriority(ps) - MinPriority(ps) <= d
  {
  }

  /** Priorities within three totals of zero, for the largest allowed total, leave the overflow guard intact. */
  lemma WithinIsExact(ps: seq<Proposer>)
    requires |ps| > 0 && 0 <= TotalPower(ps) <= MAX_TOTAL_VOTING_POWER
    requires Within(ps, -3 * MAX_TOTAL_VOTING_POWER, 3 * MAX_TOTAL_VOTING_POWER)
    ensures RescaleExact(ps, Window(ps))
  {
    var high, low := MaxPriority(ps), MinPriority(ps);
    assert low <= ps[0].priority <= high;
    assert high <= 3 * MAX_TOTAL_VOTING_POWER && -3 * MAX_TOTAL_VOTING_POWER <= low;
  }

  lemma FactorStep(r: int, x: int, y: int, d: int)
    requires r > 0 && r * x - r * y < r * d + r
    ensures x - y <= d
  {
    assert r * (x - y) == r * x - r * y;
    assert r * (d + 1) == r * d + r;
    SmallerFactor(r, x - y, d + 1);
  }

  lemma QuotientSpread(a: int, b: int, r: int, d: int)
    requires r > 0 && d >= 0 && a - b <= r * d
    ensures TruncDiv(a, r) - TruncDiv(b, r) <= d
  {
    hide TruncDiv;
    TruncDivBounds(a, r);
    TruncDivBounds(b, r);
    if a >= 0 || b < 0 {
      FactorStep(r, TruncDiv(a, r), TruncDiv(b, r), d);
    }
  }

  /** A quotient no smaller than the excess: dividing by it brings a difference within the window. */
  lemma RatioLarge(diff: int, diffMax: int)
    requires diffMax > 0 && diff > diffMax
    ensures var r := TruncDiv(diff + diffMax - 1, diffMax); r > 0 && diff <= r * diffMax
  {
    var r := TruncDiv(diff + diffMax - 1, diffMax);
    TruncDivBounds(diff + diffMax - 1, diffMax);
    assert diffMax * r == r * diffMax;
    SmallerFactor(diffMax, 0, r);
  }

  lemma QuotientIn64(p: Int64, r: int)
    requires r > 0
    ensures InInt64(TruncDiv(p, r)) && Wrap64(TruncDiv(p, r)) == TruncDiv(p, r)
  {
    TruncDivBounds(p, r);
  }

  /** Division brings every pair within the window and grows no priority. */
  lemma QuotientsFit(ps: seq<Proposer>, qs: seq<Proposer>, r: int, d: int)
    requires |qs| == |ps| && r > 0 && d >= 0 && SpreadWithin(ps, r * d)
    requires forall i :: 0 <= i < |ps| ==> qs[i].priority == TruncDiv(ps[i].priority, r)
    ensures SpreadWithin(qs, d)
    ensures forall i :: 0 <= i < |ps| ==> Abs(qs[i].priority) <= Abs(ps[i].priority)
  {
    hide TruncDiv, Abs;
    forall i | 0 <= i < |ps| ensures Abs(qs[i].priority) <= Abs(ps[i].priority) {
      TruncDivBounds(ps[i].priority, r);
    }
    forall i, j | 0 <= i < |ps| && 0 <= j < |ps| ensures qs[i].priority - qs[j].priority <= d {
      QuotientSpread(ps[i].priority, ps[j].priority, r, d);
    }
  }

  /** Without overflow, rescaling brings every pair within the window and grows no priority. */
  lemma RescaleFits(ps: seq<Proposer>, diffMax: Int64)
    requires |ps| > 0 && diffMax > 0 && RescaleExact(ps, diffMax)
    ensures Rescalable(ps, diffMax)
    ensures SpreadWithin(Rescale(ps, diffMax), diffMax)
    ensures forall i :: 0 <= i < |ps| ==> Abs(Rescale(ps, diffMax)[i].priority) <= Abs(ps[i].priority)
    ensures SpreadWithin(ps, diffMax) ==> Rescale(ps, diffMax) == ps
  {
    hide TruncDiv, Abs;
    var diff := MaxPriority(ps) - MinPriority(ps);
    SpreadIsDiff(ps);
    assert PriorityDiff(ps) == diff;
    if diff > diffMax {
      var r := Ratio(ps, diffMax);
      RatioLarge(diff, diffMax);
      var qs := Rescale(ps, diffMax);
      forall i | 0 <= i < |ps| ensures qs[i].priority == TruncDiv(ps[i].priority, r) {
        QuotientIn64(ps[i].priority, r);
      }
      QuotientsFit(ps, qs, r, diffMax);
    }
  }

  /** `q` is `p / r` rounded toward zero. */
  ghost predicate QuotientOf(q: int, p: int, r: int) {
    && (p >= 0 ==> q >= 0 && r * q <= p < r * q + r)
    && (p <= 0 ==> q <= 0 && r * q - r < p <= r * q)
  }

  /**
   * What rescaling computes, without overflow: every priority is divided, toward zero, by the smallest whole number
   * that brings the spread within the window. Only priorities change.
   */
  lemma RescaleExactly(ps: seq<Proposer>, diffMax: Int64) returns (r: nat)
    requires |ps| > 0 && diffMax > 0 && RescaleExact(ps, diffMax)
    ensures Rescalable(ps, diffMax) && SameShape(ps, Rescale(ps, diffMax))
    ensures r >= 1 && SpreadWithin(ps, r * diffMax) && (r > 1 ==> !SpreadWithin(ps, (r - 1) * diffMax))
    ensures forall i :: 0 <= i < |ps| ==> QuotientOf(Rescale(ps, diffMax)[i].priority, ps[i].priority, r)
  {
    hide TruncDiv, QuotientOf, SpreadWithin;
    var diff := MaxPriority(ps) - MinPriority(ps);
    SpreadIsDiff(ps);
    RescaleFits(ps, diffMax);
    assert PriorityDiff(ps) == diff;
    r := 1;
    if diff > diffMax {
      RatioLarge(diff, diffMax);
      RatioSmall(diff, diffMax);
      r := Ratio(ps, diffMax);
    }
    SpreadUpto(ps, diff, r * diffMax);
    forall i | 0 <= i < |ps| ensures QuotientOf(Rescale(ps, diffMax)[i].priority, ps[i].priority, r) {
      QuotientIn64(ps[i].priority, r);
      TruncDivIsQuotient(ps[i].priority, r);
      QuotientByOne(ps[i].priority);
    }
  }

  lemma SpreadUpto(ps: seq<Proposer>, d: int, d': int)
    requires SpreadWithin(ps, d) && d <= d'
    ensures SpreadWithin(ps, d')
  {
  }

  /** No smaller quotient would do. */
  lemma RatioSmall(diff: int, diffMax: int)
    requires diffMax > 0 && diff > diffMax
    ensures var r := TruncDiv(diff + diffMax - 1, diffMax); (r - 1) * diffMax < diff
  {
    hide TruncDiv;
    var r := TruncDiv(diff + diffMax - 1, diffMax);
    TruncDivBounds(diff + diffMax - 1, diffMax);
    assert (r - 1) * diffMax == diffMax * r - diffMax;
  }

  lemma TruncDivIsQuotient(p: int, r: int)
    requires r > 0
    ensures QuotientOf(TruncDiv(p, r), p, r)
  {
    hide TruncDiv;
    TruncDivBounds(p, r);
  }

  lemma QuotientByOne(p: int)
    ensures forall q :: QuotientOf(q, p, 1) <==> q == p
  {
  }

  /** Dividing keeps the order. */
  lemma QuotientMonotone(p: int, q: int, p': int, q': int, r: int)
    requires r > 0 && p <= p' && QuotientOf(q, p, r) && QuotientOf(q', p', r)
    ensures q <= q'
  {
    assert r * (q' + 1) == r * q' + r;
    if q > q' { ProductOrder(r, q' + 1, q); }
  }

  /**
   * Rescaling any list on which it does not divide by zero: nothing happens if the window is not positive or the
   * difference within it; otherwise each priority is divided by the wrapped sum over the window, which may be negative.
   */
  lemma RescaleAnyway(ps: seq<Proposer>, diffMax: Int64) returns (r: int)
    requires Rescalable(ps, diffMax)
    ensures diffMax <= 0 || PriorityDiff(ps) <= diffMax ==> Rescale(ps, diffMax) == ps
    ensures diffMax > 0 && PriorityDiff(ps) > diffMax ==>
      var sum := PriorityDiff(ps) + diffMax - 1;
      && r != 0 && QuotientOf(r, if sum <= MAX_INT64 then sum else sum - TWO_64, diffMax)
      && SameShape(ps, Rescale(ps, diffMax))
      && forall i :: 0 <= i < |ps| ==> WrappedQuotient(Rescale(ps, diffMax)[i].priority, ps[i].priority, r)
  {
    hide PriorityDiff, QuotientOf, TruncDiv;
    r := 0;
    if diffMax > 0 && PriorityDiff(ps) > diffMax {
      var sum := PriorityDiff(ps) + diffMax - 1;
      r := Ratio(ps, diffMax);
      TruncDivIsQuotient(Wrap64(sum), diffMax);
      forall i | 0 <= i < |ps| ensures WrappedQuotient(Rescale(ps, diffMax)[i].priority, ps[i].priority, r) {
        WrapsQuotient(ps[i].priority, r);
      }
    }
  }

  /** Go's division of int64 numbers, for divisors of either sign. */
  ghost predicate WrappedQuotient(q: int, p: int, r: int) {
    && (r > 0 ==> QuotientOf(q, p, r))
    && (r < 0 ==> if p == MIN_INT64 && r == -1 then q == p else QuotientOf(-q, p, -r))
  }

  lemma NegativeDivisor(p: int, r: int)
    requires r < 0
    ensures TruncDiv(p, r) == -TruncDiv(p, -r)
  {
  }

  lemma WrapsQuotient(p: Int64, r: int)
    requires r != 0
    ensures WrappedQuotient(Wrap64(TruncDiv(p, r)), p, r)
  {
    hide QuotientOf, TruncDiv;
    if r > 0 {
      TruncDivIsQuotient(p, r);
      QuotientIn64(p, r);
    } else {
      NegativeDivisor(p, r);
      TruncDivIsQuotient(p, -r);
      NegatedFits(p, -r);
    }
  }

  /** Only the lowest number divided by -1 leaves int64. */
  lemma NegatedFits(p: Int64, d: int)
    requires d > 0
    ensures !(p == MIN_INT64 && d == 1) ==> InInt64(-TruncDiv(p, d))
    ensures p == MIN_INT64 && d == 1 ==> -TruncDiv(p, d) == MAX_INT64 + 1
  {
    hide TruncDiv;
    var q := TruncDiv(p, d);
    TruncDivBounds(p, d);
    assert -MIN_INT64 * d == -(d * MIN_INT64);
    if d == 1 {
      TruncDivIsQuotient(p, 1);
      QuotientByOne(p);
    } else {
      ProductOrder(-MIN_INT64, 2, d);
      if q <= MIN_INT64 { ProductOrder(d, q, MIN_INT64); }
    }
  }

  /** Rescaling keeps the order of the priorities. */
  lemma RescaleKeepsOrder(ps: seq<Proposer>, diffMax: Int64, i: nat, j: nat)
    requires |ps| > 0 && diffMax > 0 && RescaleExact(ps, diffMax)
    requires i < |ps| && j < |ps| && ps[i].priority <= ps[j].priority
    ensures Rescalable(ps, diffMax) && Rescale(ps, diffMax)[i].priority <= Rescale(ps, diffMax)[j].priority
  {
    hide Rescale, RescaleExact, QuotientOf;
    var r := RescaleExactly(ps, diffMax);
    QuotientMonotone(ps[i].priority, Rescale(ps, diffMax)[i].priority,
                     ps[j].priority, Rescale(ps, diffMax)[j].priority, r);
  }

  /** The difference the code computes: exact up to the largest int64, reflected at it beyond. */
  lemma DiffExactly(ps: seq<Proposer>)
    requires |ps| > 0
    ensures var d := MaxPriority(ps) - MinPriority(ps);
      0 <= d < TWO_64 && PriorityDiff(ps) == if d <= MAX_INT64 then d else if d == MAX_INT64 + 1 then -d else TWO_64 - d
  {
    assert MinPriority(ps) <= ps[0].priority <= MaxPriority(ps);
  }

  /** The window lies so close to the wrapped end of the int64 range that the ratio of a needed rescaling is zero. */
  predicate ZeroRatioGuard(ps: seq<Proposer>, diffMax: Int64) {
    diffMax > 0 && PriorityDiff(ps) > diffMax && PriorityDiff(ps) + 2 * diffMax > TWO_64 + 1
  }

  /** RescalePriorities divides by zero exactly under the guard, which a caller can evaluate beforehand. */
  lemma ZeroDivisorExactly(ps: seq<Proposer>, diffMax: Int64)
    ensures Rescalable(ps, diffMax) <==> !ZeroRatioGuard(ps, diffMax)
  {
    hide PriorityDiff, TruncDiv;
    if NeedsRescale(ps, diffMax) {
      var sum := Wrap64(PriorityDiff(ps) + diffMax - 1);
      TruncDivBounds(sum, diffMax);
      QuotientIsZero(sum, diffMax);
    }
  }

  lemma QuotientIsZero(a: int, b: int)
    requires b > 0
    ensures TruncDiv(a, b) == 0 <==> -b < a < b
  {
    hide TruncDiv;
    TruncDivBounds(a, b);
    var q := TruncDiv(a, b);
    if q >= 1 { ProductOrder(b, 1, q); }
    if q <= -1 { ProductOrder(b, q, -1); }
  }

  /** No window of at most half the int64 range, and so none the package uses, meets the guard. */
  lemma NeverZeroDivisor(ps: seq<Proposer>, diffMax: Int64)
    requires diffMax <= MAX_INT64 / 2
    ensures Rescalable(ps, diffMax)
  {
    hide Rescalable, PriorityDiff;
    ZeroDivisorExactly(ps, diffMax);
  }

  /** A larger window can: two priorities at the ends of the non-negative range. */
  lemma LargeWindowDividesByZero(a: Proposer, b: Proposer)
    requires a.priority == MAX_INT64 && b.priority == 0
    ensures !Rescalable([a, b], MAX_INT64 - 1)
  {
    hide Rescalable;
    var ps := [a, b];
    assert ps[0].priority == MAX_INT64 && ps[1].priority == 0;
    assert MaxPriority(ps) == MAX_INT64 && MinPriority(ps) == 0;
    ZeroDivisorExactly(ps, MAX_INT64 - 1);
  }

  lemma ShiftValues(ps: seq<Proposer>)
    requires |ps| > 0 && SpreadWithin(ps, MAX_INT64)
    ensures ShiftExact(ps)
    ensures forall i :: 0 <= i < |ps| ==> Shift(ps)[i].priority == ps[i].priority - Average(ps)
  {
    AverageBetween(ps, MinPriority(ps), MaxPriority(ps));
    SpreadIsDiff(ps);
  }

  lemma SumLessAverages(ps: seq<Proposer>, qs: seq<Proposer>)
    requires |ps| > 0 && |qs| == |ps|
    requires forall i :: 0 <= i < |ps| ==> qs[i].priority == ps[i].priority - Average(ps)
    ensures Centred(qs)
  {
    var n, s := |ps|, Sum(Priorities(ps));
    var avg := s / n;
    var zeros := seq(n, i => 0);
    SumConst(zeros, 0);
    SumLinear(Priorities(ps), zeros, -avg, Priorities(qs));
    assert s == n * avg + s % n;
  }

  /** Centring is exact whenever the spread fits, keeps the spread and leaves a sum in [0, n). */
  lemma ShiftCentres(ps: seq<Proposer>)
    requires |ps| > 0 && SpreadWithin(ps, MAX_INT64)
    ensures ShiftExact(ps) && Centred(Shift(ps))
    ensures forall i :: 0 <= i < |ps| ==> Shift(ps)[i].priority == ps[i].priority - Average(ps)
    ensures forall d :: SpreadWithin(ps, d) ==> SpreadWithin(Shift(ps), d)
    ensures Centred(ps) ==> Shift(ps) == ps
  {
    hide Shift, Average, Centred;
    ShiftValues(ps);
    SumLessAverages(ps, Shift(ps));
    if Centred(ps) { ShiftOfCentred(ps); }
  }

  /** A sum in [0, n) has average zero. */
  lemma ShiftOfCentred(ps: seq<Proposer>)
    requires |ps| > 0 && Centred(ps)
    ensures Shift(ps) == ps
  {
    assert Average(ps) == 0;
  }

  /** Centring any list: the average rounded down is taken off each priority, stopping at the int64 bounds. */
  lemma ShiftExactly(ps: seq<Proposer>) returns (avg: int)
    requires |ps| > 0
    ensures |ps| * avg <= Sum(Priorities(ps)) < |ps| * avg + |ps| && SameShape(ps, Shift(ps))
    ensures forall i :: 0 <= i < |ps| ==> Shift(ps)[i].priority == Saturate(ps[i].priority - avg)
  {
    hide Sum;
    avg := Average(ps);
    var n, s := |ps|, Sum(Priorities(ps));
    assert s == n * (s / n) + s % n;
  }

  /** A centred list lies on both sides of zero, so its spread bounds its entries. */
  lemma CentredBounds(ps: seq<Proposer>, d: int)
    requires |ps| > 0 && Centred(ps) && SpreadWithin(ps, d)
    ensures Within(ps, -d, d)
  {
    if forall j :: 0 <= j < |ps| ==> 1 <= ps[j].priority {
      SumAtLeast(Priorities(ps), 1);
    }
    if forall j :: 0 <= j < |ps| ==> ps[j].priority <= -1 {
      SumAtMost(Priorities(ps), -1);
    }
    var low :| 0 <= low < |ps| && ps[low].priority <= 0;
    var high :| 0 <= high < |ps| && ps[high].priority >= 0;
    forall i | 0 <= i < |ps| ensures -d <= ps[i].priority <= d {
      assert ps[i].priority - ps[low].priority <= d;
      assert ps[high].priority - ps[i].priority <= d;
    }
  }

  /** Normalising is exact when the overflow guard holds, and ends centred in the window [-2T, 2T]. */
  lemma NormalizeFits(ps: seq<Proposer>)
    requires InUse(ps) && RescaleExact(ps, Window(ps))
    ensures Rescalable(ps, Window(ps)) && ShiftExact(Rescale(ps, Window(ps)))
    ensures InUse(Normalize(ps)) && Centred(Normalize(ps)) && SpreadWithin(Normalize(ps), 2 * TotalPower(ps))
    ensures Within(Normalize(ps), -2 * TotalPower(ps), 2 * TotalPower(ps))
    ensures Centred(ps) && SpreadWithin(ps, 2 * TotalPower(ps)) ==> Normalize(ps) == ps
  {
    RescaleFits(ps, Window(ps));
    ShiftCentres(Rescale(ps, Window(ps)));
    NormalizeShape(ps);
    SameShapePowers(ps, Normalize(ps));
    CentredBounds(Normalize(ps), Window(ps));
  }

  /**
   * What normalising computes, without overflow: priorities are divided, toward zero, by the smallest whole number that
   * brings the spread within twice the total, and then shifted by one constant so that the sum lies in [0, n).
   */
  lemma NormalizeExactly(ps: seq<Proposer>) returns (r: nat, c: int)
    requires InUse(ps) && RescaleExact(ps, Window(ps))
    ensures Rescalable(ps, Window(ps)) && SameShape(ps, Normalize(ps)) && Centred(Normalize(ps))
    ensures var w := 2 * TotalPower(ps);
      r >= 1 && SpreadWithin(ps, r * w) && (r > 1 ==> !SpreadWithin(ps, (r - 1) * w))
    ensures forall i :: 0 <= i < |ps| ==> QuotientOf(Normalize(ps)[i].priority + c, ps[i].priority, r)
  {
    hide Rescale, Shift, SpreadWithin, RescaleExact, QuotientOf, Rescalable, DistinctAddresses, TotalPower, Centred;
    PowersBounded(ps);
    NormalizeFits(ps);
    NormalizeShape(ps);
    r := RescaleExactly(ps, Window(ps));
    RescaledSpread(ps);
    ShiftValues(Rescale(ps, Window(ps)));
    c := Average(Rescale(ps, Window(ps)));
  }

  lemma RescaledSpread(ps: seq<Proposer>)
    requires InUse(ps) && RescaleExact(ps, Window(ps))
    ensures Rescalable(ps, Window(ps)) && SpreadWithin(Rescale(ps, Window(ps)), MAX_INT64)
  {
    hide Rescale, RescaleExact, Rescalable, TotalPower;
    RescaleFits(ps, Window(ps));
    SpreadUpto(Rescale(ps, Window(ps)), Window(ps), MAX_INT64);
  }

  // ---- one increment

  lemma AccrueIsExact(ps: seq<Proposer>)
    requires forall i :: 0 <= i < |ps| ==> InInt64(ps[i].priority + ps[i].votingPower)
    ensures SameShape(ps, Accrue(ps))
    ensures forall i :: 0 <= i < |ps| ==> Accrue(ps)[i].priority == ps[i].priority + ps[i].votingPower
    ensures Sum(Priorities(Accrue(ps))) == Sum(Priorities(ps)) + TotalPower(ps)
  {
    SumLinear(Priorities(ps), Powers(ps), 0, Priorities(Accrue(ps)));
  }

  /** Of a list with a positive sum, the preferred entry is positive. */
  lemma PreferredIsPositive(ps: seq<Proposer>)
    requires |ps| > 0 && DistinctAddresses(ps) && Sum(Priorities(ps)) > 0
    ensures ps[Mostest(ps)].priority >= 1
  {
    MostestIsMaximal(ps);
    if ps[Mostest(ps)].priority <= 0 {
      SumAtMost(Priorities(ps), 0);
    }
  }

  /**
   * The elected one, also where additions saturate: nobody has more after them, of equals it has the lowest address.
   */
  lemma ElectedExactly(ps: seq<Proposer>, j: nat)
    requires |ps| > 0 && DistinctAddresses(ps) && j < |ps| && j != Elect(ps)
    ensures var e := Elect(ps);
      var mine, other := Saturate(ps[e].priority + ps[e].votingPower), Saturate(ps[j].priority + ps[j].votingPower);
      mine > other || (mine == other && Less(ps[e].address, ps[j].address))
  {
    hide Less, Mostest;
    MostestBeatsAll(Accrue(ps), j);
  }

  /**
   * One pass on any list: everybody's sum and then the payment of the elected one, each stopped at the int64 bounds.
   */
  lemma IncrementSaturates(ps: seq<Proposer>, total: Int64, i: nat)
    requires i < |ps|
    ensures var sum := Saturate(ps[i].priority + ps[i].votingPower);
      IncrementOnce(ps, total)[i]
      == ps[i].(priority := if i == Elect(ps) then Saturate(sum - total) else sum)
  {
    hide Mostest;
  }

  lemma PaySum(ps: seq<Proposer>, m: nat, p: Int64)
    requires m < |ps|
    ensures Sum(Priorities(ps[m := ps[m].(priority := p)])) == Sum(Priorities(ps)) - ps[m].priority + p
  {
    assert Priorities(ps[m := ps[m].(priority := p)]) == Priorities(ps)[m := p as int];
    SumUpdate(Priorities(ps), m, p);
  }

  lemma IncrementKeepsUse(ps: seq<Proposer>, total: Int64)
    requires InUse(ps)
    ensures InUse(IncrementOnce(ps, total)) && TotalPower(IncrementOnce(ps, total)) == TotalPower(ps)
  {
    IncrementOnceShape(ps, total);
    hide IncrementOnce, TotalPower;
    SameShapePowers(ps, IncrementOnce(ps, total));
  }

  /** The subtraction an exact increment performs. */
  lemma IncrementPays(ps: seq<Proposer>, total: Int64)
    requires InUse(ps) && total == TotalPower(ps) && Sum(Priorities(ps)) >= 0
    requires forall i :: 0 <= i < |ps| ==> InInt64(ps[i].priority + ps[i].votingPower)
    ensures var accrued, m := Accrue(ps), Elect(ps);
      && accrued[m].priority >= 1 && InInt64(accrued[m].priority - total)
      && IncrementOnce(ps, total) == accrued[m := accrued[m].(priority := accrued[m].priority - total)]
  {
    AccrueIsExact(ps);
    hide Accrue, Mostest, Priorities, TotalPower;
    PreferredIsPositive(Accrue(ps));
  }

  /**
   * One increment without saturation: everyone gains its power, one of the maximal ones pays the total.
   * The payer was at least 1 beforehand, and the sum does not change.
   */
  lemma IncrementIsExact(ps: seq<Proposer>, total: Int64)
    requires InUse(ps) && total == TotalPower(ps) && Sum(Priorities(ps)) >= 0
    requires forall i :: 0 <= i < |ps| ==> InInt64(ps[i].priority + ps[i].votingPower)
    ensures IncrementExact(ps, total)
    ensures forall i :: 0 <= i < |ps| ==>
              IncrementOnce(ps, total)[i].priority
              == ps[i].priority + ps[i].votingPower - (if i == Elect(ps) then total else 0)
    ensures IncrementOnce(ps, total)[Elect(ps)].priority >= 1 - total
    ensures Sum(Priorities(IncrementOnce(ps, total))) == Sum(Priorities(ps))
    ensures InUse(IncrementOnce(ps, total)) && TotalPower(IncrementOnce(ps, total)) == total
  {
    hide Accrue, Mostest, IncrementOnce, Priorities, TotalPower, Legal, SameShape;
    AccrueIsExact(ps);
    IncrementPays(ps, total);
    IncrementKeepsUse(ps, total);
    var accrued, m := Accrue(ps), Elect(ps);
    PaySum(accrued, m, accrued[m].priority - total);
  }
}
