/**
 * How far ahead a validator can get: no choice of k validators holds more than k times a level that grows with the
 * harmonic numbers only, so one validator is never more than T(H(n) - 1) above the level a run starts from.
 */
module Levels {
  import opened Int64
  import opened Sums
  import opened Proposers
  import opened Quorums
  import opened Scheduler
  import opened Varints

  /** The n-th harmonic number. */
  function Harmonic(n: nat): real { if n == 0 then 0.0 else Harmonic(n - 1) + 1.0 / (n as real) }

  lemma {:induction false} HarmonicMonotone(k: nat, n: nat)
    requires k <= n
    ensures Harmonic(k) <= Harmonic(n)
  {
    if k < n { HarmonicMonotone(k, n - 1); }
  }

  /** It is no more than the number of bits of n. */
  lemma {:induction false} HarmonicLog(n: nat)
    ensures Harmonic(n) <= BitLength(n) as real
  {
    if n > 0 {
      HarmonicLog(n / 2);
      Doubling(n / 2);
      HarmonicMonotone(n, 2 * (n / 2) + 1);
    }
  }

  /** Twice as many and one more add at most one. */
  lemma {:induction false} Doubling(n: nat)
    ensures Harmonic(2 * n + 1) <= Harmonic(n) + 1.0
  {
    if n == 0 {
      HarmonicOne();
    } else {
      Doubling(n - 1);
      assert Harmonic(2 * n + 1) == Harmonic(2 * n - 1) + 1.0 / (2 * n) as real + 1.0 / (2 * n + 1) as real;
      TwoSmaller(n as real);
    }
  }

  lemma TwoSmaller(x: real)
    requires x >= 1.0
    ensures 1.0 / (2.0 * x) + 1.0 / (2.0 * x + 1.0) <= 1.0 / x
  {
    assert 1.0 / (2.0 * x + 1.0) <= 1.0 / (2.0 * x);
    assert 1.0 / (2.0 * x) + 1.0 / (2.0 * x) == 1.0 / x;
  }

  /** How many are chosen. */
  function Size(pick: seq<bool>): int { Sum(Marks(pick)) }

  function Marks(pick: seq<bool>): (r: seq<int>)
    ensures |r| == |pick|
  {
    seq(|pick|, i requires 0 <= i < |pick| => if pick[i] then 1 else 0)
  }

  /** The priorities of the chosen together. */
  function Held(ps: seq<Proposer>, pick: seq<bool>): int
    requires |pick| == |ps|
  {
    Sum(HeldEach(ps, pick))
  }

  function HeldEach(ps: seq<Proposer>, pick: seq<bool>): (r: seq<int>)
    requires |pick| == |ps|
    ensures |r| == |ps|
  {
    seq(|ps|, i requires 0 <= i < |ps| => if pick[i] then ps[i].priority as int else 0)
  }

  /** The level for k of n validators. */
  function Level(base: real, total: int, n: nat, k: nat): real {
    base + total as real * (Harmonic(n) - Harmonic(k))
  }

  ghost predicate Levelled(ps: seq<Proposer>, base: real) {
    forall pick: seq<bool> :: |pick| == |ps| && Size(pick) > 0 ==> BelowLevel(ps, base, pick)
  }

  ghost predicate BelowLevel(ps: seq<Proposer>, base: real, pick: seq<bool>)
    requires |pick| == |ps| && Size(pick) > 0
  {
    Held(ps, pick) as real <= Size(pick) as real * Level(base, TotalPower(ps), |ps|, Size(pick))
  }

  lemma SizeBounds(pick: seq<bool>)
    ensures 0 <= Size(pick) <= |pick|
  {
    SumAtLeast(Marks(pick), 0);
    SumAtMost(Marks(pick), 1);
  }

  // ---- one pass

  lemma LevelStepDown(base: real, total: int, n: nat, k: nat)
    requires total >= 0
    ensures Level(base, total, n, k) == Level(base, total, n, k + 1) + total as real / (k + 1) as real
  {
    var t, d := total as real, (k + 1) as real;
    assert Harmonic(k + 1) == Harmonic(k) + 1.0 / d;
    assert t * (1.0 / d) == t / d;
    assert t * (Harmonic(n) - Harmonic(k)) == t * (Harmonic(n) - Harmonic(k + 1)) + t * (1.0 / d);
  }

  /** From k + 1 down to k when the one left out is no smaller than the average of the others. */
  lemma AverageStep(x: real, y: real, l: real, t: real, k: real)
    requires k >= 0.0 && (k + 1.0) * x <= k * y && y <= (k + 1.0) * l + t
    ensures x <= k * (l + t / (k + 1.0))
  {
    var d := k + 1.0;
    assert d * (l + t / d) == d * l + t;
    assert k * y <= k * (d * l + t);
    assert k * (d * l + t) == d * (k * (l + t / d));
    assert d * x <= d * (k * (l + t / d));
  }

  lemma RealProduct(a: int, b: int)
    ensures (a * b) as real == a as real * b as real
  {
  }

  /** The same step on integers. */
  lemma AverageStepInt(k: nat, x: int, y: int, l: real, t: real)
    requires (k + 1) * x <= k * y && y as real <= (k + 1) as real * l + t
    ensures x as real <= k as real * (l + t / (k + 1) as real)
  {
    RealProduct(k + 1, x);
    RealProduct(k, y);
    assert (k + 1) as real == k as real + 1.0;
    AverageStep(x as real, y as real, l, t, k as real);
  }

  /** Adding one to the chosen. */
  lemma OneMore(qs: seq<Proposer>, pick: seq<bool>, m: nat)
    requires |pick| == |qs| && m < |qs| && !pick[m]
    ensures Size(pick[m := true]) == Size(pick) + 1
    ensures Held(qs, pick[m := true]) == Held(qs, pick) + qs[m].priority
    ensures Weight(qs, pick[m := true]) == Weight(qs, pick) + qs[m].votingPower
  {
    var more := pick[m := true];
    assert Marks(more) == Marks(pick)[m := 1];
    assert HeldEach(qs, more) == HeldEach(qs, pick)[m := qs[m].priority as int];
    assert Weights(qs, more) == Weights(qs, pick)[m := qs[m].votingPower as int];
    SumUpdate(Marks(pick), m, 1);
    SumUpdate(HeldEach(qs, pick), m, qs[m].priority);
    SumUpdate(Weights(qs, pick), m, qs[m].votingPower);
  }

  /** What the chosen hold after everyone has gained its power. */
  lemma HeldAccrued(ps: seq<Proposer>, pick: seq<bool>)
    requires |pick| == |ps| && forall i :: 0 <= i < |ps| ==> InInt64(ps[i].priority + ps[i].votingPower)
    ensures Held(Accrue(ps), pick) == Held(ps, pick) + Weight(ps, pick)
  {
    SumLinear(HeldEach(ps, pick), Weights(ps, pick), 0, HeldEach(Accrue(ps), pick));
  }

  /** The chosen hold at most their number times the maximum. */
  lemma HeldAtMost(qs: seq<Proposer>, pick: seq<bool>, p: int)
    requires |pick| == |qs| && forall i :: 0 <= i < |qs| ==> qs[i].priority <= p
    ensures Held(qs, pick) <= Size(pick) * p
  {
    var caps := seq(|qs|, i requires 0 <= i < |qs| => if pick[i] then p else 0);
    SumMonotone(HeldEach(qs, pick), caps);
    SumScaled(pick, p, caps);
  }

  lemma {:induction false} SumScaled(pick: seq<bool>, p: int, t: seq<int>)
    requires |pick| == |t| && forall i :: 0 <= i < |t| ==> t[i] == if pick[i] then p else 0
    ensures Sum(t) == Size(pick) * p
  {
    if |t| > 0 {
      var n := |t| - 1;
      SumScaled(pick[..n], p, t[..n]);
      assert Marks(pick)[..n] == Marks(pick[..n]);
      OneTimes(Size(pick[..n]), p);
    }
  }

  lemma OneTimes(k: int, p: int)
    ensures (k + 1) * p == k * p + p
  {
  }

  /** The payer is chosen: the others chosen gained no more than it paid. */
  lemma PayerChosen(ps: seq<Proposer>, total: Int64, base: real, pick: seq<bool>)
    requires InUse(ps) && total == TotalPower(ps) && Sum(Priorities(ps)) >= 0 && Levelled(ps, base)
    requires forall i :: 0 <= i < |ps| ==> InInt64(ps[i].priority + ps[i].votingPower)
    requires |pick| == |ps| && Size(pick) > 0 && pick[Elect(ps)]
    ensures Held(IncrementOnce(ps, total), pick) as real <= Size(pick) as real * Level(base, total, |ps|, Size(pick))
  {
    hide TotalPower, Sum, Legal, Level, Elect, IncrementOnce, Accrue, Weight;
    HeldPaid(ps, total, pick);
    PowersAreWeights(ps, pick);
    assert BelowLevel(ps, base, pick);
  }

  lemma PowersAreWeights(ps: seq<Proposer>, pick: seq<bool>)
    requires InUse(ps) && |pick| == |ps|
    ensures 0 <= Weight(ps, pick) <= TotalPower(ps)
  {
    hide TotalPower, Weight;
    WeightAtMostTotal(ps, pick);
  }

  /** What the chosen hold after the pass. */
  lemma HeldPaid(ps: seq<Proposer>, total: Int64, pick: seq<bool>)
    requires InUse(ps) && total == TotalPower(ps) && Sum(Priorities(ps)) >= 0 && |pick| == |ps|
    requires forall i :: 0 <= i < |ps| ==> InInt64(ps[i].priority + ps[i].votingPower)
    ensures Held(IncrementOnce(ps, total), pick)
            == Held(ps, pick) + Weight(ps, pick) - if pick[Elect(ps)] then total else 0
  {
    hide TotalPower, Legal, Elect, IncrementOnce, Weight, Sum;
    HeldAccrued(ps, pick);
    IncrementPays(ps, total);
    var m, qs := Elect(ps), Accrue(ps);
    var p: int := if pick[m] then qs[m].priority - total else 0;
    assert HeldEach(IncrementOnce(ps, total), pick) == HeldEach(qs, pick)[m := p];
    SumUpdate(HeldEach(qs, pick), m, p);
  }

  /** The payer is not chosen: it was above all of them, so the choice with it bounds the choice without. */
  lemma PayerLeftOut(ps: seq<Proposer>, total: Int64, base: real, pick: seq<bool>)
    requires InUse(ps) && total == TotalPower(ps) && Sum(Priorities(ps)) >= 0 && Levelled(ps, base)
    requires forall i :: 0 <= i < |ps| ==> InInt64(ps[i].priority + ps[i].votingPower)
    requires |pick| == |ps| && Size(pick) > 0 && !pick[Elect(ps)]
    ensures Held(IncrementOnce(ps, total), pick) as real <= Size(pick) as real * Level(base, total, |ps|, Size(pick))
  {
    hide TotalPower, Sum, Legal, Level, IncrementOnce, Accrue, Weight, Elect, Held, Size;
    var m, qs, k := Elect(ps), Accrue(ps), Size(pick);
    var more := pick[m := true];
    HeldPaid(ps, total, pick);
    HeldAccrued(ps, pick);
    LeftOutBelow(ps, pick);
    OneMoreAccrued(ps, total, pick, m);
    assert BelowLevel(ps, base, more);
    LevelStepDown(base, total, |ps|, k);
    AverageStepInt(k, Held(qs, pick), Held(qs, more), Level(base, total, |ps|, k + 1), total as real);
  }

  /** With the one to pay the chosen hold no more than before and the total. */
  lemma OneMoreAccrued(ps: seq<Proposer>, total: Int64, pick: seq<bool>, m: nat)
    requires InUse(ps) && total == TotalPower(ps) && |pick| == |ps| && m < |ps| && !pick[m]
    requires forall i :: 0 <= i < |ps| ==> InInt64(ps[i].priority + ps[i].votingPower)
    ensures Size(pick[m := true]) == Size(pick) + 1
    ensures Held(Accrue(ps), pick[m := true]) <= Held(ps, pick[m := true]) + total
  {
    hide TotalPower, Sum, Legal, Accrue, Weight, Held, Size;
    OneMore(ps, pick, m);
    HeldAccrued(ps, pick[m := true]);
    PowersAreWeights(ps, pick[m := true]);
  }

  /** The chosen without the one to pay hold no more than their share of what they hold with it. */
  lemma LeftOutBelow(ps: seq<Proposer>, pick: seq<bool>)
    requires InUse(ps) && |pick| == |ps| && !pick[Elect(ps)]
    requires forall i :: 0 <= i < |ps| ==> InInt64(ps[i].priority + ps[i].votingPower)
    ensures var qs, k := Accrue(ps), Size(pick);
      (k + 1) * Held(qs, pick) <= k * Held(qs, pick[Elect(ps) := true])
  {
    hide TotalPower, Sum, Accrue, Weight, Held, Size, Mostest;
    var m, qs := Elect(ps), Accrue(ps);
    AccrueIsExact(ps);
    SameShapePowers(ps, qs);
    MostestIsMaximal(qs);
    OneMore(qs, pick, m);
    HeldAtMost(qs, pick, qs[m].priority);
    Shares(Size(pick), Held(qs, pick), qs[m].priority);
  }

  lemma Shares(k: int, x: int, p: int)
    requires x <= k * p
    ensures (k + 1) * x <= k * (x + p)
  {
    assert (k + 1) * x == k * x + x && k * (x + p) == k * x + k * p;
  }

  /** A pass keeps every choice below its level. */
  lemma LevelStep(ps: seq<Proposer>, total: Int64, base: real)
    requires InUse(ps) && total == TotalPower(ps) && Sum(Priorities(ps)) >= 0 && Levelled(ps, base)
    requires forall i :: 0 <= i < |ps| ==> InInt64(ps[i].priority + ps[i].votingPower)
    ensures Levelled(IncrementOnce(ps, total), base)
  {
    hide TotalPower, Sum, Legal, Level, IncrementOnce, Elect, Levelled, Held;
    var next := IncrementOnce(ps, total);
    IncrementKeepsUse(ps, total);
    forall pick: seq<bool> | |pick| == |ps| && Size(pick) > 0 ensures BelowLevel(next, base, pick) {
      if pick[Elect(ps)] { PayerChosen(ps, total, base, pick); } else { PayerLeftOut(ps, total, base, pick); }
    }
    FromEach(next, base);
  }

  lemma FromEach(ps: seq<Proposer>, base: real)
    requires forall pick: seq<bool> :: |pick| == |ps| && Size(pick) > 0 ==> BelowLevel(ps, base, pick)
    ensures Levelled(ps, base)
  {
  }

  // ---- where levels start, and what they say of one validator

  /** Priorities at or below a bound that is not negative are levelled by it. */
  lemma BoundIsLevel(ps: seq<Proposer>, bound: nat)
    requires TotalPower(ps) >= 0 && forall i :: 0 <= i < |ps| ==> ps[i].priority <= bound
    ensures Levelled(ps, bound as real)
  {
    hide TotalPower, Harmonic, Held, Size;
    forall pick: seq<bool> | |pick| == |ps| && Size(pick) > 0 ensures BelowLevel(ps, bound as real, pick) {
      HeldAtMost(ps, pick, bound);
      RealProduct(Size(pick), bound);
      SizeBounds(pick);
      HarmonicMonotone(Size(pick), |ps|);
      var k := Size(pick);
      LevelAbove(bound as real, TotalPower(ps) as real, Harmonic(|ps|) - Harmonic(k), k as real);
      assert k as real * bound as real <= k as real * Level(bound as real, TotalPower(ps), |ps|, k);
      assert Held(ps, pick) as real <= (k * bound) as real;
    }
  }

  lemma LevelAbove(bound: real, t: real, h: real, k: real)
    requires t >= 0.0 && h >= 0.0 && k >= 0.0
    ensures k * bound <= k * (bound + t * h)
  {
    assert t * h >= 0.0;
    assert k * (t * h) >= 0.0;
  }

  /** One validator alone. */
  lemma SingleLevel(ps: seq<Proposer>, base: real, i: nat)
    requires Levelled(ps, base) && i < |ps|
    ensures ps[i].priority as real <= base + TotalPower(ps) as real * (Harmonic(|ps|) - 1.0)
  {
    hide TotalPower, Harmonic, Held, Size;
    OnlyOne(ps, i);
    HarmonicOne();
    assert BelowLevel(ps, base, Only(|ps|, i));
  }

  function Only(n: nat, i: nat): (r: seq<bool>)
    ensures |r| == n
  {
    seq(n, j => j == i)
  }

  lemma OnlyOne(ps: seq<Proposer>, i: nat)
    requires i < |ps|
    ensures Size(Only(|ps|, i)) == 1 && Held(ps, Only(|ps|, i)) == ps[i].priority
  {
    hide Sum;
    var none := seq(|ps|, j => false);
    SumConst(Marks(none), 0);
    SumConst(HeldEach(ps, none), 0);
    OneMore(ps, none, i);
    assert none[i := true] == Only(|ps|, i);
  }

  lemma HarmonicOne()
    ensures Harmonic(1) == 1.0
  {
    assert Harmonic(1) == Harmonic(0) + 1.0 / (1 as real);
  }
}
