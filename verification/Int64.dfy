/** Go's int64 over unbounded integers: wrap-around, truncated division and the saturating helpers. */
module Int64 {
  const MAX_INT64: int := 0x7FFF_FFFF_FFFF_FFFF
  const MIN_INT64: int := -0x8000_0000_0000_0000
  const TWO_64: int := 0x1_0000_0000_0000_0000

  predicate InInt64(x: int) { MIN_INT64 <= x <= MAX_INT64 }

  type Int64 = x: int | -0x8000_0000_0000_0000 <= x <= 0x7FFF_FFFF_FFFF_FFFF

  /** The value an int64 operation leaves behind when its mathematical result is `x`. */
  function Wrap64(x: int): (r: Int64)
    ensures InInt64(x) ==> r == x
    ensures (r - x) % TWO_64 == 0
    ensures MAX_INT64 < x < TWO_64 ==> r == x - TWO_64
  {
    var m := x % TWO_64;
    if m > MAX_INT64 then m - TWO_64 else m
  }

  /** Go's `/` on integers: the quotient is rounded toward zero. */
  function TruncDiv(a: int, b: int): int
    requires b != 0
  {
    if a >= 0 then a / b else -((-a) / b)
  }

  // ---- products, one step at a time

  lemma ProductSign(x: int, y: int)
    requires x >= 0 && y >= 0
    ensures x * y >= 0
  {
  }

  lemma ProductOrder(r: int, x: int, y: int)
    requires r >= 0 && x <= y
    ensures r * x <= r * y
  {
    ProductSign(r, y - x);
    assert r * (y - x) == r * y - r * x;
  }

  lemma SmallerFactor(r: int, x: int, y: int)
    requires r > 0 && r * x < r * y
    ensures x < y
  {
    if x >= y { ProductOrder(r, y, x); }
  }

  lemma QuotientBounds(x: nat, y: int)
    requires y > 0
    ensures 0 <= x / y <= x && y * (x / y) <= x < y * (x / y) + y
  {
    var q := x / y;
    assert x == y * q + x % y;
    SmallerFactor(y, -1, q);
    ProductOrder(q, 1, y);
    assert q * y == y * q;
  }

  lemma TruncDivBounds(a: int, b: int)
    requires b > 0
    ensures a >= 0 ==> b * TruncDiv(a, b) <= a < b * TruncDiv(a, b) + b
    ensures a <= 0 ==> b * TruncDiv(a, b) - b < a <= b * TruncDiv(a, b)
    ensures Abs(TruncDiv(a, b)) <= Abs(a)
    ensures a >= 0 ==> TruncDiv(a, b) >= 0
    ensures a <= 0 ==> TruncDiv(a, b) <= 0
  {
    QuotientBounds(Abs(a), b);
    var q := Abs(a) / b;
    assert b * -q == -(b * q);
  }

  /** `x` pulled into the int64 range. */
  function Saturate(x: int): Int64 {
    if x > MAX_INT64 then MAX_INT64 else if x < MIN_INT64 then MIN_INT64 else x
  }

  function SafeAdd(a: Int64, b: Int64): (r: (Int64, bool))
    ensures r.1 <==> !InInt64(a + b)
    ensures !r.1 ==> r.0 == a + b
  {
    if b > 0 && a > MAX_INT64 - b then (-1, true)
    else if b < 0 && a < MIN_INT64 - b then (-1, true)
    else var c: Int64 := a + b; (c, false)
  }

  function SafeSub(a: Int64, b: Int64): (r: (Int64, bool))
    ensures r.1 <==> !InInt64(a - b)
    ensures !r.1 ==> r.0 == a - b
  {
    if b > 0 && a < MIN_INT64 + b then (-1, true)
    else if b < 0 && a > MAX_INT64 + b then (-1, true)
    else var c: Int64 := a - b; (c, false)
  }

  function SafeAddClip(a: Int64, b: Int64): (r: Int64)
    ensures r == Saturate(a + b)
    ensures r == if a + b > MAX_INT64 then MAX_INT64 else if a + b < MIN_INT64 then MIN_INT64 else a + b
  {
    var (c, overflow) := SafeAdd(a, b);
    if overflow then (if b < 0 then MIN_INT64 else MAX_INT64) else c
  }

  function SafeSubClip(a: Int64, b: Int64): (r: Int64)
    ensures r == Saturate(a - b)
    ensures r == if a - b > MAX_INT64 then MAX_INT64 else if a - b < MIN_INT64 then MIN_INT64 else a - b
  {
    var (c, overflow) := SafeSub(a, b);
    if overflow then (if b > 0 then MIN_INT64 else MAX_INT64) else c
  }

  function SafeMul(a: Int64, b: Int64): (Int64, bool) {
    if a == 0 || b == 0 then (0, false)
    else
      var absOfB := if b < 0 then Wrap64(0 - b) else b;
      var absOfA := if a < 0 then Wrap64(0 - a) else a;
      if absOfA > TruncDiv(MAX_INT64, absOfB) then (0, true) else (Wrap64(a * b), false)
  }

  function Abs(x: int): nat { if x < 0 then -x else x }

  lemma AbsOfProduct(a: int, b: int)
    ensures Abs(a * b) == Abs(a) * Abs(b)
  {
  }

  lemma QuotientThreshold(x: nat, y: nat)
    requires y > 0
    ensures x > TruncDiv(MAX_INT64, y) <==> x * y > MAX_INT64
  {
    var q := TruncDiv(MAX_INT64, y);
    TruncDivBounds(MAX_INT64, y);
    if x > q {
      ProductOrder(y, q + 1, x);
      assert y * (q + 1) == y * q + y && y * x == x * y;
    } else {
      ProductOrder(y, x, q);
      assert y * x == x * y;
    }
  }

  /** The flag by magnitudes: it compares absolute values, and for MIN_INT64 as the first operand it is never set. */
  lemma SafeMulFlag(a: Int64, b: Int64)
    ensures a != MIN_INT64 ==> (SafeMul(a, b).1 <==> Abs(a * b) > MAX_INT64)
    ensures a != MIN_INT64 && !SafeMul(a, b).1 ==> SafeMul(a, b).0 == a * b
    ensures a == MIN_INT64 ==> !SafeMul(a, b).1 && (SafeMul(a, b).0 == a * b <==> b == 0 || b == 1)
  {
    AbsOfProduct(a, b);
    if a == 0 || b == 0 {
    } else if a == MIN_INT64 {
      assert Wrap64(0 - a) == MIN_INT64;
      assert b > 0 ==> TruncDiv(MAX_INT64, b) >= 0 by { if b > 0 { TruncDivBounds(MAX_INT64, b); } }
      assert MIN_INT64 < b < 0 ==> TruncDiv(MAX_INT64, 0 - b) >= 0 by {
        if MIN_INT64 < b < 0 { TruncDivBounds(MAX_INT64, 0 - b); }
      }
      assert b == MIN_INT64 ==> TruncDiv(MAX_INT64, MIN_INT64) == 0;
    } else if b == MIN_INT64 {
      assert TruncDiv(MAX_INT64, MIN_INT64) == 0;
      assert Abs(a) * Abs(b) >= Abs(b);
    } else {
      QuotientThreshold(Abs(a), Abs(b));
    }
  }

  lemma MinTimes(b: Int64)
    ensures InInt64(MIN_INT64 * b) <==> b == 0 || b == 1
  {
  }

  /**
   * When the flag of SafeMul tells whether the product leaves int64. It fails on two families: a product of exactly
   * MIN_INT64, which fits but is reported, and MIN_INT64 as the first operand, which is never reported.
   */
  lemma SafeMulExactly(a: Int64, b: Int64)
    ensures (SafeMul(a, b).1 == !InInt64(a * b)) <==> if a == MIN_INT64 then b == 0 || b == 1 else a * b != MIN_INT64
    ensures !SafeMul(a, b).1 && (a == MIN_INT64 ==> b == 0 || b == 1) ==> SafeMul(a, b).0 == a * b
  {
    SafeMulFlag(a, b);
    MinTimes(b);
  }

  /** Both families have members. */
  lemma SafeMulFails()
    ensures SafeMul(2, MIN_INT64 / 2).1 && InInt64(2 * (MIN_INT64 / 2))
    ensures SafeMul(1, MIN_INT64).1
    ensures !SafeMul(MIN_INT64, 2).1 && !InInt64(MIN_INT64 * 2)
  {
    SafeMulExactly(2, MIN_INT64 / 2);
    SafeMulExactly(1, MIN_INT64);
    SafeMulExactly(MIN_INT64, 2);
  }
}
