/** Sums of integer sequences and of the values of a finite map. */
module Sums {
  function Sum(s: seq<int>): int {
    if |s| == 0 then 0 else Sum(s[..|s| - 1]) + s[|s| - 1]
  }

  lemma SumAppend(s: seq<int>, x: int)
    ensures Sum(s + [x]) == Sum(s) + x
  {
    assert (s + [x])[..|s|] == s;
  }

  /** One more element of a prefix. */
  lemma SumPrefix(s: seq<int>, i: nat)
    requires i < |s|
    ensures Sum(s[..i + 1]) == Sum(s[..i]) + s[i]
  {
    assert s[..i + 1] == s[..i] + [s[i]];
    SumAppend(s[..i], s[i]);
  }

  lemma {:induction false} SumConcat(s: seq<int>, t: seq<int>)
    ensures Sum(s + t) == Sum(s) + Sum(t)
  {
    if |t| == 0 {
      assert s + t == s;
    } else {
      SumConcat(s, t[..|t| - 1]);
      assert (s + t)[..|s + t| - 1] == s + t[..|t| - 1];
    }
  }

  lemma {:induction false} SumUpdate(s: seq<int>, i: nat, x: int)
    requires i < |s|
    ensures Sum(s[i := x]) == Sum(s) - s[i] + x
  {
    var n := |s| - 1;
    if i == n {
      assert s[i := x][..n] == s[..n];
    } else {
      SumUpdate(s[..n], i, x);
      assert s[i := x][..n] == s[..n][i := x];
    }
  }

  /** The sum of a pointwise combination a * s + t + c. */
  lemma {:induction false} SumLinear(s: seq<int>, t: seq<int>, c: int, u: seq<int>)
    requires |s| == |t| == |u|
    requires forall i :: 0 <= i < |s| ==> u[i] == s[i] + t[i] + c
    ensures Sum(u) == Sum(s) + Sum(t) + |s| * c
  {
    if |s| != 0 {
      var n := |s| - 1;
      SumLinear(s[..n], t[..n], c, u[..n]);
    }
  }

  lemma {:induction false} SumConst(s: seq<int>, c: int)
    requires forall i :: 0 <= i < |s| ==> s[i] == c
    ensures Sum(s) == |s| * c
  {
    if |s| != 0 {
      SumConst(s[..|s| - 1], c);
    }
  }

  lemma {:induction false} SumMonotone(s: seq<int>, t: seq<int>)
    requires |s| == |t|
    requires forall i :: 0 <= i < |s| ==> s[i] <= t[i]
    ensures Sum(s) <= Sum(t)
  {
    if |s| != 0 {
      SumMonotone(s[..|s| - 1], t[..|s| - 1]);
    }
  }

  lemma {:induction false} SumAtLeast(s: seq<int>, low: int)
    requires forall i :: 0 <= i < |s| ==> low <= s[i]
    ensures |s| * low <= Sum(s)
  {
    if |s| != 0 {
      SumAtLeast(s[..|s| - 1], low);
    }
  }

  lemma {:induction false} SumAtMost(s: seq<int>, high: int)
    requires forall i :: 0 <= i < |s| ==> s[i] <= high
    ensures Sum(s) <= |s| * high
  {
    if |s| != 0 {
      SumAtMost(s[..|s| - 1], high);
    }
  }

  /** If nothing is below `low`, one element holds at most what the others leave it. */
  lemma ElementAtMost(s: seq<int>, low: int, i: nat)
    requires i < |s|
    requires forall j :: 0 <= j < |s| ==> low <= s[j]
    ensures s[i] <= Sum(s) - (|s| - 1) * low
  {
    SumUpdate(s, i, low);
    SumAtLeast(s[i := low], low);
    assert |s| * low == (|s| - 1) * low + low;
  }

  /** Two pointwise ordered sequences with equal sums are equal. */
  lemma EqualSums(s: seq<int>, t: seq<int>, i: nat)
    requires |s| == |t| && i < |s|
    requires forall j :: 0 <= j < |s| ==> s[j] <= t[j]
    requires Sum(s) == Sum(t)
    ensures s[i] == t[i]
  {
    SumUpdate(s, i, t[i]);
    SumMonotone(s[i := t[i]], t);
  }

  function Image<T>(f: T -> int, s: seq<T>): seq<int> {
    seq(|s|, i requires 0 <= i < |s| => f(s[i]))
  }

  lemma ImageConcat<T>(f: T -> int, s: seq<T>, t: seq<T>)
    ensures Image(f, s + t) == Image(f, s) + Image(f, t)
  {
  }

  lemma SumTakenOut<T>(f: T -> int, s: seq<T>, j: nat)
    requires j < |s|
    ensures Sum(Image(f, s)) == Sum(Image(f, s[..j] + s[j + 1..])) + f(s[j])
  {
    var front, back := s[..j], s[j + 1..];
    assert s == (front + [s[j]]) + back;
    ImageConcat(f, front + [s[j]], back);
    ImageConcat(f, front, [s[j]]);
    ImageConcat(f, front, back);
    assert Image(f, [s[j]]) == [f(s[j])];
    SumConcat(Image(f, front + [s[j]]), Image(f, back));
    SumConcat(Image(f, front), Image(f, back));
    SumAppend(Image(f, front), f(s[j]));
  }

  /** Where the last element of one arrangement sits in the other. */
  lemma FindLast<T>(s: seq<T>, t: seq<T>) returns (j: nat)
    requires |s| > 0 && multiset(s) == multiset(t)
    ensures j < |t| && t[j] == s[|s| - 1]
    ensures multiset(s[..|s| - 1]) == multiset(t[..j] + t[j + 1..])
  {
    var n := |s| - 1;
    assert s == s[..n] + [s[n]];
    assert s[n] in multiset(t);
    j :| 0 <= j < |t| && t[j] == s[n];
    var rest := t[..j] + t[j + 1..];
    assert t == t[..j] + [t[j]] + t[j + 1..];
    assert multiset(s) == multiset(s[..n]) + multiset{s[n]};
    assert multiset(t) == multiset(rest) + multiset{s[n]};
    assert multiset(s[..n]) == multiset(s) - multiset{s[n]} == multiset(rest);
  }

  /** A sum over a list does not depend on the order of the list. */
  lemma {:induction false} SumPermutation<T>(f: T -> int, s: seq<T>, t: seq<T>)
    requires multiset(s) == multiset(t)
    ensures Sum(Image(f, s)) == Sum(Image(f, t))
  {
    if |s| == 0 {
      assert |multiset(s)| == |s| && |multiset(t)| == |t|;
      assert Image(f, s) == Image(f, t);
    } else {
      var n := |s| - 1;
      var j := FindLast(s, t);
      SumPermutation(f, s[..n], t[..j] + t[j + 1..]);
      SumTakenOut(f, t, j);
      SumTakenOut(f, s, n);
      assert s[..n] + s[n + 1..] == s[..n];
    }
  }

  // ---- the sum of a map's values

  ghost function AnyKey<K>(m: map<K, int>): (k: K)
    requires m != map[]
    ensures k in m
  {
    var k :| k in m; k
  }

  ghost function MapSum<K>(m: map<K, int>): int {
    if m == map[] then 0 else MapSum(m - {AnyKey(m)}) + m[AnyKey(m)]
  }

  /** Any key may be taken out first. */
  lemma {:induction false} MapSumWithout<K>(m: map<K, int>, k: K)
    requires k in m
    ensures MapSum(m) == MapSum(m - {k}) + m[k]
    decreases |m|
  {
    var first := AnyKey(m);
    if first != k {
      MapSumWithout(m - {first}, k);
      MapSumWithout(m - {k}, first);
      assert m - {first} - {k} == m - {k} - {first};
    }
  }

  /** Setting a key changes the sum by the difference of the values. */
  lemma MapSumSet<K>(m: map<K, int>, k: K, x: int)
    ensures MapSum(m[k := x]) == MapSum(m) + x - (if k in m then m[k] else 0)
  {
    MapSumWithout(m[k := x], k);
    assert m[k := x] - {k} == m - {k};
    if k in m {
      MapSumWithout(m, k);
    } else {
      assert m - {k} == m;
    }
  }
}
