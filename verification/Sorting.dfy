/**
 * A stand-in for Go's sort package. Callers see only that the result is an ordered permutation,
 * as the library promises; how ties are ordered stays open.
 */
module Sorting {
  ghost predicate TotalPreorder<T(!new)>(less: (T, T) -> bool) {
    && (forall a, b :: !(less(a, b) && less(b, a)))
    && (forall a, b, c :: less(c, a) ==> less(c, b) || less(b, a))
  }

  /** No element is strictly below an earlier one. */
  ghost predicate Ordered<T>(less: (T, T) -> bool, s: seq<T>) {
    forall i, j :: 0 <= i < j < |s| ==> !less(s[j], s[i])
  }

  /** Every element is strictly above all earlier ones. */
  ghost predicate StrictlyOrdered<T>(less: (T, T) -> bool, s: seq<T>) {
    forall i, j :: 0 <= i < j < |s| ==> less(s[i], s[j])
  }

  function Insert<T>(less: (T, T) -> bool, s: seq<T>, x: T): seq<T> {
    if |s| == 0 then [x]
    else if less(x, s[0]) then [x] + s
    else [s[0]] + Insert(less, s[1..], x)
  }

  lemma {:induction false} InsertAdds<T>(less: (T, T) -> bool, s: seq<T>, x: T)
    ensures multiset(Insert(less, s, x)) == multiset(s) + multiset{x}
  {
    if |s| != 0 {
      assert s == [s[0]] + s[1..];
      InsertAdds(less, s[1..], x);
    }
  }

  lemma {:induction false} InsertKeepsOrder<T(!new)>(less: (T, T) -> bool, s: seq<T>, x: T)
    requires TotalPreorder(less) && Ordered(less, s)
    ensures Ordered(less, Insert(less, s, x))
  {
    if |s| != 0 && !less(x, s[0]) {
      InsertKeepsOrder(less, s[1..], x);
      InsertAdds(less, s[1..], x);
      var rest := Insert(less, s[1..], x);
      forall i | 0 <= i < |rest| ensures !less(rest[i], s[0]) {
        assert rest[i] in multiset(rest);
        if rest[i] != x {
          assert rest[i] in s[1..];
        }
      }
    } else if |s| != 0 {
      forall i | 0 <= i < |s| ensures !less(s[i], x) {
        assert !less(s[0], x);
      }
    }
  }

  lemma {:induction false} SortExists<T(!new)>(less: (T, T) -> bool, s: seq<T>) returns (r: seq<T>)
    requires TotalPreorder(less)
    ensures Ordered(less, r) && multiset(r) == multiset(s)
  {
    if |s| == 0 {
      r := [];
    } else {
      var n := |s| - 1;
      assert s == s[..n] + [s[n]];
      var front := SortExists(less, s[..n]);
      InsertKeepsOrder(less, front, s[n]);
      InsertAdds(less, front, s[n]);
      r := Insert(less, front, s[n]);
    }
  }

  method Sort<T(!new)>(s: seq<T>, less: (T, T) -> bool) returns (r: seq<T>)
    requires TotalPreorder(less)
    ensures Ordered(less, r) && multiset(r) == multiset(s)
  {
    r := [];
    for i := 0 to |s|
      invariant Ordered(less, r) && multiset(r) == multiset(s[..i])
    {
      InsertKeepsOrder(less, r, s[i]);
      InsertAdds(less, r, s[i]);
      r := Insert(less, r, s[i]);
      assert s[..i + 1] == s[..i] + [s[i]];
    }
    assert s[..|s|] == s;
  }

  lemma MultisetOfTail<T>(s: seq<T>)
    requires |s| > 0
    ensures multiset(s[1..]) == multiset(s) - multiset{s[0]}
  {
    assert s == [s[0]] + s[1..];
  }

  lemma SameHead<T(!new)>(less: (T, T) -> bool, s: seq<T>, t: seq<T>)
    requires forall a, b :: !(less(a, b) && less(b, a))
    requires StrictlyOrdered(less, s) && StrictlyOrdered(less, t)
    requires |s| > 0 && |t| > 0 && s[0] in t && t[0] in s
    ensures s[0] == t[0]
  {
    var i :| 0 <= i < |t| && t[i] == s[0];
    var j :| 0 <= j < |s| && s[j] == t[0];
  }

  /** A strict order admits one arrangement of a given collection. */
  lemma {:induction false} StrictOrderUnique<T(!new)>(less: (T, T) -> bool, s: seq<T>, t: seq<T>)
    requires forall a, b :: !(less(a, b) && less(b, a))
    requires StrictlyOrdered(less, s) && StrictlyOrdered(less, t)
    requires multiset(s) == multiset(t)
    ensures s == t
  {
    assert |multiset(s)| == |s| && |multiset(t)| == |t|;
    if |s| != 0 {
      assert s[0] in multiset(t) && t[0] in multiset(s);
      SameHead(less, s, t);
      MultisetOfTail(s);
      MultisetOfTail(t);
      assert StrictlyOrdered(less, s[1..]) && StrictlyOrdered(less, t[1..]);
      StrictOrderUnique(less, s[1..], t[1..]);
      assert s == [s[0]] + s[1..] && t == [t[0]] + t[1..];
    }
  }
}
