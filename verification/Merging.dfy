/** The merge and removal passes over address-sorted lists, and what they make of the maps behind the lists. */
module Merging {
  import opened Bytes
  import opened Proposers
  import opened ChangeSets

  /** applyUpdates on lists: on equal addresses the update wins. */
  function Merge(existing: seq<Proposer>, updates: seq<Proposer>): seq<Proposer> {
    if |existing| == 0 then updates
    else if |updates| == 0 then existing
    else if Less(existing[0].address, updates[0].address) then [existing[0]] + Merge(existing[1..], updates)
    else if existing[0].address == updates[0].address then [updates[0]] + Merge(existing[1..], updates[1..])
    else [updates[0]] + Merge(existing, updates[1..])
  }

  /** applyRemovals on lists. */
  function Without(existing: seq<Proposer>, deletes: seq<Proposer>): seq<Proposer> {
    if |deletes| == 0 || |existing| == 0 then existing
    else if existing[0].address == deletes[0].address then Without(existing[1..], deletes[1..])
    else [existing[0]] + Without(existing[1..], deletes)
  }

  /** Every entry of `ps` lies above the address. */
  ghost predicate AllAbove(a: Address, ps: seq<Proposer>) {
    forall i :: 0 <= i < |ps| ==> Less(a, ps[i].address)
  }

  /** One turn of the merging loop. */
  lemma MergeTurn(done: seq<Proposer>, e: seq<Proposer>, u: seq<Proposer>)
    requires |e| > 0 && |u| > 0
    ensures done + Merge(e, u)
            == if Less(e[0].address, u[0].address) then (done + [e[0]]) + Merge(e[1..], u)
               else (done + [u[0]]) + Merge(if e[0].address == u[0].address then e[1..] else e, u[1..])
  {
  }

  lemma MergeRest(done: seq<Proposer>, e: seq<Proposer>, u: seq<Proposer>)
    requires |e| == 0 || |u| == 0
    ensures done + Merge(e, u) == done + e + u
  {
  }

  lemma SortedTail(ps: seq<Proposer>)
    requires |ps| > 0 && AddressSorted(ps)
    ensures AddressSorted(ps[1..]) && AllAbove(ps[0].address, ps[1..])
  {
    forall i | 0 <= i < |ps| - 1 ensures AddressLess(ps[0], ps[1..][i]) {
    }
  }

  lemma SortedCons(p: Proposer, ps: seq<Proposer>)
    requires AddressSorted(ps) && AllAbove(p.address, ps)
    ensures AddressSorted([p] + ps)
  {
    hide Less;
    var all := [p] + ps;
    forall i, j | 0 <= i < j < |all| ensures AddressLess(all[i], all[j]) {
      if i > 0 { assert all[i] == ps[i - 1]; }
      assert all[j] == ps[j - 1];
    }
  }

  lemma AboveTransitive(a: Address, b: Address, ps: seq<Proposer>)
    requires Less(a, b) && AllAbove(b, ps)
    ensures AllAbove(a, ps)
  {
    hide Less;
    forall i | 0 <= i < |ps| ensures Less(a, ps[i].address) {
      LessTransitive(a, b, ps[i].address);
    }
  }

  /** The map of an address-sorted list; total, so that proofs need not carry distinctness around. */
  ghost function MapOf(ps: seq<Proposer>): map<Address, Proposer> {
    if |ps| == 0 then map[] else map[ps[0].address := ps[0]] + MapOf(ps[1..])
  }

  lemma {:induction false} AboveNotInMap(a: Address, ps: seq<Proposer>)
    requires AllAbove(a, ps)
    ensures a !in MapOf(ps)
  {
    hide Less;
    if |ps| > 0 {
      assert forall i :: 0 <= i < |ps| - 1 ==> ps[1..][i] == ps[i + 1];
      LessIrreflexive(a);
      AboveNotInMap(a, ps[1..]);
      assert Less(a, ps[0].address);
    }
  }

  lemma {:induction false} MapOfIsByAddress(ps: seq<Proposer>)
    requires AddressSorted(ps)
    ensures DistinctAddresses(ps) && MapOf(ps) == ByAddress(ps)
  {
    AddressSortedDistinct(ps);
    if |ps| > 0 {
      SortedTail(ps);
      MapOfIsByAddress(ps[1..]);
      AboveNotInMap(ps[0].address, ps[1..]);
      ByAddressCons(ps);
    }
  }

  lemma ByAddressCons(ps: seq<Proposer>)
    requires |ps| > 0 && DistinctAddresses(ps)
    ensures DistinctAddresses(ps[1..]) && ByAddress(ps) == map[ps[0].address := ps[0]] + ByAddress(ps[1..])
  {
    var rest := ByAddress(ps[1..]);
    forall i | 0 < i < |ps| ensures ps[i].address in rest && rest[ps[i].address] == ps[i] {
      assert ps[1..][i - 1] == ps[i];
    }
  }

  lemma MapOfCons(p: Proposer, ps: seq<Proposer>)
    ensures MapOf([p] + ps) == map[p.address := p] + MapOf(ps)
  {
    assert ([p] + ps)[1..] == ps;
  }

  lemma {:induction false} MergeAbove(e: seq<Proposer>, u: seq<Proposer>, a: Address)
    requires AllAbove(a, e) && AllAbove(a, u)
    ensures AllAbove(a, Merge(e, u))
    decreases |e| + |u|
  {
    hide Less;
    if |e| > 0 && |u| > 0 {
      if Less(e[0].address, u[0].address) {
        MergeAbove(e[1..], u, a);
      } else if e[0].address == u[0].address {
        MergeAbove(e[1..], u[1..], a);
      } else {
        MergeAbove(e, u[1..], a);
      }
    }
  }

  lemma {:induction false} MergeSorted(e: seq<Proposer>, u: seq<Proposer>)
    requires AddressSorted(e) && AddressSorted(u)
    ensures AddressSorted(Merge(e, u)) && |Merge(e, u)| <= |e| + |u|
    decreases |e| + |u|
  {
    hide Less;
    if |e| > 0 && |u| > 0 {
      SortedTail(e);
      SortedTail(u);
      var a, b := e[0].address, u[0].address;
      if Less(a, b) {
        MergeSorted(e[1..], u);
        AboveFromHead(a, u);
        MergeAbove(e[1..], u, a);
        SortedCons(e[0], Merge(e[1..], u));
      } else if a == b {
        MergeSorted(e[1..], u[1..]);
        MergeAbove(e[1..], u[1..], b);
        SortedCons(u[0], Merge(e[1..], u[1..]));
      } else {
        LessTotal(a, b);
        MergeSorted(e, u[1..]);
        AboveFromHead(b, e);
        MergeAbove(e, u[1..], b);
        SortedCons(u[0], Merge(e, u[1..]));
      }
    }
  }

  lemma PutLeft<K, V>(k: K, v: V, m: map<K, V>, n: map<K, V>)
    requires k !in n
    ensures map[k := v] + (m + n) == (map[k := v] + m) + n
  {
  }

  lemma PutRight<K, V>(k: K, v: V, v': V, m: map<K, V>, n: map<K, V>)
    requires k !in m
    ensures map[k := v] + (m + n) == m + (map[k := v] + n) == (map[k := v'] + m) + (map[k := v] + n)
  {
  }

  /** Merging overrides the existing entries by the updates. */
  lemma {:induction false} MergeOverrides(e: seq<Proposer>, u: seq<Proposer>)
    requires AddressSorted(e) && AddressSorted(u)
    ensures MapOf(Merge(e, u)) == MapOf(e) + MapOf(u)
    decreases |e| + |u|
  {
    hide Less, AddressSorted, AllAbove;
    if |e| > 0 && |u| > 0 {
      SortedTail(e);
      SortedTail(u);
      var a, b := e[0].address, u[0].address;
      if Less(a, b) {
        MergeOverrides(e[1..], u);
        AboveFromHead(a, u);
        AboveNotInMap(a, u);
        MapOfCons(e[0], Merge(e[1..], u));
        PutLeft(a, e[0], MapOf(e[1..]), MapOf(u));
      } else if a == b {
        MergeOverrides(e[1..], u[1..]);
        AboveNotInMap(b, e[1..]);
        MapOfCons(u[0], Merge(e[1..], u[1..]));
        PutRight(b, u[0], e[0], MapOf(e[1..]), MapOf(u[1..]));
      } else {
        LessTotal(a, b);
        MergeOverrides(e, u[1..]);
        AboveFromHead(b, e);
        AboveNotInMap(b, e);
        MapOfCons(u[0], Merge(e, u[1..]));
        PutRight(b, u[0], u[0], MapOf(e), MapOf(u[1..]));
      }
    } else if |u| > 0 {
      assert map[] + MapOf(u) == MapOf(u);
    } else {
      assert MapOf(e) + map[] == MapOf(e);
    }
  }

  lemma AboveFromHead(a: Address, ps: seq<Proposer>)
    requires |ps| > 0 && AddressSorted(ps) && Less(a, ps[0].address)
    ensures AllAbove(a, ps)
  {
    hide Less;
    SortedTail(ps);
    AboveTransitive(a, ps[0].address, ps[1..]);
    forall i | 0 <= i < |ps| ensures Less(a, ps[i].address) {
      if i > 0 { assert ps[i] == ps[1..][i - 1]; }
    }
  }

  lemma {:induction false} WithoutAbove(e: seq<Proposer>, d: seq<Proposer>, a: Address)
    requires AllAbove(a, e)
    ensures AllAbove(a, Without(e, d))
  {
    hide Less;
    if |d| > 0 && |e| > 0 {
      WithoutAbove(e[1..], if e[0].address == d[0].address then d[1..] else d, a);
    }
  }

  /** Members above the first of the list only: what an entry to remove further up must look like. */
  lemma RemovalAhead(e: seq<Proposer>, d: seq<Proposer>)
    requires |e| > 0 && |d| > 0 && AddressSorted(e) && AddressSorted(d) && MapOf(d).Keys <= MapOf(e).Keys
    ensures e[0].address == d[0].address ==> MapOf(d[1..]).Keys <= MapOf(e[1..]).Keys
    ensures e[0].address != d[0].address ==> MapOf(d).Keys <= MapOf(e[1..]).Keys && e[0].address !in MapOf(d)
  {
    hide Less;
    var a, b := e[0].address, d[0].address;
    SortedTail(e);
    SortedTail(d);
    if a == b {
      AboveNotInMap(b, d[1..]);
    } else {
      assert b in MapOf(e);
      InAboveMap(a, b, e[1..]);
      AboveFromHead(a, d);
      AboveNotInMap(a, d);
    }
  }

  lemma {:induction false} InAboveMap(a: Address, b: Address, ps: seq<Proposer>)
    requires AllAbove(a, ps) && b in MapOf(ps)
    ensures Less(a, b)
  {
    hide Less;
    if ps[0].address != b {
      assert forall i :: 0 <= i < |ps| - 1 ==> ps[1..][i] == ps[i + 1];
      InAboveMap(a, b, ps[1..]);
    } else {
      assert Less(a, ps[0].address);
    }
  }

  lemma DropHead<K, V>(k: K, v: V, v': V, m: map<K, V>, n: map<K, V>)
    requires k !in m
    ensures m - n.Keys == (map[k := v] + m) - (map[k := v'] + n).Keys
  {
  }

  lemma KeepHead<K, V>(k: K, v: V, m: map<K, V>, n: map<K, V>)
    requires k !in n
    ensures map[k := v] + (m - n.Keys) == (map[k := v] + m) - n.Keys
  {
  }

  /** Removing members takes exactly them out; the pass never runs off the end of the list. */
  lemma {:induction false} WithoutRemoves(e: seq<Proposer>, d: seq<Proposer>)
    requires AddressSorted(e) && AddressSorted(d) && MapOf(d).Keys <= MapOf(e).Keys
    ensures AddressSorted(Without(e, d)) && MapOf(Without(e, d)) == MapOf(e) - MapOf(d).Keys
    ensures |Without(e, d)| == |e| - |d|
  {
    hide Less, AddressSorted;
    if |d| > 0 {
      assert d[0].address in MapOf(d);
      SortedTail(e);
      SortedTail(d);
      RemovalAhead(e, d);
      if e[0].address == d[0].address {
        WithoutRemoves(e[1..], d[1..]);
        AboveNotInMap(d[0].address, e[1..]);
        DropHead(e[0].address, e[0], d[0], MapOf(e[1..]), MapOf(d[1..]));
      } else {
        WithoutRemoves(e[1..], d);
        WithoutAbove(e[1..], d, e[0].address);
        SortedCons(e[0], Without(e[1..], d));
        MapOfCons(e[0], Without(e[1..], d));
        KeepHead(e[0].address, e[0], MapOf(e[1..]), MapOf(d));
      }
    }
  }
}
