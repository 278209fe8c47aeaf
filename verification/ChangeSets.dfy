/** What a list of changes does to a validator set, as an update of a map from addresses to validators. */
module ChangeSets {
  import opened Int64
  import opened Bytes
  import opened Sums
  import opened Sorting
  import opened Proposers
  import opened Scheduler

  // ---- the two orders of the sorted lists

  lemma LessIsPreorder()
    ensures forall a, b :: !(Less(a, b) && Less(b, a))
    ensures forall a, b, c :: Less(c, a) ==> Less(c, b) || Less(b, a)
  {
    forall a, b ensures !(Less(a, b) && Less(b, a)) {
      if Less(a, b) && Less(b, a) {
        LessTransitive(a, b, a);
        LessIrreflexive(a);
      }
    }
    forall a, b, c | Less(c, a) ensures Less(c, b) || Less(b, a) {
      if b != c && !Less(c, b) {
        LessTotal(b, c);
        LessTransitive(b, c, a);
      }
    }
  }

  lemma OrdersArePreorders()
    ensures TotalPreorder(AddressLess) && TotalPreorder(PowerLess)
  {
    hide Less;
    LessIsPreorder();
  }

  lemma AddressSortedDistinct(ps: seq<Proposer>)
    requires AddressSorted(ps)
    ensures DistinctAddresses(ps)
  {
    hide Less;
    forall i, j | 0 <= i < j < |ps| ensures ps[i].address != ps[j].address {
      LessIrreflexive(ps[i].address);
      assert AddressLess(ps[i], ps[j]);
    }
  }

  /** Among distinct addresses an ordered list is strictly ordered, in both orders. */
  lemma OrderedIsStrict(ps: seq<Proposer>)
    requires DistinctAddresses(ps)
    ensures Ordered(AddressLess, ps) ==> AddressSorted(ps)
    ensures Ordered(PowerLess, ps) ==> PowerSorted(ps)
  {
    hide Less;
    forall i, j | 0 <= i < j < |ps|
      ensures AddressLess(ps[i], ps[j]) || AddressLess(ps[j], ps[i])
      ensures PowerLess(ps[i], ps[j]) || PowerLess(ps[j], ps[i])
    {
      LessTotal(ps[i].address, ps[j].address);
    }
  }

  // ---- permutations

  lemma TwoOccurrences<T>(s: seq<T>, i: nat, j: nat)
    requires i < j < |s| && s[i] == s[j]
    ensures multiset(s)[s[i]] >= 2
  {
    assert s == s[..j] + [s[j]] + s[j + 1..];
    assert s[i] in s[..j];
  }

  lemma OccursTwice<T>(s: seq<T>, x: T) returns (i: nat, j: nat)
    requires multiset(s)[x] >= 2
    ensures i < j < |s| && s[i] == s[j] == x
  {
    assert x in s;
    i :| 0 <= i < |s| && s[i] == x;
    var rest := s[..i] + s[i + 1..];
    assert s == s[..i] + [s[i]] + s[i + 1..];
    assert multiset(s) == multiset(rest) + multiset{x};
    assert x in rest;
    var k :| 0 <= k < |rest| && rest[k] == x;
    j := if k < i then k else k + 1;
    if j < i { i, j := j, i; }
  }

  /** Two positions of one arrangement are two positions of the other. */
  lemma PairTransfers<T>(s: seq<T>, t: seq<T>, i: nat, j: nat) returns (a: nat, b: nat)
    requires multiset(s) == multiset(t) && i < j < |t|
    ensures a < |s| && b < |s| && a != b && s[a] == t[i] && s[b] == t[j]
  {
    if t[i] == t[j] {
      TwoOccurrences(t, i, j);
      a, b := OccursTwice(s, t[i]);
    } else {
      assert t[i] in multiset(s) && t[j] in multiset(s);
      a :| 0 <= a < |s| && s[a] == t[i];
      b :| 0 <= b < |s| && s[b] == t[j];
    }
  }

  lemma DistinctPermutation(s: seq<Proposer>, t: seq<Proposer>)
    requires multiset(s) == multiset(t) && DistinctAddresses(s)
    ensures DistinctAddresses(t)
  {
    forall i, j | 0 <= i < j < |t| ensures t[i].address != t[j].address {
      var a, b := PairTransfers(s, t, i, j);
      if a < b {
        assert s[a].address != s[b].address;
      } else {
        assert s[b].address != s[a].address;
      }
    }
  }

  // ---- a list as a map

  ghost function ByAddress(ps: seq<Proposer>): map<Address, Proposer>
    requires DistinctAddresses(ps)
  {
    map i | 0 <= i < |ps| :: ps[i].address := ps[i]
  }

  ghost function Addresses(ps: seq<Proposer>): set<Address> {
    set i | 0 <= i < |ps| :: ps[i].address
  }

  lemma InByAddress(s: seq<Proposer>, x: Proposer)
    requires DistinctAddresses(s)
    ensures x in s <==> x.address in ByAddress(s) && ByAddress(s)[x.address] == x
  {
    if x in s {
      var i :| 0 <= i < |s| && s[i] == x;
      assert s[i].address in ByAddress(s);
    }
  }

  lemma ByAddressPermutation(s: seq<Proposer>, t: seq<Proposer>)
    requires multiset(s) == multiset(t) && DistinctAddresses(s)
    ensures DistinctAddresses(t) && ByAddress(s) == ByAddress(t)
  {
    DistinctPermutation(s, t);
    SubMap(s, t);
    SubMap(t, s);
  }

  lemma SubMap(s: seq<Proposer>, t: seq<Proposer>)
    requires multiset(s) == multiset(t) && DistinctAddresses(s) && DistinctAddresses(t)
    ensures forall a :: a in ByAddress(s) ==> a in ByAddress(t) && ByAddress(t)[a] == ByAddress(s)[a]
  {
    forall i | 0 <= i < |s| ensures s[i].address in ByAddress(t) && ByAddress(t)[s[i].address] == s[i] {
      assert s[i] in multiset(t);
      InByAddress(t, s[i]);
    }
  }

  lemma AtMostOnce(s: seq<Proposer>, x: Proposer)
    requires DistinctAddresses(s)
    ensures multiset(s)[x] == if x in s then 1 else 0
  {
    if multiset(s)[x] >= 2 {
      var i, j := OccursTwice(s, x);
      assert false;
    }
  }

  lemma SamePermutation(s: seq<Proposer>, t: seq<Proposer>)
    requires DistinctAddresses(s) && DistinctAddresses(t) && ByAddress(s) == ByAddress(t)
    ensures multiset(s) == multiset(t)
  {
    forall x: Proposer ensures multiset(s)[x] == multiset(t)[x] {
      AtMostOnce(s, x);
      AtMostOnce(t, x);
      InByAddress(s, x);
      InByAddress(t, x);
    }
  }

  /** Two address-sorted lists with the same entries are the same list. */
  lemma AddressSortedUnique(s: seq<Proposer>, t: seq<Proposer>)
    requires AddressSorted(s) && AddressSorted(t)
    requires (AddressSortedDistinct(s); AddressSortedDistinct(t); ByAddress(s) == ByAddress(t))
    ensures s == t
  {
    AddressSortedDistinct(s);
    AddressSortedDistinct(t);
    SamePermutation(s, t);
    OrdersArePreorders();
    StrictOrderUnique(AddressLess, s, t);
  }

  // ---- power totals

  ghost function PowerMap(m: map<Address, Proposer>): map<Address, int> {
    map a | a in m :: m[a].votingPower as int
  }

  ghost function TotalOf(m: map<Address, Proposer>): int { MapSum(PowerMap(m)) }

  lemma ByAddressKey(ps: seq<Proposer>, a: Address)
    requires DistinctAddresses(ps) && a in ByAddress(ps)
    ensures ByAddress(ps)[a].address == a
  {
  }

  lemma LastIsNew(ps: seq<Proposer>)
    requires |ps| > 0 && DistinctAddresses(ps)
    ensures ps[|ps| - 1].address !in ByAddress(ps[..|ps| - 1])
  {
  }

  lemma ByAddressAppend(ps: seq<Proposer>)
    requires |ps| > 0 && DistinctAddresses(ps)
    ensures var n := |ps| - 1;
      && ps[n].address !in ByAddress(ps[..n])
      && ByAddress(ps) == ByAddress(ps[..n])[ps[n].address := ps[n]]
  {
    hide ByAddress;
    var n := |ps| - 1;
    var front, last := ps[..n], ps[n];
    var l, r := ByAddress(ps), ByAddress(front)[last.address := last];
    assert ps == front + [last];
    InByAddress(ps, last);
    LastIsNew(ps);
    forall a | a in l ensures a in r && r[a] == l[a] {
      ByAddressKey(ps, a);
      InByAddress(ps, l[a]);
      InByAddress(front, l[a]);
    }
    forall a | a in r ensures a in l {
      if a != last.address {
        ByAddressKey(front, a);
        InByAddress(front, r[a]);
        InByAddress(ps, r[a]);
      }
    }
  }

  lemma PowerMapSet(m: map<Address, Proposer>, a: Address, p: Proposer)
    ensures PowerMap(m[a := p]) == PowerMap(m)[a := p.votingPower as int]
    ensures TotalOf(m[a := p]) == TotalOf(m) + p.votingPower - PowerAt(m, a)
  {
    hide MapSum;
    assert PowerMap(m[a := p]) == PowerMap(m)[a := p.votingPower as int];
    MapSumSet(PowerMap(m), a, p.votingPower);
  }

  lemma {:induction false} TotalOfList(ps: seq<Proposer>)
    requires DistinctAddresses(ps)
    ensures TotalOf(ByAddress(ps)) == TotalPower(ps)
  {
    hide MapSum, PowerMap;
    if |ps| > 0 {
      var n := |ps| - 1;
      TotalOfList(ps[..n]);
      ByAddressAppend(ps);
      PowerMapSet(ByAddress(ps[..n]), ps[n].address, ps[n]);
      assert Powers(ps)[..n] == Powers(ps[..n]);
    } else {
      TotalOfNothing(ByAddress(ps));
    }
  }

  lemma TotalOfNothing(m: map<Address, Proposer>)
    requires m == map[]
    ensures TotalOf(m) == 0
  {
  }

  /** The current power behind an address, or nothing. */
  ghost function PowerAt(m: map<Address, Proposer>, a: Address): int {
    if a in m then m[a].votingPower else 0
  }

  /** By how much an update changes the total. */
  ghost function Delta(m: map<Address, Proposer>, u: Proposer): int {
    u.votingPower - PowerAt(m, u.address)
  }

  ghost function Deltas(m: map<Address, Proposer>, us: seq<Proposer>): seq<int> {
    seq(|us|, i requires 0 <= i < |us| => Delta(m, us[i]))
  }

  ghost function PowersAt(m: map<Address, Proposer>, rs: seq<Proposer>): seq<int> {
    seq(|rs|, i requires 0 <= i < |rs| => PowerAt(m, rs[i].address))
  }

  lemma OverrideAppend(m: map<Address, Proposer>, us: seq<Proposer>)
    requires |us| > 0 && DistinctAddresses(us)
    ensures var before, u := m + ByAddress(us[..|us| - 1]), us[|us| - 1];
      m + ByAddress(us) == before[u.address := u] && PowerAt(before, u.address) == PowerAt(m, u.address)
  {
    hide ByAddress;
    ByAddressAppend(us);
  }

  /** Overriding by updates adds their deltas. */
  lemma {:induction false} TotalOfUpdates(m: map<Address, Proposer>, us: seq<Proposer>)
    requires DistinctAddresses(us)
    ensures TotalOf(m + ByAddress(us)) == TotalOf(m) + Sum(Deltas(m, us))
  {
    if |us| == 0 {
      assert m + ByAddress(us) == m;
    } else {
      LastUpdate(m, us);
      TotalOfUpdates(m, us[..|us| - 1]);
    }
  }

  lemma LastUpdate(m: map<Address, Proposer>, us: seq<Proposer>)
    requires |us| > 0 && DistinctAddresses(us)
    ensures var n := |us| - 1;
      && TotalOf(m + ByAddress(us)) == TotalOf(m + ByAddress(us[..n])) + Delta(m, us[n])
      && Sum(Deltas(m, us)) == Sum(Deltas(m, us[..n])) + Delta(m, us[n])
  {
    hide ByAddress, TotalOf;
    var n := |us| - 1;
    OverrideAppend(m, us);
    PowerMapSet(m + ByAddress(us[..n]), us[n].address, us[n]);
    assert Deltas(m, us)[..n] == Deltas(m, us[..n]);
  }

  /** Removing members subtracts their powers. */
  lemma {:induction false} TotalOfRemovals(m: map<Address, Proposer>, rs: seq<Proposer>)
    requires DistinctAddresses(rs) && Addresses(rs) <= m.Keys
    ensures TotalOf(m - Addresses(rs)) == TotalOf(m) - Sum(PowersAt(m, rs))
  {
    hide TotalOf, PowersAt, Addresses, DistinctAddresses;
    if |rs| == 0 {
      NoRemovals(m, rs);
    } else {
      LastRemoval(m, rs);
      TotalOfRemovals(m, rs[..|rs| - 1]);
    }
  }

  lemma NoRemovals(m: map<Address, Proposer>, rs: seq<Proposer>)
    requires |rs| == 0
    ensures m - Addresses(rs) == m && Sum(PowersAt(m, rs)) == 0
  {
  }

  lemma LastRemoval(m: map<Address, Proposer>, rs: seq<Proposer>)
    requires |rs| > 0 && DistinctAddresses(rs) && Addresses(rs) <= m.Keys
    ensures var n := |rs| - 1;
      && DistinctAddresses(rs[..n]) && Addresses(rs[..n]) <= m.Keys
      && TotalOf(m - Addresses(rs)) == TotalOf(m - Addresses(rs[..n])) - m[rs[n].address].votingPower
      && Sum(PowersAt(m, rs)) == Sum(PowersAt(m, rs[..n])) + m[rs[n].address].votingPower
  {
    hide Sum;
    var n := |rs| - 1;
    var a := rs[n].address;
    AddressesAppend(rs);
    var before := m - Addresses(rs[..n]);
    assert m - Addresses(rs) == before - {a};
    assert PowerMap(before - {a}) == PowerMap(before) - {a};
    MapSumWithout(PowerMap(before), a);
    LastPower(m, rs);
  }

  lemma LastPower(m: map<Address, Proposer>, rs: seq<Proposer>)
    requires |rs| > 0 && Addresses(rs) <= m.Keys && Addresses(rs[..|rs| - 1]) <= m.Keys && rs[|rs| - 1].address in m
    ensures Sum(PowersAt(m, rs)) == Sum(PowersAt(m, rs[..|rs| - 1])) + m[rs[|rs| - 1].address].votingPower
  {
    assert PowersAt(m, rs)[..|rs| - 1] == PowersAt(m, rs[..|rs| - 1]);
  }

  lemma AddressesAppend(rs: seq<Proposer>)
    requires |rs| > 0 && DistinctAddresses(rs)
    ensures var n := |rs| - 1;
      Addresses(rs) == Addresses(rs[..n]) + {rs[n].address} && rs[n].address !in Addresses(rs[..n])
  {
    var n := |rs| - 1;
    assert forall i :: 0 <= i < n ==> rs[..n][i].address == rs[i].address;
  }

  // ---- the specification of an update

  /** What processChanges lets through. */
  ghost predicate ValidChanges(changes: seq<Proposer>) {
    && DistinctAddresses(changes)
    && forall i :: 0 <= i < |changes| ==>
         changes[i].address != [] && 0 <= changes[i].votingPower <= MAX_TOTAL_VOTING_POWER
  }

  /** The part of the changes that adds or updates, or the part that removes (power 0). */
  function Part(changes: seq<Proposer>, removing: bool): seq<Proposer> {
    if |changes| == 0 then []
    else
      var n := |changes| - 1;
      Part(changes[..n], removing) + if (changes[n].votingPower == 0) == removing then [changes[n]] else []
  }

  /** The old map overridden by the updates, before anything is removed. */
  ghost function Overridden(members: map<Address, Proposer>, ch: map<Address, Proposer>): map<Address, Proposer> {
    map a | a in members.Keys + ch.Keys && (a in members || ch[a].votingPower != 0) ::
      if a in ch && ch[a].votingPower != 0 then ch[a] else members[a]
  }

  /** The priority a newcomer starts with: -1.125 times the total before removals. */
  function NewcomerPriority(total: int): int { -(total + total / 8) }

  lemma PriceBounds(total: int)
    ensures 9 * total - 8 < -8 * NewcomerPriority(total) <= 9 * total
  {
  }

  /**
   * The map after the changes: removals are gone, updates replace power and key but keep the priority,
   * newcomers start at `newcomer`, everybody else stays.
   */
  ghost function Changed(members: map<Address, Proposer>, ch: map<Address, Proposer>, newcomer: Int64)
    : map<Address, Proposer>
  {
    map a | a in members.Keys + ch.Keys && !(a in ch && ch[a].votingPower == 0) ::
      if a in ch then ch[a].(priority := if a in members then members[a].priority else newcomer) else members[a]
  }

  ghost predicate RemovesOnlyMembers(members: map<Address, Proposer>, ch: map<Address, Proposer>) {
    forall a :: a in ch && ch[a].votingPower == 0 ==> a in members
  }

  /** Exactly the change lists that succeed. */
  ghost predicate Acceptable(ps: seq<Proposer>, changes: seq<Proposer>, allowDeletes: bool)
    requires DistinctAddresses(ps)
  {
    && ValidChanges(changes)
    && (!allowDeletes ==> forall i :: 0 <= i < |changes| ==> changes[i].votingPower != 0)
    && RemovesOnlyMembers(ByAddress(ps), ByAddress(changes))
    && Changed(ByAddress(ps), ByAddress(changes), 0) != map[]
    && TotalOf(Changed(ByAddress(ps), ByAddress(changes), 0)) <= MAX_TOTAL_VOTING_POWER
  }

  ghost function Newcomer(ps: seq<Proposer>, changes: seq<Proposer>): int
    requires DistinctAddresses(ps) && DistinctAddresses(changes)
  {
    NewcomerPriority(TotalOf(Overridden(ByAddress(ps), ByAddress(changes))))
  }

  /** `merged` lists the changed map by address, before priorities are rescaled and centred. */
  ghost predicate Merges(ps: seq<Proposer>, changes: seq<Proposer>, merged: seq<Proposer>)
    requires DistinctAddresses(ps) && DistinctAddresses(changes)
  {
    && AddressSorted(merged) && DistinctAddresses(merged)
    && InInt64(Newcomer(ps, changes))
    && ByAddress(merged) == Changed(ByAddress(ps), ByAddress(changes), Newcomer(ps, changes))
  }

  /** `res` is the set that the changes turn `ps` into. */
  ghost predicate Updates(ps: seq<Proposer>, changes: seq<Proposer>, res: seq<Proposer>)
    requires DistinctAddresses(ps) && DistinctAddresses(changes)
  {
    exists merged :: UpdatesVia(ps, changes, merged, res)
  }

  ghost predicate UpdatesVia(ps: seq<Proposer>, changes: seq<Proposer>, merged: seq<Proposer>, res: seq<Proposer>)
    requires DistinctAddresses(ps) && DistinctAddresses(changes)
  {
    && Merges(ps, changes, merged)
    && |merged| > 0 && 0 <= TotalPower(merged) <= MAX_TOTAL_VOTING_POWER && Rescalable(merged, Window(merged))
    && PowerSorted(res) && multiset(res) == multiset(Normalize(merged))
  }

  /** The result of an update is determined. */
  lemma UpdateIsDetermined(ps: seq<Proposer>, changes: seq<Proposer>, r: seq<Proposer>, r': seq<Proposer>)
    requires DistinctAddresses(ps) && DistinctAddresses(changes)
    requires Updates(ps, changes, r) && Updates(ps, changes, r')
    ensures r == r'
  {
    hide Normalize, Newcomer, Changed, Rescalable, TotalPower;
    var m :| UpdatesVia(ps, changes, m, r);
    var m' :| UpdatesVia(ps, changes, m', r');
    AddressSortedUnique(m, m');
    OrdersArePreorders();
    StrictOrderUnique(PowerLess, r, r');
  }

  /** The order of the change list is irrelevant, to success and to the result. */
  lemma OrderIndependence(ps: seq<Proposer>, c: seq<Proposer>, c': seq<Proposer>, allowDeletes: bool)
    requires DistinctAddresses(ps) && multiset(c) == multiset(c')
    ensures Acceptable(ps, c, allowDeletes) <==> Acceptable(ps, c', allowDeletes)
    ensures DistinctAddresses(c) ==> DistinctAddresses(c') && forall r, r' ::
              Updates(ps, c, r) && Updates(ps, c', r') ==> r == r'
  {
    if Acceptable(ps, c, allowDeletes) { AcceptablePermutation(ps, c, c', allowDeletes); }
    if Acceptable(ps, c', allowDeletes) { AcceptablePermutation(ps, c', c, allowDeletes); }
    if DistinctAddresses(c) {
      ByAddressPermutation(c, c');
      forall r, r' | Updates(ps, c, r) && Updates(ps, c', r') ensures r == r' {
        UpdatesPermutation(ps, c', c, r');
        UpdateIsDetermined(ps, c, r, r');
      }
    }
  }

  lemma AcceptablePermutation(ps: seq<Proposer>, c: seq<Proposer>, c': seq<Proposer>, allowDeletes: bool)
    requires DistinctAddresses(ps) && multiset(c) == multiset(c') && Acceptable(ps, c, allowDeletes)
    ensures Acceptable(ps, c', allowDeletes)
  {
    hide TotalOf, Changed, ByAddress;
    ByAddressPermutation(c, c');
    forall i | 0 <= i < |c'| ensures c'[i] in c {
      assert c'[i] in multiset(c);
    }
  }

  lemma UpdatesPermutation(ps: seq<Proposer>, c: seq<Proposer>, c': seq<Proposer>, r: seq<Proposer>)
    requires DistinctAddresses(ps) && multiset(c) == multiset(c') && DistinctAddresses(c)
    requires Updates(ps, c, r)
    ensures DistinctAddresses(c') && Updates(ps, c', r)
  {
    hide Changed, ByAddress, Overridden, Normalize, Rescalable;
    ByAddressPermutation(c, c');
    var m :| UpdatesVia(ps, c, m, r);
    assert UpdatesVia(ps, c', m, r);
  }
}
