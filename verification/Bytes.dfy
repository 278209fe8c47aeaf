/** Byte strings and the lexicographic order of bytes.Compare. */
module Bytes {
  type Byte = x: int | 0 <= x < 256
  type ByteString = seq<Byte>

  /** bytes.Compare(a, b) < 0. */
  predicate Less(a: ByteString, b: ByteString) {
    if |b| == 0 then false
    else if |a| == 0 then true
    else a[0] < b[0] || (a[0] == b[0] && Less(a[1..], b[1..]))
  }

  lemma {:induction false} LessIrreflexive(a: ByteString)
    ensures !Less(a, a)
  {
    if |a| != 0 { LessIrreflexive(a[1..]); }
  }

  lemma {:induction false} LessTransitive(a: ByteString, b: ByteString, c: ByteString)
    requires Less(a, b) && Less(b, c)
    ensures Less(a, c)
  {
    if |a| != 0 && a[0] == b[0] && b[0] == c[0] {
      LessTransitive(a[1..], b[1..], c[1..]);
    }
  }

  /** The first `n` bytes agree. */
  ghost predicate AgreeUpto(a: ByteString, b: ByteString, n: nat) {
    n <= |a| && n <= |b| && forall i :: 0 <= i < n ==> a[i] == b[i]
  }

  /** The first byte that differs decides; where none does, the proper prefix comes first. */
  lemma {:induction false} LessExactly(a: ByteString, b: ByteString, n: nat)
    requires AgreeUpto(a, b, n) && (n == |a| || n == |b| || a[n] != b[n])
    ensures Less(a, b) <==> n < |b| && (n < |a| ==> a[n] < b[n])
  {
    if n > 0 { LessExactly(a[1..], b[1..], n - 1); }
  }

  lemma {:induction false} LessTotal(a: ByteString, b: ByteString)
    requires a != b
    ensures Less(a, b) || Less(b, a)
  {
    if |a| != 0 && |b| != 0 && a[0] == b[0] {
      assert a == [a[0]] + a[1..] && b == [b[0]] + b[1..];
      LessTotal(a[1..], b[1..]);
    }
  }
}
