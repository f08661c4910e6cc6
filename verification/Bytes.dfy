/** Byte strings and the order Rust gives them: `str`, `String` and `[u8]` all
    compare lexicographically byte by byte. Peer identities and paths are byte
    strings here. */
module Bytes {
  type Byte = b: int | 0 <= b < 256

  /** Strict lexicographic order. */
  predicate Less(a: seq<Byte>, b: seq<Byte>)
  {
    if b == [] then false
    else if a == [] then true
    else a[0] < b[0] || (a[0] == b[0] && Less(a[1..], b[1..]))
  }

  /** The first difference decides: a proper prefix comes first, and else the smaller byte. */
  predicate FirstDifference(a: seq<Byte>, b: seq<Byte>, n: nat)
  {
    && n <= |a| && n < |b| && a[..n] == b[..n]
    && (n == |a| || a[n] < b[n])
  }

  lemma DifferenceLater(a: seq<Byte>, b: seq<Byte>, n: nat)
    requires FirstDifference(a, b, n)
    ensures n > 0 ==> a[0] == b[0]
  {
    if n > 0 {
      assert a[..n][0] == b[..n][0];
    }
  }

  lemma {:induction false} LessIff(a: seq<Byte>, b: seq<Byte>)
    ensures Less(a, b) <==> exists n: nat :: FirstDifference(a, b, n)
  {
    if b != [] {
      if a == [] {
        assert FirstDifference(a, b, 0);
      } else if a[0] != b[0] {
        assert a[0] < b[0] ==> FirstDifference(a, b, 0);
        forall n: nat | FirstDifference(a, b, n)
          ensures n == 0
        {
          DifferenceLater(a, b, n);
        }
      } else {
        LessIff(a[1..], b[1..]);
        if n: nat :| FirstDifference(a[1..], b[1..], n) {
          assert a == [a[0]] + a[1..] && b == [b[0]] + b[1..];
          assert FirstDifference(a, b, n + 1);
        }
        if n: nat :| FirstDifference(a, b, n) {
          assert n > 0;
          assert a[1..][..n - 1] == a[..n][1..] && b[1..][..n - 1] == b[..n][1..];
          assert FirstDifference(a[1..], b[1..], n - 1);
        }
      }
    }
  }

  lemma {:induction false} LessIrreflexive(a: seq<Byte>)
    ensures !Less(a, a)
  {
    if a != [] {
      LessIrreflexive(a[1..]);
    }
  }

  lemma {:induction false} LessTransitive(a: seq<Byte>, b: seq<Byte>, c: seq<Byte>)
    requires Less(a, b) && Less(b, c)
    ensures Less(a, c)
  {
    if a != [] && a[0] == b[0] == c[0] {
      LessTransitive(a[1..], b[1..], c[1..]);
    }
  }

  lemma {:induction false} LessTotal(a: seq<Byte>, b: seq<Byte>)
    ensures Less(a, b) || a == b || Less(b, a)
  {
    if a != [] && b != [] && a[0] == b[0] {
      LessTotal(a[1..], b[1..]);
      assert a == [a[0]] + a[1..] && b == [b[0]] + b[1..];
    }
  }

  lemma LessAsymmetric(a: seq<Byte>, b: seq<Byte>)
    requires Less(a, b)
    ensures !Less(b, a) && a != b
  {
    LessIrreflexive(a);
    if Less(b, a) {
      LessTransitive(a, b, a);
    }
  }

  /** The order without its strictness is transitive. */
  lemma NotLessTransitive(a: seq<Byte>, b: seq<Byte>, c: seq<Byte>)
    requires !Less(b, a) && !Less(c, b)
    ensures !Less(c, a)
  {
    if Less(c, a) {
      LessTotal(a, b);
      if a != b {
        LessTransitive(c, a, b);
      }
    }
  }
}
