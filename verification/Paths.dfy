/** Relative paths as byte strings: their ancestors and their depth (src/model.rs:70-110).
    A canonical path has no empty component, so its ancestors are its prefixes in front
    of a slash and its depth is one more than the number of its slashes. */
module Paths {
  import opened Bytes
  import opened Model

  const SLASH: Byte := 47

  /** A proper, non-empty ancestor. */
  predicate IsAncestor(q: Path, p: Path)
  {
    0 < |q| < |p| && p[|q|] == SLASH && p[..|q|] == q
  }

  function Depth(p: Path): (d: nat)
    ensures d > 0
  {
    if p == [] then 1 else (if p[0] == SLASH then 1 else 0) + Depth(p[1..])
  }

  /** The last ancestor, or nothing. */
  function Parent(p: Path): (q: Path)
    ensures |q| <= |p| && (p != [] ==> |q| < |p|)
  {
    if p == [] then []
    else if p[|p| - 1] == SLASH then p[..|p| - 1]
    else Parent(p[..|p| - 1])
  }

  function Ancestors(p: Path): (s: set<Path>)
    ensures forall q :: q in s <==> IsAncestor(q, p)
  {
    set i | 0 < i < |p| && p[i] == SLASH :: p[..i]
  }

  lemma {:induction false} DepthOfPrefix(p: Path, n: nat)
    requires n < |p| && p[n] == SLASH
    ensures Depth(p[..n]) < Depth(p)
  {
    if n > 0 {
      assert p[..n][1..] == p[1..][..n - 1];
      DepthOfPrefix(p[1..], n - 1);
    }
  }

  lemma AncestorShallower(q: Path, p: Path)
    requires IsAncestor(q, p)
    ensures Depth(q) < Depth(p)
  {
    DepthOfPrefix(p, |q|);
  }

  lemma AncestorTransitive(a: Path, b: Path, c: Path)
    requires IsAncestor(a, b) && IsAncestor(b, c)
    ensures IsAncestor(a, c)
  {
    assert c[..|a|] == c[..|b|][..|a|];
    assert c[|a|] == c[..|b|][|a|];
  }

  /** The ancestors of one path are in line. */
  lemma AncestorsComparable(a: Path, b: Path, p: Path)
    requires IsAncestor(a, p) && IsAncestor(b, p)
    ensures a == b || IsAncestor(a, b) || IsAncestor(b, a)
  {
    if |a| < |b| {
      assert b[..|a|] == p[..|a|] && b[|a|] == p[|a|];
    } else if |b| < |a| {
      assert a[..|b|] == p[..|b|] && a[|b|] == p[|b|];
    }
  }

  /** The parent is the last ancestor; a path without one has no ancestors. */
  lemma {:induction false} ParentIsLast(p: Path)
    ensures Parent(p) != [] ==> IsAncestor(Parent(p), p)
    ensures forall q :: IsAncestor(q, p) ==> Parent(p) != [] && (q == Parent(p) || IsAncestor(q, Parent(p)))
  {
    if p != [] {
      var n := |p| - 1;
      var shorter := p[..n];
      if p[n] == SLASH {
        forall q | IsAncestor(q, p)
          ensures q == shorter || IsAncestor(q, shorter)
        {
          if |q| < n {
            assert shorter[..|q|] == p[..|q|];
          }
        }
      } else {
        ParentIsLast(shorter);
        forall q | IsAncestor(q, p)
          ensures IsAncestor(q, shorter)
        {
          assert shorter[..|q|] == p[..|q|];
        }
        if Parent(p) != [] {
          var q := Parent(p);
          assert p[..|q|] == shorter[..|q|];
        }
      }
    }
  }

  lemma {:induction false} DepthOfJoin(a: Path, b: Path)
    ensures Depth(a + b) == Depth(a) + Depth(b) - 1
  {
    if a == [] {
      assert a + b == b;
    } else {
      assert (a + b)[1..] == a[1..] + b;
      DepthOfJoin(a[1..], b);
    }
  }

  /** The depth of a canonical path is the number of its components: one for itself and
      one for each of its ancestors. */
  lemma {:induction false} DepthCounts(p: Path)
    requires p == [] || p[0] != SLASH
    ensures Depth(p) == |Ancestors(p)| + 1
  {
    if p != [] {
      var n := |p| - 1;
      var shorter := p[..n];
      assert p == shorter + [p[n]];
      DepthOfJoin(shorter, [p[n]]);
      DepthCounts(shorter);
      forall q
        ensures IsAncestor(q, p) <==> IsAncestor(q, shorter) || (p[n] == SLASH && n > 0 && q == shorter)
      {
        if 0 < |q| < n {
          assert p[..|q|] == shorter[..|q|];
        }
      }
      if p[n] == SLASH {
        assert Ancestors(p) == Ancestors(shorter) + {shorter};
      } else {
        assert Ancestors(p) == Ancestors(shorter);
      }
    }
  }
}
