/** Sequences without repetitions, and where one sequence stands inside another. */
module Sequences {
  predicate Distinct<T(==)>(s: seq<T>) {
    forall a, b :: 0 <= a < b < |s| ==> s[a] != s[b]
  }

  lemma DistinctTogether<T>(a: seq<T>, b: seq<T>)
    requires Distinct(a) && Distinct(b) && forall x :: x in a ==> x !in b
    ensures Distinct(a + b)
  {
    forall i, j | 0 <= i < j < |a + b|
      ensures (a + b)[i] != (a + b)[j]
    {
      if i < |a| <= j {
        assert a[i] in a && b[j - |a|] in b;
      }
    }
  }

  /** p stands in t at i. */
  predicate Stands<T(==)>(p: seq<T>, t: seq<T>, i: nat) {
    i + |p| <= |t| && t[i..i + |p|] == p
  }

  lemma StandsParts<T>(a: seq<T>, b: seq<T>, t: seq<T>, i: nat)
    requires Stands(a + b, t, i)
    ensures Stands(a, t, i) && Stands(b, t, i + |a|)
  {
    assert t[i..i + |a|] == (a + b)[..|a|];
    assert t[i + |a|..i + |a| + |b|] == (a + b)[|a|..];
  }

  lemma StandsTogether<T>(a: seq<T>, b: seq<T>, t: seq<T>, i: nat)
    requires Stands(a, t, i) && Stands(b, t, i + |a|)
    ensures Stands(a + b, t, i)
  {
    assert t[i..i + |a| + |b|] == t[i..i + |a|] + t[i + |a|..i + |a| + |b|];
  }

  lemma StandsAt<T>(p: seq<T>, t: seq<T>, i: nat, x: nat)
    requires Stands(p, t, i) && x < |p|
    ensures i + x < |t| && t[i + x] == p[x]
  {
    assert t[i + x] == t[i..i + |p|][x];
  }

  lemma StandsWhole<T>(p: seq<T>)
    ensures Stands(p, p, 0)
  {
    assert p[0..|p|] == p;
  }
}
