/** The stable sort by position that puts results of concurrent work in order. */
module Ordering {
  datatype Ranked<T> = Ranked(order: nat, value: T)

  predicate ByOrder<T>(s: seq<Ranked<T>>) {
    |s| <= 1 || (ByOrder(s[..|s| - 1]) && s[|s| - 2].order <= s[|s| - 1].order)
  }

  function Inserted<T>(s: seq<Ranked<T>>, x: Ranked<T>): (r: seq<Ranked<T>>)
    ensures |r| == |s| + 1 && (r[|s|] == x || (s != [] && r[|s|] == s[|s| - 1]))
    ensures ByOrder(s) ==> ByOrder(r)
  {
    if s != [] && s[|s| - 1].order > x.order then
      var r := Inserted(s[..|s| - 1], x);
      assert (r + [s[|s| - 1]])[..|s|] == r;
      r + [s[|s| - 1]]
    else
      assert (s + [x])[..|s|] == s;
      s + [x]
  }

  lemma {:induction false} InsertedHolds<T>(s: seq<Ranked<T>>, x: Ranked<T>)
    ensures multiset(Inserted(s, x)) == multiset(s) + multiset{x}
  {
    hide ByOrder;
    if s != [] && s[|s| - 1].order > x.order {
      var init, last := s[..|s| - 1], s[|s| - 1];
      assert s == init + [last];
      InsertedHolds(init, x);
    }
  }

  function SortedByOrder<T>(s: seq<Ranked<T>>): (r: seq<Ranked<T>>)
    ensures ByOrder(r)
  {
    if s == [] then [] else Inserted(SortedByOrder(s[..|s| - 1]), s[|s| - 1])
  }

  lemma {:induction false} SortedHolds<T>(s: seq<Ranked<T>>)
    ensures multiset(SortedByOrder(s)) == multiset(s)
  {
    hide Inserted, ByOrder;
    if s != [] {
      var init, last := s[..|s| - 1], s[|s| - 1];
      assert s == init + [last];
      SortedHolds(init);
      InsertedHolds(SortedByOrder(init), last);
    }
  }

  lemma {:induction false} LastIsGreatest<T>(s: seq<Ranked<T>>, k: nat)
    requires ByOrder(s) && k < |s|
    ensures s[k].order <= s[|s| - 1].order
    decreases |s|
  {
    if k < |s| - 1 {
      LastIsGreatest(s[..|s| - 1], k);
    }
  }

  /** No two entries share a position, and they are in order. */
  predicate Ascending<T>(w: seq<Ranked<T>>) {
    forall a, b :: 0 <= a < b < |w| ==> w[a].order < w[b].order
  }

  lemma SameMembers<T>(s: seq<Ranked<T>>, w: seq<Ranked<T>>, x: Ranked<T>)
    requires multiset(s) == multiset(w) && x in s
    ensures x in w && |s| == |w|
  {
    assert x in multiset(w);
    assert |s| == |multiset(s)| == |w|;
  }

  lemma SameLast<T>(s: seq<Ranked<T>>, w: seq<Ranked<T>>)
    requires ByOrder(s) && Ascending(w) && multiset(s) == multiset(w) && s != []
    ensures |s| == |w| && s[|s| - 1] == w[|w| - 1]
  {
    hide ByOrder;
    var n := |s| - 1;
    SameMembers(s, w, s[n]);
    SameMembers(w, s, w[n]);
    var k :| 0 <= k <= n && w[k] == s[n];
    var j :| 0 <= j <= n && s[j] == w[n];
    LastIsGreatest(s, j);
  }

  lemma WithoutLast<T>(s: seq<Ranked<T>>, w: seq<Ranked<T>>)
    requires multiset(s) == multiset(w) && s != [] && w != [] && s[|s| - 1] == w[|w| - 1]
    ensures multiset(s[..|s| - 1]) == multiset(w[..|w| - 1])
  {
    assert s == s[..|s| - 1] + [s[|s| - 1]];
    assert w == w[..|w| - 1] + [w[|w| - 1]];
    assert multiset(s[..|s| - 1]) == multiset(s) - multiset{s[|s| - 1]};
    assert multiset(w[..|w| - 1]) == multiset(w) - multiset{w[|w| - 1]};
  }

  lemma AscendingInit<T>(w: seq<Ranked<T>>, n: nat)
    requires Ascending(w) && n <= |w|
    ensures Ascending(w[..n])
  {
  }

  lemma ByOrderInit<T>(s: seq<Ranked<T>>)
    requires ByOrder(s) && s != []
    ensures ByOrder(s[..|s| - 1])
  {
  }

  lemma InitAndLast<T>(s: seq<Ranked<T>>, w: seq<Ranked<T>>)
    requires s != [] && |s| == |w| && s[..|s| - 1] == w[..|w| - 1] && s[|s| - 1] == w[|w| - 1]
    ensures s == w
  {
    assert s == s[..|s| - 1] + [s[|s| - 1]];
  }

  /** There is only one way to order entries of different positions, whatever order they arrived in. */
  lemma {:induction false} SortedIsUnique<T>(s: seq<Ranked<T>>, w: seq<Ranked<T>>)
    requires ByOrder(s) && Ascending(w) && multiset(s) == multiset(w)
    ensures s == w
    decreases |s|
  {
    hide Ascending, ByOrder;
    assert |s| == |multiset(s)| == |multiset(w)| == |w|;
    if s != [] {
      SameLast(s, w);
      WithoutLast(s, w);
      ByOrderInit(s);
      AscendingInit(w, |w| - 1);
      SortedIsUnique(s[..|s| - 1], w[..|w| - 1]);
      InitAndLast(s, w);
    }
  }
}
