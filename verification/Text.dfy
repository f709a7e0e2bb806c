/** Text operations of the standard string type the service builds on. */
module Text {
  import opened Options

  /** Unicode White_Space. */
  predicate IsSpace(c: char) {
    var n := c as int;
    || 9 <= n <= 13 || n == 32 || n == 0x85 || n == 0xA0 || n == 0x1680
    || 0x2000 <= n <= 0x200A || n == 0x2028 || n == 0x2029 || n == 0x202F || n == 0x205F || n == 0x3000
  }

  predicate Blank(t: string) {
    forall c :: c in t ==> IsSpace(c)
  }

  function TrimStart(t: string): string {
    if t != [] && IsSpace(t[0]) then TrimStart(t[1..]) else t
  }

  function TrimEnd(t: string): string {
    if t != [] && IsSpace(t[|t| - 1]) then TrimEnd(t[..|t| - 1]) else t
  }

  /** What is left after blanks in front are dropped. */
  lemma {:induction false} TrimStartHolds(t: string)
    ensures var r := TrimStart(t);
            && |r| <= |t| && r == t[|t| - |r|..] && Blank(t[..|t| - |r|]) && (r == [] || !IsSpace(r[0]))
  {
    hide IsSpace;
    if t != [] && IsSpace(t[0]) {
      TrimStartHolds(t[1..]);
      var r := TrimStart(t[1..]);
      assert t[..|t| - |r|] == [t[0]] + t[1..][..|t| - 1 - |r|];
    }
  }

  lemma {:induction false} TrimEndHolds(t: string)
    ensures var r := TrimEnd(t);
            && |r| <= |t| && r == t[..|r|] && Blank(t[|r|..]) && (r == [] || !IsSpace(r[|r| - 1]))
  {
    hide IsSpace;
    if t != [] && IsSpace(t[|t| - 1]) {
      TrimEndHolds(t[..|t| - 1]);
      var r := TrimEnd(t[..|t| - 1]);
      assert t[|r|..] == t[..|t| - 1][|r|..] + [t[|t| - 1]];
    }
  }

  function Trim(t: string): string {
    TrimEnd(TrimStart(t))
  }

  predicate StartsWith(t: string, p: string) {
    |p| <= |t| && t[..|p|] == p
  }

  predicate MatchesAt(t: string, p: string, i: nat) {
    i + |p| <= |t| && t[i..i + |p|] == p
  }

  /** The first position at or after i where p occurs. */
  function Find(t: string, p: string, i: nat): (r: Option<nat>)
    requires i <= |t|
    ensures r.Some? ==> i <= r.value && r.value + |p| <= |t|
    decreases |t| - i
  {
    if MatchesAt(t, p, i) then Some(i)
    else if i == |t| then None
    else Find(t, p, i + 1)
  }

  function FindLast(t: string, p: string): (r: Option<nat>)
    ensures r.Some? ==> r.value + |p| <= |t|
  {
    FindLastFrom(t, p, |t|)
  }

  function FindLastFrom(t: string, p: string, i: nat): (r: Option<nat>)
    requires i <= |t|
    ensures r.Some? ==> r.value + |p| <= |t|
  {
    if MatchesAt(t, p, i) then Some(i)
    else if i == 0 then None
    else FindLastFrom(t, p, i - 1)
  }

  lemma {:induction false} FindHolds(t: string, p: string, i: nat)
    requires i <= |t|
    ensures match Find(t, p, i)
            case Some(r) => MatchesAt(t, p, r) && forall k :: i <= k < r ==> !MatchesAt(t, p, k)
            case None => forall k :: i <= k <= |t| ==> !MatchesAt(t, p, k)
    decreases |t| - i
  {
    hide MatchesAt;
    if !MatchesAt(t, p, i) && i < |t| {
      FindHolds(t, p, i + 1);
    }
  }

  lemma {:induction false} FindLastFromHolds(t: string, p: string, i: nat)
    requires i <= |t|
    ensures match FindLastFrom(t, p, i)
            case Some(r) => r <= i && MatchesAt(t, p, r) && forall k :: r < k <= i ==> !MatchesAt(t, p, k)
            case None => forall k :: 0 <= k <= i ==> !MatchesAt(t, p, k)
  {
    hide MatchesAt;
    if !MatchesAt(t, p, i) && i > 0 {
      FindLastFromHolds(t, p, i - 1);
    }
  }

  lemma FindLastHolds(t: string, p: string)
    ensures match FindLast(t, p)
            case Some(r) => MatchesAt(t, p, r) && forall k :: r < k <= |t| ==> !MatchesAt(t, p, k)
            case None => forall k :: 0 <= k <= |t| ==> !MatchesAt(t, p, k)
  {
    hide MatchesAt, FindLastFrom;
    FindLastFromHolds(t, p, |t|);
  }

  /** Trimming the front is complete: whatever splits off blanks in front of a non-blank is the trim. */
  lemma {:induction false} TrimStartUnique(t: string, k: nat)
    requires k <= |t| && Blank(t[..k]) && (k == |t| || !IsSpace(t[k]))
    ensures TrimStart(t) == t[k..]
  {
    if k > 0 {
      assert t[0] in t[..k];
      assert t[1..][..k - 1] == t[..k][1..];
      TrimStartUnique(t[1..], k - 1);
      assert t[1..][k - 1..] == t[k..];
    }
  }

  lemma {:induction false} TrimEndUnique(t: string, k: nat)
    requires k <= |t| && Blank(t[k..]) && (k == 0 || !IsSpace(t[k - 1]))
    ensures TrimEnd(t) == t[..k]
  {
    if k < |t| {
      assert t[|t| - 1] in t[k..];
      assert t[..|t| - 1][k..] == t[k..|t| - 1];
      assert forall c :: c in t[k..|t| - 1] ==> c in t[k..];
      TrimEndUnique(t[..|t| - 1], k);
      assert t[..|t| - 1][..k] == t[..k];
    } else {
      assert t[..k] == t;
    }
  }

  /** A text between blanks, itself starting and ending with non-blanks, is what trimming leaves. */
  lemma TrimUnique(a: string, m: string, z: string)
    requires Blank(a) && Blank(z)
    requires m != "" ==> !IsSpace(m[0]) && !IsSpace(m[|m| - 1])
    ensures Trim(a + m + z) == m
  {
    hide TrimStart, TrimEnd, IsSpace, Blank;
    if m == "" {
      assert a + m + z == a + z;
      BlankTogether(a, z);
      TrimBlank(a + z);
    } else {
      assert a + m + z == a + (m + z);
      TrimStartAfter(a, m + z);
      TrimEndBefore(m, z);
    }
  }

  lemma TrimEndBefore(t: string, z: string)
    requires Blank(z) && t != "" && !IsSpace(t[|t| - 1])
    ensures TrimEnd(t + z) == t
  {
    hide TrimEnd, IsSpace, Blank;
    assert (t + z)[|t|..] == z && (t + z)[..|t|] == t;
    TrimEndUnique(t + z, |t|);
  }

  lemma BlankTogether(a: string, z: string)
    requires Blank(a) && Blank(z)
    ensures Blank(a + z)
  {
    hide IsSpace;
  }

  lemma TrimBlank(t: string)
    requires Blank(t)
    ensures Trim(t) == ""
  {
    hide TrimStart, TrimEnd, IsSpace, Blank;
    assert t[..|t|] == t && t[|t|..] == "";
    TrimStartUnique(t, |t|);
    TrimEndHolds("");
  }

  lemma TrimStartAfter(a: string, t: string)
    requires Blank(a) && t != "" && !IsSpace(t[0])
    ensures TrimStart(a + t) == t
  {
    hide TrimStart, IsSpace, Blank;
    assert (a + t)[..|a|] == a && (a + t)[|a|..] == t;
    TrimStartUnique(a + t, |a|);
  }

  lemma BlankAt(t: string, i: nat, j: nat, x: nat)
    requires i <= x < j <= |t| && Blank(t[i..j])
    ensures IsSpace(t[x])
  {
    assert t[x] == t[i..j][x - i];
  }

  lemma TrimTwice(t: string)
    ensures Trim(Trim(t)) == Trim(t)
  {
    hide TrimStart, TrimEnd;
    TrimmedEnds(t);
    var m := Trim(t);
    TrimUnique("", m, "");
    assert "" + m + "" == m;
  }

  /** ASCII lower case. */
  function LowerChar(c: char): char {
    if 'A' <= c <= 'Z' then (c as int + 32) as char else c
  }

  function Lower(t: string): (r: string)
    ensures |r| == |t| && forall k :: 0 <= k < |t| ==> r[k] == LowerChar(t[k])
  {
    if t == "" then "" else [LowerChar(t[0])] + Lower(t[1..])
  }

  /** Trimming and lowering a second time changes nothing. */
  lemma LowerTrimTwice(t: string)
    ensures Lower(Trim(Lower(Trim(t)))) == Lower(Trim(t))
  {
    hide TrimStart, TrimEnd, Trim, Lower;
    var m := Trim(t);
    var l := Lower(m);
    TrimmedEnds(t);
    TrimUnique("", l, "");
    assert "" + l + "" == l;
    assert forall k :: 0 <= k < |l| ==> Lower(l)[k] == l[k];
  }

  lemma TrimmedEnds(t: string)
    ensures Trim(t) != "" ==> !IsSpace(Trim(t)[0]) && !IsSpace(Trim(t)[|Trim(t)| - 1])
  {
    hide TrimStart, TrimEnd;
    TrimStartHolds(t);
    TrimEndHolds(TrimStart(t));
    var s := TrimStart(t);
    assert Trim(t) != "" ==> Trim(t)[0] == s[0];
  }

  lemma TrimmedStays(t: string)
    requires t != "" ==> !IsSpace(t[0]) && !IsSpace(t[|t| - 1])
    ensures Trim(t) == t
  {
    hide Trim;
    TrimUnique("", t, "");
    assert "" + t + "" == t;
  }

  lemma CharMatch(t: string, c: char, x: nat)
    requires x <= |t|
    ensures MatchesAt(t, [c], x) <==> x < |t| && t[x] == c
  {
    if x < |t| {
      assert t[x..x + 1] == [t[x]];
    }
  }

  /** The first c at or after i stands at r, or nowhere if r is the end. */
  lemma FindChar(t: string, c: char, i: nat, r: nat)
    requires i <= r <= |t| && (r < |t| ==> t[r] == c) && forall x :: i <= x < r ==> t[x] != c
    ensures Find(t, [c], i) == if r < |t| then Some(r) else None
  {
    hide MatchesAt, Find;
    FindHolds(t, [c], i);
    forall x | i <= x <= |t|
      ensures MatchesAt(t, [c], x) <==> x < |t| && t[x] == c
    {
      CharMatch(t, c, x);
    }
  }
}
