/** The list of titles a generation prompt carries: labelled ones, and the most recent others. */
module TitleLines {
  import opened Options
  import opened Sequences

  const MAX_RECENT_UNLABELED: nat := 24

  datatype Context = Context(existing: seq<string>, dismissed: seq<string>, known: seq<string>, difficult: seq<string>, uninterested: seq<string>)

  function LabelOf(c: Context, title: string): Option<string> {
    if title in c.uninterested || title in c.dismissed then Some("skip")
    else if title in c.difficult then Some("hard")
    else if title in c.known then Some("known")
    else None
  }

  function Line(c: Context, title: string): string {
    match LabelOf(c, title)
    case Some(word) => title + " [" + word + "]"
    case None => title
  }

  function LinesOf(c: Context, titles: seq<string>): seq<string> {
    if titles == [] then [] else LinesOf(c, titles[..|titles| - 1]) + [Line(c, titles[|titles| - 1])]
  }

  /** The titles taken from the topic's own, newest first, with kept unlabelled entries counted before. */
  function FromExisting(c: Context, titles: seq<string>, kept: nat, seen: set<string>): seq<string>
    decreases |titles|
  {
    if titles == [] then []
    else
      var t, rest := titles[0], titles[1..];
      if LabelOf(c, t).None? && kept >= MAX_RECENT_UNLABELED then FromExisting(c, rest, kept, seen)
      else (if t in seen then [] else [t])
             + FromExisting(c, rest, if LabelOf(c, t).None? then kept + 1 else kept, seen + {t})
  }

  /** The titles not seen before, each where it comes first. */
  function NotSeen(titles: seq<string>, seen: set<string>): seq<string>
    decreases |titles|
  {
    if titles == [] then []
    else (if titles[0] in seen then [] else [titles[0]]) + NotSeen(titles[1..], seen + {titles[0]})
  }

  function Labelled(c: Context): seq<string> {
    c.dismissed + c.known + c.difficult + c.uninterested
  }

  function Titles(c: Context): seq<string> {
    var first := FromExisting(c, c.existing, 0, {});
    first + NotSeen(Labelled(c), Members(first))
  }

  function Members(titles: seq<string>): set<string> {
    set t | t in titles
  }

  /** The titles listed so far, as lines and as a set. */
  ghost predicate Listed(c: Context, titles: seq<string>, lines: seq<string>, seen: set<string>) {
    lines == LinesOf(c, titles) && seen == Members(titles)
  }

  lemma ListedMore(c: Context, titles: seq<string>, lines: seq<string>, seen: set<string>, t: string)
    requires Listed(c, titles, lines, seen)
    ensures Listed(c, titles + [t], lines + [Line(c, t)], seen + {t})
    ensures t in seen ==> seen + {t} == seen
  {
    hide Line;
    assert (titles + [t])[..|titles|] == titles;
  }

  lemma ExistingTurn(c: Context, i: nat, kept: nat, seen: set<string>)
    requires i < |c.existing|
    ensures var t := c.existing[i];
            FromExisting(c, c.existing[i..], kept, seen) ==
            if LabelOf(c, t).None? && kept >= MAX_RECENT_UNLABELED then FromExisting(c, c.existing[i + 1..], kept, seen)
            else (if t in seen then [] else [t])
                   + FromExisting(c, c.existing[i + 1..], if LabelOf(c, t).None? then kept + 1 else kept, seen + {t})
  {
    hide LabelOf;
    assert c.existing[i..][0] == c.existing[i] && c.existing[i..][1..] == c.existing[i + 1..];
  }

  lemma NotSeenTurn(all: seq<string>, i: nat, seen: set<string>)
    requires i < |all|
    ensures NotSeen(all[i..], seen) == (if all[i] in seen then [] else [all[i]]) + NotSeen(all[i + 1..], seen + {all[i]})
  {
    assert all[i..][0] == all[i] && all[i..][1..] == all[i + 1..];
  }

  lemma Ends(c: Context, titles: seq<string>, kept: nat, seen: set<string>)
    ensures FromExisting(c, c.existing[|c.existing|..], kept, seen) == [] && NotSeen(titles[|titles|..], seen) == []
    ensures c.existing[0..] == c.existing && titles[0..] == titles
    ensures Listed(c, [], [], {})
  {
  }

  lemma Joined(a: seq<string>, t: string, rest: seq<string>)
    ensures a + ([t] + rest) == a + [t] + rest && a + ([] + rest) == a + rest && a + [] == a
  {
  }

  method LabeledTitleLines(c: Context) returns (lines: seq<string>)
    ensures lines == LinesOf(c, Titles(c))
  {
    hide Line, LabelOf, FromExisting, NotSeen, Listed, Labelled;
    lines := [];
    var seen: set<string> := {};
    var kept := 0;
    ghost var titles: seq<string> := [];
    var all := Labelled(c);
    Ends(c, all, 0, {});
    for i := 0 to |c.existing|
      invariant Listed(c, titles, lines, seen)
      invariant titles + FromExisting(c, c.existing[i..], kept, seen) == FromExisting(c, c.existing, 0, {})
    {
      var title := c.existing[i];
      ExistingTurn(c, i, kept, seen);
      ListedMore(c, titles, lines, seen, title);
      if LabelOf(c, title).None? {
        if kept >= MAX_RECENT_UNLABELED {
          continue;
        }
        kept := kept + 1;
      }
      Joined(titles, title, FromExisting(c, c.existing[i + 1..], kept, seen + {title}));
      if title !in seen {
        seen := seen + {title};
        lines := lines + [Line(c, title)];
        titles := titles + [title];
      }
    }
    Ends(c, all, kept, seen);
    ghost var first := titles;
    assert first == FromExisting(c, c.existing, 0, {}) && seen == Members(first) by { ListedSeen(c, titles, lines, seen); }
    for i := 0 to |all|
      invariant Listed(c, titles, lines, seen)
      invariant titles + NotSeen(all[i..], seen) == first + NotSeen(all, Members(first))
    {
      var title := all[i];
      NotSeenTurn(all, i, seen);
      ListedMore(c, titles, lines, seen, title);
      Joined(titles, title, NotSeen(all[i + 1..], seen + {title}));
      if title !in seen {
        seen := seen + {title};
        lines := lines + [Line(c, title)];
        titles := titles + [title];
      }
    }
    Ends(c, all, kept, seen);
    ListedSeen(c, titles, lines, seen);
    assert titles + [] == titles;
  }

  lemma ListedSeen(c: Context, titles: seq<string>, lines: seq<string>, seen: set<string>)
    requires Listed(c, titles, lines, seen)
    ensures seen == Members(titles) && lines == LinesOf(c, titles)
  {
  }

  // ---------- which titles are listed ----------

  /** The first n entries without a label. */
  function FirstUnlabelled(c: Context, titles: seq<string>, n: nat): seq<string>
    decreases |titles|
  {
    if titles == [] || n == 0 then []
    else if LabelOf(c, titles[0]).Some? then FirstUnlabelled(c, titles[1..], n)
    else [titles[0]] + FirstUnlabelled(c, titles[1..], n - 1)
  }

  lemma {:induction false} FromExistingIs(c: Context, titles: seq<string>, kept: nat, seen: set<string>)
    requires kept <= MAX_RECENT_UNLABELED
    ensures var r := FromExisting(c, titles, kept, seen);
            && Distinct(r)
            && forall t :: t in r <==>
                 t !in seen && ((t in titles && LabelOf(c, t).Some?) || t in FirstUnlabelled(c, titles, MAX_RECENT_UNLABELED - kept))
    decreases |titles|
  {
    hide LabelOf;
    if titles != [] {
      var t, rest := titles[0], titles[1..];
      if LabelOf(c, t).None? && kept >= MAX_RECENT_UNLABELED {
        FromExistingIs(c, rest, kept, seen);
      } else {
        FromExistingIs(c, rest, if LabelOf(c, t).None? then kept + 1 else kept, seen + {t});
      }
    }
  }

  lemma {:induction false} NotSeenIs(titles: seq<string>, seen: set<string>)
    ensures Distinct(NotSeen(titles, seen)) && forall t :: t in NotSeen(titles, seen) <==> t in titles && t !in seen
    decreases |titles|
  {
    if titles != [] {
      NotSeenIs(titles[1..], seen + {titles[0]});
    }
  }

  lemma LabelledHaveLabels(c: Context, t: string)
    ensures t in Labelled(c) <==> LabelOf(c, t).Some?
  {
  }

  /** No title is listed twice; listed are exactly the labelled and dismissed titles and those of the first 24 unlabelled entries. */
  lemma TitlesAre(c: Context)
    ensures Distinct(Titles(c))
    ensures forall t :: t in Titles(c) <==> LabelOf(c, t).Some? || t in FirstUnlabelled(c, c.existing, 24)
  {
    hide LabelOf, Labelled;
    var first := FromExisting(c, c.existing, 0, {});
    FromExistingIs(c, c.existing, 0, {});
    var seen := Members(first);
    NotSeenIs(Labelled(c), seen);
    DistinctTogether(first, NotSeen(Labelled(c), seen));
    forall t
      ensures t in Labelled(c) <==> LabelOf(c, t).Some?
    {
      LabelledHaveLabels(c, t);
    }
  }

  /** Different titles may still give the same line: a title may end like a label. */
  lemma LinesMayRepeat()
    ensures var c := Context(["A [known]"], [], ["A"], [], []);
            Line(c, "A [known]") == Line(c, "A") && "A" in Titles(c) && "A [known]" in Titles(c)
  {
    var c := Context(["A [known]"], [], ["A"], [], []);
    assert "A [known]" != "A" && "A" in c.known;
    assert "A" + " [" + "known" + "]" == "A [known]";
    TitlesAre(c);
    assert FirstUnlabelled(c, c.existing, MAX_RECENT_UNLABELED)[0] == "A [known]";
  }

  /** Two titles give one line exactly if one of them is labelled and the other, which is not, is spelled like the labelled one's line. */
  lemma SameLineIff(c: Context, t: string, u: string)
    requires t != u
    ensures Line(c, t) == Line(c, u) <==>
            || (LabelOf(c, t).Some? && LabelOf(c, u).None? && u == Line(c, t))
            || (LabelOf(c, u).Some? && LabelOf(c, t).None? && t == Line(c, u))
  {
    hide LabelOf;
    LabelIsWord(c, t);
    LabelIsWord(c, u);
    if LabelOf(c, t).Some? && LabelOf(c, u).Some? {
      LabelledApart(t, LabelOf(c, t).value, u, LabelOf(c, u).value);
    }
  }

  lemma LabelIsWord(c: Context, t: string)
    ensures LabelOf(c, t).Some? ==> LabelOf(c, t).value in LABELS
  {
  }

  const LABELS: seq<string> := ["skip", "hard", "known"]

  /** No two labels end alike. */
  lemma LabelledApart(t: string, v: string, u: string, w: string)
    requires t != u && v in LABELS && w in LABELS
    ensures t + " [" + v + "]" != u + " [" + w + "]"
  {
    var a, b := t + " [" + v + "]", u + " [" + w + "]";
    assert |v| >= 4 && |w| >= 4;
    assert a[|a| - 2] == v[|v| - 1] && b[|b| - 2] == w[|w| - 1];
    assert a[..|t|] == t && b[..|u|] == u;
    assert a == b && v == w ==> |t| == |u|;
    assert v != w ==> v[|v| - 1] != w[|w| - 1];
  }

  lemma {:induction false} LineAt(c: Context, titles: seq<string>)
    ensures |LinesOf(c, titles)| == |titles| && forall k :: 0 <= k < |titles| ==> LinesOf(c, titles)[k] == Line(c, titles[k])
  {
    hide Line;
    if titles != [] {
      LineAt(c, titles[..|titles| - 1]);
    }
  }

  /** A listed title without a label is spelled like the line of a listed one with a label. */
  ghost predicate Mimics(c: Context, t: string, u: string) {
    t in Titles(c) && u in Titles(c) && LabelOf(c, t).Some? && LabelOf(c, u).None? && u == Line(c, t)
  }

  /** The lines of the prompt are all different exactly if no listed title mimics the line of another. */
  lemma LinesDistinctIff(c: Context)
    ensures Distinct(LinesOf(c, Titles(c))) <==> forall t, u :: !Mimics(c, t, u)
  {
    hide Titles, Line, LabelOf, LinesOf, Mimics;
    var titles := Titles(c);
    TitlesAre(c);
    LineAt(c, titles);
    forall i, j | 0 <= i < j < |titles|
      ensures Line(c, titles[i]) == Line(c, titles[j]) <==> Mimics(c, titles[i], titles[j]) || Mimics(c, titles[j], titles[i])
    {
      MimicsHere(c, titles[i], titles[j]);
    }
    forall t, u | Mimics(c, t, u)
      ensures exists i, j :: 0 <= i < |titles| && 0 <= j < |titles| && i != j && titles[i] == t && titles[j] == u
    {
      MimicsListed(c, t, u);
    }
  }

  lemma MimicsHere(c: Context, t: string, u: string)
    requires t in Titles(c) && u in Titles(c) && t != u
    ensures Line(c, t) == Line(c, u) <==> Mimics(c, t, u) || Mimics(c, u, t)
  {
    hide Titles, Line, LabelOf;
    SameLineIff(c, t, u);
  }

  lemma MimicsListed(c: Context, t: string, u: string)
    requires Mimics(c, t, u)
    ensures exists i, j :: 0 <= i < |Titles(c)| && 0 <= j < |Titles(c)| && i != j && Titles(c)[i] == t && Titles(c)[j] == u
  {
    hide Titles, Line, LabelOf;
    var i :| 0 <= i < |Titles(c)| && Titles(c)[i] == t;
    var j :| 0 <= j < |Titles(c)| && Titles(c)[j] == u;
    assert i != j;
  }

  /** What a title's line says of it: uninteresting and dismissed ones are to be skipped, else difficult ones are hard, else known ones known, and any other title stands alone. */
  lemma LinesSay(c: Context, t: string)
    ensures t in c.uninterested ==> Line(c, t) == t + " [skip]"
    ensures t in c.dismissed ==> Line(c, t) == t + " [skip]"
    ensures t in c.difficult && t !in c.uninterested + c.dismissed ==> Line(c, t) == t + " [hard]"
    ensures t in c.known && t !in c.uninterested + c.dismissed + c.difficult ==> Line(c, t) == t + " [known]"
    ensures t !in c.uninterested + c.dismissed + c.difficult + c.known ==> Line(c, t) == t
  {
    assert t + " [" + "skip" + "]" == t + " [skip]" && t + " [" + "hard" + "]" == t + " [hard]" && t + " [" + "known" + "]" == t + " [known]";
  }
}
