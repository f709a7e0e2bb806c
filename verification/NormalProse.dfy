/** What normalising white space keeps of a document: every non-blank character, and of each prose line its words with single spaces. */
module NormalProse {
  import opened Text
  import opened Ink
  import opened Markdown
  import opened NormalWhitespace

  // ---------- words of a line ----------

  lemma {:induction false} WordsSpell(t: string)
    ensures Spells(t, Words(t))
    decreases |t|
  {
    hide Run, Words, IsWord, IsSpace, Spells;
    if t == "" {
      NoWords();
      SpellsNothing(t);
    } else if IsSpace(t[0]) {
      WordsTurn(t);
      WordsSpell(t[1..]);
      assert [t[0]] + t[1..] == t;
      SpellsAfter([t[0]], t[1..], Words(t[1..]));
    } else {
      var n := Run(t);
      WordsTurn(t);
      WordsSpell(t[n..]);
      RunPositive(t);
      assert t == "" + t[..n] + t[n..];
      assert Words(t)[0] == t[..n] && Words(t)[1..] == Words(t[n..]);
      SpellsMore("", t[..n], t[n..], Words(t));
    }
  }

  lemma RunPositive(t: string)
    requires t != "" && !IsSpace(t[0])
    ensures Run(t) > 0 && IsWord(t[..Run(t)])
  {
  }

  lemma SpellsNothing(l: string)
    ensures Spells(l, []) <==> Blank(l)
  {
  }

  lemma SpellsMore(b: string, w: string, rest: string, ws: seq<string>)
    requires Blank(b) && ws != [] && w == ws[0] && IsWord(w) && (rest == "" || IsSpace(rest[0])) && Spells(rest, ws[1..])
    ensures Spells(b + w + rest, ws)
  {
    hide IsSpace, IsWord;
  }

  lemma SpellsFirst(l: string, ws: seq<string>) returns (b: string, rest: string)
    requires ws != [] && Spells(l, ws)
    ensures Blank(b) && l == b + ws[0] + rest && IsWord(ws[0]) && (rest == "" || IsSpace(rest[0])) && Spells(rest, ws[1..])
  {
    hide IsSpace, IsWord;
    b, rest :| Blank(b) && l == b + ws[0] + rest && IsWord(ws[0]) && (rest == "" || IsSpace(rest[0])) && Spells(rest, ws[1..]);
  }

  /** Blanks in front change no word. */
  lemma SpellsAfter(a: string, l: string, ws: seq<string>)
    requires Blank(a) && Spells(l, ws)
    ensures Spells(a + l, ws)
  {
    hide IsSpace, IsWord, Spells;
    if ws == [] {
      SpellsNothing(l);
      BlankTogether(a, l);
      SpellsNothing(a + l);
    } else {
      var b, rest := SpellsFirst(l, ws);
      BlankTogether(a, b);
      SpellsMore(a + b, ws[0], rest, ws);
      assert a + l == a + b + ws[0] + rest;
    }
  }

  /** Nor do blanks behind. */
  lemma {:induction false} SpellsBefore(l: string, z: string, ws: seq<string>)
    requires Blank(z) && Spells(l, ws)
    ensures Spells(l + z, ws)
    decreases |ws|
  {
    hide IsSpace, IsWord, Spells;
    if ws == [] {
      SpellsNothing(l);
      BlankTogether(l, z);
      SpellsNothing(l + z);
    } else {
      var b, rest := SpellsFirst(l, ws);
      SpellsBefore(rest, z, ws[1..]);
      FirstOfBoth(rest, z);
      SpellsMore(b, ws[0], rest + z, ws);
      assert l + z == b + ws[0] + (rest + z);
    }
  }

  lemma FirstOfBoth(rest: string, z: string)
    requires (rest == "" || IsSpace(rest[0])) && Blank(z)
    ensures rest + z == "" || IsSpace((rest + z)[0])
  {
    hide IsSpace;
    if rest == "" && z != "" {
      assert z[0] in z;
    }
  }

  lemma {:induction false} JoinedSpaced(ws: seq<string>)
    ensures Spaced(JoinWords(ws), ws)
    decreases |ws|
  {
    if |ws| > 1 {
      JoinedSpaced(ws[1..]);
      assert JoinWords(ws) == ws[0] + " " + JoinWords(ws[1..]);
    }
  }

  /** The second line has the words of the first one, in order, with single spaces between them. */
  ghost predicate SpacedOut(l: string, r: string) {
    exists ws :: Spells(l, ws) && Spaced(r, ws)
  }

  /** A collapsed line has the words of the line, in order, with single spaces between them. */
  lemma CollapseKeepsWords(l: string)
    ensures SpacedOut(l, Collapse(l))
  {
    hide Spells, Spaced, Words, JoinWords, Trim;
    var ws := Words(Trim(l));
    WordsSpell(Trim(l));
    JoinedSpaced(ws);
    TrimSplits(l);
    var a, z :| Blank(a) && Blank(z) && l == a + Trim(l) + z;
    SpellsAfter(a, Trim(l), ws);
    SpellsBefore(a + Trim(l), z, ws);
  }

  /** A line is blank exactly if it has no words, and only then it collapses to nothing. */
  lemma CollapsesToNothing(l: string)
    ensures Collapse(l) == "" <==> !HasInk(l)
  {
    hide Spells, Spaced, Words, JoinWords, Trim, Collapse;
    CollapseKeepsWords(l);
    var ws :| Spells(l, ws) && Spaced(Collapse(l), ws);
    NoInk(l);
    SpellsNothing(l);
    if ws == [] {
      SpacedNothing(Collapse(l));
    } else {
      var b, rest := SpellsFirst(l, ws);
      SpacedStarts(Collapse(l), ws);
      assert l[|b|] == ws[0][0];
      assert l[|b|] in l;
    }
  }

  lemma SpacedNothing(r: string)
    ensures Spaced(r, []) <==> r == ""
  {
  }

  lemma SpacedStarts(r: string, ws: seq<string>)
    requires ws != [] && Spaced(r, ws) && ws[0] != ""
    ensures r != ""
  {
  }

  // ---------- lines of a document ----------

  /**
   The second lines are what is kept of the first ones: a fence is trimmed, a line of code
   stays as it is, a line of prose is there with its words and single spaces, and one
   without words is not there.
   */
  ghost predicate Follows(lines: seq<string>, inCode: bool, kept: seq<string>)
    decreases |lines|
  {
    if lines == [] then kept == []
    else
      var l := lines[0];
      if Fence(l) then kept != [] && kept[0] == Trim(l) && Follows(lines[1..], !inCode, kept[1..])
      else if inCode then kept != [] && kept[0] == l && Follows(lines[1..], true, kept[1..])
      else if !HasInk(l) then Follows(lines[1..], false, kept)
      else kept != [] && SpacedOut(l, kept[0]) && Follows(lines[1..], false, kept[1..])
  }

  lemma FollowsTurn(lines: seq<string>, inCode: bool, kept: seq<string>)
    requires lines != []
    ensures var l := lines[0];
            Follows(lines, inCode, kept) <==>
            if Fence(l) then kept != [] && kept[0] == Trim(l) && Follows(lines[1..], !inCode, kept[1..])
            else if inCode then kept != [] && kept[0] == l && Follows(lines[1..], true, kept[1..])
            else if !HasInk(l) then Follows(lines[1..], false, kept)
            else kept != [] && SpacedOut(l, kept[0]) && Follows(lines[1..], false, kept[1..])
  {
    hide Fence, Trim, HasInk, SpacedOut;
  }

  lemma {:induction false} NormalFollows(lines: seq<string>, inCode: bool)
    ensures Follows(lines, inCode, NormalFrom(lines, inCode))
    decreases |lines|
  {
    hide Fence, Trim, HasInk, SpacedOut, Collapse, Follows, NormalFrom;
    if lines == [] {
      NothingFollows(inCode);
    } else {
      var l, rest := lines[0], lines[1..];
      assert lines[0..] == lines;
      NormalTurn(lines, 0, inCode);
      FollowsTurn(lines, inCode, NormalFrom(lines, inCode));
      if Fence(l) {
        NormalFollows(rest, !inCode);
        assert ([Trim(l)] + NormalFrom(rest, !inCode))[1..] == NormalFrom(rest, !inCode);
      } else if inCode {
        NormalFollows(rest, true);
        assert ([l] + NormalFrom(rest, true))[1..] == NormalFrom(rest, true);
      } else {
        NormalFollows(rest, false);
        CollapsesToNothing(l);
        CollapseKeepsWords(l);
        assert [] + NormalFrom(rest, false) == NormalFrom(rest, false);
        assert ([Collapse(l)] + NormalFrom(rest, false))[1..] == NormalFrom(rest, false);
      }
    }
  }

  lemma NothingFollows(inCode: bool)
    ensures Follows([], inCode, NormalFrom([], inCode))
  {
  }

  /**
   For every text: the normalised text is, up to outer blanks, what follows from its lines.
   No prose line with a word is dropped, and none is added.
   */
  lemma NormalizedFollows(t: string)
    ensures exists kept :: Follows(Lines(t), false, kept) && Normalized(t) == Trim(JoinLines(kept))
  {
    hide Follows, Lines, NormalFrom, Trim, Written;
    var kept := NormalFrom(Lines(t), false);
    NormalFollows(Lines(t), false);
    if kept == [] {
      EmptyJoin();
      NothingWritten([]);
    } else {
      var n := |kept| - 1;
      assert kept[..n] + [kept[n]] == kept;
      WrittenMore(kept[..n], kept[n]);
      JoinLinesMore(kept[..n], kept[n]);
      NewlineTrimmed(JoinLines(kept));
      assert Written(kept) == JoinLines(kept) + "\n";
    }
  }

  lemma NewlineTrimmed(t: string)
    ensures Trim(t + "\n") == Trim(t)
  {
    hide Trim;
    TrimAround("", t, "\n");
    assert "" + t + "\n" == t + "\n";
  }

  // ---------- nothing but blanks changes ----------

  function InkOfLines(lines: seq<string>): string {
    if lines == [] then "" else InkOf(lines[0]) + InkOfLines(lines[1..])
  }

  lemma {:induction false} InkLinesTogether(a: seq<string>, b: seq<string>)
    ensures InkOfLines(a + b) == InkOfLines(a) + InkOfLines(b)
    decreases |a|
  {
    hide InkOf;
    if a == [] {
      assert a + b == b;
    } else {
      assert (a + b)[1..] == a[1..] + b;
      InkLinesTogether(a[1..], b);
    }
  }

  lemma InkOfOne(l: string)
    ensures InkOfLines([l]) == InkOf(l)
  {
    hide InkOf;
    assert [l][1..] == [];
    assert InkOfLines([]) == "";
  }

  lemma {:induction false} InkOfPieces(t: string)
    ensures InkOfLines(Pieces(t)) == InkOf(t)
    decreases |t|
  {
    hide Pieces, InkOf, InkOfLines;
    if i :| 0 <= i < |t| && t[i] == '\n' {
      var a, b := t[..i], t[i + 1..];
      assert t == a + "\n" + b;
      PiecesApart(a, b);
      InkOfPieces(a);
      InkOfPieces(b);
      InkLinesTogether(Pieces(a), Pieces(b));
      InkTogether(a + "\n", b);
      InkTogether(a, "\n");
      NoInk("\n");
      assert InkOf(a) + "" == InkOf(a);
    } else {
      PiecesOfLine(t);
      InkOfOne(t);
    }
  }

  lemma {:induction false} InkOfStripped(ls: seq<string>)
    ensures InkOfLines(StripEach(ls)) == InkOfLines(ls)
    decreases |ls|
  {
    hide InkOf, StripCr;
    if ls != [] {
      assert StripEach(ls)[1..] == StripEach(ls[1..]);
      InkOfStripped(ls[1..]);
      StripKeepsInk(ls[0]);
    }
  }

  lemma StripKeepsInk(l: string)
    ensures InkOf(StripCr(l)) == InkOf(l)
  {
    hide InkOf;
    if StripCr(l) != l {
      InkTogether(StripCr(l), "\r");
      NoInk("\r");
      assert StripCr(l) + "\r" == l;
    }
  }

  lemma InkOfLinesOf(t: string)
    ensures InkOfLines(Lines(t)) == InkOf(t)
  {
    hide InkOf, InkOfLines, Pieces, StripEach;
    var ps := Pieces(t);
    var front, last := ps[..|ps| - 1], ps[|ps| - 1];
    assert ps == front + [last];
    InkOfPieces(t);
    InkLinesTogether(front, [last]);
    InkOfStripped(front);
    InkLinesTogether(StripEach(front), [last]);
    InkOfOne(last);
    if last == "" {
      NoInk("");
      assert StripEach(front) + [] == StripEach(front);
    }
  }

  lemma SpaceHasNoInk()
    ensures InkOf(" ") == ""
  {
    NoInk(" ");
  }

  lemma {:induction false} InkOfSpelled(l: string, r: string, ws: seq<string>)
    requires Spells(l, ws) && Spaced(r, ws)
    ensures InkOf(l) == InkOf(r)
    decreases |ws|
  {
    hide InkOf, Spells, IsWord, IsSpace;
    if ws == [] {
      SpellsNothing(l);
      NoInk(l);
      NoInk(r);
    } else {
      var b, rest := SpellsFirst(l, ws);
      NoInk(b);
      InkTogether(b + ws[0], rest);
      InkTogether(b, ws[0]);
      assert InkOf(l) == InkOf(ws[0]) + InkOf(rest);
      if |ws| == 1 {
        SpellsNothing(rest);
        NoInk(rest);
        assert InkOf(ws[0]) + "" == InkOf(ws[0]);
      } else {
        var s :| r == ws[0] + " " + s && Spaced(s, ws[1..]);
        InkTogether(ws[0] + " ", s);
        InkTogether(ws[0], " ");
        SpaceHasNoInk();
        assert InkOf(ws[0]) + "" == InkOf(ws[0]);
        assert InkOf(r) == InkOf(ws[0]) + InkOf(s);
        InkOfSpelled(rest, s, ws[1..]);
      }
    }
  }

  lemma {:induction false} FollowsKeepsInk(lines: seq<string>, inCode: bool, kept: seq<string>)
    requires Follows(lines, inCode, kept)
    ensures InkOfLines(kept) == InkOfLines(lines)
    decreases |lines|
  {
    hide Fence, Trim, Spells, Spaced, Follows, InkOf, HasInk;
    if lines == [] {
      NothingKept(inCode, kept);
    } else {
      var l, rest := lines[0], lines[1..];
      FollowsTurn(lines, inCode, kept);
      if Fence(l) {
        FollowsKeepsInk(rest, !inCode, kept[1..]);
        InkOfTrim(l);
      } else if inCode {
        FollowsKeepsInk(rest, true, kept[1..]);
      } else if !HasInk(l) {
        FollowsKeepsInk(rest, false, kept);
        NoInk(l);
      } else {
        FollowsKeepsInk(rest, false, kept[1..]);
        var ws :| Spells(l, ws) && Spaced(kept[0], ws);
        InkOfSpelled(l, kept[0], ws);
      }
    }
  }

  lemma NothingKept(inCode: bool, kept: seq<string>)
    requires Follows([], inCode, kept)
    ensures kept == []
  {
  }

  lemma {:induction false} InkOfJoined(lines: seq<string>)
    ensures InkOf(JoinLines(lines)) == InkOfLines(lines)
    decreases |lines|
  {
    hide InkOf;
    if lines == [] {
      NoInk("");
    } else if |lines| == 1 {
      InkOfOne(lines[0]);
    } else {
      var j := JoinLines(lines[1..]);
      InkOfJoined(lines[1..]);
      InkTogether(lines[0] + "\n", j);
      InkTogether(lines[0], "\n");
      NoInk("\n");
    }
  }

  /** For every text, normalising keeps every non-blank character, in order. */
  lemma NormalizedKeepsInk(t: string)
    ensures InkOf(Normalized(t)) == InkOf(t)
  {
    hide InkOf, InkOfLines, Follows, Lines, Normalized, Trim, JoinLines;
    NormalizedFollows(t);
    var kept :| Follows(Lines(t), false, kept) && Normalized(t) == Trim(JoinLines(kept));
    FollowsKeepsInk(Lines(t), false, kept);
    InkOfLinesOf(t);
    InkOfJoined(kept);
    InkOfTrim(JoinLines(kept));
  }
}
