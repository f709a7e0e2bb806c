/** What joining segments keeps: every line with something on it, of code and of prose, in order and each on a line of its own. */
module JoinedLines {
  import opened Options
  import opened Text
  import opened Ink
  import opened Markdown
  import NormalWhitespace
  import opened NormalProse
  import opened CompressCard

  /** The lines that are not blank. */
  ghost function InkedLines(lines: seq<string>): seq<string> {
    if lines == [] then [] else (if HasInk(lines[0]) then [lines[0]] else []) + InkedLines(lines[1..])
  }

  /** The lines of the segments that are not blank. */
  ghost function LinesWithin(segments: seq<Segment>): seq<string> {
    if segments == [] then [] else InkedLines(Pieces(segments[0].text)) + LinesWithin(segments[1..])
  }

  /** The first line without the blanks at its start. */
  function FrontTrimmed(lines: seq<string>): seq<string> {
    if lines == [] then [] else [TrimStart(lines[0])] + lines[1..]
  }

  /** The last line without the blanks at its end. */
  function BackTrimmed(lines: seq<string>): seq<string> {
    if lines == [] then [] else lines[..|lines| - 1] + [TrimEnd(lines[|lines| - 1])]
  }

  lemma {:induction false} InkedTogether(a: seq<string>, b: seq<string>)
    ensures InkedLines(a + b) == InkedLines(a) + InkedLines(b)
    decreases |a|
  {
    hide HasInk;
    if a == [] {
      assert a + b == b;
    } else {
      assert (a + b)[1..] == a[1..] + b;
      InkedTogether(a[1..], b);
    }
  }

  lemma InkedOne(l: string)
    ensures InkedLines([l]) == if HasInk(l) then [l] else []
  {
    hide HasInk;
    assert [l][1..] == [];
    assert InkedLines([]) == [];
  }

  lemma NothingInked()
    ensures InkedLines([]) == [] && InkedLines([""]) == [] && LinesWithin([]) == []
  {
    InkedOne("");
  }

  // ---------- one turn of the join ----------

  lemma {:induction false} BlankHasNoLines(t: string)
    requires Blank(t)
    ensures InkedLines(Pieces(t)) == []
    decreases |t|
  {
    hide Pieces, InkedLines, HasInk, IsSpace;
    if i :| 0 <= i < |t| && t[i] == '\n' {
      var a, b := t[..i], t[i + 1..];
      assert t == a + "\n" + b;
      PiecesApart(a, b);
      BlankHasNoLines(a);
      BlankHasNoLines(b);
      InkedTogether(Pieces(a), Pieces(b));
    } else {
      PiecesOfLine(t);
      InkedOne(t);
      NoInk(t);
    }
  }

  lemma JoinedLinesTurn(output: string, x: Segment)
    ensures InkedLines(Pieces(Joined(output, x))) == InkedLines(Pieces(output)) + InkedLines(Pieces(x.text))
  {
    hide Pieces, InkedLines, HasInk, Trim;
    var p, q := Pieces(output), Pieces(x.text);
    if x.Prose? && Trim(x.text) == "" {
      BlankTrims(x.text);
      BlankHasNoLines(x.text);
      assert InkedLines(p) + [] == InkedLines(p);
    } else if output == "" {
      PiecesOfLine("");
      NothingInked();
      assert output + x.text == x.text;
      assert [] + InkedLines(q) == InkedLines(q);
    } else if output[|output| - 1] != '\n' {
      PiecesApart(output, x.text);
      InkedTogether(p, q);
    } else {
      PiecesAfterNewline(output, x.text);
      var front :| p == front + [""] && Pieces(output + x.text) == front + q;
      InkedTogether(front, [""]);
      InkedTogether(front, q);
      NothingInked();
      assert InkedLines(front) + [] == InkedLines(front);
    }
  }

  lemma {:induction false} JoinFromLines(output: string, segments: seq<Segment>)
    ensures InkedLines(Pieces(JoinFrom(output, segments))) == InkedLines(Pieces(output)) + LinesWithin(segments)
    decreases |segments|
  {
    hide Pieces, InkedLines, Joined;
    if segments == [] {
      assert InkedLines(Pieces(output)) + [] == InkedLines(Pieces(output));
    } else {
      JoinedLinesTurn(output, segments[0]);
      JoinFromLines(Joined(output, segments[0]), segments[1..]);
      assert InkedLines(Pieces(output)) + InkedLines(Pieces(segments[0].text)) + LinesWithin(segments[1..])
          == InkedLines(Pieces(output)) + (InkedLines(Pieces(segments[0].text)) + LinesWithin(segments[1..]));
    }
  }

  // ---------- the outer trim ----------

  lemma StartStays(l: string)
    requires l == "" || !IsSpace(l[0])
    ensures TrimStart(l) == l
  {
  }

  lemma {:induction false} TrimStartLines(t: string)
    ensures InkedLines(Pieces(TrimStart(t))) == FrontTrimmed(InkedLines(Pieces(t)))
    decreases |t|
  {
    hide Pieces, InkedLines, HasInk, IsSpace, FrontTrimmed;
    if t == "" || !IsSpace(t[0]) {
      StartStays(t);
      FirstLineStarts(t);
    } else {
      assert [t[0]] + t[1..] == t;
      TrimStartLines(t[1..]);
      BlankInFront(t[0], t[1..]);
    }
  }

  /** A text that starts with a non-blank starts with the first of its lines. */
  lemma FirstLineStarts(t: string)
    requires t == "" || !IsSpace(t[0])
    ensures FrontTrimmed(InkedLines(Pieces(t))) == InkedLines(Pieces(t))
  {
    hide Pieces, InkedLines, HasInk, TrimStart;
    if t == "" {
      PiecesOfLine("");
      NothingInked();
    } else {
      FirstPiece(t);
      var p := Pieces(t);
      assert p == [p[0]] + p[1..];
      InkedTogether([p[0]], p[1..]);
      InkedOne(p[0]);
      assert HasInk(p[0]) by { StartsInked(p[0]); }
      StartStays(p[0]);
    }
  }

  lemma StartsInked(l: string)
    requires l != "" && !IsSpace(l[0])
    ensures HasInk(l)
  {
  }

  lemma FirstPiece(t: string)
    requires t != "" && !IsSpace(t[0])
    ensures Pieces(t)[0] != "" && Pieces(t)[0][0] == t[0]
  {
  }

  lemma BlankInFront(x: char, t: string)
    requires IsSpace(x)
    ensures FrontTrimmed(InkedLines(Pieces([x] + t))) == FrontTrimmed(InkedLines(Pieces(t)))
  {
    hide Pieces, InkedLines, HasInk, IsSpace, TrimStart;
    var p := Pieces(t);
    assert p == [p[0]] + p[1..];
    InkedTogether([p[0]], p[1..]);
    if x == '\n' {
      PiecesOfLine("");
      assert "" + "\n" + t == [x] + t;
      PiecesApart("", t);
      InkedTogether([""], p);
      NothingInked();
      assert [] + InkedLines(p) == InkedLines(p);
    } else {
      PiecesTogether([x], t);
      PiecesOfLine([x]);
      assert Pieces([x] + t) == [[x] + p[0]] + p[1..];
      InkedTogether([[x] + p[0]], p[1..]);
      InkedOne([x] + p[0]);
      InkedOne(p[0]);
      BlankBefore(x, p[0]);
      if HasInk(p[0]) {
        assert ([p[0]] + InkedLines(p[1..]))[1..] == InkedLines(p[1..]);
        assert ([[x] + p[0]] + InkedLines(p[1..]))[1..] == InkedLines(p[1..]);
      }
    }
  }

  lemma BlankBefore(x: char, l: string)
    requires IsSpace(x)
    ensures (HasInk([x] + l) <==> HasInk(l)) && TrimStart([x] + l) == TrimStart(l)
  {
    hide HasInk, IsSpace;
    assert ([x] + l)[1..] == l;
    NoInk([x] + l);
    NoInk(l);
    assert forall c :: c in [x] + l <==> c == x || c in l;
  }

  lemma EndStays(l: string)
    requires l == "" || !IsSpace(l[|l| - 1])
    ensures TrimEnd(l) == l
  {
  }

  lemma {:induction false} TrimEndLines(t: string)
    ensures InkedLines(Pieces(TrimEnd(t))) == BackTrimmed(InkedLines(Pieces(t)))
    decreases |t|
  {
    hide Pieces, InkedLines, HasInk, IsSpace, BackTrimmed;
    if t == "" || !IsSpace(t[|t| - 1]) {
      EndStays(t);
      LastLineEnds(t);
    } else {
      var n := |t| - 1;
      assert t[..n] + [t[n]] == t;
      TrimEndLines(t[..n]);
      BlankBehind(t[..n], t[n]);
    }
  }

  lemma NothingTrimmed()
    ensures BackTrimmed([]) == []
  {
  }

  lemma BackTrimmedLast(lines: seq<string>, last: string)
    ensures BackTrimmed(lines + [last]) == lines + [TrimEnd(last)]
  {
    hide TrimEnd;
  }

  lemma LastLineEnds(t: string)
    requires t == "" || !IsSpace(t[|t| - 1])
    ensures BackTrimmed(InkedLines(Pieces(t))) == InkedLines(Pieces(t))
  {
    hide Pieces, InkedLines, HasInk, TrimEnd, BackTrimmed;
    if t == "" {
      PiecesOfLine("");
      NothingInked();
      assert BackTrimmed([]) == [] by { NothingTrimmed(); }
    } else {
      var p := Pieces(t);
      var last := p[|p| - 1];
      LastPiece(t);
      assert p == p[..|p| - 1] + [last];
      InkedTogether(p[..|p| - 1], [last]);
      InkedOne(last);
      assert HasInk(last) by { EndsInked(last); }
      EndStays(last);
      BackTrimmedLast(InkedLines(p[..|p| - 1]), last);
    }
  }

  lemma EndsInked(l: string)
    requires l != "" && !IsSpace(l[|l| - 1])
    ensures HasInk(l)
  {
  }

  lemma LastPiece(t: string)
    requires t != "" && !IsSpace(t[|t| - 1])
    ensures var p := Pieces(t); p[|p| - 1] != "" && p[|p| - 1][|p[|p| - 1]| - 1] == t[|t| - 1]
  {
    hide Pieces;
    var n := |t| - 1;
    var x := t[n];
    assert x != '\n';
    assert t[..n] + [x] == t;
    PiecesOfLine([x]);
    PiecesTogether(t[..n], [x]);
  }

  lemma BlankBehind(t: string, x: char)
    requires IsSpace(x)
    ensures BackTrimmed(InkedLines(Pieces(t + [x]))) == BackTrimmed(InkedLines(Pieces(t)))
  {
    hide Pieces, InkedLines, HasInk, IsSpace, TrimEnd;
    var p := Pieces(t);
    var front, last := p[..|p| - 1], p[|p| - 1];
    assert p == front + [last];
    InkedTogether(front, [last]);
    if x == '\n' {
      PiecesOfLine("");
      assert t + "\n" + "" == t + [x];
      PiecesApart(t, "");
      InkedTogether(p, [""]);
      NothingInked();
      assert InkedLines(p) + [] == InkedLines(p);
    } else {
      PiecesTogether(t, [x]);
      PiecesOfLine([x]);
      assert Pieces(t + [x]) == front + [last + [x]];
      InkedTogether(front, [last + [x]]);
      InkedOne(last + [x]);
      InkedOne(last);
      BlankAfter(last, x);
      if HasInk(last) {
        assert (InkedLines(front) + [last])[..|InkedLines(front)|] == InkedLines(front);
        assert (InkedLines(front) + [last + [x]])[..|InkedLines(front)|] == InkedLines(front);
      }
    }
  }

  lemma BlankAfter(l: string, x: char)
    requires IsSpace(x)
    ensures (HasInk(l + [x]) <==> HasInk(l)) && TrimEnd(l + [x]) == TrimEnd(l)
  {
    hide HasInk, IsSpace;
    assert (l + [x])[..|l|] == l;
    NoInk(l + [x]);
    NoInk(l);
    assert forall c :: c in l + [x] <==> c == x || c in l;
  }

  /**
   The lines with something on them in the joined text are those of the segments, code and
   prose, in order; the outer trim takes blanks off the first and the last of them.
   */
  lemma JoinKeepsLines(segments: seq<Segment>)
    ensures InkedLines(Pieces(Join(segments))) == BackTrimmed(FrontTrimmed(LinesWithin(segments)))
  {
    hide Pieces, InkedLines, TrimStart, TrimEnd, FrontTrimmed, BackTrimmed, JoinFrom;
    var output := JoinFrom("", segments);
    JoinFromLines("", segments);
    PiecesOfLine("");
    NothingInked();
    assert [] + LinesWithin(segments) == LinesWithin(segments);
    TrimStartLines(output);
    TrimEndLines(TrimStart(output));
  }

  /** A compressed card has the lines of its code and of the replies, in the order of the segments. */
  lemma CompressedKeepsLines(content: string, replies: seq<string>)
    requires |replies| == |Split(content)|
    ensures InkedLines(Pieces(Join(Compressed(Split(content), replies)))) ==
            BackTrimmed(FrontTrimmed(LinesOfParts(Split(content), replies)))
  {
    hide Pieces, InkedLines, FrontTrimmed, BackTrimmed, Join, Split;
    JoinKeepsLines(Compressed(Split(content), replies));
    PartsWithin(Split(content), replies);
  }

  /** The lines of code segments, and those of the replies in place of prose. */
  ghost function LinesOfParts(segments: seq<Segment>, replies: seq<string>): seq<string>
    requires |segments| == |replies|
  {
    if segments == [] then []
    else InkedLines(Pieces(if segments[0].Code? then segments[0].text else replies[0])) + LinesOfParts(segments[1..], replies[1..])
  }

  lemma {:induction false} PartsWithin(segments: seq<Segment>, replies: seq<string>)
    requires |segments| == |replies|
    ensures LinesWithin(Compressed(segments, replies)) == LinesOfParts(segments, replies)
    decreases |segments|
  {
    hide Pieces, InkedLines, Compressed;
    if segments != [] {
      assert Compressed(segments, replies)[1..] == Compressed(segments[1..], replies[1..]);
      PartsWithin(segments[1..], replies[1..]);
    }
  }

  // ---------- which cards are kept whole ----------

  lemma {:induction false} CountAfterBlanks(b: string, t: string)
    requires Blank(b)
    ensures WordCount(b + t, false) == WordCount(t, false)
    decreases |b|
  {
    hide IsSpace;
    if b == "" {
      assert b + t == t;
    } else {
      assert (b + t)[1..] == b[1..] + t;
      assert b[0] in b;
      CountAfterBlanks(b[1..], t);
    }
  }

  lemma {:induction false} CountInWord(w: string, rest: string, inside: bool)
    requires forall k :: 0 <= k < |w| ==> !IsSpace(w[k])
    requires w != "" || inside
    requires rest == "" || IsSpace(rest[0])
    ensures WordCount(w + rest, inside) == (if inside then 0 else 1) + WordCount(rest, false)
    decreases |w|
  {
    hide IsSpace;
    if w == "" {
      assert w + rest == rest;
    } else {
      assert (w + rest)[1..] == w[1..] + rest;
      CountInWord(w[1..], rest, true);
    }
  }

  lemma {:induction false} CountIsWords(t: string, ws: seq<string>)
    requires Spells(t, ws)
    ensures WordCount(t, false) == |ws|
    decreases |ws|
  {
    hide IsSpace, WordCount, Spells;
    if ws == [] {
      SpellsNothing(t);
      CountAfterBlanks(t, "");
      assert t + "" == t;
      NothingCounted();
    } else {
      var b, rest := SpellsFirst(t, ws);
      assert t == b + (ws[0] + rest);
      CountAfterBlanks(b, ws[0] + rest);
      CountInWord(ws[0], rest, false);
      CountIsWords(rest, ws[1..]);
    }
  }

  lemma NothingCounted()
    ensures WordCount("", false) == 0
  {
  }

  /** A card is kept whole exactly if it has at most 420 characters, or at most seventy words, between its outer blanks. */
  lemma KeptWholeIff(content: string)
    ensures KeepsFullCard(content) <==> |Trim(content)| <= 420 || exists ws :: Spells(content, ws) && |ws| <= 70
  {
    hide Trim, WordCount, Spells;
    TrimSplits(content);
    var m := Trim(content);
    var a, z :| Blank(a) && Blank(z) && content == a + m + z;
    var ws := NormalWhitespace.Words(m);
    WordsSpell(m);
    CountIsWords(m, ws);
    SpellsAfter(a, m, ws);
    SpellsBefore(a + m, z, ws);
    forall vs | Spells(content, vs)
      ensures |vs| == |ws|
    {
      CountIsWords(content, vs);
      CountIsWords(content, ws);
    }
  }
}
