/** Normalising the white space of extracted documents: prose is collapsed, fenced code is kept. */
module NormalWhitespace {
  import opened Options
  import opened Text
  import opened Ink
  import opened Markdown

  // ---------- words ----------

  /** The length of the run of non-blanks at the start. */
  function Run(t: string): (r: nat)
    ensures r <= |t| && (forall k :: 0 <= k < r ==> !IsSpace(t[k])) && (r < |t| ==> IsSpace(t[r]))
  {
    if t == "" || IsSpace(t[0]) then 0 else 1 + Run(t[1..])
  }

  function Words(t: string): (r: seq<string>)
    ensures forall k :: 0 <= k < |r| ==> IsWord(r[k])
    decreases |t|
  {
    if t == "" then []
    else if IsSpace(t[0]) then Words(t[1..])
    else [t[..Run(t)]] + Words(t[Run(t)..])
  }

  function JoinWords(ws: seq<string>): string {
    if ws == [] then "" else if |ws| == 1 then ws[0] else ws[0] + " " + JoinWords(ws[1..])
  }

  function Collapse(line: string): string {
    JoinWords(Words(Trim(line)))
  }

  lemma {:induction false} RunIs(w: string, rest: string)
    requires IsWord(w) && (rest == "" || IsSpace(rest[0]))
    ensures Run(w + rest) == |w| && (w + rest)[..|w|] == w && (w + rest)[|w|..] == rest
    decreases |w|
  {
    assert (w + rest)[1..] == w[1..] + rest;
    if |w| == 1 {
      assert w[1..] + rest == rest;
    } else {
      RunIs(w[1..], rest);
    }
  }

  lemma WordsTurn(t: string)
    requires t != ""
    ensures Words(t) == if IsSpace(t[0]) then Words(t[1..]) else [t[..Run(t)]] + Words(t[Run(t)..])
  {
    hide Run;
  }

  lemma JoinTurn(ws: seq<string>)
    requires ws != []
    ensures JoinWords(ws) == ws[0] + if |ws| == 1 then "" else " " + JoinWords(ws[1..])
  {
  }

  lemma {:induction false} WordsOfJoined(ws: seq<string>)
    requires forall k :: 0 <= k < |ws| ==> IsWord(ws[k])
    ensures Words(JoinWords(ws)) == ws
    decreases |ws|
  {
    hide Run, IsWord, Words, JoinWords;
    NoWords();
    if ws != [] {
      var w := ws[0];
      var rest := if |ws| == 1 then "" else " " + JoinWords(ws[1..]);
      JoinTurn(ws);
      WordStarts(w, rest);
      RunIs(w, rest);
      WordsOfJoined(ws[1..]);
      WordsTurn(w + rest);
      if |ws| > 1 {
        assert rest[1..] == JoinWords(ws[1..]);
        WordsTurn(rest);
      }
      assert ws == [w] + ws[1..];
    }
  }

  lemma WordStarts(w: string, rest: string)
    requires IsWord(w)
    ensures w + rest != "" && !IsSpace((w + rest)[0])
  {
    assert (w + rest)[0] == w[0];
  }

  /** Joined words start and end with a non-blank, and hold no line break. */
  lemma {:induction false} JoinedIsTrim(ws: seq<string>)
    requires forall k :: 0 <= k < |ws| ==> IsWord(ws[k])
    ensures JoinWords(ws) == "" <==> ws == []
    ensures ws != [] ==> !IsSpace(JoinWords(ws)[0]) && !IsSpace(JoinWords(ws)[|JoinWords(ws)| - 1])
    ensures OneLine(JoinWords(ws)) && '\r' !in JoinWords(ws)
    decreases |ws|
  {
    if ws != [] {
      var w := ws[0];
      assert IsWord(w);
      assert IsSpace('\n') && IsSpace('\r');
      assert '\n' !in w && '\r' !in w;
      if |ws| > 1 {
        JoinedIsTrim(ws[1..]);
        var j := JoinWords(ws[1..]);
        var t := w + " " + j;
        assert t[|t| - 1] == j[|j| - 1];
      }
    }
  }

  lemma CollapseIsClean(line: string)
    ensures var c := Collapse(line);
            OneLine(c) && '\r' !in c && Trim(c) == c && Collapse(c) == c
  {
    hide Words, JoinWords, Trim;
    var ws := Words(Trim(line));
    JoinedIsTrim(ws);
    TrimmedStays(JoinWords(ws));
    WordsOfJoined(ws);
  }

  /** The first word of a trimmed line starts the line. */
  lemma FirstWord(t: string)
    requires t != "" && !IsSpace(t[0])
    ensures Words(t) != [] && Words(t)[0] == t[..Run(t)] && Run(t) > 0
  {
  }

  /** A collapsed line starts with three ticks only if the line does. */
  lemma CollapsedTicks(line: string)
    ensures StartsWith(Collapse(line), "```") ==> StartsWith(Trim(line), "```")
  {
    hide Words, JoinWords, Trim, Run;
    var t := Trim(line);
    var ws := Words(t);
    var c := JoinWords(ws);
    NoWords();
    TrimmedEnds(line);
    if t != "" && StartsWith(c, "```") {
      FirstWord(t);
      JoinedStart(ws);
      ThreeTicks(c, Run(t));
      assert t[..3] == t[..Run(t)][..3] == c[..3];
    }
  }

  lemma CollapseIsNoFence(line: string)
    requires !Fence(line)
    ensures !Fence(Collapse(line))
  {
    hide Collapse, Trim;
    CollapseIsClean(line);
    CollapsedTicks(line);
  }

  lemma NoWords()
    ensures Words("") == [] && JoinWords([]) == ""
  {
  }

  lemma JoinedStart(ws: seq<string>)
    requires ws != []
    ensures |ws[0]| <= |JoinWords(ws)| && JoinWords(ws)[..|ws[0]|] == ws[0]
    ensures |ws[0]| < |JoinWords(ws)| ==> JoinWords(ws)[|ws[0]|] == ' '
  {
  }

  lemma ThreeTicks(c: string, n: nat)
    requires StartsWith(c, "```") && n > 0 && n <= |c| && (n < |c| ==> c[n] == ' ')
    ensures n >= 3
  {
    var p := c[..3];
    assert p[0] == c[0] && p[1] == c[1] && p[2] == c[2];
  }

  // ---------- lines ----------

  /** The lines that normalising keeps. */
  function NormalFrom(lines: seq<string>, inCode: bool): seq<string> {
    if lines == [] then []
    else
      var l := lines[0];
      if Fence(l) then [Trim(l)] + NormalFrom(lines[1..], !inCode)
      else if inCode then [l] + NormalFrom(lines[1..], true)
      else (if Collapse(l) == "" then [] else [Collapse(l)]) + NormalFrom(lines[1..], false)
  }

  /** Each line with its line break. */
  function Written(lines: seq<string>): string {
    if lines == [] then "" else Written(lines[..|lines| - 1]) + lines[|lines| - 1] + "\n"
  }

  function Normalized(t: string): string {
    Trim(Written(NormalFrom(Lines(t), false)))
  }

  lemma WrittenMore(lines: seq<string>, l: string)
    ensures Written(lines + [l]) == Written(lines) + l + "\n"
  {
    assert (lines + [l])[..|lines|] == lines;
  }

  lemma NormalTurn(lines: seq<string>, i: nat, inCode: bool)
    requires i < |lines|
    ensures NormalFrom(lines[i..], inCode) ==
            if Fence(lines[i]) then [Trim(lines[i])] + NormalFrom(lines[i + 1..], !inCode)
            else if inCode then [lines[i]] + NormalFrom(lines[i + 1..], true)
            else (if Collapse(lines[i]) == "" then [] else [Collapse(lines[i])]) + NormalFrom(lines[i + 1..], false)
  {
    hide Fence, Trim, Collapse;
    assert lines[i..][0] == lines[i] && lines[i..][1..] == lines[i + 1..];
  }

  lemma Behind(kept: seq<string>, more: seq<string>, rest: seq<string>)
    ensures kept + (more + rest) == kept + more + rest && kept + [] == kept
  {
  }

  method NormalizeWhitespace(s: string) returns (r: string)
    ensures r == Normalized(s)
  {
    hide Lines, Fence, Trim, Collapse, NormalFrom, Written;
    var out := "";
    var inCode := false;
    var lines := Lines(s);
    ghost var kept: seq<string> := [];
    NothingWritten(lines);
    for i := 0 to |lines|
      invariant out == Written(kept)
      invariant kept + NormalFrom(lines[i..], inCode) == NormalFrom(lines, false)
    {
      var line := lines[i];
      NormalTurn(lines, i, inCode);
      var trimmed := Trim(line);
      if Fence(line) {
        inCode := !inCode;
        out := out + trimmed + "\n";
        Behind(kept, [trimmed], NormalFrom(lines[i + 1..], inCode));
        WrittenMore(kept, trimmed);
        kept := kept + [trimmed];
      } else if inCode {
        out := out + line + "\n";
        Behind(kept, [line], NormalFrom(lines[i + 1..], inCode));
        WrittenMore(kept, line);
        kept := kept + [line];
      } else {
        var collapsed := Collapse(line);
        Behind(kept, if collapsed == "" then [] else [collapsed], NormalFrom(lines[i + 1..], inCode));
        if collapsed != "" {
          out := out + collapsed + "\n";
          WrittenMore(kept, collapsed);
          kept := kept + [collapsed];
        }
      }
    }
    assert kept + [] == kept;
    r := Trim(out);
  }

  lemma NothingWritten(lines: seq<string>)
    ensures Written([]) == "" && lines[0..] == lines && lines[|lines|..] == [] && NormalFrom([], true) == NormalFrom([], false) == []
  {
  }

  // ---------- normalising twice ----------

  function CodeAfter(lines: seq<string>, inCode: bool): bool {
    if lines == [] then inCode else CodeAfter(lines[1..], if Fence(lines[0]) then !inCode else inCode)
  }

  lemma {:induction false} NormalTogether(a: seq<string>, b: seq<string>, inCode: bool)
    ensures NormalFrom(a + b, inCode) == NormalFrom(a, inCode) + NormalFrom(b, CodeAfter(a, inCode))
    ensures |NormalFrom(a, inCode)| <= |a|
    decreases |a|
  {
    hide Fence, Trim, Collapse, NormalFrom, Kept;
    NothingNormal(inCode);
    if a == [] {
      assert a + b == b;
      assert [] + NormalFrom(b, inCode) == NormalFrom(b, inCode);
    } else {
      assert (a + b)[1..] == a[1..] + b;
      var next := if Fence(a[0]) then !inCode else inCode;
      NormalTogether(a[1..], b, next);
      KeptTogether(Kept(a[0], inCode), NormalFrom(a[1..], next), NormalFrom(b, CodeAfter(a[1..], next)));
      NormalStep(a, inCode);
      NormalStep(a + b, inCode);
    }
  }

  /** What one line leaves. */
  function Kept(l: string, inCode: bool): (r: seq<string>)
    ensures |r| <= 1
  {
    if Fence(l) then [Trim(l)] else if inCode then [l] else if Collapse(l) == "" then [] else [Collapse(l)]
  }

  lemma NormalStep(lines: seq<string>, inCode: bool)
    requires lines != []
    ensures NormalFrom(lines, inCode) == Kept(lines[0], inCode) + NormalFrom(lines[1..], if Fence(lines[0]) then !inCode else inCode)
  {
    hide Fence, Trim, Collapse;
  }

  lemma KeptTogether(a: seq<string>, b: seq<string>, c: seq<string>)
    ensures a + (b + c) == a + b + c
  {
  }

  lemma TrimmedFence(l: string)
    ensures Fence(Trim(l)) == Fence(l)
  {
    hide Trim;
    TrimTwice(l);
  }

  /** Kept lines are kept as they are. */
  lemma {:induction false} NormalIsKept(lines: seq<string>, inCode: bool)
    ensures NormalFrom(NormalFrom(lines, inCode), inCode) == NormalFrom(lines, inCode)
    ensures EachOneLine(lines) ==> EachOneLine(NormalFrom(lines, inCode))
    decreases |lines|
  {
    hide Fence, Trim, Collapse, OneLine;
    if lines != [] {
      var l, rest := lines[0], lines[1..];
      TrimTwice(l);
      TrimmedFence(l);
      CollapseIsClean(l);
      var next := if Fence(l) then !inCode else inCode;
      NormalIsKept(rest, next);
      var tail := NormalFrom(rest, next);
      if Fence(l) {
        KeptFirst(Trim(l), tail, inCode);
        TrimOneLine(l);
      } else if inCode {
        KeptFirst(l, tail, inCode);
      } else {
        CollapseIsNoFence(l);
        if Collapse(l) != "" {
          KeptFirst(Collapse(l), tail, inCode);
        } else {
          assert [] + tail == tail;
        }
      }
    }
  }

  lemma KeptFirst(l: string, tail: seq<string>, inCode: bool)
    requires NormalFrom(tail, if Fence(l) then !inCode else inCode) == tail
    requires if Fence(l) then Trim(l) == l else inCode || (Collapse(l) == l && l != "")
    ensures NormalFrom([l] + tail, inCode) == [l] + tail
  {
    hide Fence, Trim, Collapse;
    assert ([l] + tail)[1..] == tail;
  }

  lemma TrimOneLine(l: string)
    ensures OneLine(l) ==> OneLine(Trim(l))
    ensures '\r' !in l ==> '\r' !in Trim(l)
  {
    hide Trim;
    var a, z := TrimParts(l);
  }

  /** The lines without the blanks at the very end. */
  function TrimTail(lines: seq<string>): seq<string> {
    if lines == [] then []
    else
      var n := |lines| - 1;
      if TrimEnd(lines[n]) == "" then TrimTail(lines[..n]) else lines[..n] + [TrimEnd(lines[n])]
  }

  lemma TrimEndBlank(a: string, z: string)
    requires Blank(z)
    ensures TrimEnd(a + z) == TrimEnd(a)
  {
    hide TrimEnd;
    TrimEndHolds(a);
    var n := |TrimEnd(a)|;
    assert (a + z)[n..] == a[n..] + z;
    TrimEndUnique(a + z, n);
    assert (a + z)[..n] == a[..n];
  }

  lemma TrimEndOf(a: string, l: string)
    ensures TrimEnd(a + l) == if TrimEnd(l) == "" then TrimEnd(a) else a + TrimEnd(l)
  {
    hide TrimEnd;
    TrimEndHolds(l);
    var m := TrimEnd(l);
    if m == "" {
      assert l[0..] == l;
      TrimEndBlank(a, l);
    } else {
      var n := |a| + |m|;
      assert (a + l)[n..] == l[|m|..];
      assert (a + l)[n - 1] == l[|m| - 1] == m[|m| - 1];
      TrimEndUnique(a + l, n);
      assert (a + l)[..n] == a + l[..|m|];
    }
  }

  lemma {:induction false} JoinLinesMore(lines: seq<string>, l: string)
    ensures JoinLines(lines + [l]) == Written(lines) + l
    decreases |lines|
  {
    if lines == [] {
      assert lines + [l] == [l];
    } else {
      var n := |lines| - 1;
      var init, x := lines[..n], lines[n];
      assert lines == init + [x];
      JoinLinesMore(init, x);
      JoinTwo(init + [x], l);
      assert lines + [l] == init + [x] + [l];
    }
  }

  lemma {:induction false} JoinTwo(lines: seq<string>, l: string)
    requires lines != []
    ensures JoinLines(lines + [l]) == JoinLines(lines) + "\n" + l
    decreases |lines|
  {
    if |lines| == 1 {
      assert (lines + [l])[1..] == [l];
    } else {
      assert (lines + [l])[1..] == lines[1..] + [l];
      JoinTwo(lines[1..], l);
      assert lines[0] + "\n" + (JoinLines(lines[1..]) + "\n" + l) == lines[0] + "\n" + JoinLines(lines[1..]) + "\n" + l;
    }
  }

  /** Trimming the end of the written lines leaves the trimmed lines, joined. */
  lemma {:induction false} TrimEndOfWritten(lines: seq<string>)
    ensures TrimEnd(Written(lines)) == JoinLines(TrimTail(lines))
    decreases |lines|
  {
    hide TrimEnd, JoinLines;
    if lines == [] {
      EmptyJoin();
    } else {
      var n := |lines| - 1;
      var init, l := lines[..n], lines[n];
      TrimEndBlank(Written(init) + l, "\n");
      TrimEndOf(Written(init), l);
      if TrimEnd(l) == "" {
        TrimEndOfWritten(init);
      } else {
        JoinLinesMore(init, TrimEnd(l));
      }
    }
  }

  lemma EmptyJoin()
    ensures JoinLines([]) == "" && TrimEnd("") == ""
  {
  }

  predicate CrFree(lines: seq<string>) {
    forall k :: 0 <= k < |lines| ==> '\r' !in lines[k]
  }

  lemma StripNothing(lines: seq<string>)
    requires CrFree(lines)
    ensures StripEach(lines) == lines
  {
    forall k | 0 <= k < |lines|
      ensures StripCr(lines[k]) == lines[k]
    {
      assert lines[k] != "" ==> lines[k][|lines[k]| - 1] in lines[k];
    }
  }

  lemma LinesOfJoined(lines: seq<string>)
    requires EachOneLine(lines) && CrFree(lines) && (lines != [] ==> lines[|lines| - 1] != "")
    ensures Lines(JoinLines(lines)) == lines
  {
    hide JoinLines, Pieces, StripEach, EachOneLine, CrFree, Lines;
    var t := JoinLines(lines);
    LinesOfPieces(t);
    if lines == [] {
      EmptyJoin();
      EmptyPieces();
      StripNothing([]);
      assert [""][..0] == [];
    } else {
      PiecesOfJoined(lines);
      var n := |lines| - 1;
      CrFreeFront(lines, n);
      StripNothing(lines[..n]);
      assert lines == lines[..n] + [lines[n]];
    }
  }

  lemma CrFreeFront(lines: seq<string>, n: nat)
    requires CrFree(lines) && n <= |lines|
    ensures CrFree(lines[..n])
  {
  }

  /** Lines that normalising keeps as they are. */
  ghost predicate Settled(lines: seq<string>) {
    NormalFrom(lines, false) == lines && EachOneLine(lines) && CrFree(lines)
  }

  lemma NormalShrinks(lines: seq<string>, inCode: bool)
    ensures |NormalFrom(lines, inCode)| <= |lines|
  {
    hide NormalFrom, CodeAfter;
    NormalTogether(lines, [], inCode);
  }

  /** If lines and one more are kept together, each part is. */
  lemma KeptApart(init: seq<string>, l: string)
    requires NormalFrom(init + [l], false) == init + [l]
    ensures NormalFrom(init, false) == init && NormalFrom([l], CodeAfter(init, false)) == [l]
  {
    hide NormalFrom, CodeAfter;
    NormalTogether(init, [l], false);
    NormalShrinks([l], CodeAfter(init, false));
    SplitEqual(NormalFrom(init, false), NormalFrom([l], CodeAfter(init, false)), init, [l]);
  }

  lemma SettledInit(lines: seq<string>)
    requires Settled(lines) && lines != []
    ensures var n := |lines| - 1;
            Settled(lines[..n]) && NormalFrom([lines[n]], CodeAfter(lines[..n], false)) == [lines[n]]
  {
    hide NormalFrom, OneLine, CodeAfter;
    var n := |lines| - 1;
    assert lines == lines[..n] + [lines[n]];
    KeptApart(lines[..n], lines[n]);
  }

  lemma SettledMore(init: seq<string>, l: string)
    requires Settled(init) && NormalFrom([l], CodeAfter(init, false)) == [l] && OneLine(l) && '\r' !in l
    ensures Settled(init + [l])
  {
    hide NormalFrom, OneLine, CodeAfter;
    NormalTogether(init, [l], false);
  }

  lemma TrimTailKeeps(lines: seq<string>)
    requires Settled(lines)
    ensures var t := TrimTail(lines);
            Settled(t) && TrimTail(t) == t && (t != [] ==> t[|t| - 1] != "")
    decreases |lines|
  {
    hide NormalFrom, TrimEnd, Settled;
    if lines != [] {
      var n := |lines| - 1;
      var init, l := lines[..n], lines[n];
      SettledInit(lines);
      var m := TrimEnd(l);
      if m == "" {
        TrimTailKeeps(init);
      } else {
        SettledLine(lines, n);
        TrimEndOneLine(l);
        LastKept(l, CodeAfter(init, false));
        SettledMore(init, m);
        assert (init + [m])[..n] == init;
        TrimEndTwice(l);
      }
    }
  }

  lemma SettledLine(lines: seq<string>, k: nat)
    requires Settled(lines) && k < |lines|
    ensures OneLine(lines[k]) && '\r' !in lines[k]
  {
  }

  lemma SplitEqual(a: seq<string>, b: seq<string>, c: seq<string>, d: seq<string>)
    requires a + b == c + d && |a| <= |c| && |b| <= |d|
    ensures a == c && b == d
  {
    assert |a| == |c| && |b| == |d|;
    assert a == (a + b)[..|a|] && b == (a + b)[|a|..];
  }

  lemma TrimEndTwice(l: string)
    ensures TrimEnd(TrimEnd(l)) == TrimEnd(l)
  {
    TrimEndHolds(l);
    var m := TrimEnd(l);
    TrimEndUnique(m, |m|);
  }

  lemma TrimEndOneLine(l: string)
    ensures OneLine(l) ==> OneLine(TrimEnd(l))
    ensures '\r' !in l ==> '\r' !in TrimEnd(l)
    ensures Trim(TrimEnd(l)) == Trim(l)
  {
    hide TrimEnd, Trim;
    TrimEndHolds(l);
    var m := TrimEnd(l);
    assert l == m + l[|m|..];
    TrimAround("", m, l[|m|..]);
    assert "" + m + l[|m|..] == l;
  }

  /** The last line, kept in its place, is still kept without the blanks at its end. */
  lemma LastKept(l: string, inCode: bool)
    requires NormalFrom([l], inCode) == [l] && TrimEnd(l) != ""
    ensures NormalFrom([TrimEnd(l)], inCode) == [TrimEnd(l)]
  {
    hide Collapse, TrimEnd, Trim;
    var m := TrimEnd(l);
    TrimEndOneLine(l);
    FenceByTrim(m, l);
    assert [l][1..] == [] && [m][1..] == [];
    assert NormalFrom([], inCode) == [] && NormalFrom([], !inCode) == [];
    if Fence(l) {
      assert Trim(l) == l;
      EndOfTrimmed(l);
    } else if !inCode {
      CollapseIsClean(l);
      assert Collapse(l) == l;
      EndOfTrimmed(l);
    }
  }

  lemma EndOfTrimmed(l: string)
    requires Trim(l) == l
    ensures TrimEnd(l) == l
  {
    TrimmedEnds(l);
    TrimEndUnique(l, |l|);
  }

  lemma NormalCrFree(lines: seq<string>, inCode: bool)
    requires CrFree(lines)
    ensures CrFree(NormalFrom(lines, inCode))
    decreases |lines|
  {
    hide Fence, Trim, Collapse;
    if lines != [] {
      NormalCrFree(lines[1..], if Fence(lines[0]) then !inCode else inCode);
      TrimOneLine(lines[0]);
      CollapseIsClean(lines[0]);
    }
  }

  lemma LinesCrFree(t: string)
    requires '\r' !in t
    ensures CrFree(Lines(t))
  {
    PiecesCrFree(t);
    var ps := Pieces(t);
    assert forall k :: 0 <= k < |ps| ==> '\r' !in StripCr(ps[k]);
  }

  lemma {:induction false} PiecesCrFree(t: string)
    requires '\r' !in t
    ensures CrFree(Pieces(t))
  {
    if t != "" {
      PiecesCrFree(t[1..]);
      assert t[0] in t;
    }
  }

  lemma KeptStarts(l: string)
    ensures var r := Kept(l, false); r != [] ==> r[0] != "" && !IsSpace(r[0][0])
  {
    hide Collapse, Trim;
    TrimmedEnds(l);
    TrimmedEnds(Collapse(l));
    CollapseIsClean(l);
    if Fence(l) {
      FenceIsNotBlank(l);
    }
  }

  /** The first kept line starts with a non-blank. */
  lemma {:induction false} NormalStarts(lines: seq<string>)
    ensures var r := NormalFrom(lines, false); r != [] ==> r[0] != "" && !IsSpace(r[0][0])
    decreases |lines|
  {
    hide Collapse, NormalFrom, Trim;
    if lines == [] {
      NothingNormal(false);
    } else {
      NormalStep(lines, false);
      KeptStarts(lines[0]);
      if !Fence(lines[0]) {
        NormalStarts(lines[1..]);
      }
    }
  }

  lemma FenceIsNotBlank(l: string)
    requires Fence(l)
    ensures Trim(l) != ""
  {
    hide Trim;
  }

  lemma {:induction false} WrittenStarts(lines: seq<string>)
    requires lines != [] ==> lines[0] != "" && !IsSpace(lines[0][0])
    ensures TrimStart(Written(lines)) == Written(lines)
    ensures lines != [] ==> Written(lines) != "" && Written(lines)[0] == lines[0][0]
    decreases |lines|
  {
    if lines != [] {
      var n := |lines| - 1;
      if n > 0 {
        WrittenStarts(lines[..n]);
      }
    }
  }

  /** What normalising leaves: the kept lines, joined. */
  lemma NormalizedIs(t: string)
    ensures Normalized(t) == JoinLines(TrimTail(NormalFrom(Lines(t), false)))
  {
    hide NormalFrom, Written, Lines, TrimStart, TrimEnd, JoinLines, TrimTail;
    var kept := NormalFrom(Lines(t), false);
    NormalStarts(Lines(t));
    WrittenStarts(kept);
    TrimEndOfWritten(kept);
  }

  /** On text without carriage returns, normalising a second time changes nothing. */
  lemma NormalizeTwice(t: string)
    requires '\r' !in t
    ensures Normalized(Normalized(t)) == Normalized(t)
  {
    hide NormalFrom, Lines, JoinLines, TrimTail, Normalized;
    var kept := NormalFrom(Lines(t), false);
    var tail := TrimTail(kept);
    LinesOneLine(t);
    LinesCrFree(t);
    NormalIsKept(Lines(t), false);
    NormalCrFree(Lines(t), false);
    TrimTailKeeps(kept);
    LinesOfJoined(tail);
    NormalizedIs(t);
    NormalizedIs(JoinLines(tail));
  }

  // ---------- code is kept ----------

  function FencesTrimmed(b: Block): Block {
    if |b| < 2 then b else [Trim(b[0])] + b[1..|b| - 1] + [Trim(b[|b| - 1])]
  }

  function AllFencesTrimmed(bs: seq<Block>): seq<Block> {
    if bs == [] then [] else [FencesTrimmed(bs[0])] + AllFencesTrimmed(bs[1..])
  }

  /** The part of a block read so far, with its opening line trimmed. */
  function OpeningTrimmed(b: Block): Block {
    if b == [] then b else [Trim(b[0])] + b[1..]
  }

  lemma {:induction false} NormalBlocks(lines: seq<string>, open: Option<Block>)
    requires open.Some? ==> open.value != []
    ensures BlocksFrom(NormalFrom(lines, open.Some?), if open.Some? then Some(OpeningTrimmed(open.value)) else None)
         == AllFencesTrimmed(BlocksFrom(lines, open))
    decreases |lines|
  {
    hide Fence, Trim, Collapse, BlocksFrom, NormalFrom;
    if lines == [] {
      NoneLeft(open);
      NoneLeft(if open.Some? then Some(OpeningTrimmed(open.value)) else None);
      assert NormalFrom(lines, open.Some?) == [] by { NothingNormal(open.Some?); }
    } else {
      var l, rest := lines[0], lines[1..];
      assert lines[0..] == lines;
      NormalTurn(lines, 0, open.Some?);
      BlocksTurn(lines, open);
      TrimmedFence(l);
      if Fence(l) {
        FenceTurn(l, NormalFrom(rest, open.None?), open);
        if open.Some? {
          NormalBlocks(rest, None);
          FirstTrimmed(open.value + [l], BlocksFrom(rest, None));
          ClosedTrimmed(open.value, l);
        } else {
          NormalBlocks(rest, Some([l]));
          assert OpeningTrimmed([l]) == [Trim(l)];
        }
      } else if open.Some? {
        NormalBlocks(rest, Some(open.value + [l]));
        BlocksTurn([l] + NormalFrom(rest, true), Some(OpeningTrimmed(open.value)));
        assert ([l] + NormalFrom(rest, true))[1..] == NormalFrom(rest, true);
        assert OpeningTrimmed(open.value + [l]) == OpeningTrimmed(open.value) + [l];
      } else {
        NormalBlocks(rest, None);
        CollapseIsNoFence(l);
        if Collapse(l) != "" {
          BlocksTurn([Collapse(l)] + NormalFrom(rest, false), None);
          assert ([Collapse(l)] + NormalFrom(rest, false))[1..] == NormalFrom(rest, false);
        } else {
          assert [] + NormalFrom(rest, false) == NormalFrom(rest, false);
        }
      }
    }
  }

  lemma NothingNormal(inCode: bool)
    ensures NormalFrom([], inCode) == []
  {
  }

  lemma FenceTurn(l: string, tail: seq<string>, open: Option<Block>)
    requires Fence(l) && (open.Some? ==> open.value != [])
    ensures BlocksFrom([Trim(l)] + tail, if open.Some? then Some(OpeningTrimmed(open.value)) else None) ==
            if open.Some? then [OpeningTrimmed(open.value) + [Trim(l)]] + BlocksFrom(tail, None)
            else BlocksFrom(tail, Some([Trim(l)]))
  {
    hide Fence, Trim, BlocksFrom;
    TrimmedFence(l);
    BlocksTurn([Trim(l)] + tail, if open.Some? then Some(OpeningTrimmed(open.value)) else None);
    assert ([Trim(l)] + tail)[1..] == tail;
  }

  lemma FirstTrimmed(b: Block, rest: seq<Block>)
    ensures AllFencesTrimmed([b] + rest) == [FencesTrimmed(b)] + AllFencesTrimmed(rest)
  {
    hide Trim;
    assert ([b] + rest)[1..] == rest;
  }

  lemma ClosedTrimmed(b: Block, l: string)
    requires b != []
    ensures FencesTrimmed(b + [l]) == OpeningTrimmed(b) + [Trim(l)]
  {
    hide Trim;
    assert (b + [l])[1..|b|] == b[1..];
  }

  lemma {:induction false} PiecesOfWritten(lines: seq<string>)
    requires EachOneLine(lines)
    ensures Pieces(Written(lines)) == lines + [""]
    decreases |lines|
  {
    hide Pieces, OneLine;
    if lines == [] {
      EmptyPieces();
    } else {
      var n := |lines| - 1;
      var init, l := lines[..n], lines[n];
      assert EachOneLine(init);
      PiecesOfWritten(init);
      PiecesTogether(Written(init), l);
      PiecesOfLine(l);
      assert "" + l == l;
      assert Pieces(Written(init) + l) == init + [l] by {
        assert (init + [""])[..n] == init;
      }
      EmptyPieces();
      PiecesApart(Written(init) + l, "");
      assert Written(init) + l + "\n" + "" == Written(lines);
      assert lines == init + [l];
    }
  }

  lemma EmptyPieces()
    ensures Pieces("") == [""] && Written([]) == ""
  {
  }

  /** Every closed code block of a document is kept, in order, with its inner lines as they were. */
  lemma NormalizedKeepsCode(t: string)
    ensures OuterAlike(StripBlocks(AllFencesTrimmed(Blocks(t))), Blocks(Normalized(t)))
  {
    hide OuterAlike, BlocksFrom, NormalFrom, Lines, Pieces, Written, Trim, StripBlocks;
    var kept := NormalFrom(Lines(t), false);
    LinesOneLine(t);
    NormalIsKept(Lines(t), false);
    NormalBlocks(Lines(t), None);
    PiecesOfWritten(kept);
    BlocksTogether(kept, [""], None);
    EmptyLineAfter(OpenAfter(kept, None));
    assert BlocksFrom(kept, None) + [] == BlocksFrom(kept, None);
    var w := Written(kept);
    TrimAlike(w);
    StripAlike(BlocksFrom(Pieces(w), None), BlocksFrom(Pieces(Trim(w)), None));
    BlocksOfText(Trim(w));
    AlikeTrans(StripBlocks(BlocksFrom(kept, None)), StripBlocks(BlocksFrom(Pieces(Trim(w)), None)), Blocks(Trim(w)));
  }
}
