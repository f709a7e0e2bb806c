/**
 Splitting Markdown into prose and fenced code, and joining the pieces again: the code
 blocks of a card survive the compression of the prose around them.
 */
module Markdown {
  import opened Options
  import opened Text

  datatype Segment = Prose(text: string) | Code(text: string)

  // ---------- lines ----------

  function JoinLines(ls: seq<string>): string {
    if ls == [] then "" else if |ls| == 1 then ls[0] else ls[0] + "\n" + JoinLines(ls[1..])
  }

  /** The pieces between newlines: one more than there are newlines. */
  function Pieces(t: string): (r: seq<string>)
    ensures r != []
  {
    if t == "" then [""]
    else if t[0] == '\n' then [""] + Pieces(t[1..])
    else
      var rest := Pieces(t[1..]);
      [[t[0]] + rest[0]] + rest[1..]
  }

  function StripCr(l: string): string {
    if l != "" && l[|l| - 1] == '\r' then l[..|l| - 1] else l
  }

  function StripEach(ls: seq<string>): (r: seq<string>)
    ensures |r| == |ls| && forall k :: 0 <= k < |ls| ==> r[k] == StripCr(ls[k])
  {
    seq(|ls|, k requires 0 <= k < |ls| => StripCr(ls[k]))
  }

  /** The lines of a text: a line ends at a newline, with or without a carriage return before it, and an empty last piece is no line. */
  function Lines(t: string): seq<string> {
    var ps := Pieces(t);
    var last := ps[|ps| - 1];
    StripEach(ps[..|ps| - 1]) + if last == "" then [] else [last]
  }

  predicate OneLine(l: string) {
    '\n' !in l
  }

  predicate EachOneLine(ls: seq<string>) {
    forall k :: 0 <= k < |ls| ==> OneLine(ls[k])
  }

  lemma {:induction false} PiecesOneLine(t: string)
    ensures EachOneLine(Pieces(t))
  {
    if t != "" {
      PiecesOneLine(t[1..]);
      var rest := Pieces(t[1..]);
      assert OneLine(rest[0]);
    }
  }

  lemma LinesOneLine(t: string)
    ensures EachOneLine(Lines(t))
  {
    PiecesOneLine(t);
    var ps := Pieces(t);
    forall k | 0 <= k < |Lines(t)|
      ensures OneLine(Lines(t)[k])
    {
      assert OneLine(ps[k]);
    }
  }

  /** The last piece of the first text and the first piece of the second become one. */
  function Glued(p: seq<string>, q: seq<string>): seq<string>
    requires p != [] && q != []
  {
    p[..|p| - 1] + [p[|p| - 1] + q[0]] + q[1..]
  }

  lemma GluedAfter(x: string, p: seq<string>, q: seq<string>)
    requires p != [] && q != []
    ensures Glued([x] + p, q) == [x] + Glued(p, q)
  {
    assert ([x] + p)[..|p|] == [x] + p[..|p| - 1];
  }

  lemma GluedWithin(c: char, p: seq<string>, q: seq<string>)
    requires p != [] && q != []
    ensures Glued([[c] + p[0]] + p[1..], q) == [[c] + Glued(p, q)[0]] + Glued(p, q)[1..]
  {
    var p' := [[c] + p[0]] + p[1..];
    if |p| == 1 {
      assert [c] + p[0] + q[0] == [c] + (p[0] + q[0]);
    } else {
      assert p'[..|p| - 1] == [[c] + p[0]] + p[1..|p| - 1];
      assert p[..|p| - 1] == [p[0]] + p[1..|p| - 1];
    }
  }

  lemma {:induction false} PiecesTogether(a: string, b: string)
    ensures Pieces(a + b) == Glued(Pieces(a), Pieces(b))
  {
    var q := Pieces(b);
    if a == "" {
      assert a + b == b;
      assert "" + q[0] == q[0];
    } else {
      hide Glued;
      assert (a + b)[1..] == a[1..] + b && (a + b)[0] == a[0];
      PiecesTogether(a[1..], b);
      if a[0] == '\n' {
        GluedAfter("", Pieces(a[1..]), q);
      } else {
        GluedWithin(a[0], Pieces(a[1..]), q);
      }
    }
  }

  lemma PiecesOfLine(l: string)
    requires OneLine(l)
    ensures Pieces(l) == [l]
  {
    if l != "" {
      assert l[0] in l;
      assert OneLine(l[1..]);
      PiecesOfLine(l[1..]);
      assert [l[0]] + l[1..] == l;
    }
  }

  /** A newline between two texts separates their pieces. */
  lemma PiecesApart(a: string, b: string)
    ensures Pieces(a + "\n" + b) == Pieces(a) + Pieces(b)
  {
    hide Pieces;
    var p, q := Pieces(a), Pieces(b);
    NewlinePieces();
    PiecesTogether(a, "\n");
    assert p[|p| - 1] + "" == p[|p| - 1];
    assert Pieces(a + "\n") == p + [""];
    PiecesTogether(a + "\n", b);
    assert "" + q[0] == q[0];
    assert (p + [""])[..|p|] == p;
  }

  lemma NewlinePieces()
    ensures Pieces("\n") == ["", ""]
  {
    assert "\n"[1..] == "";
  }

  lemma {:induction false} PiecesOfJoined(ls: seq<string>)
    requires ls != [] && EachOneLine(ls)
    ensures Pieces(JoinLines(ls)) == ls
  {
    PiecesOfLine(ls[0]);
    if |ls| > 1 {
      PiecesOfJoined(ls[1..]);
      PiecesApart(ls[0], JoinLines(ls[1..]));
    }
  }

  // ---------- fences ----------

  predicate Fence(l: string) {
    StartsWith(Trim(l), "```")
  }

  lemma TrimParts(t: string) returns (a: string, z: string)
    ensures Blank(a) && Blank(z) && t == a + Trim(t) + z
    ensures Trim(t) != "" ==> !IsSpace(Trim(t)[0]) && !IsSpace(Trim(t)[|Trim(t)| - 1])
  {
    hide TrimStart, TrimEnd;
    TrimStartHolds(t);
    TrimEndHolds(TrimStart(t));
    var s := TrimStart(t);
    var m := TrimEnd(s);
    a := t[..|t| - |s|];
    z := s[|m|..];
    assert m != "" ==> m[0] == s[0];
  }

  /** Blanks around a line do not change what trimming leaves. */
  lemma TrimAround(a: string, l: string, z: string)
    requires Blank(a) && Blank(z)
    ensures Trim(a + l + z) == Trim(l)
  {
    hide Trim;
    var b, y := TrimParts(l);
    var m := Trim(l);
    assert Blank(a + b) && Blank(y + z);
    TrimUnique(a + b, m, y + z);
    assert a + l + z == (a + b) + m + (y + z);
  }

  lemma TrimStripCr(l: string)
    ensures Trim(StripCr(l)) == Trim(l)
  {
    hide Trim;
    var s := StripCr(l);
    if s != l {
      TrimAround("", s, "\r");
      assert "" + s + "\r" == l;
    }
  }

  // ---------- what lines and fences are ----------

  /** The text is the lines in order, each with its line break, and one more without a break if the text does not end in one. */
  ghost predicate Reads(t: string, lines: seq<string>)
    decreases |lines|
  {
    if lines == [] then t == ""
    else
      && OneLine(lines[0])
      && ((|lines| == 1 && t == lines[0] && t != "")
          || (exists rest :: Broken(t, lines[0], rest) && Reads(rest, lines[1..])))
  }

  /** A line, its break and the rest. */
  predicate Broken(t: string, l: string, rest: string) {
    t == l + "\r\n" + rest || (t == l + "\n" + rest && !EndsInReturn(l))
  }

  predicate EndsInReturn(l: string) {
    l != "" && l[|l| - 1] == '\r'
  }

  lemma {:induction false} LinesRead(t: string)
    ensures Reads(t, Lines(t))
    decreases |t|
  {
    hide Pieces, Lines, StripEach;
    if i :| 0 <= i < |t| && t[i] == '\n' && '\n' !in t[..i] {
      var l, rest := t[..i], t[i + 1..];
      assert t == l + "\n" + rest;
      PiecesOfLine(l);
      PiecesApart(l, rest);
      LinesRead(rest);
      LinesAfter(l, rest);
      assert StripCr(l) != l ==> l == StripCr(l) + "\r" && t == StripCr(l) + "\r\n" + rest;
      assert Broken(t, StripCr(l), rest);
      assert Lines(t)[1..] == Lines(rest);
    } else {
      assert OneLine(t) by {
        if k :| 0 <= k < |t| && t[k] == '\n' {
          FirstBreak(t, k);
        }
      }
      PiecesOfLine(t);
      OneOrNone(t);
    }
  }

  lemma {:induction false} FirstBreak(t: string, k: nat)
    requires k < |t| && t[k] == '\n'
    ensures exists i :: 0 <= i <= k && t[i] == '\n' && '\n' !in t[..i]
    decreases k
  {
    if j :| 0 <= j < k && t[j] == '\n' {
      FirstBreak(t, j);
    }
  }

  lemma LinesAfter(l: string, rest: string)
    requires OneLine(l)
    ensures Lines(l + "\n" + rest) == [StripCr(l)] + Lines(rest)
  {
    hide Pieces, StripCr;
    PiecesOfLine(l);
    PiecesApart(l, rest);
    var q := Pieces(rest);
    var p := [l] + q;
    assert p[..|p| - 1] == [l] + q[..|q| - 1];
    assert StripEach([l] + q[..|q| - 1]) == [StripCr(l)] + StripEach(q[..|q| - 1]);
  }

  lemma OneOrNone(t: string)
    requires Pieces(t) == [t]
    ensures Lines(t) == if t == "" then [] else [t]
  {
    hide Pieces;
    assert StripEach([]) == [];
  }

  /** A fence is three backticks behind nothing but blanks. */
  lemma FenceIs(l: string)
    ensures Fence(l) <==> exists a, z :: Blank(a) && l == a + "```" + z
  {
    hide Trim, TrimStart, TrimEnd, IsSpace, Blank;
    if Fence(l) {
      var a, z := TrimParts(l);
      assert l == a + "```" + (Trim(l)[3..] + z);
    }
    if a, z :| Blank(a) && l == a + "```" + z {
      TicksTrim(a, z);
    }
  }

  lemma TicksTrim(a: string, z: string)
    requires Blank(a)
    ensures StartsWith(Trim(a + "```" + z), "```")
  {
    hide TrimStart, TrimEnd, Blank, IsSpace;
    var t := "```" + z;
    assert !IsSpace('`') by { TickIsNoSpace(); }
    TrimStartAfter(a, t);
    assert a + "```" + z == a + t;
    TrimEndHolds(t);
    var m := TrimEnd(t);
    assert t[|m|..|t|] == t[|m|..];
    assert |m| < 3 ==> IsSpace(t[|m|]) by {
      if |m| < 3 {
        BlankAt(t, |m|, |t|, |m|);
      }
    }
    assert forall k :: 0 <= k < 3 ==> t[k] == '`';
    assert m[..3] == t[..3] == "```";
  }

  lemma TickIsNoSpace()
    ensures !IsSpace('`')
  {
  }

  // ---------- splitting ----------

  /** Lines of the segment being read, outside or inside a code block. */
  datatype Open = Outside(lines: seq<string>) | Inside(lines: seq<string>)

  function Flush(lines: seq<string>): seq<Segment> {
    if lines == [] then [] else [Prose(JoinLines(lines))]
  }

  /** The segments still to come. An unclosed block becomes prose. */
  function SplitFrom(lines: seq<string>, s: Open): seq<Segment> {
    if lines == [] then Flush(s.lines)
    else if Fence(lines[0]) then
      match s
      case Outside(text) => Flush(text) + SplitFrom(lines[1..], Inside([lines[0]]))
      case Inside(code) => [Code(JoinLines(code + [lines[0]]))] + SplitFrom(lines[1..], Outside([]))
    else SplitFrom(lines[1..], s.(lines := s.lines + [lines[0]]))
  }

  function Split(content: string): seq<Segment> {
    SplitFrom(Lines(content), Outside([]))
  }

  lemma SplitTurn(lines: seq<string>, i: nat, s: Open)
    requires i < |lines|
    ensures SplitFrom(lines[i..], s) ==
            if !Fence(lines[i]) then SplitFrom(lines[i + 1..], s.(lines := s.lines + [lines[i]]))
            else if s.Outside? then Flush(s.lines) + SplitFrom(lines[i + 1..], Inside([lines[i]]))
            else [Code(JoinLines(s.lines + [lines[i]]))] + SplitFrom(lines[i + 1..], Outside([]))
  {
    hide Fence, JoinLines, Flush;
    assert lines[i..][0] == lines[i] && lines[i..][1..] == lines[i + 1..];
  }

  lemma SplitEnd(s: Open)
    ensures SplitFrom([], s) == Flush(s.lines)
  {
  }

  method SplitMarkdownSegments(content: string) returns (segments: seq<Segment>)
    ensures segments == Split(content)
  {
    hide Lines, Fence, JoinLines, Flush;
    segments := [];
    var inCode := false;
    var codeLines: seq<string>, textLines: seq<string> := [], [];
    var lines := Lines(content);
    assert lines[0..] == lines;
    var i := 0;
    while i < |lines|
      invariant i <= |lines|
      invariant if inCode then textLines == [] else codeLines == []
      invariant segments + SplitFrom(lines[i..], if inCode then Inside(codeLines) else Outside(textLines))
             == SplitFrom(lines, Outside([]))
    {
      var line := lines[i];
      SplitTurn(lines, i, if inCode then Inside(codeLines) else Outside(textLines));
      if Fence(line) {
        if inCode {
          codeLines := codeLines + [line];
          segments := segments + [Code(JoinLines(codeLines))];
          codeLines := [];
          inCode := false;
        } else {
          segments := segments + Flush(textLines);
          textLines := [];
          inCode := true;
          codeLines := [line];
        }
      } else if inCode {
        codeLines := codeLines + [line];
      } else {
        textLines := textLines + [line];
      }
      i := i + 1;
    }
    assert lines[i..] == [];
    if inCode {
      assert textLines + codeLines == codeLines;
      textLines := textLines + codeLines;
    }
    segments := segments + Flush(textLines);
  }

  // ---------- nothing is lost ----------

  /** All pieces of all segments, in order. */
  function AllPieces(segments: seq<Segment>): seq<string> {
    if segments == [] then [] else Pieces(segments[0].text) + AllPieces(segments[1..])
  }

  lemma {:induction false} SplitFromKeepsLines(lines: seq<string>, s: Open)
    requires EachOneLine(lines) && EachOneLine(s.lines)
    ensures AllPieces(SplitFrom(lines, s)) == s.lines + lines
    decreases |lines|
  {
    hide Fence, JoinLines, Pieces, SplitFrom, Flush, OneLine, AllPieces, Trim, TrimStart, TrimEnd;
    if lines == [] {
      SplitEnd(s);
      FlushKeepsLines(s.lines, []);
      NoPieces();
      assert Flush(s.lines) + [] == Flush(s.lines);
    } else {
      var l, rest := lines[0], lines[1..];
      assert lines[0..] == lines;
      SplitTurn(lines, 0, s);
      assert OneLine(l) && EachOneLine(rest);
      if !Fence(l) {
        SplitFromKeepsLines(rest, s.(lines := s.lines + [l]));
      } else if s.Outside? {
        SplitFromKeepsLines(rest, Inside([l]));
        FlushKeepsLines(s.lines, SplitFrom(rest, Inside([l])));
      } else {
        SplitFromKeepsLines(rest, Outside([]));
        PiecesOfJoined(s.lines + [l]);
        FirstPieces(Code(JoinLines(s.lines + [l])), SplitFrom(rest, Outside([])));
      }
    }
  }

  lemma NoPieces()
    ensures AllPieces([]) == []
  {
  }

  lemma FirstPieces(x: Segment, rest: seq<Segment>)
    ensures AllPieces([x] + rest) == Pieces(x.text) + AllPieces(rest)
  {
    assert ([x] + rest)[1..] == rest;
  }

  lemma FlushKeepsLines(text: seq<string>, rest: seq<Segment>)
    requires EachOneLine(text)
    ensures AllPieces(Flush(text) + rest) == text + AllPieces(rest)
  {
    hide JoinLines, Pieces;
    if text == [] {
      assert Flush(text) + rest == rest;
    } else {
      PiecesOfJoined(text);
      FirstPieces(Prose(JoinLines(text)), rest);
    }
  }

  /** The lines of the segments, put together, are exactly the lines of the content, unclosed fences included. */
  lemma SplitKeepsEveryLine(content: string)
    ensures AllPieces(Split(content)) == Lines(content)
  {
    hide Lines;
    LinesOneLine(content);
    SplitFromKeepsLines(Lines(content), Outside([]));
    assert [] + Lines(content) == Lines(content);
  }

  // ---------- code blocks ----------

  type Block = seq<string>

  /** The closed blocks among the lines; open holds the lines of a block not closed yet. */
  function BlocksFrom(lines: seq<string>, open: Option<Block>): seq<Block> {
    if lines == [] then []
    else if Fence(lines[0]) then
      match open
      case None => BlocksFrom(lines[1..], Some([lines[0]]))
      case Some(b) => [b + [lines[0]]] + BlocksFrom(lines[1..], None)
    else BlocksFrom(lines[1..], if open.Some? then Some(open.value + [lines[0]]) else None)
  }

  function OpenAfter(lines: seq<string>, open: Option<Block>): Option<Block> {
    if lines == [] then open
    else if Fence(lines[0]) then OpenAfter(lines[1..], if open.Some? then None else Some([lines[0]]))
    else OpenAfter(lines[1..], if open.Some? then Some(open.value + [lines[0]]) else None)
  }

  function Blocks(content: string): seq<Block> {
    BlocksFrom(Lines(content), None)
  }

  function CodeTexts(segments: seq<Segment>): seq<string> {
    if segments == [] then []
    else (if segments[0].Code? then [segments[0].text] else []) + CodeTexts(segments[1..])
  }

  function JoinBlocks(blocks: seq<Block>): seq<string> {
    if blocks == [] then [] else [JoinLines(blocks[0])] + JoinBlocks(blocks[1..])
  }

  /** The code segments are the closed blocks, in order. */
  lemma {:induction false} CodeSegmentsAreBlocks(lines: seq<string>, s: Open)
    ensures CodeTexts(SplitFrom(lines, s)) == JoinBlocks(BlocksFrom(lines, if s.Inside? then Some(s.lines) else None))
    decreases |lines|
  {
    hide Fence, JoinLines;
    if lines != [] {
      var l, rest := lines[0], lines[1..];
      if !Fence(l) {
        CodeSegmentsAreBlocks(rest, s.(lines := s.lines + [l]));
      } else if s.Outside? {
        CodeSegmentsAreBlocks(rest, Inside([l]));
        var tail := SplitFrom(rest, Inside([l]));
        if s.lines == [] {
          assert Flush(s.lines) + tail == tail;
        } else {
          assert ([Prose(JoinLines(s.lines))] + tail)[1..] == tail;
        }
      } else {
        CodeSegmentsAreBlocks(rest, Outside([]));
        var b, tail := s.lines + [l], SplitFrom(rest, Outside([]));
        assert ([Code(JoinLines(b))] + tail)[1..] == tail;
        assert ([b] + BlocksFrom(rest, None))[1..] == BlocksFrom(rest, None);
      }
    }
  }

  /** A block starts and ends with a fence and has none in between. */
  predicate IsBlock(b: Block) {
    && |b| >= 2 && EachOneLine(b) && Fence(b[0]) && Fence(b[|b| - 1])
    && forall k :: 0 < k < |b| - 1 ==> !Fence(b[k])
  }

  predicate IsOpening(b: Block) {
    && |b| >= 1 && EachOneLine(b) && Fence(b[0])
    && forall k :: 0 < k < |b| ==> !Fence(b[k])
  }

  lemma {:induction false} BlocksAreBlocks(lines: seq<string>, open: Option<Block>)
    requires EachOneLine(lines) && (open.Some? ==> IsOpening(open.value))
    ensures forall k :: 0 <= k < |BlocksFrom(lines, open)| ==> IsBlock(BlocksFrom(lines, open)[k])
    decreases |lines|
  {
    hide Fence, OneLine;
    if lines != [] {
      var l, rest := lines[0], lines[1..];
      assert EachOneLine(rest);
      if Fence(l) {
        BlocksAreBlocks(rest, if open.Some? then None else Some([l]));
        if open.Some? {
          assert IsBlock(open.value + [l]);
        }
      } else {
        BlocksAreBlocks(rest, if open.Some? then Some(open.value + [l]) else None);
      }
    }
  }

  lemma {:induction false} BlocksTogether(a: seq<string>, b: seq<string>, open: Option<Block>)
    ensures BlocksFrom(a + b, open) == BlocksFrom(a, open) + BlocksFrom(b, OpenAfter(a, open))
    ensures OpenAfter(a + b, open) == OpenAfter(b, OpenAfter(a, open))
    decreases |a|
  {
    hide Fence;
    if a == [] {
      assert a + b == b;
    } else {
      assert (a + b)[1..] == a[1..] + b;
      var next := if Fence(a[0]) then (if open.Some? then None else Some([a[0]]))
                  else if open.Some? then Some(open.value + [a[0]]) else None;
      BlocksTogether(a[1..], b, next);
    }
  }

  predicate FenceFree(lines: seq<string>) {
    forall k :: 0 <= k < |lines| ==> !Fence(lines[k])
  }

  lemma {:induction false} NoBlocks(lines: seq<string>)
    requires FenceFree(lines)
    ensures BlocksFrom(lines, None) == [] && OpenAfter(lines, None) == None
    decreases |lines|
  {
    hide Fence;
    if lines != [] {
      NoBlocks(lines[1..]);
    }
  }

  lemma {:induction false} OpeningStaysOpen(b: Block, c: Block)
    requires FenceFree(c)
    ensures BlocksFrom(c, Some(b)) == [] && OpenAfter(c, Some(b)) == Some(b + c)
    decreases |c|
  {
    hide Fence;
    if c == [] {
      assert b + c == b;
    } else {
      OpeningStaysOpen(b + [c[0]], c[1..]);
      assert b + [c[0]] + c[1..] == b + c;
    }
  }

  /** The lines of one block read as that block. */
  lemma OneBlock(b: Block)
    requires IsBlock(b)
    ensures BlocksFrom(b, None) == [b] && OpenAfter(b, None) == None
  {
    hide Fence, OneLine;
    var inner, last := b[1..|b| - 1], b[|b| - 1];
    assert b == [b[0]] + (inner + [last]);
    assert ([b[0]] + (inner + [last]))[1..] == inner + [last];
    OpeningStaysOpen([b[0]], inner);
    BlocksTogether(inner, [last], Some([b[0]]));
    assert [last][1..] == [];
    assert [b[0]] + inner + [last] == b;
    assert BlocksFrom([last], Some([b[0]] + inner)) == [b];
  }

  // ---------- joining ----------

  /** One turn of the join: prose that is blank is dropped. */
  function Joined(output: string, x: Segment): string {
    if x.Prose? && Trim(x.text) == "" then output
    else if output != "" && output[|output| - 1] != '\n' then output + "\n" + x.text
    else output + x.text
  }

  function JoinFrom(output: string, segments: seq<Segment>): string
    decreases |segments|
  {
    if segments == [] then output else JoinFrom(Joined(output, segments[0]), segments[1..])
  }

  function Join(segments: seq<Segment>): string {
    Trim(JoinFrom("", segments))
  }

  method JoinMarkdownSegments(segments: seq<Segment>) returns (r: string)
    ensures r == Join(segments)
  {
    hide Joined, Trim;
    var output := "";
    assert segments[0..] == segments;
    for i := 0 to |segments|
      invariant JoinFrom(output, segments[i..]) == JoinFrom("", segments)
    {
      assert segments[i..][0] == segments[i] && segments[i..][1..] == segments[i + 1..];
      output := Joined(output, segments[i]);
    }
    assert segments[|segments|..] == [];
    r := Trim(output);
  }

  // ---------- what the outer trim may change ----------

  /** The blocks of two texts that differ in outer blanks at most: only the first opening and the last closing line may differ, in blanks. */
  ghost predicate OuterAlike(a: seq<Block>, b: seq<Block>) {
    && |a| == |b|
    && forall i :: 0 <= i < |a| ==> BlockAlike(a[i], b[i], i == 0, i == |a| - 1)
  }

  ghost predicate BlockAlike(a: Block, b: Block, first: bool, last: bool) {
    && |a| == |b|
    && forall k :: 0 <= k < |a| ==> LineAlike(a[k], b[k], first && k == 0, last && k == |a| - 1)
  }

  ghost predicate LineAlike(l: string, m: string, first: bool, last: bool) {
    Trim(l) == Trim(m) && (!first && !last ==> l == m)
  }

  lemma AlikeSelf(a: seq<Block>)
    ensures OuterAlike(a, a)
  {
  }

  lemma BlockAlikeTrans(a: Block, b: Block, c: Block, first: bool, last: bool)
    requires BlockAlike(a, b, first, last) && BlockAlike(b, c, first, last)
    ensures BlockAlike(a, c, first, last)
  {
    forall k | 0 <= k < |a|
      ensures LineAlike(a[k], c[k], first && k == 0, last && k == |a| - 1)
    {
      assert LineAlike(a[k], b[k], first && k == 0, last && k == |a| - 1);
      assert LineAlike(b[k], c[k], first && k == 0, last && k == |a| - 1);
    }
  }

  lemma AlikeTrans(a: seq<Block>, b: seq<Block>, c: seq<Block>)
    requires OuterAlike(a, b) && OuterAlike(b, c)
    ensures OuterAlike(a, c)
  {
    hide BlockAlike;
    forall i | 0 <= i < |a|
      ensures BlockAlike(a[i], c[i], i == 0, i == |a| - 1)
    {
      BlockAlikeTrans(a[i], b[i], c[i], i == 0, i == |a| - 1);
    }
  }

  lemma BlocksAlikeButFirst(b: Block, c: Block, last: bool)
    requires |b| == |c| > 0 && Trim(b[0]) == Trim(c[0]) && b[1..] == c[1..]
    ensures BlockAlike(b, c, true, last)
  {
    hide Trim;
    assert forall k :: 1 <= k < |b| ==> b[k] == b[1..][k - 1] && c[k] == c[1..][k - 1];
  }

  /** Leading blanks of a line: a block that starts with it starts alike. */
  lemma {:induction false} OpeningAlike(lines: seq<string>, b: Block, c: Block)
    requires |b| == |c| > 0 && Trim(b[0]) == Trim(c[0]) && b[1..] == c[1..]
    ensures OuterAlike(BlocksFrom(lines, Some(b)), BlocksFrom(lines, Some(c)))
    decreases |lines|
  {
    hide Fence, BlocksFrom, BlockAlike, OuterAlike, Trim;
    if lines == [] {
      NoneLeft(Some(b));
      NoneLeft(Some(c));
      AlikeSelf([]);
    } else {
      var l, rest := lines[0], lines[1..];
      var b', c' := b + [l], c + [l];
      assert b'[1..] == b[1..] + [l] && c'[1..] == c[1..] + [l];
      BlocksTurn(lines, Some(b));
      BlocksTurn(lines, Some(c));
      if Fence(l) {
        BlocksAlikeButFirst(b', c', BlocksFrom(rest, None) == []);
        FirstAlike(b', c', BlocksFrom(rest, None));
      } else {
        OpeningAlike(rest, b', c');
      }
    }
  }

  lemma FirstAlike(b: Block, c: Block, rest: seq<Block>)
    requires BlockAlike(b, c, true, rest == [])
    ensures OuterAlike([b] + rest, [c] + rest)
  {
    hide LineAlike;
    forall i | 1 <= i < |rest| + 1
      ensures BlockAlike(([b] + rest)[i], ([c] + rest)[i], i == 0, i == |rest|)
    {
      BlockAlikeSelf(rest[i - 1], i == |rest|);
    }
  }

  lemma BlockAlikeSelf(b: Block, last: bool)
    ensures BlockAlike(b, b, false, last)
  {
  }

  /** A blank in front of a text. */
  lemma TrimFrontAlike(x: char, t: string)
    requires IsSpace(x)
    ensures OuterAlike(BlocksFrom(Pieces([x] + t), None), BlocksFrom(Pieces(t), None))
  {
    hide Fence, OuterAlike, BlocksFrom;
    var p := Pieces(t);
    assert ([x] + t)[1..] == t;
    if x == '\n' {
      BlankLine();
      BlocksTurn([""] + p, None);
      assert ([""] + p)[1..] == p;
      AlikeSelf(BlocksFrom(p, None));
    } else {
      var h := [x] + p[0];
      TrimAround([x], p[0], "");
      assert [x] + p[0] + "" == h;
      BlocksTurn(p, None);
      BlocksTurn([h] + p[1..], None);
      assert ([h] + p[1..])[1..] == p[1..];
      FenceByTrim(h, p[0]);
      if Fence(h) {
        OpeningAlike(p[1..], [h], [p[0]]);
      } else {
        AlikeSelf(BlocksFrom(p[1..], None));
      }
    }
  }

  lemma BlocksTurn(lines: seq<string>, open: Option<Block>)
    requires lines != []
    ensures BlocksFrom(lines, open) ==
            if Fence(lines[0]) then
              (if open.Some? then [open.value + [lines[0]]] + BlocksFrom(lines[1..], None) else BlocksFrom(lines[1..], Some([lines[0]])))
            else BlocksFrom(lines[1..], if open.Some? then Some(open.value + [lines[0]]) else None)
  {
    hide Fence;
  }

  lemma FenceByTrim(l: string, m: string)
    requires Trim(l) == Trim(m)
    ensures Fence(l) == Fence(m)
  {
    hide Trim, StartsWith;
  }

  lemma BlankLine()
    ensures !Fence("")
  {
  }

  lemma {:induction false} TrimStartAlike(t: string)
    ensures OuterAlike(BlocksFrom(Pieces(t), None), BlocksFrom(Pieces(TrimStart(t)), None))
    decreases |t|
  {
    hide OuterAlike, BlocksFrom, Pieces;
    var b := BlocksFrom(Pieces(t), None);
    if t != "" && IsSpace(t[0]) {
      assert [t[0]] + t[1..] == t;
      TrimFrontAlike(t[0], t[1..]);
      TrimStartAlike(t[1..]);
      AlikeTrans(b, BlocksFrom(Pieces(t[1..]), None), BlocksFrom(Pieces(TrimStart(t)), None));
    } else {
      AlikeSelf(b);
    }
  }

  /** The last line loses or gains outer blanks: at most the closing line of the last block changes. */
  lemma LastLineAlike(lines: seq<string>, l: string, m: string)
    requires Trim(l) == Trim(m)
    ensures OuterAlike(BlocksFrom(lines + [l], None), BlocksFrom(lines + [m], None))
  {
    hide Fence;
    var open := OpenAfter(lines, None);
    var before := BlocksFrom(lines, None);
    BlocksTogether(lines, [l], None);
    BlocksTogether(lines, [m], None);
    FenceByTrim(l, m);
    OneLineBlocks(l, open);
    OneLineBlocks(m, open);
    if open.Some? && Fence(l) {
      LastAlike(before, open.value, l, m);
    } else {
      AlikeSelf(before + BlocksFrom([l], open));
    }
  }

  lemma OneLineBlocks(l: string, open: Option<Block>)
    ensures BlocksFrom([l], open) == if open.Some? && Fence(l) then [open.value + [l]] else []
  {
    hide Fence;
    assert [l][1..] == [];
    assert BlocksFrom([], None) == [];
  }

  lemma LastAlike(before: seq<Block>, b: Block, l: string, m: string)
    requires Trim(l) == Trim(m)
    ensures OuterAlike(before + [b + [l]], before + [b + [m]])
  {
    var x, y := before + [b + [l]], before + [b + [m]];
    forall i | 0 <= i < |x|
      ensures BlockAlike(x[i], y[i], i == 0, i == |x| - 1)
    {
    }
  }

  /** A blank at the end of a text. */
  lemma TrimBackAlike(t: string, x: char)
    requires IsSpace(x)
    ensures OuterAlike(BlocksFrom(Pieces(t + [x]), None), BlocksFrom(Pieces(t), None))
  {
    hide OuterAlike, BlocksFrom, Pieces, Fence;
    var p := Pieces(t);
    var front, last := p[..|p| - 1], p[|p| - 1];
    assert p == front + [last];
    if x == '\n' {
      PiecesApart(t, "");
      assert t + "\n" + "" == t + [x];
      assert Pieces("") == [""] by { PiecesOfLine(""); }
      BlocksTogether(p, [""], None);
      OneLineBlocks("", OpenAfter(p, None));
      BlankLine();
      assert BlocksFrom(p, None) + [] == BlocksFrom(p, None);
      AlikeSelf(BlocksFrom(p, None));
    } else {
      PiecesTogether(t, [x]);
      PiecesOfLine([x]);
      TrimAround("", last, [x]);
      assert "" + last + [x] == last + [x];
      LastLineAlike(front, last + [x], last);
      assert Glued(p, [[x]]) == front + [last + [x]];
    }
  }

  lemma {:induction false} TrimEndAlike(t: string)
    ensures OuterAlike(BlocksFrom(Pieces(t), None), BlocksFrom(Pieces(TrimEnd(t)), None))
    decreases |t|
  {
    hide OuterAlike, BlocksFrom, Pieces;
    var b := BlocksFrom(Pieces(t), None);
    var n := |t| - 1;
    if t != "" && IsSpace(t[n]) {
      assert t[..n] + [t[n]] == t;
      TrimBackAlike(t[..n], t[n]);
      TrimEndAlike(t[..n]);
      AlikeTrans(b, BlocksFrom(Pieces(t[..n]), None), BlocksFrom(Pieces(TrimEnd(t)), None));
    } else {
      AlikeSelf(b);
    }
  }

  lemma TrimAlike(t: string)
    ensures OuterAlike(BlocksFrom(Pieces(t), None), BlocksFrom(Pieces(Trim(t)), None))
  {
    hide OuterAlike, BlocksFrom, Pieces, TrimStart, TrimEnd;
    TrimStartAlike(t);
    TrimEndAlike(TrimStart(t));
    AlikeTrans(BlocksFrom(Pieces(t), None), BlocksFrom(Pieces(TrimStart(t)), None), BlocksFrom(Pieces(Trim(t)), None));
  }

  // ---------- carriage returns ----------

  function StripBlocks(bs: seq<Block>): (r: seq<Block>)
    ensures |r| == |bs| && forall i :: 0 <= i < |bs| ==> r[i] == StripEach(bs[i])
  {
    seq(|bs|, i requires 0 <= i < |bs| => StripEach(bs[i]))
  }

  lemma StripMore(b: Block, l: string)
    ensures StripEach(b + [l]) == StripEach(b) + [StripCr(l)]
  {
  }

  function StripOpen(open: Option<Block>): Option<Block> {
    if open.Some? then Some(StripEach(open.value)) else None
  }

  lemma StripFirst(b: Block, rest: seq<Block>)
    ensures StripBlocks([b] + rest) == [StripEach(b)] + StripBlocks(rest)
  {
  }

  lemma StripTurn(lines: seq<string>)
    requires lines != []
    ensures StripEach(lines) != [] && StripEach(lines)[0] == StripCr(lines[0]) && StripEach(lines)[1..] == StripEach(lines[1..])
    ensures StripEach([lines[0]]) == [StripCr(lines[0])]
    ensures Fence(StripCr(lines[0])) == Fence(lines[0])
  {
    hide StripCr, Fence;
    TrimStripCr(lines[0]);
    FenceByTrim(StripCr(lines[0]), lines[0]);
  }

  lemma {:induction false} BlocksOfStripped(lines: seq<string>, open: Option<Block>)
    ensures BlocksFrom(StripEach(lines), StripOpen(open)) == StripBlocks(BlocksFrom(lines, open))
    decreases |lines|
  {
    hide Fence, StripCr, BlocksFrom, StripBlocks, StripEach;
    if lines == [] {
      NoneLeft(open);
      NoneLeft(StripOpen(open));
    } else {
      var l, rest := lines[0], lines[1..];
      StripTurn(lines);
      BlocksTurn(lines, open);
      BlocksTurn(StripEach(lines), StripOpen(open));
      if open.None? {
        BlocksOfStripped(rest, if Fence(l) then Some([l]) else None);
      } else {
        StripMore(open.value, l);
        if Fence(l) {
          BlocksOfStripped(rest, None);
          StripFirst(open.value + [l], BlocksFrom(rest, None));
        } else {
          BlocksOfStripped(rest, Some(open.value + [l]));
        }
      }
    }
  }

  lemma NoneLeft(open: Option<Block>)
    ensures BlocksFrom([], open) == []
  {
  }

  lemma StripAlike(a: seq<Block>, b: seq<Block>)
    requires OuterAlike(a, b)
    ensures OuterAlike(StripBlocks(a), StripBlocks(b))
  {
    forall i | 0 <= i < |a|
      ensures BlockAlike(StripEach(a[i]), StripEach(b[i]), i == 0, i == |a| - 1)
    {
      assert BlockAlike(a[i], b[i], i == 0, i == |a| - 1);
      forall k | 0 <= k < |a[i]|
        ensures LineAlike(StripCr(a[i][k]), StripCr(b[i][k]), i == 0 && k == 0, i == |a| - 1 && k == |a[i]| - 1)
      {
        assert LineAlike(a[i][k], b[i][k], i == 0 && k == 0, i == |a| - 1 && k == |a[i]| - 1);
        TrimStripCr(a[i][k]);
        TrimStripCr(b[i][k]);
      }
    }
  }

  /** The blocks of a text are those of its pieces without their carriage returns, but for the last line's. */
  lemma BlocksOfText(t: string)
    ensures OuterAlike(StripBlocks(BlocksFrom(Pieces(t), None)), Blocks(t))
  {
    hide OuterAlike, BlocksFrom, Pieces, StripCr, Fence, StripEach, StripBlocks, Lines, Trim, TrimStart, TrimEnd, OpenAfter;
    var p := Pieces(t);
    var front, last := StripEach(p[..|p| - 1]), p[|p| - 1];
    LinesOfPieces(t);
    BlocksOfStripped(p, None);
    TrimStripCr(last);
    if last == "" {
      BlocksTogether(front, [StripCr("")], None);
      BlankStripped();
      OneLineBlocks("", OpenAfter(front, None));
      BlankLine();
      assert BlocksFrom(front, None) + [] == BlocksFrom(front, None);
      AlikeSelf(Blocks(t));
    } else {
      LastLineAlike(front, StripCr(last), last);
    }
  }

  lemma LinesOfPieces(t: string)
    ensures var p := Pieces(t);
            var front, last := StripEach(p[..|p| - 1]), p[|p| - 1];
            Lines(t) == (if last == "" then front else front + [last]) && StripEach(p) == front + [StripCr(last)]
  {
    hide Pieces, StripCr;
    var p := Pieces(t);
    assert StripEach(p[..|p| - 1]) + [] == StripEach(p[..|p| - 1]);
  }

  lemma BlankStripped()
    ensures StripCr("") == ""
  {
  }

  // ---------- reassembly keeps the blocks ----------

  function BlocksOf(segments: seq<Segment>): seq<Block> {
    if segments == [] then [] else (if segments[0].Code? then [Pieces(segments[0].text)] else []) + BlocksOf(segments[1..])
  }

  /** Prose without fences, and code that is one block. */
  ghost predicate Sound(x: Segment) {
    match x
    case Prose(text) => FenceFree(Pieces(text))
    case Code(text) => IsBlock(Pieces(text))
  }

  /** The output so far is closed and holds the given blocks. */
  ghost predicate Holds(output: string, blocks: seq<Block>) {
    BlocksFrom(Pieces(output), None) == blocks && OpenAfter(Pieces(output), None) == None
  }

  lemma SegmentBlocks(x: Segment)
    requires Sound(x)
    ensures BlocksFrom(Pieces(x.text), None) == BlocksOf([x]) && OpenAfter(Pieces(x.text), None) == None
  {
    hide Pieces, FenceFree, IsBlock, BlocksFrom;
    assert [x][1..] == [];
    assert BlocksOf([]) == [];
    if x.Prose? {
      NoBlocks(Pieces(x.text));
    } else {
      OneBlock(Pieces(x.text));
    }
  }

  /** Text that ends with a newline ends with an empty piece, which the next text continues. */
  lemma PiecesAfterNewline(output: string, text: string)
    requires output != "" && output[|output| - 1] == '\n'
    ensures exists front :: Pieces(output) == front + [""] && Pieces(output + text) == front + Pieces(text)
  {
    hide Pieces;
    var n := |output| - 1;
    PiecesApart(output[..n], "");
    assert output[..n] + "\n" + "" == output;
    assert Pieces("") == [""] by { PiecesOfLine(""); }
    PiecesApart(output[..n], text);
    assert output[..n] + "\n" + text == output + text;
  }

  lemma JoinedHolds(output: string, x: Segment, blocks: seq<Block>)
    requires Holds(output, blocks) && Sound(x)
    ensures Holds(Joined(output, x), blocks + BlocksOf([x]))
  {
    hide Pieces, BlocksFrom, OpenAfter, Sound, BlocksOf, Fence, Trim, TrimStart, TrimEnd;
    var p, q := Pieces(output), Pieces(x.text);
    SegmentBlocks(x);
    if x.Prose? && Trim(x.text) == "" {
      assert BlocksOf([x]) == [] by { ProseHasNone(x); }
      assert blocks + [] == blocks;
    } else if output == "" {
      assert output + x.text == x.text;
      assert Pieces("") == [""] by { PiecesOfLine(""); }
      BlankLine();
      NoBlocks([""]);
      assert [] + BlocksOf([x]) == BlocksOf([x]);
    } else if output[|output| - 1] != '\n' {
      PiecesApart(output, x.text);
      BlocksTogether(p, q, None);
    } else {
      PiecesAfterNewline(output, x.text);
      var front :| p == front + [""] && Pieces(output + x.text) == front + q;
      BlocksTogether(front, [""], None);
      BlocksTogether(front, q, None);
      BlankLine();
      EmptyLineAfter(OpenAfter(front, None));
      assert BlocksFrom(front, None) + [] == BlocksFrom(front, None);
    }
  }

  lemma ProseHasNone(x: Segment)
    requires x.Prose?
    ensures BlocksOf([x]) == []
  {
    assert [x][1..] == [];
  }

  lemma EmptyLineAfter(open: Option<Block>)
    ensures BlocksFrom([""], open) == [] && (OpenAfter([""], open) == None <==> open == None)
  {
    hide Fence;
    BlankLine();
    assert [""][1..] == [];
    assert BlocksFrom([], None) == [];
  }

  lemma {:induction false} JoinFromHolds(output: string, segments: seq<Segment>, blocks: seq<Block>)
    requires Holds(output, blocks) && forall k :: 0 <= k < |segments| ==> Sound(segments[k])
    ensures Holds(JoinFrom(output, segments), blocks + BlocksOf(segments))
    decreases |segments|
  {
    hide Holds, Sound, Joined, Pieces;
    if segments == [] {
      assert blocks + [] == blocks;
    } else {
      var x, rest := segments[0], segments[1..];
      JoinedHolds(output, x, blocks);
      JoinFromHolds(Joined(output, x), rest, blocks + BlocksOf([x]));
      assert [x][1..] == [] && BlocksOf([]) == [];
      assert BlocksOf(segments) == BlocksOf([x]) + BlocksOf(rest);
      assert blocks + BlocksOf([x]) + BlocksOf(rest) == blocks + (BlocksOf([x]) + BlocksOf(rest));
    }
  }

  lemma EmptyHolds()
    ensures Holds("", [])
  {
    hide BlocksFrom, OpenAfter, Pieces, Fence;
    PiecesOfLine("");
    EmptyLineAfter(None);
  }

  /** Every segment is sound; a last piece of prose may have one fence, which opens no closed block. */
  ghost predicate AllSound(segments: seq<Segment>) {
    forall k :: 0 <= k < |segments| ==>
      Sound(segments[k]) || (k == |segments| - 1 && segments[k].Prose? && BlocksFrom(Pieces(segments[k].text), None) == [])
  }

  lemma JoinedEnds(output: string, x: Segment, blocks: seq<Block>)
    requires Holds(output, blocks) && x.Prose? && BlocksFrom(Pieces(x.text), None) == []
    ensures BlocksFrom(Pieces(Joined(output, x)), None) == blocks
  {
    hide Pieces, BlocksFrom, OpenAfter, Fence, Trim, TrimStart, TrimEnd;
    var p, q := Pieces(output), Pieces(x.text);
    assert blocks + [] == blocks;
    if Trim(x.text) != "" {
      if output == "" {
        assert output + x.text == x.text;
        EmptyHolds();
      } else if output[|output| - 1] != '\n' {
        PiecesApart(output, x.text);
        BlocksTogether(p, q, None);
      } else {
        PiecesAfterNewline(output, x.text);
        var front :| p == front + [""] && Pieces(output + x.text) == front + q;
        BlocksTogether(front, [""], None);
        BlocksTogether(front, q, None);
        EmptyLineAfter(OpenAfter(front, None));
        assert BlocksFrom(front, None) + [] == BlocksFrom(front, None);
      }
    }
  }

  lemma {:induction false} JoinFromParts(output: string, a: seq<Segment>, x: Segment)
    ensures JoinFrom(output, a + [x]) == Joined(JoinFrom(output, a), x)
    decreases |a|
  {
    hide Joined;
    if a == [] {
      assert a + [x] == [x] && [x][1..] == [];
    } else {
      assert (a + [x])[1..] == a[1..] + [x];
      JoinFromParts(Joined(output, a[0]), a[1..], x);
    }
  }

  lemma {:induction false} BlocksOfParts(a: seq<Segment>, x: Segment)
    ensures BlocksOf(a + [x]) == BlocksOf(a) + BlocksOf([x])
    decreases |a|
  {
    hide Pieces;
    if a == [] {
      assert a + [x] == [x];
    } else {
      assert (a + [x])[1..] == a[1..] + [x];
      BlocksOfParts(a[1..], x);
    }
  }

  lemma OutputHolds(segments: seq<Segment>)
    requires AllSound(segments)
    ensures BlocksFrom(Pieces(JoinFrom("", segments)), None) == BlocksOf(segments)
  {
    hide Pieces, BlocksFrom, OpenAfter, Joined, JoinFrom, BlocksOf, Sound;
    EmptyHolds();
    if segments == [] || Sound(segments[|segments| - 1]) {
      JoinFromHolds("", segments, []);
      assert [] + BlocksOf(segments) == BlocksOf(segments);
    } else {
      var a, x := segments[..|segments| - 1], segments[|segments| - 1];
      assert segments == a + [x];
      JoinFromHolds("", a, []);
      assert [] + BlocksOf(a) == BlocksOf(a);
      JoinFromParts("", a, x);
      BlocksOfParts(a, x);
      ProseHasNone(x);
      assert BlocksOf(a) + [] == BlocksOf(a);
      JoinedEnds(JoinFrom("", a), x, BlocksOf(a));
    }
  }

  /**
   Joining segments whose prose has no fences gives a text with exactly their code
   blocks, in order, up to the outer blanks; a carriage return at a line's end is lost.
   */
  lemma JoinKeepsBlocks(segments: seq<Segment>)
    requires AllSound(segments)
    ensures OuterAlike(StripBlocks(BlocksOf(segments)), Blocks(Join(segments)))
  {
    hide OuterAlike, AllSound, Blocks, Trim, BlocksFrom, OpenAfter, Pieces, JoinFrom, BlocksOf;
    var output := JoinFrom("", segments);
    OutputHolds(segments);
    TrimAlike(output);
    StripAlike(BlocksFrom(Pieces(output), None), BlocksFrom(Pieces(Trim(output)), None));
    BlocksOfText(Trim(output));
    AlikeTrans(StripBlocks(BlocksOf(segments)), StripBlocks(BlocksFrom(Pieces(Trim(output)), None)), Blocks(Trim(output)));
  }
}
