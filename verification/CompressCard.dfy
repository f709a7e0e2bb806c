/**
 Compressing a card: its prose is rewritten piece by piece and concurrently, its code
 blocks stay, and the pieces are put together in their order again.
 */
module CompressCard {
  import opened Options
  import opened Text
  import opened Ordering
  import opened Markdown

  // ---------- compressing a card ----------

  const MIN_COMPRESS_CHARS := 420
  const MIN_COMPRESS_WORDS := 70

  /** The number of maximal runs of non-blanks; inside says whether one is under way. */
  function WordCount(t: string, inside: bool): nat {
    if t == "" then 0
    else if IsSpace(t[0]) then WordCount(t[1..], false)
    else (if inside then 0 else 1) + WordCount(t[1..], true)
  }

  predicate KeepsFullCard(content: string) {
    var trimmed := Trim(content);
    trimmed == "" || |trimmed| <= MIN_COMPRESS_CHARS || WordCount(trimmed, false) <= MIN_COMPRESS_WORDS
  }

  type Indexed = Ranked<Segment>

  function Numbered(segments: seq<Segment>): (r: seq<Indexed>)
    ensures |r| == |segments| && forall k :: 0 <= k < |segments| ==> r[k] == Ranked(k, segments[k])
  {
    seq(|segments|, k requires 0 <= k < |segments| => Ranked(k, segments[k]))
  }

  /** The prose replaced by its replies, the code as it was. */
  function Compressed(segments: seq<Segment>, replies: seq<string>): (r: seq<Segment>)
    requires |segments| == |replies|
    ensures |r| == |segments|
    ensures forall k :: 0 <= k < |segments| ==> r[k] == if segments[k].Code? then segments[k] else Prose(replies[k])
  {
    seq(|segments|, k requires 0 <= k < |segments| => if segments[k].Code? then segments[k] else Prose(replies[k]))
  }

  function Segments(s: seq<Indexed>): (r: seq<Segment>)
    ensures |r| == |s| && forall k :: 0 <= k < |s| ==> r[k] == s[k].value
  {
    seq(|s|, k requires 0 <= k < |s| => s[k].value)
  }

  function Entries(segments: seq<Segment>, code: bool): seq<Indexed> {
    if segments == [] then []
    else
      var n := |segments| - 1;
      Entries(segments[..n], code) + if segments[n].Code? == code then [Ranked(n, segments[n])] else []
  }

  lemma {:induction false} EntriesAreAll(segments: seq<Segment>)
    ensures multiset(Entries(segments, true) + Entries(segments, false)) == multiset(Numbered(segments))
    decreases |segments|
  {
    hide Numbered, Entries;
    if segments == [] {
      NoEntries();
      assert Numbered(segments) == [];
    } else {
      var n := |segments| - 1;
      var last := [Ranked(n, segments[n])];
      EntriesAreAll(segments[..n]);
      assert segments[..n + 1] == segments;
      EntriesTurn(segments, n, true);
      EntriesTurn(segments, n, false);
      assert Numbered(segments) == Numbered(segments[..n]) + last;
    }
  }

  lemma NoEntries()
    ensures Entries([], true) == [] && Entries([], false) == []
  {
  }

  /** Compresses the prose of a card and puts it together again; no reply means that a task failed. */
  method CompressCard(content: string, replies: seq<Option<string>>) returns (r: Option<string>)
    requires |replies| == |Split(content)|
    ensures KeepsFullCard(content) || Split(content) == [] ==> r == Some(Trim(content))
    ensures !KeepsFullCard(content) && Split(content) != [] ==>
      r == if exists k :: 0 <= k < |replies| && Split(content)[k].Prose? && replies[k].None? then None
           else Some(Join(Compressed(Split(content), seq(|replies|, k requires 0 <= k < |replies| => Or(replies[k])))))
  {
    hide Split, KeepsFullCard, Join, Trim, Entries, SortedByOrder, ByOrder;
    EntriesStart();
    if KeepsFullCard(content) {
      return Some(Trim(content));
    }
    var segments := SplitMarkdownSegments(content);
    if segments == [] {
      return Some(Trim(content));
    }
    var texts := seq(|replies|, k requires 0 <= k < |replies| => Or(replies[k]));
    ghost var want := Compressed(segments, texts);
    var results: seq<Indexed> := [];
    for i := 0 to |segments|
      invariant results == Entries(want[..i], true)
    {
      EntriesTurn(want, i, true);
      if segments[i].Code? {
        results := results + [Ranked(i, segments[i])];
      }
    }
    ghost var codes := results;
    assert codes + [] == codes;
    for i := 0 to |segments|
      invariant results == codes + Entries(want[..i], false)
      invariant forall k :: 0 <= k < i && segments[k].Prose? ==> replies[k].Some?
    {
      EntriesTurn(want, i, false);
      if segments[i].Prose? {
        if replies[i].None? {
          return None;
        }
        assert codes + Entries(want[..i], false) + [Ranked(i, want[i])] == codes + (Entries(want[..i], false) + [Ranked(i, want[i])]);
        results := results + [Ranked(i, Prose(replies[i].value))];
      } else {
        assert Entries(want[..i], false) + [] == Entries(want[..i], false);
      }
    }
    assert want[..|segments|] == want;
    EntriesAreAll(want);
    SortedHolds(results);
    SortedIsUnique(SortedByOrder(results), Numbered(want));
    assert Segments(SortedByOrder(results)) == want;
    r := Some(Join(Segments(SortedByOrder(results))));
  }

  function Or(reply: Option<string>): string {
    if reply.Some? then reply.value else ""
  }

  lemma EntriesStart()
    ensures forall code :: Entries([], code) == []
  {
  }

  lemma EntriesTurn(segments: seq<Segment>, i: nat, code: bool)
    requires i < |segments|
    ensures Entries(segments[..i + 1], code) ==
            Entries(segments[..i], code) + if segments[i].Code? == code then [Ranked(i, segments[i])] else []
  {
    assert segments[..i + 1][..i] == segments[..i];
  }

  /** Replies may arrive in any order. */
  lemma ArrivalOrderIrrelevant(segments: seq<Segment>, arrived: seq<Indexed>)
    requires multiset(arrived) == multiset(Numbered(segments))
    ensures Segments(SortedByOrder(arrived)) == segments
  {
    SortedHolds(arrived);
    SortedIsUnique(SortedByOrder(arrived), Numbered(segments));
  }

  // ---------- a compressed card keeps its code ----------

  lemma {:induction false} SplitBlocks(lines: seq<string>, s: Open)
    requires EachOneLine(lines) && (s.Inside? ==> IsOpening(s.lines))
    ensures BlocksOf(SplitFrom(lines, s)) == BlocksFrom(lines, if s.Inside? then Some(s.lines) else None)
    ensures forall x :: x in SplitFrom(lines, s) && x.Code? ==> IsBlock(Pieces(x.text))
    decreases |lines|
  {
    hide Fence, JoinLines, Pieces, OneLine, Trim, TrimStart, TrimEnd, SplitFrom, BlocksFrom, BlocksOf, Flush;
    if lines == [] {
      NoBlocks();
      SplitEnd(s);
      NoneLeft(if s.Inside? then Some(s.lines) else None);
      FlushHasNone(s.lines, []);
      assert Flush(s.lines) + [] == Flush(s.lines);
    } else {
      var l, rest := lines[0], lines[1..];
      assert lines[0..] == lines && EachOneLine(rest) && OneLine(l);
      SplitTurn(lines, 0, s);
      BlocksTurn(lines, if s.Inside? then Some(s.lines) else None);
      if !Fence(l) {
        SplitBlocks(rest, s.(lines := s.lines + [l]));
      } else if s.Outside? {
        SplitBlocks(rest, Inside([l]));
        FlushHasNone(s.lines, SplitFrom(rest, Inside([l])));
      } else {
        SplitBlocks(rest, Outside([]));
        PiecesOfJoined(s.lines + [l]);
        ClosedBlock(s.lines, l);
        FirstBlock(Code(JoinLines(s.lines + [l])), SplitFrom(rest, Outside([])));
      }
    }
  }

  lemma FirstBlock(x: Segment, rest: seq<Segment>)
    ensures BlocksOf([x] + rest) == (if x.Code? then [Pieces(x.text)] else []) + BlocksOf(rest)
  {
    assert ([x] + rest)[1..] == rest;
  }

  lemma NoBlocks()
    ensures BlocksOf([]) == []
  {
  }

  lemma ClosedBlock(lines: seq<string>, l: string)
    requires IsOpening(lines) && Fence(l) && OneLine(l)
    ensures IsBlock(lines + [l])
  {
    hide Fence, OneLine;
    assert forall k :: 0 <= k < |lines| ==> (lines + [l])[k] == lines[k];
  }

  lemma FlushHasNone(text: seq<string>, rest: seq<Segment>)
    ensures BlocksOf(Flush(text) + rest) == BlocksOf(rest)
    ensures forall x :: x in Flush(text) ==> x.Prose?
  {
    hide JoinLines, Pieces;
    if text == [] {
      assert Flush(text) + rest == rest;
    } else {
      FirstBlock(Prose(JoinLines(text)), rest);
      assert [] + BlocksOf(rest) == BlocksOf(rest);
    }
  }

  lemma {:induction false} CompressedBlocks(segments: seq<Segment>, replies: seq<string>)
    requires |segments| == |replies|
    ensures BlocksOf(Compressed(segments, replies)) == BlocksOf(segments)
    decreases |segments|
  {
    hide Pieces, Compressed;
    if segments != [] {
      assert Compressed(segments, replies)[1..] == Compressed(segments[1..], replies[1..]);
      CompressedBlocks(segments[1..], replies[1..]);
    }
  }

  /** A reply that cannot disturb the code: no fence, or at the very end at most one. */
  ghost predicate Quiet(reply: string, last: bool) {
    FenceFree(Pieces(reply)) || (last && BlocksFrom(Pieces(reply), None) == [])
  }

  /** A compressed card holds exactly the code blocks of the original, whatever the replies say, as long as they open no block. */
  lemma CompressionKeepsBlocks(content: string, replies: seq<string>)
    requires |replies| == |Split(content)|
    requires forall k :: 0 <= k < |replies| && Split(content)[k].Prose? ==> Quiet(replies[k], k == |replies| - 1)
    ensures OuterAlike(StripBlocks(Blocks(content)), Blocks(Join(Compressed(Split(content), replies))))
  {
    hide Pieces, FenceFree, IsBlock, BlocksFrom, OuterAlike, StripBlocks, Join, Lines, SplitFrom;
    var segments := Split(content);
    LinesOneLine(content);
    SplitBlocks(Lines(content), Outside([]));
    CompressedBlocks(segments, replies);
    forall k | 0 <= k < |segments|
      ensures var x := Compressed(segments, replies)[k];
              Sound(x) || (k == |segments| - 1 && x.Prose? && BlocksFrom(Pieces(x.text), None) == [])
    {
      assert segments[k] in segments;
    }
    JoinKeepsBlocks(Compressed(segments, replies));
  }

  /** The prose of a split card opens no block; only at the end may there be a fence, that of an unclosed block. */
  lemma {:induction false} SplitProseIsQuiet(lines: seq<string>, s: Open, k: nat)
    requires EachOneLine(lines) && EachOneLine(s.lines) && (if s.Inside? then IsOpening(s.lines) else FenceFree(s.lines))
    requires k < |SplitFrom(lines, s)| && SplitFrom(lines, s)[k].Prose?
    ensures Quiet(SplitFrom(lines, s)[k].text, k == |SplitFrom(lines, s)| - 1)
    decreases |lines|
  {
    hide Fence, JoinLines, Pieces, OneLine, Trim, TrimStart, TrimEnd, SplitFrom, BlocksFrom, OpenAfter;
    if lines == [] {
      SplitEnd(s);
      PiecesOfJoined(s.lines);
      if s.Inside? {
        OpeningHasNoBlock(s.lines);
      }
    } else {
      var l, rest := lines[0], lines[1..];
      assert lines[0..] == lines && EachOneLine(rest) && OneLine(l);
      SplitTurn(lines, 0, s);
      if !Fence(l) {
        SplitProseIsQuiet(rest, s.(lines := s.lines + [l]), k);
      } else {
        var n := if s.Inside? then 1 else |Flush(s.lines)|;
        var s' := if s.Inside? then Outside([]) else Inside([l]);
        if k >= n {
          SplitProseIsQuiet(rest, s', k - n);
        } else if s.Outside? {
          PiecesOfJoined(s.lines);
        }
      }
    }
  }

  lemma OpeningHasNoBlock(b: Block)
    requires IsOpening(b)
    ensures BlocksFrom(b, None) == []
  {
    hide Fence, OneLine;
    OpeningStaysOpen([b[0]], b[1..]);
  }

  lemma FenceFreeFront(x: char, t: string)
    requires IsSpace(x) && FenceFree(Pieces([x] + t))
    ensures FenceFree(Pieces(t))
  {
    hide Fence, Trim, TrimStart, TrimEnd, Pieces;
    var p, f := Pieces(t), Pieces([x] + t);
    if x == '\n' {
      PiecesApart("", t);
      PiecesOfLine("");
      assert "" + "\n" + t == [x] + t;
      assert forall k :: 0 <= k < |p| ==> f[k + 1] == p[k];
    } else {
      PiecesTogether([x], t);
      PiecesOfLine([x]);
      TrimAround([x], p[0], "");
      assert [x] + p[0] + "" == [x] + p[0];
      FenceByTrim([x] + p[0], p[0]);
      assert f[0] == [x] + p[0];
      assert forall k :: 1 <= k < |p| ==> f[k] == p[k];
    }
  }

  lemma FenceFreeBack(t: string, x: char)
    requires IsSpace(x) && FenceFree(Pieces(t + [x]))
    ensures FenceFree(Pieces(t))
  {
    hide Fence, Trim, TrimStart, TrimEnd, Pieces;
    var p, b := Pieces(t), Pieces(t + [x]);
    var last := p[|p| - 1];
    if x == '\n' {
      PiecesApart(t, "");
      assert t + "\n" + "" == t + [x];
      assert forall k :: 0 <= k < |p| ==> b[k] == p[k];
    } else {
      PiecesTogether(t, [x]);
      PiecesOfLine([x]);
      TrimAround("", last, [x]);
      assert "" + last + [x] == last + [x];
      FenceByTrim(last + [x], last);
      assert forall k :: 0 <= k < |p| - 1 ==> b[k] == p[k];
      assert b[|p| - 1] == last + [x];
    }
  }

  lemma {:induction false} TrimStartKeepsFenceFree(t: string)
    requires FenceFree(Pieces(t))
    ensures FenceFree(Pieces(TrimStart(t)))
    decreases |t|
  {
    hide FenceFree, Pieces;
    if t != "" && IsSpace(t[0]) {
      assert [t[0]] + t[1..] == t;
      FenceFreeFront(t[0], t[1..]);
      TrimStartKeepsFenceFree(t[1..]);
    }
  }

  lemma {:induction false} TrimEndKeepsFenceFree(t: string)
    requires FenceFree(Pieces(t))
    ensures FenceFree(Pieces(TrimEnd(t)))
    decreases |t|
  {
    hide FenceFree, Pieces;
    var n := |t| - 1;
    if t != "" && IsSpace(t[n]) {
      assert t[..n] + [t[n]] == t;
      FenceFreeBack(t[..n], t[n]);
      TrimEndKeepsFenceFree(t[..n]);
    }
  }

  /** Prose that is returned as it was, only trimmed, is quiet. */
  lemma KeptProseIsQuiet(content: string, k: nat)
    requires k < |Split(content)| && Split(content)[k].Prose?
    ensures Quiet(Trim(Split(content)[k].text), k == |Split(content)| - 1)
  {
    hide FenceFree, Pieces, BlocksFrom, TrimStart, TrimEnd, Lines, SplitFrom;
    var text := Split(content)[k].text;
    LinesOneLine(content);
    assert FenceFree([]) by { NothingIsFenced(); }
    SplitProseIsQuiet(Lines(content), Outside([]), k);
    if FenceFree(Pieces(text)) {
      TrimStartKeepsFenceFree(text);
      TrimEndKeepsFenceFree(TrimStart(text));
    } else {
      TrimAlike(text);
    }
  }

  lemma NothingIsFenced()
    ensures FenceFree([])
  {
  }

  /** A card that is kept whole keeps its blocks. */
  lemma TrimmingKeepsBlocks(content: string)
    ensures OuterAlike(Blocks(content), Blocks(Trim(content)))
  {
    hide OuterAlike, StripBlocks, Trim, BlocksFrom, Pieces;
    var a, b := BlocksFrom(Pieces(content), None), BlocksFrom(Pieces(Trim(content)), None);
    TrimAlike(content);
    StripAlike(a, b);
    BlocksOfText(content);
    BlocksOfText(Trim(content));
    AlikeBack(StripBlocks(a), Blocks(content));
    AlikeTrans(Blocks(content), StripBlocks(a), StripBlocks(b));
    AlikeTrans(Blocks(content), StripBlocks(b), Blocks(Trim(content)));
  }

  lemma AlikeBack(a: seq<Block>, b: seq<Block>)
    requires OuterAlike(a, b)
    ensures OuterAlike(b, a)
  {
    forall i | 0 <= i < |a|
      ensures BlockAlike(b[i], a[i], i == 0, i == |a| - 1)
    {
      assert BlockAlike(a[i], b[i], i == 0, i == |a| - 1);
      forall k | 0 <= k < |a[i]|
        ensures LineAlike(b[i][k], a[i][k], i == 0 && k == 0, i == |a| - 1 && k == |a[i]| - 1)
      {
        assert LineAlike(a[i][k], b[i][k], i == 0 && k == 0, i == |a| - 1 && k == |a[i]| - 1);
      }
    }
  }

  predicate EndsInCr(l: string) {
    l != "" && l[|l| - 1] == '\r'
  }

  /** Carriage returns are lost exactly when a line of code ends in one. */
  lemma StrippedIsSame(bs: seq<Block>)
    ensures StripBlocks(bs) == bs <==> forall i, k :: 0 <= i < |bs| && 0 <= k < |bs[i]| ==> !EndsInCr(bs[i][k])
  {
    forall i | 0 <= i < |bs|
      ensures StripEach(bs[i]) == bs[i] <==> forall k :: 0 <= k < |bs[i]| ==> !EndsInCr(bs[i][k])
    {
      assert forall k :: 0 <= k < |bs[i]| ==> (StripCr(bs[i][k]) == bs[i][k] <==> !EndsInCr(bs[i][k]));
      assert StripEach(bs[i]) == bs[i] ==> forall k :: 0 <= k < |bs[i]| ==> StripEach(bs[i])[k] == bs[i][k];
    }
    assert StripBlocks(bs) == bs ==> forall i :: 0 <= i < |bs| ==> StripBlocks(bs)[i] == bs[i];
  }
}