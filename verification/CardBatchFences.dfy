/** Fenced batches that lose cards: exactly when, and one that does. */
module CardBatchFences {
  import opened Options
  import opened Text
  import opened Json
  import opened JsonPrint
  import opened CardBatch
  import opened CardBatchCuts
  import opened CardBatchPrint

  /** Where the j-th array item, counted from position i on, ends. */
  function ItemEnd(t: string, i: nat, j: nat): nat
    requires i <= |t|
    decreases j
  {
    match ReadValue(t, i)
    case None => |t|
    case Some(v) =>
      var p := SkipSpace(t, v.next);
      if j == 0 || p == |t| then v.next else ItemEnd(t, p + 1, j - 1)
  }

  /** Where the j-th card of a batch text ends. */
  function CardEnd(t: string, j: nat): nat
    requires t != ""
  {
    ItemEnd(t, Min(BracketAt(t) + 1, |t|), j)
  }

  lemma ItemEndTurn(t: string, i: nat, j: nat)
    requires i <= |t| && ReadValue(t, i).Some?
    ensures var v := ReadValue(t, i).value;
            var p := SkipSpace(t, v.next);
            ItemEnd(t, i, j) == if j == 0 || p == |t| then v.next else ItemEnd(t, p + 1, j - 1)
  {
    hide ReadValue, SkipSpace;
  }

  lemma {:induction false} ItemEndAfter(t: string, i: nat, j: nat)
    requires i <= |t|
    ensures ReadValue(t, i).Some? ==> ReadValue(t, i).value.next <= ItemEnd(t, i, j)
    ensures i <= ItemEnd(t, i, j) <= |t|
    decreases j
  {
    hide ReadValue, SkipSpace;
    if ReadValue(t, i).Some? && j > 0 {
      var p := SkipSpace(t, ReadValue(t, i).value.next);
      if p < |t| {
        ItemEndAfter(t, p + 1, j - 1);
      }
    }
  }

  /** An earlier cut has fewer finished items exactly if it comes before the end of the last of them. */
  lemma {:induction false} FewerFinishedIff(t: string, i: nat, e: nat, k: nat)
    requires i <= |t| && e <= k
    ensures var n := FinishedFrom(t, i, k);
            && FinishedFrom(t, i, e) <= n
            && (FinishedFrom(t, i, e) < n <==> n > 0 && e < ItemEnd(t, i, n - 1))
    decreases |t| - i
  {
    hide ReadValue, SkipSpace, FinishedFrom, ItemEnd;
    if ReadValue(t, i).None? {
      NothingReads(t, i, e);
      NothingReads(t, i, k);
    } else {
      var v := ReadValue(t, i).value;
      var p := SkipSpace(t, v.next);
      FinishedTurn(t, i, e);
      FinishedTurn(t, i, k);
      var n := FinishedFrom(t, i, k);
      if n > 0 {
        ItemEndAfter(t, i, n - 1);
        ItemEndTurn(t, i, n - 1);
      }
      if p < |t| && t[p] == ',' {
        FewerFinishedIff(t, p + 1, e, k);
      }
    }
  }

  lemma {:induction false} ValidTogether(a: seq<Card>, b: seq<Card>)
    ensures Valid(a + b) == Valid(a) + Valid(b)
    decreases |a|
  {
    hide HasContent, Valid;
    if a == [] {
      assert a + b == b;
      NothingValid(a);
    } else {
      assert (a + b)[1..] == a[1..] + b && (a + b)[0] == a[0];
      ValidTurn(a);
      ValidTurn(a + b);
      ValidTogether(a[1..], b);
    }
  }

  lemma ValidTurn(cards: seq<Card>)
    requires cards != []
    ensures Valid(cards) == (if HasContent(cards[0]) then [cards[0]] else []) + Valid(cards[1..])
  {
    hide HasContent;
  }

  lemma {:induction false} ValidIsNothing(cards: seq<Card>)
    ensures Valid(cards) == [] <==> forall j :: 0 <= j < |cards| ==> !HasContent(cards[j])
  {
    hide HasContent;
    if cards != [] {
      ValidIsNothing(cards[1..]);
      assert forall j :: 1 <= j < |cards| ==> cards[j] == cards[1..][j - 1];
      assert forall j :: 0 <= j < |cards[1..]| ==> cards[1..][j] == cards[j + 1];
    }
  }

  /** The first a cards have the same content as the first b exactly if no card between them has content. */
  lemma SameContentIff(cards: seq<Card>, a: nat, b: nat)
    requires a <= b <= |cards|
    ensures Valid(cards[..a]) == Valid(cards[..b]) <==> forall j :: a <= j < b ==> !HasContent(cards[j])
  {
    hide HasContent, Valid;
    assert cards[..b] == cards[..a] + cards[a..b];
    ValidTogether(cards[..a], cards[a..b]);
    ValidIsNothing(cards[a..b]);
    assert forall j :: a <= j < b ==> cards[j] == cards[a..b][j - a];
    assert forall j :: 0 <= j < b - a ==> cards[a..b][j] == cards[a + j];
  }

  /**
   A cut, fenced batch loses finished cards exactly when the last fence inside it stands
   before the end of the last finished card, and loses content exactly when one of the
   cards between has any.
   */
  lemma FenceLosesCardsIff(t: string, cards: seq<Card>, k: nat)
    requires IsBatchText(t, cards) && k <= |t|
    ensures var e, n := FencedCut(t, k), Finished(t, k);
            && n <= |cards| && Finished(t, e) <= n
            && (Finished(t, e) < n <==> n > 0 && e < CardEnd(t, n - 1))
            && (CardsIn(FENCE + t[..k]) == Valid(cards[..n]) <==> forall j :: Finished(t, e) <= j < n ==> !HasContent(cards[j]))
  {
    hide IsBatchText, FinishedFrom, ItemEnd, CardsIn, Valid, BracketAt, HasContent, FencedCut;
    assert t != "" by { BatchStarts(t, cards); }
    var e := FencedCut(t, k);
    FewerFinishedIff(t, Min(BracketAt(t) + 1, |t|), e, k);
    FencedCutRecovers(t, cards, k);
    FinishedAtMostAll(t, cards, k);
    SameContentIff(cards, Finished(t, e), Finished(t, k));
  }

  lemma FinishedAtMostAll(t: string, cards: seq<Card>, k: nat)
    requires IsBatchText(t, cards) && k <= |t|
    ensures Finished(t, k) <= |cards|
  {
    hide IsBatchText, Finished, CardsIn, Valid;
    assert Blank("") && Preamble("");
    CutBatchRecoversFinishedCards("", "", t, cards, k);
  }

  // ---------- a response that loses its card ----------

  /** A card with one plain field. */
  function FieldOnly(key: string, text: string): Value {
    Obj([Member(key, Str(text))])
  }

  function BatchOfOne(text: string): Value {
    Obj([Member("cards", Arr([FieldOnly("content", text)]))])
  }

  predicate PlainText(s: string) {
    forall k :: 0 <= k < |s| ==> s[k] != '"' && s[k] != '\\' && s[k] >= ' '
  }

  lemma OneMemberPrints(m: Member)
    ensures Print(Obj([m])) == "{" + (Quoted(m.key) + ":" + Print(m.value)) + "}"
  {
    hide Quoted;
    assert PrintMembers([m]) == PrintMember(m);
  }

  lemma OneItemPrints(v: Value)
    ensures PrintItems([v]) == Print(v) && Print(Arr([v])) == "[" + Print(v) + "]"
  {
  }

  lemma FieldPrints(key: string, text: string)
    requires PlainText(key) && PlainText(text)
    ensures Print(FieldOnly(key, text)) == "{\"" + key + "\":\"" + text + "\"}" && Printable(FieldOnly(key, text))
  {
    hide Escaped;
    EscapedPlain(key);
    EscapedPlain(text);
    OneMemberPrints(Member(key, Str(text)));
    assert Print(Str(text)) == Quoted(text);
  }

  /** The batch of one card, written out. */
  lemma BatchOfOnePrints(text: string)
    requires PlainText(text)
    ensures Print(BatchOfOne(text)) == HEAD + (Print(FieldOnly("content", text)) + "]" + "}") && Printable(BatchOfOne(text))
    ensures Print(FieldOnly("content", text)) == "{\"content\":\"" + text + "\"}" && Printable(FieldOnly("content", text))
  {
    hide Print, Escaped, Printable, PrintItems, Quoted;
    var v := FieldOnly("content", text);
    FieldPrints("content", text);
    EscapedPlain("cards");
    OneItemPrints(v);
    OneMemberPrints(Member("cards", Arr([v])));
    PrintableIf([v]);
    HeadText(Print(v));
  }

  lemma HeadText(p: string)
    ensures "{" + (("\"" + "cards" + "\"") + ":" + ("[" + p + "]")) + "}" == HEAD + (p + "]" + "}")
  {
    assert "{" + ("\"" + "cards" + "\"") + ":" + "[" == HEAD;
  }

  lemma FieldReads(text: string)
    ensures DecodeCard(FieldOnly("content", text)) == Some(Card(None, Some(text), None, None, None))
  {
    var ms := [Member("content", Str(text))];
    assert ms[1..] == [];
    assert forall key :: Occurrences(ms, key) == if key == "content" then 1 else 0;
    assert forall key :: Lookup(ms, key) == if key == "content" then Str(text) else Null;
    assert "title" != "content" && "compressed" != "content" && "use_image" != "content" && "image_query" != "content";
  }

  /** The text of a batch of one card is a batch text, whose only card ends two characters before it. */
  lemma BatchOfOneIsBatch(text: string)
    requires PlainText(text)
    ensures var t := Print(BatchOfOne(text));
            IsBatchText(t, [Card(None, Some(text), None, None, None)]) && BracketAt(t) == 9 && |t| == 26 + |text|
    ensures ReadValue(Print(BatchOfOne(text)), 10) == Some(At(FieldOnly("content", text), 24 + |text|))
  {
    hide ReadValue, SkipSpace, DecodeCard, Printable, Print, BracketAt, PlainText;
    var v, card := FieldOnly("content", text), Card(None, Some(text), None, None, None);
    var t := Print(BatchOfOne(text));
    BatchOfOnePrints(text);
    assert t[0..|t|] == t;
    ReadsValue(BatchOfOne(text), t, 0);
    PrintedBracket(t, HEAD, Print(v) + "]" + "}");
    assert t[0] == '{' && t[1] == '"';
    NoSpace(t, 1);
    assert t[1..8] == HEAD[1..8] == CARDS_KEY;
    FieldReads(text);
    OnlyOne(v, card);
    assert t[10..10 + |Print(v)|] == Print(v);
    assert t[10 + |Print(v)|] == ']';
    ReadsValue(v, t, 10);
  }

  lemma OnlyOne(v: Value, card: Card)
    requires DecodeCard(v) == Some(card)
    ensures DecodeAll([v]) == Some([card])
  {
    hide DecodeCard;
    assert [v][1..] == [] && [card] + [] == [card];
    assert DecodeAll([]) == Some([]);
  }

  /** A fence inside the first card loses it, and all after it. */
  lemma FenceInFirstCard(t: string, cards: seq<Card>, e: nat)
    requires IsBatchText(t, cards) && FindLast(t, "```") == Some(e) && BracketAt(t) + 1 <= |t|
    requires ReadValue(t, BracketAt(t) + 1).Some? && e < ReadValue(t, BracketAt(t) + 1).value.next
    ensures CardsIn(FENCE + t) == []
  {
    hide IsBatchText, CardsIn, ReadValue, FinishedFrom, FindLast, BracketAt, SkipSpace;
    assert t != "" by { BatchStarts(t, cards); }
    assert t[..|t|] == t;
    FencedCutRecovers(t, cards, |t|);
    FinishedTurn(t, BracketAt(t) + 1, e);
    assert cards[..0] == [];
  }

  const TICKS := "```"
  const FENCED_RESPONSE := FENCE + "{\"cards\":[{\"content\":\"```\"}]}"

  lemma TicksBatch()
    ensures PlainText(TICKS) && FENCED_RESPONSE == FENCE + Print(BatchOfOne(TICKS))
    ensures Print(BatchOfOne(TICKS)) == "{\"cards\":[{\"content\":\"```\"}]}"
  {
    hide Print, Printable, PrintItems, Quoted, Escaped;
    BatchOfOnePrints(TICKS);
    TicksText("{\"content\":\"" + TICKS + "\"}");
  }

  /** The same in plain texts. */
  lemma TicksText(item: string)
    requires item == "{\"content\":\"" + TICKS + "\"}"
    ensures HEAD + (item + "]" + "}") == "{\"cards\":[{\"content\":\"```\"}]}"
  {
    assert item == "{\"content\":\"```\"}";
    assert item + "]" + "}" == "{\"content\":\"```\"}]}";
  }

  /** A response that loses its only card, finished and with content: the card shows a code fence, and the response does not close its own. */
  lemma FenceLosesCard()
    ensures var t, card := Print(BatchOfOne(TICKS)), Card(None, Some(TICKS), None, None, None);
            && FENCED_RESPONSE == FENCE + t && IsBatchText(t, [card]) && HasContent(card)
            && CardsIn(FENCED_RESPONSE) == []
  {
    hide Print, IsBatchText, CardsIn, ReadValue, FindLast, BracketAt, Trim;
    TicksBatch();
    BatchOfOneIsBatch(TICKS);
    var t := Print(BatchOfOne(TICKS));
    LastTicks(t);
    FenceInFirstCard(t, [Card(None, Some(TICKS), None, None, None)], 22);
    TrimmedStays(TICKS);
  }

  /** The ticks of the only card stand at its content. */
  lemma LastTicks(t: string)
    requires t == "{\"cards\":[{\"content\":\"```\"}]}"
    ensures FindLast(t, "```") == Some(22)
  {
    hide FindLast, MatchesAt;
    assert MatchesAt(t, "```", 22) by { assert t[22..25] == "```"; MatchHere(t, "```", 22); }
    forall x | 22 < x <= |t|
      ensures !MatchesAt(t, "```", x)
    {
      if x + 3 <= |t| {
        NoMatch(t, "```", x, 2);
      } else {
        TooLong(t, "```", x);
      }
    }
    FindLastIs(t, "```", 22);
  }

  lemma MatchHere(t: string, p: string, x: nat)
    requires x + |p| <= |t| && t[x..x + |p|] == p
    ensures MatchesAt(t, p, x)
  {
  }

  lemma TooLong(t: string, p: string, x: nat)
    requires x + |p| > |t|
    ensures !MatchesAt(t, p, x)
  {
  }
}
