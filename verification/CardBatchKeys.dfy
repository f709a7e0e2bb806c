/** Cut arrays of cards that hold the key of a batch: what is left of them, when they lose cards, and one that does. */
module CardBatchKeys {
  import opened Options
  import opened Text
  import opened Json
  import opened JsonPrint
  import opened CardBatch
  import opened CardBatchCuts
  import opened CardBatchArrays
  import opened CardBatchPrint
  import opened CardBatchFences

  /** The key of a batch stands at x in the text, and not before. */
  ghost predicate KeyFirstAt(u: string, x: nat) {
    x <= |u| && MatchesAt(u, CARDS_KEY, x) && forall y :: 0 <= y < x ==> !MatchesAt(u, CARDS_KEY, y)
  }

  lemma FinishedAtMost(t: string, items: seq<Value>, cards: seq<Card>, k: nat)
    requires IsArrayText(t, items, cards) && k <= |t|
    ensures FinishedItems(t, k) <= |cards|
  {
    hide FinishedFrom, IsArrayText, SalvageFrom;
    assert t != "" by { ArrayInside(t, items, cards); }
    if k > 0 {
      SalvageFromStart(t, items, cards, k);
    } else {
      NothingFinished(t, 1, k);
    }
  }

  /** The salvage loop starts at the first bracket after the key, wherever the key stands. */
  lemma SalvageAfterKey(u: string, x: nat)
    requires KeyFirstAt(u, x)
    ensures Salvage(u) == match Find(u, "[", x) case Some(y) => Valid(SalvageFrom(u, y)) case None => []
  {
    hide Find, MatchesAt, SalvageFrom, Valid;
    FindIs(u, CARDS_KEY, 0, x);
  }

  /**
   A card text that contains the key misleads the salvage loop. In a cut array with the key
   and no bracket after it every card is lost, which goes wrong exactly if one of the finished
   cards has content.
   */
  lemma StrayKeyLosesCards(lead: string, pre: string, t: string, items: seq<Value>, cards: seq<Card>, k: nat, x: nat)
    requires Blank(lead) && Preamble(pre) && (pre != "" ==> pre[0] != '`')
    requires IsArrayText(t, items, cards) && k < |t| && KeyFirstAt(t[..k], x) && Find(t[..k], "[", x) == None
    ensures CardsIn(lead + pre + t[..k]) == []
    ensures var n := FinishedItems(t, k);
            && n <= |cards|
            && (CardsIn(lead + pre + t[..k]) == Valid(cards[..n]) <==> forall j :: 0 <= j < n ==> !HasContent(cards[j]))
  {
    hide CardsIn, IsArrayText, FinishedItems, Find, Salvage, Valid, HasContent, MatchesAt, SalvageFrom;
    CutArraySalvages(lead, pre, t, items, cards, k);
    SalvageAfterKey(t[..k], x);
    FinishedAtMost(t, items, cards, k);
    var n := FinishedItems(t, k);
    ValidIsNothing(cards[..n]);
    assert forall j :: 0 <= j < n ==> cards[..n][j] == cards[j];
  }

  /** With a bracket after the key, the reader returns what the loop finds from that bracket on. */
  lemma StrayKeyMovesStart(lead: string, pre: string, t: string, items: seq<Value>, cards: seq<Card>, k: nat, x: nat, y: nat)
    requires Blank(lead) && Preamble(pre) && (pre != "" ==> pre[0] != '`')
    requires IsArrayText(t, items, cards) && k < |t| && KeyFirstAt(t[..k], x) && Find(t[..k], "[", x) == Some(y)
    ensures y < k && CardsIn(lead + pre + t[..k]) == Valid(SalvageFrom(t[..k], y))
  {
    hide CardsIn, IsArrayText, Salvage, Valid, MatchesAt, SalvageFrom, Find;
    CutArraySalvages(lead, pre, t, items, cards, k);
    SalvageAfterKey(t[..k], x);
  }

  /** Read from c on as the salvage loop reads, every brace opened before e closes before e. */
  predicate ClosesBy(t: string, c: nat, e: nat)
    requires c <= e <= |t|
    decreases e - c
  {
    if c == e then true
    else if t[c] != '{' then ClosesBy(t, c + 1, e)
    else match FindClose('{', '}', t, c, OUTSIDE)
      case Some(q) => q < e && ClosesBy(t, q + 1, e)
      case None => false
  }

  /** Then the loop reads the text up to e by itself. */
  lemma {:induction false} SalvageInParts(t: string, c: nat, e: nat, k: nat)
    requires c <= e <= k <= |t| && ClosesBy(t, c, e)
    ensures SalvageFrom(t[..k], c) == SalvageFrom(t[..e], c) + SalvageFrom(t[..k], e)
    decreases e - c
  {
    hide SalvageFrom, FindClose, Harvest;
    if c == e {
      SalvageEnd(t[..e]);
    } else {
      SalvageTurn(t[..k], c);
      SalvageTurn(t[..e], c);
      if t[c] != '{' {
        SalvageInParts(t, c + 1, e, k);
      } else {
        var q := FindClose('{', '}', t, c, OUTSIDE).value;
        CutScan('{', '}', t, k, c, OUTSIDE);
        CutScan('{', '}', t, e, c, OUTSIDE);
        CutSlice(t, k, c, q + 1);
        CutSlice(t, e, c, q + 1);
        SalvageInParts(t, q + 1, e, k);
      }
    }
  }

  /** The rest of the item in which y stands, as far as it is there. */
  function RestEnd(t: string, k: nat, y: nat): nat
    requires k <= |t| && |t| >= 1
  {
    Min(ItemEnd(t, 1, FinishedItems(t, y)), k)
  }

  /** The cards the loop collects from that rest. */
  function RestCards(t: string, k: nat, y: nat): seq<Card>
    requires k <= |t| && |t| >= 1
  {
    if y <= RestEnd(t, k, y) then SalvageFrom(t[..RestEnd(t, k, y)], y) else []
  }

  /** Every brace after y in that item closes in it, if the item is all there. */
  predicate RestCloses(t: string, k: nat, y: nat)
    requires k <= |t| && |t| >= 1
  {
    y <= ItemEnd(t, 1, FinishedItems(t, y)) <= k ==> ClosesBy(t, y, ItemEnd(t, 1, FinishedItems(t, y)))
  }

  /** From a bracket inside an item, the loop finds what is left of that item and the finished items after it. */
  lemma {:induction false} SalvageInsideItem(t: string, i: nat, k: nat, y: nat, items: seq<Value>, cards: seq<Card>)
    requires i <= y < k < |t| && ReadItems(t, i) == Some(At(items, |t|)) && CardItems(items, cards) && t[y] == '['
    requires var e := ItemEnd(t, i, FinishedFrom(t, i, y)); y <= e <= k ==> ClosesBy(t, y, e)
    ensures var m, n, c := FinishedFrom(t, i, y), FinishedFrom(t, i, k), Min(ItemEnd(t, i, FinishedFrom(t, i, y)), k);
            && m <= n <= |cards| && y <= c
            && SalvageFrom(t[..k], y) == SalvageFrom(t[..c], y) + if m < n then cards[m + 1..n] else []
    decreases |t| - i
  {
    hide ReadItems, ReadValue, SkipSpace, DecodeCard, SalvageFrom, FinishedFrom, CardItems, ItemEnd, IsSpace, ClosesBy;
    CardItemsTurn(t, i, items, cards);
    FinishedTurn(t, i, k);
    FinishedTurn(t, i, y);
    var v := ReadValue(t, i).value;
    var p := SkipSpace(t, v.next);
    ItemEndTurn(t, i, FinishedFrom(t, i, y));
    if y < v.next {
      InsideFirst(t, i, k, y, items, cards);
    } else {
      BracketAfterGap(t, v.next, y);
      SalvageInsideItem(t, p + 1, k, y, items[1..], cards[1..]);
      var m, n := FinishedFrom(t, p + 1, y), FinishedFrom(t, p + 1, k);
      assert m < n ==> cards[1..][m + 1..n] == cards[m + 2..n + 1];
    }
  }

  lemma BracketAfterGap(t: string, n: nat, y: nat)
    requires n <= y < |t| && t[y] == '[' && SkipSpace(t, n) < |t| && t[SkipSpace(t, n)] in ",]"
    ensures SkipSpace(t, n) < y
  {
  }

  lemma InsideFirst(t: string, i: nat, k: nat, y: nat, items: seq<Value>, cards: seq<Card>)
    requires i <= y < k < |t| && ReadItems(t, i) == Some(At(items, |t|)) && CardItems(items, cards)
    requires ReadValue(t, i).Some? && y < ReadValue(t, i).value.next
    requires ReadValue(t, i).value.next <= k ==> ClosesBy(t, y, ReadValue(t, i).value.next)
    ensures var n, c := FinishedFrom(t, i, k), Min(ReadValue(t, i).value.next, k);
            && n <= |cards|
            && SalvageFrom(t[..k], y) == SalvageFrom(t[..c], y) + if 0 < n then cards[1..n] else []
  {
    hide ReadItems, ReadValue, SkipSpace, DecodeCard, SalvageFrom, FinishedFrom, CardItems, ClosesBy;
    CardItemsTurn(t, i, items, cards);
    FinishedTurn(t, i, k);
    var v := ReadValue(t, i).value;
    var p := SkipSpace(t, v.next);
    if v.next <= k {
      SalvageInParts(t, y, v.next, k);
      SalvageGap(t, v.next, k);
      SalvageEnd(t[..k]);
      if t[p] == ',' {
        if p < k {
          SalvageItems(t, p + 1, k, items[1..], cards[1..]);
          var n := FinishedFrom(t, p + 1, k);
          assert cards[1..n + 1] == cards[1..][..n];
        } else {
          NothingFinished(t, p + 1, k);
        }
      }
    }
  }

  /** The key stands inside an item. */
  lemma KeyNeedsItems(t: string, items: seq<Value>, cards: seq<Card>, k: nat, x: nat)
    requires IsArrayText(t, items, cards) && k < |t| && KeyFirstAt(t[..k], x)
    ensures 1 <= x && items != []
  {
    hide ReadValue, CardItems, Occurrences, MatchesAt;
    ArrayInside(t, items, cards);
    MatchChar(t[..k], CARDS_KEY, x, 0);
    assert t[..k][x] == t[x];
  }

  /** The cards up to m are replaced by others: that is no change exactly if these have the same content. */
  lemma ReplacedFirst(cards: seq<Card>, m: nat, n: nat, others: seq<Card>)
    requires m <= n <= |cards|
    ensures var rest := if m < n then cards[m + 1..n] else [];
            && Valid(others + rest) == Valid(others) + Valid(rest)
            && (Valid(others + rest) == Valid(cards[..n]) <==> Valid(others) == Valid(cards[..Min(m + 1, n)]))
  {
    hide Valid, HasContent;
    var rest := if m < n then cards[m + 1..n] else [];
    var first := cards[..Min(m + 1, n)];
    assert cards[..n] == first + rest;
    ValidTogether(first, rest);
    ValidTogether(others, rest);
    SameFront(Valid(others), Valid(first), Valid(rest));
  }

  lemma SameFront<T>(a: seq<T>, b: seq<T>, c: seq<T>)
    ensures a + c == b + c <==> a == b
  {
    if a + c == b + c {
      assert |a| == |b|;
      assert a == (a + c)[..|a|] == (b + c)[..|b|] == b;
    }
  }

  /**
   If every brace that stands in the card's text after the bracket closes before the end of
   the card, the reader returns what the loop salvages from the rest of that card, and then
   the finished cards after it; this goes wrong exactly if the rest of the card does not
   have the same content as the finished cards up to and including this one.
   */
  lemma StrayKeyKeepsLaterCards(lead: string, pre: string, t: string, items: seq<Value>, cards: seq<Card>, k: nat, x: nat, y: nat)
    requires Blank(lead) && Preamble(pre) && (pre != "" ==> pre[0] != '`')
    requires IsArrayText(t, items, cards) && k < |t| && KeyFirstAt(t[..k], x) && Find(t[..k], "[", x) == Some(y)
    requires RestCloses(t, k, y)
    ensures var m, n := FinishedItems(t, y), FinishedItems(t, k);
            && m <= n <= |cards|
            && CardsIn(lead + pre + t[..k]) == Valid(RestCards(t, k, y)) + Valid(if m < n then cards[m + 1..n] else [])
            && (CardsIn(lead + pre + t[..k]) == Valid(cards[..n]) <==> Valid(RestCards(t, k, y)) == Valid(cards[..Min(m + 1, n)]))
  {
    hide CardsIn, FinishedFrom, Find, Salvage, Valid, HasContent, MatchesAt, SalvageFrom, ReadValue, CardItems, Occurrences, ItemEnd, ClosesBy;
    FindHolds(t[..k], "[", x);
    StrayKeyMovesStart(lead, pre, t, items, cards, k, x, y);
    KeyNeedsItems(t, items, cards, k, x);
    ArrayInside(t, items, cards);
    CharMatch(t[..k], '[', y);
    SalvageInsideItem(t, 1, k, y, items, cards);
    ReplacedFirst(cards, FinishedItems(t, y), FinishedItems(t, k), RestCards(t, k, y));
  }

  /** The cards the loop collects between two positions. */
  function CardsBetween(t: string, y: nat, c: nat): seq<Card>
    requires y <= c <= |t|
  {
    SalvageFrom(t[..c], y)
  }

  /**
   A brace after the bracket that does not close by the cut ends the reading there: all from
   it on is lost, which is wrong exactly if what was collected before it does not have the
   same content as all finished cards.
   */
  lemma StrayKeyStopsAtBrace(lead: string, pre: string, t: string, items: seq<Value>, cards: seq<Card>, k: nat, x: nat, y: nat, c: nat)
    requires Blank(lead) && Preamble(pre) && (pre != "" ==> pre[0] != '`')
    requires IsArrayText(t, items, cards) && k < |t| && KeyFirstAt(t[..k], x) && Find(t[..k], "[", x) == Some(y)
    requires y <= c < k && ClosesBy(t, y, c) && t[c] == '{' && FindClose('{', '}', t[..k], c, OUTSIDE) == None
    ensures var n := FinishedItems(t, k);
            && n <= |cards|
            && CardsIn(lead + pre + t[..k]) == Valid(CardsBetween(t, y, c))
            && (CardsIn(lead + pre + t[..k]) == Valid(cards[..n]) <==> Valid(CardsBetween(t, y, c)) == Valid(cards[..n]))
  {
    hide CardsIn, IsArrayText, Find, Valid, MatchesAt, SalvageFrom, ClosesBy, FindClose, FinishedFrom, Harvest;
    StrayKeyMovesStart(lead, pre, t, items, cards, k, x, y);
    FinishedAtMost(t, items, cards, k);
    SalvageInParts(t, y, c, k);
    SalvageTurn(t[..k], c);
    assert CardsBetween(t, y, c) + [] == CardsBetween(t, y, c);
  }

  /** A brace that closes only after its card, but before the cut, takes the text up to there for one object: it counts if it is a card, and reading goes on behind it. */
  lemma StrayKeyJumpsOverCards(lead: string, pre: string, t: string, items: seq<Value>, cards: seq<Card>, k: nat, x: nat, y: nat, c: nat, q: nat)
    requires Blank(lead) && Preamble(pre) && (pre != "" ==> pre[0] != '`')
    requires IsArrayText(t, items, cards) && k < |t| && KeyFirstAt(t[..k], x) && Find(t[..k], "[", x) == Some(y)
    requires y <= c < k && ClosesBy(t, y, c) && t[c] == '{' && FindClose('{', '}', t[..k], c, OUTSIDE) == Some(q)
    ensures c < q < k && CardsIn(lead + pre + t[..k]) ==
            Valid(CardsBetween(t, y, c)) + (Valid(Harvest(t[c..q + 1])) + Valid(CardsBetween(t, q + 1, k)))
  {
    hide CardsIn, IsArrayText, Find, Valid, MatchesAt, SalvageFrom, ClosesBy, FindClose, Harvest;
    StrayKeyMovesStart(lead, pre, t, items, cards, k, x, y);
    SpanIsShortest('{', '}', t[..k], c);
    SalvageInParts(t, y, c, k);
    SalvageTurn(t[..k], c);
    CutSlice(t, k, c, q + 1);
    var first, own, rest := CardsBetween(t, y, c), Harvest(t[c..q + 1]), CardsBetween(t, q + 1, k);
    ValidTogether(own, rest);
    ValidTogether(first, own + rest);
  }

  lemma {:induction false} PlainCloses(t: string, c: nat, e: nat)
    requires c <= e <= |t| && forall p :: c <= p < e ==> t[p] != '{'
    ensures ClosesBy(t, c, e)
    decreases e - c
  {
    if c < e {
      PlainCloses(t, c + 1, e);
    }
  }

  /** In particular, if the card opens no object after the bracket, nothing is left of it: that card and all before it are lost. */
  lemma StrayKeyLosesUpToCard(lead: string, pre: string, t: string, items: seq<Value>, cards: seq<Card>, k: nat, x: nat, y: nat)
    requires Blank(lead) && Preamble(pre) && (pre != "" ==> pre[0] != '`')
    requires IsArrayText(t, items, cards) && k < |t| && KeyFirstAt(t[..k], x) && Find(t[..k], "[", x) == Some(y)
    requires forall p :: y <= p < RestEnd(t, k, y) ==> t[p] != '{'
    ensures var m, n := FinishedItems(t, y), FinishedItems(t, k);
            && m <= n <= |cards|
            && CardsIn(lead + pre + t[..k]) == Valid(if m < n then cards[m + 1..n] else [])
            && (CardsIn(lead + pre + t[..k]) == Valid(cards[..n]) <==> forall j :: 0 <= j <= m && j < n ==> !HasContent(cards[j]))
  {
    hide CardsIn, FinishedFrom, Find, Valid, HasContent, MatchesAt, SalvageFrom, CardItems, Occurrences, ItemEnd, IsArrayText, ClosesBy, KeyFirstAt;
    var c := RestEnd(t, k, y);
    if y <= c {
      PlainCloses(t, y, c);
      SalvagePlain(t[..c], y, c);
      SalvageEnd(t[..c]);
    }
    StrayKeyKeepsLaterCards(lead, pre, t, items, cards, k, x, y);
    NothingValid([]);
    var first := cards[..Min(FinishedItems(t, y) + 1, FinishedItems(t, k))];
    ValidIsNothing(first);
    assert forall j :: 0 <= j < |first| ==> first[j] == cards[j];
  }

  // ---------- a response that loses its card ----------

  const KEYED_CARD := Card(Some("cards"), Some("x"), None, None, None)
  const KEYED_VALUE := Obj([Member("title", Str("cards")), Member("content", Str("x"))])
  const KEYED_TEXT := "{\"title\":\"cards\",\"content\":\"x\"}"

  lemma KeyedPrints()
    ensures Print(KEYED_VALUE) == KEYED_TEXT && Printable(KEYED_VALUE)
    ensures Print(Arr([KEYED_VALUE])) == "[" + KEYED_TEXT + "]" && Printable(Arr([KEYED_VALUE]))
  {
    hide Print, PrintItems, Printable, Quoted;
    TwoMembersPrint(Member("title", Str("cards")), Member("content", Str("x")));
    KeyedNames();
    KeyedTexts();
    KeyedSpelled();
    OneItemPrints(KEYED_VALUE);
    PrintableIf([KEYED_VALUE]);
  }

  lemma KeyedNames()
    ensures Quoted("title") == "\"title\"" && Quoted("content") == "\"content\""
  {
    hide Escaped, Quoted;
    EscapedPlain("title");
    EscapedPlain("content");
  }

  lemma KeyedTexts()
    ensures Print(Str("cards")) == "\"cards\"" && Print(Str("x")) == "\"x\""
  {
    hide Escaped, Quoted;
    EscapedPlain("cards");
    EscapedPlain("x");
  }

  lemma KeyedSpelled()
    ensures "{" + ("\"title\"" + ":" + "\"cards\"") + "," + ("\"content\"" + ":" + "\"x\"") + "}" == KEYED_TEXT
  {
  }

  lemma TwoMembersPrint(a: Member, b: Member)
    requires a.value.Str? && b.value.Str?
    ensures Print(Obj([a, b])) == "{" + (Quoted(a.key) + ":" + Print(a.value)) + "," + (Quoted(b.key) + ":" + Print(b.value)) + "}"
    ensures Printable(Obj([a, b]))
  {
    hide Quoted;
    assert [a, b][1..] == [b];
    assert PrintMembers([b]) == PrintMember(b);
    assert PrintMembers([a, b]) == PrintMember(a) + "," + PrintMember(b);
  }

  lemma KeyedReads()
    ensures DecodeCard(KEYED_VALUE) == Some(KEYED_CARD) && Occurrences(KEYED_VALUE.members, "cards") == 0
  {
    hide Occurrences, Lookup;
    var ms := KEYED_VALUE.members;
    forall key: string
      ensures Occurrences(ms, key) == if key == "title" || key == "content" then 1 else 0
      ensures Lookup(ms, key) == if key == "title" then Str("cards") else if key == "content" then Str("x") else Null
    {
      TwoKeys(ms[0], ms[1], key);
    }
    assert "compressed"[0] == 'c' && "compressed"[2] == 'm' && "use_image"[0] == 'u' && "image_query"[0] == 'i' && "cards"[0] == 'c' && "cards"[1] == 'a';
  }

  lemma TwoKeys(a: Member, b: Member, key: string)
    requires a.key != b.key
    ensures Occurrences([a, b], key) == if key == a.key || key == b.key then 1 else 0
    ensures Lookup([a, b], key) == if key == a.key then a.value else if key == b.key then b.value else Null
  {
    assert [a, b][1..] == [b] && [b][1..] == [];
    assert Occurrences([b], key) == (if key == b.key then 1 else 0) && Lookup([b], key) == if key == b.key then b.value else Null;
  }

  const KEYED_ARRAY := "[{\"title\":\"cards\",\"content\":\"x\"}]"

  lemma ArrayOfOne(t: string, v: Value, card: Card)
    requires v.Obj? && Occurrences(v.members, "cards") == 0 && DecodeCard(v) == Some(card)
    requires Printable(v) && Printable(Arr([v])) && Print(v) != ""
    requires t == "[" + Print(v) + "]" && Print(Arr([v])) == t
    ensures IsArrayText(t, [v], [card]) && ReadValue(t, 1) == Some(At(v, |t| - 1))
  {
    hide Print, Printable, ReadValue, DecodeCard, Occurrences, PrintItems, PrintMembers;
    assert t[0..|t|] == t && t[1..|t| - 1] == Print(v) && t[|t| - 1] == ']';
    ReadsValue(Arr([v]), t, 0);
    ReadsValue(v, t, 1);
    OnlyOne(v, card);
  }

  lemma KeyedIsArray()
    ensures IsArrayText(KEYED_ARRAY, [KEYED_VALUE], [KEYED_CARD])
    ensures ReadValue(KEYED_ARRAY, 1) == Some(At(KEYED_VALUE, |KEYED_ARRAY| - 1))
  {
    hide Print, Printable, ReadValue, DecodeCard, Occurrences, IsArrayText;
    KeyedPrints();
    KeyedReads();
    KeyedBrackets();
    ArrayOfOne(KEYED_ARRAY, KEYED_VALUE, KEYED_CARD);
  }

  lemma KeyedBrackets()
    ensures KEYED_ARRAY == "[" + KEYED_TEXT + "]"
  {
  }

  lemma KeyedCut()
    ensures KEYED_ARRAY[..|KEYED_ARRAY| - 1] == KEYED_HEAD + (CARDS_KEY + ",\"content\":\"x\"}")
  {
  }

  /** A response cut right before the bracket at its end loses its only card, finished and with content: the card is titled like the key of a batch. */
  lemma StrayKeyLosesCard()
    ensures IsArrayText(KEYED_ARRAY, [KEYED_VALUE], [KEYED_CARD]) && HasContent(KEYED_CARD)
    ensures var k := |KEYED_ARRAY| - 1; FinishedItems(KEYED_ARRAY, k) == 1 && CardsIn(KEYED_ARRAY[..k]) == []
  {
    hide CardsIn, IsArrayText, ReadValue, Trim, FinishedFrom;
    KeyedIsArray();
    KeyedCut();
    KeyedKey(KEYED_ARRAY[..|KEYED_ARRAY| - 1]);
    LostWithKey(KEYED_ARRAY, KEYED_ARRAY[..|KEYED_ARRAY| - 1], KEYED_VALUE, KEYED_CARD, 10);
    TrimmedStays("x");
  }

  /** An array of one card, cut before its last character. */
  lemma LostWithKey(t: string, u: string, v: Value, card: Card, x: nat)
    requires IsArrayText(t, [v], [card]) && |t| >= 1 && ReadValue(t, 1) == Some(At(v, |t| - 1))
    requires u == t[..|t| - 1] && KeyFirstAt(u, x) && forall y :: x <= y < |u| ==> u[y] != '['
    ensures FinishedItems(t, |t| - 1) == 1 && CardsIn(u) == []
  {
    hide CardsIn, IsArrayText, ReadValue, MatchesAt, Find, SkipSpace, FinishedFrom;
    var k := |t| - 1;
    FindChar(u, '[', x, k);
    assert "" + "" + u == u;
    StrayKeyLosesCards("", "", t, [v], [card], k, x);
    FinishedTurn(t, 1, k);
    FinishedAtMost(t, [v], [card], k);
  }

  const KEYED_HEAD := "[{\"title\":"

  lemma KeyedKey(u: string)
    requires u == KEYED_HEAD + (CARDS_KEY + ",\"content\":\"x\"}")
    ensures KeyFirstAt(u, 10) && forall x :: 10 <= x < |u| ==> u[x] != '['
  {
    hide MatchesAt;
    var rest := CARDS_KEY + ",\"content\":\"x\"}";
    assert rest[..7] == CARDS_KEY && u[10..17] == rest[..7];
    MatchHere(u, CARDS_KEY, 10);
    assert forall x :: 10 <= x < |u| ==> u[x] == rest[x - 10];
    assert forall x :: 0 <= x < 10 ==> u[x] == KEYED_HEAD[x];
    forall x | 0 <= x < 10
      ensures !MatchesAt(u, CARDS_KEY, x)
    {
      NoMatch(u, CARDS_KEY, x, if x == 2 || x == 8 then 1 else 0);
    }
  }
}
