/** Which cards the reader returns: exactly those whose content is not blank, in order. */
module CardContents {
  import opened Options
  import opened Text
  import opened Ink
  import Json
  import opened CardBatch
  import opened CardBatchCuts
  import opened CardBatchArrays

  /** The card has a content with a character that is not blank. */
  ghost predicate Tells(card: Card) {
    card.content.Some? && HasInk(card.content.value)
  }

  /** The result consists of the cards at the given positions, which are those of the cards that tell something, in order. */
  ghost predicate SelectedAt(result: seq<Card>, cards: seq<Card>, positions: seq<nat>) {
    && |positions| == |result|
    && (forall j :: 0 <= j < |result| ==> positions[j] < |cards| && result[j] == cards[positions[j]])
    && (forall i, j :: 0 <= i < j < |positions| ==> positions[i] < positions[j])
    && forall i :: 0 <= i < |cards| ==> (Tells(cards[i]) <==> i in positions)
  }

  ghost predicate IsSelection(result: seq<Card>, cards: seq<Card>) {
    exists positions :: SelectedAt(result, cards, positions)
  }

  lemma ContentTells(card: Card)
    ensures HasContent(card) <==> Tells(card)
  {
    hide Trim, Blank, HasInk;
    if card.content.Some? {
      BlankTrims(card.content.value);
      NoInk(card.content.value);
    }
  }

  lemma {:induction false} ValidSelects(cards: seq<Card>)
    ensures IsSelection(Valid(cards), cards)
  {
    hide HasContent, Tells, SelectedAt, Valid;
    if cards == [] {
      NothingValid(cards);
      NothingSelected();
    } else {
      var n := |cards| - 1;
      var last := cards[n];
      assert cards == cards[..n] + [last];
      ValidSelects(cards[..n]);
      var positions :| SelectedAt(Valid(cards[..n]), cards[..n], positions);
      ValidParts(cards[..n], last);
      ContentTells(last);
      SelectsOneMore(Valid(cards[..n]), cards[..n], positions, last);
      assert Valid(cards[..n]) + [] == Valid(cards[..n]);
    }
  }

  lemma NothingSelected()
    ensures SelectedAt([], [], [])
  {
  }

  lemma SelectsOneMore(result: seq<Card>, cards: seq<Card>, positions: seq<nat>, card: Card)
    requires SelectedAt(result, cards, positions)
    ensures if Tells(card) then SelectedAt(result + [card], cards + [card], positions + [|cards|]) else SelectedAt(result, cards + [card], positions)
  {
    hide Tells;
    assert forall i :: i in positions ==> i < |cards|;
  }

  lemma ValidFirst(cards: seq<Card>)
    requires cards != []
    ensures Valid(cards) == (if HasContent(cards[0]) then [cards[0]] else []) + Valid(cards[1..])
  {
    hide HasContent;
  }

  lemma {:induction false} ValidParts(cards: seq<Card>, last: Card)
    ensures Valid(cards + [last]) == Valid(cards) + if HasContent(last) then [last] else []
    decreases |cards|
  {
    hide HasContent, Valid;
    ValidFirst(cards + [last]);
    NothingValid([]);
    if cards == [] {
      assert cards + [last] == [last] && [last][1..] == [];
    } else {
      assert (cards + [last])[1..] == cards[1..] + [last];
      ValidParts(cards[1..], last);
      ValidFirst(cards);
    }
  }

  lemma SelectionTells(result: seq<Card>, cards: seq<Card>)
    requires IsSelection(result, cards)
    ensures forall card :: card in result ==> Tells(card)
  {
    hide Tells;
    var positions :| SelectedAt(result, cards, positions);
    forall card | card in result
      ensures Tells(card)
    {
      var j :| 0 <= j < |result| && result[j] == card;
      assert positions[j] in positions;
    }
  }

  /** Whatever the response, every card the reader returns has a content that is not blank. */
  lemma EveryCardTells(raw: string)
    ensures forall card :: card in CardsIn(raw) ==> Tells(card)
  {
    hide Tells, JsonText, Extract, Valid, SalvageFrom, ArrayOpen, IsSelection;
    var text := JsonText(raw);
    var cards := SomeCards(text);
    ValidSelects(cards);
    SelectionTells(Valid(cards), cards);
  }

  /** Each fallback ends with the same selection. */
  lemma SomeCards(text: string) returns (cards: seq<Card>)
    ensures ReadCards(text) == Valid(cards)
  {
    hide Extract, Valid, SalvageFrom, ArrayOpen, BatchOf;
    var objectText, arrayText := Extract('{', '}', text), Extract('[', ']', text);
    if BatchOf(text).Some? {
      cards := BatchCards(text);
    } else if objectText.Some? && BatchOf(objectText.value).Some? {
      cards := BatchCards(objectText.value);
    } else if arrayText.Some? && BatchOf(arrayText.value).Some? {
      cards := BatchCards(arrayText.value);
    } else if ArrayOpen(text).Some? {
      cards := SalvageFrom(text, ArrayOpen(text).value);
    } else {
      cards := [];
      NothingValid([]);
    }
  }

  lemma BatchCards(text: string) returns (cards: seq<Card>)
    requires BatchOf(text).Some?
    ensures BatchOf(text).value == Valid(cards)
  {
    hide Valid, DecodeBatch, DecodeCards;
    var v := Json.ReadDocument(text).value;
    cards := if DecodeBatch(v).Some? then DecodeBatch(v).value else DecodeCards(v).value;
  }

  /** A cut batch gives exactly the cards finished by the cut that tell something. */
  lemma CutBatchSelects(lead: string, pre: string, t: string, cards: seq<Card>, k: nat)
    requires Blank(lead) && Preamble(pre) && (pre != "" ==> pre[0] != '`')
    requires IsBatchText(t, cards) && k <= |t|
    ensures Finished(t, k) <= |cards| && IsSelection(CardsIn(lead + pre + t[..k]), cards[..Finished(t, k)])
  {
    hide CardsIn, Valid, IsBatchText, Finished, IsSelection;
    BatchStarts(t, cards);
    CutBatchRecoversFinishedCards(lead, pre, t, cards, k);
    ValidSelects(cards[..Finished(t, k)]);
  }

  /** A whole batch in any prose gives exactly its cards that tell something. */
  lemma WholeBatchSelects(lead: string, pre: string, t: string, post: string, cards: seq<Card>)
    requires Blank(lead) && Preamble(pre) && (pre != "" ==> pre[0] != '`') && IsBatchText(t, cards)
    ensures IsSelection(CardsIn(lead + pre + t + post), cards) && IsSelection(CardsIn(FENCE + t + CLOSING), cards)
  {
    hide CardsIn, Valid, IsBatchText, IsSelection;
    WholeBatchInProse(lead, pre, t, post, cards);
    WholeFencedBatch(t, cards);
    ValidSelects(cards);
  }

  /** A cut batch in an opening fence gives exactly the cards finished by the last fence inside that tell something. */
  lemma FencedCutSelects(t: string, cards: seq<Card>, k: nat)
    requires IsBatchText(t, cards) && k <= |t|
    ensures Finished(t, FencedCut(t, k)) <= |cards| && IsSelection(CardsIn(FENCE + t[..k]), cards[..Finished(t, FencedCut(t, k))])
  {
    hide CardsIn, Valid, IsBatchText, Finished, IsSelection, FencedCut;
    BatchStarts(t, cards);
    FencedCutRecovers(t, cards, k);
    ValidSelects(cards[..Finished(t, FencedCut(t, k))]);
  }

  /** So does a cut bare array without a stray key. */
  lemma CutArraySelects(lead: string, pre: string, t: string, items: seq<Json.Value>, cards: seq<Card>, k: nat)
    requires Blank(lead) && Preamble(pre) && (pre != "" ==> pre[0] != '`')
    requires IsArrayText(t, items, cards) && k <= |t| && (k == |t| || KeyFree(t[..k]))
    ensures FinishedItems(t, k) <= |cards| && IsSelection(CardsIn(lead + pre + t[..k]), cards[..FinishedItems(t, k)])
  {
    hide CardsIn, Valid, IsArrayText, FinishedItems, IsSelection, KeyFree;
    CutArrayRecoversFinishedCards(lead, pre, t, items, cards, k);
    ValidSelects(cards[..FinishedItems(t, k)]);
  }

  // ---------- what a decoded card is made of ----------

  /** A field of a card and the value it was read from, which is missing or null if the field is. */
  predicate TextFrom(field: Option<string>, v: Option<Json.Value>) {
    match field
    case Some(s) => v == Some(Json.Str(s))
    case None => v == None || v == Some(Json.Null)
  }

  predicate ValueFrom(field: Option<Json.Value>, v: Option<Json.Value>) {
    match field
    case Some(x) => v == Some(x) && x != Json.Null
    case None => v == None || v == Some(Json.Null)
  }

  predicate TextOrNothing(v: Option<Json.Value>) {
    v.Some? ==> v.value.Str? || v.value.Null?
  }

  function Item(xs: seq<Json.Value>, k: nat): Option<Json.Value> {
    if k < |xs| then Some(xs[k]) else None
  }

  /** An array is a card exactly if it has three to five items, the first three texts or null: title, content, compressed text, then the two flags. */
  lemma CardByPosition(xs: seq<Json.Value>)
    ensures DecodeCard(Json.Arr(xs)).Some? <==> 3 <= |xs| <= 5 && forall k :: 0 <= k < 3 ==> TextOrNothing(Item(xs, k))
    ensures match DecodeCard(Json.Arr(xs))
            case Some(card) =>
              && TextFrom(card.title, Item(xs, 0)) && TextFrom(card.content, Item(xs, 1)) && TextFrom(card.compressed, Item(xs, 2))
              && ValueFrom(card.useImage, Item(xs, 3)) && ValueFrom(card.imageQuery, Item(xs, 4))
            case None => true
  {
    if 3 <= |xs| <= 5 && forall k :: 0 <= k < 3 ==> TextOrNothing(Item(xs, k)) {
      assert TextOrNothing(Item(xs, 0)) && TextOrNothing(Item(xs, 1)) && TextOrNothing(Item(xs, 2));
    }
  }

  /** The member of that name, if the object has one. */
  ghost predicate IsMember(ms: seq<Json.Member>, key: string, v: Option<Json.Value>) {
    match v
    case Some(x) => exists k :: 0 <= k < |ms| && ms[k].key == key && ms[k].value == x
    case None => forall k :: 0 <= k < |ms| ==> ms[k].key != key
  }

  ghost predicate NamedOnce(ms: seq<Json.Member>, key: string) {
    forall i, j :: 0 <= i < j < |ms| ==> ms[i].key != key || ms[j].key != key
  }

  /** How often a key occurs tells whether it is there and whether it is there twice. */
  lemma {:induction false} OccurrencesTell(ms: seq<Json.Member>, key: string)
    ensures Occurrences(ms, key) == 0 <==> forall k :: 0 <= k < |ms| ==> ms[k].key != key
    ensures Occurrences(ms, key) <= 1 <==> NamedOnce(ms, key)
    ensures if Occurrences(ms, key) == 0 then Lookup(ms, key) == Json.Null else IsMember(ms, key, Some(Lookup(ms, key)))
  {
    if ms != [] {
      var rest := ms[1..];
      OccurrencesTell(rest, key);
      assert forall k :: 0 <= k < |rest| ==> rest[k] == ms[k + 1];
      assert forall k :: 1 <= k < |ms| ==> ms[k] == rest[k - 1];
      if ms[0].key != key && Occurrences(rest, key) > 0 {
        var k :| 0 <= k < |rest| && rest[k].key == key && rest[k].value == Lookup(rest, key);
        assert ms[k + 1].key == key;
      }
      if !NamedOnce(rest, key) {
        var i, j :| 0 <= i < j < |rest| && rest[i].key == key && rest[j].key == key;
        assert ms[i + 1].key == key && ms[j + 1].key == key;
      } else if ms[0].key == key && Occurrences(rest, key) > 0 {
        var k :| 0 <= k < |rest| && rest[k].key == key;
        assert ms[0].key == key && ms[k + 1].key == key;
      }
      if NamedOnce(rest, key) && (ms[0].key != key || Occurrences(rest, key) == 0) {
        forall i, j | 0 <= i < j < |ms|
          ensures ms[i].key != key || ms[j].key != key
        {
          assert ms[j] == rest[j - 1];
          assert i > 0 ==> ms[i] == rest[i - 1];
        }
      }
    }
  }

  /** The value a card's field is read from: the member of its name, or null if there is none. */
  ghost predicate ReadsFrom(v: Json.Value, ms: seq<Json.Member>, key: string) {
    IsMember(ms, key, Some(v)) || (v == Json.Null && IsMember(ms, key, None))
  }

  lemma LookupReads(ms: seq<Json.Member>, key: string)
    ensures ReadsFrom(Lookup(ms, key), ms, key)
  {
    OccurrencesTell(ms, key);
  }

  /** What is read under that name is a text or null wherever it stands. */
  ghost predicate TextMembers(ms: seq<Json.Member>, key: string) {
    forall k :: 0 <= k < |ms| && ms[k].key == key ==> ms[k].value.Str? || ms[k].value.Null?
  }

  lemma LookupIsText(ms: seq<Json.Member>, key: string)
    requires NamedOnce(ms, key)
    ensures TextMembers(ms, key) <==> Lookup(ms, key).Str? || Lookup(ms, key).Null?
    ensures forall k :: 0 <= k < |ms| && ms[k].key == key ==> ms[k].value == Lookup(ms, key)
  {
    hide Lookup, Occurrences;
    OccurrencesTell(ms, key);
    if Occurrences(ms, key) > 0 {
      var i :| 0 <= i < |ms| && ms[i].key == key && ms[i].value == Lookup(ms, key);
      assert forall k :: 0 <= k < |ms| && ms[k].key == key ==> k == i;
    }
  }

  /** An object is a card exactly if none of the five names is in it twice and the three texts are texts or null; each field is the member of its name, wherever it stands, and what other members it has does not matter. */
  lemma CardByName(ms: seq<Json.Member>)
    ensures var r := DecodeCard(Json.Obj(ms));
            && (r.Some? <==> && (forall key :: key in ["title", "content", "compressed", "use_image", "image_query"] ==> NamedOnce(ms, key))
                             && TextMembers(ms, "title") && TextMembers(ms, "content") && TextMembers(ms, "compressed"))
            && (r.Some? ==> exists t, c, z, u, q :: FieldsFrom(r.value, ms, t, c, z, u, q))
  {
    hide Lookup, Occurrences, NamedOnce, IsMember, ReadsFrom, TextMembers;
    forall key
      ensures Occurrences(ms, key) <= 1 <==> NamedOnce(ms, key)
      ensures ReadsFrom(Lookup(ms, key), ms, key)
    {
      OccurrencesTell(ms, key);
      LookupReads(ms, key);
    }
    forall key | NamedOnce(ms, key)
      ensures TextMembers(ms, key) <==> Lookup(ms, key).Str? || Lookup(ms, key).Null?
    {
      LookupIsText(ms, key);
    }
    if DecodeCard(Json.Obj(ms)).Some? {
      assert FieldsFrom(DecodeCard(Json.Obj(ms)).value, ms, Lookup(ms, "title"), Lookup(ms, "content"), Lookup(ms, "compressed"), Lookup(ms, "use_image"), Lookup(ms, "image_query"));
    }
  }

  ghost predicate FieldsFrom(card: Card, ms: seq<Json.Member>, t: Json.Value, c: Json.Value, z: Json.Value, u: Json.Value, q: Json.Value) {
    && ReadsFrom(t, ms, "title") && TextFrom(card.title, Some(t))
    && ReadsFrom(c, ms, "content") && TextFrom(card.content, Some(c))
    && ReadsFrom(z, ms, "compressed") && TextFrom(card.compressed, Some(z))
    && ReadsFrom(u, ms, "use_image") && ValueFrom(card.useImage, Some(u))
    && ReadsFrom(q, ms, "image_query") && ValueFrom(card.imageQuery, Some(q))
  }

  /** A list of values is one of cards exactly if each is a card. */
  lemma {:induction false} CardsAreItems(xs: seq<Json.Value>)
    ensures DecodeCards(Json.Arr(xs)).Some? <==> forall k :: 0 <= k < |xs| ==> DecodeCard(xs[k]).Some?
  {
    hide DecodeCard;
    if xs != [] {
      CardsAreItems(xs[1..]);
      assert forall k :: 1 <= k < |xs| ==> xs[k] == xs[1..][k - 1];
    }
  }

  /** An object is a batch only if it has the cards exactly once, and then it has those of that list; an array only if the list is all it has. */
  lemma BatchByName(ms: seq<Json.Member>, v: Json.Value, xs: seq<Json.Value>)
    ensures !NamedOnce(ms, "cards") || IsMember(ms, "cards", None) ==> DecodeBatch(Json.Obj(ms)) == None
    ensures NamedOnce(ms, "cards") && IsMember(ms, "cards", Some(v)) ==> DecodeBatch(Json.Obj(ms)) == DecodeCards(v)
    ensures DecodeBatch(Json.Arr(xs)) == if |xs| == 1 then DecodeCards(xs[0]) else None
  {
    hide Lookup, Occurrences, DecodeCards;
    OccurrencesTell(ms, "cards");
    if NamedOnce(ms, "cards") {
      LookupIsText(ms, "cards");
    }
  }
}
