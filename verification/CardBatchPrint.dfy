/**
 Printed batches: whatever cards a model writes, cutting the text it writes them in
 gives back the cards written so far.
 */
module CardBatchPrint {
  import opened Options
  import opened Json
  import opened JsonPrint
  import opened Sequences
  import opened CardBatch
  import opened CardBatchCuts

  function TextValue(s: Option<string>): Value {
    if s.Some? then Str(s.value) else Null
  }

  function FlagValue(v: Option<Value>): Value {
    if v.Some? then v.value else Null
  }

  function CardMembers(c: Card): seq<Member> {
    [Member("title", TextValue(c.title)), Member("content", TextValue(c.content)),
     Member("compressed", TextValue(c.compressed)), Member("use_image", FlagValue(c.useImage)),
     Member("image_query", FlagValue(c.imageQuery))]
  }

  function CardValue(c: Card): Value {
    Obj(CardMembers(c))
  }

  function CardValues(cards: seq<Card>): (r: seq<Value>)
    ensures |r| == |cards| && forall k :: 0 <= k < |cards| ==> r[k] == CardValue(cards[k])
  {
    if cards == [] then [] else [CardValue(cards[0])] + CardValues(cards[1..])
  }

  function BatchMember(cards: seq<Card>): Member {
    Member("cards", Arr(CardValues(cards)))
  }

  function BatchValue(cards: seq<Card>): Value {
    Obj([BatchMember(cards)])
  }

  function PrintBatch(cards: seq<Card>): string {
    Print(BatchValue(cards))
  }

  predicate FlagPrintable(v: Option<Value>) {
    v.Some? ==> !v.value.Null? && Printable(v.value)
  }

  /** A flag is absent or a printable value, as null and absent read alike. */
  predicate CardPrintable(c: Card) {
    FlagPrintable(c.useImage) && FlagPrintable(c.imageQuery)
  }

  lemma OccursOnce(ms: seq<Member>, key: string)
    requires forall a, b :: 0 <= a < b < |ms| ==> ms[a].key != ms[b].key
    ensures Occurrences(ms, key) <= 1
    ensures forall a :: 0 <= a < |ms| && ms[a].key == key ==> Lookup(ms, key) == ms[a].value
  {
    if ms != [] {
      OccursOnce(ms[1..], key);
      if ms[0].key == key && Occurrences(ms[1..], key) > 0 {
        OccursSomewhere(ms[1..], key);
      }
      forall a | 1 <= a < |ms| && ms[a].key == key
        ensures Lookup(ms, key) == ms[a].value
      {
        assert ms[1..][a - 1] == ms[a];
      }
    }
  }

  lemma OccursSomewhere(ms: seq<Member>, key: string)
    requires Occurrences(ms, key) > 0
    ensures exists a :: 0 <= a < |ms| && ms[a].key == key
  {
    if ms[0].key != key {
      OccursSomewhere(ms[1..], key);
      var a :| 0 <= a < |ms[1..]| && ms[1..][a].key == key;
      assert ms[a + 1].key == key;
    }
  }

  lemma CardReadsBack(c: Card)
    requires CardPrintable(c)
    ensures DecodeCard(CardValue(c)) == Some(c)
  {
    hide Occurrences, Lookup, Printable;
    var ms := CardMembers(c);
    assert ms[0].key == "title" && ms[1].key == "content" && ms[2].key == "compressed" && ms[3].key == "use_image" && ms[4].key == "image_query";
    forall key
      ensures Occurrences(ms, key) <= 1
    {
      OccursOnce(ms, key);
    }
    OccursOnce(ms, "title");
    OccursOnce(ms, "content");
    OccursOnce(ms, "compressed");
    OccursOnce(ms, "use_image");
    OccursOnce(ms, "image_query");
  }

  lemma {:induction false} CardsReadBack(cards: seq<Card>)
    requires forall k :: 0 <= k < |cards| ==> CardPrintable(cards[k])
    ensures DecodeAll(CardValues(cards)) == Some(cards)
  {
    hide DecodeCard, CardPrintable, CardValue;
    if cards != [] {
      CardReadsBack(cards[0]);
      CardsReadBack(cards[1..]);
      assert CardValues(cards)[1..] == CardValues(cards[1..]);
      assert CardValues(cards)[0] == CardValue(cards[0]);
      assert [cards[0]] + cards[1..] == cards;
    }
  }

  lemma CardValuePrintable(c: Card)
    requires CardPrintable(c)
    ensures Printable(CardValue(c))
  {
    hide NumberText;
    var ms := CardMembers(c);
    forall k | 0 <= k < |ms|
      ensures Printable(ms[k].value)
    {
    }
  }

  lemma BatchPrintable(cards: seq<Card>)
    requires forall k :: 0 <= k < |cards| ==> CardPrintable(cards[k])
    ensures Printable(BatchValue(cards)) && Printable(Arr(CardValues(cards)))
  {
    hide CardPrintable, CardValue, Printable;
    forall x | x in CardValues(cards)
      ensures Printable(x)
    {
      var k :| 0 <= k < |cards| && CardValues(cards)[k] == x;
      CardValuePrintable(cards[k]);
    }
    PrintableIf(CardValues(cards));
  }

  lemma PrintableIf(items: seq<Value>)
    requires forall x :: x in items ==> Printable(x)
    ensures Printable(Arr(items)) && Printable(Obj([Member("cards", Arr(items))]))
  {
    hide NumberText;
  }

  const HEAD := "{\"cards\":["

  lemma PlainEscaped(c: char, s: string, e: string)
    requires c != '"' && c != '\\' && c >= ' ' && Escaped(s) == e
    ensures Escaped([c] + s) == [c] + e
  {
    assert ([c] + s)[1..] == s;
  }

  lemma CardsKeyPrinted()
    ensures Quoted("cards") == CARDS_KEY
  {
    PlainEscaped('s', "", "");
    PlainEscaped('d', "s", "s");
    PlainEscaped('r', "ds", "ds");
    PlainEscaped('a', "rds", "rds");
    PlainEscaped('c', "ards", "ards");
  }

  /** The printed batch is its head, its items and two closing delimiters. */
  lemma BatchShape(cards: seq<Card>)
    ensures PrintBatch(cards) == HEAD + (PrintItems(CardValues(cards)) + "]" + "}")
  {
    hide PrintItems, CardValues, Quoted;
    CardsKeyPrinted();
    var m := BatchMember(cards);
    var items := PrintItems(CardValues(cards));
    assert PrintMembers([m]) == PrintMember(m);
    assert PrintMember(m) == CARDS_KEY + ":" + ("[" + items + "]");
    assert PrintBatch(cards) == "{" + PrintMember(m) + "}";
    assert HEAD == "{" + CARDS_KEY + ":" + "[";
  }

  /** Every printed batch is a well-formed batch text. */
  lemma PrintedBatchIsBatchText(cards: seq<Card>)
    requires forall k :: 0 <= k < |cards| ==> CardPrintable(cards[k])
    ensures IsBatchText(PrintBatch(cards), cards)
  {
    hide ReadValue, SkipSpace, DecodeAll, Printable, Print, CardPrintable, CardValue, CardValues, PrintItems;
    var t := PrintBatch(cards);
    BatchShape(cards);
    BatchPrintable(cards);
    CardsReadBack(cards);
    assert t[0..|t|] == t;
    ReadsValue(BatchValue(cards), t, 0);
    assert t[0] == '{' && t[1] == '"';
    NoSpace(t, 1);
    assert t[1..8] == HEAD[1..8] == CARDS_KEY;
    forall x | x in CardValues(cards)
      ensures x.Obj?
    {
      CardIsObject(cards, x);
    }
  }

  lemma CardIsObject(cards: seq<Card>, x: Value)
    requires x in CardValues(cards)
    ensures x.Obj?
  {
    var k :| 0 <= k < |cards| && CardValues(cards)[k] == x;
    assert CardValue(cards[k]).Obj?;
  }

  lemma PrintItemsTurn(v: Value, rest: seq<Value>)
    ensures PrintItems([v] + rest) == Print(v) + (if rest == [] then "" else "," + PrintItems(rest))
  {
    hide Print;
    assert ([v] + rest)[1..] == rest;
  }

  /** n counts the printed items that end at or before k. */
  ghost predicate Counts(items: seq<Value>, i: nat, k: nat, n: nat) {
    && n <= |items|
    && (n > 0 ==> i + |PrintItems(items[..n])| <= k)
    && (n < |items| ==> k < i + |PrintItems(items[..n + 1])|)
  }

  lemma CountsNone(v: Value, rest: seq<Value>, i: nat, k: nat)
    requires k < i + |Print(v)|
    ensures Counts([v] + rest, i, k, 0)
  {
    hide Print;
    assert ([v] + rest)[..1] == [v] + [];
    PrintItemsTurn(v, []);
  }

  lemma CountsMore(v: Value, rest: seq<Value>, i: nat, k: nat, n: nat)
    requires i + |Print(v)| <= k && Counts(rest, i + |Print(v)| + 1, k, n)
    ensures Counts([v] + rest, i, k, n + 1)
  {
    hide Print, PrintItems;
    var items := [v] + rest;
    assert items[..n + 1] == [v] + rest[..n];
    PrintItemsTurn(v, rest[..n]);
    if n < |rest| {
      assert items[..n + 2] == [v] + rest[..n + 1];
      PrintItemsTurn(v, rest[..n + 1]);
    }
  }

  lemma {:induction false} FinishedPrinted(items: seq<Value>, t: string, i: nat, k: nat)
    requires items != [] && (forall x :: 0 <= x < |items| ==> Printable(items[x]))
    requires Stands(PrintItems(items) + "]", t, i)
    ensures Counts(items, i, k, FinishedFrom(t, i, k))
    decreases |items|
  {
    hide ReadValue, SkipSpace, Printable, Print, Stands, PrintItems, FinishedFrom, Counts;
    var v, rest := items[0], items[1..];
    var p := Print(v);
    assert items == [v] + rest;
    FirstPrinted(v, rest, t, i);
    FinishedTurn(t, i, k);
    if k < i + |p| {
      CountsNone(v, rest, i, k);
    } else if rest != [] {
      FinishedPrinted(rest, t, i + |p| + 1, k);
      CountsMore(v, rest, i, k, FinishedFrom(t, i + |p| + 1, k));
    } else {
      assert Counts(rest, i + |p| + 1, k, 0) by { CountsEmpty(i + |p| + 1, k); }
      CountsMore(v, rest, i, k, 0);
    }
  }

  /** The first item of a printed list reads back, and what follows it is a comma and the other items, or the bracket. */
  lemma FirstPrinted(v: Value, rest: seq<Value>, t: string, i: nat)
    requires Printable(v) && Stands(PrintItems([v] + rest) + "]", t, i)
    ensures var e := i + |Print(v)|;
            && i <= |t| && ReadValue(t, i) == Some(At(v, e)) && e < |t| && SkipSpace(t, e) == e
            && (if rest == [] then t[e] == ']' else t[e] == ',' && Stands(PrintItems(rest) + "]", t, e + 1))
  {
    hide ReadValue, SkipSpace, Printable, Print, Stands, PrintItems;
    var p := Print(v);
    var tail := if rest == [] then "]" else "," + (PrintItems(rest) + "]");
    PrintItemsTurn(v, rest);
    assert PrintItems([v] + rest) + "]" == p + tail;
    StandsParts(p, tail, t, i);
    StandsAt(tail, t, i + |p|, 0);
    assert !NumberChar(',') && !NumberChar(']');
    ReadsValue(v, t, i);
    NoSpace(t, i + |p|);
    if rest != [] {
      StandsParts(",", PrintItems(rest) + "]", t, i + |p|);
    }
  }

  lemma CountsEmpty(i: nat, k: nat)
    ensures Counts([], i, k, 0)
  {
  }

  lemma FinishedOfPrint(cards: seq<Card>, k: nat)
    requires forall x :: 0 <= x < |cards| ==> CardPrintable(cards[x])
    ensures PrintBatch(cards) != "" && Counts(CardValues(cards), |HEAD|, k, Finished(PrintBatch(cards), k))
  {
    hide FinishedFrom, CardPrintable, CardValue, CardValues, PrintItems, SkipSpace, Counts, Printable, Print;
    var t, items := PrintBatch(cards), CardValues(cards);
    var body := PrintItems(items) + "]";
    BatchShape(cards);
    var n := |HEAD|;
    assert t[n..n + |body|] == body;
    PrintedBracket(t, HEAD, body + "}");
    if items == [] {
      assert PrintItems(items) == "" by { PrintItemsNone(); }
      NoSpace(t, n);
      NoItems(t, n, k);
      CountsEmpty(n, k);
    } else {
      forall x | 0 <= x < |items|
        ensures Printable(items[x])
      {
        CardValuePrintable(cards[x]);
      }
      FinishedPrinted(items, t, n, k);
    }
  }

  lemma PrintItemsNone()
    ensures PrintItems([]) == ""
  {
  }

  lemma PrintedBracket(t: string, head: string, rest: string)
    requires head == HEAD && t == head + rest && rest != ""
    ensures t != "" && BracketAt(t) + 1 == |head|
  {
    hide SkipSpace;
    assert t[1] == head[1] == '"' && t[8] == head[8] == ':' && t[9] == head[9] == '[';
    NoSpace(t, 1);
    NoSpace(t, 8);
    NoSpace(t, 9);
  }

  /**
   Cutting a printed batch at any position: the reader returns the cards with content
   among the first n, where n counts exactly the cards whose text ends within the cut.
   */
  lemma CutPrintedBatch(cards: seq<Card>, k: nat)
    requires forall x :: 0 <= x < |cards| ==> CardPrintable(cards[x])
    requires k <= |PrintBatch(cards)| && PrintBatch(cards) != ""
    ensures var n := Finished(PrintBatch(cards), k);
            n <= |cards| && Counts(CardValues(cards), |HEAD|, k, n) && CardsIn(PrintBatch(cards)[..k]) == Valid(cards[..n])
  {
    hide IsBatchText, Finished, CardsIn, Valid, PrintBatch, CardPrintable, Counts, CardValues;
    var t := PrintBatch(cards);
    PrintedBatchIsBatchText(cards);
    FinishedOfPrint(cards, k);
    CutBatchRecoversFinishedCards("", "", t, cards, k);
    assert "" + "" + t[..k] == t[..k];
  }
}
