/** Keyset pages over the flow of cards, and the tokens that lead from one to the next. */
module Paging {
  import opened Options
  import opened Text
  import opened Decimal

  datatype Card = Card(id: nat, pinned: bool, createdAt: string)

  datatype Cursor = Cursor(pinned: int, createdAt: string, id: int)

  datatype Parsed = Start | After(cursor: Cursor) | Invalid

  // ---------- tokens ----------

  function Bit(b: bool): nat {
    if b then 1 else 0
  }

  function EncodeToken(c: Card): string {
    PrintNat(Bit(c.pinned)) + "|" + c.createdAt + "|" + PrintNat(c.id)
  }

  /** Up to three parts; the last one keeps any further bars. */
  function Parts(t: string): seq<string> {
    match Find(t, "|", 0)
    case None => [t]
    case Some(a) =>
      var rest := t[a + 1..];
      match Find(rest, "|", 0)
      case None => [t[..a], rest]
      case Some(b) => [t[..a], rest[..b], rest[b + 1..]]
  }

  function ParseToken(token: string): Parsed {
    if Trim(token) == "" then Start
    else
      var parts := Parts(token);
      var pinned := ParseI64(parts[0]);
      var id := if |parts| == 3 then ParseI64(parts[2]) else None;
      if |parts| == 3 && parts[1] != "" && (pinned == Some(0) || pinned == Some(1)) && id.Some? && id.value > 0
      then After(Cursor(pinned.value, parts[1], id.value))
      else Invalid
  }

  function CursorOf(c: Card): Cursor {
    Cursor(Bit(c.pinned), c.createdAt, c.id)
  }

  predicate BarFree(t: string) {
    forall k :: 0 <= k < |t| ==> t[k] != '|'
  }

  lemma DigitsHaveNoBar(t: string)
    requires Digits(t)
    ensures BarFree(t)
  {
    forall k | 0 <= k < |t|
      ensures t[k] != '|'
    {
      assert Digit(t[k]);
    }
  }

  lemma FindBar(a: string, rest: string)
    requires BarFree(a)
    ensures Find(a + "|" + rest, "|", 0) == Some(|a|)
  {
    hide Find;
    var t := a + "|" + rest;
    assert t[|a|] == '|' && forall x :: 0 <= x < |a| ==> t[x] == a[x];
    FindChar(t, '|', 0, |a|);
  }

  /** The first bar of a text that has one. */
  lemma FirstBar(a: string, k: nat)
    requires k < |a| && a[k] == '|'
    ensures Find(a, "|", 0).Some? && Find(a, "|", 0).value <= k
  {
    hide Find;
    FindHolds(a, "|", 0);
    CharMatch(a, '|', k);
  }

  lemma PartsOfToken(p: string, created: string, id: string)
    requires BarFree(p) && BarFree(id)
    ensures var parts := Parts(p + "|" + created + "|" + id);
            && |parts| == 3 && parts[0] == p
            && (BarFree(created) ==> parts[1] == created && parts[2] == id)
            && (!BarFree(created) ==> !BarFree(parts[2]))
  {
    hide Find, MatchesAt;
    var t := p + "|" + created + "|" + id;
    var rest := created + "|" + id;
    assert t == p + "|" + rest;
    FindBar(p, rest);
    assert t[..|p|] == p && t[|p| + 1..] == rest;
    if BarFree(created) {
      FindBar(created, id);
      assert rest[..|created|] == created && rest[|created| + 1..] == id;
    } else {
      BarStays(created, id);
    }
  }

  lemma BarStays(created: string, id: string)
    requires !BarFree(created)
    ensures var rest := created + "|" + id;
            var b := Find(rest, "|", 0);
            b.Some? && !BarFree(rest[b.value + 1..])
  {
    hide Find, MatchesAt;
    var rest := created + "|" + id;
    var k :| 0 <= k < |created| && created[k] == '|';
    assert rest[k] == '|' && rest[|created|] == '|';
    FirstBar(rest, k);
    var b := Find(rest, "|", 0).value;
    assert rest[b + 1..][|created| - b - 1] == '|';
  }

  lemma NoBarInNumber(t: string)
    requires !BarFree(t)
    ensures ParseI64(t) == None
  {
    var k :| 0 <= k < |t| && t[k] == '|';
    if k > 0 {
      assert t[1..][k - 1] == '|' && !Digit('|');
    }
    assert !Digit(t[k]);
  }

  lemma TokenIsNotBlank(c: Card)
    ensures Trim(EncodeToken(c)) != ""
  {
    hide TrimStart, TrimEnd, PrintNat, NatOf;
    var t := EncodeToken(c);
    var p := PrintNat(Bit(c.pinned));
    assert Digit(p[0]);
    assert t[0] == p[0];
    if Trim(t) == "" {
      BlankIfTrimmedAway(t);
    }
  }

  lemma BlankIfTrimmedAway(t: string)
    requires t != "" && !IsSpace(t[0])
    ensures Trim(t) != ""
  {
    TrimEndHolds(t);
    assert TrimStart(t) == t;
    assert t[0..] == t && t[0] in t;
  }

  /** The token parser inverts the printer exactly on positive 64-bit ids and non-empty timestamps without a bar. */
  lemma TokenRoundTrip(c: Card)
    ensures ParseToken(EncodeToken(c)) == After(CursorOf(c)) <==>
            0 < c.id <= MAX_I64 && c.createdAt != "" && BarFree(c.createdAt)
    ensures ParseToken(EncodeToken(c)) == After(CursorOf(c)) || ParseToken(EncodeToken(c)) == Invalid
  {
    hide PrintNat, NatOf, Trim, ParseI64, Parts, Digits;
    var p, id := PrintNat(Bit(c.pinned)), PrintNat(c.id);
    DigitsHaveNoBar(p);
    DigitsHaveNoBar(id);
    PartsOfToken(p, c.createdAt, id);
    PrintedReadsBack(Bit(c.pinned));
    PrintedReadsBack(c.id);
    TokenIsNotBlank(c);
    if !BarFree(c.createdAt) {
      NoBarInNumber(Parts(EncodeToken(c))[2]);
    }
  }

  // ---------- the deck and its pages ----------

  /** The order of the flow: pinned first, then the newest, then the highest id. The argument at reads a timestamp. */
  predicate Precedes(at: string -> int, c: Card, d: Cursor) {
    || Bit(c.pinned) < d.pinned
    || (Bit(c.pinned) == d.pinned && (at(c.createdAt) < at(d.createdAt) || (at(c.createdAt) == at(d.createdAt) && c.id < d.id)))
  }

  ghost predicate Deck(at: string -> int, deck: seq<Card>) {
    && (forall i, j :: 0 <= i < j < |deck| ==> Precedes(at, deck[j], CursorOf(deck[i])))
    && forall i :: 0 <= i < |deck| ==> 0 < deck[i].id <= MAX_I64 && deck[i].createdAt != "" && BarFree(deck[i].createdAt)
  }

  function AfterCursor(at: string -> int, deck: seq<Card>, cursor: Option<Cursor>): seq<Card> {
    if deck == [] then []
    else (if cursor.None? || Precedes(at, deck[0], cursor.value) then [deck[0]] else []) + AfterCursor(at, deck[1..], cursor)
  }

  function Clamp(n: int, low: int, high: int): int
    requires low <= high
  {
    if n < low then low else if n > high then high else n
  }

  function Take(cards: seq<Card>, n: nat): seq<Card> {
    if n <= |cards| then cards[..n] else cards
  }

  /** The repository's own limit: at most a hundred rows. */
  function Fetch(at: string -> int, deck: seq<Card>, cursor: Option<Cursor>, limit: int): seq<Card> {
    Take(AfterCursor(at, deck, cursor), Clamp(limit, 1, 100))
  }

  function PageSize(requested: nat): (r: nat)
    ensures 1 <= r <= 100
  {
    if requested == 0 then 48 else Clamp(requested, 1, 100)
  }

  datatype Page = Page(cards: seq<Card>, next: string) | BadToken

  /** One page: one row more than it shows tells whether there are more. */
  function ListPage(at: string -> int, deck: seq<Card>, requested: nat, token: string): Page
    requires Deck(at, deck)
  {
    match ParseToken(token)
    case Invalid => BadToken
    case Start => PageOf(at, deck, PageSize(requested), None)
    case After(cursor) => PageOf(at, deck, PageSize(requested), Some(cursor))
  }

  function PageOf(at: string -> int, deck: seq<Card>, size: nat, cursor: Option<Cursor>): Page
    requires Deck(at, deck) && size >= 1
  {
    var rows := Fetch(at, deck, cursor, size + 1);
    var shown := Take(rows, size);
    FetchedAreCards(at, deck, cursor);
    Page(shown, if |rows| > size then EncodeToken(shown[|shown| - 1]) else "")
  }

  lemma FetchedAreCards(at: string -> int, deck: seq<Card>, cursor: Option<Cursor>)
    ensures forall c :: c in AfterCursor(at, deck, cursor) ==> c in deck
  {
  }

  lemma DeckTail(at: string -> int, deck: seq<Card>)
    requires Deck(at, deck) && deck != []
    ensures Deck(at, deck[1..])
  {
  }

  lemma {:induction false} NoneSkipped(at: string -> int, deck: seq<Card>, cursor: Option<Cursor>)
    requires cursor.None? || forall i :: 0 <= i < |deck| ==> Precedes(at, deck[i], cursor.value)
    ensures AfterCursor(at, deck, cursor) == deck
  {
    hide Precedes;
    if deck != [] {
      NoneSkipped(at, deck[1..], cursor);
    }
  }

  lemma OrderIsStrict(at: string -> int, c: Card, d: Card)
    ensures !(Precedes(at, c, CursorOf(d)) && Precedes(at, d, CursorOf(c))) && !Precedes(at, c, CursorOf(c))
  {
  }

  lemma AfterTurn(at: string -> int, deck: seq<Card>, cursor: Option<Cursor>)
    requires deck != []
    ensures AfterCursor(at, deck, cursor) ==
            (if cursor.None? || Precedes(at, deck[0], cursor.value) then [deck[0]] else []) + AfterCursor(at, deck[1..], cursor)
  {
    hide Precedes;
  }

  /** Behind a card of a deck stand the later ones, and not the first. */
  lemma BehindCard(at: string -> int, deck: seq<Card>, i: nat)
    requires Deck(at, deck) && i < |deck|
    ensures !Precedes(at, deck[0], CursorOf(deck[i])) && forall k :: i < k < |deck| ==> Precedes(at, deck[k], CursorOf(deck[i]))
  {
    hide Precedes, CursorOf;
    OrderIsStrict(at, deck[0], deck[i]);
  }

  /** After the cursor of a card come exactly the cards behind it. */
  lemma {:induction false} AfterCard(at: string -> int, deck: seq<Card>, i: nat)
    requires Deck(at, deck) && i < |deck|
    ensures AfterCursor(at, deck, Some(CursorOf(deck[i]))) == deck[i + 1..]
    decreases i
  {
    hide Precedes, Deck, AfterCursor, CursorOf;
    var cursor := CursorOf(deck[i]);
    AfterTurn(at, deck, Some(cursor));
    BehindCard(at, deck, i);
    if i == 0 {
      assert forall k :: 0 <= k < |deck[1..]| ==> deck[1..][k] == deck[k + 1];
      NoneSkipped(at, deck[1..], Some(cursor));
    } else {
      DeckTail(at, deck);
      AfterCard(at, deck[1..], i - 1);
      assert deck[1..][i..] == deck[i + 1..];
    }
  }

  /** The position a token stands for: the start, or behind a card of the deck. */
  function TokenAt(deck: seq<Card>, i: nat): string
    requires i <= |deck|
  {
    if i == 0 then "" else EncodeToken(deck[i - 1])
  }

  function Min(a: nat, b: nat): nat {
    if a < b then a else b
  }

  /** What a page shows, from the token of any position. */
  lemma PageAt(at: string -> int, deck: seq<Card>, requested: nat, i: nat)
    requires Deck(at, deck) && i <= |deck|
    ensures var size := PageSize(requested);
            var n := Min(|deck| - i, size);
            var more := |deck| - i > size && size < 100;
            ListPage(at, deck, requested, TokenAt(deck, i)) == Page(deck[i..i + n], if more then TokenAt(deck, i + n) else "")
  {
    hide AfterCursor, EncodeToken, Precedes, Deck, PageOf, ParseToken;
    var size := PageSize(requested);
    if i == 0 {
      NoneSkipped(at, deck, None);
      EmptyToken();
      assert deck[0..] == deck;
      PageBehind(at, deck, size, i, None);
    } else {
      assert ParseToken(EncodeToken(deck[i - 1])) == After(CursorOf(deck[i - 1])) by { DeckToken(at, deck, i - 1); }
      AfterCard(at, deck, i - 1);
      PageBehind(at, deck, size, i, Some(CursorOf(deck[i - 1])));
    }
  }

  lemma EmptyToken()
    ensures ParseToken("") == Start
  {
    assert Trim("") == "";
  }

  lemma DeckToken(at: string -> int, deck: seq<Card>, i: nat)
    requires Deck(at, deck) && i < |deck|
    ensures ParseToken(EncodeToken(deck[i])) == After(CursorOf(deck[i]))
  {
    TokenRoundTrip(deck[i]);
  }

  lemma PageBehind(at: string -> int, deck: seq<Card>, size: nat, i: nat, cursor: Option<Cursor>)
    requires Deck(at, deck) && 1 <= size <= 100 && i <= |deck| && AfterCursor(at, deck, cursor) == deck[i..]
    ensures var n := Min(|deck| - i, size);
            var more := |deck| - i > size && size < 100;
            PageOf(at, deck, size, cursor) == Page(deck[i..i + n], if more then TokenAt(deck, i + n) else "")
  {
    hide AfterCursor, EncodeToken, Precedes, Deck;
    var rows := Fetch(at, deck, cursor, size + 1);
    var n := Min(|deck| - i, size);
    var m := Min(|deck| - i, Min(size + 1, 100));
    assert rows == deck[i..i + m];
    assert Take(rows, size) == deck[i..i + n];
  }

  // ---------- following the tokens ----------

  function Pages(n: nat, size: nat): nat
    requires size >= 1
  {
    if n <= size then 1 else 1 + Pages(n - size, size)
  }

  /** One page for an empty deck, and otherwise as many as it takes. */
  lemma {:induction false} PagesAreFewest(n: nat, size: nat)
    requires size >= 1
    ensures Pages(n, size) >= 1 && n <= Pages(n, size) * size
    ensures Pages(n, size) > 1 ==> (Pages(n, size) - 1) * size < n
  {
    if n > size {
      PagesAreFewest(n - size, size);
    }
  }

  /** The deck is visited completely: pages below the hundred that the repository allows, or no more cards than that. */
  predicate Reachable(n: nat, size: nat) {
    size < 100 || n <= 100
  }

  lemma TokensDiffer(deck: seq<Card>, i: nat)
    requires i <= |deck|
    ensures TokenAt(deck, i) == "" <==> i == 0
  {
    hide PrintNat;
  }

  /** A client that follows next_page_token sees every card exactly once, in order, in the fewest pages, unless it asks for pages of a hundred and there are more cards. */
  method FollowTokens(at: string -> int, deck: seq<Card>, requested: nat) returns (seen: seq<Card>, pages: nat)
    requires Deck(at, deck)
    ensures Reachable(|deck|, PageSize(requested)) ==> seen == deck && pages == Pages(|deck|, PageSize(requested))
    ensures !Reachable(|deck|, PageSize(requested)) ==> seen == deck[..100] && pages == 1
  {
    hide EncodeToken, ListPage, Deck;
    var size := PageSize(requested);
    var token := "";
    ghost var i := 0;
    seen, pages := [], 0;
    while true
      invariant i <= |deck| && seen == deck[..i] && token == TokenAt(deck, i)
      invariant size == 100 ==> i == 0
      invariant pages + Pages(|deck| - i, size) == Pages(|deck|, size)
      invariant size == 100 ==> pages == 0
      decreases |deck| - i
    {
      PageAt(at, deck, requested, i);
      var page := ListPage(at, deck, requested, token);
      seen := seen + page.cards;
      pages := pages + 1;
      var n := |page.cards|;
      assert deck[..i] + deck[i..i + n] == deck[..i + n];
      TokensDiffer(deck, i + n);
      if page.next == "" {
        break;
      }
      i := i + n;
      token := page.next;
    }
  }

  /** A deck of more than a hundred cards read in pages of a hundred ends after the first page, although cards remain. */
  lemma HundredStopsEarly(at: string -> int, deck: seq<Card>)
    requires Deck(at, deck) && |deck| > 100
    ensures ListPage(at, deck, 100, "") == Page(deck[..100], "")
  {
    hide ListPage, Deck, EncodeToken;
    PageAt(at, deck, 100, 0);
    assert deck[0..100] == deck[..100];
  }

  /** The first card stands before the second: pinned first, among cards pinned alike the newest, and of one time the highest id. */
  predicate StandsBefore(at: string -> int, c: Card, d: Card) {
    if c.pinned != d.pinned then c.pinned
    else if at(c.createdAt) != at(d.createdAt) then at(c.createdAt) > at(d.createdAt)
    else c.id > d.id
  }

  /** The decks are exactly the lists in that order whose cards have a positive 64-bit id and a timestamp without bars. */
  lemma DeckIsOrdered(at: string -> int, deck: seq<Card>)
    ensures Deck(at, deck) <==>
            && (forall i, j :: 0 <= i < j < |deck| ==> StandsBefore(at, deck[i], deck[j]))
            && forall i :: 0 <= i < |deck| ==> 0 < deck[i].id < 9_223_372_036_854_775_808 && deck[i].createdAt != "" && '|' !in deck[i].createdAt
  {
    hide Precedes, StandsBefore;
    forall c, d
      ensures Precedes(at, d, CursorOf(c)) <==> StandsBefore(at, c, d)
    {
      BeforeIs(at, c, d);
    }
  }

  lemma BeforeIs(at: string -> int, c: Card, d: Card)
    ensures Precedes(at, d, CursorOf(c)) <==> StandsBefore(at, c, d)
  {
  }

  /** Forty-eight cards unless asked otherwise, and at most a hundred. */
  lemma PageSizesAre(requested: nat)
    ensures PageSize(0) == 48 && (1 <= requested <= 100 ==> PageSize(requested) == requested) && (requested > 100 ==> PageSize(requested) == 100)
  {
  }

  /** A token spells whether the card is pinned, its time and its id. */
  lemma TokensAre(c: Card)
    ensures EncodeToken(c) == (if c.pinned then "1" else "0") + "|" + c.createdAt + "|" + PrintNat(c.id)
  {
    assert PrintNat(0) == ['0'] && PrintNat(1) == ['1'];
  }
}
