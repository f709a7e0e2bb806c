/** The card batch reader on a bare array of cards, without the object around it. */
module CardBatchArrays {
  import opened Options
  import opened Text
  import opened Json
  import opened CardBatch
  import opened CardBatchCuts

  /** A well-formed bare array of card objects, none of which has a field named like the key of a batch. */
  ghost predicate IsArrayText(t: string, items: seq<Value>, cards: seq<Card>) {
    && t != "" && t[0] == '[' && ReadValue(t, 0) == Some(At(Arr(items), |t|)) && CardItems(items, cards)
    && forall k :: 0 <= k < |items| ==> items[k].Obj? && Occurrences(items[k].members, "cards") == 0
  }

  /** The key of a batch, in quotes, does not occur in the text. */
  ghost predicate KeyFree(t: string) {
    forall x :: !MatchesAt(t, CARDS_KEY, x)
  }

  /** How many cards of an array text are fully written in its first k characters. */
  function FinishedItems(t: string, k: nat): nat {
    if t == "" then 0 else FinishedFrom(t, 1, k)
  }

  lemma ArrayInside(t: string, items: seq<Value>, cards: seq<Card>)
    requires IsArrayText(t, items, cards)
    ensures |t| >= 2 && t[|t| - 1] == ']'
    ensures if items == [] then SkipSpace(t, 1) == |t| - 1 else ReadItems(t, 1) == Some(At(items, |t|))
  {
    hide ReadItems, FindClose, CardItems, MatchesAt;
    assert SkipSpace(t, 0) == 0;
    PassContainer('[', ']', t, 0, 1);
  }

  /** A card object is no batch. */
  lemma CardIsNoBatch(text: string, v: Value)
    requires ReadDocument(text) == Some(v) && v.Obj? && Occurrences(v.members, "cards") == 0
    ensures BatchOf(text) == None
  {
    hide ReadDocument, Occurrences;
  }

  lemma WholeArray(t: string, items: seq<Value>, cards: seq<Card>)
    requires IsArrayText(t, items, cards)
    ensures BatchOf(t) == Some(Valid(cards))
  {
    hide ReadValue, DecodeAll, Valid, MatchesAt, Occurrences;
    assert SkipSpace(t, |t|) == |t|;
    if |items| == 1 {
      assert items[0].Obj?;
    }
  }

  lemma CutArrayIsNoBatch(t: string, items: seq<Value>, cards: seq<Card>, k: nat)
    requires IsArrayText(t, items, cards) && k < |t|
    ensures BatchOf(t[..k]) == None
  {
    hide ReadValue, DecodeAll, ReadDocument, MatchesAt, Occurrences;
    PrefixIsNoDocument(t, k);
  }

  lemma NoObject(w: string)
    requires forall x :: 0 <= x < |w| ==> w[x] != '{'
    ensures Extract('{', '}', w) == None
  {
    hide FindClose, Find;
    FindChar(w, '{', 0, |w|);
  }

  lemma ObjectOfArray(pre: string, t: string, items: seq<Value>, cards: seq<Card>, k: nat)
    requires Preamble(pre) && IsArrayText(t, items, cards) && k <= |t|
    ensures var o := Extract('{', '}', pre + t[..k]); o.Some? ==> BatchOf(o.value) == None
  {
    hide ReadValue, ReadItems, Extract, BatchOf, CardItems, Occurrences, SkipSpace;
    ArrayInside(t, items, cards);
    if items == [] {
      NoObjectInEmpty(pre, t, k);
    } else {
      var s := SkipSpace(t, 1);
      FirstOpens(t, items);
      BlanksBefore(t, 1);
      ExtractOfCut('{', '}', pre, t, k, s);
      ValueTextIsDocument(t, s);
      CardIsNoBatch(t[s..ReadValue(t, s).value.next], items[0]);
    }
  }

  lemma BlanksBefore(t: string, i: nat)
    requires i <= |t| && forall x :: 0 <= x < i ==> t[x] != '{'
    ensures forall x :: 0 <= x < SkipSpace(t, i) ==> t[x] != '{'
  {
  }

  lemma NoObjectInEmpty(pre: string, t: string, k: nat)
    requires Preamble(pre) && k <= |t| && |t| >= 2 && t[0] == '[' && t[|t| - 1] == ']' && SkipSpace(t, 1) == |t| - 1
    ensures Extract('{', '}', pre + t[..k]) == None
  {
    hide Extract, SkipSpace;
    BlanksBefore(t, 1);
    var w := pre + t[..k];
    assert forall x :: 0 <= x < |pre| ==> w[x] == pre[x];
    assert forall x :: |pre| <= x < |w| ==> w[x] == t[x - |pre|];
    NoObject(w);
  }

  lemma FirstOpens(t: string, items: seq<Value>)
    requires |t| >= 1 && items != [] && ReadItems(t, 1) == Some(At(items, |t|)) && items[0].Obj?
    ensures SkipSpace(t, 1) < |t| && t[SkipSpace(t, 1)] == '{'
    ensures ReadValue(t, SkipSpace(t, 1)).Some? && ReadValue(t, SkipSpace(t, 1)).value.value == items[0]
  {
    hide ReadItems, ReadValue, SkipSpace;
    ReadItemsTurn(t, 1);
    OpeningOf(t, 1);
    ValueSkipsSpace(t, 1);
  }

  /** The array fallback finds the array only when it is whole. */
  lemma ArrayOfArray(pre: string, t: string, items: seq<Value>, cards: seq<Card>, k: nat)
    requires Preamble(pre) && IsArrayText(t, items, cards) && k <= |t|
    ensures Extract('[', ']', pre + t[..k]) == if k == |t| then Some(t) else None
  {
    hide ReadValue, Extract, CardItems, Occurrences;
    ExtractOfCut('[', ']', pre, t, k, 0);
    assert t[0..|t|] == t;
  }

  /** What the loop collects from a cut array, starting at its bracket. */
  lemma SalvageFromStart(t: string, items: seq<Value>, cards: seq<Card>, k: nat)
    requires IsArrayText(t, items, cards) && 0 < k <= |t|
    ensures FinishedItems(t, k) <= |cards| && SalvageFrom(t[..k], 0) == cards[..FinishedItems(t, k)]
    ensures k == |t| ==> FinishedItems(t, k) == |cards|
  {
    hide SalvageFrom, DecodeAll, ReadValue, ReadItems, SkipSpace, Occurrences, FinishedFrom;
    ArrayInside(t, items, cards);
    SalvageEnd(t[..k]);
    SalvagePlain(t[..k], 0, 1);
    SalvageArray(t, 1, k, items, |t| - 1, cards);
  }

  /** Without a second key the salvage loop starts at the first bracket and finds the finished cards. */
  lemma SalvageOfArray(t: string, items: seq<Value>, cards: seq<Card>, k: nat)
    requires IsArrayText(t, items, cards) && k <= |t| && KeyFree(t[..k])
    ensures FinishedItems(t, k) <= |cards| && Salvage(t[..k]) == Valid(cards[..FinishedItems(t, k)])
  {
    hide SalvageFrom, DecodeAll, ReadValue, SkipSpace, Find, Occurrences, FinishedFrom, MatchesAt, Valid;
    FindHolds(t[..k], CARDS_KEY, 0);
    if k == 0 {
      NothingFinished(t, 1, k);
      assert t[..k] == "";
      assert Valid(cards[..0]) == [] by { NothingValid(cards[..0]); }
      FindChar("", '[', 0, 0);
    } else {
      FindChar(t[..k], '[', 0, 0);
      SalvageFromStart(t, items, cards, k);
    }
  }

  lemma FindNone(t: string, p: string, i: nat)
    requires i <= |t| && forall x :: i <= x <= |t| ==> !MatchesAt(t, p, x)
    ensures Find(t, p, i) == None
  {
    hide Find, MatchesAt;
    FindHolds(t, p, i);
  }

  lemma FindShift(pre: string, u: string, p: string, i: nat)
    requires i <= |u|
    ensures Find(pre + u, p, |pre| + i) == match Find(u, p, i) case Some(x) => Some(|pre| + x) case None => None
  {
    hide Find, MatchesAt;
    FindHolds(u, p, i);
    var w, n := pre + u, |pre|;
    forall x: nat
      ensures MatchesAt(w, p, n + x) <==> MatchesAt(u, p, x)
    {
      MatchAfter(pre, u, p, x);
    }
    match Find(u, p, i) {
      case Some(x) =>
        forall y | n + i <= y < n + x
          ensures !MatchesAt(w, p, y)
        {
          assert !MatchesAt(u, p, y - n);
        }
        FindIs(w, p, n + i, n + x);
      case None =>
        forall y | n + i <= y <= |w|
          ensures !MatchesAt(w, p, y)
        {
          assert !MatchesAt(u, p, y - n);
        }
        FindNone(w, p, n + i);
    }
  }

  /** A text that does not contain a pattern's first character is skipped by the search. */
  lemma FindSkips(pre: string, u: string, p: string)
    requires p != "" && forall x :: 0 <= x < |pre| ==> pre[x] != p[0]
    ensures Find(pre + u, p, 0) == Find(pre + u, p, |pre|)
  {
    hide Find, MatchesAt;
    FindHolds(pre + u, p, |pre|);
    var w := pre + u;
    forall x | 0 <= x < |pre|
      ensures !MatchesAt(w, p, x)
    {
      assert w[x] == pre[x];
      NoMatch(w, p, x, 0);
    }
    match Find(w, p, |pre|) {
      case Some(x) => FindIs(w, p, 0, x);
      case None => FindNone(w, p, 0);
    }
  }

  /** Prose in front of a text does not change what is salvaged. */
  lemma SalvageInProse(pre: string, u: string)
    requires Preamble(pre)
    ensures Salvage(pre + u) == Salvage(u)
  {
    hide Find, SalvageFrom, Valid;
    var w := pre + u;
    FindSkips(pre, u, CARDS_KEY);
    FindShift(pre, u, CARDS_KEY, 0);
    match Find(u, CARDS_KEY, 0) {
      case Some(x) =>
        FindShift(pre, u, "[", x);
      case None =>
        FindSkips(pre, u, "[");
        FindShift(pre, u, "[", 0);
    }
    match ArrayOpen(u) {
      case Some(y) => ShiftSalvage(pre, u, y);
      case None =>
    }
  }

  /** Neither do blanks after it. */
  lemma FindInTrimmed(u: string, m: nat, p: string, i: nat)
    requires i <= m <= |u| && Blank(u[m..]) && p != "" && !IsSpace(p[|p| - 1])
    ensures Find(u, p, i) == Find(u[..m], p, i)
  {
    hide Find, MatchesAt, IsSpace;
    FindHolds(u, p, i);
    var v := u[..m];
    assert u[m..|u|] == u[m..];
    forall x: nat
      ensures MatchesAt(u, p, x) <==> MatchesAt(v, p, x)
    {
      MatchInTrimmed(u, m, p, x);
    }
    match Find(u, p, i) {
      case Some(x) => FindIs(v, p, i, x);
      case None => FindNone(v, p, i);
    }
  }

  lemma MatchInTrimmed(u: string, m: nat, p: string, x: nat)
    requires m <= |u| && Blank(u[m..]) && p != "" && !IsSpace(p[|p| - 1])
    ensures MatchesAt(u, p, x) <==> MatchesAt(u[..m], p, x)
  {
    hide IsSpace;
    BlanksAfter(u, m);
    if m < x + |p| <= |u| {
      NoMatch(u, p, x, |p| - 1);
    } else if x + |p| <= m {
      CutSlice(u, m, x, x + |p|);
    }
  }

  lemma {:induction false} SalvageFromTrimmed(u: string, m: nat, i: nat)
    requires i <= m <= |u| && Blank(u[m..])
    ensures SalvageFrom(u, i) == SalvageFrom(u[..m], i)
    decreases m - i
  {
    hide SalvageFrom, Harvest, FindClose, IsSpace, Blank;
    var v := u[..m];
    if i == m {
      BlankHasNoBrace(u, m);
      SalvagePlain(u, m, |u|);
      SalvageEnd(u);
      SalvageEnd(v);
    } else {
      SalvageTurn(u, i);
      SalvageTurn(v, i);
      if u[i] != '{' {
        SalvageFromTrimmed(u, m, i + 1);
      } else {
        CutScan('{', '}', u, m, i, OUTSIDE);
        match FindClose('{', '}', u, i, OUTSIDE) {
          case None =>
          case Some(e) =>
            SpanIsShortest('{', '}', u, i);
            BlankHasNoBrace(u, m);
            CutSlice(u, m, i, e + 1);
            SalvageFromTrimmed(u, m, e + 1);
        }
      }
    }
  }

  lemma BlanksAfter(u: string, m: nat)
    requires m <= |u| && Blank(u[m..])
    ensures forall x :: m <= x < |u| ==> IsSpace(u[x])
  {
    hide IsSpace;
    assert u[m..|u|] == u[m..];
    forall x | m <= x < |u|
      ensures IsSpace(u[x])
    {
      BlankAt(u, m, |u|, x);
    }
  }

  lemma BlankHasNoBrace(u: string, m: nat)
    requires m <= |u| && Blank(u[m..])
    ensures forall x :: m <= x < |u| ==> u[x] != '{' && u[x] != '}'
  {
    BlanksAfter(u, m);
  }

  lemma SalvageTrimmed(u: string, m: nat)
    requires m <= |u| && Blank(u[m..])
    ensures Salvage(u) == Salvage(u[..m])
  {
    hide Find, SalvageFrom, Valid;
    FindInTrimmed(u, m, CARDS_KEY, 0);
    match Find(u, CARDS_KEY, 0) {
      case Some(x) => FindInTrimmed(u, m, "[", x);
      case None => FindInTrimmed(u, m, "[", 0);
    }
    match ArrayOpen(u) {
      case Some(y) => SalvageFromTrimmed(u, m, y);
      case None =>
    }
  }

  /** A cut array gives what the salvage loop finds in it, and a whole one all its cards with content. */
  lemma ReadCardsOfArray(pre: string, t: string, items: seq<Value>, cards: seq<Card>, k: nat)
    requires Preamble(pre) && IsArrayText(t, items, cards) && k <= |t|
    ensures ReadCards(pre + t[..k]) == if k == |t| then Valid(cards) else Salvage(t[..k])
  {
    hide BatchOf, Extract, Salvage, Valid, IsArrayText;
    SalvageInProse(pre, t[..k]);
    ObjectOfArray(pre, t, items, cards, k);
    ArrayOfArray(pre, t, items, cards, k);
    WholeArray(t, items, cards);
    if pre != "" {
      PreambleIsNoBatch(pre, t[..k]);
    } else {
      assert pre + t[..k] == t[..k];
      if k < |t| {
        CutArrayIsNoBatch(t, items, cards, k);
      } else {
        assert t[..k] == t;
      }
    }
  }

  lemma NoTrimOfWhole(t: string, items: seq<Value>, cards: seq<Card>, k: nat, k': nat)
    requires IsArrayText(t, items, cards) && k' <= k <= |t| && Blank(t[k'..k])
    ensures k == |t| ==> k' == k
  {
    hide CardItems, Occurrences, ReadValue;
    ArrayInside(t, items, cards);
    assert t[..k][k'..] == t[k'..k];
    BlanksAfter(t[..k], k');
  }

  /** The same for the raw response, with any blanks and delimiter-free prose in front of the array. */
  lemma CutArraySalvages(lead: string, pre: string, t: string, items: seq<Value>, cards: seq<Card>, k: nat)
    requires Blank(lead) && Preamble(pre) && (pre != "" ==> pre[0] != '`')
    requires IsArrayText(t, items, cards) && k <= |t|
    ensures CardsIn(lead + pre + t[..k]) == if k == |t| then Valid(cards) else Salvage(t[..k])
  {
    hide Salvage, Valid, ReadCards, Trim, CardItems, Occurrences, ReadValue, Blank;
    var pre', k' := TrimOfCut(lead, pre, t, k);
    var cleaned := pre' + t[..k'];
    TrimTwice(lead + pre + t[..k]);
    assert cleaned != "" ==> cleaned[0] == (if pre' != "" then pre[0] else t[0]);
    assert !StartsWith(cleaned, "```") by {
      if StartsWith(cleaned, "```") {
        MatchChar(cleaned, "```", 0, 0);
      }
    }
    ReadCardsOfArray(pre', t, items, cards, k');
    assert t[..k][..k'] == t[..k'] && t[..k][k'..] == t[k'..k];
    SalvageTrimmed(t[..k], k');
    NoTrimOfWhole(t, items, cards, k, k');
  }

  /**
   Cutting a bare array response at any position, with any blanks and any delimiter-free
   prose in front of it, also makes the reader return exactly the finished cards that
   have content, in order, unless the key of a batch stands in what is left of it.
   */
  lemma CutArrayRecoversFinishedCards(lead: string, pre: string, t: string, items: seq<Value>, cards: seq<Card>, k: nat)
    requires Blank(lead) && Preamble(pre) && (pre != "" ==> pre[0] != '`')
    requires IsArrayText(t, items, cards) && k <= |t| && (k == |t| || KeyFree(t[..k]))
    ensures FinishedItems(t, k) <= |cards| && CardsIn(lead + pre + t[..k]) == Valid(cards[..FinishedItems(t, k)])
  {
    hide FinishedItems, Valid, CardsIn, CardItems, Occurrences, ReadValue, KeyFree, Salvage, SalvageFrom;
    CutArraySalvages(lead, pre, t, items, cards, k);
    if k < |t| {
      SalvageOfArray(t, items, cards, k);
    } else {
      SalvageFromStart(t, items, cards, k);
      assert cards[..|cards|] == cards;
    }
  }
}
