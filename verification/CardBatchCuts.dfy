/**
 What the card batch reader recovers from a response that was cut off at any
 position: exactly the finished cards.
 */
module CardBatchCuts {
  import opened Options
  import opened Text
  import opened Json
  import opened CardBatch

  function Deep(d: int): Scan {
    Scan(d, false, false)
  }

  // ---------- the scanners pass over what the reader reads ----------

  lemma {:induction false} PassPlain(open: char, close: char, t: string, i: nat, j: nat, d: int)
    requires i <= j <= |t| && forall x :: i <= x < j ==> t[x] != '"' && t[x] != open && t[x] != close
    ensures FindClose(open, close, t, i, Deep(d)) == FindClose(open, close, t, j, Deep(d))
    decreases j - i
  {
    if i < j {
      PassPlain(open, close, t, i + 1, j, d);
    }
  }

  lemma {:induction false} PassString(open: char, close: char, t: string, i: nat, d: int)
    requires Delimiters(open, close) && i <= |t| && ReadString(t, i).Some?
    ensures FindClose(open, close, t, i, Scan(d, true, false)) ==
            FindClose(open, close, t, ReadString(t, i).value.next, Deep(d))
    decreases |t| - i
  {
    if t[i] == '\\' {
      var c := ReadEscape(t, i + 1).value;
      PassEscape(open, close, t, i + 1, d);
      PassString(open, close, t, c.next, d);
    } else if t[i] != '"' {
      PassString(open, close, t, i + 1, d);
    }
  }

  lemma PassEscape(open: char, close: char, t: string, i: nat, d: int)
    requires Delimiters(open, close) && ReadEscape(t, i).Some?
    ensures FindClose(open, close, t, i, Scan(d, true, true)) ==
            FindClose(open, close, t, ReadEscape(t, i).value.next, Scan(d, true, false))
  {
    if t[i] == 'u' {
      PassHex4(open, close, t, i + 1, d);
      if ReadEscape(t, i).value.next > i + 5 {
        PassHex4(open, close, t, i + 7, d);
      }
    }
  }

  lemma PassHex4(open: char, close: char, t: string, i: nat, d: int)
    requires Hex4(t, i).Some?
    ensures FindClose(open, close, t, i, Scan(d, true, false)) == FindClose(open, close, t, i + 4, Scan(d, true, false))
  {
    assert Hex(t[i]).Some? && Hex(t[i + 1]).Some? && Hex(t[i + 2]).Some? && Hex(t[i + 3]).Some?;
    var s := Scan(d, true, false);
    assert FindClose(open, close, t, i, s) == FindClose(open, close, t, i + 1, s);
    assert FindClose(open, close, t, i + 1, s) == FindClose(open, close, t, i + 2, s);
    assert FindClose(open, close, t, i + 2, s) == FindClose(open, close, t, i + 3, s);
  }

  lemma PassSpace(open: char, close: char, t: string, i: nat, d: int)
    requires Delimiters(open, close) && i <= |t|
    ensures FindClose(open, close, t, i, Deep(d)) == FindClose(open, close, t, SkipSpace(t, i), Deep(d))
  {
    PassPlain(open, close, t, i, SkipSpace(t, i), d);
  }

  lemma PassWord(open: char, close: char, t: string, s: nat, d: int)
    requires Delimiters(open, close) && s < |t| && ReadWord(t, s).Some?
    ensures FindClose(open, close, t, s, Deep(d)) == FindClose(open, close, t, ReadWord(t, s).value.next, Deep(d))
  {
    var r := ReadWord(t, s).value;
    if !r.value.Num? {
      var name := t[s..r.next];
      assert name == "null" || name == "true" || name == "false";
      assert forall x :: s <= x < r.next ==> t[x] == name[x - s];
    }
    PassPlain(open, close, t, s, r.next, d);
  }

  /** At positive depth a scanner passes over a whole value. */
  lemma {:induction false} PassValue(open: char, close: char, t: string, i: nat, d: int)
    requires Delimiters(open, close) && i <= |t| && ReadValue(t, i).Some? && d > 0
    ensures FindClose(open, close, t, i, Deep(d)) == FindClose(open, close, t, ReadValue(t, i).value.next, Deep(d))
    decreases |t| - i, 2
  {
    hide ReadItems, ReadMembers, ReadString, ReadWord;
    var s := SkipSpace(t, i);
    PassSpace(open, close, t, i, d);
    if t[s] == '{' || t[s] == '[' {
      PassContainer(open, close, t, i, if t[s] == open then d + 1 else d);
    } else if t[s] == '"' {
      PassString(open, close, t, s + 1, d);
    } else {
      PassWord(open, close, t, s, d);
    }
  }

  /** From just after the opening delimiter to the closing one. */
  lemma {:induction false} PassContainer(open: char, close: char, t: string, i: nat, d: int)
    requires Delimiters(open, close) && i <= |t| && ReadValue(t, i).Some? && d > 0
    requires t[SkipSpace(t, i)] == '{' || t[SkipSpace(t, i)] == '['
    ensures var e := ReadValue(t, i).value.next - 1;
            && t[e] == (if t[SkipSpace(t, i)] == '{' then '}' else ']')
            && FindClose(open, close, t, SkipSpace(t, i) + 1, Deep(d)) == FindClose(open, close, t, e, Deep(d))
    decreases |t| - i, 1
  {
    hide ReadItems, ReadMembers, FindClose, SkipSpace;
    var s := SkipSpace(t, i);
    var m := SkipSpace(t, s + 1);
    PassSpace(open, close, t, s + 1, d);
    if t[s] == '{' {
      if m == |t| || t[m] != '}' {
        PassMembers(open, close, t, s + 1, d);
      }
    } else if m == |t| || t[m] != ']' {
      PassItems(open, close, t, s + 1, d);
    }
  }

  lemma {:induction false} PassItems(open: char, close: char, t: string, i: nat, d: int)
    requires Delimiters(open, close) && i <= |t| && ReadItems(t, i).Some? && d > 0
    ensures var e := ReadItems(t, i).value.next - 1;
            t[e] == ']' && FindClose(open, close, t, i, Deep(d)) == FindClose(open, close, t, e, Deep(d))
    decreases |t| - i, 3
  {
    hide ReadItems, ReadValue, SkipSpace;
    ReadItemsTurn(t, i);
    var v := ReadValue(t, i).value;
    PassValue(open, close, t, i, d);
    PassSpace(open, close, t, v.next, d);
    var p := SkipSpace(t, v.next);
    if t[p] == ',' {
      PassItems(open, close, t, p + 1, d);
    }
  }

  lemma {:induction false} PassMember(open: char, close: char, t: string, i: nat, d: int)
    requires Delimiters(open, close) && i <= |t| && ReadMember(t, i).Some? && d > 0
    ensures FindClose(open, close, t, i, Deep(d)) == FindClose(open, close, t, ReadMember(t, i).value.next, Deep(d))
    decreases |t| - i, 3
  {
    hide ReadValue, ReadString, SkipSpace;
    var s := SkipSpace(t, i);
    var key := ReadString(t, s + 1).value;
    var c := SkipSpace(t, key.next);
    PassSpace(open, close, t, i, d);
    PassString(open, close, t, s + 1, d);
    PassSpace(open, close, t, key.next, d);
    PassValue(open, close, t, c + 1, d);
  }

  lemma {:induction false} PassMembers(open: char, close: char, t: string, i: nat, d: int)
    requires Delimiters(open, close) && i <= |t| && ReadMembers(t, i).Some? && d > 0
    ensures var e := ReadMembers(t, i).value.next - 1;
            t[e] == '}' && FindClose(open, close, t, i, Deep(d)) == FindClose(open, close, t, e, Deep(d))
    decreases |t| - i, 4
  {
    hide ReadMembers, ReadMember, SkipSpace;
    ReadMembersTurn(t, i);
    var m := ReadMember(t, i).value;
    PassMember(open, close, t, i, d);
    PassSpace(open, close, t, m.next, d);
    var p := SkipSpace(t, m.next);
    if t[p] == ',' {
      PassMembers(open, close, t, p + 1, d);
    }
  }

  /** The object scanner finds exactly the end of an object the reader reads, and the array scanner that of an array. */
  lemma ScannerAgreesWithReader(open: char, close: char, t: string, s: nat)
    requires Delimiters(open, close) && s < |t| && t[s] == open && ReadValue(t, s).Some?
    ensures FindClose(open, close, t, s, OUTSIDE) == Some(ReadValue(t, s).value.next - 1)
  {
    hide ReadValue;
    assert SkipSpace(t, s) == s;
    PassContainer(open, close, t, s, 1);
  }

  // ---------- batch texts ----------

  /**
   A well-formed batch: an object whose only member is "cards", spelled without
   escapes, holding an array of card objects. Layout, escapes inside strings and
   further fields of the cards are free.
   */
  ghost predicate IsBatchText(t: string, cards: seq<Card>) {
    && t != "" && t[0] == '{' && ReadValue(t, 0).Some? && ReadValue(t, 0).value.next == |t|
    && MatchesAt(t, CARDS_KEY, SkipSpace(t, 1))
    && var v := ReadValue(t, 0).value.value;
       && v.Obj? && |v.members| == 1 && v.members[0].key == "cards"
       && v.members[0].value.Arr? && DecodeAll(v.members[0].value.items) == Some(cards)
       && forall x :: x in v.members[0].value.items ==> x.Obj?
  }

  function Min(a: nat, b: nat): nat {
    if a < b then a else b
  }

  /** The positions of the key, of the opening bracket and of the text after it. */
  function KeyAt(t: string): nat
    requires t != ""
  {
    SkipSpace(t, 1)
  }

  function BracketAt(t: string): nat
    requires t != ""
  {
    var c := SkipSpace(t, Min(KeyAt(t) + |CARDS_KEY|, |t|));
    SkipSpace(t, Min(c + 1, |t|))
  }

  /** How many array items, from position i on, end at or before k. */
  function FinishedFrom(t: string, i: nat, k: nat): nat
    requires i <= |t|
    decreases |t| - i
  {
    match ReadValue(t, i)
    case None => 0
    case Some(v) =>
      if v.next > k then 0
      else
        var p := SkipSpace(t, v.next);
        1 + if p < |t| && t[p] == ',' then FinishedFrom(t, p + 1, k) else 0
  }

  /** How many cards of a batch text are fully written in its first k characters. */
  function Finished(t: string, k: nat): nat
    requires t != ""
  {
    FinishedFrom(t, Min(BracketAt(t) + 1, |t|), k)
  }

  lemma ReadPlain(t: string, i: nat, rest: string, n: nat)
    requires i < |t| && t[i] != '"' && t[i] != '\\' && t[i] >= ' ' && ReadString(t, i + 1) == Some(At(rest, n))
    ensures ReadString(t, i) == Some(At([t[i]] + rest, n))
  {
  }

  lemma ReadKey(t: string, q: nat)
    requires MatchesAt(t, CARDS_KEY, q)
    ensures ReadString(t, q + 1) == Some(At("cards", q + 7))
    ensures t[q] == '"' && t[q + 6] == '"' && forall x :: q < x < q + 6 ==> t[x] != '"' && t[x] != '[' && t[x] != '{'
  {
    var w := t[q..q + 7];
    assert t[q] == w[0] && t[q + 1] == w[1] && t[q + 2] == w[2] && t[q + 3] == w[3] && t[q + 4] == w[4] && t[q + 5] == w[5] && t[q + 6] == w[6];
    ReadPlain(t, q + 5, "", q + 7);
    assert ['s'] + "" == ['s'];
    ReadPlain(t, q + 4, ['s'], q + 7);
    ReadPlain(t, q + 3, ['d'] + ['s'], q + 7);
    ReadPlain(t, q + 2, ['r'] + (['d'] + ['s']), q + 7);
    ReadPlain(t, q + 1, ['a'] + (['r'] + (['d'] + ['s'])), q + 7);
    assert ['c'] + (['a'] + (['r'] + (['d'] + ['s']))) == "cards";
  }

  /** The fixed part of a batch text, in the reader's terms. */
  ghost predicate Header(t: string, items: seq<Value>, b: nat) {
    && t != "" && t[0] == '{'
    && var q := KeyAt(t);
       var a := BracketAt(t);
       && q + 7 < a < b < |t| - 1 && MatchesAt(t, CARDS_KEY, q)
       && t[a] == '[' && t[b] == ']' && t[|t| - 1] == '}'
       && SkipSpace(t, b + 1) == |t| - 1
       && (forall x :: q + 7 <= x < a ==> t[x] == ':' || Space(t[x]))
       && (forall x :: 1 <= x < q ==> Space(t[x]))
       && ReadValue(t, a) == Some(At(Arr(items), b + 1))
       && ReadValue(t, 0).Some? && ReadValue(t, 0).value.next == |t|
  }

  lemma ValueSkipsSpace(t: string, i: nat)
    requires i <= |t|
    ensures ReadValue(t, i) == ReadValue(t, SkipSpace(t, i))
  {
    hide ReadItems, ReadMembers, ReadString, ReadWord;
  }

  /** Objects start with a brace and arrays with a bracket. */
  lemma OpeningOf(t: string, i: nat)
    requires i <= |t| && ReadValue(t, i).Some?
    ensures ReadValue(t, i).value.value.Obj? <==> t[SkipSpace(t, i)] == '{'
    ensures ReadValue(t, i).value.value.Arr? <==> t[SkipSpace(t, i)] == '['
  {
    hide ReadItems, ReadMembers, ReadString;
  }

  /** The object part of the header. */
  lemma HeaderMember(t: string, cards: seq<Card>) returns (m: At<Member>)
    requires IsBatchText(t, cards)
    ensures 1 <= |t| && ReadMember(t, 1) == Some(m) && SkipSpace(t, m.next) == |t| - 1 && t[|t| - 1] == '}'
    ensures m.value.value.Arr? && DecodeAll(m.value.value.items) == Some(cards)
    ensures forall x :: x in m.value.value.items ==> x.Obj?
  {
    hide ReadMembers, ReadItems, ReadWord, ReadMember, ReadString, DecodeAll;
    ReadKey(t, KeyAt(t));
    assert SkipSpace(t, 0) == 0;
    ReadMembersTurn(t, 1);
    m := ReadMember(t, 1).value;
  }

  lemma BatchHeader(t: string, cards: seq<Card>) returns (items: seq<Value>, b: nat)
    requires IsBatchText(t, cards)
    ensures Header(t, items, b) && DecodeAll(items) == Some(cards) && forall x :: x in items ==> x.Obj?
  {
    hide ReadMembers, ReadItems, ReadWord, ReadString, ReadValue, DecodeAll, SkipSpace, FindClose;
    var m := HeaderMember(t, cards);
    var q, a := KeyAt(t), BracketAt(t);
    ReadKey(t, q);
    items := m.value.value.items;
    b := m.next - 1;
    var c := SkipSpace(t, q + 7);
    ValueSkipsSpace(t, c + 1);
    OpeningOf(t, c + 1);
    assert t[a] == '[';
    hide ReadMember;
    PassContainer('[', ']', t, a, 1);
  }

  // ---------- the salvage loop on a cut batch ----------

  lemma {:induction false} SalvagePlain(u: string, i: nat, j: nat)
    requires i <= j <= |u| && forall x :: i <= x < j ==> u[x] != '{'
    ensures SalvageFrom(u, i) == SalvageFrom(u, j)
    decreases j - i
  {
    if i < j {
      SalvagePlain(u, i + 1, j);
    }
  }

  lemma CutSlice(t: string, k: nat, i: nat, j: nat)
    requires i <= j <= k <= |t|
    ensures t[..k][i..j] == t[i..j]
  {
  }

  /** One item under the salvage loop: taken if it is whole, and otherwise the end of the harvest. */
  lemma SalvageItem(t: string, i: nat, k: nat, card: Card)
    requires i <= k <= |t| && ReadValue(t, i).Some? && ReadValue(t, i).value.value.Obj?
    requires DecodeCard(ReadValue(t, i).value.value) == Some(card)
    ensures var n := ReadValue(t, i).value.next;
            SalvageFrom(t[..k], i) == if n <= k then [card] + SalvageFrom(t[..k], n) else []
  {
    hide ReadValue, DecodeCard, FindClose, SkipSpace;
    var s := SkipSpace(t, i);
    var v := ReadValue(t, i).value;
    OpeningOf(t, i);
    ValueSkipsSpace(t, i);
    SalvagePlain(t[..k], i, Min(s, k));
    if s < k {
      ScannerAgreesWithReader('{', '}', t, s);
      CutScan('{', '}', t, k, s, OUTSIDE);
      if v.next <= k {
        CutSlice(t, k, s, v.next);
        ValueTextIsDocument(t, s);
      }
    }
  }

  /** The space and separator after an item hold no card. */
  lemma SalvageGap(t: string, n: nat, k: nat)
    requires n <= k <= |t| && SkipSpace(t, n) < |t| && t[SkipSpace(t, n)] != '{'
    ensures SalvageFrom(t[..k], n) == if SkipSpace(t, n) < k then SalvageFrom(t[..k], SkipSpace(t, n) + 1) else []
  {
    hide SkipSpace, SalvageFrom;
    var p := SkipSpace(t, n);
    SalvagePlain(t[..k], n, Min(p + 1, k));
    SalvageEnd(t[..k]);
  }

  lemma FinishedTurn(t: string, i: nat, k: nat)
    requires i <= |t| && ReadValue(t, i).Some?
    ensures var v := ReadValue(t, i).value;
            var p := SkipSpace(t, v.next);
            FinishedFrom(t, i, k) ==
            if v.next > k then 0 else 1 + if p < |t| && t[p] == ',' then FinishedFrom(t, p + 1, k) else 0
  {
    hide ReadValue, SkipSpace;
  }

  lemma NothingFinished(t: string, i: nat, k: nat)
    requires k <= i <= |t|
    ensures FinishedFrom(t, i, k) == 0
  {
    hide ReadValue;
  }

  /** Array items that are all card objects. */
  ghost predicate CardItems(items: seq<Value>, cards: seq<Card>) {
    DecodeAll(items) == Some(cards) && forall x :: x in items ==> x.Obj?
  }

  lemma DecodeAllTurn(items: seq<Value>)
    requires items != []
    ensures DecodeAll(items) ==
            match (DecodeCard(items[0]), DecodeAll(items[1..]))
            case (Some(card), Some(rest)) => Some([card] + rest)
            case _ => None
  {
    hide DecodeCard;
  }

  /** The first of the items and the rest of them. */
  lemma CardItemsTurn(t: string, i: nat, items: seq<Value>, cards: seq<Card>)
    requires i <= |t| && ReadItems(t, i).Some? && ReadItems(t, i).value.value == items && CardItems(items, cards)
    ensures ReadValue(t, i).Some? && cards != []
    ensures var v := ReadValue(t, i).value;
            var p := SkipSpace(t, v.next);
            && v.value.Obj? && DecodeCard(v.value) == Some(cards[0]) && p < |t|
            && if t[p] == ','
               then && ReadItems(t, p + 1).Some? && ReadItems(t, p + 1).value.next == ReadItems(t, i).value.next
                    && ReadItems(t, p + 1).value.value == items[1..] && CardItems(items[1..], cards[1..])
               else t[p] == ']' && |cards| == 1 && ReadItems(t, i).value.next == p + 1
  {
    hide ReadItems, ReadValue, SkipSpace, DecodeCard, DecodeAll;
    ReadItemsTurn(t, i);
    DecodeAllTurn(items);
    var v := ReadValue(t, i).value;
    var p := SkipSpace(t, v.next);
    assert items[0] == v.value && items[0] in items;
    assert forall x :: x in items[1..] ==> x in items;
    if t[p] == ',' {
      assert items[1..] == ReadItems(t, p + 1).value.value;
    }
  }

  lemma {:induction false} SalvageItems(t: string, i: nat, k: nat, items: seq<Value>, cards: seq<Card>)
    requires i <= k <= |t| && ReadItems(t, i).Some? && ReadItems(t, i).value.value == items && CardItems(items, cards)
    ensures var j := ReadItems(t, i).value.next;
            && FinishedFrom(t, i, k) <= |cards|
            && (j <= k ==> FinishedFrom(t, i, k) == |cards|)
            && SalvageFrom(t[..k], i) ==
               cards[..FinishedFrom(t, i, k)] + if j <= k then SalvageFrom(t[..k], j) else []
    decreases |t| - i
  {
    hide ReadItems, ReadValue, SkipSpace, DecodeCard, SalvageFrom, FinishedFrom, CardItems;
    CardItemsTurn(t, i, items, cards);
    FinishedTurn(t, i, k);
    var v := ReadValue(t, i).value;
    var p := SkipSpace(t, v.next);
    SalvageItem(t, i, k, cards[0]);
    if v.next <= k {
      SalvageGap(t, v.next, k);
      if t[p] == ',' {
        if p < k {
          SalvageItems(t, p + 1, k, items[1..], cards[1..]);
          assert cards[..FinishedFrom(t, i, k)] == [cards[0]] + cards[1..][..FinishedFrom(t, p + 1, k)];
        } else {
          NothingFinished(t, p + 1, k);
        }
      }
    }
  }

  /** What the loop collects from a cut batch, starting at the array bracket. */
  lemma SalvageFromBracket(t: string, k: nat, items: seq<Value>, b: nat, cards: seq<Card>)
    requires Header(t, items, b) && BracketAt(t) < k <= |t|
    requires DecodeAll(items) == Some(cards) && forall x :: x in items ==> x.Obj?
    ensures Finished(t, k) <= |cards| && SalvageFrom(t[..k], BracketAt(t)) == cards[..Finished(t, k)]
    ensures b < k ==> Finished(t, k) == |cards|
  {
    hide ReadItems, ReadValue, FinishedFrom, DecodeAll, BracketAt, SalvageFrom, SkipSpace, Header;
    SalvagePlainBracket(t, k, items, b);
    BracketItems(t, items, b);
    if b < k {
      AfterBracket(t, k, items, b);
    }
    SalvageArray(t, BracketAt(t) + 1, k, items, b, cards);
  }

  lemma SalvagePlainBracket(t: string, k: nat, items: seq<Value>, b: nat)
    requires Header(t, items, b) && BracketAt(t) < k <= |t|
    ensures BracketAt(t) + 1 <= |t| && SalvageFrom(t[..k], BracketAt(t)) == SalvageFrom(t[..k], BracketAt(t) + 1)
  {
    SalvagePlain(t[..k], BracketAt(t), BracketAt(t) + 1);
  }

  /** The whole array, when nothing after it is collected. */
  lemma SalvageArray(t: string, i: nat, k: nat, items: seq<Value>, b: nat, cards: seq<Card>)
    requires i <= k <= |t| && DecodeAll(items) == Some(cards) && forall x :: x in items ==> x.Obj?
    requires if items == [] then SkipSpace(t, i) == b < |t| && t[b] == ']' else ReadItems(t, i) == Some(At(items, b + 1))
    requires b < k ==> SalvageFrom(t[..k], b + 1) == []
    ensures FinishedFrom(t, i, k) <= |cards| && (b < k ==> FinishedFrom(t, i, k) == |cards|)
    ensures SalvageFrom(t[..k], i) == cards[..FinishedFrom(t, i, k)]
  {
    hide ReadItems, FinishedFrom, SalvageFrom, SkipSpace;
    if items == [] {
      NoItems(t, i, k);
      SalvageGap(t, i, k);
    } else {
      SalvageItems(t, i, k, items, cards);
    }
  }

  lemma AfterBracket(t: string, k: nat, items: seq<Value>, b: nat)
    requires Header(t, items, b) && b < k <= |t|
    ensures SalvageFrom(t[..k], b + 1) == []
  {
    hide ReadValue, KeyAt, BracketAt, SalvageFrom, SkipSpace, MatchesAt;
    SalvageGap(t, b + 1, k);
    SalvageEnd(t[..k]);
  }

  lemma BracketItems(t: string, items: seq<Value>, b: nat)
    requires Header(t, items, b)
    ensures var a := BracketAt(t);
            a < b < |t| && if items == [] then SkipSpace(t, a + 1) == b && t[b] == ']' else ReadItems(t, a + 1) == Some(At(items, b + 1))
  {
    hide ReadItems, KeyAt, BracketAt;
    assert SkipSpace(t, BracketAt(t)) == BracketAt(t);
  }

  lemma NoItems(t: string, i: nat, k: nat)
    requires i <= |t| && SkipSpace(t, i) < |t| && t[SkipSpace(t, i)] == ']'
    ensures FinishedFrom(t, i, k) == 0
  {
    hide SkipSpace, FinishedFrom, NumberText, ReadItems, ReadMembers, ReadString;
    NoValueAtBracket(t, i);
    NothingReads(t, i, k);
  }

  lemma NoValueAtBracket(t: string, i: nat)
    requires i <= |t| && SkipSpace(t, i) < |t| && t[SkipSpace(t, i)] == ']'
    ensures ReadValue(t, i).None?
  {
    hide SkipSpace, NumberText, ReadItems, ReadMembers, ReadString;
    var s := SkipSpace(t, i);
    assert s + 4 <= |t| ==> t[s..s + 4][0] == t[s];
    assert s + 5 <= |t| ==> t[s..s + 5][0] == t[s];
  }

  lemma NothingReads(t: string, i: nat, k: nat)
    requires i <= |t| && ReadValue(t, i).None?
    ensures FinishedFrom(t, i, k) == 0
  {
    hide ReadValue, SkipSpace;
  }

  // ---------- the fallbacks on a cut batch ----------

  /** Text in front of the batch that holds no delimiter and no quote, and does not start with a blank. */
  predicate Preamble(pre: string) {
    && (forall x :: 0 <= x < |pre| ==> pre[x] != '{' && pre[x] != '[' && pre[x] != '"')
    && (pre != "" ==> !IsSpace(pre[0]))
  }

  lemma FindIs(t: string, p: string, i: nat, r: nat)
    requires i <= r && MatchesAt(t, p, r) && forall k :: i <= k < r ==> !MatchesAt(t, p, k)
    ensures Find(t, p, i) == Some(r)
  {
    hide Find;
    FindHolds(t, p, i);
  }

  /** The characters of a header before the opening bracket. */
  lemma HeaderChars(t: string, items: seq<Value>, b: nat)
    requires Header(t, items, b)
    ensures forall x :: 0 <= x < BracketAt(t) ==> t[x] != '['
    ensures forall x :: 0 <= x < KeyAt(t) ==> t[x] != '"'
  {
    hide SkipSpace, ReadValue;
    ReadKey(t, KeyAt(t));
  }

  lemma MatchChar(t: string, p: string, x: nat, d: nat)
    requires MatchesAt(t, p, x) && d < |p|
    ensures x + d < |t| && t[x + d] == p[d]
  {
    assert t[x + d] == t[x..x + |p|][d];
  }

  lemma NoKeyWithoutQuote(w: string, m: nat)
    requires forall x :: 0 <= x < m && x < |w| ==> w[x] != '"'
    ensures forall x :: 0 <= x < m ==> !MatchesAt(w, CARDS_KEY, x)
  {
    forall x | 0 <= x < m
      ensures !MatchesAt(w, CARDS_KEY, x)
    {
      if MatchesAt(w, CARDS_KEY, x) {
        MatchChar(w, CARDS_KEY, x, 0);
      }
    }
  }

  lemma CutChars(pre: string, t: string, items: seq<Value>, b: nat, k: nat)
    requires Preamble(pre) && Header(t, items, b) && k <= |t|
    ensures var w := pre + t[..k];
            && (forall x :: 0 <= x < |pre| + Min(BracketAt(t), k) ==> w[x] != '[')
            && (forall x :: 0 <= x < |pre| + Min(KeyAt(t), k) ==> w[x] != '"')
            && (BracketAt(t) < k ==> w[|pre| + BracketAt(t)] == '[')
  {
    hide SkipSpace, ReadValue, KeyAt, BracketAt, MatchesAt;
    HeaderChars(t, items, b);
    var w, n := pre + t[..k], |pre|;
    assert forall x :: 0 <= x < n ==> w[x] == pre[x];
    assert forall x :: n <= x < n + k ==> w[x] == t[x - n];
  }

  lemma CutKey(pre: string, t: string, q: nat, k: nat)
    requires q <= |t| && MatchesAt(t, CARDS_KEY, q) && k <= |t|
    ensures q + 7 <= k ==> MatchesAt(pre + t[..k], CARDS_KEY, |pre| + q)
    ensures k < q + 7 ==> forall x :: x >= |pre| + q ==> !MatchesAt(pre + t[..k], CARDS_KEY, x)
  {
    if q + 7 <= k {
      assert (pre + t[..k])[|pre| + q..|pre| + q + 7] == t[q..q + 7];
    }
  }

  lemma ArrayOpenOfCut(pre: string, t: string, items: seq<Value>, b: nat, k: nat)
    requires Preamble(pre) && Header(t, items, b) && k <= |t|
    ensures ArrayOpen(pre + t[..k]) == if BracketAt(t) < k then Some(|pre| + BracketAt(t)) else None
  {
    hide SkipSpace, ReadValue, Find, MatchesAt, BracketAt, KeyAt;
    var w, n, q, a := pre + t[..k], |pre|, KeyAt(t), BracketAt(t);
    CutChars(pre, t, items, b, k);
    CutKey(pre, t, q, k);
    NoKeyWithoutQuote(w, n + Min(q, k));
    if q + 7 <= k {
      FindIs(w, CARDS_KEY, 0, n + q);
      FindChar(w, '[', n + q, n + Min(a, k));
    } else {
      NoKeyAtEnd(w, n + q);
      FindChar(w, '[', 0, n + k);
    }
  }

  lemma NoKeyAtEnd(w: string, m: nat)
    requires forall x :: 0 <= x < m && x < |w| ==> !MatchesAt(w, CARDS_KEY, x)
    requires forall x :: x >= m ==> !MatchesAt(w, CARDS_KEY, x)
    ensures Find(w, CARDS_KEY, 0).None?
  {
    hide Find, MatchesAt;
    FindHolds(w, CARDS_KEY, 0);
  }

  lemma {:induction false} ShiftSalvage(pre: string, u: string, i: nat)
    requires i <= |u|
    ensures SalvageFrom(pre + u, |pre| + i) == SalvageFrom(u, i)
    decreases |u| - i
  {
    hide SalvageFrom, Harvest, FindClose;
    var w := pre + u;
    if i == |u| {
      SalvageEnd(u);
      SalvageEnd(w);
    } else {
      assert w[|pre| + i] == u[i];
      SalvageTurn(w, |pre| + i);
      SalvageTurn(u, i);
      if u[i] != '{' {
        ShiftSalvage(pre, u, i + 1);
      } else {
        ShiftScan('{', '}', pre, u, i, OUTSIDE);
        match FindClose('{', '}', u, i, OUTSIDE) {
          case None =>
          case Some(e) =>
            assert w[|pre| + i..|pre| + e + 1] == u[i..e + 1];
            ShiftSalvage(pre, u, e + 1);
        }
      }
    }
  }

  lemma NothingValid(cards: seq<Card>)
    requires cards == []
    ensures Valid(cards) == []
  {
  }

  lemma SalvageOfCut(pre: string, t: string, items: seq<Value>, b: nat, cards: seq<Card>, k: nat)
    requires Preamble(pre) && Header(t, items, b) && k <= |t|
    requires DecodeAll(items) == Some(cards) && forall x :: x in items ==> x.Obj?
    ensures Finished(t, k) <= |cards| && Salvage(pre + t[..k]) == Valid(cards[..Finished(t, k)])
    ensures b < k ==> Finished(t, k) == |cards|
  {
    hide SalvageFrom, ArrayOpen, DecodeAll, BracketAt, Finished, ReadValue, ReadMember, ReadItems, SkipSpace, KeyAt, MatchesAt, Valid;
    ArrayOpenOfCut(pre, t, items, b, k);
    if BracketAt(t) < k {
      SalvageFromBracket(t, k, items, b, cards);
      ShiftSalvage(pre, t[..k], BracketAt(t));
    } else {
      FinishedBeforeBracket(t, items, b, k);
      NothingValid(cards[..Finished(t, k)]);
    }
  }

  lemma FinishedBeforeBracket(t: string, items: seq<Value>, b: nat, k: nat)
    requires Header(t, items, b) && k <= BracketAt(t)
    ensures Finished(t, k) == 0
  {
    hide SkipSpace, ReadValue, BracketAt;
    NothingFinished(t, BracketAt(t) + 1, k);
  }

  lemma WholeBatch(t: string, cards: seq<Card>)
    requires IsBatchText(t, cards)
    ensures BatchOf(t) == Some(Valid(cards))
  {
    hide ReadValue, SkipSpace, DecodeAll, Valid, MatchesAt, ReadDocument, Occurrences, Lookup;
    var v := ReadValue(t, 0).value.value;
    WholeDocument(t);
    OneMember(v.members[0]);
    assert v.members == [v.members[0]];
  }

  lemma WholeDocument(t: string)
    requires ReadValue(t, 0).Some? && ReadValue(t, 0).value.next == |t|
    ensures ReadDocument(t) == Some(ReadValue(t, 0).value.value)
  {
    hide ReadValue;
    assert SkipSpace(t, |t|) == |t|;
  }

  lemma OneMember(m: Member)
    ensures Occurrences([m], m.key) == 1 && Lookup([m], m.key) == m.value
  {
    assert [m][1..] == [];
  }

  lemma CutIsNoBatch(t: string, cards: seq<Card>, k: nat)
    requires IsBatchText(t, cards) && k < |t|
    ensures BatchOf(t[..k]) == None
  {
    hide ReadValue, SkipSpace, DecodeAll, MatchesAt, ReadDocument;
    PrefixIsNoDocument(t, k);
  }

  lemma PreambleIsNoBatch(pre: string, u: string)
    requires Preamble(pre) && pre != ""
    ensures BatchOf(pre + u) == None
  {
    hide ReadItems, ReadMembers, ReadString, NumberText;
    var w := pre + u;
    assert w[0] == pre[0];
    assert SkipSpace(w, 0) == 0;
  }

  lemma ArrayTextIsBatch(t: string, items: seq<Value>, b: nat, cards: seq<Card>)
    requires Header(t, items, b) && DecodeAll(items) == Some(cards) && forall x :: x in items ==> x.Obj?
    ensures BatchOf(t[BracketAt(t)..b + 1]) == Some(Valid(cards))
  {
    hide ReadValue, SkipSpace, DecodeAll, MatchesAt, Valid, KeyAt, BracketAt, ReadDocument;
    ValueTextIsDocument(t, BracketAt(t));
    if |items| == 1 {
      assert items[0] in items;
    }
  }

  lemma FirstOpener(open: char, pre: string, t: string, k: nat, s: nat)
    requires k <= |t| && s < |t| && t[s] == open
    requires (forall x :: 0 <= x < |pre| ==> pre[x] != open) && forall x :: 0 <= x < s ==> t[x] != open
    ensures Find(pre + t[..k], [open], 0) == if s < k then Some(|pre| + s) else None
  {
    hide Find;
    var w, n := pre + t[..k], |pre| + Min(s, k);
    forall x | 0 <= x < n
      ensures w[x] != open
    {
      assert w[x] == if x < |pre| then pre[x] else t[x - |pre|];
    }
    assert s < k ==> w[n] == t[s];
    FindChar(w, open, 0, n);
  }

  lemma CloseOfCut(open: char, close: char, pre: string, t: string, k: nat, s: nat, next: nat)
    requires Delimiters(open, close) && s < k <= |t| && t[s] == open && ReadValue(t, s).Some? && ReadValue(t, s).value.next == next
    ensures FindClose(open, close, pre + t[..k], |pre| + s, OUTSIDE) == if next <= k then Some(|pre| + next - 1) else None
  {
    hide ReadValue, FindClose, SkipSpace;
    ScannerAgreesWithReader(open, close, t, s);
    CutScan(open, close, t, k, s, OUTSIDE);
    ShiftScan(open, close, pre, t[..k], s, OUTSIDE);
  }

  lemma ShiftSlice(pre: string, t: string, k: nat, i: nat, j: nat)
    requires i <= j <= k <= |t|
    ensures (pre + t[..k])[|pre| + i..|pre| + j] == t[i..j]
  {
  }

  /** What an extractor finds in a cut text whose first opener starts a value: the value's text if it is whole. */
  lemma ExtractOfCut(open: char, close: char, pre: string, t: string, k: nat, s: nat)
    requires Delimiters(open, close) && k <= |t| && s < |t| && t[s] == open && ReadValue(t, s).Some?
    requires (forall x :: 0 <= x < |pre| ==> pre[x] != open) && forall x :: 0 <= x < s ==> t[x] != open
    ensures var next := ReadValue(t, s).value.next;
            s < next <= |t| && Extract(open, close, pre + t[..k]) == if next <= k then Some(t[s..next]) else None
  {
    hide ReadValue, FindClose, Find;
    var next := ReadValue(t, s).value.next;
    FirstOpener(open, pre, t, k, s);
    if s < k {
      CloseOfCut(open, close, pre, t, k, s, next);
      if next <= k {
        ShiftSlice(pre, t, k, s, next);
      }
    }
  }

  /** The object fallback finds the batch only when it is whole. */
  lemma ObjectOfCut(pre: string, t: string, items: seq<Value>, b: nat, k: nat)
    requires Preamble(pre) && Header(t, items, b) && k <= |t|
    ensures Extract('{', '}', pre + t[..k]) == if k == |t| then Some(t) else None
  {
    hide ReadValue, SkipSpace, Extract, KeyAt, BracketAt, MatchesAt;
    ExtractOfCut('{', '}', pre, t, k, 0);
    assert t[0..|t|] == t;
  }

  /** The array fallback finds the array only when it is whole. */
  lemma ArrayOfCut(pre: string, t: string, items: seq<Value>, b: nat, k: nat)
    requires Preamble(pre) && Header(t, items, b) && k <= |t|
    ensures Extract('[', ']', pre + t[..k]) == if b < k then Some(t[BracketAt(t)..b + 1]) else None
  {
    hide ReadValue, SkipSpace, Extract, KeyAt, BracketAt, MatchesAt;
    HeaderChars(t, items, b);
    ExtractOfCut('[', ']', pre, t, k, BracketAt(t));
  }

  /** Whichever fallback fires, the reader returns the finished cards that have content. */
  lemma ReadCardsOfCut(pre: string, t: string, cards: seq<Card>, k: nat)
    requires Preamble(pre) && IsBatchText(t, cards) && k <= |t|
    ensures Finished(t, k) <= |cards| && ReadCards(pre + t[..k]) == Valid(cards[..Finished(t, k)])
  {
    hide BatchOf, Extract, Salvage, Valid, Finished, DecodeAll, IsBatchText, ReadValue, SkipSpace, BracketAt, KeyAt, MatchesAt;
    var items, b := BatchHeader(t, cards);
    SalvageOfCut(pre, t, items, b, cards, k);
    ObjectOfCut(pre, t, items, b, k);
    ArrayOfCut(pre, t, items, b, k);
    ArrayTextIsBatch(t, items, b, cards);
    WholeBatch(t, cards);
    if pre != "" {
      PreambleIsNoBatch(pre, t[..k]);
    } else {
      assert pre + t[..k] == t[..k];
      if k < |t| {
        CutIsNoBatch(t, cards, k);
      } else {
        assert t[..k] == t;
      }
    }
    assert Finished(t, k) == |cards| ==> cards[..Finished(t, k)] == cards;
  }

  // ---------- the main results ----------

  lemma {:induction false} FinishedIgnoresBlanks(t: string, i: nat, k: nat, k': nat, items: seq<Value>)
    requires i <= |t| && ReadItems(t, i).Some? && ReadItems(t, i).value.value == items
    requires k' <= k <= |t| && Blank(t[k'..k]) && forall x :: x in items ==> x.Obj?
    ensures FinishedFrom(t, i, k) == FinishedFrom(t, i, k')
    decreases |t| - i
  {
    hide ReadItems, ReadValue, SkipSpace, FinishedFrom, FindClose;
    ReadItemsTurn(t, i);
    FinishedTurn(t, i, k);
    FinishedTurn(t, i, k');
    var v := ReadValue(t, i).value;
    var p := SkipSpace(t, v.next);
    assert items[0] == v.value && items[0] in items;
    OpeningOf(t, i);
    PassContainer('{', '}', t, i, 1);
    if k' < v.next <= k {
      BlankAt(t, k', k, v.next - 1);
    }
    if t[p] == ',' {
      assert items[1..] == ReadItems(t, p + 1).value.value;
      assert forall x :: x in items[1..] ==> x in items;
      FinishedIgnoresBlanks(t, p + 1, k, k', items[1..]);
    }
  }

  lemma FinishedOfTrimmed(t: string, cards: seq<Card>, k: nat, k': nat)
    requires IsBatchText(t, cards) && k' <= k <= |t| && Blank(t[k'..k])
    ensures Finished(t, k) == Finished(t, k')
  {
    hide ReadItems, ReadValue, SkipSpace, FinishedFrom, BracketAt, KeyAt, MatchesAt, DecodeAll, IsBatchText;
    var items, b := BatchHeader(t, cards);
    BracketItems(t, items, b);
    if items == [] {
      NoItems(t, BracketAt(t) + 1, k);
      NoItems(t, BracketAt(t) + 1, k');
    } else {
      FinishedIgnoresBlanks(t, BracketAt(t) + 1, k, k', items);
    }
  }

  lemma TrimOfPreamble(lead: string, pre: string) returns (pre': string)
    requires Blank(lead) && Preamble(pre)
    ensures Preamble(pre') && pre' <= pre && (pre != "" ==> pre' != "") && Trim(lead + pre) == pre'
  {
    hide TrimStart, TrimEnd, Trim;
    TrimEndHolds(pre);
    pre' := TrimEnd(pre);
    var z := pre[|pre'|..];
    if pre != "" && pre' == "" {
      BlankAt(pre, 0, |pre|, 0);
    }
    TrimUnique(lead, pre', z);
    assert lead + pre == lead + pre' + z;
  }

  lemma TrimOfBatchPart(lead: string, pre: string, t: string, k: nat) returns (k': nat)
    requires Blank(lead) && Preamble(pre) && t != "" && !IsSpace(t[0]) && 0 < k <= |t|
    ensures 0 < k' <= k && Blank(t[k'..k]) && Trim(lead + pre + t[..k]) == pre + t[..k']
  {
    hide TrimStart, TrimEnd, Trim;
    TrimEndHolds(t[..k]);
    var u := t[..k];
    k' := |TrimEnd(u)|;
    assert u[..k'] == t[..k'] && u[k'..] == t[k'..k];
    assert u[0..] == u && u[0] in u;
    var m := pre + t[..k'];
    assert m[0] == if pre != "" then pre[0] else t[0];
    assert m[|m| - 1] == u[k' - 1];
    TrimUnique(lead, m, t[k'..k]);
    assert lead + pre + u == lead + m + t[k'..k];
  }

  /** Trimming a cut response shortens the cut by blanks only. */
  lemma TrimOfCut(lead: string, pre: string, t: string, k: nat) returns (pre': string, k': nat)
    requires Blank(lead) && Preamble(pre) && t != "" && !IsSpace(t[0]) && k <= |t|
    ensures k' <= k && Blank(t[k'..k]) && Preamble(pre')
    ensures pre' <= pre && (pre != "" ==> pre' != "") && (0 < k ==> pre' == pre && 0 < k')
    ensures Trim(lead + pre + t[..k]) == pre' + t[..k']
  {
    hide Trim, Preamble, IsSpace;
    if k == 0 {
      pre' := TrimOfPreamble(lead, pre);
      k' := 0;
      assert lead + pre + t[..k] == lead + pre;
      assert pre' + t[..k'] == pre';
    } else {
      pre' := pre;
      k' := TrimOfBatchPart(lead, pre, t, k);
    }
  }

  /**
   Cutting a batch response at any position, with any blanks and any delimiter-free
   prose in front of it, makes the reader return exactly the finished cards that have
   content, in order.
   */
  lemma CutBatchRecoversFinishedCards(lead: string, pre: string, t: string, cards: seq<Card>, k: nat)
    requires Blank(lead) && Preamble(pre) && (pre != "" ==> pre[0] != '`')
    requires IsBatchText(t, cards) && k <= |t|
    ensures Finished(t, k) <= |cards| && CardsIn(lead + pre + t[..k]) == Valid(cards[..Finished(t, k)])
  {
    hide Finished, Valid, ReadCards, Trim;
    var pre', k' := TrimOfCut(lead, pre, t, k);
    var cleaned := pre' + t[..k'];
    TrimTwice(lead + pre + t[..k]);
    assert cleaned != "" ==> cleaned[0] == (if pre' != "" then pre[0] else t[0]);
    assert !StartsWith(cleaned, "```") by {
      if StartsWith(cleaned, "```") {
        MatchChar(cleaned, "```", 0, 0);
      }
    }
    ReadCardsOfCut(pre', t, cards, k');
    FinishedOfTrimmed(t, cards, k, k');
  }

  lemma WholeBatchBefore(pre: string, t: string, post: string, cards: seq<Card>)
    requires Preamble(pre) && IsBatchText(t, cards)
    ensures ReadCards(pre + t + post) == Valid(cards)
  {
    hide BatchOf, FindClose, Salvage, Valid, ReadValue, SkipSpace, DecodeAll, Find, MatchesAt;
    var w, tp := pre + t + post, t + post;
    assert w == pre + tp;
    if pre != "" {
      PreambleIsNoBatch(pre, tp);
    } else {
      assert w == tp;
      TrailedBatch(t, post, cards);
    }
    assert forall x :: 0 <= x < |pre| ==> w[x] == pre[x];
    assert w[|pre|] == t[0];
    FindChar(w, '{', 0, |pre|);
    ScannerAgreesWithReader('{', '}', t, 0);
    assert tp[..|t|] == t;
    CutScan('{', '}', tp, |t|, 0, OUTSIDE);
    ShiftScan('{', '}', pre, tp, 0, OUTSIDE);
    assert w[|pre|..|pre| + |t|] == t;
    WholeBatch(t, cards);
  }

  /** A complete batch in any prose: every card with content is returned, whatever follows the batch. */
  lemma WholeBatchInProse(lead: string, pre: string, t: string, post: string, cards: seq<Card>)
    requires Blank(lead) && Preamble(pre) && (pre != "" ==> pre[0] != '`') && IsBatchText(t, cards)
    ensures CardsIn(lead + pre + t + post) == Valid(cards)
  {
    hide TrimStart, TrimEnd, Trim, ReadCards, Valid, IsBatchText, IsSpace;
    TrimEndHolds(post);
    var raw, rest := lead + pre + t + post, TrimEnd(post);
    var m := pre + t + rest;
    BatchStarts(t, cards);
    BatchEnds(t, cards);
    assert !IsSpace('}') by { BraceIsNoSpace(); }
    assert m[0] == if pre != "" then pre[0] else t[0];
    assert m[|m| - 1] == if rest != "" then rest[|rest| - 1] else t[|t| - 1];
    TrimUnique(lead, m, post[|rest|..]);
    assert raw == lead + m + post[|rest|..];
    TrimTwice(raw);
    assert !StartsWith(m, "```") by {
      if StartsWith(m, "```") {
        MatchChar(m, "```", 0, 0);
      }
    }
    WholeBatchBefore(pre, t, rest, cards);
  }

  lemma BraceIsNoSpace()
    ensures !IsSpace('}')
  {
  }

  lemma TrailedBatch(t: string, post: string, cards: seq<Card>)
    requires IsBatchText(t, cards)
    ensures BatchOf(t + post).None? || BatchOf(t + post) == Some(Valid(cards))
  {
    hide ReadValue, SkipSpace, DecodeAll, MatchesAt, DecodeBatch, DecodeCards;
    MoveValue(t, 0, t + post, 0);
    WholeBatch(t, cards);
    assert SkipSpace(t, |t|) == |t|;
  }

  // ---------- growth ----------

  /** On any text at all, what the loop collects from a cut is the beginning of what it collects from the whole. */
  lemma {:induction false} SalvageFromGrows(t: string, k: nat, i: nat)
    requires i <= k <= |t|
    ensures SalvageFrom(t[..k], i) <= SalvageFrom(t, i)
    decreases |t| - i
  {
    hide SalvageFrom, Harvest, FindClose;
    if i == k {
      SalvageEnd(t[..k]);
    } else {
      assert t[..k][i] == t[i];
      SalvageTurn(t[..k], i);
      SalvageTurn(t, i);
      if t[i] != '{' {
        SalvageFromGrows(t, k, i + 1);
      } else {
        CutScan('{', '}', t, k, i, OUTSIDE);
        match FindClose('{', '}', t, i, OUTSIDE) {
          case None =>
          case Some(e) =>
            if e < k {
              CutSlice(t, k, i, e + 1);
              SalvageFromGrows(t, k, e + 1);
            }
        }
      }
    }
  }

  lemma {:induction false} ValidGrows(a: seq<Card>, b: seq<Card>)
    requires a <= b
    ensures Valid(a) <= Valid(b)
  {
    hide HasContent;
    if a != [] {
      assert a[0] == b[0] && a[1..] <= b[1..];
      ValidGrows(a[1..], b[1..]);
    }
  }

  /** Once the array opener is settled, a longer response never loses a salvaged card. */
  lemma SalvageGrows(t: string, k: nat)
    requires k <= |t| && ArrayOpen(t[..k]).Some? && ArrayOpen(t) == ArrayOpen(t[..k])
    ensures Salvage(t[..k]) <= Salvage(t)
  {
    var open := ArrayOpen(t).value;
    SalvageFromGrows(t, k, open);
    ValidGrows(SalvageFrom(t[..k], open), SalvageFrom(t, open));
  }

  // ---------- fenced responses ----------

  const FENCE := "```json\n"

  /** Where a fenced, cut response is cut once more: at its last inner fence. */
  function FencedCut(t: string, k: nat): (r: nat)
    requires k <= |t|
    ensures r <= k
  {
    match FindLast(t[..k], "```") case Some(e) => e case None => k
  }

  lemma FenceShape()
    ensures |FENCE| == 8 && FENCE[7] == '\n' && forall x :: 0 <= x < 7 ==> FENCE[x] != '\n'
    ensures FENCE[..3] == "```" && forall x :: 3 <= x < 8 ==> FENCE[x] != '`'
    ensures Preamble(FENCE) && Preamble("```json") && FENCE == "```json" + "\n"
  {
  }

  lemma MatchAfter(a: string, u: string, p: string, x: nat)
    ensures MatchesAt(a + u, p, |a| + x) <==> MatchesAt(u, p, x)
  {
    if x + |p| <= |u| {
      assert (a + u)[|a| + x..|a| + x + |p|] == u[x..x + |p|];
    }
  }

  /** The opening fence is at the start and nowhere else in its line. */
  lemma OpeningFence(u: string, x: nat)
    requires x < 8
    ensures MatchesAt(FENCE + u, "```", x) <==> x == 0
  {
    var w := FENCE + u;
    FenceShape();
    assert w[0] == FENCE[..3][0] && w[1] == FENCE[..3][1] && w[2] == FENCE[..3][2];
    if x == 0 {
      assert w[0..3] == "```";
    } else {
      var d := if x < 3 then 3 - x else 0;
      assert w[x + d] == FENCE[x + d];
      NoMatch(w, "```", x, d);
    }
  }

  lemma NoMatch(t: string, p: string, x: nat, d: nat)
    requires x + d < |t| && d < |p| && t[x + d] != p[d]
    ensures !MatchesAt(t, p, x)
  {
    if MatchesAt(t, p, x) {
      MatchChar(t, p, x, d);
    }
  }

  /** The last fence of a fenced response is the last one inside, or else the opening one. */
  lemma LastFence(u: string)
    ensures FindLast(FENCE + u, "```") == match FindLast(u, "```") case Some(e) => Some(8 + e) case None => Some(0)
  {
    hide MatchesAt, FindLast;
    FindLastHolds(u, "```");
    FenceShape();
    var w := FENCE + u;
    forall x | 0 <= x <= |w|
      ensures MatchesAt(w, "```", x) <==> if x < 8 then x == 0 else MatchesAt(u, "```", x - 8)
    {
      if x < 8 {
        OpeningFence(u, x);
      } else {
        MatchAfter(FENCE, u, "```", x - 8);
      }
    }
    match FindLast(u, "```")
    case Some(e) => FindLastIs(w, "```", 8 + e);
    case None => FindLastIs(w, "```", 0);
  }

  lemma FindLastIs(t: string, p: string, r: nat)
    requires r <= |t| && MatchesAt(t, p, r) && forall k :: r < k <= |t| ==> !MatchesAt(t, p, k)
    ensures FindLast(t, p) == Some(r)
  {
    hide MatchesAt, FindLast;
    FindLastHolds(t, p);
  }

  lemma FindLastNone(t: string, p: string)
    requires forall k :: 0 <= k <= |t| ==> !MatchesAt(t, p, k)
    ensures FindLast(t, p) == None
  {
    hide MatchesAt, FindLast;
    FindLastHolds(t, p);
  }

  lemma FindLastInTrimmed(t: string, k: nat, k': nat)
    requires k' <= k <= |t| && Blank(t[k'..k])
    ensures FindLast(t[..k], "```") == FindLast(t[..k'], "```")
  {
    hide FindLast;
    FindLastHolds(t[..k'], "```");
    var u, u' := t[..k], t[..k'];
    forall x | 0 <= x <= k
      ensures MatchesAt(u, "```", x) <==> x <= k' && MatchesAt(u', "```", x)
    {
      if MatchesAt(u, "```", x) {
        MatchChar(u, "```", x, 2);
        assert u[x + 2] == t[x + 2];
        if x + 2 >= k' {
          BlankAt(t, k', k, x + 2);
        }
        CutSlice(t, k, x, x + 3);
        CutSlice(t, k', x, x + 3);
      } else if x + 3 <= k' {
        CutSlice(t, k, x, x + 3);
        CutSlice(t, k', x, x + 3);
      }
    }
    match FindLast(u', "```")
    case Some(e) => FindLastIs(u, "```", e);
    case None => FindLastNone(u, "```");
  }

  lemma BareFence(t: string)
    ensures JsonText(FENCE + t[..0]) == "```json"
  {
    hide TrimStart, TrimEnd, Trim, Find, FindLast;
    FenceShape();
    var m := "```json";
    assert "" + m + "\n" == FENCE + t[..0];
    assert m == "" + m + "";
    TrimUnique("", m, "\n");
    TrimUnique("", m, "");
    FindChar(m, '\n', 0, 7);
  }

  /** What is left of a fenced response after its fences are stripped: u is what follows the opening fence. */
  lemma FencedJsonText(u: string, w: string, last: Option<nat>, inner: string)
    requires w == FENCE + u && Trim(w) == w && last == FindLast(u, "```")
    requires last.Some? ==> 0 < last.value <= |u| && inner == u[..last.value]
    ensures StripFences(w) == if last.Some? then Some(Trim(inner)) else None
  {
    hide Trim, Find, FindLast;
    FenceShape();
    assert forall x :: 0 <= x < 8 ==> w[x] == FENCE[x];
    assert w[..3] == FENCE[..3];
    FindChar(w, '\n', 0, 7);
    LastFence(u);
    match last
    case None =>
    case Some(e) =>
      assert w[8..8 + e] == inner;
  }

  /**
   A complete or cut batch inside an opening JSON fence: the response is cut once more
   at the last fence inside it, so a code fence in a card's text costs the cards after it.
   */
  lemma FencedCutRecovers(t: string, cards: seq<Card>, k: nat)
    requires IsBatchText(t, cards) && k <= |t|
    ensures Finished(t, FencedCut(t, k)) <= |cards|
    ensures CardsIn(FENCE + t[..k]) == Valid(cards[..Finished(t, FencedCut(t, k))])
  {
    hide Finished, Valid, ReadCards, Trim, Preamble, FindLast, IsSpace, Find, FencedCut, StripFences, IsBatchText;
    if k == 0 {
      FencedNothing(t, cards);
    } else {
      assert t != "" && t[0] == '{' && !IsSpace(t[0]) by { BatchStarts(t, cards); }
      FenceShape();
      var pre', k' := TrimOfCut("", FENCE, t, k);
      var raw := FENCE + t[..k];
      assert "" + FENCE + t[..k] == raw;
      TrimTwice(raw);
      var last := FindLast(t[..k'], "```");
      FindLastInTrimmed(t, k, k');
      FencedCutOfTrimmed(t, k, k', last);
      FencedCutOfTrimmed(t, k', k', last);
      if last.Some? {
        InnerFence(t, k', last.value);
      }
      FencedJsonText(t[..k'], FENCE + t[..k'], last, t[..FencedCut(t, k')]);
      match last {
        case None =>
          ReadCardsOfCut(FENCE, t, cards, k');
          FinishedOfTrimmed(t, cards, k, k');
        case Some(e) =>
          InnerCut(t, cards, e);
      }
    }
  }

  lemma BatchStarts(t: string, cards: seq<Card>)
    requires IsBatchText(t, cards)
    ensures t != "" && t[0] == '{' && !IsSpace(t[0])
  {
  }

  lemma FencedNothing(t: string, cards: seq<Card>)
    requires IsBatchText(t, cards)
    ensures FencedCut(t, 0) == 0 && Finished(t, 0) <= |cards| && CardsIn(FENCE + t[..0]) == Valid(cards[..Finished(t, 0)])
  {
    hide JsonText, Finished, Valid, ReadCards, IsBatchText;
    FenceShape();
    BareFence(t);
    ReadCardsOfCut("```json", t, cards, 0);
    assert "```json" + t[..0] == "```json";
  }

  lemma FencedCutOfTrimmed(t: string, k: nat, k': nat, last: Option<nat>)
    requires k' <= k <= |t| && FindLast(t[..k], "```") == last && last == FindLast(t[..k'], "```")
    ensures FencedCut(t, k) == match last case Some(e) => e case None => k
  {
    hide FindLast;
  }

  /** A fence inside a batch text is not at its start. */
  lemma InnerFence(t: string, k: nat, e: nat)
    requires t != "" && t[0] == '{' && k <= |t| && FindLast(t[..k], "```") == Some(e)
    ensures 0 < e <= k && t[..k][..e] == t[..e]
  {
    hide FindLast;
    FindLastHolds(t[..k], "```");
    MatchChar(t[..k], "```", e, 0);
  }

  lemma InnerCut(t: string, cards: seq<Card>, e: nat)
    requires IsBatchText(t, cards) && e <= |t|
    ensures Finished(t, e) <= |cards| && ReadCards(Trim(Trim(t[..e]))) == Valid(cards[..Finished(t, e)])
  {
    hide Finished, Valid, ReadCards, Trim;
    var p, e' := TrimOfCut("", "", t, e);
    assert "" + "" + t[..e] == t[..e] && p + t[..e'] == t[..e'];
    TrimTwice(t[..e]);
    ReadCardsOfCut("", t, cards, e');
    FinishedOfTrimmed(t, cards, e, e');
  }

  const CLOSING := "\n```"

  /** The closing fence of a complete fenced response is the last fence, whatever fences its cards contain. */
  lemma ClosingFence(t: string)
    ensures FindLast(t + CLOSING, "```") == Some(|t| + 1) && (t + CLOSING)[..|t| + 1] == t + "\n"
  {
    hide FindLast;
    var u := t + CLOSING;
    assert u[|t| + 1..|t| + 4] == "```";
    FindLastIs(u, "```", |t| + 1);
  }

  /** A complete fenced response yields every card with content. */
  lemma WholeFencedBatch(t: string, cards: seq<Card>)
    requires IsBatchText(t, cards)
    ensures CardsIn(FENCE + t + CLOSING) == Valid(cards)
  {
    hide Trim, FindLast, BatchOf, StripFences, Valid, IsBatchText, MatchesAt;
    BatchStarts(t, cards);
    BatchEnds(t, cards);
    FenceShape();
    var u := t + CLOSING;
    var w := FENCE + u;
    assert FENCE + t + CLOSING == w;
    assert w[0] == FENCE[..3][0] && w[|w| - 1] == '`';
    TrimUnique("", w, "");
    assert "" + w + "" == w;
    ClosingFence(t);
    FencedJsonText(u, w, Some(|t| + 1), t + "\n");
    TrimUnique("", t, "\n");
    TrimUnique("", t, "");
    assert "" + t + "\n" == t + "\n" && "" + t + "" == t;
    WholeBatch(t, cards);
  }

  lemma BatchEnds(t: string, cards: seq<Card>)
    requires IsBatchText(t, cards)
    ensures t != "" && t[|t| - 1] == '}'
  {
    hide ReadValue, SkipSpace, DecodeAll, KeyAt, BracketAt, MatchesAt;
    var items, b := BatchHeader(t, cards);
  }
}
