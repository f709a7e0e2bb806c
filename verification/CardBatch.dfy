/**
 The card batch reader: three string-aware delimiter scanners and a salvage loop
 that recovers finished cards from a response cut off by the token limit.
 */
module CardBatch {
  import opened Options
  import opened Text
  import opened Json

  // ---------- cards ----------

  datatype Card = Card(
    title: Option<string>,
    content: Option<string>,
    compressed: Option<string>,
    useImage: Option<Value>,
    imageQuery: Option<Value>)

  const CARD_KEYS: set<string> := {"title", "content", "compressed", "use_image", "image_query"}

  function Occurrences(ms: seq<Member>, key: string): nat {
    if ms == [] then 0 else (if ms[0].key == key then 1 else 0) + Occurrences(ms[1..], key)
  }

  function Lookup(ms: seq<Member>, key: string): Value {
    if ms == [] then Null else if ms[0].key == key then ms[0].value else Lookup(ms[1..], key)
  }

  function Optional(v: Value): Option<Value> {
    if v.Null? then None else Some(v)
  }

  /** A missing or null field is none; anything but a string is an error. */
  function OptionalText(v: Value): Option<Option<string>> {
    match v
    case Null => Some(None)
    case Str(s) => Some(Some(s))
    case _ => None
  }

  function BuildCard(title: Value, content: Value, compressed: Value, useImage: Value, imageQuery: Value): Option<Card> {
    match (OptionalText(title), OptionalText(content), OptionalText(compressed))
    case (Some(t), Some(c), Some(z)) => Some(Card(t, c, z, Optional(useImage), Optional(imageQuery)))
    case _ => None
  }

  /** An object with each known field at most once, or the fields in order as an array whose last two may be missing. */
  function DecodeCard(v: Value): Option<Card> {
    match v
    case Obj(ms) =>
      if exists key :: key in CARD_KEYS && Occurrences(ms, key) > 1 then None
      else BuildCard(Lookup(ms, "title"), Lookup(ms, "content"), Lookup(ms, "compressed"),
                     Lookup(ms, "use_image"), Lookup(ms, "image_query"))
    case Arr(xs) =>
      if 3 <= |xs| <= 5
      then BuildCard(xs[0], xs[1], xs[2], if |xs| > 3 then xs[3] else Null, if |xs| > 4 then xs[4] else Null)
      else None
    case _ => None
  }

  function DecodeAll(vs: seq<Value>): (r: Option<seq<Card>>)
    ensures r.Some? ==> |r.value| == |vs| && forall k :: 0 <= k < |vs| ==> DecodeCard(vs[k]) == Some(r.value[k])
  {
    if vs == [] then Some([])
    else match (DecodeCard(vs[0]), DecodeAll(vs[1..]))
      case (Some(card), Some(rest)) => Some([card] + rest)
      case _ => None
  }

  function DecodeCards(v: Value): Option<seq<Card>> {
    if v.Arr? then DecodeAll(v.items) else None
  }

  function DecodeBatch(v: Value): Option<seq<Card>> {
    match v
    case Obj(ms) => if Occurrences(ms, "cards") == 1 then DecodeCards(Lookup(ms, "cards")) else None
    case Arr(xs) => if |xs| == 1 then DecodeCards(xs[0]) else None
    case _ => None
  }

  predicate HasContent(card: Card) {
    card.content.Some? && Trim(card.content.value) != ""
  }

  function Valid(cards: seq<Card>): seq<Card> {
    if cards == [] then []
    else (if HasContent(cards[0]) then [cards[0]] else []) + Valid(cards[1..])
  }

  // ---------- scanners ----------

  datatype Scan = Scan(depth: int, inString: bool, escape: bool)

  const OUTSIDE := Scan(0, false, false)

  function Step(open: char, close: char, s: Scan, c: char): Scan {
    if s.inString then
      if s.escape then s.(escape := false)
      else if c == '\\' then s.(escape := true)
      else if c == '"' then s.(inString := false)
      else s
    else if c == '"' then s.(inString := true)
    else if c == open then s.(depth := s.depth + 1)
    else if c == close then s.(depth := s.depth - 1)
    else s
  }

  /** The first closing delimiter at or after i that brings the depth to zero. */
  function FindClose(open: char, close: char, t: string, i: nat, s: Scan): (r: Option<nat>)
    requires i <= |t|
    ensures r.Some? ==> i <= r.value < |t|
    decreases |t| - i
  {
    if i == |t| then None
    else
      var n := Step(open, close, s, t[i]);
      if !s.inString && t[i] == close && n.depth == 0 then Some(i)
      else FindClose(open, close, t, i + 1, n)
  }

  /** One turn of the scan, spelled out. */
  lemma FindCloseTurn(open: char, close: char, t: string, i: nat, s: Scan)
    requires i < |t|
    ensures var n := Step(open, close, s, t[i]);
            FindClose(open, close, t, i, s) ==
            if !s.inString && t[i] == close && n.depth == 0 then Some(i) else FindClose(open, close, t, i + 1, n)
  {
    hide Step;
  }

  lemma FindCloseEnd(open: char, close: char, t: string, s: Scan)
    ensures FindClose(open, close, t, |t|, s) == None
  {
  }

  /** The scanner's state after reading from i up to j. */
  function StateAt(open: char, close: char, t: string, i: nat, j: nat): Scan
    requires i <= j <= |t|
    decreases j
  {
    if i == j then OUTSIDE else Step(open, close, StateAt(open, close, t, i, j - 1), t[j - 1])
  }

  predicate Delimiters(open: char, close: char) {
    (open == '{' && close == '}') || (open == '[' && close == ']')
  }

  lemma {:induction false} SpanFrom(open: char, close: char, t: string, i: nat, j: nat)
    requires Delimiters(open, close) && i < j <= |t| && t[i] == open
    requires forall k :: i < k <= j ==> StateAt(open, close, t, i, k).depth > 0
    ensures match FindClose(open, close, t, j, StateAt(open, close, t, i, j))
            case Some(e) =>
              && StateAt(open, close, t, i, e + 1) == OUTSIDE && j <= e < |t| && t[e] == close
              && forall k :: i < k <= e ==> StateAt(open, close, t, i, k).depth > 0
            case None => forall k :: i < k <= |t| ==> StateAt(open, close, t, i, k).depth > 0
    decreases |t| - j
  {
    if j < |t| {
      var s, n := StateAt(open, close, t, i, j), StateAt(open, close, t, i, j + 1);
      NoEscapeOutside(open, close, t, i, j);
      if n.depth > 0 {
        SpanFrom(open, close, t, i, j + 1);
      }
    }
  }

  lemma {:induction false} NoEscapeOutside(open: char, close: char, t: string, i: nat, j: nat)
    requires i <= j <= |t|
    ensures StateAt(open, close, t, i, j).escape ==> StateAt(open, close, t, i, j).inString
    decreases j
  {
    if i < j {
      NoEscapeOutside(open, close, t, i, j - 1);
    }
  }

  /** Every scanner finds the shortest span from its opener at which the depth outside strings is zero, and nothing iff there is none; the depth is positive all the way. */
  lemma SpanIsShortest(open: char, close: char, t: string, i: nat)
    requires Delimiters(open, close) && i < |t| && t[i] == open
    ensures match FindClose(open, close, t, i, OUTSIDE)
            case Some(e) =>
              && i < e < |t| && t[e] == close && StateAt(open, close, t, i, e + 1) == OUTSIDE
              && forall k :: i < k <= e ==> StateAt(open, close, t, i, k).depth > 0
            case None => forall k :: i < k <= |t| ==> StateAt(open, close, t, i, k).depth > 0
  {
    assert StateAt(open, close, t, i, i + 1) == Scan(1, false, false);
    SpanFrom(open, close, t, i, i + 1);
  }

  /** What a scanner finds in a cut text: the same span if the cut is after it, and nothing otherwise. */
  lemma {:induction false} CutScan(open: char, close: char, t: string, k: nat, i: nat, s: Scan)
    requires i <= k <= |t|
    ensures FindClose(open, close, t[..k], i, s) ==
            match FindClose(open, close, t, i, s)
            case Some(e) => if e < k then Some(e) else None
            case None => None
    decreases |t| - i
  {
    if i < k {
      assert t[..k][i] == t[i];
      CutScan(open, close, t, k, i + 1, Step(open, close, s, t[i]));
    }
  }

  /** Moving a text moves what is found in it. */
  lemma {:induction false} ShiftScan(open: char, close: char, p: string, t: string, i: nat, s: Scan)
    requires i <= |t|
    ensures FindClose(open, close, p + t, |p| + i, s) ==
            match FindClose(open, close, t, i, s)
            case Some(e) => Some(|p| + e)
            case None => None
    decreases |t| - i
  {
    if i < |t| {
      assert (p + t)[|p| + i] == t[i];
      ShiftScan(open, close, p, t, i + 1, Step(open, close, s, t[i]));
    }
  }

  // ---------- the scanners as loops ----------

  /** Close index and the index just after it of the span that starts at start. */
  method BalancedObjectSpan(bytes: string, start: nat) returns (span: Option<(nat, nat)>)
    requires start < |bytes| && bytes[start] == '{'
    ensures span == match FindClose('{', '}', bytes, start, OUTSIDE)
                    case Some(e) => Some((e, e + 1))
                    case None => None
  {
    hide FindClose;
    var depth: nat, inString, escape := 0, false, false;
    var i := start;
    while i < |bytes|
      invariant start <= i <= |bytes|
      invariant if i == start then depth == 0 && !inString else depth > 0
      invariant escape ==> inString
      invariant FindClose('{', '}', bytes, start, OUTSIDE) == FindClose('{', '}', bytes, i, Scan(depth, inString, escape))
    {
      FindCloseTurn('{', '}', bytes, i, Scan(depth, inString, escape));
      var c := bytes[i];
      if inString {
        if escape {
          escape := false;
        } else if c == '\\' {
          escape := true;
        } else if c == '"' {
          inString := false;
        }
      } else if c == '"' {
        inString := true;
      } else if c == '{' {
        depth := depth + 1;
      } else if c == '}' {
        depth := depth - 1;
        if depth == 0 {
          return Some((i, i + 1));
        }
      }
      i := i + 1;
    }
    FindCloseEnd('{', '}', bytes, Scan(depth, inString, escape));
    return None;
  }

  /** The span of the first opener, as text. */
  function Extract(open: char, close: char, t: string): Option<string> {
    match Find(t, [open], 0)
    case None => None
    case Some(s) =>
      match FindClose(open, close, t, s, OUTSIDE)
      case None => None
      case Some(e) => Some(t[s..e + 1])
  }

  method ExtractDelimited(raw: string, open: char, close: char) returns (text: Option<string>)
    requires Delimiters(open, close)
    ensures text == Extract(open, close, raw)
  {
    hide Find, FindClose;
    var found := Find(raw, [open], 0);
    if found.None? {
      return None;
    }
    var start := found.value;
    var depth, inString, escape := 0, false, false;
    var i := start;
    while i < |raw|
      invariant start <= i <= |raw|
      invariant FindClose(open, close, raw, start, OUTSIDE) == FindClose(open, close, raw, i, Scan(depth, inString, escape))
    {
      FindCloseTurn(open, close, raw, i, Scan(depth, inString, escape));
      var c := raw[i];
      if inString {
        if escape {
          escape := false;
        } else if c == '\\' {
          escape := true;
        } else if c == '"' {
          inString := false;
        }
      } else if c == '"' {
        inString := true;
      } else if c == open {
        depth := depth + 1;
      } else if c == close {
        depth := depth - 1;
        if depth == 0 {
          return Some(raw[start..i + 1]);
        }
      }
      i := i + 1;
    }
    FindCloseEnd(open, close, raw, Scan(depth, inString, escape));
    return None;
  }

  // ---------- the reader ----------

  function CardOf(text: string): Option<Card> {
    match ReadDocument(text)
    case None => None
    case Some(v) => DecodeCard(v)
  }

  function BatchOf(text: string): Option<seq<Card>> {
    match ReadDocument(text)
    case None => None
    case Some(v) =>
      match DecodeBatch(v)
      case Some(cards) => Some(Valid(cards))
      case None =>
        match DecodeCards(v)
        case Some(cards) => Some(Valid(cards))
        case None => None
  }

  const CARDS_KEY := "\"cards\""

  function ArrayOpen(t: string): (r: Option<nat>)
    ensures r.Some? ==> r.value < |t|
  {
    match Find(t, CARDS_KEY, 0)
    case Some(key) => Find(t, "[", key)
    case None => Find(t, "[", 0)
  }

  /** The card objects the salvage loop collects from the cursor on. */
  function SalvageFrom(t: string, cursor: nat): seq<Card>
    requires cursor <= |t|
    decreases |t| - cursor
  {
    if cursor == |t| then []
    else if t[cursor] != '{' then SalvageFrom(t, cursor + 1)
    else match FindClose('{', '}', t, cursor, OUTSIDE)
      case None => []
      case Some(e) =>
        Harvest(t[cursor..e + 1]) + SalvageFrom(t, e + 1)
  }

  /** One turn of the salvage loop, spelled out. */
  lemma SalvageTurn(t: string, i: nat)
    requires i < |t|
    ensures SalvageFrom(t, i) ==
            if t[i] != '{' then SalvageFrom(t, i + 1)
            else match FindClose('{', '}', t, i, OUTSIDE)
              case None => []
              case Some(e) => Harvest(t[i..e + 1]) + SalvageFrom(t, e + 1)
  {
    hide Harvest, FindClose;
  }

  lemma SalvageEnd(u: string)
    ensures SalvageFrom(u, |u|) == []
  {
  }

  /** A finished object that is not a card is dropped. */
  function Harvest(text: string): seq<Card> {
    match CardOf(text)
    case Some(card) => [card]
    case None => []
  }

  function Salvage(t: string): seq<Card> {
    match ArrayOpen(t)
    case None => []
    case Some(open) => Valid(SalvageFrom(t, open))
  }

  lemma HarvestedTogether(cards: seq<Card>, text: string, rest: seq<Card>)
    ensures cards + (Harvest(text) + rest) == (match CardOf(text) case Some(card) => cards + [card] case None => cards) + rest
  {
    hide CardOf;
  }

  method SalvageTruncatedCardArray(jsonText: string) returns (r: seq<Card>)
    ensures r == Salvage(jsonText)
  {
    hide FindClose, CardOf, Valid, SalvageFrom, ArrayOpen, Harvest;
    var open := ArrayOpen(jsonText);
    if open.None? {
      return [];
    }
    var cards: seq<Card> := [];
    var cursor := open.value;
    ghost var all := SalvageFrom(jsonText, cursor);
    while cursor < |jsonText|
      invariant cursor <= |jsonText|
      invariant cards + SalvageFrom(jsonText, cursor) == all
    {
      SalvageTurn(jsonText, cursor);
      if jsonText[cursor] != '{' {
        cursor := cursor + 1;
        continue;
      }
      var span := BalancedObjectSpan(jsonText, cursor);
      if span.None? {
        assert cards == all;
        break;
      }
      var (close, next) := span.value;
      var card := CardOf(jsonText[cursor..close + 1]);
      HarvestedTogether(cards, jsonText[cursor..close + 1], SalvageFrom(jsonText, next));
      if card.Some? {
        cards := cards + [card.value];
      }
      cursor := next;
    }
    SalvageEnd(jsonText);
    assert cards == all;
    return Valid(cards);
  }

  function StripFences(text: string): Option<string> {
    var trimmed := Trim(text);
    if !StartsWith(trimmed, "```") then None
    else match (Find(trimmed, "\n", 0), FindLast(trimmed, "```"))
      case (Some(newline), Some(end)) => if end <= newline + 1 then None else Some(Trim(trimmed[newline + 1..end]))
      case _ => None
  }

  /** The fallbacks in the order they are tried. */
  function ReadCards(text: string): seq<Card> {
    var objectText, arrayText := Extract('{', '}', text), Extract('[', ']', text);
    if BatchOf(text).Some? then BatchOf(text).value
    else if objectText.Some? && BatchOf(objectText.value).Some? then BatchOf(objectText.value).value
    else if arrayText.Some? && BatchOf(arrayText.value).Some? then BatchOf(arrayText.value).value
    else Salvage(text)
  }

  function JsonText(raw: string): string {
    var cleaned := Trim(raw);
    Trim(match StripFences(cleaned) case Some(inner) => inner case None => cleaned)
  }

  function CardsIn(raw: string): seq<Card> {
    ReadCards(JsonText(raw))
  }

  method ParseCardArray(raw: string) returns (cards: seq<Card>)
    ensures cards == CardsIn(raw)
  {
    var jsonText := JsonText(raw);
    var whole := BatchOf(jsonText);
    if whole.Some? {
      return whole.value;
    }
    var objectText := ExtractDelimited(jsonText, '{', '}');
    if objectText.Some? {
      var batch := BatchOf(objectText.value);
      if batch.Some? {
        return batch.value;
      }
    }
    var arrayText := ExtractDelimited(jsonText, '[', ']');
    if arrayText.Some? {
      var batch := BatchOf(arrayText.value);
      if batch.Some? {
        return batch.value;
      }
    }
    cards := SalvageTruncatedCardArray(jsonText);
  }
}
