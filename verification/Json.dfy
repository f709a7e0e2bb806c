/**
 A reader for JSON documents (RFC 8259), in the strict form the service's JSON
 library accepts: no trailing commas, no control characters inside strings, no
 lone surrogates.
 */
module Json {
  import opened Options
  import opened Decimal

  datatype Value =
    | Null
    | Bool(b: bool)
    | Num(text: string)
    | Str(s: string)
    | Arr(items: seq<Value>)
    | Obj(members: seq<Member>)

  datatype Member = Member(key: string, value: Value)

  /** A value read and the position just after it. */
  datatype At<T> = At(value: T, next: nat)

  predicate Space(c: char) {
    c == ' ' || c == '\n' || c == '\r' || c == '\t'
  }

  function SkipSpace(t: string, i: nat): (r: nat)
    requires i <= |t|
    ensures i <= r <= |t|
    ensures forall k :: i <= k < r ==> Space(t[k])
    ensures r < |t| ==> !Space(t[r])
    decreases |t| - i
  {
    if i < |t| && Space(t[i]) then SkipSpace(t, i + 1) else i
  }

  // ---------- strings ----------

  function Hex(c: char): Option<nat> {
    if '0' <= c <= '9' then Some(c as int - '0' as int)
    else if 'a' <= c <= 'f' then Some(c as int - 'a' as int + 10)
    else if 'A' <= c <= 'F' then Some(c as int - 'A' as int + 10)
    else None
  }

  /** The code unit of four hexadecimal digits. */
  function Hex4(t: string, i: nat): (r: Option<nat>)
    ensures r.Some? ==> i + 4 <= |t| && r.value < 0x10000
  {
    if i + 4 > |t| then None
    else match (Hex(t[i]), Hex(t[i + 1]), Hex(t[i + 2]), Hex(t[i + 3]))
      case (Some(a), Some(b), Some(c), Some(d)) => Some(((a * 16 + b) * 16 + c) * 16 + d)
      case _ => None
  }

  /** The character of an escape whose backslash is at i - 1, and the position after it. */
  function ReadEscape(t: string, i: nat): (r: Option<At<char>>)
    ensures r.Some? ==> i < r.value.next <= |t|
  {
    if i >= |t| then None
    else match t[i]
      case '"' => Some(At('"', i + 1))
      case '\\' => Some(At('\\', i + 1))
      case '/' => Some(At('/', i + 1))
      case 'b' => Some(At(8 as char, i + 1))
      case 'f' => Some(At(12 as char, i + 1))
      case 'n' => Some(At('\n', i + 1))
      case 'r' => Some(At('\r', i + 1))
      case 't' => Some(At('\t', i + 1))
      case 'u' => ReadUnicode(t, i + 1)
      case _ => None
  }

  function ReadUnicode(t: string, i: nat): (r: Option<At<char>>)
    ensures r.Some? ==> i < r.value.next <= |t|
  {
    match Hex4(t, i)
    case None => None
    case Some(hi) =>
      if hi < 0xD800 || 0xE000 <= hi then Some(At(hi as char, i + 4))
      else if 0xDC00 <= hi || i + 6 > |t| || t[i + 4] != '\\' || t[i + 5] != 'u' then None
      else match Hex4(t, i + 6)
        case None => None
        case Some(lo) =>
          if 0xDC00 <= lo < 0xE000
          then Some(At((0x10000 + (hi - 0xD800) * 0x400 + (lo - 0xDC00)) as char, i + 10))
          else None
  }

  /** The rest of a string literal, from i to the closing quote. */
  function ReadString(t: string, i: nat): (r: Option<At<string>>)
    requires i <= |t|
    ensures r.Some? ==> i < r.value.next <= |t|
    decreases |t| - i
  {
    if i == |t| then None
    else if t[i] == '"' then Some(At("", i + 1))
    else if t[i] == '\\' then
      match ReadEscape(t, i + 1)
      case None => None
      case Some(c) => Cons(c.value, ReadString(t, c.next))
    else if t[i] < ' ' then None
    else Cons(t[i], ReadString(t, i + 1))
  }

  function Cons(c: char, rest: Option<At<string>>): Option<At<string>> {
    if rest.Some? then Some(At([c] + rest.value.value, rest.value.next)) else None
  }

  // ---------- numbers ----------

  predicate NumberChar(c: char) {
    Digit(c) || c == '-' || c == '+' || c == '.' || c == 'e' || c == 'E'
  }

  function NumberEnd(t: string, i: nat): (r: nat)
    requires i <= |t|
    ensures i <= r <= |t|
    ensures forall k :: i <= k < r ==> NumberChar(t[k])
    ensures r < |t| ==> !NumberChar(t[r])
    decreases |t| - i
  {
    if i < |t| && NumberChar(t[i]) then NumberEnd(t, i + 1) else i
  }

  function DigitsEnd(t: string, i: nat): (r: nat)
    requires i <= |t|
    ensures i <= r <= |t|
    decreases |t| - i
  {
    if i < |t| && Digit(t[i]) then DigitsEnd(t, i + 1) else i
  }

  /** -? int frac? exp? of RFC 8259, section 6. */
  predicate NumberText(t: string) {
    var s := if t != "" && t[0] == '-' then 1 else 0;
    var i := DigitsEnd(t, s);
    && s < i && (t[s] == '0' ==> i == s + 1)
    && (var f := if i < |t| && t[i] == '.' then DigitsEnd(t, i + 1) else i;
        && (f != i ==> f > i + 1)
        && (f == |t| ||
            (&& (t[f] == 'e' || t[f] == 'E')
             && (var g := if f + 1 < |t| && (t[f + 1] == '+' || t[f + 1] == '-') then f + 2 else f + 1;
                 Digits(t[g..])))))
  }

  // ---------- values ----------

  /** One value after optional space. */
  function ReadValue(t: string, i: nat): (r: Option<At<Value>>)
    requires i <= |t|
    ensures r.Some? ==> i < r.value.next <= |t|
    ensures r.Some? ==> SkipSpace(t, i) < r.value.next
    decreases |t| - i, 2
  {
    var s := SkipSpace(t, i);
    if s == |t| then None
    else if t[s] == '{' then
      var m := SkipSpace(t, s + 1);
      if m < |t| && t[m] == '}' then Some(At(Obj([]), m + 1))
      else match ReadMembers(t, s + 1)
        case None => None
        case Some(ms) => Some(At(Obj(ms.value), ms.next))
    else if t[s] == '[' then
      var m := SkipSpace(t, s + 1);
      if m < |t| && t[m] == ']' then Some(At(Arr([]), m + 1))
      else match ReadItems(t, s + 1)
        case None => None
        case Some(vs) => Some(At(Arr(vs.value), vs.next))
    else if t[s] == '"' then
      match ReadString(t, s + 1)
      case None => None
      case Some(str) => Some(At(Str(str.value), str.next))
    else ReadWord(t, s)
  }

  /** A number or one of the three literal names. */
  function ReadWord(t: string, s: nat): (r: Option<At<Value>>)
    requires s < |t|
    ensures r.Some? ==> s < r.value.next <= |t|
  {
    if s + 4 <= |t| && t[s..s + 4] == "null" then Some(At(Null, s + 4))
    else if s + 4 <= |t| && t[s..s + 4] == "true" then Some(At(Bool(true), s + 4))
    else if s + 5 <= |t| && t[s..s + 5] == "false" then Some(At(Bool(false), s + 5))
    else
      var e := NumberEnd(t, s);
      if e > s && NumberText(t[s..e]) then Some(At(Num(t[s..e]), e)) else None
  }

  /** The items of a non-empty array and its closing bracket. */
  function ReadItems(t: string, i: nat): (r: Option<At<seq<Value>>>)
    requires i <= |t|
    ensures r.Some? ==> i < r.value.next <= |t| && r.value.value != []
    ensures r.Some? ==> SkipSpace(t, i) < r.value.next
    decreases |t| - i, 3
  {
    match ReadValue(t, i)
    case None => None
    case Some(v) =>
      var p := SkipSpace(t, v.next);
      if p == |t| then None
      else if t[p] == ']' then Some(At([v.value], p + 1))
      else if t[p] != ',' then None
      else match ReadItems(t, p + 1)
        case None => None
        case Some(rest) => Some(At([v.value] + rest.value, rest.next))
  }

  /** One key, colon and value. */
  function ReadMember(t: string, i: nat): (r: Option<At<Member>>)
    requires i <= |t|
    ensures r.Some? ==> i < r.value.next <= |t|
    ensures r.Some? ==> SkipSpace(t, i) < r.value.next
    decreases |t| - i, 3
  {
    var s := SkipSpace(t, i);
    if s == |t| || t[s] != '"' then None
    else match ReadString(t, s + 1)
      case None => None
      case Some(key) =>
        var c := SkipSpace(t, key.next);
        if c == |t| || t[c] != ':' then None
        else match ReadValue(t, c + 1)
          case None => None
          case Some(v) => Some(At(Member(key.value, v.value), v.next))
  }

  /** The members of a non-empty object and its closing brace. */
  function ReadMembers(t: string, i: nat): (r: Option<At<seq<Member>>>)
    requires i <= |t|
    ensures r.Some? ==> i < r.value.next <= |t| && r.value.value != []
    ensures r.Some? ==> SkipSpace(t, i) < r.value.next
    decreases |t| - i, 4
  {
    match ReadMember(t, i)
    case None => None
    case Some(m) =>
      var p := SkipSpace(t, m.next);
      if p == |t| then None
      else if t[p] == '}' then Some(At([m.value], p + 1))
      else if t[p] != ',' then None
      else match ReadMembers(t, p + 1)
        case None => None
        case Some(rest) => Some(At([m.value] + rest.value, rest.next))
  }

  /** A whole document: one value and nothing but space around it. */
  function ReadDocument(t: string): Option<Value> {
    match ReadValue(t, 0)
    case None => None
    case Some(v) => if SkipSpace(t, v.next) == |t| then Some(v.value) else None
  }

  // ---------- locality: what is read depends only on the characters read ----------

  /** From i up to j, text u repeats t with every position moved by d. */
  ghost predicate Copied(t: string, i: nat, j: nat, u: string, d: int) {
    && j <= |t| && 0 <= i + d && j + d <= |u|
    && forall x {:trigger t[x]} :: i <= x < j ==> u[x + d] == t[x]
  }

  /** After a number u must not go on with a character of a number. */
  predicate Ends(v: Value, u: string, k: int) {
    v.Num? && 0 <= k < |u| ==> !NumberChar(u[k])
  }

  lemma CopiedPart(t: string, i: nat, j: nat, u: string, d: int, a: nat, b: nat)
    requires Copied(t, i, j, u, d) && i <= a <= b <= j
    ensures Copied(t, a, b, u, d)
  {
  }

  lemma CopiedAt(t: string, i: nat, j: nat, u: string, d: int, x: nat)
    requires Copied(t, i, j, u, d) && i <= x < j
    ensures 0 <= x + d < |u| && x < |t| && u[x + d] == t[x]
  {
  }

  lemma {:induction false} MoveSpace(t: string, i: nat, j: nat, u: string, d: int)
    requires i <= j && Copied(t, i, j, u, d) && SkipSpace(t, i) < j
    ensures SkipSpace(u, i + d) == SkipSpace(t, i) + d
    decreases j - i
  {
    assert u[i + d] == t[i];
    if Space(t[i]) {
      MoveSpace(t, i + 1, j, u, d);
    }
  }

  lemma MoveHex4(t: string, i: nat, j: nat, u: string, d: int)
    requires Copied(t, i, j, u, d) && i + 4 <= j
    ensures Hex4(u, i + d) == Hex4(t, i)
  {
    assert u[i + d] == t[i] && u[i + 1 + d] == t[i + 1] && u[i + 2 + d] == t[i + 2] && u[i + 3 + d] == t[i + 3];
  }

  lemma MoveEscape(t: string, i: nat, j: nat, u: string, d: int)
    requires ReadEscape(t, i).Some? && ReadEscape(t, i).value.next <= j && Copied(t, i, j, u, d)
    ensures ReadEscape(u, i + d) == Some(At(ReadEscape(t, i).value.value, ReadEscape(t, i).value.next + d))
  {
    assert u[i + d] == t[i];
    if t[i] == 'u' {
      MoveHex4(t, i + 1, j, u, d);
      if ReadEscape(t, i).value.next > i + 5 {
        assert u[i + 5 + d] == t[i + 5] && u[i + 6 + d] == t[i + 6];
        MoveHex4(t, i + 7, j, u, d);
      }
    }
  }

  lemma ReadStringTurn(t: string, i: nat)
    requires i < |t|
    ensures ReadString(t, i) ==
            if t[i] == '"' then Some(At("", i + 1))
            else if t[i] == '\\' then
              match ReadEscape(t, i + 1)
              case None => None
              case Some(c) => Cons(c.value, ReadString(t, c.next))
            else if t[i] < ' ' then None
            else Cons(t[i], ReadString(t, i + 1))
  {
    hide ReadEscape, Cons;
  }

  lemma NoStringAtEnd(t: string)
    ensures ReadString(t, |t|) == None
  {
  }

  lemma {:induction false} MoveString(t: string, i: nat, j: nat, u: string, d: int)
    requires i <= |t| && ReadString(t, i).Some? && ReadString(t, i).value.next <= j && Copied(t, i, j, u, d)
    ensures ReadString(u, i + d) == Some(At(ReadString(t, i).value.value, ReadString(t, i).value.next + d))
    decreases |t| - i
  {
    hide ReadString, ReadEscape;
    assert i < |t| by { NoStringAtEnd(t); }
    assert u[i + d] == t[i];
    ReadStringTurn(t, i);
    ReadStringTurn(u, i + d);
    if t[i] == '\\' {
      var c := ReadEscape(t, i + 1).value;
      MoveEscape(t, i + 1, j, u, d);
      MoveString(t, c.next, j, u, d);
    } else if t[i] != '"' {
      MoveString(t, i + 1, j, u, d);
    }
  }

  lemma {:induction false} MoveNumberEnd(t: string, i: nat, j: nat, u: string, d: int)
    requires i <= j && Copied(t, i, j, u, d) && NumberEnd(t, i) == j && (j + d < |u| ==> !NumberChar(u[j + d]))
    ensures NumberEnd(u, i + d) == j + d
    decreases j - i
  {
    if i < j {
      assert u[i + d] == t[i];
      MoveNumberEnd(t, i + 1, j, u, d);
    }
  }

  lemma CopiedSlice(t: string, i: nat, j: nat, u: string, d: int)
    requires i <= j && Copied(t, i, j, u, d)
    ensures u[i + d..j + d] == t[i..j]
  {
    forall x | 0 <= x < j - i
      ensures u[i + d..j + d][x] == t[i..j][x]
    {
      assert u[i + x + d] == t[i + x];
    }
  }

  lemma NumberFirst(p: string)
    requires NumberText(p)
    ensures p != "" && (Digit(p[0]) || p[0] == '-')
  {
  }

  lemma NoName(t: string, s: nat)
    requires s < |t| && (Digit(t[s]) || t[s] == '-')
    ensures ReadWord(t, s) ==
            (var e := NumberEnd(t, s);
             if e > s && NumberText(t[s..e]) then Some(At(Num(t[s..e]), e)) else None)
  {
    hide NumberText, NumberChar;
    assert s + 4 <= |t| ==> t[s..s + 4][0] == t[s];
    assert s + 5 <= |t| ==> t[s..s + 5][0] == t[s];
  }

  lemma MoveNumber(t: string, s: nat, e: nat, u: string, d: int)
    requires s < e <= |t| && NumberEnd(t, s) == e && NumberText(t[s..e])
    requires Copied(t, s, e, u, d) && (e + d < |u| ==> !NumberChar(u[e + d]))
    ensures ReadWord(u, s + d) == Some(At(Num(t[s..e]), e + d))
  {
    hide NumberText, NumberChar, ReadWord;
    CopiedSlice(t, s, e, u, d);
    CopiedAt(t, s, e, u, d, s);
    NumberFirst(t[s..e]);
    NoName(u, s + d);
    MoveNumberEnd(t, s, e, u, d);
  }

  lemma MoveWord(t: string, s: nat, u: string, d: int)
    requires s < |t| && ReadWord(t, s).Some?
    requires Copied(t, s, ReadWord(t, s).value.next, u, d)
    requires Ends(ReadWord(t, s).value.value, u, ReadWord(t, s).value.next + d)
    ensures ReadWord(u, s + d) == Some(At(ReadWord(t, s).value.value, ReadWord(t, s).value.next + d))
  {
    hide NumberText, NumberChar;
    var r := ReadWord(t, s).value;
    CopiedSlice(t, s, r.next, u, d);
    if r.value.Num? {
      MoveNumber(t, s, r.next, u, d);
    } else {
      CopiedAt(t, s, r.next, u, d, s);
      assert u[s + d..s + d + 4][0] == u[s + d] == t[s..r.next][0];
    }
  }

  lemma {:induction false} MoveValue(t: string, i: nat, u: string, d: int)
    requires i <= |t| && ReadValue(t, i).Some?
    requires Copied(t, i, ReadValue(t, i).value.next, u, d)
    requires Ends(ReadValue(t, i).value.value, u, ReadValue(t, i).value.next + d)
    ensures ReadValue(u, i + d) == Some(At(ReadValue(t, i).value.value, ReadValue(t, i).value.next + d))
    decreases |t| - i, 2
  {
    hide ReadItems, ReadMember, ReadMembers, ReadWord, ReadString, SkipSpace, NumberChar, Space, Ends, Copied;
    var r := ReadValue(t, i).value;
    var j := r.next;
    var s := SkipSpace(t, i);
    MoveSpace(t, i, j, u, d);
    CopiedAt(t, i, j, u, d, s);
    CopiedPart(t, i, j, u, d, s + 1, j);
    CopiedPart(t, i, j, u, d, s, j);
    if t[s] == '{' || t[s] == '[' {
      var m := SkipSpace(t, s + 1);
      MoveSpace(t, s + 1, j, u, d);
      CopiedAt(t, i, j, u, d, m);
      if t[s] == '{' && t[m] != '}' {
        MoveMembers(t, s + 1, u, d);
      } else if t[s] == '[' && t[m] != ']' {
        MoveItems(t, s + 1, u, d);
      }
    } else if t[s] == '"' {
      MoveString(t, s + 1, j, u, d);
    } else {
      MoveWord(t, s, u, d);
    }
  }

  /** The separator after a value moves with it, and ends the value. */
  lemma MoveSeparator(t: string, i: nat, j: nat, u: string, d: int, v: Value)
    requires i <= j && Copied(t, i, j, u, d) && SkipSpace(t, i) < j
    requires t[SkipSpace(t, i)] == ',' || t[SkipSpace(t, i)] == ']' || t[SkipSpace(t, i)] == '}'
    ensures SkipSpace(u, i + d) == SkipSpace(t, i) + d && u[SkipSpace(t, i) + d] == t[SkipSpace(t, i)]
    ensures Ends(v, u, i + d)
  {
    MoveSpace(t, i, j, u, d);
    assert u[i + d] == t[i];
    assert i < SkipSpace(t, i) ==> Space(t[i]);
  }

  /** One turn of ReadItems, spelled out. */
  lemma ReadItemsTurn(t: string, i: nat)
    requires i <= |t|
    ensures ReadItems(t, i) ==
            match ReadValue(t, i)
            case None => None
            case Some(v) =>
              var p := SkipSpace(t, v.next);
              if p == |t| then None
              else if t[p] == ']' then Some(At([v.value], p + 1))
              else if t[p] != ',' then None
              else match ReadItems(t, p + 1)
                case None => None
                case Some(rest) => Some(At([v.value] + rest.value, rest.next))
  {
    hide ReadValue, SkipSpace;
  }

  lemma {:induction false} MoveItems(t: string, i: nat, u: string, d: int)
    requires i <= |t| && ReadItems(t, i).Some?
    requires Copied(t, i, ReadItems(t, i).value.next, u, d)
    ensures ReadItems(u, i + d) == Some(At(ReadItems(t, i).value.value, ReadItems(t, i).value.next + d))
    decreases |t| - i, 3
  {
    hide ReadItems, ReadMembers, ReadValue, ReadMember, ReadString, ReadWord, SkipSpace, NumberChar, Space, Ends, Copied;
    ReadItemsTurn(t, i);
    var j := ReadItems(t, i).value.next;
    var v := ReadValue(t, i).value;
    var p := SkipSpace(t, v.next);
    CopiedPart(t, i, j, u, d, i, v.next);
    CopiedPart(t, i, j, u, d, v.next, j);
    MoveSeparator(t, v.next, j, u, d, v.value);
    MoveValue(t, i, u, d);
    ReadItemsTurn(u, i + d);
    if t[p] == ',' {
      CopiedPart(t, i, j, u, d, p + 1, j);
      MoveItems(t, p + 1, u, d);
    }
  }

  lemma {:induction false} MoveMember(t: string, i: nat, u: string, d: int)
    requires i <= |t| && ReadMember(t, i).Some?
    requires Copied(t, i, ReadMember(t, i).value.next, u, d)
    requires Ends(ReadMember(t, i).value.value.value, u, ReadMember(t, i).value.next + d)
    ensures ReadMember(u, i + d) == Some(At(ReadMember(t, i).value.value, ReadMember(t, i).value.next + d))
    decreases |t| - i, 3
  {
    hide ReadValue, ReadItems, ReadMembers, ReadWord, ReadString, SkipSpace, NumberChar, Space, Ends, Copied;
    var j := ReadMember(t, i).value.next;
    var s := SkipSpace(t, i);
    var key := ReadString(t, s + 1).value;
    var c := SkipSpace(t, key.next);
    MoveSpace(t, i, j, u, d);
    CopiedPart(t, i, j, u, d, s + 1, j);
    CopiedPart(t, i, j, u, d, key.next, j);
    CopiedPart(t, i, j, u, d, c + 1, j);
    CopiedAt(t, i, j, u, d, s);
    CopiedAt(t, i, j, u, d, c);
    MoveString(t, s + 1, j, u, d);
    MoveSpace(t, key.next, j, u, d);
    MoveValue(t, c + 1, u, d);
  }

  /** One turn of ReadMembers, spelled out. */
  lemma ReadMembersTurn(t: string, i: nat)
    requires i <= |t|
    ensures ReadMembers(t, i) ==
            match ReadMember(t, i)
            case None => None
            case Some(v) =>
              var p := SkipSpace(t, v.next);
              if p == |t| then None
              else if t[p] == '}' then Some(At([v.value], p + 1))
              else if t[p] != ',' then None
              else match ReadMembers(t, p + 1)
                case None => None
                case Some(rest) => Some(At([v.value] + rest.value, rest.next))
  {
    hide ReadMember, SkipSpace;
  }

  lemma {:induction false} MoveMembers(t: string, i: nat, u: string, d: int)
    requires i <= |t| && ReadMembers(t, i).Some?
    requires Copied(t, i, ReadMembers(t, i).value.next, u, d)
    ensures ReadMembers(u, i + d) == Some(At(ReadMembers(t, i).value.value, ReadMembers(t, i).value.next + d))
    decreases |t| - i, 4
  {
    hide ReadItems, ReadMembers, ReadValue, ReadMember, ReadString, ReadWord, SkipSpace, NumberChar, Space, Ends, Copied;
    ReadMembersTurn(t, i);
    var j := ReadMembers(t, i).value.next;
    var v := ReadMember(t, i).value;
    var p := SkipSpace(t, v.next);
    CopiedPart(t, i, j, u, d, i, v.next);
    CopiedPart(t, i, j, u, d, v.next, j);
    MoveSeparator(t, v.next, j, u, d, v.value.value);
    MoveMember(t, i, u, d);
    ReadMembersTurn(u, i + d);
    if t[p] == ',' {
      CopiedPart(t, i, j, u, d, p + 1, j);
      MoveMembers(t, p + 1, u, d);
    }
  }

  /** No proper prefix of a text that reads as an object or array from its start is itself a document. */
  lemma PrefixIsNoDocument(t: string, k: nat)
    requires k < |t| && ReadValue(t, 0).Some? && ReadValue(t, 0).value.next == |t|
    requires ReadValue(t, 0).value.value.Obj? || ReadValue(t, 0).value.value.Arr?
    requires t[0] == '{' || t[0] == '['
    ensures ReadDocument(t[..k]).None?
  {
    hide ReadItems, ReadMembers, ReadString, ReadWord;
    var u := t[..k];
    if ReadValue(u, 0).Some? {
      assert u[0] == t[0];
      MoveValue(u, 0, t, 0);
    }
  }

  /** The text of a value, cut out of its surroundings, is a document with that value. */
  lemma ValueTextIsDocument(t: string, i: nat)
    requires i < |t| && !Space(t[i]) && ReadValue(t, i).Some?
    ensures ReadDocument(t[i..ReadValue(t, i).value.next]) == Some(ReadValue(t, i).value.value)
  {
    hide ReadValue, SkipSpace, ReadItems, ReadMembers, Space;
    var j := ReadValue(t, i).value.next;
    assert Copied(t, i, j, t[i..j], 0 - i);
    assert Ends(ReadValue(t, i).value.value, t[i..j], j - i);
    MoveValue(t, i, t[i..j], 0 - i);
  }
}
