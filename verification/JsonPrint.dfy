/** A compact printer of JSON values and its round trip through the reader. */
module JsonPrint {
  import opened Options
  import opened Decimal
  import opened Json
  import opened Sequences

  function HexDigit(n: nat): char
    requires n < 16
  {
    if n < 10 then ('0' as int + n) as char else ('a' as int + n - 10) as char
  }

  /** RFC 8259, section 7: quotation mark, reverse solidus and control characters are escaped. */
  function EscapedChar(c: char): string {
    if c == '"' then ['\\', '"']
    else if c == '\\' then ['\\', '\\']
    else if c < ' ' then ['\\', 'u', '0', '0', HexDigit(c as int / 16), HexDigit(c as int % 16)]
    else [c]
  }

  function Escaped(s: string): string {
    if s == "" then "" else EscapedChar(s[0]) + Escaped(s[1..])
  }

  function Quoted(s: string): string {
    "\"" + Escaped(s) + "\""
  }

  function Print(v: Value): string
    decreases v, 1
  {
    match v
    case Null => "null"
    case Bool(b) => if b then "true" else "false"
    case Num(text) => text
    case Str(s) => Quoted(s)
    case Arr(items) => "[" + PrintItems(items) + "]"
    case Obj(members) => "{" + PrintMembers(members) + "}"
  }

  function PrintItems(vs: seq<Value>): string
    decreases vs, 0
  {
    if vs == [] then "" else if |vs| == 1 then Print(vs[0]) else Print(vs[0]) + "," + PrintItems(vs[1..])
  }

  function PrintMember(m: Member): string
    decreases m, 2
  {
    Quoted(m.key) + ":" + Print(m.value)
  }

  function PrintMembers(ms: seq<Member>): string
    decreases ms, 0
  {
    if ms == [] then "" else if |ms| == 1 then PrintMember(ms[0]) else PrintMember(ms[0]) + "," + PrintMembers(ms[1..])
  }

  /** Every number in the value is spelled as a number. */
  predicate Printable(v: Value)
    decreases v
  {
    match v
    case Num(text) => NumberText(text) && text != "" && forall c :: c in text ==> NumberChar(c)
    case Arr(items) => forall x :: x in items ==> Printable(x)
    case Obj(members) => forall m :: m in members ==> Printable(m.value)
    case _ => true
  }

  /** A text without quotes, backslashes and control characters is printed as it is. */
  lemma {:induction false} EscapedPlain(s: string)
    requires forall k :: 0 <= k < |s| ==> s[k] != '"' && s[k] != '\\' && s[k] >= ' '
    ensures Escaped(s) == s && Quoted(s) == "\"" + s + "\""
  {
    if s != "" {
      EscapedPlain(s[1..]);
      assert [s[0]] + s[1..] == s;
    }
  }

  lemma HexReads(n: nat)
    requires n < 16
    ensures Hex(HexDigit(n)) == Some(n)
  {
  }

  lemma ReadsEscapedChar(c: char, t: string, i: nat)
    requires Stands(EscapedChar(c), t, i)
    ensures ReadString(t, i) == Cons(c, ReadString(t, i + |EscapedChar(c)|))
  {
    var p := EscapedChar(c);
    StandsAt(p, t, i, 0);
    if p[0] == '\\' {
      StandsAt(p, t, i, 1);
      if p[1] == 'u' {
        var n := c as int;
        StandsAt(p, t, i, 2);
        StandsAt(p, t, i, 3);
        StandsAt(p, t, i, 4);
        StandsAt(p, t, i, 5);
        HexReads(n / 16);
        HexReads(n % 16);
        assert Hex4(t, i + 2) == Some(n);
        assert ReadEscape(t, i + 1) == Some(At(c, i + 6));
      }
    }
  }

  lemma ReadsEnd(t: string, i: nat)
    requires Stands("\"", t, i)
    ensures ReadString(t, i) == Some(At("", i + 1))
  {
    StandsAt("\"", t, i, 0);
  }

  /** A printed string literal reads back as the string. */
  lemma {:induction false} ReadsString(s: string, t: string, i: nat)
    requires Stands(Escaped(s) + "\"", t, i)
    ensures ReadString(t, i) == Some(At(s, i + |Escaped(s)| + 1))
  {
    hide ReadString, EscapedChar, Stands, ReadEscape;
    if s == "" {
      assert Escaped(s) + "\"" == "\"";
      ReadsEnd(t, i);
    } else {
      var a, b := EscapedChar(s[0]), Escaped(s[1..]) + "\"";
      assert Escaped(s) + "\"" == a + b;
      StandsParts(a, b, t, i);
      ReadsEscapedChar(s[0], t, i);
      ReadsString(s[1..], t, i + |a|);
      assert |Escaped(s)| == |a| + |Escaped(s[1..])|;
      assert [s[0]] + s[1..] == s;
    }
  }

  lemma ReadsQuoted(s: string, t: string, i: nat)
    requires Stands(Quoted(s), t, i)
    ensures i < |t| && t[i] == '"' && ReadString(t, i + 1) == Some(At(s, i + |Quoted(s)|))
  {
    hide ReadString, Escaped, Stands;
    assert Quoted(s) == "\"" + (Escaped(s) + "\"");
    StandsParts("\"", Escaped(s) + "\"", t, i);
    StandsAt("\"", t, i, 0);
    ReadsString(s, t, i + 1);
  }

  lemma NoSpace(t: string, i: nat)
    requires i < |t| && !Space(t[i])
    ensures SkipSpace(t, i) == i
  {
  }

  lemma {:induction false} NumberEndIs(t: string, i: nat, j: nat)
    requires i <= j <= |t| && (forall x :: i <= x < j ==> NumberChar(t[x])) && (j < |t| ==> !NumberChar(t[j]))
    ensures NumberEnd(t, i) == j
    decreases j - i
  {
    if i < j {
      NumberEndIs(t, i + 1, j);
    }
  }

  lemma ReadsWord(v: Value, t: string, i: nat)
    requires v.Null? || v.Bool? || v.Num?
    requires Printable(v) && Stands(Print(v), t, i) && Ends(v, t, i + |Print(v)|)
    ensures i < |t| && !Space(t[i]) && t[i] != '{' && t[i] != '[' && t[i] != '"'
    ensures ReadWord(t, i) == Some(At(v, i + |Print(v)|))
  {
    hide NumberText, NumberChar, NumberEnd;
    var p := Print(v);
    StandsAt(p, t, i, 0);
    if v.Num? {
      ReadsNumber(p, t, i);
    } else if v == Bool(false) {
      assert t[i..i + 4][0] == 'f';
    } else if v == Bool(true) {
      assert t[i..i + 4][0] == 't';
    }
  }

  lemma ReadsNumber(p: string, t: string, i: nat)
    requires NumberText(p) && (forall c :: c in p ==> NumberChar(c)) && Stands(p, t, i)
    requires i + |p| < |t| ==> !NumberChar(t[i + |p|])
    ensures p != "" && i < |t| && (Digit(t[i]) || t[i] == '-')
    ensures ReadWord(t, i) == Some(At(Num(p), i + |p|))
  {
    hide NumberText, NumberChar, NumberEnd, ReadWord;
    NumberFirst(p);
    StandsAt(p, t, i, 0);
    forall x | i <= x < i + |p|
      ensures NumberChar(t[x])
    {
      StandsAt(p, t, i, x - i);
      assert p[x - i] in p;
    }
    NumberEndIs(t, i, i + |p|);
    NoName(t, i);
  }

  /** A printed value reads back as itself, wherever it stands. */
  lemma {:induction false} ReadsValue(v: Value, t: string, i: nat)
    requires Printable(v) && Stands(Print(v), t, i) && Ends(v, t, i + |Print(v)|)
    ensures Print(v) != "" && !Space(t[i]) && ReadValue(t, i) == Some(At(v, i + |Print(v)|))
    ensures t[i] != ']'
    decreases v, 1
  {
    hide ReadString, ReadItems, ReadMembers, ReadWord, SkipSpace, Stands, NumberText, Escaped;
    match v
    case Str(s) =>
      ReadsQuoted(s, t, i);
      NoSpace(t, i);
    case Arr(items) =>
      ReadsArray(items, t, i);
    case Obj(members) =>
      ReadsObject(members, t, i);
    case _ =>
      ReadsWord(v, t, i);
      WordIsNoBracket(v, t, i);
      NoSpace(t, i);
  }

  lemma WordIsNoBracket(v: Value, t: string, i: nat)
    requires v.Null? || v.Bool? || v.Num?
    requires Printable(v) && Stands(Print(v), t, i)
    ensures Print(v) != "" && t[i] != ']'
  {
    StandsAt(Print(v), t, i, 0);
    assert Print(v)[0] in Print(v);
  }

  lemma {:induction false} ReadsArray(items: seq<Value>, t: string, i: nat)
    requires Printable(Arr(items)) && Stands(Print(Arr(items)), t, i)
    ensures t[i] == '[' && ReadValue(t, i) == Some(At(Arr(items), i + |Print(Arr(items))|))
    decreases items, 2
  {
    hide ReadString, ReadItems, ReadMembers, ReadWord, SkipSpace, Stands, Printable;
    var body := PrintItems(items);
    assert Print(Arr(items)) == "[" + (body + "]");
    StandsParts("[", body + "]", t, i);
    StandsAt("[", t, i, 0);
    StandsAt(body + "]", t, i + 1, 0);
    NoSpace(t, i);
    if items == [] {
      NoSpace(t, i + 1);
    } else {
      assert forall x :: x in items ==> Printable(x) by { PrintableItems(items); }
      ReadsItems(items, t, i + 1);
      NoSpace(t, i + 1);
    }
  }

  lemma PrintableItems(items: seq<Value>)
    requires Printable(Arr(items))
    ensures forall x :: x in items ==> Printable(x)
  {
  }

  lemma PrintableMembers(members: seq<Member>)
    requires Printable(Obj(members))
    ensures forall m :: m in members ==> Printable(m.value)
  {
  }

  /** Where the first item, its separator and the other items stand. */
  lemma ItemsText(items: seq<Value>, t: string, i: nat)
    requires items != [] && Stands(PrintItems(items) + "]", t, i)
    ensures var e := i + |Print(items[0])|;
            && Stands(Print(items[0]), t, i) && e < |t| && t[e] == (if |items| == 1 then ']' else ',')
            && if |items| == 1 then PrintItems(items) == Print(items[0])
               else Stands(PrintItems(items[1..]) + "]", t, e + 1) && i + |PrintItems(items)| == e + 1 + |PrintItems(items[1..])|
  {
    hide Print, Stands;
    var p := Print(items[0]);
    var rest := if |items| == 1 then "]" else "," + (PrintItems(items[1..]) + "]");
    assert PrintItems(items) + "]" == p + rest;
    StandsParts(p, rest, t, i);
    StandsAt(rest, t, i + |p|, 0);
    if |items| > 1 {
      StandsParts(",", PrintItems(items[1..]) + "]", t, i + |p|);
    }
  }

  lemma {:induction false} ReadsItems(items: seq<Value>, t: string, i: nat)
    requires items != [] && (forall x :: x in items ==> Printable(x)) && Stands(PrintItems(items) + "]", t, i)
    ensures i < |t| && !Space(t[i]) && t[i] != ']'
    ensures ReadItems(t, i) == Some(At(items, i + |PrintItems(items)| + 1))
    decreases items, 1
  {
    hide ReadItems, ReadValue, SkipSpace, Printable, Print, PrintItems, Stands;
    var v, e := items[0], i + |Print(items[0])|;
    ItemsText(items, t, i);
    assert v in items;
    ReadsValue(v, t, i);
    NoSpace(t, e);
    ReadItemsTurn(t, i);
    if |items| > 1 {
      ReadsItems(items[1..], t, e + 1);
      assert items == [v] + items[1..];
    } else {
      assert items == [v];
    }
  }

  lemma {:induction false} ReadsObject(members: seq<Member>, t: string, i: nat)
    requires Printable(Obj(members)) && Stands(Print(Obj(members)), t, i)
    ensures t[i] == '{' && ReadValue(t, i) == Some(At(Obj(members), i + |Print(Obj(members))|))
    decreases members, 2
  {
    hide ReadString, ReadItems, ReadMembers, ReadWord, SkipSpace, Stands, Printable;
    var body := PrintMembers(members);
    assert Print(Obj(members)) == "{" + (body + "}");
    StandsParts("{", body + "}", t, i);
    StandsAt("{", t, i, 0);
    StandsAt(body + "}", t, i + 1, 0);
    NoSpace(t, i);
    if members == [] {
      NoSpace(t, i + 1);
    } else {
      PrintableMembers(members);
      ReadsMembers(members, t, i + 1);
      NoSpace(t, i + 1);
    }
  }

  lemma {:induction false} ReadsMember(m: Member, t: string, i: nat)
    requires Printable(m.value) && Stands(PrintMember(m), t, i) && Ends(m.value, t, i + |PrintMember(m)|)
    ensures i < |t| && t[i] == '"' && ReadMember(t, i) == Some(At(m, i + |PrintMember(m)|))
    decreases m, 2
  {
    hide ReadValue, ReadString, SkipSpace, Printable, Print, Quoted, Stands;
    var q, p := Quoted(m.key), Print(m.value);
    assert PrintMember(m) == q + (":" + p);
    StandsParts(q, ":" + p, t, i);
    StandsParts(":", p, t, i + |q|);
    StandsAt(":", t, i + |q|, 0);
    ReadsQuoted(m.key, t, i);
    NoSpace(t, i);
    NoSpace(t, i + |q|);
    ReadsValue(m.value, t, i + |q| + 1);
  }

  lemma MembersText(members: seq<Member>, t: string, i: nat)
    requires members != [] && Stands(PrintMembers(members) + "}", t, i)
    ensures var e := i + |PrintMember(members[0])|;
            && Stands(PrintMember(members[0]), t, i) && e < |t| && t[e] == (if |members| == 1 then '}' else ',')
            && if |members| == 1 then PrintMembers(members) == PrintMember(members[0])
               else Stands(PrintMembers(members[1..]) + "}", t, e + 1)
                    && i + |PrintMembers(members)| == e + 1 + |PrintMembers(members[1..])|
  {
    hide PrintMember, Stands;
    var p := PrintMember(members[0]);
    var rest := if |members| == 1 then "}" else "," + (PrintMembers(members[1..]) + "}");
    assert PrintMembers(members) + "}" == p + rest;
    StandsParts(p, rest, t, i);
    StandsAt(rest, t, i + |p|, 0);
    if |members| > 1 {
      StandsParts(",", PrintMembers(members[1..]) + "}", t, i + |p|);
    }
  }

  lemma {:induction false} ReadsMembers(members: seq<Member>, t: string, i: nat)
    requires members != [] && (forall m :: m in members ==> Printable(m.value)) && Stands(PrintMembers(members) + "}", t, i)
    ensures i < |t| && t[i] == '"'
    ensures ReadMembers(t, i) == Some(At(members, i + |PrintMembers(members)| + 1))
    decreases members, 1
  {
    hide ReadMembers, ReadMember, SkipSpace, Printable, PrintMember, PrintMembers, Stands;
    var m, e := members[0], i + |PrintMember(members[0])|;
    MembersText(members, t, i);
    assert m in members;
    ReadsMember(m, t, i);
    NoSpace(t, e);
    ReadMembersTurn(t, i);
    if |members| > 1 {
      ReadsMembers(members[1..], t, e + 1);
      assert members == [m] + members[1..];
    } else {
      assert members == [m];
    }
  }

  /** Printing and reading a document is the identity on every printable value. */
  lemma PrintedDocumentReadsBack(v: Value)
    requires Printable(v)
    ensures ReadDocument(Print(v)) == Some(v)
  {
    hide ReadValue, SkipSpace, Printable, Print;
    assert Print(v)[0..|Print(v)|] == Print(v);
    ReadsValue(v, Print(v), 0);
  }
}
