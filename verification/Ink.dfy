/** What a text says apart from its white space: its non-blank characters, its words, its lines with something on them. */
module Ink {
  import opened Text

  const WHITE_SPACE: string :=
    "\t\n\U{000B}\U{000C}\r \U{0085}\U{00A0}\U{1680}\U{2000}\U{2001}\U{2002}\U{2003}\U{2004}\U{2005}\U{2006}\U{2007}\U{2008}\U{2009}\U{200A}\U{2028}\U{2029}\U{202F}\U{205F}\U{3000}"

  /** The blanks are the characters of the Unicode property White_Space. */
  lemma SpacesAre(c: char)
    ensures IsSpace(c) <==> c in WHITE_SPACE
  {
  }

  ghost predicate HasInk(t: string) {
    exists k :: 0 <= k < |t| && !IsSpace(t[k])
  }

  /** The non-blank characters in order. */
  function InkOf(t: string): string {
    if t == "" then "" else (if IsSpace(t[0]) then "" else [t[0]]) + InkOf(t[1..])
  }

  lemma {:induction false} InkTogether(a: string, b: string)
    ensures InkOf(a + b) == InkOf(a) + InkOf(b)
    decreases |a|
  {
    hide IsSpace;
    if a == "" {
      assert a + b == b;
    } else {
      assert (a + b)[1..] == a[1..] + b;
      InkTogether(a[1..], b);
    }
  }

  lemma {:induction false} NoInk(t: string)
    ensures InkOf(t) == "" <==> Blank(t)
    ensures HasInk(t) <==> !Blank(t)
  {
    hide IsSpace;
    if t != "" {
      NoInk(t[1..]);
      assert forall c :: c in t <==> c == t[0] || c in t[1..];
      if !Blank(t) {
        var c :| c in t && !IsSpace(c);
        var k :| 0 <= k < |t| && t[k] == c;
      }
    }
  }

  lemma BlankTrims(t: string)
    ensures Trim(t) == "" <==> Blank(t)
  {
    hide Trim, TrimStart, TrimEnd, IsSpace, Blank;
    if Blank(t) {
      TrimBlank(t);
    }
    if Trim(t) == "" {
      TrimSplits(t);
    }
  }

  /** A text is its trim between blanks. */
  lemma TrimSplits(t: string)
    ensures exists a, z :: Blank(a) && Blank(z) && t == a + Trim(t) + z
    ensures Trim(t) == "" ==> Blank(t)
  {
    hide TrimStart, TrimEnd, IsSpace, Blank;
    TrimStartHolds(t);
    var s := TrimStart(t);
    TrimEndHolds(s);
    var m := TrimEnd(s);
    var a, z := t[..|t| - |s|], s[|m|..];
    assert t == a + m + z;
    if m == "" {
      assert t == a + z;
      BlankTogether(a, z);
    }
  }

  lemma InkOfTrim(t: string)
    ensures InkOf(Trim(t)) == InkOf(t)
  {
    hide Trim, InkOf;
    TrimSplits(t);
    var a, z :| Blank(a) && Blank(z) && t == a + Trim(t) + z;
    InkTogether(a + Trim(t), z);
    InkTogether(a, Trim(t));
    NoInk(a);
    NoInk(z);
  }

  // ---------- words ----------

  predicate IsWord(w: string) {
    w != "" && forall k :: 0 <= k < |w| ==> !IsSpace(w[k])
  }

  /** A line consists of the words in order, with blanks before, between and after them. */
  ghost predicate Spells(l: string, ws: seq<string>)
    decreases |ws|
  {
    if ws == [] then Blank(l)
    else exists b, rest :: Blank(b) && l == b + ws[0] + rest && IsWord(ws[0]) && (rest == "" || IsSpace(rest[0])) && Spells(rest, ws[1..])
  }

  /** The words with a single space between them. */
  ghost predicate Spaced(r: string, ws: seq<string>)
    decreases |ws|
  {
    if ws == [] then r == ""
    else if |ws| == 1 then r == ws[0]
    else exists rest :: r == ws[0] + " " + rest && Spaced(rest, ws[1..])
  }

  // ---------- letters ----------

  const CAPITALS: string := "ABCDEFGHIJKLMNOPQRSTUVWXYZ"
  const SMALL: string := "abcdefghijklmnopqrstuvwxyz"

  /** Lowering a text turns the capitals of the alphabet into small letters and leaves all else. */
  lemma LowersAre(c: char)
    ensures (forall k :: 0 <= k < 26 && CAPITALS[k] == c ==> LowerChar(c) == SMALL[k]) && (c !in CAPITALS ==> LowerChar(c) == c)
  {
    assert CAPITALS[..26] == CAPITALS;
    if 'A' <= c <= 'Z' {
      assert CAPITALS[c as int - 'A' as int] == c;
    }
    assert forall k :: 0 <= k < 26 ==> CAPITALS[k] as int == 65 + k;
    assert forall k :: 0 <= k < 26 ==> SMALL[k] as int == 97 + k;
  }
}
