/** The letters, digits and numbers of JSON as RFC 8259 lists them, next to the reader's own. */
module JsonTables {
  import opened Options
  import opened Decimal
  import opened Json
  import opened JsonPrint

  // ---------- escapes ----------

  const HEX_DIGITS: string := "0123456789abcdef"
  const CAPITAL_DIGITS: string := "0123456789ABCDEF"

  /** A hexadecimal digit counts as its place in the list of digits, in small letters or capitals. */
  lemma HexIs(c: char)
    ensures Hex(c).Some? <==> c in HEX_DIGITS || c in CAPITAL_DIGITS
    ensures forall k :: 0 <= k < 16 && (HEX_DIGITS[k] == c || CAPITAL_DIGITS[k] == c) ==> Hex(c) == Some(k)
  {
    assert forall k :: 0 <= k < 10 ==> HEX_DIGITS[k] as int == 48 + k == CAPITAL_DIGITS[k] as int;
    assert forall k :: 10 <= k < 16 ==> HEX_DIGITS[k] as int == 87 + k && CAPITAL_DIGITS[k] as int == 55 + k;
    match Hex(c)
    case Some(k) => assert HEX_DIGITS[k] == c || CAPITAL_DIGITS[k] == c;
    case None =>
  }

  /** The letters that may follow a backslash, and what they stand for (section 7). */
  const ESCAPES: string := "\"\\/bfnrt"
  const ESCAPED: string := "\"\\/\U{0008}\U{000C}\n\r\t"

  lemma EscapesAre(t: string, i: nat)
    requires i < |t|
    ensures forall k :: 0 <= k < 8 && t[i] == ESCAPES[k] ==> ReadEscape(t, i) == Some(At(ESCAPED[k], i + 1))
    ensures t[i] !in ESCAPES && t[i] != 'u' ==> ReadEscape(t, i) == None
  {
    assert ESCAPES[0] == '"' && ESCAPES[1] == '\\' && ESCAPES[2] == '/' && ESCAPES[3] == 'b';
    assert ESCAPES[4] == 'f' && ESCAPES[5] == 'n' && ESCAPES[6] == 'r' && ESCAPES[7] == 't';
  }

  /** Four hexadecimal digits at a place. */
  predicate Unit(t: string, i: nat, n: nat) {
    && i + 4 <= |t| && n < 0x10000
    && Hex(t[i]) == Some(n / 0x1000) && Hex(t[i + 1]) == Some(n / 0x100 % 0x10)
    && Hex(t[i + 2]) == Some(n / 0x10 % 0x10) && Hex(t[i + 3]) == Some(n % 0x10)
  }

  lemma UnitReads(t: string, i: nat, n: nat)
    requires Unit(t, i, n)
    ensures Hex4(t, i) == Some(n) && n < 0x10000
  {
    hide Hex;
    InHex(n);
  }

  lemma InHex(n: nat)
    ensures n == ((n / 0x1000 * 16 + n / 0x100 % 0x10) * 16 + n / 0x10 % 0x10) * 16 + n % 0x10
  {
    assert n / 0x100 == n / 0x10 / 16 && n / 0x1000 == n / 0x100 / 16;
  }

  predicate HighSurrogate(n: nat) {
    0xD800 <= n <= 0xDBFF
  }

  predicate LowSurrogate(n: nat) {
    0xDC00 <= n <= 0xDFFF
  }

  /** An escaped code unit that is no surrogate stands for its character; a surrogate stands for nothing unless it is a high one with another escape after it. */
  lemma UnitsAre(t: string, i: nat, n: nat)
    requires i < |t| && t[i] == 'u' && Unit(t, i + 1, n)
    ensures !HighSurrogate(n) && !LowSurrogate(n) ==> ReadEscape(t, i) == Some(At(n as char, i + 5))
    ensures LowSurrogate(n) ==> ReadEscape(t, i) == None
    ensures HighSurrogate(n) && !(i + 7 <= |t| && t[i + 5..i + 7] == "\\u") ==> ReadEscape(t, i) == None
  {
    hide Unit, Hex4;
    UnitReads(t, i + 1, n);
    if i + 7 <= |t| {
      assert t[i + 5..i + 7] == [t[i + 5], t[i + 6]];
    }
  }

  /** A high surrogate and a low one together stand for one character, and a high one before anything else for nothing. */
  lemma PairsAre(t: string, i: nat, n: nat, m: nat)
    requires i + 7 <= |t| && t[i] == 'u' && Unit(t, i + 1, n) && HighSurrogate(n)
    requires t[i + 5..i + 7] == "\\u" && Unit(t, i + 7, m)
    ensures ReadEscape(t, i) == if LowSurrogate(m) then Some(At((0x10000 + 0x400 * (n % 0x400) + m % 0x400) as char, i + 11)) else None
  {
    hide Unit, Hex4;
    UnitReads(t, i + 1, n);
    UnitReads(t, i + 7, m);
    assert t[i + 5..i + 7] == [t[i + 5], t[i + 6]];
  }

  // ---------- the grammar of numbers ----------

  predicate AllDigits(t: string) {
    forall k :: 0 <= k < |t| ==> Digit(t[k])
  }

  /** An integer part without leading zeros. */
  predicate IntegerPart(t: string) {
    Digits(t) && (t[0] == '0' ==> t == "0")
  }

  predicate FractionPart(t: string) {
    t == "" || (t[0] == '.' && Digits(t[1..]))
  }

  predicate ExponentPart(t: string) {
    || t == ""
    || ((t[0] == 'e' || t[0] == 'E')
        && (Digits(t[1..]) || (|t| > 1 && (t[1] == '+' || t[1] == '-') && Digits(t[2..]))))
  }

  ghost predicate Numeric(t: string, sign: string, whole: string, fraction: string, exponent: string) {
    && t == sign + whole + fraction + exponent
    && (sign == "" || sign == "-") && IntegerPart(whole) && FractionPart(fraction) && ExponentPart(exponent)
  }

  lemma {:induction false} DigitsEndIs(t: string, i: nat)
    requires i <= |t|
    ensures AllDigits(t[i..DigitsEnd(t, i)]) && (DigitsEnd(t, i) < |t| ==> !Digit(t[DigitsEnd(t, i)]))
    decreases |t| - i
  {
    if i < |t| && Digit(t[i]) {
      DigitsEndIs(t, i + 1);
      var e := DigitsEnd(t, i);
      assert t[i..e] == [t[i]] + t[i + 1..e];
    }
  }

  lemma {:induction false} DigitsEndUnique(t: string, i: nat, e: nat)
    requires i <= e <= |t| && AllDigits(t[i..e]) && (e < |t| ==> !Digit(t[e]))
    ensures DigitsEnd(t, i) == e
    decreases e - i
  {
    if i < e {
      assert t[i..e][0] == t[i];
      assert t[i + 1..e] == t[i..e][1..];
      DigitsEndUnique(t, i + 1, e);
    }
  }

  /** The number texts are those of the grammar of section 6: an optional minus, an integer part, and maybe a fraction and an exponent. */
  lemma NumbersAre(t: string)
    ensures NumberText(t) <==> exists sign, whole, fraction, exponent :: Numeric(t, sign, whole, fraction, exponent)
  {
    if NumberText(t) {
      NumberSplits(t);
    }
    if sign, whole, fraction, exponent :| Numeric(t, sign, whole, fraction, exponent) {
      NumberFits(t, sign, whole, fraction, exponent);
    }
  }

  lemma ExponentAt(t: string, f: nat)
    requires f < |t|
    ensures ExponentPart(t[f..]) <==>
            && (t[f] == 'e' || t[f] == 'E')
            && (var g := if f + 1 < |t| && (t[f + 1] == '+' || t[f + 1] == '-') then f + 2 else f + 1;
                Digits(t[g..]))
  {
    hide Digits;
    var e := t[f..];
    assert e[0] == t[f] && e[1..] == t[f + 1..];
    if f + 1 < |t| && (t[f + 1] == '+' || t[f + 1] == '-') {
      assert e[1] == t[f + 1] && e[2..] == t[f + 2..];
      SignIsNoDigit(t[f + 1..]);
    }
  }

  lemma SignIsNoDigit(t: string)
    requires t != "" && (t[0] == '+' || t[0] == '-')
    ensures !Digits(t)
  {
  }

  /** The end of the fraction that may start at i. */
  function FractionEnd(t: string, i: nat): (r: nat)
    requires i <= |t|
    ensures i <= r <= |t|
  {
    if i < |t| && t[i] == '.' then DigitsEnd(t, i + 1) else i
  }

  lemma FractionEndIs(t: string, i: nat)
    requires i <= |t| && (FractionEnd(t, i) != i ==> FractionEnd(t, i) > i + 1)
    ensures FractionPart(t[i..FractionEnd(t, i)])
  {
    var f := FractionEnd(t, i);
    if f != i {
      DigitsEndIs(t, i + 1);
      assert t[i..f][1..] == t[i + 1..f];
    }
  }

  lemma FractionEndUnique(t: string, i: nat, f: nat)
    requires i <= f <= |t| && FractionPart(t[i..f]) && (f < |t| ==> !Digit(t[f]) && t[f] != '.')
    ensures FractionEnd(t, i) == f && (f != i ==> f > i + 1)
  {
    if f > i {
      assert t[i..f][0] == t[i] && t[i + 1..f] == t[i..f][1..];
      DigitsEndUnique(t, i + 1, f);
    }
  }

  lemma NumberTextIs(t: string)
    ensures NumberText(t) <==>
            var s := if t != "" && t[0] == '-' then 1 else 0;
            var i := DigitsEnd(t, s);
            var f := FractionEnd(t, i);
            && s < i && (t[s] == '0' ==> i == s + 1) && (f != i ==> f > i + 1) && ExponentPart(t[f..])
  {
    hide Digits, ExponentPart, DigitsEnd;
    var s := if t != "" && t[0] == '-' then 1 else 0;
    var i := DigitsEnd(t, s);
    var f := FractionEnd(t, i);
    if f < |t| {
      ExponentAt(t, f);
    } else {
      NoExponent();
      assert t[f..] == "";
    }
  }

  lemma NoExponent()
    ensures ExponentPart("")
  {
  }

  lemma WholeIs(t: string, s: nat, i: nat)
    requires s < i <= |t| && AllDigits(t[s..i]) && (t[s] == '0' ==> i == s + 1)
    ensures IntegerPart(t[s..i])
  {
    var whole := t[s..i];
    assert whole[0] == t[s];
    assert i == s + 1 ==> whole == [t[s]];
  }

  lemma NumberSplits(t: string)
    requires NumberText(t)
    ensures exists sign, whole, fraction, exponent :: Numeric(t, sign, whole, fraction, exponent)
  {
    hide DigitsEnd, NumberText, ExponentPart, FractionPart, FractionEnd, IntegerPart;
    NumberTextIs(t);
    var s := if t != "" && t[0] == '-' then 1 else 0;
    var i := DigitsEnd(t, s);
    DigitsEndIs(t, s);
    FractionEndIs(t, i);
    var f := FractionEnd(t, i);
    var sign, whole, fraction, exponent := t[..s], t[s..i], t[i..f], t[f..];
    assert t == sign + whole + fraction + exponent;
    WholeIs(t, s, i);
    assert Numeric(t, sign, whole, fraction, exponent);
  }

  lemma ExponentFirst(e: string)
    requires ExponentPart(e) && e != ""
    ensures !Digit(e[0]) && e[0] != '.'
  {
  }

  lemma FractionFirst(e: string)
    requires FractionPart(e) && e != ""
    ensures !Digit(e[0])
  {
  }

  lemma NumberFits(t: string, sign: string, whole: string, fraction: string, exponent: string)
    requires Numeric(t, sign, whole, fraction, exponent)
    ensures NumberText(t)
  {
    hide DigitsEnd, NumberText, ExponentPart, FractionPart, FractionEnd;
    NumberTextIs(t);
    var s := |sign|;
    var i := s + |whole|;
    var f := i + |fraction|;
    assert t[s..i] == whole && t[i..f] == fraction && t[f..] == exponent;
    assert t[s] == whole[0] && Digit(t[s]);
    assert s == 1 ==> t[0] == '-';
    if f < |t| {
      assert t[f] == exponent[0];
      ExponentFirst(exponent);
    }
    if fraction != "" {
      assert t[i] == fraction[0];
      FractionFirst(fraction);
    }
    DigitsEndUnique(t, s, i);
    FractionEndUnique(t, i, f);
  }

  const NUMBER_CHARS: string := "0123456789-+.eE"

  predicate Numerical(t: string) {
    forall k :: 0 <= k < |t| ==> NumberChar(t[k])
  }

  lemma NumberCharIs(c: char)
    ensures NumberChar(c) <==> c in NUMBER_CHARS
  {
  }

  lemma PartsAreNumerical(whole: string, fraction: string, exponent: string)
    requires IntegerPart(whole) && FractionPart(fraction) && ExponentPart(exponent)
    ensures Numerical(whole) && Numerical(fraction) && Numerical(exponent)
  {
    assert forall k :: 1 <= k < |fraction| ==> fraction[k] == fraction[1..][k - 1];
    assert forall k :: 1 <= k < |exponent| ==> exponent[k] == exponent[1..][k - 1];
    assert forall k :: 2 <= k < |exponent| ==> exponent[k] == exponent[2..][k - 2];
  }

  lemma NumericalTogether(a: string, b: string)
    requires Numerical(a) && Numerical(b)
    ensures Numerical(a + b)
  {
  }

  /** Every number of the grammar is a document, and stands for itself. */
  lemma NumberIsDocument(t: string)
    requires NumberText(t)
    ensures ReadDocument(t) == Some(Num(t))
  {
    hide NumberText, ReadDocument, IntegerPart, FractionPart, ExponentPart, NumberChar;
    NumberSplits(t);
    var sign, whole, fraction, exponent :| Numeric(t, sign, whole, fraction, exponent);
    NumberCharIs('-');
    PartsAreNumerical(whole, fraction, exponent);
    NumericalTogether(sign, whole);
    NumericalTogether(sign + whole, fraction);
    NumericalTogether(sign + whole + fraction, exponent);
    NumberFirst(t);
    PrintedDocumentReadsBack(Num(t));
  }

  // ---------- whole documents ----------

  /** The white space of section 2. */
  predicate AllWhite(t: string) {
    forall k :: 0 <= k < |t| ==> t[k] in " \t\n\r"
  }

  lemma FromFirst(t: string, i: nat)
    requires i <= |t| && SkipSpace(t, i) == SkipSpace(t, 0)
    ensures ReadValue(t, i) == ReadValue(t, 0)
  {
    hide ReadItems, ReadMembers, ReadString, ReadWord, SkipSpace;
  }

  lemma LeadSkips(a: string, rest: string)
    requires AllWhite(a) && rest != "" && !Space(rest[0])
    ensures SkipSpace(a + rest, 0) == |a| == SkipSpace(a + rest, |a|)
  {
    hide SkipSpace;
    var t := a + rest;
    assert forall k :: 0 <= k < |a| ==> t[k] == a[k] && Space(a[k]);
    assert t[|a|] == rest[0];
  }

  lemma TailSkips(b: string, x: string)
    ensures SkipSpace(b + x, |b|) == |b + x| <==> AllWhite(x)
  {
    hide SkipSpace;
    var t := b + x;
    assert forall k :: 0 <= k < |x| ==> t[|b| + k] == x[k];
    var e := SkipSpace(t, |b|);
    if e == |t| {
      assert forall k :: 0 <= k < |x| ==> x[k] == t[|b| + k] && Space(x[k]);
    } else {
      assert x[e - |b|] == t[e];
    }
  }

  /** A value between white space is a document, and one with anything else behind it is none. */
  lemma DocumentIsAll(a: string, v: Value, x: string)
    requires AllWhite(a) && Printable(v) && (v.Num? && x != "" ==> x[0] !in NUMBER_CHARS)
    ensures ReadDocument(a + Print(v) + x) == if AllWhite(x) then Some(v) else None
  {
    hide ReadValue, SkipSpace, Printable, Print, AllWhite, Space, NumberChar;
    var p := Print(v);
    var t := a + p + x;
    assert t[|a|..|a| + |p|] == p;
    if x != "" {
      assert t[|a| + |p|] == x[0];
      NumberCharIs(x[0]);
    }
    ReadsValue(v, t, |a|);
    assert t == a + (p + x) && t[|a|] == (p + x)[0];
    LeadSkips(a, p + x);
    FromFirst(t, |a|);
    assert t == (a + p) + x && |a + p| == |a| + |p|;
    TailSkips(a + p, x);
  }
}
