/** Decimal integers as text. */
module Decimal {
  import opened Options

  predicate Digit(c: char) {
    '0' <= c <= '9'
  }

  predicate Digits(t: string) {
    t != "" && forall k :: 0 <= k < |t| ==> Digit(t[k])
  }

  function NatOf(t: string): nat
    requires forall k :: 0 <= k < |t| ==> Digit(t[k])
  {
    if t == "" then 0
    else
      assert Digit(t[|t| - 1]);
      NatOf(t[..|t| - 1]) * 10 + (t[|t| - 1] as int - '0' as int)
  }

  function ParseNat(t: string): Option<nat> {
    if Digits(t) then Some(NatOf(t)) else None
  }

  /** An optional minus sign and digits. */
  function ParseInt(t: string): Option<int> {
    if t != "" && t[0] == '-' then
      match ParseNat(t[1..])
      case Some(n) => Some(0 - n)
      case None => None
    else
      match ParseNat(t)
      case Some(n) => Some(n as int)
      case None => None
  }

  function PrintDigit(n: nat): (r: char)
    requires n < 10
    ensures Digit(r) && r as int - '0' as int == n
  {
    ('0' as int + n) as char
  }

  function PrintNat(n: nat): (r: string)
    ensures Digits(r) && NatOf(r) == n
  {
    if n < 10 then [PrintDigit(n)]
    else
      var front := PrintNat(n / 10);
      var r := front + [PrintDigit(n % 10)];
      assert r[..|r| - 1] == front;
      r
  }

  const MAX_I64: int := 0x7FFF_FFFF_FFFF_FFFF
  const MIN_I64: int := -0x8000_0000_0000_0000

  /** A 64-bit integer: an optional sign, digits, and no overflow. */
  function ParseI64(t: string): Option<int> {
    var signed := t != "" && (t[0] == '-' || t[0] == '+');
    match ParseNat(if signed then t[1..] else t)
    case None => None
    case Some(n) =>
      var value := if signed && t[0] == '-' then 0 - n else n;
      if MIN_I64 <= value <= MAX_I64 then Some(value) else None
  }

  /** A printed number reads back as itself if it fits. */
  lemma PrintedReadsBack(n: nat)
    ensures ParseI64(PrintNat(n)) == if n <= MAX_I64 then Some(n as int) else None
  {
    hide NatOf, PrintNat;
    var t := PrintNat(n);
    assert Digit(t[0]);
  }

  /** A printed number, with or without a minus sign in front, is read as that number. */
  lemma PrintedIntReadsBack(n: nat)
    ensures ParseInt(PrintNat(n)) == Some(n as int)
    ensures ParseInt("-" + PrintNat(n)) == Some(0 - n)
  {
    hide NatOf, PrintNat;
    var t := PrintNat(n);
    assert Digit(t[0]);
    assert ("-" + t)[1..] == t;
  }

  /** Exactly digits behind an optional minus sign are read, and each further digit counts ten times what stands before it. */
  lemma IntsAre(t: string, d: char)
    ensures ParseInt(t).Some? <==> Digits(t) || (t != "" && t[0] == '-' && Digits(t[1..]))
    ensures Digits(t) && Digit(d) ==> ParseInt(t + [d]).Some? && ParseInt(t + [d]).value == 10 * ParseInt(t).value + (d as int - '0' as int)
  {
    if Digits(t) {
      assert Digit(t[0]);
      if Digit(d) {
        var u := t + [d];
        assert u[..|u| - 1] == t && Digits(u);
      }
    }
  }

  /** Behind a plus a printed number reads as itself and behind a minus as its negative, as long as 64 bits hold it: up to 2^63 - 1 above zero and 2^63 below. */
  lemma SignedReadsBack(n: nat)
    ensures ParseI64("+" + PrintNat(n)) == if n < 9_223_372_036_854_775_808 then Some(n as int) else None
    ensures ParseI64("-" + PrintNat(n)) == if n <= 9_223_372_036_854_775_808 then Some(0 - n) else None
  {
    hide NatOf, PrintNat;
    var t := PrintNat(n);
    assert ("+" + t)[1..] == t && ("-" + t)[1..] == t;
  }

  /** Nothing else is read than digits behind at most one sign. */
  lemma I64sAre(t: string)
    ensures ParseI64(t).Some? ==> Digits(t) || (t != "" && (t[0] == '-' || t[0] == '+') && Digits(t[1..]))
  {
  }
}
