/** Daily windows at a fixed offset from UTC. Instants count from the epoch in nanoseconds. */
module DailyWindow {
  import opened Options
  import opened Text
  import opened Decimal

  const SECOND: int := 1_000_000_000
  const DAY: int := 86_400 * SECOND

  function UpperChar(c: char): char {
    if 'a' <= c <= 'z' then (c as int - 32) as char else c
  }

  function Upper(t: string): string {
    if t == "" then "" else [UpperChar(t[0])] + Upper(t[1..])
  }

  /** Hours and minutes after the sign. */
  function OffsetParts(rest: string): Option<(int, int)> {
    match Find(rest, ":", 0)
    case Some(k) =>
      (match (ParseI64(rest[..k]), ParseI64(rest[k + 1..]))
       case (Some(h), Some(m)) => Some((h, m))
       case _ => None)
    case None =>
      (match ParseI64(rest)
       case Some(h) => Some((h, 0))
       case None => None)
  }

  function ParseOffset(value: string): Option<int> {
    var t := Upper(Trim(value));
    if !StartsWith(t, "UTC") && !StartsWith(t, "GMT") then None
    else
      var rest := t[3..];
      if rest == "" then Some(0)
      else if rest[0] != '+' && rest[0] != '-' then None
      else match OffsetParts(rest[1..])
        case None => None
        case Some((hours, minutes)) =>
          if !(0 <= hours <= 14) || !(0 <= minutes < 60) then None
          else Some(if rest[0] == '+' then hours * 3600 + minutes * 60 else 0 - (hours * 3600 + minutes * 60))
  }

  /** A parsed offset is a whole number of minutes of at most 14:59 hours. */
  lemma OffsetIsBounded(value: string)
    requires ParseOffset(value).Some?
    ensures -(14 * 3600 + 59 * 60) <= ParseOffset(value).value <= 14 * 3600 + 59 * 60
    ensures ParseOffset(value).value % 60 == 0
  {
    hide Trim, Upper, OffsetParts;
    var rest := Upper(Trim(value))[3..];
    if rest != "" {
      var (hours, minutes) := OffsetParts(rest[1..]).value;
      WholeMinutes(hours, minutes);
    }
  }

  lemma WholeMinutes(hours: int, minutes: int)
    ensures (hours * 3600 + minutes * 60) % 60 == 0 && (0 - (hours * 3600 + minutes * 60)) % 60 == 0
  {
    assert hours * 3600 + minutes * 60 == 60 * (hours * 60 + minutes);
  }

  function LocalTime(instant: int, offset: int): (r: int)
    ensures 0 <= r < DAY
  {
    (instant + offset * SECOND) % DAY
  }

  function LocalDate(instant: int, offset: int): int {
    (instant + offset * SECOND) / DAY
  }

  /** The start of the window that now lies in: the last update time, today or yesterday. */
  method DailyWindowStart(now: int, offset: int, updateTime: nat) returns (start: int)
    requires updateTime < DAY
    ensures start <= now < start + 86_400_000_000_000 && ShowsTime(start, offset, updateTime)
  {
    var startDate := LocalDate(now, offset);
    if LocalTime(now, offset) < updateTime {
      startDate := startDate - 1;
    }
    start := startDate * DAY + updateTime - offset * SECOND;
    assert start + offset * SECOND == startDate * DAY + updateTime;
    RemainderIs(startDate, updateTime);
  }

  lemma RemainderIs(q: int, r: nat)
    requires r < DAY
    ensures (q * DAY + r) % DAY == r
  {
  }

  /** At that instant clocks that are offset seconds ahead show a time so many nanoseconds after a midnight. */
  predicate ShowsTime(instant: int, offset: int, time: int) {
    (instant + offset * 1_000_000_000 - time) % 86_400_000_000_000 == 0
  }

  predicate IsWindowStart(start: int, now: int, offset: int, updateTime: nat) {
    start <= now < start + 86_400_000_000_000 && ShowsTime(start, offset, updateTime)
  }

  /** There is only one such instant. */
  lemma WindowStartIsUnique(a: int, b: int, now: int, offset: int, updateTime: nat)
    requires IsWindowStart(a, now, offset, updateTime) && IsWindowStart(b, now, offset, updateTime)
    ensures a == b
  {
    ShownApart(a, b, offset, updateTime);
  }

  /** Two instants that show the same time are the same or a whole day or more apart. */
  lemma ShownApart(a: int, b: int, offset: int, time: int)
    requires ShowsTime(a, offset, time) && ShowsTime(b, offset, time)
    ensures a == b || a + DAY <= b || b + DAY <= a
  {
    MultiplesApart(a + offset * 1_000_000_000 - time, b + offset * 1_000_000_000 - time);
  }

  lemma MultiplesApart(p: int, q: int)
    requires p % 86_400_000_000_000 == 0 && q % 86_400_000_000_000 == 0
    ensures p == q || p + 86_400_000_000_000 <= q || q + 86_400_000_000_000 <= p
  {
    var m, n := p / 86_400_000_000_000, q / 86_400_000_000_000;
    assert p == m * 86_400_000_000_000 && q == n * 86_400_000_000_000;
  }

  /** Windows never go back: a later instant lies in the same window or in a later one. */
  lemma WindowIsMonotone(a: int, b: int, earlier: int, later: int, offset: int, updateTime: nat)
    requires earlier <= later && IsWindowStart(a, earlier, offset, updateTime) && IsWindowStart(b, later, offset, updateTime)
    ensures a <= b && (a == b || a + DAY <= b)
  {
    ShownApart(a, b, offset, updateTime);
  }

  // ---------- written offsets ----------

  predicate ZoneName(zone: string) {
    zone in {"UTC", "GMT", "utc", "gmt"}
  }

  lemma {:induction false} UpperIs(t: string)
    ensures |Upper(t)| == |t| && forall k :: 0 <= k < |t| ==> Upper(t)[k] == UpperChar(t[k])
  {
    if t != "" {
      UpperIs(t[1..]);
    }
  }

  lemma UpperZone(zone: string, rest: string)
    requires ZoneName(zone) && forall k :: 0 <= k < |rest| ==> !('a' <= rest[k] <= 'z')
    ensures |Upper(zone + rest)| >= 3
    ensures Upper(zone + rest)[3..] == rest && (StartsWith(Upper(zone + rest), "UTC") || StartsWith(Upper(zone + rest), "GMT"))
  {
    hide Upper;
    var t := zone + rest;
    UpperIs(t);
    assert t[0] == zone[0] && t[1] == zone[1] && t[2] == zone[2];
    assert forall k :: 0 <= k < |rest| ==> t[k + 3] == rest[k];
    assert Upper(t)[..3] == [UpperChar(zone[0]), UpperChar(zone[1]), UpperChar(zone[2])];
  }

  /** What follows the zone name decides. */
  lemma OffsetAfterZone(a: string, zone: string, rest: string, z: string)
    requires Blank(a) && Blank(z) && ZoneName(zone) && (rest != "" ==> !IsSpace(rest[|rest| - 1]))
    requires forall k :: 0 <= k < |rest| ==> !('a' <= rest[k] <= 'z')
    ensures ParseOffset(a + zone + rest + z) ==
            if rest == "" then Some(0)
            else if rest[0] != '+' && rest[0] != '-' then None
            else match OffsetParts(rest[1..])
              case None => None
              case Some((h, m)) => if h < 0 || h > 14 || m < 0 || m > 59 then None else Some(if rest[0] == '-' then -(h * 3600 + m * 60) else h * 3600 + m * 60)
  {
    hide Trim, Upper, StartsWith, OffsetParts;
    var t := zone + rest;
    assert a + zone + rest + z == a + t + z;
    assert t[0] == zone[0] && (if rest == "" then t[|t| - 1] == zone[2] else t[|t| - 1] == rest[|rest| - 1]);
    TrimUnique(a, t, z);
    UpperZone(zone, rest);
  }

  lemma PartsOfHours(hours: nat)
    ensures OffsetParts(PrintNat(hours)) == if hours <= MAX_I64 then Some((hours as int, 0)) else None
  {
    hide PrintNat, Find, ParseI64, NatOf;
    var t := PrintNat(hours);
    assert forall k :: 0 <= k < |t| ==> Digit(t[k]);
    FindChar(t, ':', 0, |t|);
    PrintedReadsBack(hours);
  }

  lemma PartsOfBoth(hours: nat, minutes: nat)
    ensures OffsetParts(PrintNat(hours) + ":" + PrintNat(minutes)) ==
            if hours <= MAX_I64 && minutes <= MAX_I64 then Some((hours as int, minutes as int)) else None
  {
    hide PrintNat, Find, ParseI64, NatOf;
    var h, m := PrintNat(hours), PrintNat(minutes);
    var t := h + ":" + m;
    assert forall k :: 0 <= k < |h| ==> Digit(h[k]) && t[k] == h[k];
    assert t[|h|] == ':';
    FindChar(t, ':', 0, |h|);
    assert t[..|h|] == h && t[|h| + 1..] == m;
    PrintedReadsBack(hours);
    PrintedReadsBack(minutes);
  }

  /** A zone name alone is UTC itself; behind a plus the hours and minutes count ahead of UTC, behind a minus they count back; more than fourteen hours or fifty-nine minutes are refused. */
  lemma OffsetsRead(a: string, zone: string, sign: char, hours: nat, minutes: nat, z: string)
    requires Blank(a) && Blank(z) && ZoneName(zone) && (sign == '+' || sign == '-')
    ensures ParseOffset(a + zone + z) == Some(0)
    ensures var written := ParseOffset(a + zone + ([sign] + PrintNat(hours)) + z);
            written == if hours > 14 then None else if sign == '+' then Some(hours * 3600) else Some(-(hours * 3600))
    ensures var written := ParseOffset(a + zone + ([sign] + (PrintNat(hours) + ":" + PrintNat(minutes))) + z);
            written == if hours > 14 || minutes > 59 then None
                       else if sign == '+' then Some(hours * 3600 + minutes * 60) else Some(-(hours * 3600 + minutes * 60))
  {
    hide ParseOffset, PrintNat, OffsetParts, IsSpace, ZoneName;
    var h, m := PrintNat(hours), PrintNat(minutes);
    PrintedEnd(hours);
    PrintedEnd(minutes);
    var one, both := [sign] + h, [sign] + (h + ":" + m);
    assert a + zone + "" + z == a + zone + z;
    OffsetAfterZone(a, zone, "", z);
    PartsOfHours(hours);
    assert one[1..] == h;
    OffsetAfterZone(a, zone, one, z);
    PartsOfBoth(hours, minutes);
    assert both[1..] == h + ":" + m;
    OffsetAfterZone(a, zone, both, z);
  }

  lemma PrintedEnd(n: nat)
    ensures var t := PrintNat(n); t != "" && !IsSpace(t[|t| - 1]) && forall k :: 0 <= k < |t| ==> !('a' <= t[k] <= 'z')
  {
    hide PrintNat, NatOf;
    var t := PrintNat(n);
    assert Digit(t[|t| - 1]);
    assert forall k :: 0 <= k < |t| ==> Digit(t[k]);
  }
}
