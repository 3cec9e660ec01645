/** The strict timestamp parser: an instant of section 5.6 of RFC 3339 with an upper-case T and Z, one to
    nine fraction digits, and no leap second; the calendar is that of section 21.4.1 of ECMA-262. */
module IsoInstant {
  import opened Prelude

  const MS_PER_MINUTE := 60_000
  const MS_PER_DAY := 86_400_000

  datatype Zone = Utc | Offset(minus: bool, hours: nat, minutes: nat)

  /** What the pattern captures; `fraction` is the digits after the point. */
  datatype Fields = Fields(year: nat, month: nat, day: nat, hour: nat, minute: nat, second: nat,
                           fraction: Option<string>, zone: Zone)

  // --- Digits ---

  predicate IsDigit(c: char) {
    '0' <= c <= '9'
  }

  predicate AllDigits(s: string) {
    forall i :: 0 <= i < |s| ==> IsDigit(s[i])
  }

  function Digit(n: nat): char
    requires n < 10
  {
    (n + '0' as int) as char
  }

  function Val(c: char): nat
    requires IsDigit(c)
  {
    c as int - '0' as int
  }

  function Two(s: string): nat
    requires |s| == 2 && AllDigits(s)
  {
    10 * Val(s[0]) + Val(s[1])
  }

  function Four(s: string): nat
    requires |s| == 4 && AllDigits(s)
  {
    100 * Two(s[..2]) + Two(s[2..])
  }

  function Pad2(n: nat): (s: string)
    requires n < 100
    ensures |s| == 2 && AllDigits(s) && Two(s) == n
  {
    [Digit(n / 10), Digit(n % 10)]
  }

  function Pad4(n: nat): (s: string)
    requires n < 10000
    ensures |s| == 4 && AllDigits(s) && Four(s) == n
  {
    var s := Pad2(n / 100) + Pad2(n % 100);
    assert s[..2] == Pad2(n / 100) && s[2..] == Pad2(n % 100);
    s
  }

  lemma PadTwo(s: string)
    requires |s| == 2 && AllDigits(s)
    ensures Two(s) < 100 && Pad2(Two(s)) == s
  {
    assert IsDigit(s[0]) && IsDigit(s[1]);
  }

  lemma PadFour(s: string)
    requires |s| == 4 && AllDigits(s)
    ensures Four(s) < 10000 && Pad4(Four(s)) == s
  {
    PadTwo(s[..2]);
    PadTwo(s[2..]);
    assert s == s[..2] + s[2..];
  }

  function LeadingDigits(s: string): (n: nat)
    ensures n <= |s| && AllDigits(s[..n]) && (n < |s| ==> !IsDigit(s[n]))
  {
    if s == "" || !IsDigit(s[0]) then 0 else 1 + LeadingDigits(s[1..])
  }

  // --- The pattern ---

  /** YYYY-MM-DDTHH:MM:SS */
  predicate HasDateTime(s: string) {
    && |s| == 19
    && AllDigits(s[0..4]) && s[4] == '-' && AllDigits(s[5..7]) && s[7] == '-' && AllDigits(s[8..10]) && s[10] == 'T'
    && AllDigits(s[11..13]) && s[13] == ':' && AllDigits(s[14..16]) && s[16] == ':' && AllDigits(s[17..19])
  }

  function MatchZone(s: string): Option<Zone> {
    if s == "Z" then Some(Utc)
    else if |s| == 6 && (s[0] == '+' || s[0] == '-') && AllDigits(s[1..3]) && s[3] == ':' && AllDigits(s[4..6]) then
      Some(Offset(s[0] == '-', Two(s[1..3]), Two(s[4..6])))
    else None
  }

  /** The optional fraction, then the zone. */
  function MatchTail(s: string): Option<(Option<string>, Zone)> {
    if s != "" && s[0] == '.' then
      var n := LeadingDigits(s[1..]);
      if !(1 <= n <= 9) then None
      else match MatchZone(s[1 + n..])
           case Some(z) => Some((Some(s[1..1 + n]), z))
           case None => None
    else match MatchZone(s)
         case Some(z) => Some((None, z))
         case None => None
  }

  function Match(s: string): Option<Fields> {
    if |s| < 19 || !HasDateTime(s[..19]) then None
    else match MatchTail(s[19..])
         case None => None
         case Some(tail) => Some(Capture(s[..19], tail))
  }

  function Capture(d: string, tail: (Option<string>, Zone)): Fields
    requires HasDateTime(d)
  {
    Fields(Four(d[0..4]), Two(d[5..7]), Two(d[8..10]), Two(d[11..13]), Two(d[14..16]), Two(d[17..19]), tail.0, tail.1)
  }

  // --- The calendar ---

  predicate Leap(year: nat) {
    (year % 4 == 0 && year % 100 != 0) || year % 400 == 0
  }

  function DaysInMonth(year: nat, month: nat): nat {
    if month == 2 then if Leap(year) then 29 else 28
    else if month == 4 || month == 6 || month == 9 || month == 11 then 30
    else 31
  }

  /** Day number of 1 January; day 0 is 1 January 1970. */
  function DayFromYear(year: nat): nat
    requires year >= 1970
  {
    365 * (year - 1970) + (year - 1969) / 4 - (year - 1901) / 100 + (year - 1601) / 400
  }

  function DaysBeforeMonth(year: nat, month: nat): nat
    requires 1 <= month <= 13
  {
    if month == 1 then 0 else DaysBeforeMonth(year, month - 1) + DaysInMonth(year, month - 1)
  }

  predicate ValidDate(year: nat, month: nat, day: nat) {
    year >= 1970 && 1 <= month <= 12 && 1 <= day <= DaysInMonth(year, month)
  }

  function DayNumber(year: nat, month: nat, day: nat): nat
    requires ValidDate(year, month, day)
  {
    DayFromYear(year) + DaysBeforeMonth(year, month) + day - 1
  }

  // --- Parsing ---

  predicate Valid(f: Fields) {
    && ValidDate(f.year, f.month, f.day)
    && f.hour <= 23 && f.minute <= 59 && f.second <= 59
    && (f.zone.Offset? ==> f.zone.hours <= 23 && f.zone.minutes <= 59)
  }

  function OffsetMinutes(z: Zone): int {
    match z
    case Utc => 0
    case Offset(minus, hours, minutes) => if minus then -(hours * 60 + minutes) else hours * 60 + minutes
  }

  /** The first three fraction digits, padded on the right with zeros. */
  function Millis(fraction: Option<string>): nat
    requires fraction.Some? ==> fraction.value != "" && AllDigits(fraction.value)
  {
    match fraction
    case None => 0
    case Some(d) =>
      100 * Val(d[0]) + (if |d| > 1 then 10 * Val(d[1]) else 0) + (if |d| > 2 then Val(d[2]) else 0)
  }

  predicate WellWritten(f: Fields) {
    && f.year < 10000 && f.month < 100 && f.day < 100 && f.hour < 100 && f.minute < 100 && f.second < 100
    && (f.fraction.Some? ==> 1 <= |f.fraction.value| <= 9 && AllDigits(f.fraction.value))
    && (f.zone.Offset? ==> f.zone.hours < 100 && f.zone.minutes < 100)
  }

  /** Milliseconds since 1970 of the written local time, read as UTC. */
  function LocalMs(f: Fields): nat
    requires WellWritten(f) && Valid(f)
  {
    DayNumber(f.year, f.month, f.day) * MS_PER_DAY + ((f.hour * 60 + f.minute) * 60 + f.second) * 1000
        + Millis(f.fraction)
  }

  function Instant(f: Fields): int
    requires WellWritten(f) && Valid(f)
  {
    LocalMs(f) - OffsetMinutes(f.zone) * MS_PER_MINUTE
  }

  /** Epoch milliseconds of a strict instant string, or None. */
  function Parse(s: string): Option<nat> {
    match Match(s)
    case None => None
    case Some(f) =>
      MatchIsWellWritten(s, f);
      if Valid(f) && Instant(f) >= 0 then Some(Instant(f)) else None
  }

  // --- The grammar, read as a printer ---

  function RenderZone(z: Zone): string
    requires z.Offset? ==> z.hours < 100 && z.minutes < 100
  {
    match z
    case Utc => "Z"
    case Offset(minus, hours, minutes) => (if minus then "-" else "+") + Pad2(hours) + ":" + Pad2(minutes)
  }

  function RenderFraction(fraction: Option<string>): string {
    match fraction case None => "" case Some(d) => "." + d
  }

  function RenderDateTime(f: Fields): (s: string)
    requires WellWritten(f)
    ensures |s| == 19 && HasDateTime(s)
    ensures Four(s[0..4]) == f.year && Two(s[5..7]) == f.month && Two(s[8..10]) == f.day
    ensures Two(s[11..13]) == f.hour && Two(s[14..16]) == f.minute && Two(s[17..19]) == f.second
  {
    var y, mo, d, h, mi, sec := Pad4(f.year), Pad2(f.month), Pad2(f.day), Pad2(f.hour), Pad2(f.minute), Pad2(f.second);
    var s := [y[0], y[1], y[2], y[3], '-', mo[0], mo[1], '-', d[0], d[1], 'T', h[0], h[1], ':', mi[0], mi[1], ':',
        sec[0], sec[1]];
    assert s[0..4] == y && s[5..7] == mo && s[8..10] == d && s[11..13] == h && s[14..16] == mi && s[17..19] == sec;
    s
  }

  function Render(f: Fields): string
    requires WellWritten(f)
  {
    RenderDateTime(f) + RenderFraction(f.fraction) + RenderZone(f.zone)
  }

  lemma MatchIsWellWritten(s: string, f: Fields)
    requires Match(s) == Some(f)
    ensures WellWritten(f)
  {
    var d, t := s[..19], s[19..];
    PadFour(d[0..4]);
    PadTwo(d[5..7]); PadTwo(d[8..10]); PadTwo(d[11..13]); PadTwo(d[14..16]); PadTwo(d[17..19]);
    TailIsWellWritten(t);
  }

  lemma TailIsWellWritten(t: string)
    requires MatchTail(t).Some?
    ensures var (fraction, zone) := MatchTail(t).value;
            && (fraction.Some? ==> 1 <= |fraction.value| <= 9 && AllDigits(fraction.value))
            && (zone.Offset? ==> zone.hours < 100 && zone.minutes < 100)
  {
    if t != "" && t[0] == '.' {
      var n := LeadingDigits(t[1..]);
      assert t[1..][..n] == t[1..1 + n];
      ZoneIsWellWritten(t[1 + n..]);
    } else {
      ZoneIsWellWritten(t);
    }
  }

  lemma TailText(t: string)
    requires MatchTail(t).Some?
    ensures var (fraction, zone) := MatchTail(t).value;
            (zone.Offset? ==> zone.hours < 100 && zone.minutes < 100)
                && RenderFraction(fraction) + RenderZone(zone) == t
  {
    if t != "" && t[0] == '.' {
      var n := LeadingDigits(t[1..]);
      ZoneIsWellWritten(t[1 + n..]);
      assert t == "." + t[1..1 + n] + t[1 + n..];
    } else {
      ZoneIsWellWritten(t);
      assert "" + t == t;
    }
  }

  lemma ZoneIsWellWritten(t: string)
    requires MatchZone(t).Some?
    ensures var z := MatchZone(t).value; (z.Offset? ==> z.hours < 100 && z.minutes < 100) && RenderZone(z) == t
  {
    if t != "Z" {
      PadTwo(t[1..3]);
      PadTwo(t[4..6]);
      var z := MatchZone(t).value;
      assert RenderZone(z) == [t[0]] + t[1..3] + ":" + t[4..6];
    }
  }

  lemma RenderedZone(z: Zone)
    requires z.Offset? ==> z.hours < 100 && z.minutes < 100
    ensures MatchZone(RenderZone(z)) == Some(z)
    ensures RenderZone(z) != "" && !IsDigit(RenderZone(z)[0]) && RenderZone(z)[0] != '.'
  {
    if z.Offset? {
      var s := RenderZone(z);
      assert s[1..3] == Pad2(z.hours) && s[4..6] == Pad2(z.minutes) && s[3] == ':';
    }
  }

  lemma {:induction false} LeadingDigitsOf(d: string, rest: string)
    requires AllDigits(d) && (rest == "" || !IsDigit(rest[0]))
    ensures LeadingDigits(d + rest) == |d|
  {
    if d == "" {
      assert d + rest == rest;
    } else {
      assert (d + rest)[1..] == d[1..] + rest;
      LeadingDigitsOf(d[1..], rest);
    }
  }

  lemma RenderedTail(fraction: Option<string>, z: Zone)
    requires z.Offset? ==> z.hours < 100 && z.minutes < 100
    requires fraction.Some? ==> 1 <= |fraction.value| <= 9 && AllDigits(fraction.value)
    ensures MatchTail(RenderFraction(fraction) + RenderZone(z)) == Some((fraction, z))
  {
    RenderedZone(z);
    var zone := RenderZone(z);
    if fraction.Some? {
      LeadingDigitsOf(fraction.value, zone);
      var n, rest := |fraction.value|, fraction.value + zone;
      var t := "." + fraction.value + zone;
      assert t == "." + rest && t[1..] == rest;
      assert t[1..1 + n] == fraction.value && t[1 + n..] == zone;
    } else {
      assert "" + zone == zone;
    }
  }

  /** The pattern reads back exactly what was written. */
  lemma MatchReadsRender(f: Fields)
    requires WellWritten(f)
    ensures Match(Render(f)) == Some(f)
  {
    var d, tail := RenderDateTime(f), RenderFraction(f.fraction) + RenderZone(f.zone);
    assert Render(f) == d + tail;
    assert (d + tail)[..19] == d && (d + tail)[19..] == tail;
    RenderedTail(f.fraction, f.zone);
    assert Capture(d, (f.fraction, f.zone)) == f;
  }

  lemma DateTimeText(d: string, f: Fields)
    requires HasDateTime(d) && WellWritten(f)
    requires Four(d[0..4]) == f.year && Two(d[5..7]) == f.month && Two(d[8..10]) == f.day
    requires Two(d[11..13]) == f.hour && Two(d[14..16]) == f.minute && Two(d[17..19]) == f.second
    ensures RenderDateTime(f) == d
  {
    var r := RenderDateTime(f);
    PadFour(d[0..4]); PadFour(r[0..4]);
    PadTwo(d[5..7]); PadTwo(r[5..7]); PadTwo(d[8..10]); PadTwo(r[8..10]);
    PadTwo(d[11..13]); PadTwo(r[11..13]); PadTwo(d[14..16]); PadTwo(r[14..16]); PadTwo(d[17..19]); PadTwo(r[17..19]);
    assert d == d[0..4] + [d[4]] + d[5..7] + [d[7]] + d[8..10] + [d[10]] + d[11..13] + [d[13]] + d[14..16] + [d[16]]
        + d[17..19];
    assert r == r[0..4] + [r[4]] + r[5..7] + [r[7]] + r[8..10] + [r[10]] + r[11..13] + [r[13]] + r[14..16] + [r[16]]
        + r[17..19];
  }

  lemma CapturedText(d: string, t: string, f: Fields)
    requires HasDateTime(d) && MatchTail(t).Some? && f == Capture(d, MatchTail(t).value) && WellWritten(f)
    ensures Render(f) == d + t
  {
    DateTimeText(d, f);
    TailText(t);
    var fraction, z := RenderFraction(f.fraction), RenderZone(f.zone);
    assert d + fraction + z == d + (fraction + z);
  }

  /** Nothing but such a text matches. */
  lemma MatchedTextIsRendered(s: string, f: Fields)
    requires Match(s) == Some(f)
    ensures WellWritten(f) && Render(f) == s
  {
    MatchIsWellWritten(s, f);
    CapturedText(s[..19], s[19..], f);
    assert s == s[..19] + s[19..];
  }

  /** The parser accepts exactly the texts of calendar-valid fields that do not lie before 1970, and
      answers with the instant they name. */
  lemma ParseAcceptsExactly(s: string, t: nat)
    ensures Parse(s) == Some(t) <==>
              exists f :: WellWritten(f) && Valid(f) && Render(f) == s && Instant(f) == t
  {
    if Parse(s) == Some(t) {
      var f := Match(s).value;
      MatchedTextIsRendered(s, f);
    }
    if f :| WellWritten(f) && Valid(f) && Render(f) == s && Instant(f) == t {
      MatchReadsRender(f);
    }
  }

  // --- The other way round: printing an instant ---

  lemma EveryFourth(year: nat)
    requires year >= 1970
    ensures (year - 1968) / 4 - (year - 1969) / 4 == if year % 4 == 0 then 1 else 0
  {
  }

  lemma EveryHundredth(year: nat)
    requires year >= 1970
    ensures (year - 1900) / 100 - (year - 1901) / 100 == if year % 100 == 0 then 1 else 0
  {
  }

  lemma EveryFourHundredth(year: nat)
    requires year >= 1970
    ensures (year - 1600) / 400 - (year - 1601) / 400 == if year % 400 == 0 then 1 else 0
  {
  }

  lemma CenturiesAreFourths(year: nat)
    ensures year % 400 == 0 ==> year % 100 == 0
    ensures year % 100 == 0 ==> year % 4 == 0
  {
    var hundreds, fourHundreds := year / 100, year / 400;
    assert year % 100 == 0 ==> year == 4 * (25 * hundreds);
    assert year % 400 == 0 ==> year == 100 * (4 * fourHundreds);
  }

  /** The closed form of ECMA-262 counts a leap day exactly in the leap years. */
  lemma YearLength(year: nat)
    requires year >= 1970
    ensures DayFromYear(year + 1) - DayFromYear(year) == if Leap(year) then 366 else 365
  {
    EveryFourth(year);
    EveryHundredth(year);
    EveryFourHundredth(year);
    CenturiesAreFourths(year);
  }

  lemma MonthsFillYear(year: nat)
    ensures DaysBeforeMonth(year, 13) == if Leap(year) then 366 else 365
  {
    var feb := DaysInMonth(year, 2);
    assert DaysBeforeMonth(year, 2) == 31;
    assert DaysBeforeMonth(year, 3) == 31 + feb;
    assert DaysBeforeMonth(year, 5) == 92 + feb;
    assert DaysBeforeMonth(year, 7) == 153 + feb;
    assert DaysBeforeMonth(year, 9) == 215 + feb;
    assert DaysBeforeMonth(year, 11) == 276 + feb;
    assert DaysBeforeMonth(year, 13) == 337 + feb;
  }

  /** The last year, from `year` on, that has begun by `day`. */
  function YearOf(day: nat, year: nat): (y: nat)
    requires year >= 1970 && DayFromYear(year) <= day
    ensures y >= year && DayFromYear(y) <= day < DayFromYear(y + 1)
    decreases day - DayFromYear(year)
  {
    YearLength(year);
    if DayFromYear(year + 1) <= day then YearOf(day, year + 1) else year
  }

  /** The last month, from `month` on, that has begun by the `rest`th day of the year. */
  function MonthOf(year: nat, rest: nat, month: nat): (m: nat)
    requires 1 <= month <= 12 && DaysBeforeMonth(year, month) <= rest < DaysBeforeMonth(year, 13)
    ensures month <= m <= 12 && DaysBeforeMonth(year, m) <= rest < DaysBeforeMonth(year, m + 1)
    decreases 12 - month
  {
    if month < 12 && DaysBeforeMonth(year, month + 1) <= rest then MonthOf(year, rest, month + 1) else month
  }

  function CivilOf(day: nat): (date: (nat, nat, nat))
    ensures ValidDate(date.0, date.1, date.2) && DayNumber(date.0, date.1, date.2) == day
  {
    var y := YearOf(day, 1970);
    YearLength(y);
    MonthsFillYear(y);
    var rest := day - DayFromYear(y);
    var m := MonthOf(y, rest, 1);
    (y, m, rest - DaysBeforeMonth(y, m) + 1)
  }

  lemma {:induction false} YearsAscend(y: nat, y': nat)
    requires 1970 <= y < y'
    ensures DayFromYear(y + 1) <= DayFromYear(y')
    decreases y'
  {
    YearLength(y' - 1);
    if y + 1 < y' { YearsAscend(y, y' - 1); }
  }

  lemma {:induction false} MonthsAscend(year: nat, m: nat, m': nat)
    requires 1 <= m < m' <= 13
    ensures DaysBeforeMonth(year, m + 1) <= DaysBeforeMonth(year, m')
    decreases m'
  {
    if m + 1 < m' { MonthsAscend(year, m, m' - 1); }
  }

  lemma DayInYear(y: nat, m: nat, d: nat)
    requires ValidDate(y, m, d)
    ensures DayFromYear(y) <= DayNumber(y, m, d) < DayFromYear(y + 1)
    ensures DaysBeforeMonth(y, m) <= DayNumber(y, m, d) - DayFromYear(y) < DaysBeforeMonth(y, m + 1)
  {
    YearLength(y);
    MonthsFillYear(y);
    if m < 12 { MonthsAscend(y, m, 13); }
  }

  lemma OneDateADay(y: nat, m: nat, d: nat, y': nat, m': nat, d': nat)
    requires ValidDate(y, m, d) && ValidDate(y', m', d') && DayNumber(y, m, d) == DayNumber(y', m', d')
    ensures (y, m, d) == (y', m', d')
  {
    DayInYear(y, m, d);
    DayInYear(y', m', d');
    if y < y' { YearsAscend(y, y'); }
    if y' < y { YearsAscend(y', y); }
    if m < m' { MonthsAscend(y, m, m'); }
    if m' < m { MonthsAscend(y, m', m); }
  }

  /** Day counting is a bijection between valid dates and day numbers. */
  lemma DatesAreDays(y: nat, m: nat, d: nat)
    requires ValidDate(y, m, d)
    ensures CivilOf(DayNumber(y, m, d)) == (y, m, d)
  {
    var date := CivilOf(DayNumber(y, m, d));
    OneDateADay(y, m, d, date.0, date.1, date.2);
  }

  /** The first local millisecond of the year 10000. */
  const YEAR_10000_MS := 253_402_300_800_000

  lemma {:induction false} YearsReach(y: nat)
    requires y >= 10000
    ensures DayFromYear(y) >= DayFromYear(10000)
    decreases y
  {
    if y > 10000 {
      YearLength(y - 1);
      YearsReach(y - 1);
    }
  }

  lemma YearBound(day: nat)
    requires day * MS_PER_DAY < YEAR_10000_MS
    ensures CivilOf(day).0 < 10000
  {
    var (y, m, d) := CivilOf(day);
    DayInYear(y, m, d);
    assert DayFromYear(10000) == 2932897;
    if y >= 10000 { YearsReach(y); }
  }

  function Clock(ms: nat): (t: (nat, nat, nat, nat))
    requires ms < MS_PER_DAY
    ensures t.0 <= 23 && t.1 <= 59 && t.2 <= 59 && t.3 <= 999
    ensures ((t.0 * 60 + t.1) * 60 + t.2) * 1000 + t.3 == ms
  {
    var seconds := ms / 1000;
    var minutes := seconds / 60;
    (minutes / 60, minutes % 60, seconds % 60, ms % 1000)
  }

  function Pad3(n: nat): (s: string)
    requires n < 1000
    ensures |s| == 3 && AllDigits(s) && Millis(Some(s)) == n
  {
    [Digit(n / 100)] + Pad2(n % 100)
  }

  /** The fields of an instant at an offset, with three fraction digits. */
  function FieldsAt(local: nat, zone: Zone): (f: Fields)
    requires local < YEAR_10000_MS
    requires zone.Offset? ==> zone.hours <= 23 && zone.minutes <= 59
    ensures WellWritten(f) && Valid(f) && LocalMs(f) == local && f.zone == zone
  {
    var (y, mo, d) := CivilOf(local / MS_PER_DAY);
    var (h, mi, sec, ms) := Clock(local % MS_PER_DAY);
    YearBound(local / MS_PER_DAY);
    assert mo < 100 && d < 100;
    Fields(y, mo, d, h, mi, sec, Some(Pad3(ms)), zone)
  }

  lemma RenderThenParse(f: Fields)
    requires WellWritten(f) && Valid(f) && Instant(f) >= 0
    ensures Parse(Render(f)) == Some(Instant(f))
  {
    MatchReadsRender(f);
  }

  /** Every millisecond from 1970 to the end of 9999, printed at any offset under which its local year
      stays in that range, is parsed back to itself. */
  lemma PrintThenParse(t: nat, zone: Zone)
    requires zone.Offset? ==> zone.hours <= 23 && zone.minutes <= 59
    requires 0 <= t + OffsetMinutes(zone) * MS_PER_MINUTE < YEAR_10000_MS
    ensures Parse(Render(FieldsAt(t + OffsetMinutes(zone) * MS_PER_MINUTE, zone))) == Some(t)
  {
    var f := FieldsAt(t + OffsetMinutes(zone) * MS_PER_MINUTE, zone);
    assert Instant(f) == t;
    RenderThenParse(f);
  }
}
