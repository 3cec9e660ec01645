/** What the timestamp parser accepts and returns, said over the text itself: the literal grammar, decimal
    numbers, a table of month lengths, and a day count that knows nothing of months or leap years. */
module IsoMeaning {
  import opened Prelude
  import opened IsoInstant

  /** The decimal number a string of digits is written as. */
  function Number(s: string): int {
    if s == "" then 0 else 10 * Number(s[..|s| - 1]) + (s[|s| - 1] as int - 48)
  }

  ghost predicate Digits(s: string, n: nat) {
    |s| == n && forall i :: 0 <= i < |s| ==> s[i] in "0123456789"
  }

  // --- The calendar ---

  const LENGTHS := [31, 28, 31, 30, 31, 30, 31, 31, 30, 31, 30, 31]

  ghost predicate Exists(year: int, month: int, day: int) {
    && 1970 <= year && 1 <= month <= 12 && 1 <= day
    && day <= LENGTHS[month - 1] + if month == 2 && year % 4 == 0 && (year % 100 != 0 || year % 400 == 0) then 1 else 0
  }

  /** Days since 1 January 1970, counting years from March so that a leap day comes last. */
  function DaysFromCivil(year: int, month: int, day: int): int {
    var y := if month <= 2 then year - 1 else year;
    var m := if month <= 2 then month + 9 else month - 3;
    365 * y + y / 4 - y / 100 + y / 400 + (153 * m + 2) / 5 + day - 719469
  }

  /** The days before a month: 31 before February, and from March on 59, the leap day, and five months in
      every 153 days. */
  lemma MonthStarts(year: nat, month: nat)
    requires 1 <= month <= 12
    ensures var leapDay := if year % 4 == 0 && (year % 100 != 0 || year % 400 == 0) then 1 else 0;
            DaysBeforeMonth(year, month) ==
              if month == 1 then 0 else if month == 2 then 31 else 59 + leapDay + (153 * (month - 3) + 2) / 5
  {
    CenturiesAreFourths(year);
    var feb := DaysInMonth(year, 2);
    assert DaysBeforeMonth(year, 1) == 0;
    assert DaysBeforeMonth(year, 2) == 31;
    assert DaysBeforeMonth(year, 3) == 31 + feb;
    assert DaysBeforeMonth(year, 4) == 62 + feb;
    assert DaysBeforeMonth(year, 5) == 92 + feb;
    assert DaysBeforeMonth(year, 6) == 123 + feb;
    assert DaysBeforeMonth(year, 7) == 153 + feb;
    assert DaysBeforeMonth(year, 8) == 184 + feb;
    assert DaysBeforeMonth(year, 9) == 215 + feb;
    assert DaysBeforeMonth(year, 10) == 245 + feb;
    assert DaysBeforeMonth(year, 11) == 276 + feb;
    assert DaysBeforeMonth(year, 12) == 306 + feb;
  }

  lemma ShiftedYears(year: int)
    requires year >= 1970
    ensures (year - 1969) / 4 == (year - 1) / 4 - 492
    ensures (year - 1901) / 100 == (year - 1) / 100 - 19
    ensures (year - 1601) / 400 == (year - 1) / 400 - 4
  {
  }

  lemma LeapDay(year: int)
    requires year >= 1970
    ensures year / 4 - (year - 1) / 4 == if year % 4 == 0 then 1 else 0
    ensures year / 100 - (year - 1) / 100 == if year % 100 == 0 then 1 else 0
    ensures year / 400 - (year - 1) / 400 == if year % 400 == 0 then 1 else 0
  {
  }

  /** The valid dates are those in the table, and their day numbers are that count. */
  lemma DatesMean(year: nat, month: nat, day: nat)
    ensures ValidDate(year, month, day) <==> Exists(year, month, day)
    ensures ValidDate(year, month, day) ==> DayNumber(year, month, day) == DaysFromCivil(year, month, day)
  {
    CenturiesAreFourths(year);
    if ValidDate(year, month, day) {
      MonthStarts(year, month);
      ShiftedYears(year);
      LeapDay(year);
    }
  }

  // --- The text ---

  /** A text in its parts; `fraction` is empty or starts with the point. */
  datatype Text = Text(year: string, month: string, day: string, hour: string, minute: string, second: string,
                       fraction: string, zone: string)

  function Written(x: Text): string {
    x.year + "-" + x.month + "-" + x.day + "T" + x.hour + ":" + x.minute + ":" + x.second + x.fraction + x.zone
  }

  ghost predicate GoodFraction(fraction: string) {
    fraction == "" || (2 <= |fraction| <= 10 && fraction[0] == '.' && Digits(fraction[1..], |fraction| - 1))
  }

  ghost predicate GoodZone(zone: string) {
    || zone == "Z"
    || (&& |zone| == 6 && zone[0] in "+-" && Digits(zone[1..3], 2) && zone[3] == ':' && Digits(zone[4..6], 2)
        && Number(zone[1..3]) < 24 && Number(zone[4..6]) < 60)
  }

  ghost predicate GoodText(x: Text) {
    && Digits(x.year, 4) && Digits(x.month, 2) && Digits(x.day, 2)
    && Digits(x.hour, 2) && Digits(x.minute, 2) && Digits(x.second, 2)
    && GoodFraction(x.fraction) && GoodZone(x.zone)
    && Exists(Number(x.year), Number(x.month), Number(x.day))
    && Number(x.hour) < 24 && Number(x.minute) < 60 && Number(x.second) < 60
  }

  /** The first three digits after the point, short ones filled up with zeros. */
  function FractionMs(fraction: string): int {
    if |fraction| < 2 then 0 else Number((fraction[1..] + "00")[..3])
  }

  /** How far the written time runs ahead of UTC. */
  function AheadMs(zone: string): int {
    if |zone| != 6 then 0
    else
      var ms := Number(zone[1..3]) * 3_600_000 + Number(zone[4..6]) * 60_000;
      if zone[0] == '-' then -ms else ms
  }

  function ClockMs(hour: int, minute: int, second: int): int {
    hour * 3_600_000 + minute * 60_000 + second * 1_000
  }

  function Ms(x: Text): int {
    DaysFromCivil(Number(x.year), Number(x.month), Number(x.day)) * 86_400_000
    + ClockMs(Number(x.hour), Number(x.minute), Number(x.second)) + FractionMs(x.fraction) - AheadMs(x.zone)
  }

  lemma DigitsAre(s: string, n: nat)
    ensures Digits(s, n) <==> |s| == n && AllDigits(s)
  {
    forall c: char ensures c in "0123456789" <==> '0' <= c <= '9' {
      var all := "0123456789";
      if '0' <= c <= '9' { assert all[c as int - 48] == c; }
    }
  }

  lemma NumbersAre(s: string)
    requires AllDigits(s)
    ensures |s| == 2 ==> Two(s) == Number(s)
    ensures |s| == 4 ==> Four(s) == Number(s)
    ensures |s| == 3 ==> Number(s) == 100 * Val(s[0]) + 10 * Val(s[1]) + Val(s[2])
  {
    assert Number("") == 0;
    if |s| >= 1 { assert s[..1] == [s[0]] && Number(s[..1]) == Val(s[0]) by { assert s[..1][..0] == ""; } }
    if |s| >= 2 { assert s[..2][..1] == s[..1] && Number(s[..2]) == 10 * Val(s[0]) + Val(s[1]); }
    if |s| >= 3 { assert s[..3][..2] == s[..2] && Number(s[..3]) == 10 * Number(s[..2]) + Val(s[2]); }
    if |s| == 4 { assert s[..4][..3] == s[..3] && Number(s[..4]) == 10 * Number(s[..3]) + Val(s[3]); }
    assert s[..|s|] == s;
  }

  lemma FractionsMean(fraction: Option<string>)
    requires fraction.Some? ==> 1 <= |fraction.value| <= 9 && AllDigits(fraction.value)
    ensures GoodFraction(RenderFraction(fraction)) && FractionMs(RenderFraction(fraction)) == Millis(fraction)
  {
    if fraction.Some? {
      var d := fraction.value;
      assert RenderFraction(fraction)[1..] == d;
      DigitsAre(d, |d|);
      var three := (d + "00")[..3];
      assert AllDigits(three);
      NumbersAre(three);
    }
  }

  lemma ZonesMean(z: Zone)
    requires z.Offset? ==> z.hours <= 23 && z.minutes <= 59
    ensures GoodZone(RenderZone(z)) && AheadMs(RenderZone(z)) == OffsetMinutes(z) * MS_PER_MINUTE
  {
    match z
    case Utc =>
    case Offset(minus, hours, minutes) =>
      var t := RenderZone(z);
      assert t[1..3] == Pad2(hours) && t[4..6] == Pad2(minutes) && t[3] == ':';
      DigitsAre(t[1..3], 2);
      DigitsAre(t[4..6], 2);
      NumbersAre(t[1..3]);
      NumbersAre(t[4..6]);
      assert t[0] in "+-" by { assert "+-"[0] == '+' && "+-"[1] == '-'; }
  }

  function TextOf(f: Fields): Text
    requires WellWritten(f)
  {
    Text(Pad4(f.year), Pad2(f.month), Pad2(f.day), Pad2(f.hour), Pad2(f.minute), Pad2(f.second),
         RenderFraction(f.fraction), RenderZone(f.zone))
  }

  lemma PartsMean(s: string)
    requires AllDigits(s) && (|s| == 2 || |s| == 4)
    ensures Digits(s, |s|) && Number(s) == if |s| == 2 then Two(s) else Four(s)
  {
    DigitsAre(s, |s|);
    NumbersAre(s);
  }

  lemma PadsMean(n: nat)
    ensures n < 100 ==> Digits(Pad2(n), 2) && Number(Pad2(n)) == n
    ensures n < 10000 ==> Digits(Pad4(n), 4) && Number(Pad4(n)) == n
  {
    if n < 100 { PartsMean(Pad2(n)); }
    if n < 10000 { PartsMean(Pad4(n)); }
  }

  lemma NumbersOf(f: Fields)
    requires WellWritten(f)
    ensures var x := TextOf(f);
            && Digits(x.year, 4) && Digits(x.month, 2) && Digits(x.day, 2)
            && Digits(x.hour, 2) && Digits(x.minute, 2) && Digits(x.second, 2)
            && Number(x.year) == f.year && Number(x.month) == f.month && Number(x.day) == f.day
            && Number(x.hour) == f.hour && Number(x.minute) == f.minute && Number(x.second) == f.second
  {
    PadsMean(f.year); PadsMean(f.month); PadsMean(f.day);
    PadsMean(f.hour); PadsMean(f.minute); PadsMean(f.second);
  }

  /** Valid fields and good texts are the same thing, and mean the same instant. */
  lemma FieldsMean(f: Fields)
    requires WellWritten(f) && Valid(f)
    ensures GoodText(TextOf(f)) && Written(TextOf(f)) == Render(f) && Ms(TextOf(f)) == Instant(f)
  {
    NumbersOf(f);
    DatesMean(f.year, f.month, f.day);
    FractionsMean(f.fraction);
    ZonesMean(f.zone);
    WrittenIsRendered(f);
    MsOf(f);
  }

  lemma MsOf(f: Fields)
    requires WellWritten(f) && Valid(f)
    ensures Ms(TextOf(f)) == Instant(f)
  {
    NumbersOf(f);
    DatesMean(f.year, f.month, f.day);
    FractionsMean(f.fraction);
    ZonesMean(f.zone);
    Sums(f, DaysFromCivil(f.year, f.month, f.day));
  }

  lemma Sums(f: Fields, days: int)
    requires WellWritten(f) && Valid(f) && days == DayNumber(f.year, f.month, f.day)
    ensures Instant(f) == days * 86_400_000 + ClockMs(f.hour, f.minute, f.second)
                          + Millis(f.fraction) - OffsetMinutes(f.zone) * MS_PER_MINUTE
  {
  }

  lemma WrittenIsRendered(f: Fields)
    requires WellWritten(f)
    ensures Written(TextOf(f)) == Render(f)
  {
    var x := TextOf(f);
    Separated(x.year, x.month, x.day, x.hour, x.minute, x.second);
    assert Written(x) == RenderDateTime(f) + x.fraction + x.zone;
  }

  lemma Separated(y: string, mo: string, d: string, h: string, mi: string, s: string)
    requires |y| == 4 && |mo| == |d| == |h| == |mi| == |s| == 2
    ensures y + "-" + mo + "-" + d + "T" + h + ":" + mi + ":" + s ==
              [y[0], y[1], y[2], y[3], '-', mo[0], mo[1], '-', d[0], d[1], 'T', h[0], h[1], ':', mi[0], mi[1], ':',
               s[0], s[1]]
  {
  }

  function ZoneOf(zone: string): Zone
    requires GoodZone(zone)
  {
    if zone == "Z" then Utc
    else
      DigitsAre(zone[1..3], 2);
      DigitsAre(zone[4..6], 2);
      Offset(zone[0] == '-', Two(zone[1..3]), Two(zone[4..6]))
  }

  lemma ZoneTexts(zone: string)
    requires GoodZone(zone)
    ensures var z := ZoneOf(zone); (z.Offset? ==> z.hours <= 23 && z.minutes <= 59) && RenderZone(z) == zone
  {
    if zone != "Z" {
      PadsBack(zone[1..3]);
      PadsBack(zone[4..6]);
      ZoneParts(zone);
      assert zone[0] == '+' || zone[0] == '-' by { assert "+-" == ['+', '-']; }
    }
  }

  lemma ZoneParts(zone: string)
    requires |zone| == 6 && zone[3] == ':'
    ensures zone == [zone[0]] + zone[1..3] + ":" + zone[4..6]
  {
  }

  function FractionOf(fraction: string): Option<string> {
    if fraction == "" then None else Some(fraction[1..])
  }

  lemma FractionTexts(fraction: string)
    requires GoodFraction(fraction)
    ensures var d := FractionOf(fraction);
            (d.Some? ==> 1 <= |d.value| <= 9 && AllDigits(d.value)) && RenderFraction(d) == fraction
  {
    if fraction != "" { DigitsAre(fraction[1..], |fraction| - 1); }
  }

  lemma TextsMean(x: Text)
    requires GoodText(x)
    ensures exists f :: WellWritten(f) && Valid(f) && TextOf(f) == x
  {
    TextNumbers(x);
    ZoneTexts(x.zone);
    FractionTexts(x.fraction);
    var f := Fields(Four(x.year), Two(x.month), Two(x.day), Two(x.hour), Two(x.minute), Two(x.second),
                    FractionOf(x.fraction), ZoneOf(x.zone));
    DatesMean(f.year, f.month, f.day);
    assert WellWritten(f) && Valid(f) && TextOf(f) == x;
  }

  lemma TextNumbers(x: Text)
    requires GoodText(x)
    ensures AllDigits(x.year) && AllDigits(x.month) && AllDigits(x.day)
    ensures AllDigits(x.hour) && AllDigits(x.minute) && AllDigits(x.second)
    ensures Four(x.year) == Number(x.year) && Four(x.year) < 10000 && Pad4(Four(x.year)) == x.year
    ensures Two(x.month) == Number(x.month) && Pad2(Two(x.month)) == x.month
    ensures Two(x.day) == Number(x.day) && Pad2(Two(x.day)) == x.day
    ensures Two(x.hour) == Number(x.hour) && Pad2(Two(x.hour)) == x.hour
    ensures Two(x.minute) == Number(x.minute) && Pad2(Two(x.minute)) == x.minute
    ensures Two(x.second) == Number(x.second) && Pad2(Two(x.second)) == x.second
    ensures Two(x.month) < 100 && Two(x.day) < 100
  {
    PadsBack(x.month); PadsBack(x.day); PadsBack(x.hour); PadsBack(x.minute); PadsBack(x.second);
    DigitsAre(x.year, 4);
    NumbersAre(x.year);
    PadFour(x.year);
  }

  lemma PadsBack(s: string)
    requires Digits(s, 2)
    ensures AllDigits(s) && Two(s) == Number(s) && Two(s) < 100 && Pad2(Two(s)) == s
  {
    DigitsAre(s, 2);
    NumbersAre(s);
    PadTwo(s);
  }

  /** What the parser accepts and what it returns, for every string: exactly the writings of a good text
      that do not lie before 1970, and their milliseconds. */
  lemma ParseMeans(s: string, t: nat)
    ensures Parse(s) == Some(t) <==> exists x :: GoodText(x) && Written(x) == s && Ms(x) == t
  {
    ParseAcceptsExactly(s, t);
    if f :| WellWritten(f) && Valid(f) && Render(f) == s && Instant(f) == t {
      FieldsMean(f);
      assert GoodText(TextOf(f)) && Written(TextOf(f)) == s && Ms(TextOf(f)) == t;
    }
    if x :| GoodText(x) && Written(x) == s && Ms(x) == t {
      TextsMean(x);
      var f :| WellWritten(f) && Valid(f) && TextOf(f) == x;
      FieldsMean(f);
    }
  }

  /** The same local time with a zone ahead of UTC is an earlier instant by that much, and with one behind
      a later one. */
  lemma OffsetsShift(x: Text, zone: string, t: nat, shifted: nat)
    requires GoodText(x) && x.zone == "Z" && GoodZone(zone) && shifted == t - AheadMs(zone)
    requires Parse(Written(x)) == Some(t)
    ensures Parse(Written(x.(zone := zone))) == Some(shifted)
  {
    ParsesTo(x, t);
    ZoneMs(x, zone);
    ParsesAs(x.(zone := zone), shifted);
  }

  lemma ZoneMs(x: Text, zone: string)
    requires GoodText(x) && x.zone == "Z" && GoodZone(zone)
    ensures GoodText(x.(zone := zone)) && Ms(x.(zone := zone)) == Ms(x) - AheadMs(zone)
  {
  }

  lemma ParsesAs(x: Text, t: nat)
    requires GoodText(x) && Ms(x) == t
    ensures Parse(Written(x)) == Some(t)
  {
    ParseMeans(Written(x), t);
  }

  lemma Ahead(sign: string, hours: string, minutes: string)
    requires sign == "-" || sign == "+"
    requires Digits(hours, 2) && Digits(minutes, 2) && Number(hours) < 24 && Number(minutes) < 60
    ensures var zone, ms := sign + hours + ":" + minutes, ClockMs(Number(hours), Number(minutes), 0);
            GoodZone(zone) && AheadMs(zone) == if sign == "-" then -ms else ms
  {
    var zone := sign + hours + ":" + minutes;
    Zoned(sign, hours, minutes);
    assert zone[0] in "+-" by { assert "+-"[0] == '+' && "+-"[1] == '-'; }
  }

  lemma Zoned(sign: string, hours: string, minutes: string)
    requires |sign| == 1 && |hours| == |minutes| == 2
    ensures var zone := sign + hours + ":" + minutes;
            |zone| == 6 && zone[0] == sign[0] && zone[1..3] == hours && zone[3] == ':' && zone[4..6] == minutes
  {
  }

  /** One text, one meaning. */
  lemma ParsesTo(x: Text, t: nat)
    requires GoodText(x) && Parse(Written(x)) == Some(t)
    ensures Ms(x) == t
  {
    TextsMean(x);
    var f :| WellWritten(f) && Valid(f) && TextOf(f) == x;
    FieldsMean(f);
    MatchReadsRender(f);
  }
}
