/** Times are stored as RFC 3339 text in UTC, whole seconds, and compared as text (section 5.1 of RFC 3339, years 0000
    to 9999). Comparing the text decides exactly like comparing the seconds, which is what the other modules do.
    `last` is the last year considered; the text has room for it as long as it is at most 9999. */
module Stamps {
  import opened Common
  import TextOrder
  import Protocol

  datatype Time = Time(year: nat, month: nat, day: nat, hour: nat, minute: nat, second: nat)

  predicate IsLeap(year: nat) {
    year % 4 == 0 && (year % 100 != 0 || year % 400 == 0)
  }

  function DaysInMonth(year: nat, month: nat): nat {
    if month == 2 then (if IsLeap(year) then 29 else 28)
    else if month == 4 || month == 6 || month == 9 || month == 11 then 30
    else 31
  }

  predicate IsTime(t: Time, last: nat) {
    && t.year <= last
    && 1 <= t.month <= 12 && 1 <= t.day <= DaysInMonth(t.year, t.month)
    && t.hour <= 23 && t.minute <= 59 && t.second <= 59
  }

  // ----- counting seconds -----

  function DaysBeforeMonth(year: nat, month: nat): nat {
    if month <= 1 then 0 else DaysBeforeMonth(year, month - 1) + DaysInMonth(year, month - 1)
  }

  function DaysBeforeYear(year: nat): nat {
    if year == 0 then 0 else DaysBeforeYear(year - 1) + DaysBeforeMonth(year - 1, 13)
  }

  function Days(t: Time): int {
    DaysBeforeYear(t.year) + DaysBeforeMonth(t.year, t.month) + t.day - 1
  }

  /** Seconds since the first second of year 0. */
  function Seconds(t: Time): int {
    86400 * Days(t) + 3600 * t.hour + 60 * t.minute + t.second
  }

  function End(last: nat): int {
    86400 * DaysBeforeYear(last + 1)
  }

  lemma {:induction false} MonthsGrow(year: nat, m: nat, n: nat)
    requires 1 <= m < n <= 13
    ensures DaysBeforeMonth(year, m) + DaysInMonth(year, m) <= DaysBeforeMonth(year, n)
  {
    if m + 1 < n {
      MonthsGrow(year, m, n - 1);
    }
  }

  lemma {:induction false} YearsGrow(y: nat, z: nat)
    requires y < z
    ensures DaysBeforeYear(y) + DaysBeforeMonth(y, 13) <= DaysBeforeYear(z)
  {
    if y + 1 < z {
      YearsGrow(y, z - 1);
    }
  }

  /** The Gregorian calendar in closed form: a leap day every four years, but not every hundred, but every four hundred;
      and the months from March on in the pattern of 153 days to five months. */
  lemma {:induction false} YearsClosed(y: nat)
    ensures DaysBeforeYear(y) == Closed(y)
  {
    if y > 0 {
      YearsClosed(y - 1);
      NextYear(y - 1);
    }
  }

  lemma NextYear(y: nat)
    requires DaysBeforeYear(y) == Closed(y)
    ensures DaysBeforeYear(y + 1) == Closed(y + 1)
  {
    assert DaysBeforeYear(y + 1) == DaysBeforeYear(y) + DaysBeforeMonth(y, 13);
    YearIs(y);
    OneYearMore(y);
  }

  lemma YearIs(y: nat)
    ensures DaysBeforeMonth(y, 13) == 365 + if y % 4 == 0 && (y % 100 != 0 || y % 400 == 0) then 1 else 0
  {
    MonthsClosed(y, 12);
    assert DaysBeforeMonth(y, 13) == DaysBeforeMonth(y, 12) + 31;
  }

  function Closed(y: nat): int {
    365 * y + (y + 3) / 4 - (y + 99) / 100 + (y + 399) / 400
  }

  lemma OneYearMore(y: nat)
    ensures Closed(y + 1) == Closed(y) + 365 + if y % 4 == 0 && (y % 100 != 0 || y % 400 == 0) then 1 else 0
  {
    FourthYears(y);
    HundredthYears(y);
    FourHundredthYears(y);
    Centuries(y);
    LeapYears(y % 4 == 0, y % 100 == 0, y % 400 == 0);
  }

  lemma LeapYears(fourth: bool, hundredth: bool, fourHundredth: bool)
    requires (fourHundredth ==> hundredth) && (hundredth ==> fourth)
    ensures (if fourth then 1 else 0) - (if hundredth then 1 else 0) + (if fourHundredth then 1 else 0) ==
              if fourth && (!hundredth || fourHundredth) then 1 else 0
  {
  }

  lemma Centuries(y: nat)
    ensures y % 100 == 0 ==> y % 4 == 0
    ensures y % 400 == 0 ==> y % 100 == 0
  {
    if y % 100 == 0 {
      assert y == 4 * (25 * (y / 100));
    }
    if y % 400 == 0 {
      assert y == 100 * (4 * (y / 400));
    }
  }

  lemma FourthYears(y: nat)
    ensures (y + 4) / 4 == (y + 3) / 4 + if y % 4 == 0 then 1 else 0
  {
    assert y == 4 * (y / 4) + y % 4;
  }

  lemma HundredthYears(y: nat)
    ensures (y + 100) / 100 == (y + 99) / 100 + if y % 100 == 0 then 1 else 0
  {
    assert y == 100 * (y / 100) + y % 100;
  }

  lemma FourHundredthYears(y: nat)
    ensures (y + 400) / 400 == (y + 399) / 400 + if y % 400 == 0 then 1 else 0
  {
  }

  lemma MonthsClosed(year: nat, month: nat)
    requires 1 <= month <= 12
    ensures DaysBeforeMonth(year, month) ==
              if month <= 2 then 31 * (month - 1)
              else 59 + (153 * (month - 3) + 2) / 5
                   + (if year % 4 == 0 && (year % 100 != 0 || year % 400 == 0) then 1 else 0)
  {
    if month > 1 {
      MonthsClosed(year, month - 1);
    }
  }

  /** Earlier in the calendar, field by field. */
  predicate Before(a: Time, b: Time) {
    || a.year < b.year
    || (a.year == b.year
        && (|| a.month < b.month
            || (a.month == b.month
                && (|| a.day < b.day
                    || (a.day == b.day
                        && (|| a.hour < b.hour
                            || (a.hour == b.hour
                                && (a.minute < b.minute || (a.minute == b.minute && a.second < b.second)))))))))
  }

  lemma DayBefore(a: Time, b: Time, last: nat)
    requires IsTime(a, last) && IsTime(b, last)
    requires a.year < b.year || (a.year == b.year && (a.month < b.month || (a.month == b.month && a.day < b.day)))
    ensures Days(a) < Days(b)
  {
    if a.year < b.year {
      YearsGrow(a.year, b.year);
      MonthsGrow(a.year, a.month, 13);
    } else if a.month < b.month {
      MonthsGrow(a.year, a.month, b.month);
    }
  }

  lemma BeforeIsFewer(a: Time, b: Time, last: nat)
    requires IsTime(a, last) && IsTime(b, last) && Before(a, b)
    ensures Seconds(a) < Seconds(b)
  {
    if a.year != b.year || a.month != b.month || a.day != b.day {
      DayBefore(a, b, last);
    }
  }

  lemma CalendarOrder(a: Time, b: Time, last: nat)
    requires IsTime(a, last) && IsTime(b, last)
    ensures Before(a, b) <==> Seconds(a) < Seconds(b)
    ensures a == b <==> Seconds(a) == Seconds(b)
  {
    if Before(a, b) {
      BeforeIsFewer(a, b, last);
    } else if Before(b, a) {
      BeforeIsFewer(b, a, last);
    }
  }

  // ----- every second has its time -----

  function Next(t: Time): Time {
    if t.second < 59 then t.(second := t.second + 1)
    else if t.minute < 59 then t.(minute := t.minute + 1, second := 0)
    else if t.hour < 23 then t.(hour := t.hour + 1, minute := 0, second := 0)
    else if t.day < DaysInMonth(t.year, t.month) then Time(t.year, t.month, t.day + 1, 0, 0, 0)
    else if t.month < 12 then Time(t.year, t.month + 1, 1, 0, 0, 0)
    else Time(t.year + 1, 1, 1, 0, 0, 0)
  }

  lemma NextIsOneMore(t: Time, last: nat)
    requires IsTime(t, last) && Seconds(t) + 1 < End(last)
    ensures IsTime(Next(t), last) && Seconds(Next(t)) == Seconds(t) + 1
  {
    if t.hour == 23 && t.minute == 59 && t.second == 59 {
      NextDay(t, last);
    }
  }

  /** At midnight the next day is one more, whether the month or the year ends. */
  lemma NextDay(t: Time, last: nat)
    requires IsTime(t, last) && t.hour == 23 && t.minute == 59 && t.second == 59 && Seconds(t) + 1 < End(last)
    ensures Next(t).hour == 0 && Next(t).minute == 0 && Next(t).second == 0
    ensures IsTime(Next(t), last) && Days(Next(t)) == Days(t) + 1
  {
    if t.day == DaysInMonth(t.year, t.month) {
      if t.month == 12 {
        assert DaysBeforeMonth(t.year, 13) == DaysBeforeMonth(t.year, 12) + 31;
        assert DaysBeforeYear(t.year + 1) == DaysBeforeYear(t.year) + DaysBeforeMonth(t.year, 13);
        assert DaysBeforeMonth(t.year + 1, 1) == 0;
      } else {
        assert DaysBeforeMonth(t.year, t.month + 1) == DaysBeforeMonth(t.year, t.month) + DaysInMonth(t.year, t.month);
      }
    }
  }

  /** The calendar time of a second. */
  function Calendar(n: nat): Time {
    if n == 0 then Time(0, 1, 1, 0, 0, 0) else Next(Calendar(n - 1))
  }

  lemma FirstSecond(last: nat)
    ensures IsTime(Calendar(0), last) && Seconds(Calendar(0)) == 0
  {
    var t := Calendar(0);
    assert t.year == 0 && t.month == 1;
    assert DaysBeforeYear(t.year) == 0;
    assert DaysBeforeMonth(t.year, t.month) == 0;
  }

  lemma {:induction false} CalendarIs(n: nat, last: nat)
    requires n < End(last)
    ensures IsTime(Calendar(n), last) && Seconds(Calendar(n)) == n
  {
    if n > 0 {
      CalendarIs(n - 1, last);
      NextIsOneMore(Calendar(n - 1), last);
      assert Calendar(n) == Next(Calendar(n - 1));
    } else {
      FirstSecond(last);
    }
  }

  // ----- the text -----

  function Power(width: nat): nat {
    if width == 0 then 1 else 10 * Power(width - 1)
  }

  function Digits(n: nat, width: nat): (text: string)
    ensures |text| == width
  {
    if width == 0 then "" else Digits(n / 10, width - 1) + ['0' + (n % 10) as char]
  }

  /** The layout 2006-01-02T15:04:05Z. */
  function Text(t: Time): string {
    Digits(t.year, 4) + ("-" + (Digits(t.month, 2) + ("-" + (Digits(t.day, 2) + ("T" +
      (Digits(t.hour, 2) + (":" + (Digits(t.minute, 2) + (":" + (Digits(t.second, 2) + "Z"))))))))))
  }

  /** The text of a time has its fields and the separators of RFC 3339 in their places. */
  lemma LayoutIs(t: Time)
    ensures |Text(t)| == 20
    ensures Text(t)[..4] == Digits(t.year, 4) && Text(t)[4] == '-' && Text(t)[5..7] == Digits(t.month, 2) && Text(t)[7] == '-'
    ensures Text(t)[8..10] == Digits(t.day, 2) && Text(t)[10] == 'T' && Text(t)[11..13] == Digits(t.hour, 2) && Text(t)[13] == ':'
    ensures Text(t)[14..16] == Digits(t.minute, 2) && Text(t)[16] == ':' && Text(t)[17..19] == Digits(t.second, 2)
    ensures Text(t)[19] == 'Z'
  {
    var d := Digits(t.day, 2) + ("T" + Clock(t));
    var mo := Digits(t.month, 2) + ("-" + d);
    Part(Text(t), 0, t.year, 4, '-', mo);
    Part(Text(t), 5, t.month, 2, '-', d);
    Part(Text(t), 8, t.day, 2, 'T', Clock(t));
    ClockIs(t);
    assert Text(t)[11..] == Clock(t);
  }

  function Clock(t: Time): string {
    Digits(t.hour, 2) + (":" + (Digits(t.minute, 2) + (":" + (Digits(t.second, 2) + "Z"))))
  }

  lemma ClockIs(t: Time)
    ensures |Clock(t)| == 9
    ensures Clock(t)[..2] == Digits(t.hour, 2) && Clock(t)[2] == ':' && Clock(t)[3..5] == Digits(t.minute, 2) && Clock(t)[5] == ':'
    ensures Clock(t)[6..8] == Digits(t.second, 2) && Clock(t)[8] == 'Z'
  {
    var s := Digits(t.second, 2) + "Z";
    assert "Z" + "" == "Z";
    Part(Clock(t), 0, t.hour, 2, ':', Digits(t.minute, 2) + (":" + s));
    Part(Clock(t), 3, t.minute, 2, ':', s);
    Part(Clock(t), 6, t.second, 2, 'Z', "");
  }

  /** A stamp has no bar in it, which is what keeps the cursors made of it readable. */
  lemma NoBar(t: Time)
    ensures '|' !in Text(t)
  {
    var s := Digits(t.second, 2) + "Z";
    assert '|' !in s by {
      assert "Z" + "" == "Z";
      NoBarThen(t.second, 2, 'Z', "");
    }
    NoBarThen(t.minute, 2, ':', s);
    NoBarThen(t.hour, 2, ':', Digits(t.minute, 2) + (":" + s));
    var d := Digits(t.day, 2) + ("T" + Clock(t));
    NoBarThen(t.day, 2, 'T', Clock(t));
    NoBarThen(t.month, 2, '-', d);
    NoBarThen(t.year, 4, '-', Digits(t.month, 2) + ("-" + d));
  }

  lemma NoBarThen(n: nat, width: nat, separator: char, rest: string)
    requires separator != '|' && '|' !in rest
    ensures '|' !in Digits(n, width) + ([separator] + rest)
  {
    DigitsAre(n, width);
  }

  /** A field and the separator after it, at their place in the text. */
  lemma Part(text: string, at: nat, n: nat, width: nat, separator: char, rest: string)
    requires at <= |text| && text[at..] == Digits(n, width) + ([separator] + rest)
    ensures |text| == at + width + 1 + |rest|
    ensures text[at..at + width] == Digits(n, width) && text[at + width] == separator && text[at + width + 1..] == rest
  {
    var tail := text[at..];
    assert tail[..width] == Digits(n, width) && tail[width] == separator && tail[width + 1..] == rest;
  }

  lemma {:induction false} DigitsAre(n: nat, width: nat)
    ensures forall j | 0 <= j < width :: '0' <= Digits(n, width)[j] <= '9'
    ensures width > 0 ==> Digits(n, width)[width - 1] == '0' + (n % 10) as char
  {
    if width > 0 {
      DigitsAre(n / 10, width - 1);
    }
  }

  /** Texts of one length are compared part by part. */
  lemma {:induction false} LessParts(a: string, b: string, x: string, y: string)
    requires |a| == |b|
    ensures TextOrder.Less(a + x, b + y) <==> TextOrder.Less(a, b) || (a == b && TextOrder.Less(x, y))
  {
    if a == [] {
      assert a + x == x && b + y == y;
    } else {
      assert (a + x)[1..] == a[1..] + x && (b + y)[1..] == b[1..] + y;
      LessParts(a[1..], b[1..], x, y);
      assert a == [a[0]] + a[1..] && b == [b[0]] + b[1..];
    }
  }

  lemma {:induction false} DigitsOrder(m: nat, n: nat, width: nat)
    requires m < Power(width) && n < Power(width)
    ensures TextOrder.Less(Digits(m, width), Digits(n, width)) <==> m < n
    ensures Digits(m, width) == Digits(n, width) <==> m == n
  {
    if width > 0 {
      DigitsOrder(m / 10, n / 10, width - 1);
      var c, d := '0' + (m % 10) as char, '0' + (n % 10) as char;
      LessParts(Digits(m / 10, width - 1), Digits(n / 10, width - 1), [c], [d]);
      assert TextOrder.Less([c], [d]) <==> m % 10 < n % 10;
      assert Digits(m, width)[width - 1] == c && Digits(n, width)[width - 1] == d;
      assert Digits(m, width)[..width - 1] == Digits(m / 10, width - 1);
      assert Digits(n, width)[..width - 1] == Digits(n / 10, width - 1);
    }
  }

  lemma Powers()
    ensures Power(2) == 100 && Power(4) == 10000
  {
    assert Power(2) == 10 * Power(1);
    assert Power(4) == 10 * Power(3);
  }

  /** One field and the separator after it. */
  lemma Field(m: nat, n: nat, width: nat, separator: char, x: string, y: string)
    requires m < Power(width) && n < Power(width)
    ensures TextOrder.Less(Digits(m, width) + ([separator] + x), Digits(n, width) + ([separator] + y))
            <==> m < n || (m == n && TextOrder.Less(x, y))
  {
    DigitsOrder(m, n, width);
    LessParts(Digits(m, width), Digits(n, width), [separator] + x, [separator] + y);
    LessParts([separator], [separator], x, y);
    TextOrder.Irreflexive([separator]);
  }

  lemma TextIsCalendarOrder(a: Time, b: Time, last: nat)
    requires last <= 9999
    requires IsTime(a, last) && IsTime(b, last)
    ensures TextOrder.Less(Text(a), Text(b)) <==> Before(a, b)
  {
    Powers();
    var s, s' := Digits(a.second, 2) + "Z", Digits(b.second, 2) + "Z";
    assert "Z" + "" == "Z";
    Field(a.second, b.second, 2, 'Z', "", "");
    var mi, mi' := Digits(a.minute, 2) + (":" + s), Digits(b.minute, 2) + (":" + s');
    Field(a.minute, b.minute, 2, ':', s, s');
    var h, h' := Digits(a.hour, 2) + (":" + mi), Digits(b.hour, 2) + (":" + mi');
    Field(a.hour, b.hour, 2, ':', mi, mi');
    var d, d' := Digits(a.day, 2) + ("T" + h), Digits(b.day, 2) + ("T" + h');
    Field(a.day, b.day, 2, 'T', h, h');
    var mo, mo' := Digits(a.month, 2) + ("-" + d), Digits(b.month, 2) + ("-" + d');
    Field(a.month, b.month, 2, '-', d, d');
    Field(a.year, b.year, 4, '-', mo, mo');
  }

  // ----- the results -----

  /** Comparing stamps as text is comparing instants in whole seconds. */
  lemma StampOrder(a: Time, b: Time, last: nat)
    requires last <= 9999
    requires IsTime(a, last) && IsTime(b, last)
    ensures TextOrder.Less(Text(a), Text(b)) <==> Seconds(a) < Seconds(b)
    ensures Text(a) == Text(b) <==> a == b
    ensures TextOrder.Less("", Text(a))
  {
    TextIsCalendarOrder(a, b, last);
    TextIsCalendarOrder(b, a, last);
    CalendarOrder(a, b, last);
    CalendarOrder(b, a, last);
    TextOrder.Irreflexive(Text(a));
  }

  const SECOND := 1_000_000_000

  /** What is stored for an instant in nanoseconds: the fraction of a second is cut off. */
  function Format(instant: nat): string
  {
    Text(Calendar(instant / SECOND))
  }

  /** Text decides exactly like whole seconds, and a lease of whole seconds ends that many seconds later. */
  lemma FormatOrder(x: nat, y: nat, lease: nat, last: nat)
    requires last <= 9999
    requires x / 1_000_000_000 < End(last) && y / 1_000_000_000 < End(last)
    ensures TextOrder.Less(Format(x), Format(y)) <==> x / 1_000_000_000 < y / 1_000_000_000
    ensures Format(x) == Format(y) <==> x / 1_000_000_000 == y / 1_000_000_000
    ensures (x + lease * 1_000_000_000) / 1_000_000_000 == x / 1_000_000_000 + lease
  {
    CalendarIs(x / SECOND, last);
    CalendarIs(y / SECOND, last);
    StampOrder(Calendar(x / SECOND), Calendar(y / SECOND), last);
  }

  /** What a column of an optional time holds: the empty text when there is none. */
  function Column(time: Option<int>): string
    requires time.Some? ==> 0 <= time.value
  {
    if time.None? then "" else Text(Calendar(time.value))
  }

  /** "lease <= now" on the columns is what the protocol's steps test on seconds. */
  lemma ColumnDecides(lease: Option<int>, now: int, last: nat)
    requires last <= 9999
    requires lease.Some? ==> 0 <= lease.value < End(last)
    requires 0 <= now < End(last)
    ensures TextOrder.AtMost(Column(lease), Column(Some(now))) <==> Protocol.Over(lease, now)
    ensures TextOrder.Less(Column(Some(now)), Column(lease)) <==> !Protocol.Over(lease, now)
  {
    CalendarIs(now, last);
    StampOrder(Calendar(now), Calendar(now), last);
    if lease.Some? {
      CalendarIs(lease.value, last);
      StampOrder(Calendar(lease.value), Calendar(now), last);
      StampOrder(Calendar(now), Calendar(lease.value), last);
    }
  }
}
