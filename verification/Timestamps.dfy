/** The text the stores keep for a time: time.RFC3339 in the time's own zone, cut to whole seconds. */
module Timestamps {
  import opened Wrappers

  const NANOS := 1_000_000_000
  const DAY := 86_400

  /** The days of the years 0000 to 9999: RFC 3339 has no text for later ones. */
  const DAYS := 3_652_425

  /** Nanoseconds since the start of year 0000. */
  type Instant = n: int | 0 <= n && n / NANOS / DAY < DAYS

  /** Minutes east of UTC, less than a day. */
  type Zone = m: int | -1440 < m < 1440

  /** An instant and the zone it is told in. */
  datatype Moment = Moment(at: Instant, zone: Zone)

  /** Seconds since the start of year 0000 as a clock of the zone shows them. */
  function LocalSeconds(t: Moment): int {
    t.at / NANOS + 60 * t.zone
  }

  /** Go's time.Time, as far as RFC 3339 has a text for it. */
  type Time = t: Moment | 0 <= LocalSeconds(t) && LocalSeconds(t) / DAY < DAYS
    witness FIRST

  const FIRST := Moment(0, 0)

  function UTC(at: Instant): Time {
    Moment(at, 0)
  }

  datatype Civil = Civil(year: nat, month: nat, day: nat, hour: nat, minute: nat, second: nat)

  predicate IsLeap(year: nat) {
    year % 4 == 0 && (year % 100 != 0 || year % 400 == 0)
  }

  function DaysInYear(year: nat): nat {
    if IsLeap(year) then 366 else 365
  }

  function DaysInMonth(year: nat, month: nat): nat {
    if month == 2 then (if IsLeap(year) then 29 else 28)
    else if month == 4 || month == 6 || month == 9 || month == 11 then 30
    else 31
  }

  function DaysBeforeYear(year: nat): nat {
    if year == 0 then 0 else DaysBeforeYear(year - 1) + DaysInYear(year - 1)
  }

  function DaysBeforeMonth(year: nat, month: nat): nat {
    if month <= 1 then 0 else DaysBeforeMonth(year, month - 1) + DaysInMonth(year, month - 1)
  }

  predicate Valid(c: Civil) {
    && c.year <= 9999 && 1 <= c.month <= 12 && 1 <= c.day <= DaysInMonth(c.year, c.month)
    && c.hour < 24 && c.minute < 60 && c.second < 60
  }

  function DayNumber(c: Civil): int {
    DaysBeforeYear(c.year) + DaysBeforeMonth(c.year, c.month) + c.day - 1
  }

  /** Whole seconds since the start of year 0000. */
  function Seconds(c: Civil): int {
    DayNumber(c) * DAY + c.hour * 3600 + c.minute * 60 + c.second
  }

  // ----- From seconds to the calendar -----

  lemma {:induction false} YearsGrow(a: nat, b: nat)
    requires a <= b
    ensures DaysBeforeYear(a) + (b - a) * 365 <= DaysBeforeYear(b)
    decreases b - a
  {
    if a < b {
      YearsGrow(a, b - 1);
    }
  }

  lemma {:induction false} QuotientIs(n: nat, d: nat, q: nat)
    requires d > 0 && d * q <= n < d * q + d
    ensures n / d == q && n % d == n - d * q
  {
    var more := n / d - q;
    assert d * more + n % d == n - d * q;
    assert more > 0 ==> d * more >= d;
    assert more < 0 ==> d * more + d <= 0;
  }

  lemma NextMultiple(d: nat, q: int)
    ensures d * (q + 1) == d * q + d
  {
  }

  lemma {:induction false} QuotientStep(n: nat, d: nat)
    requires d > 0
    ensures (n + d) / d == (n + d - 1) / d + if n % d == 0 then 1 else 0
  {
    var q := n / d;
    NextMultiple(d, q);
    NextMultiple(d, q + 1);
    QuotientIs(n + d, d, q + 1);
    QuotientIs(n + d - 1, d, if n % d == 0 then q else q + 1);
  }

  lemma {:induction false} CenturiesAreFourths(n: nat)
    ensures n % 400 == 0 ==> n % 100 == 0
    ensures n % 100 == 0 ==> n % 4 == 0
  {
    if n % 400 == 0 {
      QuotientIs(n, 100, 4 * (n / 400));
    }
    if n % 100 == 0 {
      QuotientIs(n, 4, 25 * (n / 100));
    }
  }

  lemma {:induction false} DaysInClosedForm(year: nat)
    ensures DaysBeforeYear(year) == 365 * year + (year + 3) / 4 - (year + 99) / 100 + (year + 399) / 400
    decreases year
  {
    if year > 0 {
      var n := year - 1;
      DaysInClosedForm(n);
      QuotientStep(n, 4);
      QuotientStep(n, 100);
      QuotientStep(n, 400);
      CenturiesAreFourths(n);
    }
  }

  /** DAYS is the number of days before the year 10000. */
  lemma {:induction false} DaysOfAllYears(year: nat)
    ensures year == 10_000 ==> DaysBeforeYear(year) == DAYS
    ensures year >= 10_000 ==> DaysBeforeYear(year) >= DAYS
  {
    DaysInClosedForm(year);
  }

  lemma {:induction false} MonthsGrow(year: nat, a: nat, b: nat)
    requires 1 <= a <= b
    ensures a < b ==> DaysBeforeMonth(year, a) + DaysInMonth(year, a) <= DaysBeforeMonth(year, b)
    decreases b - a
  {
    if a + 1 < b {
      MonthsGrow(year, a, b - 1);
    }
  }

  lemma YearIsTwelveMonths(year: nat)
    ensures DaysBeforeMonth(year, 13) == DaysInYear(year)
  {
    var march := DaysBeforeMonth(year, 3);
    assert DaysBeforeMonth(year, 2) == 31;
    assert march == 31 + DaysInMonth(year, 2);
    assert DaysBeforeMonth(year, 5) == march + 61;
    assert DaysBeforeMonth(year, 7) == march + 122;
    assert DaysBeforeMonth(year, 9) == march + 184;
    assert DaysBeforeMonth(year, 11) == march + 245;
  }

  /** The days before a month, in closed form. */
  lemma {:induction false} MonthsInClosedForm(year: nat, month: nat)
    requires 1 <= month <= 12
    ensures DaysBeforeMonth(year, month) == (367 * month - 362) / 12 -
      if month <= 2 then 0 else if year % 4 == 0 && (year % 100 != 0 || year % 400 == 0) then 1 else 2
    decreases month
  {
    if month > 1 {
      MonthsInClosedForm(year, month - 1);
    }
  }

  /** The year a day falls in, searched from an earlier year. */
  function YearOf(day: nat, from: nat): (y: nat)
    requires DaysBeforeYear(from) <= day
    ensures from <= y && DaysBeforeYear(y) <= day < DaysBeforeYear(y + 1)
    decreases day - DaysBeforeYear(from)
  {
    if day < DaysBeforeYear(from + 1) then from else YearOf(day, from + 1)
  }

  /** The month a day of the year falls in, searched from an earlier month. */
  function MonthOf(year: nat, day: nat, from: nat): (m: nat)
    requires 1 <= from <= 12 && DaysBeforeMonth(year, from) <= day < DaysInYear(year)
    ensures from <= m <= 12 && DaysBeforeMonth(year, m) <= day < DaysBeforeMonth(year, m + 1)
    decreases 12 - from
  {
    YearIsTwelveMonths(year);
    if day < DaysBeforeMonth(year, from + 1) then from else MonthOf(year, day, from + 1)
  }

  function DateOf(day: nat): (c: Civil)
    requires day < DAYS
    ensures Valid(c) && DayNumber(c) == day && c.hour == c.minute == c.second == 0
  {
    var y := YearOf(day, 0);
    DaysOfAllYears(y);
    var rest := day - DaysBeforeYear(y);
    var m := MonthOf(y, rest, 1);
    Civil(y, m, rest - DaysBeforeMonth(y, m) + 1, 0, 0, 0)
  }

  lemma ClockAddsUp(time: nat)
    requires time < DAY
    ensures time / 3600 < 24 && time / 3600 * 3600 + time / 60 % 60 * 60 + time % 60 == time
  {
    assert time / 60 / 60 == time / 3600;
    assert time / 60 == time / 3600 * 60 + time / 60 % 60;
  }

  /** The calendar reading of a number of seconds. */
  function CivilOf(seconds: nat): (c: Civil)
    requires seconds / DAY < DAYS
    ensures Valid(c) && Seconds(c) == seconds
  {
    var day, time := seconds / DAY, seconds % DAY;
    var date := DateOf(day);
    ClockAddsUp(time);
    var c := Civil(date.year, date.month, date.day, time / 3600, time / 60 % 60, time % 60);
    assert DayNumber(c) == day;
    c
  }

  // ----- Calendar order is the order of seconds -----

  /** The first field that differs decides. */
  ghost predicate Before(a: Civil, b: Civil) {
    a.year < b.year || (a.year == b.year && (a.month < b.month || (a.month == b.month &&
    (a.day < b.day || (a.day == b.day && (a.hour < b.hour || (a.hour == b.hour &&
    (a.minute < b.minute || (a.minute == b.minute && a.second < b.second)))))))))
  }

  lemma {:induction false} DateFits(c: Civil)
    requires Valid(c)
    ensures DayNumber(c) < DaysBeforeYear(c.year + 1)
  {
    YearIsTwelveMonths(c.year);
    MonthsGrow(c.year, c.month, 13);
  }

  lemma {:induction false} BeforeIsEarlier(a: Civil, b: Civil)
    requires Valid(a) && Valid(b) && Before(a, b)
    ensures Seconds(a) < Seconds(b)
  {
    if a.year < b.year {
      DateFits(a);
      YearsGrow(a.year + 1, b.year);
    } else if a.month < b.month {
      MonthsGrow(a.year, a.month, b.month);
    }
  }

  lemma OneOrderOnly(a: Civil, b: Civil)
    ensures Before(a, b) || a == b || Before(b, a)
  {
  }

  // ----- The text -----

  function Digit(d: nat): char
    requires d < 10
  {
    '0' + d as char
  }

  /** n in exactly k decimal digits. */
  function Digits(n: nat, k: nat): (s: string)
    ensures |s| == k
  {
    if k == 0 then "" else Digits(n / 10, k - 1) + [Digit(n % 10)]
  }

  /** A field of k digits, its separator and the rest of the text. */
  function Written(n: nat, k: nat, sep: string, rest: string): (s: string)
    ensures |s| == k + |sep| + |rest|
  {
    Digits(n, k) + (sep + rest)
  }

  /** Z, or the offset from UTC in hours and minutes. */
  function Suffix(zone: Zone): (s: string)
    ensures |s| == if zone == 0 then 1 else 6
  {
    if zone == 0 then "Z"
    else
      var size := if zone < 0 then -zone else zone;
      [if zone < 0 then '-' else '+'] + Written(size / 60, 2, ":", Digits(size % 60, 2))
  }

  function TimeText(c: Civil, zone: Zone): (s: string)
    ensures |s| == 8 + |Suffix(zone)|
  {
    Written(c.hour, 2, ":", Written(c.minute, 2, ":", Written(c.second, 2, "", Suffix(zone))))
  }

  function Text(c: Civil, zone: Zone): (s: string)
    ensures |s| == 19 + |Suffix(zone)|
  {
    Written(c.year, 4, "-", Written(c.month, 2, "-", Written(c.day, 2, "T", TimeText(c, zone))))
  }

  /** t.Format(time.RFC3339). */
  function Format(t: Time): (s: string)
    ensures |s| >= 20
  {
    Text(CivilOf(LocalSeconds(t)), t.zone)
  }

  /** How SQLite compares text: character by character. */
  predicate TextLess(a: string, b: string) {
    if a == "" || b == "" then a == "" && b != ""
    else a[0] < b[0] || (a[0] == b[0] && TextLess(a[1..], b[1..]))
  }

  /** Equally long beginnings decide unless they are equal. */
  lemma {:induction false} LessByParts(p: string, x: string, q: string, y: string)
    requires |p| == |q|
    ensures TextLess(p + x, q + y) <==> TextLess(p, q) || (p == q && TextLess(x, y))
    decreases |p|
  {
    if |p| == 0 {
      assert p + x == x && q + y == y;
    } else {
      LessByParts(p[1..], x, q[1..], y);
      assert (p + x)[1..] == p[1..] + x && (q + y)[1..] == q[1..] + y;
      assert p[0] == q[0] && p[1..] == q[1..] ==> p == q by {
        assert p == [p[0]] + p[1..] && q == [q[0]] + q[1..];
      }
    }
  }

  function Power10(k: nat): nat {
    if k == 0 then 1 else 10 * Power10(k - 1)
  }

  lemma {:induction false} DigitsOrder(m: nat, n: nat, k: nat)
    requires m < Power10(k) && n < Power10(k)
    ensures TextLess(Digits(m, k), Digits(n, k)) <==> m < n
    ensures Digits(m, k) == Digits(n, k) <==> m == n
    decreases k
  {
    if k > 0 {
      DigitsOrder(m / 10, n / 10, k - 1);
      var p, q := Digits(m / 10, k - 1), Digits(n / 10, k - 1);
      LessByParts(p, [Digit(m % 10)], q, [Digit(n % 10)]);
      assert Digits(m, k)[..k - 1] == p && Digits(n, k)[..k - 1] == q;
      assert Digits(m, k)[k - 1] == Digit(m % 10) && Digits(n, k)[k - 1] == Digit(n % 10);
    }
  }

  /** One more separated field: it decides after an equal beginning. */
  lemma {:induction false} FieldDecides(m: nat, n: nat, k: nat, sep: string, x: string, y: string)
    requires m < Power10(k) && n < Power10(k)
    ensures TextLess(Written(m, k, sep, x), Written(n, k, sep, y)) <==> m < n || (m == n && TextLess(x, y))
  {
    DigitsOrder(m, n, k);
    LessByParts(Digits(m, k), sep + x, Digits(n, k), sep + y);
    LessByParts(sep, x, sep, y);
    TextIrreflexive(sep);
  }

  lemma {:induction false} TextOrderIsBefore(a: Civil, y: Zone, b: Civil, z: Zone)
    requires Valid(a) && Valid(b)
    ensures TextLess(Text(a, y), Text(b, z)) <==> Before(a, b) || (a == b && TextLess(Suffix(y), Suffix(z)))
  {
    var a5, b5 := Written(a.second, 2, "", Suffix(y)), Written(b.second, 2, "", Suffix(z));
    var a4, b4 := Written(a.minute, 2, ":", a5), Written(b.minute, 2, ":", b5);
    var a2, b2 := Written(a.day, 2, "T", TimeText(a, y)), Written(b.day, 2, "T", TimeText(b, z));
    var a1, b1 := Written(a.month, 2, "-", a2), Written(b.month, 2, "-", b2);
    assert Power10(2) == 100 && Power10(4) == 10000;
    FieldDecides(a.second, b.second, 2, "", Suffix(y), Suffix(z));
    FieldDecides(a.minute, b.minute, 2, ":", a5, b5);
    FieldDecides(a.hour, b.hour, 2, ":", a4, b4);
    FieldDecides(a.day, b.day, 2, "T", TimeText(a, y), TimeText(b, z));
    FieldDecides(a.month, b.month, 2, "-", a2, b2);
    FieldDecides(a.year, b.year, 4, "-", a1, b1);
  }

  /** Stored texts compare as the clocks of their zones do, and by their zones' texts at last. */
  lemma {:induction false} TextOrderIsLocal(s: Time, t: Time)
    ensures TextLess(Format(s), Format(t)) <==>
      || LocalSeconds(s) < LocalSeconds(t)
      || (LocalSeconds(s) == LocalSeconds(t) && TextLess(Suffix(s.zone), Suffix(t.zone)))
  {
    var a, b := CivilOf(LocalSeconds(s)), CivilOf(LocalSeconds(t));
    TextOrderIsBefore(a, s.zone, b, t.zone);
    OneOrderOnly(a, b);
    if Before(a, b) {
      BeforeIsEarlier(a, b);
    } else if Before(b, a) {
      BeforeIsEarlier(b, a);
    }
  }

  /** In UTC comparing stored text agrees with comparing whole seconds, for all instants of the years
      0000 to 9999 (section 5.1 of RFC 3339). */
  lemma {:induction false} TextOrderIsTimeOrder(s: Instant, t: Instant)
    ensures TextLess(Format(UTC(s)), Format(UTC(t))) <==> s / NANOS < t / NANOS
    ensures Format(UTC(s)) == Format(UTC(t)) <==> s / NANOS == t / NANOS
  {
    TextOrderIsLocal(UTC(s), UTC(t));
    TextOrderIsLocal(UTC(t), UTC(s));
    TextIrreflexive("Z");
    TextIrreflexive(Format(UTC(s)));
  }

  /** A time told in another zone is as text later than the same clock reading in UTC would be. */
  lemma {:induction false} TextAgainstUTC(t: Time, since: Instant)
    ensures !TextLess(Format(t), Format(UTC(since))) <==>
      LocalSeconds(t) > since / NANOS || (LocalSeconds(t) == since / NANOS && t.zone == 0)
  {
    TextOrderIsLocal(t, UTC(since));
    TextIrreflexive("Z");
  }

  lemma UTCTells(t: Time, since: Instant)
    requires t.zone == 0
    ensures TextTells(t, since)
  {
    TextAgainstUTC(t, since);
  }

  /** To the east of UTC the text is at or after that of the next second. */
  lemma {:induction false} EastMisleads(t: Time)
    requires t.zone > 0
    ensures exists since: Instant :: !TextTells(t, since)
  {
    var next := t.at / NANOS + 1;
    WholeSeconds(next);
    assert next <= LocalSeconds(t);
    var since: Instant := next * NANOS;
    TextAgainstUTC(t, since);
    assert !TextTells(t, since);
  }

  /** Whether the text of a time is at or after that of since says whether its second is, for every
      since told in UTC, exactly when the time itself is told in UTC. */
  lemma {:induction false} TextTellsIffUTC(t: Time)
    ensures (forall since: Instant :: TextTells(t, since)) <==> t.zone == 0
  {
    if t.zone == 0 {
      forall since: Instant ensures TextTells(t, since) {
        UTCTells(t, since);
      }
    } else if t.zone > 0 {
      EastMisleads(t);
    } else {
      TextAgainstUTC(t, t.at);
      assert !TextTells(t, t.at);
    }
  }

  ghost predicate TextTells(t: Time, since: Instant) {
    !TextLess(Format(t), Format(UTC(since))) <==> t.at / NANOS >= since / NANOS
  }

  lemma {:induction false} TextIrreflexive(s: string)
    ensures !TextLess(s, s)
    decreases |s|
  {
    if s != "" {
      TextIrreflexive(s[1..]);
    }
  }

  // ----- Reading it back -----

  /** A time without its fraction of a second. */
  function CutToSecond(t: Time): Time {
    WholeSeconds(t.at / NANOS);
    Moment(t.at / NANOS * NANOS, t.zone)
  }

  /** The number some digits write; other characters count as 0. */
  function Number(s: string): nat {
    if s == "" then 0 else
      var ch := s[|s| - 1];
      10 * Number(s[..|s| - 1]) + if '0' <= ch <= '9' then (ch - '0') as nat else 0
  }

  lemma {:induction false} NumberReads(n: nat, k: nat)
    requires n < Power10(k)
    ensures Number(Digits(n, k)) == n
    decreases k
  {
    if k > 0 {
      NumberReads(n / 10, k - 1);
      assert Digits(n, k)[..k - 1] == Digits(n / 10, k - 1);
    }
  }

  /** The zone some text ends with. */
  function ZoneOf(s: string): int
    requires |s| == 1 || |s| == 6
  {
    if |s| == 1 then 0
    else
      var size := 60 * Number(s[1..3]) + Number(s[4..6]);
      if s[0] == '-' then -size else size
  }

  lemma {:induction false} ZoneReads(zone: Zone)
    ensures ZoneOf(Suffix(zone)) == zone
  {
    if zone != 0 {
      var size, s := if zone < 0 then -zone else zone, Suffix(zone);
      assert Power10(2) == 100 && size == size / 60 * 60 + size % 60;
      NumberReads(size / 60, 2);
      NumberReads(size % 60, 2);
      assert s[1..3] == Digits(size / 60, 2) && s[4..6] == Digits(size % 60, 2);
    }
  }

  lemma WholeSeconds(seconds: int)
    ensures seconds * NANOS / NANOS == seconds
  {
  }

  /** The time a clock reading in a zone stands for, if it is in range. */
  function MomentOf(c: Civil, zone: int): Option<Time> {
    var seconds := Seconds(c) - 60 * zone;
    if -1440 < zone < 1440 && 0 <= seconds && seconds / DAY < DAYS
      && 0 <= Seconds(c) && Seconds(c) / DAY < DAYS
    then
      WholeSeconds(seconds);
      Some(Moment(seconds * NANOS, zone))
    else None
  }

  /** time.Parse(time.RFC3339, ·) on what Format writes; None for every other text. */
  function Parse(s: string): Option<Time> {
    if |s| != 20 && |s| != 25 then None else
      var c := Civil(Number(s[..4]), Number(s[5..7]), Number(s[8..10]),
                     Number(s[11..13]), Number(s[14..16]), Number(s[17..19]));
      var t := MomentOf(c, ZoneOf(s[19..]));
      if Valid(c) && t.Some? && Text(c, t.value.zone) == s then t else None
  }

  /** The first field of a text, and where the rest begins. */
  lemma WrittenParts(n: nat, k: nat, sep: string, rest: string)
    requires n < Power10(k)
    ensures Number(Written(n, k, sep, rest)[..k]) == n
    ensures Written(n, k, sep, rest)[k + |sep|..] == rest
  {
    NumberReads(n, k);
    assert Written(n, k, sep, rest)[..k] == Digits(n, k);
  }

  lemma Cut(s: string, from: nat, i: nat, j: nat)
    requires from + i <= from + j <= |s|
    ensures s[from + i..from + j] == s[from..][i..j]
  {
  }

  /** A two-digit field, a separator or none, and a rest that reads as given. */
  lemma ClockField(n: nat, sep: string, rest: string, s: string)
    requires n < 100 && |sep| <= 1 && s == Written(n, 2, sep, rest)
    ensures Number(s[..2]) == n
    ensures s[2 + |sep|..] == rest
    ensures forall i, j :: 0 <= i <= j <= |rest| ==> s[2 + |sep| + i..2 + |sep| + j] == rest[i..j]
  {
    assert Power10(2) == 100;
    WrittenParts(n, 2, sep, rest);
    forall i, j | 0 <= i <= j <= |rest| ensures s[2 + |sep| + i..2 + |sep| + j] == rest[i..j] {
      Cut(s, 2 + |sep|, i, j);
    }
  }

  lemma {:induction false} TimeParts(c: Civil, zone: Zone)
    requires Valid(c)
    ensures var s := TimeText(c, zone);
      && Number(s[..2]) == c.hour && Number(s[3..5]) == c.minute && Number(s[6..8]) == c.second
      && s[8..] == Suffix(zone)
  {
    var seconds := Written(c.second, 2, "", Suffix(zone));
    var minutes := Written(c.minute, 2, ":", seconds);
    ClockField(c.second, "", Suffix(zone), seconds);
    ClockField(c.minute, ":", seconds, minutes);
    ClockField(c.hour, ":", minutes, TimeText(c, zone));
    assert minutes[0..2] == minutes[..2] && minutes[3..5] == seconds[0..2] == seconds[..2];
    assert minutes[5..] == seconds[2..];
  }

  lemma {:induction false} DateParts(c: Civil, zone: Zone)
    requires Valid(c)
    ensures var s := Text(c, zone);
      && Number(s[..4]) == c.year && Number(s[5..][..2]) == c.month && Number(s[8..][..2]) == c.day
      && s[11..] == TimeText(c, zone)
  {
    var time := TimeText(c, zone);
    var days := Written(c.day, 2, "T", time);
    FieldsThen(c.year, c.month, days, Text(c, zone));
    ClockField(c.day, "T", time, days);
    assert Text(c, zone)[8..][3..] == Text(c, zone)[11..];
  }

  /** The first two fields of a date. */
  lemma {:induction false} FieldsThen(year: nat, month: nat, rest: string, s: string)
    requires year < 10_000 && month < 100 && s == Written(year, 4, "-", Written(month, 2, "-", rest))
    ensures Number(s[..4]) == year && Number(s[5..][..2]) == month && s[8..] == rest
  {
    var months := Written(month, 2, "-", rest);
    assert Power10(4) == 10000;
    WrittenParts(year, 4, "-", months);
    ClockField(month, "-", rest, months);
    assert s[5..][3..] == s[8..];
  }

  lemma {:induction false} TextDate(c: Civil, zone: Zone, s: string)
    requires Valid(c) && s == Text(c, zone)
    ensures Number(s[..4]) == c.year && Number(s[5..7]) == c.month && Number(s[8..10]) == c.day
  {
    DateParts(c, zone);
    Cut(s, 5, 0, 2);
    Cut(s, 8, 0, 2);
  }

  lemma {:induction false} TextTime(c: Civil, zone: Zone, s: string)
    requires Valid(c) && s == Text(c, zone)
    ensures Number(s[11..13]) == c.hour && Number(s[14..16]) == c.minute && Number(s[17..19]) == c.second
    ensures s[19..] == Suffix(zone)
  {
    DateParts(c, zone);
    TimeParts(c, zone);
    Cut(s, 11, 0, 2);
    Cut(s, 11, 3, 5);
    Cut(s, 11, 6, 8);
    assert s[11..][8..] == s[19..];
  }

  lemma {:induction false} TextParts(c: Civil, zone: Zone)
    requires Valid(c)
    ensures var s := Text(c, zone);
      && Number(s[..4]) == c.year && Number(s[5..7]) == c.month && Number(s[8..10]) == c.day
      && Number(s[11..13]) == c.hour && Number(s[14..16]) == c.minute && Number(s[17..19]) == c.second
      && s[19..] == Suffix(zone)
  {
    TextDate(c, zone, Text(c, zone));
    TextTime(c, zone, Text(c, zone));
  }

  lemma MomentReads(c: Civil, t: Time)
    requires Seconds(c) == LocalSeconds(t)
    ensures MomentOf(c, t.zone) == Some(CutToSecond(t))
  {
  }

  /** Reading back what was written gives the time cut to its second, in its zone. */
  lemma {:induction false} ParseFormat(t: Time)
    ensures Parse(Format(t)) == Some(CutToSecond(t))
  {
    TextParts(CivilOf(LocalSeconds(t)), t.zone);
    ZoneReads(t.zone);
    MomentReads(CivilOf(LocalSeconds(t)), t);
  }

  // ----- The layout of the text -----

  /** A digit wherever the layout has a 0, and everywhere else the layout's own character. */
  ghost predicate LaidOut(s: string, layout: string) {
    |s| == |layout| && forall i :: 0 <= i < |s| ==> if layout[i] == '0' then '0' <= s[i] <= '9' else s[i] == layout[i]
  }

  ghost predicate Zeros(s: string) {
    forall i :: 0 <= i < |s| ==> s[i] == '0'
  }

  lemma {:induction false} DigitsLaidOut(n: nat, k: nat, zeros: string)
    requires |zeros| == k && Zeros(zeros)
    ensures LaidOut(Digits(n, k), zeros)
    decreases k
  {
    if k > 0 {
      DigitsLaidOut(n / 10, k - 1, zeros[..k - 1]);
    }
  }

  /** One more field in front, with its separator. */
  lemma {:induction false} FieldLaidOut(n: nat, k: nat, sep: string, rest: string, head: string, layout: string)
    requires |head| == k + |sep| && Zeros(head[..k]) && head[k..] == sep && '0' !in sep && LaidOut(rest, layout)
    ensures LaidOut(Written(n, k, sep, rest), head + layout)
  {
    DigitsLaidOut(n, k, head[..k]);
    var s, whole := Written(n, k, sep, rest), head + layout;
    forall i | 0 <= i < |s| ensures if whole[i] == '0' then '0' <= s[i] <= '9' else s[i] == whole[i] {
      if i < k {
        assert s[i] == Digits(n, k)[i] && whole[i] == head[..k][i];
      } else if i < k + |sep| {
        assert s[i] == sep[i - k] == whole[i] && sep[i - k] in sep;
      } else {
        assert s[i] == rest[i - |head|] && whole[i] == layout[i - |head|];
      }
    }
  }

  /** Z for UTC, otherwise the offset. */
  function ZoneLayout(zone: Zone): string {
    if zone == 0 then "Z" else if zone < 0 then "-00:00" else "+00:00"
  }

  lemma {:induction false} ZoneLaidOut(zone: Zone)
    ensures LaidOut(Suffix(zone), ZoneLayout(zone))
  {
    if zone != 0 {
      var size := if zone < 0 then -zone else zone;
      DigitsLaidOut(size % 60, 2, "00");
      FieldLaidOut(size / 60, 2, ":", Digits(size % 60, 2), "00:", "00");
      assert Suffix(zone)[1..] == Written(size / 60, 2, ":", Digits(size % 60, 2));
      assert forall i :: 1 <= i < 6 ==> Suffix(zone)[i] == Suffix(zone)[1..][i - 1];
      assert forall i :: 1 <= i < 6 ==> ZoneLayout(zone)[i] == ("00:" + "00")[i - 1];
    }
  }

  lemma {:induction false} TimeLaidOut(c: Civil, zone: Zone)
    ensures LaidOut(TimeText(c, zone), "00:" + ("00:" + ("00" + ZoneLayout(zone))))
  {
    var layout := ZoneLayout(zone);
    var seconds := Written(c.second, 2, "", Suffix(zone));
    ZoneLaidOut(zone);
    FieldLaidOut(c.second, 2, "", Suffix(zone), "00", layout);
    FieldLaidOut(c.minute, 2, ":", seconds, "00:", "00" + layout);
    FieldLaidOut(c.hour, 2, ":", Written(c.minute, 2, ":", seconds), "00:", "00:" + ("00" + layout));
  }

  lemma {:induction false} TextLaidOut(c: Civil, zone: Zone, time: string)
    requires LaidOut(TimeText(c, zone), time)
    ensures LaidOut(Text(c, zone), "0000-" + ("00-" + ("00T" + time)))
  {
    var days := Written(c.day, 2, "T", TimeText(c, zone));
    FieldLaidOut(c.day, 2, "T", TimeText(c, zone), "00T", time);
    FieldLaidOut(c.month, 2, "-", days, "00-", "00T" + time);
    FieldLaidOut(c.year, 4, "-", Written(c.month, 2, "-", days), "0000-", "00-" + ("00T" + time));
  }

  /** The stored text is laid out as RFC 3339 (section 5.6) asks, and its fields are the date and the
      time of day that a Gregorian calendar and a clock of the zone show. */
  lemma {:induction false} TextIsRFC3339(t: Time, s: string) returns (c: Civil)
    requires s == Format(t)
    ensures LaidOut(s, "0000-" + ("00-" + ("00T" + ("00:" + ("00:" + ("00" +
      if t.zone == 0 then "Z" else if t.zone < 0 then "-00:00" else "+00:00"))))))
    ensures Valid(c) && Seconds(c) == LocalSeconds(t)
    ensures Number(s[..4]) == c.year && Number(s[5..7]) == c.month && Number(s[8..10]) == c.day
    ensures Number(s[11..13]) == c.hour && Number(s[14..16]) == c.minute && Number(s[17..19]) == c.second
    ensures ZoneOf(s[19..]) == t.zone
  {
    c := CivilOf(LocalSeconds(t));
    TimeLaidOut(c, t.zone);
    TextLaidOut(c, t.zone, "00:" + ("00:" + ("00" + ZoneLayout(t.zone))));
    TextParts(c, t.zone);
    ZoneReads(t.zone);
  }

  /** Seconds are counted in the Gregorian calendar. */
  lemma {:induction false} SecondsAreGregorian(c: Civil)
    requires Valid(c)
    ensures var leap := c.year % 4 == 0 && (c.year % 100 != 0 || c.year % 400 == 0);
      Seconds(c) == 60 * (60 * (24 * (
          365 * c.year + (c.year + 3) / 4 - (c.year + 99) / 100 + (c.year + 399) / 400
          + (367 * c.month - 362) / 12 - (if c.month <= 2 then 0 else if leap then 1 else 2)
          + c.day - 1) + c.hour) + c.minute) + c.second
  {
    DaysInClosedForm(c.year);
    MonthsInClosedForm(c.year, c.month);
  }
}
