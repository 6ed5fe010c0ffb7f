/** UTC timestamps as the event store writes them, and why comparing the text compares the instants. */
module Timestamps {

  datatype DateTime = DateTime(year: int, month: int, day: int, hour: int, minute: int, second: int, micro: int)

  predicate IsLeap(y: int) {
    y % 4 == 0 && (y % 100 != 0 || y % 400 == 0)
  }

  function LeapDay(y: int): int {
    if IsLeap(y) then 1 else 0
  }

  function DaysInMonth(y: int, m: int): int
    requires 1 <= m <= 12
  {
    if m == 2 then 28 + LeapDay(y) else if m == 4 || m == 6 || m == 9 || m == 11 then 30 else 31
  }

  function DaysBeforeYear(y: int): int {
    (y - 1) * 365 + (y - 1) / 4 - (y - 1) / 100 + (y - 1) / 400
  }

  function DaysBeforeMonth(y: int, m: int): int
    requires 1 <= m <= 12
  {
    [0, 31, 59, 90, 120, 151, 181, 212, 243, 273, 304, 334][m - 1] + (if m > 2 then LeapDay(y) else 0)
  }

  predicate Valid(t: DateTime) {
    && 1 <= t.year <= 9999
    && 1 <= t.month <= 12
    && 1 <= t.day <= DaysInMonth(t.year, t.month)
    && 0 <= t.hour < 24 && 0 <= t.minute < 60 && 0 <= t.second < 60
    && 0 <= t.micro < 1_000_000
  }

  /** Days since 1 January of year 1 in the proleptic Gregorian calendar. */
  function Ordinal(t: DateTime): int
    requires Valid(t)
  {
    DaysBeforeYear(t.year) + DaysBeforeMonth(t.year, t.month) + t.day - 1
  }

  function Seconds(t: DateTime): int
    requires Valid(t)
  {
    Ordinal(t) * 86400 + t.hour * 3600 + t.minute * 60 + t.second
  }

  function Micros(t: DateTime): int
    requires Valid(t)
  {
    Seconds(t) * 1_000_000 + t.micro
  }

  function Digit(d: int): char
    requires 0 <= d < 10
  {
    '0' + d as char
  }

  function Pad2(n: int): string
    requires 0 <= n < 100
  {
    [Digit(n / 10), Digit(n % 10)]
  }

  /** `isoformat(timespec="seconds")` of an aware UTC time: the microseconds are dropped. */
  function Stamp(t: DateTime): string
    requires Valid(t)
  {
    Pad2(t.year / 100) + (Pad2(t.year % 100) + ("-" + (Pad2(t.month) + ("-" + (Pad2(t.day)
    + ("T" + (Pad2(t.hour) + (":" + (Pad2(t.minute) + (":" + (Pad2(t.second) + "+00:00")))))))))))
  }

  /** The number that two digits of a stamp spell. */
  function Number(s: string, i: nat): int
    requires i + 1 < |s|
  {
    10 * (s[i] as int - '0' as int) + (s[i + 1] as int - '0' as int)
  }

  /** A stamp spells year, month, day, hour, minute and second at fixed places, and UTC as its zone. */
  lemma StampSpells(t: DateTime)
    requires Valid(t)
    ensures var s := Stamp(t);
            && |s| == 25 && s[4] == s[7] == '-' && s[10] == 'T' && s[13] == s[16] == ':' && s[19..] == "+00:00"
            && 100 * Number(s, 0) + Number(s, 2) == t.year && Number(s, 5) == t.month && Number(s, 8) == t.day
            && Number(s, 11) == t.hour && Number(s, 14) == t.minute && Number(s, 17) == t.second
  {
  }

  /** The order in which SQLite compares text. */
  predicate TextLess(a: string, b: string) {
    if a == "" then b != ""
    else if b == "" then false
    else a[0] < b[0] || (a[0] == b[0] && TextLess(a[1..], b[1..]))
  }

  lemma SameCharLess(c: char, a: string, b: string)
    ensures TextLess([c] + a, [c] + b) <==> TextLess(a, b)
  {
    assert ([c] + a)[1..] == a && ([c] + b)[1..] == b;
  }

  lemma Pad2Less(x: int, y: int, a: string, b: string)
    requires 0 <= x < 100 && 0 <= y < 100
    ensures TextLess(Pad2(x) + a, Pad2(y) + b) <==> x < y || (x == y && TextLess(a, b))
  {
    assert (Pad2(x) + a)[1..] == [Digit(x % 10)] + a;
    assert (Pad2(y) + b)[1..] == [Digit(y % 10)] + b;
    assert ([Digit(x % 10)] + a)[1..] == a && ([Digit(y % 10)] + b)[1..] == b;
  }

  predicate Earlier(x: DateTime, y: DateTime) {
    || x.year < y.year
    || (x.year == y.year && (x.month < y.month
    || (x.month == y.month && (x.day < y.day
    || (x.day == y.day && (x.hour < y.hour
    || (x.hour == y.hour && (x.minute < y.minute
    || (x.minute == y.minute && x.second < y.second)))))))))
  }

  lemma TimeOfDayText(x: DateTime, y: DateTime)
    requires Valid(x) && Valid(y)
    ensures TextLess("T" + (Pad2(x.hour) + (":" + (Pad2(x.minute) + (":" + (Pad2(x.second) + "+00:00"))))),
                     "T" + (Pad2(y.hour) + (":" + (Pad2(y.minute) + (":" + (Pad2(y.second) + "+00:00"))))))
      <==> x.hour < y.hour || (x.hour == y.hour && (x.minute < y.minute
           || (x.minute == y.minute && x.second < y.second)))
  {
    var x2, y2 := Pad2(x.second) + "+00:00", Pad2(y.second) + "+00:00";
    var x1, y1 := Pad2(x.minute) + (":" + x2), Pad2(y.minute) + (":" + y2);
    var zone := "+00:00";
    assert forall s: string :: s == zone ==> !TextLess(s, s) by { TextIrreflexive(zone); }
    Pad2Less(x.second, y.second, "+00:00", "+00:00");
    SameCharLess(':', x2, y2);
    Pad2Less(x.minute, y.minute, ":" + x2, ":" + y2);
    SameCharLess(':', x1, y1);
    Pad2Less(x.hour, y.hour, ":" + x1, ":" + y1);
    SameCharLess('T', Pad2(x.hour) + (":" + x1), Pad2(y.hour) + (":" + y1));
  }

  lemma {:induction false} TextIrreflexive(s: string)
    ensures !TextLess(s, s)
  {
    if s != "" {
      TextIrreflexive(s[1..]);
    }
  }

  lemma StampText(x: DateTime, y: DateTime)
    requires Valid(x) && Valid(y)
    ensures TextLess(Stamp(x), Stamp(y)) <==> Earlier(x, y)
  {
    TimeOfDayText(x, y);
    var xt := "T" + (Pad2(x.hour) + (":" + (Pad2(x.minute) + (":" + (Pad2(x.second) + "+00:00")))));
    var yt := "T" + (Pad2(y.hour) + (":" + (Pad2(y.minute) + (":" + (Pad2(y.second) + "+00:00")))));
    var xd, yd := Pad2(x.day) + xt, Pad2(y.day) + yt;
    var xm, ym := Pad2(x.month) + ("-" + xd), Pad2(y.month) + ("-" + yd);
    Pad2Less(x.day, y.day, xt, yt);
    SameCharLess('-', xd, yd);
    Pad2Less(x.month, y.month, "-" + xd, "-" + yd);
    SameCharLess('-', xm, ym);
    Pad2Less(x.year % 100, y.year % 100, "-" + xm, "-" + ym);
    Pad2Less(x.year / 100, y.year / 100, Pad2(x.year % 100) + ("-" + xm), Pad2(y.year % 100) + ("-" + ym));
  }

  lemma {:induction false} YearsInOrder(x: int, y: int)
    requires 1 <= x < y
    ensures DaysBeforeYear(x) + 365 + LeapDay(x) <= DaysBeforeYear(y)
  {
    assert DaysBeforeYear(x + 1) == DaysBeforeYear(x) + 365 + LeapDay(x) by { YearLength(x); }
    if x + 1 < y {
      YearsInOrder(x, y - 1);
      YearLength(y - 1);
    }
  }

  lemma YearLength(y: int)
    requires 1 <= y
    ensures DaysBeforeYear(y + 1) == DaysBeforeYear(y) + 365 + LeapDay(y)
  {
    assert y / 4 == (y - 1) / 4 + (if y % 4 == 0 then 1 else 0);
    assert y / 100 == (y - 1) / 100 + (if y % 100 == 0 then 1 else 0);
    assert y / 400 == (y - 1) / 400 + (if y % 400 == 0 then 1 else 0);
    assert y % 400 == 0 ==> y % 100 == 0;
    assert y % 100 == 0 ==> y % 4 == 0;
  }

  lemma DatesInOrder(x: DateTime, y: DateTime)
    requires Valid(x) && Valid(y)
    requires x.year < y.year || (x.year == y.year && (x.month < y.month || (x.month == y.month && x.day < y.day)))
    ensures Ordinal(x) < Ordinal(y)
  {
    assert DaysBeforeMonth(x.year, x.month) + DaysInMonth(x.year, x.month) <= 365 + LeapDay(x.year);
    if x.year < y.year {
      YearsInOrder(x.year, y.year);
    } else if x.month < y.month {
      assert DaysBeforeMonth(x.year, x.month) + DaysInMonth(x.year, x.month) <= DaysBeforeMonth(x.year, y.month);
    }
  }

  lemma InstantsInOrder(x: DateTime, y: DateTime)
    requires Valid(x) && Valid(y) && Earlier(x, y)
    ensures Seconds(x) < Seconds(y)
  {
    if x.year == y.year && x.month == y.month && x.day == y.day {
    } else {
      DatesInOrder(x, y);
    }
  }

  /** Comparing two stored timestamps as text compares the whole seconds they denote, for every
      pair of times in years 1 to 9999 (section 5.1 of RFC 3339). */
  lemma StampOrder(x: DateTime, y: DateTime)
    requires Valid(x) && Valid(y)
    ensures TextLess(Stamp(x), Stamp(y)) <==> Seconds(x) < Seconds(y)
  {
    StampText(x, y);
    if Earlier(x, y) {
      InstantsInOrder(x, y);
    } else if Earlier(y, x) {
      InstantsInOrder(y, x);
    }
  }

  const MICROS_PER_DAY := 86400 * 1_000_000

  /** A row stamped at `event` survives a prune whose cutoff lies `days` before `now` only if it is
      less than a second past the window, and always if it lies inside the window. */
  lemma RetentionIsExact(event: DateTime, now: DateTime, cutoff: DateTime, days: int)
    requires Valid(event) && Valid(now) && Valid(cutoff)
    requires Micros(cutoff) == Micros(now) - days * MICROS_PER_DAY
    ensures Micros(event) >= Micros(now) - days * MICROS_PER_DAY ==> !TextLess(Stamp(event), Stamp(cutoff))
    ensures !TextLess(Stamp(event), Stamp(cutoff)) ==> Micros(event) > Micros(now) - days * MICROS_PER_DAY - 1_000_000
    ensures !TextLess(Stamp(event), Stamp(cutoff)) <==> Micros(event) >= Micros(cutoff) - cutoff.micro
  {
    StampOrder(event, cutoff);
  }
}
