/**
 * Calendar and clock abstractions shared by the server and the client.
 *
 * A calendar day is an integer day number (day 0 is 1970-01-01, a
 * Thursday); a time of day is a number of minutes since midnight; an
 * instant is an absolute number of minutes. The wire formats the source
 * uses ("HH:mm:ss" times, "YYYY-MM-DD" dates) are given by FormatTime and
 * FormatIsoDate, each with its parser and a round-trip lemma, so that
 * comparing the strings is the same as comparing the numbers.
 */
module Clock {
  import opened Wrappers
  import opened Js

  const MinutesPerDay: int := 1440

  /** A time of day, in minutes since midnight. */
  type Minute = t: int | 0 <= t < 1440

  /** The booking window shared by all rooms: 10:00 to 22:00. */
  const OpeningTime: Minute := 600
  const ClosingTime: Minute := 1320

  /** The absolute instant, in minutes, of a time on a day. */
  function Instant(day: int, time: int): int
  {
    day * MinutesPerDay + time
  }

  lemma InstantOrder(d1: int, t1: Minute, d2: int, t2: Minute)
    ensures Instant(d1, t1) < Instant(d2, t2) <==> d1 < d2 || (d1 == d2 && t1 < t2)
  {
  }

  // ---------------------------------------------------------------------
  // The slot lattice

  /**
   * The starts from `t` on, stepping by `duration`: a start is kept as long
   * as it is before closing time and the slot it begins ends by closing time.
   */
  function LatticeFrom(t: int, duration: int): seq<int>
    requires duration > 0
    decreases ClosingTime - t
  {
    if t < ClosingTime && t + duration <= ClosingTime then [t] + LatticeFrom(t + duration, duration) else []
  }

  /** The start times of the slots of a room with the given duration. */
  function Lattice(duration: int): seq<int>
    requires duration > 0
  {
    LatticeFrom(OpeningTime, duration)
  }

  /**
   * LatticeFrom(t, d) is exactly t, t + d, t + 2d, ... while the slot fits:
   * every start ends by closing time, and the next start would not.
   */
  lemma {:induction false} LatticeFromShape(t: int, duration: int)
    requires duration > 0
    ensures var l := LatticeFrom(t, duration);
      (forall i :: 0 <= i < |l| ==> l[i] == t + i * duration) &&
      (|l| > 0 ==> t + |l| * duration <= ClosingTime) &&
      t + (|l| + 1) * duration > ClosingTime
    decreases ClosingTime - t
  {
    var l := LatticeFrom(t, duration);
    if t < ClosingTime && t + duration <= ClosingTime {
      var rest := LatticeFrom(t + duration, duration);
      LatticeFromShape(t + duration, duration);
      assert l == [t] + rest;
      forall i | 0 <= i < |l| ensures l[i] == t + i * duration {
        if i > 0 {
          assert l[i] == rest[i - 1] == t + duration + (i - 1) * duration;
        }
      }
      assert t + duration + (|rest| + 1) * duration == t + (|l| + 1) * duration;
      if |rest| > 0 {
        assert t + duration + |rest| * duration == t + |l| * duration;
      }
    }
  }

  /** Every start of the lattice lies in the booking window. */
  lemma LatticeBounds(duration: int, i: int)
    requires duration > 0 && 0 <= i < |Lattice(duration)|
    ensures Lattice(duration)[i] == OpeningTime + i * duration
    ensures OpeningTime <= Lattice(duration)[i]
    ensures Lattice(duration)[i] + duration <= ClosingTime
  {
    var l := Lattice(duration);
    LatticeFromShape(OpeningTime, duration);
    assert OpeningTime + |l| * duration <= ClosingTime;
    MulLe(i + 1, |l|, duration);
    assert (i + 1) * duration == i * duration + duration;
  }

  lemma MulLe(a: int, b: int, d: int)
    requires a <= b && d >= 0
    ensures a * d <= b * d
  {
    assert b * d - a * d == (b - a) * d;
  }

  /** The lattice has floor(720 / duration) starts. */
  lemma LatticeCount(duration: int)
    requires duration > 0
    ensures |Lattice(duration)| == (ClosingTime - OpeningTime) / duration
  {
    var n := |Lattice(duration)|;
    LatticeFromShape(OpeningTime, duration);
    assert n * duration <= ClosingTime - OpeningTime < (n + 1) * duration;
    DivisionByBounds(ClosingTime - OpeningTime, duration, n);
  }

  lemma DivisionByBounds(x: int, d: int, n: int)
    requires d > 0 && n * d <= x < (n + 1) * d
    ensures x / d == n
  {
    var q, r := x / d, x % d;
    assert x == q * d + r && 0 <= r < d;
    if q < n {
      MulLe(q + 1, n, d);
    } else if q > n {
      MulLe(n + 1, q, d);
    }
  }

  lemma MultipleMod(k: int, d: int)
    requires k >= 0 && d > 0
    ensures (k * d) % d == 0 && (k * d) / d == k
  {
    MulLe(0, k, d);
    assert k * d < (k + 1) * d;
    DivisionByBounds(k * d, d, k);
  }

  /** A whole number of durations after opening whose slot ends by closing time is an index of the lattice. */
  lemma LatticeIndex(duration: int, k: int)
    requires duration > 0 && k >= 0 && OpeningTime + k * duration + duration <= ClosingTime
    ensures k < |Lattice(duration)|
  {
    var l := Lattice(duration);
    LatticeFromShape(OpeningTime, duration);
    assert (k + 1) * duration == k * duration + duration;
    if k >= |l| {
      MulLe(|l| + 1, k + 1, duration);
    }
  }

  lemma LatticeMemberBounds(duration: int, t: int)
    requires duration > 0 && t in Lattice(duration)
    ensures OpeningTime <= t && t + duration <= ClosingTime && (t - OpeningTime) % duration == 0
  {
    var l := Lattice(duration);
    var i :| 0 <= i < |l| && l[i] == t;
    LatticeBounds(duration, i);
    MultipleMod(i, duration);
  }

  lemma LatticeMemberOfBounds(duration: int, t: int)
    requires duration > 0
    requires OpeningTime <= t && t + duration <= ClosingTime && (t - OpeningTime) % duration == 0
    ensures t in Lattice(duration)
  {
    var k := (t - OpeningTime) / duration;
    assert t - OpeningTime == k * duration;
    assert k >= 0;
    LatticeIndex(duration, k);
    LatticeBounds(duration, k);
  }

  /**
   * The starts of the lattice are exactly the times at or after opening, a
   * whole number of durations after it, whose slot ends by closing time.
   */
  lemma LatticeMember(duration: int, t: int)
    requires duration > 0
    ensures t in Lattice(duration) <==>
      OpeningTime <= t && t + duration <= ClosingTime && (t - OpeningTime) % duration == 0
  {
    if t in Lattice(duration) {
      LatticeMemberBounds(duration, t);
    }
    if OpeningTime <= t && t + duration <= ClosingTime && (t - OpeningTime) % duration == 0 {
      LatticeMemberOfBounds(duration, t);
    }
  }

  /** The lattice is strictly increasing. */
  lemma LatticeIncreasing(duration: int, i: int, j: int)
    requires duration > 0 && 0 <= i < j < |Lattice(duration)|
    ensures Lattice(duration)[i] < Lattice(duration)[j]
  {
    LatticeBounds(duration, i);
    LatticeBounds(duration, j);
    MulLe(i + 1, j, duration);
  }

  /** A 60-minute room has 12 starts, 10:00 to 21:00. */
  lemma LatticeOfHour()
    ensures |Lattice(60)| == 12 && Lattice(60)[0] == 600 && Lattice(60)[11] == 1260
  {
    LatticeCount(60);
    LatticeBounds(60, 0);
    LatticeBounds(60, 11);
  }

  /** A 90-minute room has 8 starts, the last at 20:30. */
  lemma LatticeOfNinetyMinutes()
    ensures |Lattice(90)| == 8 && Lattice(90)[7] == 1230
  {
    LatticeCount(90);
    LatticeBounds(90, 7);
  }

  // ---------------------------------------------------------------------
  // "HH:mm:ss"

  function TwoDigits(n: nat): (s: string)
    requires n < 100
    ensures |s| == 2 && AllDigits(s)
  {
    [DigitChar(n / 10), DigitChar(n % 10)]
  }

  /** The value of the two digits at position `k` of `s`. */
  function TwoDigitValue(s: string, k: nat): nat
    requires k + 2 <= |s| && IsDigit(s[k]) && IsDigit(s[k + 1])
  {
    10 * DigitValue(s[k]) + DigitValue(s[k + 1])
  }

  /** A time as the server's `toTimeString()` and dayjs's `format("HH:mm:ss")` write it. */
  function FormatTime(t: Minute): (s: string)
    ensures |s| == 8
  {
    TwoDigits(t / 60) + ":" + TwoDigits(t % 60) + ":00"
  }

  /** Reads "HH:mm:00" back into minutes; anything else is not a model time. */
  function ParseTime(s: string): Option<Minute>
  {
    if |s| == 8 && s[2] == ':' && s[5] == ':' && s[6] == '0' && s[7] == '0'
       && IsDigit(s[0]) && IsDigit(s[1]) && IsDigit(s[3]) && IsDigit(s[4])
       && TwoDigitValue(s, 0) < 24 && TwoDigitValue(s, 3) < 60
    then Some(60 * TwoDigitValue(s, 0) + TwoDigitValue(s, 3))
    else None
  }

  /** Formatting and parsing a time are inverse to each other. */
  lemma ParseFormatTime(t: Minute)
    ensures ParseTime(FormatTime(t)) == Some(t)
  {
    var s := FormatTime(t);
    assert TwoDigitValue(s, 0) == t / 60;
    assert TwoDigitValue(s, 3) == t % 60;
  }

  lemma FormatParseTime(s: string)
    requires ParseTime(s).Some?
    ensures FormatTime(ParseTime(s).value) == s
  {
    var t := ParseTime(s).value;
    var h, m := TwoDigitValue(s, 0), TwoDigitValue(s, 3);
    assert t / 60 == h && t % 60 == m;
    var f := FormatTime(t);
    assert f[0] == s[0] && f[1] == s[1] && f[3] == s[3] && f[4] == s[4];
    assert f == s;
  }

  lemma FormatTimeInjective(a: Minute, b: Minute)
    ensures FormatTime(a) == FormatTime(b) <==> a == b
  {
    ParseFormatTime(a);
    ParseFormatTime(b);
  }

  lemma StringLessSame(a: string, b: string, k: nat)
    requires k <= |a| && k <= |b| && a[..k] == b[..k]
    ensures StringLess(a, b) == StringLess(a[k..], b[k..])
    decreases k
  {
    if k > 0 {
      assert a[0] == b[0];
      StringLessSame(a[1..], b[1..], k - 1);
      assert a[1..][k - 1..] == a[k..];
      assert b[1..][k - 1..] == b[k..];
    }
  }

  lemma StringLessDiff(a: string, b: string, k: nat)
    requires k < |a| && k < |b| && a[..k] == b[..k] && a[k] != b[k]
    ensures StringLess(a, b) == (a[k] < b[k])
  {
    StringLessSame(a, b, k);
    assert a[k..][0] == a[k] && b[k..][0] == b[k];
  }

  lemma StringLessIrreflexive(a: string)
    ensures !StringLess(a, a)
  {
    if a != [] { StringLessIrreflexive(a[1..]); }
  }

  /** The four digits of a time as "HH:mm" writes them. */
  function TimeDigits(t: Minute): seq<int>
  {
    [t / 60 / 10, t / 60 % 10, t % 60 / 10, t % 60 % 10]
  }

  /** Earlier times have lexicographically smaller digits. */
  lemma TimeDigitsOrder(a: Minute, b: Minute)
    ensures var p, q := TimeDigits(a), TimeDigits(b);
      a < b <==>
        p[0] < q[0] || (p[0] == q[0] && p[1] < q[1]) ||
        (p[0] == q[0] && p[1] == q[1] && p[2] < q[2]) ||
        (p[0] == q[0] && p[1] == q[1] && p[2] == q[2] && p[3] < q[3])
  {
    var ha, hb, ma, mb := a / 60, b / 60, a % 60, b % 60;
    assert a == 60 * ha + ma && b == 60 * hb + mb;
    assert ha == 10 * (ha / 10) + ha % 10 && hb == 10 * (hb / 10) + hb % 10;
    assert ma == 10 * (ma / 10) + ma % 10 && mb == 10 * (mb / 10) + mb % 10;
  }

  /** The characters of "HH:mm:00" at positions 0, 1, 3 and 4 are the time's digits. */
  lemma FormatTimeChars(t: Minute)
    ensures var x, d := FormatTime(t), TimeDigits(t);
      x[0] == DigitChar(d[0]) && x[1] == DigitChar(d[1]) && x[2] == ':' &&
      x[3] == DigitChar(d[2]) && x[4] == DigitChar(d[3])
  {
  }

  lemma DigitCharOrder(p: nat, q: nat)
    requires p < 10 && q < 10
    ensures DigitChar(p) < DigitChar(q) <==> p < q
    ensures DigitChar(p) == DigitChar(q) <==> p == q
  {
  }

  /** On "HH:mm:ss" strings, JavaScript's `<` is the order of the times. */
  lemma {:induction false} FormatTimeOrder(a: Minute, b: Minute)
    ensures StringLess(FormatTime(a), FormatTime(b)) <==> a < b
  {
    var x, y := FormatTime(a), FormatTime(b);
    var p, q := TimeDigits(a), TimeDigits(b);
    TimeDigitsOrder(a, b);
    FormatTimeChars(a);
    FormatTimeChars(b);
    DigitCharOrder(p[0], q[0]);
    DigitCharOrder(p[1], q[1]);
    DigitCharOrder(p[2], q[2]);
    DigitCharOrder(p[3], q[3]);
    if x == y {
      StringLessIrreflexive(x);
      FormatTimeInjective(a, b);
    } else if p[0] != q[0] {
      StringLessDiff(x, y, 0);
    } else if p[1] != q[1] {
      assert x[..1] == y[..1];
      StringLessDiff(x, y, 1);
    } else if p[2] != q[2] {
      assert x[..3] == y[..3];
      StringLessDiff(x, y, 3);
    } else {
      assert x[..4] == y[..4];
      StringLessDiff(x, y, 4);
    }
  }

  // ---------------------------------------------------------------------
  // ISO weeks

  /** ISO day of the week, Monday = 0 ... Sunday = 6 (day 0 is a Thursday). */
  function IsoWeekday(day: int): (w: int)
    ensures 0 <= w < 7
  {
    (day + 3) % 7
  }

  /** dayjs's `startOf("isoWeek")`: the Monday of the week holding `day`. */
  function WeekStart(day: int): (monday: int)
    ensures monday <= day < monday + 7
    ensures IsoWeekday(monday) == 0
  {
    day - IsoWeekday(day)
  }

  /** Every day of a week has that week's Monday as its week start. */
  lemma WeekStartOfWeekDay(monday: int, k: int)
    requires IsoWeekday(monday) == 0 && 0 <= k < 7
    ensures WeekStart(monday + k) == monday
  {
    assert (monday + k + 3) % 7 == k;
  }

  // ---------------------------------------------------------------------
  // "YYYY-MM-DD" calendar dates, as the client reads them

  datatype CivilDate = CivilDate(year: int, month: int, day: int)

  predicate IsLeapYear(y: int) { (y % 4 == 0 && y % 100 != 0) || y % 400 == 0 }

  function DaysInMonth(y: int, m: int): int
  {
    if m == 2 then (if IsLeapYear(y) then 29 else 28)
    else if m == 4 || m == 6 || m == 9 || m == 11 then 30
    else 31
  }

  predicate ValidCivil(d: CivilDate)
  {
    0 <= d.year <= 9999 && 1 <= d.month <= 12 && 1 <= d.day <= DaysInMonth(d.year, d.month)
  }

  function FourDigits(n: nat): (s: string)
    requires n < 10000
    ensures |s| == 4 && AllDigits(s)
  {
    TwoDigits(n / 100) + TwoDigits(n % 100)
  }

  function FormatIsoDate(d: CivilDate): (s: string)
    requires ValidCivil(d)
    ensures |s| == 10
  {
    FourDigits(d.year) + "-" + TwoDigits(d.month) + "-" + TwoDigits(d.day)
  }

  predicate IsoDateShape(s: string)
  {
    |s| == 10 && s[4] == '-' && s[7] == '-' &&
    IsDigit(s[0]) && IsDigit(s[1]) && IsDigit(s[2]) && IsDigit(s[3]) &&
    IsDigit(s[5]) && IsDigit(s[6]) && IsDigit(s[8]) && IsDigit(s[9])
  }

  /** Reads a "YYYY-MM-DD" date; a malformed or non-existent date gives None. */
  function ParseIsoDate(s: string): (r: Option<CivilDate>)
    ensures r.Some? ==> ValidCivil(r.value)
  {
    if !IsoDateShape(s) then None
    else
      var d := CivilDate(100 * TwoDigitValue(s, 0) + TwoDigitValue(s, 2), TwoDigitValue(s, 5), TwoDigitValue(s, 8));
      if ValidCivil(d) then Some(d) else None
  }

  lemma TwoDigitsValue(n: nat)
    requires n < 100
    ensures TwoDigitValue(TwoDigits(n), 0) == n
  {
  }

  lemma FourDigitsValue(n: nat)
    requires n < 10000
    ensures 100 * TwoDigitValue(FourDigits(n), 0) + TwoDigitValue(FourDigits(n), 2) == n
  {
    var f := FourDigits(n);
    TwoDigitsValue(n / 100);
    TwoDigitsValue(n % 100);
    assert TwoDigitValue(f, 0) == TwoDigitValue(TwoDigits(n / 100), 0);
    assert TwoDigitValue(f, 2) == TwoDigitValue(TwoDigits(n % 100), 0);
  }

  lemma ParseFormatIsoDate(d: CivilDate)
    requires ValidCivil(d)
    ensures ParseIsoDate(FormatIsoDate(d)) == Some(d)
  {
    var s := FormatIsoDate(d);
    var y, m, dd := FourDigits(d.year), TwoDigits(d.month), TwoDigits(d.day);
    assert s[..4] == y && s[5..7] == m && s[8..] == dd;
    assert IsoDateShape(s);
    FourDigitsValue(d.year);
    TwoDigitsValue(d.month);
    TwoDigitsValue(d.day);
    assert TwoDigitValue(s, 0) == TwoDigitValue(y, 0);
    assert TwoDigitValue(s, 2) == TwoDigitValue(y, 2);
    assert TwoDigitValue(s, 5) == TwoDigitValue(m, 0);
    assert TwoDigitValue(s, 8) == TwoDigitValue(dd, 0);
  }

  /** A month counted from year 0: the month arithmetic of `new Date(y, m - i, 1)`. */
  function MonthIndex(year: int, month: int): int
  {
    12 * year + (month - 1)
  }

  function YearOfIndex(i: int): int { i / 12 }

  function MonthOfIndex(i: int): (m: int)
    ensures 1 <= m <= 12
  {
    i % 12 + 1
  }

  lemma MonthIndexRoundTrip(i: int)
    ensures MonthIndex(YearOfIndex(i), MonthOfIndex(i)) == i
  {
  }

  lemma MonthIndexInverse(year: int, month: int)
    requires 1 <= month <= 12
    ensures YearOfIndex(MonthIndex(year, month)) == year && MonthOfIndex(MonthIndex(year, month)) == month
  {
  }
}
