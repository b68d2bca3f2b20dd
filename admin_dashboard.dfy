/**
 * The figures of the admin dashboard, computed from the lists the API
 * returns: the five most booked rooms, the revenue of the last six months,
 * the total revenue and the five newest bookings.
 *
 * A booking counts towards revenue when its payment is completed; it adds
 * its payment amount, or the room's price times the players when the amount
 * is 0 (the API reads a missing amount as 0). The current month is a
 * parameter.
 */
module AdminDashboard {
  import opened Js
  import opened Clock
  import opened BookingModel
  import opened Sequences

  /**
   * A booking as the dashboard reads it: the booked room's theme and price,
   * the players, the "YYYY-MM-DD" date, the payment and the creation instant.
   */
  datatype AdminBooking = AdminBooking(
    theme: string,
    roomPrice: int,
    numberOfPlayers: int,
    date: string,
    paymentStatus: PaymentStatus,
    paymentAmount: int,
    createdAt: int)

  predicate Paid(b: AdminBooking) { b.paymentStatus == PaymentCompleted }

  /**
   * `payment_amount || price * numberOfPlayers`: the booking's amount, or
   * its full price when the amount is 0; never negative when neither is.
   */
  function BookingRevenue(b: AdminBooking): (r: int)
    ensures r == b.paymentAmount || r == b.roomPrice * b.numberOfPlayers
    ensures b.paymentAmount >= 0 && b.roomPrice >= 0 && b.numberOfPlayers >= 0 ==> r >= 0
  {
    if b.paymentAmount != 0 then b.paymentAmount else b.roomPrice * b.numberOfPlayers
  }

  /** The sum of the bookings' revenue, whatever their status. */
  function RevenueSum(bs: seq<AdminBooking>): int
  {
    if bs == [] then 0 else BookingRevenue(bs[0]) + RevenueSum(bs[1..])
  }

  /** The total revenue card: the completed payments' revenue; 0 when none is completed. */
  function TotalRevenue(bs: seq<AdminBooking>): (r: int)
    ensures (forall b :: b in bs ==> !Paid(b)) ==> r == 0
  {
    var paid := Filter(bs, Paid);
    assert paid != [] ==> paid[0] in paid;
    RevenueSum(paid)
  }

  // ---------------------------------------------------------------------
  // Revenue

  lemma {:induction false} RevenueSumAppend(a: seq<AdminBooking>, b: seq<AdminBooking>)
    ensures RevenueSum(a + b) == RevenueSum(a) + RevenueSum(b)
  {
    if a == [] {
      assert a + b == b;
    } else {
      assert (a + b)[1..] == a[1..] + b;
      RevenueSumAppend(a[1..], b);
    }
  }

  /** The total of two lists of bookings is the sum of their totals. */
  lemma TotalRevenueAppend(a: seq<AdminBooking>, b: seq<AdminBooking>)
    ensures TotalRevenue(a + b) == TotalRevenue(a) + TotalRevenue(b)
  {
    FilterAppend(a, b, Paid);
    RevenueSumAppend(Filter(a, Paid), Filter(b, Paid));
  }

  /** Bookings whose payment is not completed add nothing. */
  lemma {:induction false} TotalRevenueIgnoresUnpaid(bs: seq<AdminBooking>, b: AdminBooking)
    requires !Paid(b)
    ensures TotalRevenue(bs + [b]) == TotalRevenue(bs)
    ensures TotalRevenue([b] + bs) == TotalRevenue(bs)
  {
    TotalRevenueAppend(bs, [b]);
    TotalRevenueAppend([b], bs);
    assert Filter([b], Paid) == [];
  }

  /** A completed booking adds its amount, or its room's price per player when it has none. */
  lemma TotalRevenueOfPaid(bs: seq<AdminBooking>, b: AdminBooking)
    requires Paid(b)
    ensures b.paymentAmount != 0 ==> TotalRevenue(bs + [b]) == TotalRevenue(bs) + b.paymentAmount
    ensures b.paymentAmount == 0 ==> TotalRevenue(bs + [b]) == TotalRevenue(bs) + b.roomPrice * b.numberOfPlayers
  {
    TotalRevenueAppend(bs, [b]);
    assert Filter([b], Paid) == [b];
    assert RevenueSum([b]) == BookingRevenue(b) + RevenueSum([b][1..]);
    assert [b][1..] == [];
  }

  /** Splitting the bookings by any test splits the total. */
  lemma {:induction false} TotalRevenueSplit(bs: seq<AdminBooking>, p: AdminBooking -> bool)
    ensures TotalRevenue(bs) == TotalRevenue(Filter(bs, p)) + TotalRevenue(Filter(bs, b => !p(b)))
  {
    if bs != [] {
      TotalRevenueSplit(bs[1..], p);
      var q := (b: AdminBooking) => !p(b);
      assert bs == [bs[0]] + bs[1..];
      TotalRevenueAppend([bs[0]], bs[1..]);
      if p(bs[0]) {
        assert Filter(bs, p) == [bs[0]] + Filter(bs[1..], p);
        TotalRevenueAppend([bs[0]], Filter(bs[1..], p));
      } else {
        assert Filter(bs, q) == [bs[0]] + Filter(bs[1..], q);
        TotalRevenueAppend([bs[0]], Filter(bs[1..], q));
      }
    }
  }

  /** With amounts, prices and players never negative, no revenue is negative. */
  predicate NonNegative(bs: seq<AdminBooking>)
  {
    forall b :: b in bs ==> b.paymentAmount >= 0 && b.roomPrice >= 0 && b.numberOfPlayers >= 0
  }

  lemma {:induction false} RevenueSumNonNegative(bs: seq<AdminBooking>)
    requires NonNegative(bs)
    ensures RevenueSum(bs) >= 0
  {
    if bs != [] {
      assert bs[0] in bs;
      assert forall b :: b in bs[1..] ==> b in bs;
      RevenueSumNonNegative(bs[1..]);
    }
  }

  // ---------------------------------------------------------------------
  // Monthly revenue

  /** The booking's date falls in the month numbered `idx` (see `Clock.MonthIndex`); a date that does not read falls in none. */
  predicate InMonth(b: AdminBooking, idx: int)
  {
    var d := ParseIsoDate(b.date);
    d.Some? && MonthIndex(d.value.year, d.value.month) == idx
  }

  /** The completed-payment bookings dated in month `idx`. */
  function MonthBookings(bs: seq<AdminBooking>, idx: int): seq<AdminBooking>
  {
    Filter(bs, b => InMonth(b, idx) && Paid(b))
  }

  /** A month's revenue is the total revenue of the bookings dated in it. */
  lemma MonthRevenueIsTotal(bs: seq<AdminBooking>, idx: int)
    ensures RevenueSum(MonthBookings(bs, idx)) == TotalRevenue(Filter(bs, b => InMonth(b, idx)))
  {
    FilterThen(bs, b => InMonth(b, idx), Paid, b => InMonth(b, idx) && Paid(b));
  }

  /** With no negative amounts, a month's revenue is between 0 and the total. */
  lemma MonthRevenueWithinTotal(bs: seq<AdminBooking>, idx: int)
    requires NonNegative(bs)
    ensures 0 <= RevenueSum(MonthBookings(bs, idx)) <= TotalRevenue(bs)
  {
    var p := (b: AdminBooking) => InMonth(b, idx);
    MonthRevenueIsTotal(bs, idx);
    TotalRevenueSplit(bs, p);
    var rest := Filter(Filter(bs, b => !p(b)), Paid);
    assert forall b :: b in rest ==> b in bs;
    RevenueSumNonNegative(rest);
    var mine := MonthBookings(bs, idx);
    assert forall b :: b in mine ==> b in bs;
    RevenueSumNonNegative(mine);
  }

  /** `toLocaleString("en-US", { month: "short" })` of the months 1 to 12. */
  const ShortMonthNames: seq<string> :=
    ["Jan", "Feb", "Mar", "Apr", "May", "Jun", "Jul", "Aug", "Sep", "Oct", "Nov", "Dec"]

  /** The month a short name stands for; 0 for any other string. */
  function MonthOfShortName(s: string): int
  {
    if s == "Jan" then 1 else if s == "Feb" then 2 else if s == "Mar" then 3
    else if s == "Apr" then 4 else if s == "May" then 5 else if s == "Jun" then 6
    else if s == "Jul" then 7 else if s == "Aug" then 8 else if s == "Sep" then 9
    else if s == "Oct" then 10 else if s == "Nov" then 11 else if s == "Dec" then 12
    else 0
  }

  /** Every month's short name has three letters and names that month only. */
  lemma ShortMonthNameRoundTrip(m: int)
    requires 1 <= m <= 12
    ensures |ShortMonthNames[m - 1]| == 3
    ensures MonthOfShortName(ShortMonthNames[m - 1]) == m
  {
  }

  /** A month of the chart, as `date.getMonth()` (here 1 to 12) and `date.getFullYear()` give it. */
  datatype Period = Period(month: int, year: int)

  /** The month `idx` (see `Clock.MonthIndex`), as `new Date(year, month - i, 1)` normalises it. */
  function PeriodOf(idx: int): (p: Period)
    ensures 1 <= p.month <= 12
  {
    Period(MonthOfIndex(idx), YearOfIndex(idx))
  }

  /** The bar's label, `${monthName} ${year}`: the short English month name and the year. */
  function PeriodName(p: Period): string
    requires 1 <= p.month <= 12
  {
    ShortMonthNames[p.month - 1] + " " + IntToString(p.year)
  }

  /** The label names one month only. */
  lemma PeriodNameInjective(p: Period, q: Period)
    requires 1 <= p.month <= 12 && 1 <= q.month <= 12
    requires PeriodName(p) == PeriodName(q)
    ensures p == q
  {
    var n := PeriodName(p);
    ShortMonthNameRoundTrip(p.month);
    ShortMonthNameRoundTrip(q.month);
    assert n[..3] == ShortMonthNames[p.month - 1];
    assert n[..3] == ShortMonthNames[q.month - 1];
    assert n[4..] == IntToString(p.year);
    assert n[4..] == IntToString(q.year);
    ParseIntOfIntToString(p.year);
    ParseIntOfIntToString(q.year);
  }

  /** Different month numbers are different months. */
  lemma PeriodOfInjective(i: int, j: int)
    requires i != j
    ensures PeriodOf(i) != PeriodOf(j)
  {
    MonthIndexRoundTrip(i);
    MonthIndexRoundTrip(j);
  }

  /** A bar of the chart: its month (labelled by `PeriodName`) and its revenue. */
  datatype MonthEntry = MonthEntry(period: Period, revenue: int)

  /** The chart's bar for month `idx`. */
  function MonthEntryAt(bs: seq<AdminBooking>, idx: int): MonthEntry
  {
    MonthEntry(PeriodOf(idx), RevenueSum(MonthBookings(bs, idx)))
  }

  /** The bars of the `n` months from month `first` on, oldest first. */
  function MonthsFrom(bs: seq<AdminBooking>, first: int, n: nat): (r: seq<MonthEntry>)
    ensures |r| == n
  {
    if n == 0 then [] else MonthsFrom(bs, first, n - 1) + [MonthEntryAt(bs, first + n - 1)]
  }

  lemma {:induction false} MonthsFromAt(bs: seq<AdminBooking>, first: int, n: nat, k: nat)
    requires k < n
    ensures MonthsFrom(bs, first, n)[k] == MonthEntryAt(bs, first + k)
  {
    if k < n - 1 {
      MonthsFromAt(bs, first, n - 1, k);
    }
  }

  /** The six bars ending at the current month. */
  function SixMonths(bs: seq<AdminBooking>, currentYear: int, currentMonth: int): (r: seq<MonthEntry>)
    ensures |r| == 6
  {
    MonthsFrom(bs, MonthIndex(currentYear, currentMonth) - 5, 6)
  }

  /**
   * `monthlyRevenueData`: for `i` from 5 down to 0, the bar of the month `i`
   * months before the current one.
   */
  method MonthlyRevenueData(bookings: seq<AdminBooking>, currentYear: int, currentMonth: int)
    returns (months: seq<MonthEntry>)
    ensures months == SixMonths(bookings, currentYear, currentMonth)
  {
    var now := MonthIndex(currentYear, currentMonth);
    months := [];
    var i := 5;
    while i >= 0
      invariant -1 <= i <= 5
      invariant months == MonthsFrom(bookings, now - 5, 5 - i)
    {
      var date := PeriodOf(now - i);
      var monthBookings := MonthBookings(bookings, now - i);
      var revenue := RevenueSum(monthBookings);
      months := months + [MonthEntry(date, revenue)];
      i := i - 1;
    }
  }

  /** The six bars from month `first`: each is the bar of its month, and no two are the same month. */
  lemma SixMonthsEntries(bs: seq<AdminBooking>, first: int)
    ensures var months := MonthsFrom(bs, first, 6);
      (forall k :: 0 <= k < 6 ==> months[k] == MonthEntryAt(bs, first + k)) &&
      (forall k, l :: 0 <= k < l < 6 ==> months[k].period != months[l].period)
  {
    var months := MonthsFrom(bs, first, 6);
    forall k | 0 <= k < 6
      ensures months[k] == MonthEntryAt(bs, first + k)
    {
      MonthsFromAt(bs, first, 6, k);
    }
    forall k, l | 0 <= k < l < 6
      ensures months[k].period != months[l].period
    {
      PeriodOfInjective(first + k, first + l);
    }
  }

  /** Bar `k` of the chart is the bar of the month `5 - k` months back. */
  lemma SixMonthsAt(bs: seq<AdminBooking>, currentYear: int, currentMonth: int)
    ensures |SixMonths(bs, currentYear, currentMonth)| == 6
    ensures forall k :: 0 <= k < 6 ==>
      SixMonths(bs, currentYear, currentMonth)[k] == MonthEntryAt(bs, MonthIndex(currentYear, currentMonth) - 5 + k)
    ensures forall k, l :: 0 <= k < l < 6 ==>
      SixMonths(bs, currentYear, currentMonth)[k].period != SixMonths(bs, currentYear, currentMonth)[l].period
  {
    var first := MonthIndex(currentYear, currentMonth) - 5;
    var months := SixMonths(bs, currentYear, currentMonth);
    assert months == MonthsFrom(bs, first, 6);
    SixMonthsEntries(bs, first);
    forall k | 0 <= k < 6
      ensures months[k] == MonthEntryAt(bs, MonthIndex(currentYear, currentMonth) - 5 + k)
    {
      assert months[k] == MonthEntryAt(bs, first + k);
    }
  }

  /** The last bar is the current month. */
  lemma SixMonthsEndsNow(bs: seq<AdminBooking>, currentYear: int, currentMonth: int)
    requires 1 <= currentMonth <= 12
    ensures SixMonths(bs, currentYear, currentMonth)[5].period == Period(currentMonth, currentYear)
  {
    var now := MonthIndex(currentYear, currentMonth);
    MonthsFromAt(bs, now - 5, 6, 5);
    MonthIndexInverse(currentYear, currentMonth);
  }

  /**
   * Six bars, oldest first: bar `k` is the month `5 - k` months before the
   * current one and carries the revenue of the completed payments dated in
   * it; the last is the current month and no two bars are the same month,
   * so that (by `PeriodNameInjective`) no two share a label.
   */
  lemma SixMonthsBars(bs: seq<AdminBooking>, currentYear: int, currentMonth: int)
    requires 1 <= currentMonth <= 12
    ensures |SixMonths(bs, currentYear, currentMonth)| == 6
    ensures forall k :: 0 <= k < 6 ==>
      SixMonths(bs, currentYear, currentMonth)[k].period == PeriodOf(MonthIndex(currentYear, currentMonth) - 5 + k)
    ensures forall k :: 0 <= k < 6 ==>
      SixMonths(bs, currentYear, currentMonth)[k].revenue == RevenueSum(MonthBookings(bs, MonthIndex(currentYear, currentMonth) - 5 + k))
    ensures SixMonths(bs, currentYear, currentMonth)[5].period == Period(currentMonth, currentYear)
    ensures forall k, l :: 0 <= k < l < 6 ==>
      SixMonths(bs, currentYear, currentMonth)[k].period != SixMonths(bs, currentYear, currentMonth)[l].period
  {
    SixMonthsAt(bs, currentYear, currentMonth);
    SixMonthsEndsNow(bs, currentYear, currentMonth);
    var now := MonthIndex(currentYear, currentMonth);
    forall k | 0 <= k < 6
      ensures SixMonths(bs, currentYear, currentMonth)[k].revenue == RevenueSum(MonthBookings(bs, now - 5 + k))
    {
      var e := MonthEntryAt(bs, now - 5 + k);
      assert e.revenue == RevenueSum(MonthBookings(bs, now - 5 + k));
    }
  }

  // ---------------------------------------------------------------------
  // The first k by a key

  /** The first `k` elements once sorted by `key`, as `[...s].sort(...).slice(0, k)`. */
  function Top<T>(s: seq<T>, key: T -> int, k: nat): (r: seq<T>)
    ensures |r| == if |s| < k then |s| else k
  {
    var sorted := SortBy(s, key);
    sorted[..if |s| < k then |s| else k]
  }

  /**
   * The first `k` come in key order, are taken from `s`, and every element
   * left out has a key no smaller than every one taken.
   */
  lemma TopProperties<T>(s: seq<T>, key: T -> int, k: nat)
    ensures SortedBy(Top(s, key, k), key)
    ensures multiset(Top(s, key, k)) <= multiset(s)
    ensures forall x :: x in s && x !in Top(s, key, k) ==>
      |Top(s, key, k)| == k && forall y :: y in Top(s, key, k) ==> key(y) <= key(x)
  {
    var sorted := SortBy(s, key);
    SortBySorted(s, key);
    var n := if |s| < k then |s| else k;
    var r := sorted[..n];
    assert sorted == r + sorted[n..];
    assert multiset(sorted) == multiset(r) + multiset(sorted[n..]);
    forall x | x in s && x !in r
      ensures |r| == k && forall y :: y in r ==> key(y) <= key(x)
    {
      assert x in multiset(s);
      TopLeftOut(sorted, key, n, x);
    }
  }

  /** In a sorted sequence, an element missing from the first `n` comes after them all. */
  lemma TopLeftOut<T>(sorted: seq<T>, key: T -> int, n: nat, x: T)
    requires SortedBy(sorted, key) && n <= |sorted|
    requires x in sorted && x !in sorted[..n]
    ensures n < |sorted|
    ensures forall y :: y in sorted[..n] ==> key(y) <= key(x)
  {
    var i :| 0 <= i < |sorted| && sorted[i] == x;
    forall y | y in sorted[..n]
      ensures key(y) <= key(x)
    {
      var j :| 0 <= j < n && sorted[..n][j] == y;
    }
  }

  // ---------------------------------------------------------------------
  // Most booked rooms

  datatype RoomStat = RoomStat(name: string, bookings: int, revenue: int)

  /** The bookings of a room, matched by theme, whatever their status. */
  function BookingsOfTheme(bs: seq<AdminBooking>, theme: string): seq<AdminBooking>
  {
    Filter(bs, (b: AdminBooking) => b.theme == theme)
  }

  function StatOf(room: EscapeRoom, bs: seq<AdminBooking>): RoomStat
  {
    var count := |BookingsOfTheme(bs, room.theme)|;
    RoomStat(room.theme, count, count * room.price)
  }

  function Stats(rooms: seq<EscapeRoom>, bs: seq<AdminBooking>): (r: seq<RoomStat>)
    ensures |r| == |rooms|
    ensures forall i :: 0 <= i < |rooms| ==> r[i] == StatOf(rooms[i], bs)
  {
    seq(|rooms|, i requires 0 <= i < |rooms| => StatOf(rooms[i], bs))
  }

  /** A bar for the room: its theme, its number of bookings and that number times its price. */
  predicate Describes(e: RoomStat, room: EscapeRoom, bs: seq<AdminBooking>)
  {
    e.name == room.theme && e.bookings == |BookingsOfTheme(bs, room.theme)| && e.revenue == e.bookings * room.price
  }

  /** The sort key of `b.bookings - a.bookings`: most bookings first. */
  function MostBooked(s: RoomStat): int { -s.bookings }

  /** `topRoomsData`: the rooms by number of bookings, most first, at most five. */
  function TopRoomsData(rooms: seq<EscapeRoom>, bs: seq<AdminBooking>): (r: seq<RoomStat>)
    ensures |r| == if |rooms| < 5 then |rooms| else 5
  {
    Top(Stats(rooms, bs), MostBooked, 5)
  }

  /**
   * The chart lists five rooms, or every room when there are fewer, most
   * booked first; each bar is a room's theme, its number of bookings and
   * that number times its price; and a room left out has no more bookings
   * than any room listed.
   */
  lemma TopRooms(rooms: seq<EscapeRoom>, bs: seq<AdminBooking>)
    ensures var top := TopRoomsData(rooms, bs);
      |top| == (if |rooms| < 5 then |rooms| else 5) &&
      (forall i, j :: 0 <= i < j < |top| ==> top[i].bookings >= top[j].bookings) &&
      (forall e :: e in top ==> exists room :: room in rooms && Describes(e, room, bs)) &&
      (forall room :: room in rooms && StatOf(room, bs) !in top ==>
         |top| == 5 && forall e :: e in top ==> e.bookings >= |BookingsOfTheme(bs, room.theme)|)
  {
    var stats := Stats(rooms, bs);
    TopProperties(stats, MostBooked, 5);
    var top := TopRoomsData(rooms, bs);
    forall e | e in top
      ensures exists room :: room in rooms && Describes(e, room, bs)
    {
      assert e in multiset(top);
      assert e in multiset(stats);
      var i :| 0 <= i < |stats| && stats[i] == e;
      assert rooms[i] in rooms;
    }
    forall room | room in rooms && StatOf(room, bs) !in top
      ensures |top| == 5 && forall e :: e in top ==> e.bookings >= |BookingsOfTheme(bs, room.theme)|
    {
      var i :| 0 <= i < |rooms| && rooms[i] == room;
      assert stats[i] == StatOf(room, bs);
      assert StatOf(room, bs) in stats;
    }
  }

  /** No room has more bookings than there are bookings. */
  lemma StatBounded(room: EscapeRoom, bs: seq<AdminBooking>)
    ensures 0 <= StatOf(room, bs).bookings <= |bs|
  {
  }

  // ---------------------------------------------------------------------
  // Newest bookings

  /** The sort key of `new Date(b.created_at) - new Date(a.created_at)`: newest first. */
  function Newest(b: AdminBooking): int { -b.createdAt }

  /** `recentBookings`: the bookings by creation, newest first, at most five. */
  function RecentBookings(bs: seq<AdminBooking>): (r: seq<AdminBooking>)
    ensures |r| == if |bs| < 5 then |bs| else 5
    ensures multiset(r) <= multiset(bs)
  {
    TopProperties(bs, Newest, 5);
    Top(bs, Newest, 5)
  }

  /**
   * Five bookings, or all of them when there are fewer, newest first, each
   * one of the bookings; a booking left out is no newer than any listed.
   */
  lemma RecentBookingsNewest(bs: seq<AdminBooking>)
    ensures var recent := RecentBookings(bs);
      |recent| == (if |bs| < 5 then |bs| else 5) &&
      (forall i, j :: 0 <= i < j < |recent| ==> recent[i].createdAt >= recent[j].createdAt) &&
      multiset(recent) <= multiset(bs) &&
      (forall b :: b in bs && b !in recent ==> forall r :: r in recent ==> r.createdAt >= b.createdAt)
  {
    TopProperties(bs, Newest, 5);
  }

  // ---------------------------------------------------------------------
  // The revenue of the shipped query

  /**
   * The booking list query selects only the theme of the booked room, so
   * `booking.escaperoom.price` is undefined in the dashboard's data and the
   * fallback `price * numberOfPlayers` is NaN.
   */
  function BookingRevenueAsQueried(b: AdminBooking): Number
  {
    if b.paymentAmount != 0 then Num(b.paymentAmount) else Times(NaN, Num(b.numberOfPlayers))
  }

  function RevenueSumAsQueried(bs: seq<AdminBooking>): Number
  {
    if bs == [] then Num(0) else Plus(BookingRevenueAsQueried(bs[0]), RevenueSumAsQueried(bs[1..]))
  }

  /** The total revenue card as the shipped query lets it compute. */
  function TotalRevenueAsQueried(bs: seq<AdminBooking>): Number
  {
    RevenueSumAsQueried(Filter(bs, Paid))
  }

  lemma {:induction false} RevenueSumAsQueriedNaN(bs: seq<AdminBooking>)
    ensures RevenueSumAsQueried(bs).NaN? <==> exists b :: b in bs && b.paymentAmount == 0
    ensures RevenueSumAsQueried(bs).Num? ==> RevenueSumAsQueried(bs).n == RevenueSum(bs)
  {
    if bs != [] {
      RevenueSumAsQueriedNaN(bs[1..]);
      assert forall b :: b in bs <==> b == bs[0] || b in bs[1..];
    }
  }

  /**
   * The shipped total is NaN exactly when some completed booking has no
   * amount; otherwise it is the intended total.
   */
  lemma TotalRevenueAsQueriedNaN(bs: seq<AdminBooking>)
    ensures TotalRevenueAsQueried(bs).NaN? <==> exists b :: b in bs && Paid(b) && b.paymentAmount == 0
    ensures TotalRevenueAsQueried(bs).Num? ==> TotalRevenueAsQueried(bs).n == TotalRevenue(bs)
  {
    RevenueSumAsQueriedNaN(Filter(bs, Paid));
  }

  /** One completed booking of four players at 500 without an amount: NaN instead of 2000. */
  lemma TotalRevenueAsQueriedExample()
    ensures var b := AdminBooking("Lab", 500, 4, "2025-03-14", PaymentCompleted, 0, 0);
      TotalRevenueAsQueried([b]).NaN? && TotalRevenue([b]) == 2000
  {
    var b := AdminBooking("Lab", 500, 4, "2025-03-14", PaymentCompleted, 0, 0);
    assert Filter([b], Paid) == [b];
  }
}
