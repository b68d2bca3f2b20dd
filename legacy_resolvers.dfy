/**
 * The older availability resolver of the server: a fixed list of hourly
 * slots from 12:00 to 20:00, minus the times of every booking of the room
 * on the date, whatever the booking's status.
 */
module LegacyResolvers {
  import opened Js
  import opened Clock
  import opened BookingModel
  import opened Reservations
  import opened Sequences

  const FirstHour: nat := 12
  const LastHour: nat := 20

  /** The label the loop pushes for hour `i`: a leading zero below 10, then ":00:00". */
  function HourLabel(i: nat): string
  {
    (if i < 10 then "0" else "") + NatToString(i) + ":00:00"
  }

  /** For the hours of the day the label is the "HH:mm:ss" time of the full hour. */
  lemma HourLabelIsFormatTime(i: nat)
    requires i < 24
    ensures HourLabel(i) == FormatTime(60 * i)
  {
    if i < 10 {
      assert NatToString(i) == [DigitChar(i)];
    } else {
      assert NatToString(i / 10) == [DigitChar(i / 10)];
      assert NatToString(i) == [DigitChar(i / 10), DigitChar(i % 10)];
    }
    assert (60 * i) / 60 == i && (60 * i) % 60 == 0;
  }

  /** `generateTimeSlots`: the labels of hours 12 to 20, in order. */
  method GenerateTimeSlots() returns (slots: seq<string>)
    ensures slots == FixedSlots()
    ensures |slots| == LastHour - FirstHour + 1
    ensures forall k :: 0 <= k < |slots| ==> slots[k] == FormatTime(60 * (FirstHour + k))
  {
    slots := [];
    var i := FirstHour;
    while i <= LastHour
      invariant FirstHour <= i <= LastHour + 1
      invariant |slots| == i - FirstHour
      invariant forall k :: 0 <= k < |slots| ==> slots[k] == FormatTime(60 * (FirstHour + k))
    {
      HourLabelIsFormatTime(i);
      slots := slots + [HourLabel(i)];
      i := i + 1;
    }
  }

  /** The nine slots of the legacy lattice, as the server writes them. */
  function FixedSlots(): (s: seq<string>)
    ensures |s| == 9
  {
    seq(9, k requires 0 <= k < 9 => FormatTime(60 * (FirstHour + k)))
  }

  /** The fixed lattice is exactly "12:00:00" ... "20:00:00". */
  lemma FixedSlotsLiteral()
    ensures FixedSlots() == ["12:00:00", "13:00:00", "14:00:00", "15:00:00", "16:00:00",
                             "17:00:00", "18:00:00", "19:00:00", "20:00:00"]
  {
    var s := FixedSlots();
    assert s[0] == FormatTime(720) == "12:00:00";
    assert s[1] == FormatTime(780) == "13:00:00";
    assert s[2] == FormatTime(840) == "14:00:00";
    assert s[3] == FormatTime(900) == "15:00:00";
    assert s[4] == FormatTime(960) == "16:00:00";
    assert s[5] == FormatTime(1020) == "17:00:00";
    assert s[6] == FormatTime(1080) == "18:00:00";
    assert s[7] == FormatTime(1140) == "19:00:00";
    assert s[8] == FormatTime(1200) == "20:00:00";
  }

  /** The fixed slots are in ascending order under JavaScript's string `<`. */
  lemma FixedSlotsAscending(i: int, j: int)
    requires 0 <= i < j < 9
    ensures StringLess(FixedSlots()[i], FixedSlots()[j])
  {
    FormatTimeOrder(60 * (FirstHour + i), 60 * (FirstHour + j));
  }

  /** The times of all bookings of `roomId` on `date`, of any status. */
  function BookedTimes(m: Bookings, roomId: int, date: int): (r: set<string>)
    ensures forall id :: id in m && m[id].roomId == roomId && m[id].date == date ==> FormatTime(m[id].time) in r
  {
    set id | id in m && m[id].roomId == roomId && m[id].date == date :: FormatTime(m[id].time)
  }

  predicate HasBookingOn(m: Bookings, roomId: int, date: int)
  {
    exists id :: id in m && m[id].roomId == roomId && m[id].date == date
  }

  /** `getAvailableSlots(escape_room_id, date)`. */
  function GetAvailableSlots(m: Bookings, roomId: int, date: int): (r: seq<string>)
    ensures !HasBookingOn(m, roomId, date) ==> r == FixedSlots()
    ensures Subsequence(r, FixedSlots())
    ensures forall s :: s in r <==> s in FixedSlots() && s !in BookedTimes(m, roomId, date)
  {
    if !HasBookingOn(m, roomId, date) then
      SubsequenceRefl(FixedSlots());
      FixedSlots()
    else
      var booked := BookedTimes(m, roomId, date);
      Filter(FixedSlots(), slot => slot !in booked)
  }

  /** Any booking of the room on the date removes its time, active or not. */
  lemma AnyBookingBlocks(m: Bookings, roomId: int, date: int, id: nat)
    requires id in m && m[id].roomId == roomId && m[id].date == date
    ensures FormatTime(m[id].time) !in GetAvailableSlots(m, roomId, date)
  {
  }

  /** Two tables holding the same rows up to everything but room, date and time. */
  predicate SameSchedule(m: Bookings, m': Bookings)
  {
    m.Keys == m'.Keys &&
    forall id :: id in m ==> m'[id].roomId == m[id].roomId && m'[id].date == m[id].date && m'[id].time == m[id].time
  }

  lemma BookedTimesOfSameSchedule(m: Bookings, m': Bookings, roomId: int, date: int)
    requires SameSchedule(m, m')
    ensures BookedTimes(m', roomId, date) == BookedTimes(m, roomId, date)
  {
    forall t | t in BookedTimes(m, roomId, date)
      ensures t in BookedTimes(m', roomId, date)
    {
      var k :| k in m && m[k].roomId == roomId && m[k].date == date && FormatTime(m[k].time) == t;
      assert k in m';
    }
  }

  /** The answer depends only on the rooms, dates and times of the bookings. */
  lemma {:induction false} ScheduleDetermines(m: Bookings, m': Bookings, roomId: int, date: int)
    requires SameSchedule(m, m')
    ensures GetAvailableSlots(m', roomId, date) == GetAvailableSlots(m, roomId, date)
  {
    BookedTimesOfSameSchedule(m, m', roomId, date);
    if HasBookingOn(m, roomId, date) {
      var k :| k in m && m[k].roomId == roomId && m[k].date == date;
      assert k in m';
    }
    if HasBookingOn(m', roomId, date) {
      var k :| k in m' && m'[k].roomId == roomId && m'[k].date == date;
      assert k in m;
    }
  }

  /** The lookup has no status filter: changing a booking's status changes nothing. */
  lemma StatusIrrelevant(m: Bookings, roomId: int, date: int, id: nat, st: Status)
    requires id in m
    ensures GetAvailableSlots(m[id := m[id].(status := st)], roomId, date) == GetAvailableSlots(m, roomId, date)
  {
    ScheduleDetermines(m, m[id := m[id].(status := st)], roomId, date);
  }
}
