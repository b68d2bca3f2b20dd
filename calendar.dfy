/**
 * The booking calendar of the client: the slot lattice it draws for a room,
 * the seven days of the shown week, the server's free slots grouped by date,
 * and the week, date and time the visitor has picked.
 *
 * Days are day numbers, times "HH:mm:ss" strings as the server sends them;
 * `now` and `today` are parameters.
 */
module Calendar {
  import opened Wrappers
  import opened Js
  import opened Clock

  // ---------------------------------------------------------------------
  // The lattice drawn by the client

  /**
   * The labels of the starts from `t` on: "HH:mm:ss" of each start whose
   * slot ends by closing time, one per start of the lattice.
   */
  function SlotLabelsFrom(t: int, duration: int): (r: seq<string>)
    requires duration > 0 && 0 <= t
    ensures |r| == |LatticeFrom(t, duration)|
    decreases ClosingTime - t
  {
    if t < ClosingTime && t + duration <= ClosingTime then
      [FormatTime(t)] + SlotLabelsFrom(t + duration, duration)
    else []
  }

  /** Each label reads back as the lattice start at the same position. */
  lemma {:induction false} SlotLabelsParse(t: int, duration: int)
    requires duration > 0 && 0 <= t
    ensures var r := SlotLabelsFrom(t, duration);
      forall i :: 0 <= i < |r| ==> ParseTime(r[i]) == Some(LatticeFrom(t, duration)[i])
    decreases ClosingTime - t
  {
    if t < ClosingTime && t + duration <= ClosingTime {
      ParseFormatTime(t);
      SlotLabelsParse(t + duration, duration);
    }
  }

  /** The labels of every start of a room with this duration, one per start of its lattice. */
  function PossibleSlots(duration: int): (r: seq<string>)
    requires duration > 0
    ensures |r| == |Lattice(duration)|
  {
    SlotLabelsFrom(OpeningTime, duration)
  }

  /**
   * `generatePossibleSlots`: from 10:00, push the start and step by the
   * duration, stopping before a slot that would end after 22:00.
   */
  method GeneratePossibleSlots(duration: int) returns (slots: seq<string>)
    requires duration > 0
    ensures slots == PossibleSlots(duration)
  {
    ghost var starts: seq<int> := [];
    slots := [];
    var t: int := OpeningTime;
    while t < ClosingTime
      invariant OpeningTime <= t
      invariant starts + LatticeFrom(t, duration) == Lattice(duration)
      invariant |slots| == |starts|
      invariant forall i :: 0 <= i < |slots| ==> ParseTime(slots[i]) == Some(starts[i])
      decreases ClosingTime - t
    {
      var slotEnd := t + duration;
      if slotEnd > ClosingTime {
        break;
      }
      assert LatticeFrom(t, duration) == [t] + LatticeFrom(slotEnd, duration);
      assert starts + ([t] + LatticeFrom(slotEnd, duration)) == (starts + [t]) + LatticeFrom(slotEnd, duration);
      ParseFormatTime(t);
      starts := starts + [t];
      slots := slots + [FormatTime(t)];
      t := slotEnd;
    }
    assert LatticeFrom(t, duration) == [];
    assert starts == Lattice(duration);
    LabelsDetermined(slots, duration);
  }

  /** The labels are the only strings that read back as the lattice starts, in order. */
  lemma LabelsDetermined(s: seq<string>, duration: int)
    requires duration > 0
    requires |s| == |Lattice(duration)|
    requires forall i :: 0 <= i < |s| ==> ParseTime(s[i]) == Some(Lattice(duration)[i])
    ensures s == PossibleSlots(duration)
  {
    var r := PossibleSlots(duration);
    SlotLabelsParse(OpeningTime, duration);
    forall i | 0 <= i < |s|
      ensures s[i] == r[i]
    {
      FormatParseTime(s[i]);
      FormatParseTime(r[i]);
    }
  }

  /** Each label is the formatted lattice start at the same position. */
  lemma PossibleSlotsFormat(duration: int, i: int)
    requires duration > 0 && 0 <= i < |PossibleSlots(duration)|
    ensures 0 <= Lattice(duration)[i] < MinutesPerDay
    ensures PossibleSlots(duration)[i] == FormatTime(Lattice(duration)[i])
  {
    SlotLabelsParse(OpeningTime, duration);
    var r := PossibleSlots(duration);
    assert ParseTime(r[i]) == Some(Lattice(duration)[i]);
    FormatParseTime(r[i]);
  }

  /**
   * The client's labels are exactly the starts of the server's lattice for
   * the same duration: a label is drawn iff it is a valid time on the lattice.
   */
  lemma PossibleSlotsMember(duration: int, s: string)
    requires duration > 0
    ensures s in PossibleSlots(duration) <==> ParseTime(s).Some? && ParseTime(s).value in Lattice(duration)
  {
    var r := PossibleSlots(duration);
    var l := Lattice(duration);
    SlotLabelsParse(OpeningTime, duration);
    if s in r {
      var i :| 0 <= i < |r| && r[i] == s;
      assert ParseTime(s) == Some(l[i]);
    }
    if ParseTime(s).Some? && ParseTime(s).value in l {
      var i :| 0 <= i < |l| && l[i] == ParseTime(s).value;
      FormatParseTime(s);
      PossibleSlotsFormat(duration, i);
      assert r[i] == s;
    }
  }

  /** The labels are in ascending order, under the string order too. */
  lemma PossibleSlotsAscending(duration: int, i: int, j: int)
    requires duration > 0 && 0 <= i < j < |PossibleSlots(duration)|
    ensures StringLess(PossibleSlots(duration)[i], PossibleSlots(duration)[j])
  {
    PossibleSlotsFormat(duration, i);
    PossibleSlotsFormat(duration, j);
    LatticeIncreasing(duration, i, j);
    FormatTimeOrder(Lattice(duration)[i], Lattice(duration)[j]);
  }

  /** The label of hour `h`, minute `m`, digit by digit. */
  lemma TimeLabel(h: nat, m: nat)
    requires h < 24 && m < 60
    ensures FormatTime(60 * h + m) == [DigitChar(h / 10), DigitChar(h % 10), ':', DigitChar(m / 10), DigitChar(m % 10), ':', '0', '0']
  {
    assert (60 * h + m) / 60 == h && (60 * h + m) % 60 == m;
  }

  /** A 60-minute room shows 12 slots, 10:00:00 to 21:00:00. */
  lemma PossibleSlotsOfHour()
    ensures |PossibleSlots(60)| == 12
    ensures PossibleSlots(60)[0] == "10:00:00" && PossibleSlots(60)[11] == "21:00:00"
  {
    LatticeOfHour();
    PossibleSlotsFormat(60, 0);
    PossibleSlotsFormat(60, 11);
    TimeLabel(10, 0);
    TimeLabel(21, 0);
  }

  /** A 90-minute room shows 8 slots, the last at 20:30:00. */
  lemma PossibleSlotsOfNinetyMinutes()
    ensures |PossibleSlots(90)| == 8 && PossibleSlots(90)[7] == "20:30:00"
  {
    LatticeOfNinetyMinutes();
    PossibleSlotsFormat(90, 7);
    TimeLabel(20, 30);
  }

  // ---------------------------------------------------------------------
  // The shown week

  /** `generateWeekDays`: the seven days from the week's start. */
  method GenerateWeekDays(weekStart: int) returns (days: seq<int>)
    ensures |days| == 7
    ensures forall i :: 0 <= i < 7 ==> days[i] == weekStart + i
    ensures IsoWeekday(weekStart) == 0 ==> forall i :: 0 <= i < 7 ==> WeekStart(days[i]) == weekStart
  {
    days := [];
    var i := 0;
    while i < 7
      invariant 0 <= i <= 7 && |days| == i
      invariant forall k :: 0 <= k < i ==> days[k] == weekStart + k
    {
      days := days + [weekStart + i];
      i := i + 1;
    }
    if IsoWeekday(weekStart) == 0 {
      forall k | 0 <= k < 7
        ensures WeekStart(days[k]) == weekStart
      {
        WeekStartOfWeekDay(weekStart, k);
      }
    }
  }

  /** Two Mondays differ by a whole number of weeks. */
  lemma MondaysApart(a: int, w: int)
    requires IsoWeekday(a) == 0 && IsoWeekday(w) == 0 && a > w
    ensures a - 7 >= w
  {
    var ka := (a + 3) / 7;
    var kw := (w + 3) / 7;
    assert a + 3 == 7 * ka && w + 3 == 7 * kw;
    assert ka > kw;
  }

  // ---------------------------------------------------------------------
  // The server's free slots, by date

  /** One free slot as the `availableSlots` query returns it. */
  datatype ServerSlot = ServerSlot(date: int, time: string)

  /** The times of the slots on `date`, in the order the server sent them. */
  function TimesOn(slots: seq<ServerSlot>, date: int): seq<string>
  {
    if slots == [] then []
    else (if slots[0].date == date then [slots[0].time] else []) + TimesOn(slots[1..], date)
  }

  /** A time is in a date's bucket iff the server sent that date and time. */
  lemma {:induction false} TimesOnMember(slots: seq<ServerSlot>, date: int, time: string)
    ensures time in TimesOn(slots, date) <==> ServerSlot(date, time) in slots
  {
    if slots != [] {
      TimesOnMember(slots[1..], date, time);
      assert slots == [slots[0]] + slots[1..];
    }
  }

  /** Appending a slot appends its time to its own date's bucket only. */
  lemma {:induction false} TimesOnAppend(slots: seq<ServerSlot>, x: ServerSlot, date: int)
    ensures TimesOn(slots + [x], date) == TimesOn(slots, date) + (if x.date == date then [x.time] else [])
  {
    if slots != [] {
      assert (slots + [x])[1..] == slots[1..] + [x];
      TimesOnAppend(slots[1..], x, date);
    }
  }

  /** A date the server did not send has an empty bucket. */
  lemma {:induction false} TimesOnOther(slots: seq<ServerSlot>, date: int)
    requires forall i :: 0 <= i < |slots| ==> slots[i].date != date
    ensures TimesOn(slots, date) == []
  {
    if slots != [] {
      TimesOnOther(slots[1..], date);
    }
  }

  /**
   * The grouping effect: each slot's time is pushed onto the list of its
   * date, which is created on first use.
   */
  method GroupByDate(slots: seq<ServerSlot>) returns (byDate: map<int, seq<string>>)
    ensures forall d :: d in byDate <==> exists i :: 0 <= i < |slots| && slots[i].date == d
    ensures forall d :: d in byDate ==> byDate[d] == TimesOn(slots, d)
  {
    byDate := map[];
    var i := 0;
    while i < |slots|
      invariant 0 <= i <= |slots|
      invariant forall d :: d in byDate <==> exists k :: 0 <= k < i && slots[k].date == d
      invariant forall d :: d in byDate ==> byDate[d] == TimesOn(slots[..i], d)
    {
      var slot := slots[i];
      assert slots[..i + 1] == slots[..i] + [slot];
      if slot.date !in byDate {
        TimesOnOther(slots[..i], slot.date);
        byDate := byDate[slot.date := []];
      }
      forall d | d in byDate
        ensures TimesOn(slots[..i + 1], d) == TimesOn(slots[..i], d) + (if slot.date == d then [slot.time] else [])
      {
        TimesOnAppend(slots[..i], slot, d);
      }
      byDate := byDate[slot.date := byDate[slot.date] + [slot.time]];
      i := i + 1;
    }
    assert slots[..i] == slots;
  }

  /**
   * `isSlotAvailable(date, time)`: false once the slot has begun, otherwise
   * whether the time is in the date's bucket. A time that does not parse
   * is never "before now", as with an invalid date in dayjs.
   */
  predicate IsSlotAvailable(byDate: map<int, seq<string>>, date: int, time: string, now: int)
    ensures IsSlotAvailable(byDate, date, time, now) ==> date in byDate && time in byDate[date]
    ensures date !in byDate ==> !IsSlotAvailable(byDate, date, time, now)
  {
    var start := ParseTime(time);
    !(start.Some? && Instant(date, start.value) < now) && date in byDate && time in byDate[date]
  }

  /** For a drawn label: available iff not yet begun and sent by the server. */
  lemma IsSlotAvailableMeans(slots: seq<ServerSlot>, byDate: map<int, seq<string>>, date: int, t: Minute, now: int)
    requires forall d :: d in byDate <==> exists i :: 0 <= i < |slots| && slots[i].date == d
    requires forall d :: d in byDate ==> byDate[d] == TimesOn(slots, d)
    ensures IsSlotAvailable(byDate, date, FormatTime(t), now) <==>
      now <= Instant(date, t) && ServerSlot(date, FormatTime(t)) in slots
  {
    ParseFormatTime(t);
    TimesOnMember(slots, date, FormatTime(t));
    if ServerSlot(date, FormatTime(t)) in slots {
      var i :| 0 <= i < |slots| && slots[i] == ServerSlot(date, FormatTime(t));
      assert slots[i].date == date;
    }
  }

  // ---------------------------------------------------------------------
  // The calendar's state

  /** What the calendar reports to the form: a cleared pick, or a date and time. */
  datatype SlotReport = Cleared | Chosen(date: int, time: string)

  class BookingCalendar {
    var currentWeekStart: int
    var selectedDate: int
    var selectedDayOfWeek: int
    var selectedTime: Option<string>
    var availableSlots: map<int, seq<string>>

    /** The shown week always starts on a Monday. */
    ghost predicate Valid()
      reads this
    {
      IsoWeekday(currentWeekStart) == 0
    }

    /** The calendar opens on the current ISO week, its Monday selected. */
    constructor(today: int)
      ensures Valid()
      ensures currentWeekStart == WeekStart(today) && selectedDate == WeekStart(today)
      ensures selectedDayOfWeek == 0 && selectedTime == None && availableSlots == map[]
    {
      currentWeekStart := WeekStart(today);
      selectedDate := WeekStart(today);
      selectedDayOfWeek := 0;
      selectedTime := None;
      availableSlots := map[];
    }

    /** The "Prev Week" button is disabled on the current week. */
    predicate PrevWeekDisabled(today: int)
      reads this
    {
      currentWeekStart == WeekStart(today)
    }

    /** `handleNextWeek`. */
    method HandleNextWeek()
      requires Valid()
      modifies this
      ensures Valid()
      ensures currentWeekStart == old(currentWeekStart) + 7
      ensures selectedDate == old(selectedDate) && selectedDayOfWeek == old(selectedDayOfWeek)
      ensures selectedTime == old(selectedTime) && availableSlots == old(availableSlots)
    {
      currentWeekStart := currentWeekStart + 7;
    }

    /**
     * `handlePrevWeek`: go back a week unless that week starts before the
     * current one; the shown week never moves before today's week.
     */
    method HandlePrevWeek(today: int)
      requires Valid()
      modifies this
      ensures Valid()
      ensures currentWeekStart ==
        if old(currentWeekStart) - 7 >= WeekStart(today) then old(currentWeekStart) - 7 else old(currentWeekStart)
      ensures old(currentWeekStart) >= WeekStart(today) ==> currentWeekStart >= WeekStart(today)
      ensures old(currentWeekStart) > WeekStart(today) ==> currentWeekStart == old(currentWeekStart) - 7
      ensures selectedDate == old(selectedDate) && selectedDayOfWeek == old(selectedDayOfWeek)
      ensures selectedTime == old(selectedTime) && availableSlots == old(availableSlots)
    {
      if currentWeekStart > WeekStart(today) {
        MondaysApart(currentWeekStart, WeekStart(today));
      }
      var newWeekStart := currentWeekStart - 7;
      if newWeekStart >= WeekStart(today) {
        currentWeekStart := newWeekStart;
      }
    }

    /** `handleDateSelect`: pick a day, clearing the time. */
    method HandleDateSelect(date: int)
      requires Valid()
      modifies this
      ensures Valid()
      ensures selectedDate == date && selectedDayOfWeek == date - currentWeekStart && selectedTime == None
      ensures currentWeekStart == old(currentWeekStart) && availableSlots == old(availableSlots)
    {
      selectedDate := date;
      selectedDayOfWeek := date - currentWeekStart;
      selectedTime := None;
    }

    /**
     * `handleTimeSelect`: the picked time again clears the pick and reports
     * an empty date and time; another time is picked and reported with the
     * selected date.
     */
    method HandleTimeSelect(time: string) returns (report: SlotReport)
      requires Valid()
      modifies this
      ensures Valid()
      ensures old(selectedTime) == Some(time) ==> selectedTime == None && report == Cleared
      ensures old(selectedTime) != Some(time) ==> selectedTime == Some(time) && report == Chosen(selectedDate, time)
      ensures currentWeekStart == old(currentWeekStart) && selectedDate == old(selectedDate)
      ensures selectedDayOfWeek == old(selectedDayOfWeek) && availableSlots == old(availableSlots)
    {
      if selectedTime == Some(time) {
        selectedTime := None;
        report := Cleared;
      } else {
        selectedTime := Some(time);
        report := Chosen(selectedDate, time);
      }
    }

    /** A click on a slot button acts only when the slot is available. */
    method ClickTimeSlot(time: string, now: int) returns (report: Option<SlotReport>)
      requires Valid()
      modifies this
      ensures Valid()
      ensures !old(IsSlotAvailable(availableSlots, selectedDate, time, now)) ==>
        report == None && selectedTime == old(selectedTime)
      ensures old(IsSlotAvailable(availableSlots, selectedDate, time, now)) && old(selectedTime) == Some(time) ==>
        report == Some(Cleared) && selectedTime == None
      ensures old(IsSlotAvailable(availableSlots, selectedDate, time, now)) && old(selectedTime) != Some(time) ==>
        report == Some(Chosen(selectedDate, time)) && selectedTime == Some(time)
      ensures currentWeekStart == old(currentWeekStart) && selectedDate == old(selectedDate)
      ensures selectedDayOfWeek == old(selectedDayOfWeek) && availableSlots == old(availableSlots)
    {
      if IsSlotAvailable(availableSlots, selectedDate, time, now) {
        var rep := HandleTimeSelect(time);
        report := Some(rep);
      } else {
        report := None;
      }
    }

    /**
     * The effect run when the week's slots arrive: group them by date and
     * go back to the Monday of the shown week with no time picked.
     */
    method OnSlotsLoaded(slots: seq<ServerSlot>)
      requires Valid()
      modifies this
      ensures Valid()
      ensures forall d :: d in availableSlots <==> exists i :: 0 <= i < |slots| && slots[i].date == d
      ensures forall d :: d in availableSlots ==> availableSlots[d] == TimesOn(slots, d)
      ensures currentWeekStart == old(currentWeekStart)
      ensures selectedDate == currentWeekStart && selectedDayOfWeek == 0 && selectedTime == None
    {
      var byDate := GroupByDate(slots);
      availableSlots := byDate;
      selectedDate := currentWeekStart;
      selectedDayOfWeek := 0;
      selectedTime := None;
    }
  }
}
