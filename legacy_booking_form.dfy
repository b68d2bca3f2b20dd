/**
 * The older booking form, which picks the room from a list and asks the
 * older availability query for the day's slots: it hides the slots of today
 * that have passed, moves a past date to today, resets the players when the
 * room changes and picks the first slot shown.
 *
 * Dates are the "YYYY-MM-DD" strings of the date input, times the
 * "HH:mm:ss" strings of the server; the current date and time are
 * parameters.
 */
module LegacyBookingForm {
  import opened Wrappers
  import opened Js
  import opened Clock
  import opened BookingModel
  import opened Sequences
  import opened BookingForm

  // ---------------------------------------------------------------------
  // Passed slots of today

  /** The clock as dayjs's `format("HH:mm:ss")` writes it, seconds included. */
  function ClockString(t: Minute, sec: nat): (s: string)
    requires sec < 60
    ensures |s| == 8
  {
    TwoDigits(t / 60) + ":" + TwoDigits(t % 60) + ":" + TwoDigits(sec)
  }

  /**
   * Strings that agree on their first `k` characters compare the same way
   * with a string that differs from them within those characters.
   */
  lemma {:induction false} StringLessCommonPrefix(a: string, a': string, b: string, k: nat)
    requires k <= |a| && k <= |a'| && k <= |b|
    requires a[..k] == a'[..k] && a[..k] != b[..k]
    ensures StringLess(a, b) == StringLess(a', b)
  {
    assert a[0] == a'[0];
    if a[0] == b[0] {
      assert a[1..][..k - 1] == a[..k][1..] && a'[1..][..k - 1] == a'[..k][1..] && b[1..][..k - 1] == b[..k][1..];
      assert a[..k] == [a[0]] + a[..k][1..] && b[..k] == [b[0]] + b[..k][1..];
      StringLessCommonPrefix(a[1..], a'[1..], b[1..], k - 1);
    }
  }

  /**
   * A server slot is later than the clock string iff its minute is later
   * than the clock's: the seconds of the clock never let the slot of the
   * current minute through.
   */
  lemma LaterThanClock(slot: Minute, now: Minute, sec: nat)
    requires sec < 60
    ensures StringLess(ClockString(now, sec), FormatTime(slot)) <==> now < slot
  {
    var c, f, x := ClockString(now, sec), FormatTime(now), FormatTime(slot);
    assert c[..6] == f[..6];
    if now == slot {
      StringLessSame(c, x, 6);
      assert c[6..] == TwoDigits(sec) && x[6..] == "00";
    } else {
      if f[..6] == x[..6] {
        assert f == f[..6] + f[6..] && x == x[..6] + x[6..];
        FormatTimeInjective(now, slot);
      }
      StringLessCommonPrefix(c, f, x, 6);
      FormatTimeOrder(now, slot);
    }
  }

  /**
   * The slots shown for the chosen date: on today's date only the slots
   * later than the current clock string, on any other date all of them, in
   * the server's order.
   */
  function ShownSlots(available: seq<string>, date: string, currDate: string, currTime: string): (r: seq<string>)
    ensures date != currDate ==> r == available
    ensures Subsequence(r, available)
    ensures forall s :: s in r <==> s in available && (date == currDate ==> StringLess(currTime, s))
  {
    if currDate == date then Filter(available, s => StringLess(currTime, s))
    else
      SubsequenceRefl(available);
      available
  }

  /** On today's date a slot is shown iff the server offers it and its minute is still to come. */
  lemma ShownSlotsToday(available: seq<string>, today: string, now: Minute, sec: nat, t: Minute)
    requires sec < 60
    ensures FormatTime(t) in ShownSlots(available, today, today, ClockString(now, sec)) <==>
      FormatTime(t) in available && now < t
  {
    LaterThanClock(t, now, sec);
  }

  // ---------------------------------------------------------------------
  // Past dates

  /** dayjs's `isBefore(other, "day")` on calendar dates. */
  predicate CivilBefore(a: CivilDate, b: CivilDate)
  {
    a.year < b.year || (a.year == b.year && (a.month < b.month || (a.month == b.month && a.day < b.day)))
  }

  /**
   * The date input's handler: a date before today becomes today's date;
   * anything else, including what does not read as a date, is kept.
   */
  function ClampDate(value: string, today: CivilDate): (r: string)
    requires ValidCivil(today)
    ensures ParseIsoDate(value).Some? && CivilBefore(ParseIsoDate(value).value, today) ==> r == FormatIsoDate(today)
    ensures !(ParseIsoDate(value).Some? && CivilBefore(ParseIsoDate(value).value, today)) ==> r == value
  {
    var d := ParseIsoDate(value);
    if d.Some? && CivilBefore(d.value, today) then FormatIsoDate(today) else value
  }

  /** The clamped date is never a date before today, and clamping twice is clamping once. */
  lemma ClampDateNotPast(value: string, today: CivilDate)
    requires ValidCivil(today)
    ensures ParseIsoDate(ClampDate(value, today)).Some? ==> !CivilBefore(ParseIsoDate(ClampDate(value, today)).value, today)
    ensures ClampDate(ClampDate(value, today), today) == ClampDate(value, today)
  {
    ParseFormatIsoDate(today);
  }

  // ---------------------------------------------------------------------
  // The form

  /** The first room with the given id, as `escapeRooms.find` returns it. */
  function FindRoom(rooms: seq<EscapeRoom>, id: Number): (r: Option<EscapeRoom>)
    ensures r.None? <==> forall x :: x in rooms ==> Num(x.id) != id
    ensures r.Some? ==> r.value in rooms && Num(r.value.id) == id
    ensures rooms != [] && Num(rooms[0].id) == id ==> r == Some(rooms[0])
  {
    if rooms == [] then None
    else if Num(rooms[0].id) == id then Some(rooms[0])
    else FindRoom(rooms[1..], id)
  }

  /** A JavaScript number is truthy iff it is neither 0 nor NaN. */
  predicate NumberTruthy(n: Number) { n.Num? && n.n != 0 }

  datatype LegacyFormData = LegacyFormData(
    escapeRoomId: Number, numberOfPlayers: Number, date: string, time: string,
    escapeRoomImage: Option<string>, escapeRoomDescription: string)

  /** The named inputs of the form. */
  datatype InputName = RoomInput | PlayersInput | DateInput | TimeInput

  class LegacyBookingFormState {
    var formData: LegacyFormData
    var escapeRooms: seq<EscapeRoom>
    var timeSlots: seq<string>
    var playerOptions: seq<int>
    var selectedRoom: Option<EscapeRoom>

    constructor(formData: LegacyFormData, escapeRooms: seq<EscapeRoom>)
      ensures this.formData == formData && this.escapeRooms == escapeRooms
      ensures timeSlots == [] && playerOptions == [] && selectedRoom == None
    {
      this.formData := formData;
      this.escapeRooms := escapeRooms;
      timeSlots := [];
      playerOptions := [];
      selectedRoom := None;
    }

    /** The price line of the form: the selected room's price times the players. */
    function TotalPriceShown(): (r: Number)
      reads this
      ensures selectedRoom.None? ==> r == Num(0)
      ensures selectedRoom.Some? && formData.numberOfPlayers.Num? ==>
        r == Num(selectedRoom.value.price * formData.numberOfPlayers.n)
    {
      TotalPrice(selectedRoom, formData.numberOfPlayers)
    }

    /** The effect on the fetched slots: keep those still to come on today's date. */
    method OnSlotsLoaded(available: seq<string>, currDate: string, currTime: string)
      modifies this
      ensures timeSlots == ShownSlots(available, formData.date, currDate, currTime)
      ensures formData == old(formData) && escapeRooms == old(escapeRooms)
      ensures playerOptions == old(playerOptions) && selectedRoom == old(selectedRoom)
    {
      timeSlots := ShownSlots(available, formData.date, currDate, currTime);
    }

    /** The effect on the shown slots: when there are any, the first becomes the time. */
    method OnTimeSlotsChanged()
      modifies this
      ensures timeSlots != [] ==> formData == old(formData).(time := timeSlots[0])
      ensures timeSlots == [] ==> formData == old(formData)
      ensures timeSlots == old(timeSlots) && escapeRooms == old(escapeRooms)
      ensures playerOptions == old(playerOptions) && selectedRoom == old(selectedRoom)
    {
      if |timeSlots| > 0 {
        formData := formData.(time := timeSlots[0]);
      }
    }

    /**
     * The effect on the room list and the room id: for a known room, select
     * it, offer its player counts and start from its minimum.
     */
    method OnRoomChanged()
      modifies this
      ensures var room := FindRoom(old(escapeRooms), old(formData).escapeRoomId);
        if old(escapeRooms) != [] && NumberTruthy(old(formData).escapeRoomId) && room.Some? then
          selectedRoom == room &&
          (forall n :: n in playerOptions <==> room.value.playersMin <= n <= room.value.playersMax) &&
          formData == old(formData).(numberOfPlayers := Num(room.value.playersMin),
                                     escapeRoomImage := room.value.imageUrl,
                                     escapeRoomDescription := room.value.description)
        else
          selectedRoom == old(selectedRoom) && playerOptions == old(playerOptions) && formData == old(formData)
      ensures timeSlots == old(timeSlots) && escapeRooms == old(escapeRooms)
    {
      if |escapeRooms| > 0 && NumberTruthy(formData.escapeRoomId) {
        var room := FindRoom(escapeRooms, formData.escapeRoomId);
        if room.Some? {
          selectedRoom := room;
          var options := PlayerOptions(room.value.playersMin, room.value.playersMax);
          forall n
            ensures n in options <==> room.value.playersMin <= n <= room.value.playersMax
          {
            PlayerOptionsMember(options, room.value.playersMin, room.value.playersMax, n);
          }
          playerOptions := options;
          formData := formData.(numberOfPlayers := Num(room.value.playersMin),
                                escapeRoomImage := room.value.imageUrl,
                                escapeRoomDescription := room.value.description);
        }
      }
    }

    /**
     * `handleInputChange`. A new room rebuilds the player counts and resets
     * the players to the room's minimum; an id no room has makes the handler
     * fail (`ok` is false) after clearing the selected room. The players
     * field is parsed, a past date becomes today, the time is kept verbatim.
     */
    method HandleInputChange(name: InputName, value: string, today: CivilDate) returns (ok: bool)
      requires ValidCivil(today)
      modifies this
      ensures name != RoomInput ==> ok && selectedRoom == old(selectedRoom) && playerOptions == old(playerOptions)
      ensures name == RoomInput ==> var room := FindRoom(escapeRooms, ParseInt(value));
        selectedRoom == room && (ok <==> room.Some?) &&
        (room.Some? ==>
          (forall n :: n in playerOptions <==> room.value.playersMin <= n <= room.value.playersMax) &&
          formData == old(formData).(escapeRoomId := ParseInt(value), numberOfPlayers := Num(room.value.playersMin))) &&
        (room.None? ==> formData == old(formData) && playerOptions == old(playerOptions))
      ensures name == PlayersInput ==> formData == old(formData).(numberOfPlayers := ParseInt(value))
      ensures name == DateInput ==> formData == old(formData).(date := ClampDate(value, today))
      ensures name == TimeInput ==> formData == old(formData).(time := value)
      ensures timeSlots == old(timeSlots) && escapeRooms == old(escapeRooms)
    {
      ok := true;
      match name {
        case RoomInput =>
          var room := FindRoom(escapeRooms, ParseInt(value));
          selectedRoom := room;
          if room.None? {
            return false;
          }
          var options := PlayerOptions(room.value.playersMin, room.value.playersMax);
          forall n
            ensures n in options <==> room.value.playersMin <= n <= room.value.playersMax
          {
            PlayerOptionsMember(options, room.value.playersMin, room.value.playersMax, n);
          }
          playerOptions := options;
          formData := formData.(escapeRoomId := ParseInt(value), numberOfPlayers := Num(room.value.playersMin));
        case PlayersInput =>
          formData := formData.(numberOfPlayers := ParseInt(value));
        case DateInput =>
          formData := formData.(date := ClampDate(value, today));
        case TimeInput =>
          formData := formData.(time := value);
      }
    }
  }
}
