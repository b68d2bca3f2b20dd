/**
 * The booking form of a room page: the player buttons from the room's
 * minimum to its maximum, the price line, the picked slot and the submit
 * guard that refuses to send a booking without a date and a time.
 *
 * The form fields are the page's state; JavaScript's `parseInt` is modelled
 * by Js.ParseInt, so a field may hold NaN.
 */
module BookingForm {
  import opened Wrappers
  import opened Js
  import opened BookingModel

  /** The fields of the form, as the page holds them. */
  datatype FormData = FormData(escapeRoomId: Number, numberOfPlayers: Number, date: string, time: string)

  /** The inputs whose change handler stores `parseInt(value, 10)`. */
  datatype NumericField = RoomField | PlayersField

  /** What `bookRoom` hands to `createABooking`. */
  datatype BookingRequest = BookingRequest(escapeRoomId: Number, numberOfPlayers: Number, date: string, time: string)

  /** The one text the form's snack bar shows, whatever opened it. */
  const SnackBarText: string := "Please select a date and time for your booking"

  /** The loop of the player-options effect: every count from `min` to `max`. */
  method PlayerOptions(min: int, max: int) returns (options: seq<int>)
    ensures |options| == if min <= max then max - min + 1 else 0
    ensures forall k :: 0 <= k < |options| ==> options[k] == min + k
  {
    options := [];
    var i := min;
    while i <= max
      invariant min <= i && (min <= max ==> i <= max + 1) && (min > max ==> i == min)
      invariant |options| == i - min
      invariant forall k :: 0 <= k < |options| ==> options[k] == min + k
      decreases max - i
    {
      options := options + [i];
      i := i + 1;
    }
  }

  /** A count is offered iff it lies within the room's bounds. */
  lemma PlayerOptionsMember(options: seq<int>, min: int, max: int, n: int)
    requires |options| == if min <= max then max - min + 1 else 0
    requires forall k :: 0 <= k < |options| ==> options[k] == min + k
    ensures n in options <==> min <= n <= max
  {
    if min <= n <= max {
      assert options[n - min] == n;
    }
  }

  /** `calculateTotalPrice`: price times players, 0 when no room is loaded. */
  function TotalPrice(room: Option<EscapeRoom>, players: Number): (r: Number)
    ensures room.None? ==> r == Num(0)
    ensures room.Some? && players.Num? ==> r == Num(room.value.price * players.n)
    ensures room.Some? && players.NaN? ==> r.NaN?
  {
    if room.None? then Num(0) else Times(Num(room.value.price), players)
  }

  /** A JavaScript string is falsy iff it is empty. */
  predicate Truthy(s: string) { s != "" }

  /** The submit button is disabled while sending or while the slot is incomplete. */
  predicate SubmitDisabled(form: FormData, isSubmitting: bool)
  {
    isSubmitting || !Truthy(form.date) || !Truthy(form.time)
  }

  class BookingFormState {
    var formData: FormData
    var playerOptions: seq<int>
    var isSubmitting: bool
    var showSnackBar: bool
    var confirmationPage: bool

    constructor(formData: FormData)
      ensures this.formData == formData && playerOptions == []
      ensures !isSubmitting && !showSnackBar && !confirmationPage
    {
      this.formData := formData;
      playerOptions := [];
      isSubmitting := false;
      showSnackBar := false;
      confirmationPage := false;
    }

    /** The effect on the room: with a room loaded, offer its player counts. */
    method OnRoomLoaded(room: Option<EscapeRoom>)
      modifies this
      ensures room.Some? ==> forall n :: n in playerOptions <==> room.value.playersMin <= n <= room.value.playersMax
      ensures room.Some? ==> forall k :: 0 <= k < |playerOptions| ==> playerOptions[k] == room.value.playersMin + k
      ensures room.None? ==> playerOptions == old(playerOptions)
      ensures formData == old(formData) && isSubmitting == old(isSubmitting)
      ensures showSnackBar == old(showSnackBar) && confirmationPage == old(confirmationPage)
    {
      if room.Some? {
        var options := PlayerOptions(room.value.playersMin, room.value.playersMax);
        forall n
          ensures n in options <==> room.value.playersMin <= n <= room.value.playersMax
        {
          PlayerOptionsMember(options, room.value.playersMin, room.value.playersMax, n);
        }
        playerOptions := options;
      }
    }

    /** `handleInputChange`: the named field gets the parsed value, the rest is kept. */
    method HandleInputChange(field: NumericField, value: string)
      modifies this
      ensures field == RoomField ==> formData == old(formData).(escapeRoomId := ParseInt(value))
      ensures field == PlayersField ==> formData == old(formData).(numberOfPlayers := ParseInt(value))
      ensures playerOptions == old(playerOptions) && isSubmitting == old(isSubmitting)
      ensures showSnackBar == old(showSnackBar) && confirmationPage == old(confirmationPage)
    {
      match field {
        case RoomField => formData := formData.(escapeRoomId := ParseInt(value));
        case PlayersField => formData := formData.(numberOfPlayers := ParseInt(value));
      }
    }

    /** A player button sets the count to its number. */
    method SelectPlayers(n: int)
      modifies this
      ensures formData == old(formData).(numberOfPlayers := Num(n))
      ensures playerOptions == old(playerOptions) && isSubmitting == old(isSubmitting)
      ensures showSnackBar == old(showSnackBar) && confirmationPage == old(confirmationPage)
    {
      formData := formData.(numberOfPlayers := Num(n));
    }

    /** `handleTimeSlotClick`: the picked time again clears it, another time is picked. */
    method HandleTimeSlotClick(time: string)
      modifies this
      ensures old(formData).time == time ==> formData == old(formData).(time := "")
      ensures old(formData).time != time ==> formData == old(formData).(time := time)
      ensures playerOptions == old(playerOptions) && isSubmitting == old(isSubmitting)
      ensures showSnackBar == old(showSnackBar) && confirmationPage == old(confirmationPage)
    {
      if formData.time == time {
        formData := formData.(time := "");
      } else {
        formData := formData.(time := time);
      }
    }

    /**
     * `bookRoom`. Without a date or a time nothing is sent and the snack bar
     * opens; otherwise the request is sent, and `created` (the outcome of
     * `createABooking`, which is not modelled) decides between the
     * confirmation page and the snack bar. Sending always ends.
     */
    method BookRoom(created: Result<bool, string>) returns (request: Option<BookingRequest>)
      modifies this
      ensures request.None? <==> !Truthy(old(formData).date) || !Truthy(old(formData).time)
      ensures request.None? <==> SubmitDisabled(old(formData), false)
      ensures request.Some? ==> request.value == BookingRequest(formData.escapeRoomId, formData.numberOfPlayers, formData.date, formData.time)
      ensures request.None? ==> showSnackBar && confirmationPage == old(confirmationPage)
      ensures request.Some? && created.Success? ==> confirmationPage && showSnackBar == old(showSnackBar)
      ensures request.Some? && created.Failure? ==> showSnackBar && confirmationPage == old(confirmationPage)
      ensures !isSubmitting
      ensures formData == old(formData) && playerOptions == old(playerOptions)
    {
      isSubmitting := true;
      if !Truthy(formData.date) || !Truthy(formData.time) {
        showSnackBar := true;
        isSubmitting := false;
        return None;
      }
      request := Some(BookingRequest(formData.escapeRoomId, formData.numberOfPlayers, formData.date, formData.time));
      if created.Success? {
        confirmationPage := true;
      } else {
        showSnackBar := true;
      }
      isSubmitting := false;
    }
  }
}
