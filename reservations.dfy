/**
 * The reservation engine of the API as pure functions over the booking
 * table: every mutation maps (rooms, bookings, next id, caller, arguments,
 * clock) to an outcome and the new table. The class in module Store runs
 * the same operations step by step and is proved equal to these functions.
 *
 * The table is a map from booking id to row; the catalogue is a map from
 * room id to room. Sequelize's row-level behaviour that matters here is
 * kept: an `update` that changes no column writes nothing (and so leaves
 * `updated_at` alone), and an ENUM column rejects a string outside its list.
 */
module Reservations {
  import opened Wrappers
  import opened Js
  import opened Clock
  import opened BookingModel

  type Bookings = map<nat, Booking>
  type Rooms = map<int, EscapeRoom>

  /** The identity the authentication middleware attaches to a request. */
  datatype User = User(id: int, isAdmin: bool)

  /** The four Apollo error classes the resolvers throw, with their messages. */
  datatype ApiError =
    | AuthenticationError(message: string)
    | ForbiddenError(message: string)
    | UserInputError(message: string)
    | ApolloError(message: string)

  /** What a mutation answers, together with the table it leaves behind. */
  datatype Outcome<T> = Outcome(result: Result<T, ApiError>, bookings: Bookings, nextId: nat)

  const NotLoggedIn: string := "You need to be logged in!"
  const AdminRequired: string := "Admin access required"
  const RoomNotFound: string := "Escape room not found"
  const BookingNotFound: string := "Booking not found"
  const SlotUnavailable: string := "This time slot is no longer available"
  const CannotView: string := "You don't have permission to view this booking!"
  const CannotUpdate: string := "You don't have permission to update this booking!"
  const CannotDelete: string := "You don't have permission to delete this booking!"
  const CreateFailed: string := "Failed to create booking. Please try again."
  const UpdateFailed: string := "Failed to update booking. Please try again."
  const PaymentFailed: string := "Failed to update payment. Please try again."
  const SweepFailed: string := "Failed to complete expired bookings."

  function PlayersOutOfRange(room: EscapeRoom): string
  {
    "Number of players must be between " + IntToString(room.playersMin) + " and " + IntToString(room.playersMax)
  }

  // ---------------------------------------------------------------------
  // Invariants

  /**
   * What the database guarantees about the table: every row is stored under
   * its own id, below the next auto-increment value, and refers to a room of
   * the catalogue (the foreign key cascades on room deletion). Nothing is
   * assumed about a room's duration: the column is any integer.
   */
  predicate StoreInvariant(rooms: Rooms, m: Bookings, nextId: nat)
  {
    forall id :: id in m ==> m[id].id == id && id < nextId && m[id].roomId in rooms
  }

  predicate SameSlot(a: Booking, b: Booking)
  {
    a.roomId == b.roomId && a.date == b.date && a.time == b.time
  }

  /** At most one active booking per room, date and time. */
  predicate NoDoubleBooking(m: Bookings)
  {
    forall i, j :: i in m && j in m && i != j && m[i].status == Active && m[j].status == Active ==> !SameSlot(m[i], m[j])
  }

  /**
   * The `findOne({escape_room_id, date, time, status: "active"})` lookup.
   * Only an active row of that room can hold a slot, so an empty table
   * holds none.
   */
  predicate SlotTaken(m: Bookings, roomId: int, date: int, time: int)
    ensures SlotTaken(m, roomId, date, time) ==> exists id :: id in m && m[id].roomId == roomId && m[id].status == Active
    ensures m == map[] ==> !SlotTaken(m, roomId, date, time)
  {
    exists id :: id in m && m[id].roomId == roomId && m[id].date == date && m[id].time == time && m[id].status == Active
  }

  /** The access rule every per-booking operation applies: the owner or an admin. */
  predicate CanAccess(user: User, b: Booking)
    ensures user.isAdmin ==> CanAccess(user, b)
    ensures !user.isAdmin ==> (CanAccess(user, b) <==> b.userId == user.id)
  {
    b.userId == user.id || user.isAdmin
  }

  /**
   * Sequelize's `update`/`save`: when no column changed nothing is written;
   * otherwise the row is written and `updated_at` becomes the current time.
   */
  function Touch(before: Booking, after: Booking, now: int): (r: Booking)
    ensures after == before ==> r == before
    ensures after != before ==> r == after.(updatedAt := now)
  {
    if after == before then before else after.(updatedAt := now)
  }

  // ---------------------------------------------------------------------
  // createBooking

  /**
   * The checks `createBooking` makes inside its try block, in order, with
   * the error each one throws; None when the booking may be created.
   */
  function CreateBookingRejection(rooms: Rooms, m: Bookings, roomId: int, players: int, date: int, time: Minute): (e: Option<ApiError>)
    ensures e.None? <==> roomId in rooms && rooms[roomId].playersMin <= players <= rooms[roomId].playersMax && !SlotTaken(m, roomId, date, time)
    ensures roomId !in rooms ==> e == Some(UserInputError(RoomNotFound))
    ensures e.Some? ==> e.value.UserInputError?
  {
    if roomId !in rooms then Some(UserInputError(RoomNotFound))
    else if players < rooms[roomId].playersMin || players > rooms[roomId].playersMax then Some(UserInputError(PlayersOutOfRange(rooms[roomId])))
    else if SlotTaken(m, roomId, date, time) then Some(UserInputError(SlotUnavailable))
    else None
  }

  /**
   * `createBooking`. A missing user is an authentication error; any check
   * failing inside the try block is rethrown as the generic ApolloError.
   * On success exactly one row is added, under the next id.
   */
  function CreateBookingSpec(rooms: Rooms, m: Bookings, nextId: nat, user: Option<User>, roomId: int, players: int,
                             date: int, time: Minute, now: int): (o: Outcome<Booking>)
    ensures user.None? ==> o.result == Failure(AuthenticationError(NotLoggedIn))
    ensures user.Some? && o.result.Failure? ==> o.result.error == ApolloError(CreateFailed)
    ensures o.result.Success? <==> user.Some? && CreateBookingRejection(rooms, m, roomId, players, date, time).None?
    ensures o.result.Failure? ==> o.bookings == m && o.nextId == nextId
    ensures o.result.Success? ==>
      var b := o.result.value;
      o.bookings == m[nextId := b] && o.nextId == nextId + 1 &&
      b.id == nextId && b.userId == user.value.id && b.roomId == roomId &&
      b.numberOfPlayers == players && b.date == date && b.time == time &&
      b.status == Active && b.paymentStatus == PaymentPending &&
      b.paymentAmount == Some(rooms[roomId].price * players) && b.paymentMethod.None? &&
      b.createdAt == now && b.updatedAt == now
  {
    if user.None? then Outcome(Failure(AuthenticationError(NotLoggedIn)), m, nextId)
    else if CreateBookingRejection(rooms, m, roomId, players, date, time).Some? then Outcome(Failure(ApolloError(CreateFailed)), m, nextId)
    else
      var b := Booking(nextId, user.value.id, roomId, players, date, time, PaymentPending,
                       Some(rooms[roomId].price * players), None, Active, now, now);
      Outcome(Success(b), m[nextId := b], nextId + 1)
  }

  /** `createBooking` keeps the table consistent and never double-books a slot. */
  lemma {:induction false} CreateBookingPreserves(rooms: Rooms, m: Bookings, nextId: nat, user: Option<User>, roomId: int,
                                                   players: int, date: int, time: Minute, now: int)
    requires StoreInvariant(rooms, m, nextId)
    ensures var o := CreateBookingSpec(rooms, m, nextId, user, roomId, players, date, time, now);
      StoreInvariant(rooms, o.bookings, o.nextId) &&
      (NoDoubleBooking(m) ==> NoDoubleBooking(o.bookings)) &&
      (o.result.Success? ==> nextId !in m && forall id :: id in m ==> o.bookings[id] == m[id])
  {
    var o := CreateBookingSpec(rooms, m, nextId, user, roomId, players, date, time, now);
    if o.result.Success? {
      var b := o.result.value;
      assert nextId !in m;
      assert !SlotTaken(m, roomId, date, time);
      forall id | id in m && m[id].status == Active
        ensures !SameSlot(m[id], b)
      {
        if SameSlot(m[id], b) {
          assert SlotTaken(m, roomId, date, time);
        }
      }
    }
  }

  /**
   * The "pending" and "active" that `createBooking` passes are the column
   * defaults, so the new row is the defaults insert with only the amount
   * added.
   */
  lemma CreatedRowIsDefaultInsert(rooms: Rooms, m: Bookings, nextId: nat, user: Option<User>, roomId: int,
                                  players: int, date: int, time: Minute, now: int)
    ensures var o := CreateBookingSpec(rooms, m, nextId, user, roomId, players, date, time, now);
      o.result.Success? ==>
        o.result.value == InsertWithDefaults(nextId, user.value.id, roomId, players, date, time, now)
                            .(paymentAmount := Some(rooms[roomId].price * players))
  {
  }

  /**
   * Through the Booking field resolvers a new booking reads as payment
   * "pending", its full price as the amount, and no method.
   */
  lemma CreatedBookingView(rooms: Rooms, m: Bookings, nextId: nat, user: Option<User>, roomId: int,
                           players: int, date: int, time: Minute, now: int)
    ensures var o := CreateBookingSpec(rooms, m, nextId, user, roomId, players, date, time, now);
      o.result.Success? ==>
        var b := o.result.value;
        PaymentStatusView(Some(b.paymentStatus)) == "pending" &&
        PaymentAmountView(b.paymentAmount) == rooms[roomId].price * players &&
        PaymentMethodView(b.paymentMethod).None?
  {
  }

  // ---------------------------------------------------------------------
  // deleteBooking

  /**
   * `deleteBooking`: an admin removes the row; the owner cancels it, setting
   * both `status` and `payment_status` to cancelled whatever they were.
   */
  function DeleteBookingSpec(m: Bookings, nextId: nat, user: Option<User>, id: nat, now: int): (o: Outcome<bool>)
    ensures o.nextId == nextId
    ensures user.None? ==> o.result == Failure(AuthenticationError(NotLoggedIn))
    ensures user.Some? && id !in m ==> o.result == Failure(UserInputError(BookingNotFound))
    ensures user.Some? && id in m && !CanAccess(user.value, m[id]) ==> o.result == Failure(ForbiddenError(CannotDelete))
    ensures o.result.Success? <==> user.Some? && id in m && CanAccess(user.value, m[id])
    ensures o.result.Success? ==> o.result.value
    ensures o.result.Failure? ==> o.bookings == m
    ensures o.result.Success? && user.value.isAdmin ==> o.bookings == m - {id}
    ensures o.result.Success? && !user.value.isAdmin ==>
      o.bookings.Keys == m.Keys &&
      (forall k :: k in m && k != id ==> o.bookings[k] == m[k]) &&
      o.bookings[id].status == Cancelled && o.bookings[id].paymentStatus == PaymentCancelled &&
      o.bookings[id] == Touch(m[id], m[id].(status := Cancelled, paymentStatus := PaymentCancelled), now)
  {
    if user.None? then Outcome(Failure(AuthenticationError(NotLoggedIn)), m, nextId)
    else if id !in m then Outcome(Failure(UserInputError(BookingNotFound)), m, nextId)
    else if !CanAccess(user.value, m[id]) then Outcome(Failure(ForbiddenError(CannotDelete)), m, nextId)
    else if user.value.isAdmin then Outcome(Success(true), m - {id}, nextId)
    else
      var b := m[id];
      Outcome(Success(true), m[id := Touch(b, b.(status := Cancelled, paymentStatus := PaymentCancelled), now)], nextId)
  }

  /** Removing or cancelling a row keeps the table consistent and frees, never takes, a slot. */
  lemma {:induction false} DeleteBookingPreserves(rooms: Rooms, m: Bookings, nextId: nat, user: Option<User>, id: nat, now: int)
    requires StoreInvariant(rooms, m, nextId)
    ensures var o := DeleteBookingSpec(m, nextId, user, id, now);
      StoreInvariant(rooms, o.bookings, o.nextId) && (NoDoubleBooking(m) ==> NoDoubleBooking(o.bookings))
  {
    var o := DeleteBookingSpec(m, nextId, user, id, now);
    if o.result.Success? && !user.value.isAdmin {
      assert o.bookings[id].status != Active;
      assert forall k :: k in o.bookings && o.bookings[k].status == Active ==> k != id && o.bookings[k] == m[k];
    }
  }

  // ---------------------------------------------------------------------
  // updateBookingPayment

  /**
   * `updateBookingPayment`: after the login, existence and access checks,
   * the payment status and method are stored as given and the amount is
   * recomputed as price times players; the client's amount is ignored and
   * the occupancy status is never touched. A status string outside the ENUM
   * is rejected on save and surfaces as the generic ApolloError.
   */
  function UpdateBookingPaymentSpec(rooms: Rooms, m: Bookings, nextId: nat, user: Option<User>, id: nat,
                                    paymentStatus: string, clientAmount: int, paymentMethod: string, now: int): (o: Outcome<Booking>)
    ensures o.nextId == nextId
    ensures user.None? ==> o.result == Failure(AuthenticationError(NotLoggedIn))
    ensures user.Some? && id !in m ==> o.result == Failure(UserInputError(BookingNotFound))
    ensures user.Some? && id in m && !CanAccess(user.value, m[id]) ==> o.result == Failure(ForbiddenError(CannotUpdate))
    ensures o.result.Success? <==>
      user.Some? && id in m && CanAccess(user.value, m[id]) && m[id].roomId in rooms && ParsePaymentStatus(paymentStatus).Some?
    ensures o.result.Failure? ==> o.bookings == m
    ensures o.result.Success? ==>
      var b := o.result.value;
      o.bookings == m[id := b] &&
      PaymentStatusName(b.paymentStatus) == paymentStatus &&
      b.paymentAmount == Some(rooms[m[id].roomId].price * m[id].numberOfPlayers) &&
      b.paymentMethod == Some(paymentMethod) &&
      b.status == m[id].status &&
      b == Touch(m[id], m[id].(paymentStatus := b.paymentStatus, paymentAmount := b.paymentAmount, paymentMethod := b.paymentMethod), now)
  {
    if user.None? then Outcome(Failure(AuthenticationError(NotLoggedIn)), m, nextId)
    else if id !in m then Outcome(Failure(UserInputError(BookingNotFound)), m, nextId)
    else if !CanAccess(user.value, m[id]) then Outcome(Failure(ForbiddenError(CannotUpdate)), m, nextId)
    else if m[id].roomId !in rooms || ParsePaymentStatus(paymentStatus).None? then Outcome(Failure(ApolloError(PaymentFailed)), m, nextId)
    else
      var b := m[id];
      var fullPrice := rooms[b.roomId].price * b.numberOfPlayers;
      var p := ParsePaymentStatus(paymentStatus).value;
      var b' := Touch(b, b.(paymentStatus := p, paymentAmount := Some(fullPrice), paymentMethod := Some(paymentMethod)), now);
      Outcome(Success(b'), m[id := b'], nextId)
  }

  /** Paying never changes which bookings are active, so it keeps both invariants. */
  lemma {:induction false} UpdateBookingPaymentPreserves(rooms: Rooms, m: Bookings, nextId: nat, user: Option<User>, id: nat,
                                                          paymentStatus: string, clientAmount: int, paymentMethod: string, now: int)
    requires StoreInvariant(rooms, m, nextId)
    ensures var o := UpdateBookingPaymentSpec(rooms, m, nextId, user, id, paymentStatus, clientAmount, paymentMethod, now);
      StoreInvariant(rooms, o.bookings, o.nextId) && (NoDoubleBooking(m) ==> NoDoubleBooking(o.bookings))
  {
    var o := UpdateBookingPaymentSpec(rooms, m, nextId, user, id, paymentStatus, clientAmount, paymentMethod, now);
    if o.result.Success? {
      assert forall k :: k in o.bookings ==> o.bookings[k].status == m[k].status && SameSlot(o.bookings[k], m[k]);
      assert forall k :: k in o.bookings ==> o.bookings[k].id == m[k].id && o.bookings[k].roomId == m[k].roomId;
    }
  }

  /**
   * Through the Booking field resolvers a paid booking reads as the status
   * string given, the full price as the amount (whatever the client sent),
   * and the method given, except that an empty method reads as null.
   */
  lemma PaidBookingView(rooms: Rooms, m: Bookings, nextId: nat, user: Option<User>, id: nat,
                        paymentStatus: string, clientAmount: int, paymentMethod: string, now: int)
    ensures var o := UpdateBookingPaymentSpec(rooms, m, nextId, user, id, paymentStatus, clientAmount, paymentMethod, now);
      o.result.Success? ==>
        var b := o.result.value;
        PaymentStatusView(Some(b.paymentStatus)) == paymentStatus &&
        PaymentAmountView(b.paymentAmount) == rooms[m[id].roomId].price * m[id].numberOfPlayers &&
        PaymentMethodView(b.paymentMethod) == (if paymentMethod == "" then None else Some(paymentMethod))
  {
    var o := UpdateBookingPaymentSpec(rooms, m, nextId, user, id, paymentStatus, clientAmount, paymentMethod, now);
    if o.result.Success? {
      var p := o.result.value.paymentStatus;
      assert ParsePaymentStatus(PaymentStatusView(Some(p))) == Some(p);
    }
  }

  // ---------------------------------------------------------------------
  // updateBooking (admin)

  /** The `UpdateBookingInput` object; an absent field is None. */
  datatype UpdateInput = UpdateInput(
    paymentStatus: Option<string>,
    paymentAmount: Option<int>,
    paymentMethod: Option<string>,
    status: Option<string>)

  /**
   * The amount `updateBooking` writes: when the input marks the payment
   * completed and the row has no amount (null or 0), price times players
   * replaces whatever amount the input carried.
   */
  function UpdateAmount(room: EscapeRoom, b: Booking, input: UpdateInput): (a: Option<int>)
    ensures input.paymentStatus == Some("completed") && (b.paymentAmount.None? || b.paymentAmount == Some(0)) ==>
      a == Some(room.price * b.numberOfPlayers)
    ensures !(input.paymentStatus == Some("completed") && (b.paymentAmount.None? || b.paymentAmount == Some(0))) ==>
      a == input.paymentAmount
  {
    if input.paymentStatus == Some("completed") && (b.paymentAmount.None? || b.paymentAmount == Some(0))
    then Some(room.price * b.numberOfPlayers)
    else input.paymentAmount
  }

  /**
   * The test `!booking.payment_amount` is the test that the API shows the
   * amount as 0: the fill-in happens exactly for a row that reads as unpaid.
   */
  lemma UpdateAmountFillsShownZero(room: EscapeRoom, b: Booking, input: UpdateInput)
    ensures input.paymentStatus == Some("completed") && PaymentAmountView(b.paymentAmount) == 0 ==>
      UpdateAmount(room, b, input) == Some(room.price * b.numberOfPlayers)
    ensures !(input.paymentStatus == Some("completed") && PaymentAmountView(b.paymentAmount) == 0) ==>
      UpdateAmount(room, b, input) == input.paymentAmount
  {
  }

  /** The input's enum strings are all valid (ENUM validation on save). */
  predicate InputValid(input: UpdateInput)
  {
    (input.paymentStatus.Some? ==> ParsePaymentStatus(input.paymentStatus.value).Some?) &&
    (input.status.Some? ==> ParseStatus(input.status.value).Some?)
  }

  /** `booking.update(input)`: each field present in the input is written as given. */
  function ApplyInput(b: Booking, input: UpdateInput, amount: Option<int>): (r: Booking)
    requires InputValid(input)
    ensures r.id == b.id && r.userId == b.userId && SameSlot(r, b) && r.numberOfPlayers == b.numberOfPlayers
    ensures r.createdAt == b.createdAt && r.updatedAt == b.updatedAt
    ensures input.status.Some? ==> StatusName(r.status) == input.status.value
    ensures input.status.None? ==> r.status == b.status
    ensures input.paymentStatus.Some? ==> PaymentStatusName(r.paymentStatus) == input.paymentStatus.value
    ensures input.paymentStatus.None? ==> r.paymentStatus == b.paymentStatus
    ensures r.paymentAmount == if amount.Some? then amount else b.paymentAmount
    ensures r.paymentMethod == if input.paymentMethod.Some? then input.paymentMethod else b.paymentMethod
  {
    b.(status := if input.status.Some? then ParseStatus(input.status.value).value else b.status,
       paymentStatus := if input.paymentStatus.Some? then ParsePaymentStatus(input.paymentStatus.value).value else b.paymentStatus,
       paymentAmount := if amount.Some? then amount else b.paymentAmount,
       paymentMethod := if input.paymentMethod.Some? then input.paymentMethod else b.paymentMethod)
  }

  /**
   * `updateBooking`: admin only. The input is written verbatim (after the
   * amount rule), including `status`, so nothing stops the admin from
   * re-activating a cancelled booking onto a slot someone else holds.
   */
  function UpdateBookingSpec(rooms: Rooms, m: Bookings, nextId: nat, user: Option<User>, id: nat,
                             input: UpdateInput, now: int): (o: Outcome<Booking>)
    ensures o.nextId == nextId
    ensures user.None? || !user.value.isAdmin ==> o.result == Failure(ForbiddenError(AdminRequired))
    ensures user.Some? && user.value.isAdmin && id !in m ==> o.result == Failure(UserInputError(BookingNotFound))
    ensures o.result.Success? <==> user.Some? && user.value.isAdmin && id in m && m[id].roomId in rooms && InputValid(input)
    ensures o.result.Failure? ==> o.bookings == m
    ensures o.result.Success? ==>
      o.bookings == m[id := o.result.value] &&
      o.result.value == Touch(m[id], ApplyInput(m[id], input, UpdateAmount(rooms[m[id].roomId], m[id], input)), now)
  {
    if user.None? || !user.value.isAdmin then Outcome(Failure(ForbiddenError(AdminRequired)), m, nextId)
    else if id !in m then Outcome(Failure(UserInputError(BookingNotFound)), m, nextId)
    else if m[id].roomId !in rooms || !InputValid(input) then Outcome(Failure(ApolloError(UpdateFailed)), m, nextId)
    else
      var b := m[id];
      var b' := Touch(b, ApplyInput(b, input, UpdateAmount(rooms[b.roomId], b, input)), now);
      Outcome(Success(b'), m[id := b'], nextId)
  }

  /** `updateBooking` keeps the table consistent. */
  lemma {:induction false} UpdateBookingKeepsStore(rooms: Rooms, m: Bookings, nextId: nat, user: Option<User>, id: nat,
                                                    input: UpdateInput, now: int)
    requires StoreInvariant(rooms, m, nextId)
    ensures StoreInvariant(rooms, UpdateBookingSpec(rooms, m, nextId, user, id, input, now).bookings, nextId)
  {
    var o := UpdateBookingSpec(rooms, m, nextId, user, id, input, now);
    if o.result.Success? {
      assert o.bookings[id].id == id && o.bookings[id].roomId == m[id].roomId;
    }
  }

  /**
   * `updateBooking` keeps the no-double-booking invariant unless it
   * re-activates a booking whose slot another active booking holds.
   */
  lemma {:induction false} UpdateBookingPreservesNoDoubleBooking(rooms: Rooms, m: Bookings, nextId: nat, user: Option<User>,
                                                                  id: nat, input: UpdateInput, now: int)
    requires StoreInvariant(rooms, m, nextId) && NoDoubleBooking(m)
    requires id in m && input.status == Some("active") && m[id].status != Active ==> !SlotTaken(m, m[id].roomId, m[id].date, m[id].time)
    ensures NoDoubleBooking(UpdateBookingSpec(rooms, m, nextId, user, id, input, now).bookings)
  {
    var o := UpdateBookingSpec(rooms, m, nextId, user, id, input, now);
    if o.result.Success? {
      var b := o.result.value;
      assert SameSlot(b, m[id]);
      if b.status == Active {
        forall k | k in m && k != id && m[k].status == Active
          ensures !SameSlot(m[k], b)
        {
          if m[id].status != Active {
            assert input.status == Some("active");
            assert !SlotTaken(m, m[id].roomId, m[id].date, m[id].time);
          }
        }
      }
      assert forall k :: k in o.bookings && k != id ==> o.bookings[k] == m[k];
    }
  }

  /**
   * The hole the invariant has: an admin re-activates a cancelled booking on
   * a slot another customer holds, and the update goes through.
   */
  lemma UpdateBookingCanDoubleBook()
    ensures var room := EscapeRoom(1, "Vault", "Heist", "Expert", "16", 2, 6, 30, "", 60, None, None);
      var held := Booking(1, 10, 1, 4, 20000, 600, PaymentPending, Some(120), None, Active, 0, 0);
      var dropped := Booking(2, 11, 1, 2, 20000, 600, PaymentCancelled, Some(60), None, Cancelled, 0, 0);
      var m: Bookings := map[1 := held, 2 := dropped];
      var o := UpdateBookingSpec(map[1 := room], m, 3, Some(User(99, true)), 2, UpdateInput(None, None, None, Some("active")), 5);
      StoreInvariant(map[1 := room], m, 3) && NoDoubleBooking(m) &&
      o.result.Success? && !NoDoubleBooking(o.bookings)
  {
    var room := EscapeRoom(1, "Vault", "Heist", "Expert", "16", 2, 6, 30, "", 60, None, None);
    var held := Booking(1, 10, 1, 4, 20000, 600, PaymentPending, Some(120), None, Active, 0, 0);
    var dropped := Booking(2, 11, 1, 2, 20000, 600, PaymentCancelled, Some(60), None, Cancelled, 0, 0);
    var m: Bookings := map[1 := held, 2 := dropped];
    var o := UpdateBookingSpec(map[1 := room], m, 3, Some(User(99, true)), 2, UpdateInput(None, None, None, Some("active")), 5);
    assert ParseStatus("active") == Some(Active);
    assert o.bookings[2].status == Active && o.bookings[1] == held;
    assert SameSlot(o.bookings[1], o.bookings[2]);
  }

  // ---------------------------------------------------------------------
  // getSingleBooking

  /** `getSingleBooking`: login, existence, then the owner-or-admin check. */
  function GetSingleBooking(m: Bookings, user: Option<User>, id: nat): (r: Result<Booking, ApiError>)
    ensures r.Success? <==> user.Some? && id in m && CanAccess(user.value, m[id])
    ensures r.Success? ==> r.value == m[id]
    ensures user.None? ==> r == Failure(AuthenticationError(NotLoggedIn))
    ensures user.Some? && id !in m ==> r == Failure(UserInputError(BookingNotFound))
    ensures user.Some? && id in m && !CanAccess(user.value, m[id]) ==> r == Failure(ForbiddenError(CannotView))
  {
    if user.None? then Failure(AuthenticationError(NotLoggedIn))
    else if id !in m then Failure(UserInputError(BookingNotFound))
    else if !CanAccess(user.value, m[id]) then Failure(ForbiddenError(CannotView))
    else Success(m[id])
  }

  // ---------------------------------------------------------------------
  // completeExpiredBookings

  /** Every row refers to a room of the catalogue. */
  predicate RoomsKnown(rooms: Rooms, m: Bookings)
  {
    forall id :: id in m ==> m[id].roomId in rooms
  }

  /** The booking's slot has ended strictly before `now`. */
  predicate Expired(b: Booking, duration: int, now: int)
  {
    now > Instant(b.date, b.time) + duration
  }

  /** What the sweep does to one row. */
  function SweepOne(rooms: Rooms, b: Booking, now: int): (r: Booking)
    requires b.roomId in rooms
    ensures (b.status != Active || !Expired(b, rooms[b.roomId].duration, now)) ==> r == b
    ensures b.status == Active && Expired(b, rooms[b.roomId].duration, now) && b.paymentStatus == PaymentCompleted ==>
      r == b.(status := Completed, updatedAt := now)
    ensures b.status == Active && Expired(b, rooms[b.roomId].duration, now) && b.paymentStatus != PaymentCompleted ==>
      r == b.(status := Cancelled, paymentStatus := PaymentCancelled, updatedAt := now)
    ensures r.status != Active || r == b
  {
    if b.status == Active && Expired(b, rooms[b.roomId].duration, now) then
      if b.paymentStatus == PaymentCompleted then b.(status := Completed, updatedAt := now)
      else b.(status := Cancelled, paymentStatus := PaymentCancelled, updatedAt := now)
    else b
  }

  /** `completeExpiredBookings` on the whole table. */
  function SweepSpec(rooms: Rooms, m: Bookings, now: int): (r: Bookings)
    requires RoomsKnown(rooms, m)
    ensures r.Keys == m.Keys
    ensures forall id :: id in m ==> r[id] == SweepOne(rooms, m[id], now)
  {
    map id | id in m :: SweepOne(rooms, m[id], now)
  }

  /** A table that agrees with the sweep row by row is the swept table. */
  lemma SweepPointwise(rooms: Rooms, m: Bookings, r: Bookings, now: int)
    requires RoomsKnown(rooms, m)
    requires r.Keys == m.Keys && forall id :: id in m ==> r[id] == SweepOne(rooms, m[id], now)
    ensures r == SweepSpec(rooms, m, now)
  {
  }

  /** After the sweep no active booking has expired, and the rows it changed are exactly the expired active ones. */
  lemma {:induction false} SweepEffect(rooms: Rooms, m: Bookings, now: int, id: nat)
    requires RoomsKnown(rooms, m) && id in m
    ensures var r := SweepSpec(rooms, m, now);
      !(r[id].status == Active && Expired(r[id], rooms[r[id].roomId].duration, now)) &&
      (r[id] != m[id] <==> m[id].status == Active && Expired(m[id], rooms[m[id].roomId].duration, now))
  {
    var r := SweepSpec(rooms, m, now);
    assert r[id] == SweepOne(rooms, m[id], now);
  }

  /** A second sweep with the same clock changes nothing. */
  lemma {:induction false} SweepIdempotent(rooms: Rooms, m: Bookings, now: int)
    requires RoomsKnown(rooms, m)
    ensures RoomsKnown(rooms, SweepSpec(rooms, m, now))
    ensures SweepSpec(rooms, SweepSpec(rooms, m, now), now) == SweepSpec(rooms, m, now)
  {
    var r := SweepSpec(rooms, m, now);
    assert forall id :: id in r ==> r[id].roomId == m[id].roomId;
    forall id | id in r
      ensures SweepOne(rooms, r[id], now) == r[id]
    {
      assert r[id] == SweepOne(rooms, m[id], now);
    }
  }

  /** The sweep only deactivates rows, so it keeps both invariants. */
  lemma {:induction false} SweepPreserves(rooms: Rooms, m: Bookings, nextId: nat, now: int)
    requires StoreInvariant(rooms, m, nextId)
    ensures RoomsKnown(rooms, m)
    ensures StoreInvariant(rooms, SweepSpec(rooms, m, now), nextId)
    ensures NoDoubleBooking(m) ==> NoDoubleBooking(SweepSpec(rooms, m, now))
  {
    var r := SweepSpec(rooms, m, now);
    assert forall id :: id in r ==> r[id].id == m[id].id && r[id].roomId == m[id].roomId && SameSlot(r[id], m[id]);
    assert forall id :: id in r && r[id].status == Active ==> r[id] == m[id];
  }

  // ---------------------------------------------------------------------
  // availableSlots

  /** One entry of the `availableSlots` answer. */
  datatype Slot = Slot(date: int, time: Minute)

  /** A start that is in the future and not held by an active booking. */
  predicate Free(m: Bookings, roomId: int, now: int, date: int, time: int)
    ensures Instant(date, time) <= now ==> !Free(m, roomId, now, date, time)
    ensures m == map[] ==> (Free(m, roomId, now, date, time) <==> Instant(date, time) > now)
  {
    Instant(date, time) > now && !SlotTaken(m, roomId, date, time)
  }

  /**
   * The kept starts of one day, from start `t` on: LatticeFrom filtered by
   * Free.
   */
  function DayFrom(m: Bookings, roomId: int, duration: int, date: int, t: int, now: int): (r: seq<Slot>)
    requires duration > 0 && 0 <= t
    ensures forall i :: 0 <= i < |r| ==> r[i].date == date
    decreases ClosingTime - t
  {
    if t < ClosingTime && t + duration <= ClosingTime then
      (if Free(m, roomId, now, date, t) then [Slot(date, t)] else []) + DayFrom(m, roomId, duration, date, t + duration, now)
    else []
  }

  lemma ConcatAssoc<T>(a: seq<T>, b: seq<T>, c: seq<T>)
    ensures (a + b) + c == a + (b + c)
  {
  }

  /** One step of the walk through a day: the start `t` is kept or not, then the walk goes on from `t + duration`. */
  lemma DayFromStep(m: Bookings, roomId: int, duration: int, date: int, t: int, now: int)
    requires duration > 0 && 0 <= t && t < ClosingTime && t + duration <= ClosingTime
    ensures DayFrom(m, roomId, duration, date, t, now) ==
      (if Free(m, roomId, now, date, t) then [Slot(date, t)] else []) + DayFrom(m, roomId, duration, date, t + duration, now)
  {
  }

  /** The kept slots of the days `day` .. `endDay`, day after day. */
  function RangeSlots(m: Bookings, roomId: int, duration: int, day: int, endDay: int, now: int): (r: seq<Slot>)
    requires duration > 0
    ensures forall i :: 0 <= i < |r| ==> day <= r[i].date <= endDay
    decreases endDay - day
  {
    if day > endDay then [] else DayFrom(m, roomId, duration, day, OpeningTime, now) + RangeSlots(m, roomId, duration, day + 1, endDay, now)
  }

  /**
   * `availableSlots(escape_room_id, start_date, end_date)` at clock `now`,
   * for every room. A room whose duration is not positive offers no slot:
   * the loop as written never ends for it (SlotWalkNeverEnds).
   */
  function AvailableSlotsSpec(rooms: Rooms, m: Bookings, roomId: int, startDay: int, endDay: int, now: int): (r: Result<seq<Slot>, ApiError>)
    ensures roomId !in rooms ==> r == Failure(UserInputError(RoomNotFound))
    ensures roomId in rooms ==> r.Success?
    ensures roomId in rooms && rooms[roomId].duration <= 0 ==> r == Success([])
  {
    if roomId !in rooms then Failure(UserInputError(RoomNotFound))
    else if rooms[roomId].duration <= 0 then Success([])
    else Success(RangeSlots(m, roomId, rooms[roomId].duration, startDay, endDay, now))
  }

  /**
   * The inner loop of `availableSlots` as written: the value of
   * `currentTime` after `n` passes that neither left the loop nor broke out.
   */
  function WalkAfter(t: int, duration: int, n: nat): int
    decreases n
  {
    if n == 0 then t else WalkAfter(t + duration, duration, n - 1)
  }

  /** From `t` the loop body runs once more: `currentTime < endTime` holds and the break is not taken. */
  predicate WalkGoesOn(t: int, duration: int)
  {
    t < ClosingTime && !(t + duration > ClosingTime)
  }

  lemma {:induction false} WalkAfterNotLater(t: int, duration: int, n: nat)
    requires duration <= 0
    ensures WalkAfter(t, duration, n) <= t
    decreases n
  {
    if n > 0 {
      WalkAfterNotLater(t + duration, duration, n - 1);
    }
  }

  /**
   * With a duration of 0 or less `currentTime` never moves forward, so after
   * any number of passes the loop still goes on: the request never answers.
   */
  lemma SlotWalkNeverEnds(duration: int, n: nat)
    requires duration <= 0
    ensures WalkGoesOn(WalkAfter(OpeningTime, duration, n), duration)
  {
    WalkAfterNotLater(OpeningTime, duration, n);
  }

  lemma {:induction false} DayFromMember(m: Bookings, roomId: int, duration: int, date: int, t: int, now: int, s: Slot)
    requires duration > 0 && 0 <= t
    ensures s in DayFrom(m, roomId, duration, date, t, now) <==>
      s.date == date && s.time in LatticeFrom(t, duration) && Free(m, roomId, now, date, s.time)
    decreases ClosingTime - t
  {
    if t < ClosingTime && t + duration <= ClosingTime {
      DayFromMember(m, roomId, duration, date, t + duration, now, s);
    }
  }

  lemma {:induction false} RangeSlotsMember(m: Bookings, roomId: int, duration: int, day: int, endDay: int, now: int, s: Slot)
    requires duration > 0
    ensures s in RangeSlots(m, roomId, duration, day, endDay, now) <==>
      day <= s.date <= endDay && s.time in Lattice(duration) && Free(m, roomId, now, s.date, s.time)
    decreases endDay - day
  {
    if day <= endDay {
      DayFromMember(m, roomId, duration, day, OpeningTime, now, s);
      RangeSlotsMember(m, roomId, duration, day + 1, endDay, now, s);
    }
  }

  /**
   * A slot is offered exactly when its date is in the inclusive range, its
   * start is on the room's lattice (so it starts at or after 10:00 and ends by
   * 22:00), it lies strictly after `now`, and no active booking holds it.
   */
  lemma AvailableSlotsMembership(rooms: Rooms, m: Bookings, roomId: int, startDay: int, endDay: int, now: int, s: Slot)
    requires roomId in rooms && rooms[roomId].duration > 0
    ensures var d := rooms[roomId].duration;
      s in AvailableSlotsSpec(rooms, m, roomId, startDay, endDay, now).value <==>
      startDay <= s.date <= endDay && s.time in Lattice(d) && Instant(s.date, s.time) > now && !SlotTaken(m, roomId, s.date, s.time)
    ensures var d := rooms[roomId].duration;
      s in AvailableSlotsSpec(rooms, m, roomId, startDay, endDay, now).value ==>
      OpeningTime <= s.time && s.time + d <= ClosingTime && (s.time - OpeningTime) % d == 0
  {
    var d := rooms[roomId].duration;
    RangeSlotsMember(m, roomId, d, startDay, endDay, now, s);
    LatticeMember(d, s.time);
  }

  /** Date first, then time. */
  predicate SlotBefore(a: Slot, b: Slot)
  {
    a.date < b.date || (a.date == b.date && a.time < b.time)
  }

  predicate Chronological(s: seq<Slot>)
  {
    forall i, j :: 0 <= i < j < |s| ==> SlotBefore(s[i], s[j])
  }

  lemma {:induction false} DayFromChronological(m: Bookings, roomId: int, duration: int, date: int, t: int, now: int)
    requires duration > 0 && 0 <= t
    ensures var l := DayFrom(m, roomId, duration, date, t, now);
      Chronological(l) && forall i :: 0 <= i < |l| ==> l[i].date == date && l[i].time >= t
    decreases ClosingTime - t
  {
    if t < ClosingTime && t + duration <= ClosingTime {
      DayFromChronological(m, roomId, duration, date, t + duration, now);
    }
  }

  lemma {:induction false} ChronologicalAppend(a: seq<Slot>, b: seq<Slot>)
    requires Chronological(a) && Chronological(b)
    requires forall i, j :: 0 <= i < |a| && 0 <= j < |b| ==> SlotBefore(a[i], b[j])
    ensures Chronological(a + b)
  {
    var c := a + b;
    forall i, j | 0 <= i < j < |c|
      ensures SlotBefore(c[i], c[j])
    {
      if j < |a| {
        assert c[i] == a[i] && c[j] == a[j];
      } else if i >= |a| {
        assert c[i] == b[i - |a|] && c[j] == b[j - |a|];
      } else {
        assert c[i] == a[i] && c[j] == b[j - |a|];
      }
    }
  }

  lemma {:induction false} RangeSlotsChronological(m: Bookings, roomId: int, duration: int, day: int, endDay: int, now: int)
    requires duration > 0
    ensures var l := RangeSlots(m, roomId, duration, day, endDay, now);
      Chronological(l) && forall i :: 0 <= i < |l| ==> l[i].date >= day
    decreases endDay - day
  {
    if day <= endDay {
      var a := DayFrom(m, roomId, duration, day, OpeningTime, now);
      var b := RangeSlots(m, roomId, duration, day + 1, endDay, now);
      DayFromChronological(m, roomId, duration, day, OpeningTime, now);
      RangeSlotsChronological(m, roomId, duration, day + 1, endDay, now);
      ChronologicalAppend(a, b);
      var l := a + b;
      forall i | 0 <= i < |l|
        ensures l[i].date >= day
      {
        if i < |a| { assert l[i] == a[i]; } else { assert l[i] == b[i - |a|]; }
      }
    }
  }

  /** Slots come out date-ascending and, within a date, time-ascending, with no repeats. */
  lemma AvailableSlotsChronological(rooms: Rooms, m: Bookings, roomId: int, startDay: int, endDay: int, now: int)
    requires roomId in rooms
    ensures Chronological(AvailableSlotsSpec(rooms, m, roomId, startDay, endDay, now).value)
  {
    if rooms[roomId].duration > 0 {
      RangeSlotsChronological(m, roomId, rooms[roomId].duration, startDay, endDay, now);
    }
  }

  /** The table restricted to its active rows. */
  function ActiveOnly(m: Bookings): (r: Bookings)
    ensures r.Keys <= m.Keys
    ensures forall id :: id in r <==> id in m && m[id].status == Active
    ensures forall id :: id in r ==> r[id] == m[id]
  {
    map id | id in m && m[id].status == Active :: m[id]
  }

  lemma {:induction false} DayFromActiveOnly(m: Bookings, roomId: int, duration: int, date: int, t: int, now: int)
    requires duration > 0 && 0 <= t
    ensures DayFrom(m, roomId, duration, date, t, now) == DayFrom(ActiveOnly(m), roomId, duration, date, t, now)
    decreases ClosingTime - t
  {
    if t < ClosingTime && t + duration <= ClosingTime {
      DayFromActiveOnly(m, roomId, duration, date, t + duration, now);
      var a := ActiveOnly(m);
      if SlotTaken(m, roomId, date, t) {
        var id :| id in m && m[id].roomId == roomId && m[id].date == date && m[id].time == t && m[id].status == Active;
        assert id in a;
      }
      if SlotTaken(a, roomId, date, t) {
        var id :| id in a && a[id].roomId == roomId && a[id].date == date && a[id].time == t && a[id].status == Active;
        assert id in m;
      }
    }
  }

  lemma {:induction false} RangeSlotsActiveOnly(m: Bookings, roomId: int, duration: int, day: int, endDay: int, now: int)
    requires duration > 0
    ensures RangeSlots(m, roomId, duration, day, endDay, now) == RangeSlots(ActiveOnly(m), roomId, duration, day, endDay, now)
    decreases endDay - day
  {
    if day <= endDay {
      DayFromActiveOnly(m, roomId, duration, day, OpeningTime, now);
      RangeSlotsActiveOnly(m, roomId, duration, day + 1, endDay, now);
    }
  }

  /** Cancelled and completed bookings never block a slot: only the active rows matter. */
  lemma AvailableSlotsIgnoresInactive(rooms: Rooms, m: Bookings, roomId: int, startDay: int, endDay: int, now: int)
    ensures AvailableSlotsSpec(rooms, m, roomId, startDay, endDay, now) == AvailableSlotsSpec(rooms, ActiveOnly(m), roomId, startDay, endDay, now)
  {
    if roomId in rooms && rooms[roomId].duration > 0 {
      RangeSlotsActiveOnly(m, roomId, rooms[roomId].duration, startDay, endDay, now);
    }
  }
}
