/**
 * The booking table as a mutable store: the resolvers of the API that
 * create, cancel, delete, pay for, edit and expire bookings, each proved to
 * leave the table exactly as the corresponding function of Reservations
 * says. The catalogue of rooms is read-only here.
 */
module Store {
  import opened Wrappers
  import opened Clock
  import opened BookingModel
  import opened Reservations

  class BookingStore {
    const rooms: Rooms
    var bookings: Bookings
    var nextId: nat

    ghost predicate Valid()
      reads this
    {
      StoreInvariant(rooms, bookings, nextId)
    }

    /** An empty table; the auto-increment counter starts at 1. */
    constructor(rooms: Rooms)
      ensures Valid()
      ensures this.rooms == rooms && bookings == map[] && nextId == 1
    {
      this.rooms := rooms;
      bookings := map[];
      nextId := 1;
    }

    /**
     * The inner loop of `availableSlots`: walk one day from 10:00 in steps
     * of the duration, stop at the first slot that would end after 22:00,
     * and keep the future starts no active booking holds.
     */
    method DaySlots(roomId: int, duration: int, day: int, now: int) returns (slots: seq<Slot>)
      requires duration > 0
      ensures slots == DayFrom(bookings, roomId, duration, day, OpeningTime, now)
    {
      slots := [];
      var t: int := OpeningTime;
      while t < ClosingTime
        invariant OpeningTime <= t
        invariant slots + DayFrom(bookings, roomId, duration, day, t, now) == DayFrom(bookings, roomId, duration, day, OpeningTime, now)
        decreases ClosingTime - t
      {
        var slotEnd := t + duration;
        if slotEnd > ClosingTime {
          break;
        }
        ghost var kept := if Free(bookings, roomId, now, day, t) then [Slot(day, t)] else [];
        DayFromStep(bookings, roomId, duration, day, t, now);
        ConcatAssoc(slots, kept, DayFrom(bookings, roomId, duration, day, slotEnd, now));
        if Free(bookings, roomId, now, day, t) {
          slots := slots + [Slot(day, t)];
        }
        t := slotEnd;
      }
      assert DayFrom(bookings, roomId, duration, day, t, now) == [];
    }

    /**
     * `availableSlots`: the room must exist; a room of no positive duration
     * offers no slot; otherwise the days of the range,
     * each walked by `DaySlots`, in order.
     */
    method AvailableSlots(roomId: int, startDay: int, endDay: int, now: int) returns (r: Result<seq<Slot>, ApiError>)
      ensures r == AvailableSlotsSpec(rooms, bookings, roomId, startDay, endDay, now)
    {
      if roomId !in rooms {
        return Failure(UserInputError(RoomNotFound));
      }
      var duration := rooms[roomId].duration;
      if duration <= 0 {
        return Success([]);
      }
      ghost var total := RangeSlots(bookings, roomId, duration, startDay, endDay, now);
      var slots: seq<Slot> := [];
      var day := startDay;
      while day <= endDay
        invariant slots + RangeSlots(bookings, roomId, duration, day, endDay, now) == total
        decreases endDay - day
      {
        var daySlots := DaySlots(roomId, duration, day, now);
        ConcatAssoc(slots, daySlots, RangeSlots(bookings, roomId, duration, day + 1, endDay, now));
        slots := slots + daySlots;
        day := day + 1;
      }
      assert RangeSlots(bookings, roomId, duration, day, endDay, now) == [];
      assert slots == total;
      return Success(slots);
    }

    /** `createBooking`. */
    method CreateBooking(user: Option<User>, roomId: int, players: int, date: int, time: Minute, now: int)
      returns (r: Result<Booking, ApiError>)
      requires Valid()
      modifies this
      ensures Valid()
      ensures var o := CreateBookingSpec(rooms, old(bookings), old(nextId), user, roomId, players, date, time, now);
        r == o.result && bookings == o.bookings && nextId == o.nextId
    {
      CreateBookingPreserves(rooms, bookings, nextId, user, roomId, players, date, time, now);
      if user.None? {
        return Failure(AuthenticationError(NotLoggedIn));
      }
      if roomId !in rooms {
        return Failure(ApolloError(CreateFailed));
      }
      var room := rooms[roomId];
      if players < room.playersMin || players > room.playersMax {
        return Failure(ApolloError(CreateFailed));
      }
      if SlotTaken(bookings, roomId, date, time) {
        return Failure(ApolloError(CreateFailed));
      }
      var b := Booking(nextId, user.value.id, roomId, players, date, time, PaymentPending,
                       Some(room.price * players), None, Active, now, now);
      bookings := bookings[nextId := b];
      nextId := nextId + 1;
      return Success(b);
    }

    /** `deleteBooking`: an admin destroys the row, the owner soft-cancels it. */
    method DeleteBooking(user: Option<User>, id: nat, now: int) returns (r: Result<bool, ApiError>)
      requires Valid()
      modifies this
      ensures Valid()
      ensures var o := DeleteBookingSpec(old(bookings), old(nextId), user, id, now);
        r == o.result && bookings == o.bookings && nextId == o.nextId
    {
      DeleteBookingPreserves(rooms, bookings, nextId, user, id, now);
      if user.None? {
        return Failure(AuthenticationError(NotLoggedIn));
      }
      if id !in bookings {
        return Failure(UserInputError(BookingNotFound));
      }
      var b := bookings[id];
      if b.userId != user.value.id && !user.value.isAdmin {
        return Failure(ForbiddenError(CannotDelete));
      }
      if user.value.isAdmin {
        bookings := bookings - {id};
      } else {
        bookings := bookings[id := Touch(b, b.(status := Cancelled, paymentStatus := PaymentCancelled), now)];
      }
      return Success(true);
    }

    /** `updateBookingPayment`: the amount is recomputed from the room's price. */
    method UpdateBookingPayment(user: Option<User>, id: nat, paymentStatus: string, clientAmount: int,
                                paymentMethod: string, now: int) returns (r: Result<Booking, ApiError>)
      requires Valid()
      modifies this
      ensures Valid()
      ensures var o := UpdateBookingPaymentSpec(rooms, old(bookings), old(nextId), user, id, paymentStatus, clientAmount, paymentMethod, now);
        r == o.result && bookings == o.bookings && nextId == o.nextId
    {
      UpdateBookingPaymentPreserves(rooms, bookings, nextId, user, id, paymentStatus, clientAmount, paymentMethod, now);
      if user.None? {
        return Failure(AuthenticationError(NotLoggedIn));
      }
      if id !in bookings {
        return Failure(UserInputError(BookingNotFound));
      }
      var b := bookings[id];
      if b.userId != user.value.id && !user.value.isAdmin {
        return Failure(ForbiddenError(CannotUpdate));
      }
      if b.roomId !in rooms {
        return Failure(ApolloError(PaymentFailed));
      }
      var fullPrice := rooms[b.roomId].price * b.numberOfPlayers;
      var p := ParsePaymentStatus(paymentStatus);
      if p.None? {
        return Failure(ApolloError(PaymentFailed));
      }
      var b' := Touch(b, b.(paymentStatus := p.value, paymentAmount := Some(fullPrice), paymentMethod := Some(paymentMethod)), now);
      bookings := bookings[id := b'];
      return Success(b');
    }

    /** `updateBooking`: the admin's edit, written as given. */
    method UpdateBooking(user: Option<User>, id: nat, input: UpdateInput, now: int) returns (r: Result<Booking, ApiError>)
      requires Valid()
      modifies this
      ensures Valid()
      ensures var o := UpdateBookingSpec(rooms, old(bookings), old(nextId), user, id, input, now);
        r == o.result && bookings == o.bookings && nextId == o.nextId
    {
      UpdateBookingKeepsStore(rooms, bookings, nextId, user, id, input, now);
      if user.None? || !user.value.isAdmin {
        return Failure(ForbiddenError(AdminRequired));
      }
      if id !in bookings {
        return Failure(UserInputError(BookingNotFound));
      }
      var b := bookings[id];
      if b.roomId !in rooms || !InputValid(input) {
        return Failure(ApolloError(UpdateFailed));
      }
      var amount := UpdateAmount(rooms[b.roomId], b, input);
      var b' := Touch(b, ApplyInput(b, input, amount), now);
      bookings := bookings[id := b'];
      return Success(b');
    }

    /**
     * `completeExpiredBookings`: fetch the active rows, then one by one turn
     * each whose slot has ended into completed (if paid) or cancelled.
     */
    method CompleteExpiredBookings(now: int) returns (r: Result<bool, ApiError>)
      requires Valid()
      modifies this
      ensures Valid()
      ensures r == Success(true)
      ensures bookings == SweepSpec(rooms, old(bookings), now) && nextId == old(nextId)
    {
      ghost var before := bookings;
      var pending := set id | id in bookings && bookings[id].status == Active;
      while pending != {}
        invariant pending <= before.Keys
        invariant forall id :: id in pending ==> before[id].status == Active
        invariant bookings.Keys == before.Keys && nextId == old(nextId)
        invariant forall id :: id in pending ==> bookings[id] == before[id]
        invariant forall id :: id in before && id !in pending ==> bookings[id] == SweepOne(rooms, before[id], now)
        decreases |pending|
      {
        var id :| id in pending;
        var b := bookings[id];
        assert b == before[id] && b.status == Active;
        var endTime := Instant(b.date, b.time) + rooms[b.roomId].duration;
        if now > endTime {
          if b.paymentStatus == PaymentCompleted {
            bookings := bookings[id := b.(status := Completed, updatedAt := now)];
          } else {
            bookings := bookings[id := b.(status := Cancelled, paymentStatus := PaymentCancelled, updatedAt := now)];
          }
        }
        assert bookings[id] == SweepOne(rooms, before[id], now);
        pending := pending - {id};
      }
      SweepPreserves(rooms, before, nextId, now);
      SweepPointwise(rooms, before, bookings, now);
      return Success(true);
    }
  }
}
