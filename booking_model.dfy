/**
 * The persistent records of the reservation engine: the Booking row with
 * its two independent enums (occupancy `status` and settlement
 * `payment_status`), and the EscapeRoom row of the catalogue that the
 * engine reads.
 */
module BookingModel {
  import opened Wrappers
  import opened Clock

  /** Occupancy state of a booking; the column default is Active. */
  datatype Status = Active | Completed | Cancelled

  /** Settlement state of a booking; the column default is PaymentPending. */
  datatype PaymentStatus = PaymentPending | PaymentCompleted | PaymentCancelled

  const DefaultStatus: Status := Active
  const DefaultPaymentStatus: PaymentStatus := PaymentPending

  function StatusName(s: Status): string
  {
    match s
    case Active => "active"
    case Completed => "completed"
    case Cancelled => "cancelled"
  }

  function PaymentStatusName(p: PaymentStatus): string
  {
    match p
    case PaymentPending => "pending"
    case PaymentCompleted => "completed"
    case PaymentCancelled => "cancelled"
  }

  /** The ENUM("active", "completed", "cancelled") column accepts exactly these strings. */
  function ParseStatus(s: string): (r: Option<Status>)
    ensures forall st: Status :: r == Some(st) <==> s == StatusName(st)
  {
    if s == "active" then Some(Active)
    else if s == "completed" then Some(Completed)
    else if s == "cancelled" then Some(Cancelled)
    else None
  }

  /** The ENUM("pending", "completed", "cancelled") column accepts exactly these strings. */
  function ParsePaymentStatus(s: string): (r: Option<PaymentStatus>)
    ensures forall p: PaymentStatus :: r == Some(p) <==> s == PaymentStatusName(p)
  {
    if s == "pending" then Some(PaymentPending)
    else if s == "completed" then Some(PaymentCompleted)
    else if s == "cancelled" then Some(PaymentCancelled)
    else None
  }

  /**
   * A booking row. `payment_amount` and `payment_method` have no default and
   * are Options. `status` and `payment_status` are nullable too but carry a
   * column default, and every write of the engine gives them a value, so
   * they are plain fields here; the API's view of a missing one is
   * PaymentStatusView. `id` is the auto-increment key; `createdAt`/`updatedAt`
   * are the timestamps Sequelize maintains, as instants in minutes.
   */
  datatype Booking = Booking(
    id: nat,
    userId: int,
    roomId: int,
    numberOfPlayers: int,
    date: int,
    time: Minute,
    paymentStatus: PaymentStatus,
    paymentAmount: Option<int>,
    paymentMethod: Option<string>,
    status: Status,
    createdAt: int,
    updatedAt: int)

  /**
   * A row of the catalogue. `averageRating` is the API's computed field
   * (a mean of review ratings; a float in the source, an integer here).
   */
  datatype EscapeRoom = EscapeRoom(
    id: int,
    theme: string,
    genre: string,
    difficulty: string,
    ageGroup: string,
    playersMin: int,
    playersMax: int,
    price: int,
    description: string,
    duration: int,
    imageUrl: Option<string>,
    averageRating: Option<int>)

  /**
   * A row inserted with only the required columns given takes the column
   * defaults: status active, payment pending, no amount and no method.
   */
  function InsertWithDefaults(id: nat, userId: int, roomId: int, numberOfPlayers: int,
                              date: int, time: Minute, now: int): (b: Booking)
    ensures b.status == DefaultStatus && b.paymentStatus == DefaultPaymentStatus
    ensures b.paymentAmount.None? && b.paymentMethod.None?
    ensures b.id == id && b.userId == userId && b.roomId == roomId
    ensures b.numberOfPlayers == numberOfPlayers && b.date == date && b.time == time
    ensures b.createdAt == now && b.updatedAt == now
  {
    Booking(id, userId, roomId, numberOfPlayers, date, time, DefaultPaymentStatus, None, None, DefaultStatus, now, now)
  }

  // The Booking field resolvers of the API, which fill in null columns.

  /**
   * `payment_status || "pending"`: the API always shows a string the ENUM
   * accepts, naming the stored status or, when none is stored, the
   * column's own default.
   */
  function PaymentStatusView(p: Option<PaymentStatus>): (s: string)
    ensures ParsePaymentStatus(s) == Some(p.GetOr(DefaultPaymentStatus))
  {
    match p
    case Some(v) => PaymentStatusName(v)
    case None => "pending"
  }

  /**
   * `payment_amount || 0`: the shown amount is 0 exactly when the stored one
   * is falsy (null or 0), and otherwise is the stored one.
   */
  function PaymentAmountView(a: Option<int>): (v: int)
    ensures v == 0 <==> a.None? || a == Some(0)
    ensures v != 0 ==> a == Some(v)
  {
    a.GetOr(0)
  }

  /**
   * `payment_method || null`: only a non-empty stored method is shown, and
   * every non-empty one is.
   */
  function PaymentMethodView(m: Option<string>): (v: Option<string>)
    ensures v.Some? ==> v == m && v.value != ""
    ensures m.Some? && m.value != "" ==> v == m
  {
    if m.Some? && m.value != "" then m else None
  }
}
