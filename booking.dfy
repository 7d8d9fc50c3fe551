/**
 * The Booking record (backend/models/booking.js): who booked which service
 * for when and where, the optional assigned provider, the payment sub-record
 * and the lifecycle status, each enum with its stored spelling.
 */
module BookingModel {
  import opened Wrappers

  datatype Status = Pending | Confirmed | OnTheWay | Completed | Cancelled

  function StatusName(s: Status): string {
    match s
    case Pending => "pending"
    case Confirmed => "confirmed"
    case OnTheWay => "on_the_way"
    case Completed => "completed"
    case Cancelled => "cancelled"
  }

  /** The schema's enum check: only the five spellings are statuses. */
  function ParseStatus(t: string): (r: Option<Status>)
    ensures r.Some? ==> StatusName(r.value) == t
  {
    if t == "pending" then Some(Pending)
    else if t == "confirmed" then Some(Confirmed)
    else if t == "on_the_way" then Some(OnTheWay)
    else if t == "completed" then Some(Completed)
    else if t == "cancelled" then Some(Cancelled)
    else None
  }

  lemma ParseStatusName(s: Status)
    ensures ParseStatus(StatusName(s)) == Some(s)
  {
  }

  datatype PaymentMethod = Cash | Online

  function MethodName(m: PaymentMethod): string {
    match m
    case Cash => "cash"
    case Online => "online"
  }

  function ParseMethod(t: string): (r: Option<PaymentMethod>)
    ensures r.Some? ==> MethodName(r.value) == t
    ensures r.None? ==> t != "cash" && t != "online"
  {
    if t == "cash" then Some(Cash) else if t == "online" then Some(Online) else None
  }

  datatype PaymentStatus = Unpaid | Paid | Refunded

  function PaymentStatusName(s: PaymentStatus): string {
    match s
    case Unpaid => "unpaid"
    case Paid => "paid"
    case Refunded => "refunded"
  }

  function ParsePaymentStatus(t: string): (r: Option<PaymentStatus>)
    ensures r.Some? ==> PaymentStatusName(r.value) == t
  {
    if t == "unpaid" then Some(Unpaid)
    else if t == "paid" then Some(Paid)
    else if t == "refunded" then Some(Refunded)
    else None
  }

  lemma ParsePaymentName(m: PaymentMethod, s: PaymentStatus)
    ensures ParseMethod(MethodName(m)) == Some(m)
    ensures ParsePaymentStatus(PaymentStatusName(s)) == Some(s)
  {
  }

  datatype Payment = Payment(kind: PaymentMethod, status: PaymentStatus, trxId: Option<string>)

  /** The payment sub-record of a new booking: cash, unpaid, no transaction id. */
  const DefaultPayment := Payment(Cash, Unpaid, None)

  datatype Booking = Booking(
    user: Id,
    service: Id,
    provider: Option<Id>,
    scheduledAt: Timestamp,
    address: string,
    notes: Option<string>,
    payment: Payment,
    status: Status)

  /** `required: true` on a String rejects the empty string. */
  predicate ValidBooking(b: Booking) {
    b.address != ""
  }

  /** A freshly inserted booking: no provider, default payment, status pending. */
  function NewBooking(user: Id, service: Id, scheduledAt: Timestamp, address: string,
                      notes: Option<string>): (b: Booking)
    requires address != ""
    ensures ValidBooking(b)
    ensures b.status == Pending && b.provider.None? && b.payment == DefaultPayment
    ensures b.user == user && b.service == service && b.scheduledAt == scheduledAt
    ensures b.address == address && b.notes == notes
  {
    Booking(user, service, None, scheduledAt, address, notes, DefaultPayment, Pending)
  }
}
