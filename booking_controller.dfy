/**
 * The booking handlers (backend/controllers/bookingController.js): create a
 * booking, list the caller's bookings, overwrite a booking's status.
 */
module BookingController {
  import opened Wrappers
  import opened Store
  import opened BookingModel
  import Sorting

  /** The request body of `POST /api/bookings`; a missing field is None. */
  datatype CreateRequest = CreateRequest(
    service: Option<Id>,
    scheduledAt: Option<Timestamp>,
    address: Option<string>,
    notes: Option<string>)

  /** `service && scheduledAt && address`: all three present, the address non-empty. */
  predicate HasRequired(req: CreateRequest) {
    req.service.Some? && req.scheduledAt.Some? && req.address.Some? && req.address.value != ""
  }

  /** The booking `createBooking` inserts for `caller`, or the 400 it answers with. */
  function NewBookingFor(caller: Caller, req: CreateRequest): (r: Result<Booking>)
    ensures r.Err? <==> !HasRequired(req)
    ensures r.Err? ==> r.error == BadRequest
    ensures r.Ok? ==> ValidBooking(r.value) && r.value.user == caller.id && r.value.status == Pending
    ensures r.Ok? ==> r.value.service == req.service.value && r.value.scheduledAt == req.scheduledAt.value
    ensures r.Ok? ==> r.value.address == req.address.value && r.value.notes == req.notes
    ensures r.Ok? ==> r.value.provider.None? && r.value.payment == DefaultPayment
  {
    if !HasRequired(req) then Err(BadRequest)
    else Ok(NewBooking(caller.id, req.service.value, req.scheduledAt.value, req.address.value, req.notes))
  }

  /** `POST /api/bookings`: on success the new booking has the next id and nothing else changes. */
  method CreateBooking(db: Db, caller: Caller, req: CreateRequest) returns (r: Result<Id>)
    requires db.Valid()
    modifies db`bookings, db`nextId
    ensures db.Valid()
    ensures r.Err? <==> !HasRequired(req)
    ensures r.Err? ==> r.error == BadRequest && db.bookings == old(db.bookings) && db.nextId == old(db.nextId)
    ensures r.Ok? ==> r.value == old(db.nextId) && r.value !in old(db.bookings)
    ensures r.Ok? ==> db.bookings == old(db.bookings)[r.value := NewBookingFor(caller, req).value]
  {
    var made := NewBookingFor(caller, req);
    if made.Err? {
      return Err(made.error);
    }
    var id := db.NewId();
    db.bookings := db.bookings[id := made.value];
    return Ok(id);
  }

  /** `GET /api/bookings/me`: the caller's bookings, in insertion order. */
  function MyBookings(bookings: map<Id, Booking>, n: nat, caller: Caller): (r: seq<Id>)
    ensures forall id :: id in r <==> id < n && id in bookings && bookings[id].user == caller.id
    ensures forall i, j :: 0 <= i < j < |r| ==> r[i] < r[j]
  {
    Sorting.Oldest(bookings, n, (b: Booking) => b.user == caller.id)
  }

  /** The four statuses `updateStatus` accepts; `on_the_way` is not among them. */
  function AllowedStatus(t: string): (r: Option<Status>)
    ensures r.Some? <==> t in ["pending", "confirmed", "completed", "cancelled"]
    ensures r.Some? ==> StatusName(r.value) == t && r.value != OnTheWay
  {
    match ParseStatus(t)
    case Some(s) => if s == OnTheWay then None else Some(s)
    case None => None
  }

  /** The record `updateStatus` writes: only the status changes; the current status is not consulted. */
  function StatusUpdate(bookings: map<Id, Booking>, id: Id, t: string): (r: Result<Booking>)
    ensures AllowedStatus(t).None? ==> r == Err(BadRequest)
    ensures AllowedStatus(t).Some? && id !in bookings ==> r == Err(NotFound)
    ensures AllowedStatus(t).Some? && id in bookings ==> r.Ok?
    ensures r.Ok? ==> id in bookings && StatusName(r.value.status) == t
    ensures r.Ok? ==> r.value == bookings[id].(status := r.value.status)
  {
    match AllowedStatus(t)
    case None => Err(BadRequest)
    case Some(s) => if id in bookings then Ok(bookings[id].(status := s)) else Err(NotFound)
  }

  /** `on_the_way`, the status the schema and both clients use, is refused. */
  lemma OnTheWayRefused(bookings: map<Id, Booking>, id: Id)
    ensures StatusUpdate(bookings, id, StatusName(OnTheWay)) == Err(BadRequest)
  {
  }

  /** A completed or cancelled booking can be moved back to any allowed status. */
  lemma NoTransitionOrder(bookings: map<Id, Booking>, id: Id, to: Status)
    requires id in bookings && to != OnTheWay
    ensures StatusUpdate(bookings, id, StatusName(to)) == Ok(bookings[id].(status := to))
  {
    ParseStatusName(to);
  }

  /** `PATCH /api/bookings/:id/status`: one booking's status, nothing else. */
  method UpdateStatus(db: Db, id: Id, t: string) returns (r: Result<Booking>)
    requires db.Valid()
    modifies db`bookings
    ensures db.Valid()
    ensures r == StatusUpdate(old(db.bookings), id, t)
    ensures db.bookings == if r.Ok? then old(db.bookings)[id := r.value] else old(db.bookings)
  {
    r := StatusUpdate(db.bookings, id, t);
    if r.Ok? {
      db.bookings := db.bookings[id := r.value];
    }
  }
}
