/**
 * `POST /api/payments/charge` (backend/routes/paymentRoutes.js): the owner,
 * the assigned provider or an admin marks a booking paid; the booking's
 * invoice is created when missing and marked paid, with no guard against
 * paying twice.
 */
module PaymentRoutes {
  import opened Wrappers
  import opened Js
  import opened Store
  import opened BookingModel
  import S = ServiceModel
  import I = InvoiceModel
  import opened InvoiceController

  /** The body; `method` (payMethod) is None when absent (it then defaults to "online"). */
  datatype ChargeRequest = ChargeRequest(bookingId: Option<Id>, payMethod: Option<string>, trxId: Value)

  /** Owner, assigned provider, or admin. */
  predicate MayPay(b: Booking, caller: Caller) {
    b.user == caller.id || b.provider == Some(caller.id) || caller.role == AdminRole
  }

  /**
   * The checks before anything is written: 400 without a booking id, 404,
   * 403 unless `MayPay`, and 400 when the method fails the enum (the first
   * save then stores nothing).
   */
  function ChargeGuard(bookings: map<Id, Booking>, caller: Caller, req: ChargeRequest): (r: Result<PaymentMethod>)
    ensures req.bookingId.None? ==> r == Err(BadRequest)
    ensures req.bookingId.Some? ==> (req.bookingId.value !in bookings <==> r == Err(NotFound))
    ensures req.bookingId.Some? && req.bookingId.value in bookings ==>
      (!MayPay(bookings[req.bookingId.value], caller) <==> r == Err(Forbidden))
    ensures r.Ok? ==> req.bookingId.Some? && req.bookingId.value in bookings && MayPay(bookings[req.bookingId.value], caller)
    ensures r.Ok? ==> MethodName(r.value) == (if req.payMethod.Some? then req.payMethod.value else "online")
    ensures req.bookingId.Some? && req.bookingId.value in bookings && MayPay(bookings[req.bookingId.value], caller) ==>
      (r.Ok? <==> ParseMethod(if req.payMethod.Some? then req.payMethod.value else "online").Some?)
    ensures r.Err? ==> r.error in {BadRequest, NotFound, Forbidden}
  {
    if req.bookingId.None? then Err(BadRequest)
    else if req.bookingId.value !in bookings then Err(NotFound)
    else if !MayPay(bookings[req.bookingId.value], caller) then Err(Forbidden)
    else match ParseMethod(if req.payMethod.Some? then req.payMethod.value else "online")
      case Some(m) => Ok(m)
      case None => Err(BadRequest)
  }

  /** Step 1: the booking's payment becomes (method, paid, the given trxId or the old one). */
  function ChargedBooking(b: Booking, m: PaymentMethod, trx: Value): (r: Booking)
    ensures r.payment == Payment(m, Paid, TrxOr(trx, b.payment.trxId))
    ensures r == b.(payment := r.payment)
  {
    b.(payment := Payment(m, Paid, TrxOr(trx, b.payment.trxId)))
  }

  /** Step 3: paid, stamped now, whatever the invoice's status was. */
  function PaidNow(inv: I.Invoice, trx: Value, now: Timestamp): (r: I.Invoice)
    ensures r.status == I.Paid && r.paidAt == Some(now) && r.paymentTrxId == TrxOr(trx, inv.paymentTrxId)
    ensures r == inv.(status := r.status, paidAt := r.paidAt, paymentTrxId := r.paymentTrxId)
  {
    inv.(status := I.Paid, paidAt := Some(now), paymentTrxId := TrxOr(trx, inv.paymentTrxId))
  }

  /** Steps 2 and 3: the answer, and the invoices and id counter left behind. */
  datatype Paying = Paying(r: Result<Id>, invoices: map<Id, I.Invoice>, nextId: nat)

  /**
   * Ensure the booking `id` (already updated to `nb`) has an invoice, then
   * mark it paid. A new invoice has subtotal the price, no tax, USD and empty
   * notes; when it fails the validators the answer is 400.
   */
  function EnsurePaid(nb: Booking, id: Id, services: map<Id, S.Service>, invoices: map<Id, I.Invoice>, n: nat,
                      trx: Value, generated: string, now: Timestamp): (p: Paying)
    requires Below(invoices, n)
    ensures p.r.Ok? ==> p.r.value in p.invoices && p.invoices[p.r.value].booking == id
    ensures p.r.Ok? ==> p.invoices[p.r.value].status == I.Paid && p.invoices[p.r.value].paidAt == Some(now)
    ensures p.r.Ok? ==> p.invoices.Keys == invoices.Keys + {p.r.value}
    ensures p.r.Ok? ==> forall j :: j in invoices && j != p.r.value ==> p.invoices[j] == invoices[j]
    ensures p.r.Err? ==> p.invoices == invoices && p.nextId == n
    ensures InvoiceFor(invoices, n, id).Some? ==> p.r == Ok(InvoiceFor(invoices, n, id).value) && p.nextId == n
    ensures InvoiceFor(invoices, n, id).None? && p.r.Ok? ==>
      p.r == Ok(n) && p.nextId == n + 1 && InvoiceController.Price(services, nb.service) == Ok(p.invoices[n].subtotal)
      && p.invoices[n].taxPct == 0 && p.invoices[n].currency == Some("USD")
    ensures p.nextId == n || (p.nextId == n + 1 && p.r == Ok(n))
    ensures InvoiceFor(invoices, n, id).Some? ==>
      var k := InvoiceFor(invoices, n, id).value;
      p.invoices == invoices[k := PaidNow(invoices[k], trx, now)]
    ensures InvoiceFor(invoices, n, id).None? ==>
      var m := NewInvoice(nb, id, services, Some("USD"), 0, Some(""), generated, now);
      (p.r.Ok? <==> m.Ok?) && (m.Ok? ==> p.invoices == invoices[n := PaidNow(m.value, trx, now)])
  {
    match InvoiceFor(invoices, n, id)
    case Some(k) => Paying(Ok(k), invoices[k := PaidNow(invoices[k], trx, now)], n)
    case None =>
      match NewInvoice(nb, id, services, Some("USD"), 0, Some(""), generated, now)
      case Err(e) => Paying(Err(e), invoices, n)
      case Ok(inv) => Paying(Ok(n), invoices[n := PaidNow(inv, trx, now)], n + 1)
  }

  /** Ensuring and paying keeps one invoice per booking. */
  lemma EnsurePaidKeepsOnePerBooking(nb: Booking, id: Id, services: map<Id, S.Service>, invoices: map<Id, I.Invoice>,
                                     n: nat, trx: Value, generated: string, now: Timestamp)
    requires Below(invoices, n) && I.UniqueBookings(invoices)
    ensures var p := EnsurePaid(nb, id, services, invoices, n, trx, generated, now);
      Below(p.invoices, p.nextId) && I.UniqueBookings(p.invoices)
  {
    var p := EnsurePaid(nb, id, services, invoices, n, trx, generated, now);
    match InvoiceFor(invoices, n, id)
    case Some(k) =>
      assert p == Paying(Ok(k), invoices[k := PaidNow(invoices[k], trx, now)], n);
      UniqueReplace(invoices, k, PaidNow(invoices[k], trx, now));
    case None =>
      var made := NewInvoice(nb, id, services, Some("USD"), 0, Some(""), generated, now);
      if made.Ok? {
        assert p == Paying(Ok(n), invoices[n := PaidNow(made.value, trx, now)], n + 1);
        UniqueAdd(invoices, n, PaidNow(made.value, trx, now));
      } else {
        assert p.invoices == invoices && p.nextId == n;
      }
  }

  /** What a charge answers, and the bookings, invoices and id counter it leaves. */
  datatype Outcome = Outcome(r: Result<Id>, bookings: map<Id, Booking>, invoices: map<Id, I.Invoice>, nextId: nat)

  /**
   * The whole handler. The booking is saved before the invoice is looked up,
   * so a failing invoice creation answers 400 with the booking already paid.
   */
  function Charge(bookings: map<Id, Booking>, services: map<Id, S.Service>, invoices: map<Id, I.Invoice>,
                  n: nat, caller: Caller, req: ChargeRequest, generated: string, now: Timestamp): (o: Outcome)
    requires Below(invoices, n)
    ensures ChargeGuard(bookings, caller, req).Err? ==>
      o == Outcome(Err(ChargeGuard(bookings, caller, req).error), bookings, invoices, n)
    ensures ChargeGuard(bookings, caller, req).Ok? ==>
      var id := req.bookingId.value;
      var nb := ChargedBooking(bookings[id], ChargeGuard(bookings, caller, req).value, req.trxId);
      o.bookings == bookings[id := nb]
      && var p := EnsurePaid(nb, id, services, invoices, n, req.trxId, generated, now);
      o == Outcome(p.r, o.bookings, p.invoices, p.nextId)
  {
    match ChargeGuard(bookings, caller, req)
    case Err(e) => Outcome(Err(e), bookings, invoices, n)
    case Ok(m) =>
      var id := req.bookingId.value;
      var nb := ChargedBooking(bookings[id], m, req.trxId);
      var p := EnsurePaid(nb, id, services, invoices, n, req.trxId, generated, now);
      Outcome(p.r, bookings[id := nb], p.invoices, p.nextId)
  }

  /** A caller who may not pay changes nothing. */
  lemma ForbiddenChangesNothing(bookings: map<Id, Booking>, services: map<Id, S.Service>, invoices: map<Id, I.Invoice>,
                                n: nat, caller: Caller, req: ChargeRequest, generated: string, now: Timestamp)
    requires Below(invoices, n)
    requires req.bookingId.Some? && req.bookingId.value in bookings && !MayPay(bookings[req.bookingId.value], caller)
    ensures Charge(bookings, services, invoices, n, caller, req, generated, now)
            == Outcome(Err(Forbidden), bookings, invoices, n)
  {
  }

  /**
   * No already-paid guard: charging again re-stamps the invoice with the new
   * time, where `markPaid` keeps the first stamp (see MarkPaidTwice).
   */
  lemma {:induction false} ChargeTwiceRestamps(bookings: map<Id, Booking>, services: map<Id, S.Service>,
    invoices: map<Id, I.Invoice>, n: nat, caller: Caller, req: ChargeRequest, generated: string,
    now: Timestamp, now2: Timestamp)
    requires Below(invoices, n) && I.UniqueBookings(invoices)
    requires Charge(bookings, services, invoices, n, caller, req, generated, now).r.Ok?
    ensures var o := Charge(bookings, services, invoices, n, caller, req, generated, now);
      Below(o.invoices, o.nextId)
      && var o2 := Charge(o.bookings, services, o.invoices, o.nextId, caller, req, generated, now2);
      o2.r == o.r && o2.nextId == o.nextId && o2.invoices[o.r.value].paidAt == Some(now2)
  {
    var o := Charge(bookings, services, invoices, n, caller, req, generated, now);
    var id := req.bookingId.value;
    var g := ChargeGuard(bookings, caller, req);
    var nb := ChargedBooking(bookings[id], g.value, req.trxId);
    EnsurePaidKeepsOnePerBooking(nb, id, services, invoices, n, req.trxId, generated, now);
    var k := o.r.value;
    assert ChargeGuard(o.bookings, caller, req) == g by {
      assert o.bookings[id].user == bookings[id].user && o.bookings[id].provider == bookings[id].provider;
    }
    InvoiceForUnique(o.invoices, o.nextId, k);
  }

  /** Steps 2 and 3 against the database. */
  method PayInvoice(db: Db, nb: Booking, id: Id, trx: Value, generated: string, now: Timestamp) returns (r: Result<Id>)
    requires db.Valid()
    modifies db`invoices, db`nextId
    ensures db.Valid()
    ensures var p := EnsurePaid(nb, id, old(db.services), old(db.invoices), old(db.nextId), trx, generated, now);
      r == p.r && db.invoices == p.invoices && db.nextId == p.nextId
  {
    var existing := InvoiceFor(db.invoices, db.nextId, id);
    if existing.Some? {
      PayExisting(db, existing.value, trx, now);
      return Ok(existing.value);
    }
    var made := NewInvoice(nb, id, db.services, Some("USD"), 0, Some(""), generated, now);
    if made.Err? {
      return Err(made.error);
    }
    var k := InsertInvoice(db, PaidNow(made.value, trx, now));
    return Ok(k);
  }

  /** Step 3 on an invoice that is already stored. */
  method PayExisting(db: Db, k: Id, trx: Value, now: Timestamp)
    requires db.Valid() && k in db.invoices
    modifies db`invoices
    ensures db.Valid()
    ensures db.invoices == old(db.invoices)[k := PaidNow(old(db.invoices)[k], trx, now)]
  {
    var paid := PaidNow(db.invoices[k], trx, now);
    KeepInvoices(db.invoices, db.nextId, k, paid);
    db.invoices := db.invoices[k := paid];
  }

  /** `POST /api/payments/charge` against the database. */
  method ChargeBooking(db: Db, caller: Caller, req: ChargeRequest, generated: string, now: Timestamp) returns (r: Result<Id>)
    requires db.Valid()
    modifies db`bookings, db`invoices, db`nextId
    ensures db.Valid()
    ensures var o := Charge(old(db.bookings), old(db.services), old(db.invoices), old(db.nextId), caller, req, generated, now);
      r == o.r && db.bookings == o.bookings && db.invoices == o.invoices && db.nextId == o.nextId
  {
    var guard := ChargeGuard(db.bookings, caller, req);
    if guard.Err? {
      return Err(guard.error);
    }
    var id := req.bookingId.value;
    var nb := ChargedBooking(db.bookings[id], guard.value, req.trxId);
    db.bookings := db.bookings[id := nb];
    r := PayInvoice(db, nb, id, req.trxId, generated, now);
  }
}
