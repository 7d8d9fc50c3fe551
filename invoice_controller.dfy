/**
 * The invoice handlers (backend/controllers/invoiceController.js): one
 * invoice per booking, generated on demand and returned again afterwards;
 * marking an invoice paid once and writing that through to the booking;
 * voiding; the access rule for reading one; the admin listing.
 */
module InvoiceController {
  import opened Wrappers
  import opened Js
  import opened Store
  import B = BookingModel
  import S = ServiceModel
  import opened InvoiceModel
  import Sorting
  import opened Casts

  /** `Invoice.findOne({ booking })`: the invoice of that booking, if any. */
  function InvoiceFor(invoices: map<Id, Invoice>, n: nat, booking: Id): (r: Option<Id>)
    requires Below(invoices, n)
    ensures r.Some? ==> r.value in invoices && invoices[r.value].booking == booking
    ensures r.None? ==> forall id :: id in invoices ==> invoices[id].booking != booking
  {
    Sorting.FirstOf(invoices, n, (x: Invoice) => x.booking == booking)
  }

  /** With one invoice per booking, the invoice of a booking is the only one. */
  lemma InvoiceForUnique(invoices: map<Id, Invoice>, n: nat, id: Id)
    requires Below(invoices, n) && UniqueBookings(invoices) && id in invoices
    ensures InvoiceFor(invoices, n, invoices[id].booking) == Some(id)
  {
  }

  /**
   * `Number(booking.service?.price || 0)`: a service that no longer exists
   * gives 0; a price that does not convert to a finite number is refused by
   * the cast of `subtotal`.
   */
  function Price(services: map<Id, S.Service>, service: Id): (r: Result<int>)
    ensures service !in services ==> r == Ok(0)
    ensures service in services ==> (r.Ok? <==> ToNumber(Or(services[service].price, Num(0))).Finite?)
    ensures service in services && r.Ok? ==> ToNumber(Or(services[service].price, Num(0))) == Finite(r.value)
  {
    var price := if service in services then services[service].price else Undefined;
    match ToNumber(Or(price, Num(0)))
    case Finite(i) => Ok(i)
    case _ => Err(BadRequest)
  }

  /**
   * The invoice a booking gets when it has none: customer, provider and
   * service copied from the booking (the service only while it exists),
   * subtotal the price, tax and total derived by the hook.
   */
  function NewInvoice(b: B.Booking, bookingId: Id, services: map<Id, S.Service>, currency: Option<string>,
                      taxPct: int, notes: Option<string>, generated: string, now: Timestamp): (r: Result<Invoice>)
    ensures r.Ok? ==> ValidInvoice(r.value) && r.value.booking == bookingId && r.value.status == Unpaid
    ensures r.Ok? ==> r.value.user == b.user && r.value.provider == b.provider && r.value.currency == currency
    ensures r.Ok? ==> r.value.notes == TrimNotes(notes)
    ensures r.Ok? ==> r.value.service == (if b.service in services then Some(b.service) else None)
    ensures r.Ok? ==> Price(services, b.service) == Ok(r.value.subtotal) && r.value.taxPct == taxPct
    ensures r.Ok? ==> r.value.paidAt.None? && r.value.paymentTrxId.None?
    ensures Price(services, b.service).Err? || taxPct < 0 || taxPct > 100 ==> r == Err(BadRequest)
    ensures r.Ok? <==> (Price(services, b.service).Ok? && Price(services, b.service).value >= 0
      && 0 <= taxPct <= 100 && (notes.Some? ==> |TrimNotes(notes).value| <= MaxNotes))
    ensures r.Err? ==> r.error == BadRequest
  {
    match Price(services, b.service)
    case Err(e) => Err(e)
    case Ok(price) =>
      var service := if b.service in services then Some(b.service) else None;
      var d := Draft(None, bookingId, b.user, b.provider, service, currency, price, taxPct, None, None,
                     Unpaid, now, None, notes, None);
      if price >= 0 && 0 <= taxPct <= 100 then DerivedAmounts(d, generated); Create(d, generated)
      else Create(d, generated)
  }

  /** The body of `POST /api/invoices/generate`; an absent field is Undefined. */
  datatype GenerateRequest = GenerateRequest(bookingId: Option<Id>, taxPct: Value, currency: Value, notes: Value)

  /** `taxPct = 0` then `Number(taxPct) || 0`; an infinite rate fails the `max`/`min` validators. */
  function TaxRate(v: Value): (r: Result<int>)
    ensures r.Ok? <==> NumberOrZero(v).Finite?
    ensures r.Ok? ==> r.value == NumberOrZero(v).i
    ensures ToNumber(v).NaN? ==> r == Ok(0)
  {
    match NumberOrZero(v)
    case Finite(i) => Ok(i)
    case _ => Err(BadRequest)
  }

  /**
   * A destructuring default (`currency = 'USD'`, `notes = ''`), then the
   * String cast of the schema path: undefined gives `d`, null stays null
   * (Mongoose applies its own default to undefined only), a number or a
   * boolean prints as text, an array or a plain object fails the cast.
   */
  function TextOr(v: Value, d: string): (r: Result<Option<string>>)
    ensures v.Undefined? ==> r == Ok(Some(d))
    ensures v.Null? ==> r == Ok(None)
    ensures v.Str? || v.Num? || v.Bool? ==> r == Ok(Some(ToStr(v)))
    ensures v.Arr? ==> r == Err(BadRequest)
    ensures !v.Undefined? ==> (r.Ok? <==> CastString(v).Ok?)
    ensures !v.Undefined? && r.Ok? ==> r.value == TextOf(CastString(v).value)
  {
    if v.Undefined? then Ok(Some(d))
    else match CastString(v)
      case Err(e) => Err(e)
      case Ok(c) => Ok(TextOf(c))
  }

  /** A text given in the body is stored as that text, an explicit null as null. */
  lemma TextOrKeepsNull(s: string, d: string)
    ensures TextOr(Str(s), d) == Ok(Some(s))
    ensures TextOr(Null, d) == Ok(None) && TextOr(Undefined, d) == Ok(Some(d))
  {
  }

  datatype Generated = Existing(id: Id) | Created(invoice: Invoice)

  /**
   * `generateInvoice`: 400 without a booking id, 404 for an unknown booking,
   * the existing invoice of the booking unchanged, or a new one.
   */
  function Generate(bookings: map<Id, B.Booking>, services: map<Id, S.Service>, invoices: map<Id, Invoice>,
                    n: nat, req: GenerateRequest, generated: string, now: Timestamp): (r: Result<Generated>)
    requires Below(invoices, n)
    ensures req.bookingId.None? <==> r == Err(BadRequest) && req.bookingId.None?
    ensures req.bookingId.Some? ==> (req.bookingId.value !in bookings <==> r == Err(NotFound))
    ensures r.Ok? && r.value.Existing? ==> InvoiceFor(invoices, n, req.bookingId.value) == Some(r.value.id)
    ensures req.bookingId.Some? && req.bookingId.value in bookings && InvoiceFor(invoices, n, req.bookingId.value).Some?
            ==> r == Ok(Existing(InvoiceFor(invoices, n, req.bookingId.value).value))
    ensures r.Ok? && r.value.Created? ==> InvoiceFor(invoices, n, req.bookingId.value).None?
    ensures r.Ok? && r.value.Created? ==> r.value.invoice.booking == req.bookingId.value && ValidInvoice(r.value.invoice)
    ensures r.Ok? && r.value.Created? ==>
      TextOr(req.currency, "USD") == Ok(r.value.invoice.currency) && TaxRate(req.taxPct) == Ok(r.value.invoice.taxPct)
    ensures r.Ok? && r.value.Created? ==>
      TextOr(req.notes, "").Ok? && r.value.invoice.notes == InvoiceModel.TrimNotes(TextOr(req.notes, "").value)
    ensures req.bookingId.Some? && req.bookingId.value in bookings && InvoiceFor(invoices, n, req.bookingId.value).None?
            && (TextOr(req.currency, "USD").Err? || TextOr(req.notes, "").Err? || TaxRate(req.taxPct).Err?)
            ==> r == Err(BadRequest)
    ensures r.Ok? && r.value.Created? ==> var b := bookings[req.bookingId.value]; var inv := r.value.invoice;
      inv.user == b.user && inv.provider == b.provider && inv.status == Unpaid
      && inv.service == (if b.service in services then Some(b.service) else None)
      && Price(services, b.service) == Ok(inv.subtotal)
    ensures r.Ok? && r.value.Created? ==>
      NewInvoice(bookings[req.bookingId.value], req.bookingId.value, services, TextOr(req.currency, "USD").value,
                 TaxRate(req.taxPct).value, TextOr(req.notes, "").value, generated, now) == Ok(r.value.invoice)
    ensures req.bookingId.Some? && req.bookingId.value in bookings && InvoiceFor(invoices, n, req.bookingId.value).None?
            && TextOr(req.currency, "USD").Ok? && TextOr(req.notes, "").Ok? && TaxRate(req.taxPct).Ok?
            ==> (r.Ok? <==> NewInvoice(bookings[req.bookingId.value], req.bookingId.value, services,
                              TextOr(req.currency, "USD").value, TaxRate(req.taxPct).value,
                              TextOr(req.notes, "").value, generated, now).Ok?)
                && (r.Ok? ==> r.value.Created?)
  {
    if req.bookingId.None? then Err(BadRequest)
    else if req.bookingId.value !in bookings then Err(NotFound)
    else match InvoiceFor(invoices, n, req.bookingId.value)
      case Some(id) => Ok(Existing(id))
      case None =>
        var currency := TextOr(req.currency, "USD");
        var notes := TextOr(req.notes, "");
        if currency.Err? || notes.Err? then Err(BadRequest)
        else match TaxRate(req.taxPct)
          case Err(e) => Err(e)
          case Ok(taxPct) =>
            var made := NewInvoice(bookings[req.bookingId.value], req.bookingId.value, services,
                                   currency.value, taxPct, notes.value, generated, now);
            match made
            case Err(e) => Err(e)
            case Ok(inv) => Ok(Created(inv))
  }

  /** `POST /api/invoices/generate`: at most one new invoice, and only for a booking without one. */
  method GenerateInvoice(db: Db, req: GenerateRequest, generated: string, now: Timestamp) returns (r: Result<Id>)
    requires db.Valid()
    modifies db`invoices, db`nextId
    ensures db.Valid()
    ensures var g := Generate(old(db.bookings), old(db.services), old(db.invoices), old(db.nextId), req, generated, now);
      (r.Err? <==> g.Err?) && (r.Err? ==> r.error == g.error)
      && (g.Ok? && g.value.Existing? ==> r == Ok(g.value.id) && db.invoices == old(db.invoices) && db.nextId == old(db.nextId))
      && (g.Ok? && g.value.Created? ==> r == Ok(old(db.nextId)) && db.invoices == old(db.invoices)[r.value := g.value.invoice])
    ensures r.Err? ==> db.invoices == old(db.invoices) && db.nextId == old(db.nextId)
  {
    var g := Generate(db.bookings, db.services, db.invoices, db.nextId, req, generated, now);
    if g.Err? {
      return Err(g.error);
    }
    if g.value.Existing? {
      return Ok(g.value.id);
    }
    var id := InsertInvoice(db, g.value.invoice);
    return Ok(id);
  }

  /** `Invoice.create` of a valid invoice for a booking that has none. */
  method InsertInvoice(db: Db, inv: Invoice) returns (id: Id)
    requires db.Valid() && ValidInvoice(inv)
    requires forall k :: k in db.invoices ==> db.invoices[k].booking != inv.booking
    modifies db`invoices, db`nextId
    ensures db.Valid()
    ensures id == old(db.nextId) && db.nextId == id + 1 && db.invoices == old(db.invoices)[id := inv]
  {
    AddInvoice(db.invoices, db.nextId, inv);
    id := db.NewId();
    db.invoices := db.invoices[id := inv];
  }

  /**
   * Generating twice for one booking: the second call returns the invoice
   * the first one created.
   */
  lemma {:induction false} GenerateIdempotent(bookings: map<Id, B.Booking>, services: map<Id, S.Service>,
    invoices: map<Id, Invoice>, n: nat, req: GenerateRequest, req2: GenerateRequest,
    generated: string, generated2: string, now: Timestamp, now2: Timestamp)
    requires Below(invoices, n)
    requires Generate(bookings, services, invoices, n, req, generated, now).Ok?
    requires Generate(bookings, services, invoices, n, req, generated, now).value.Created?
    requires req2.bookingId == req.bookingId
    ensures var inv := Generate(bookings, services, invoices, n, req, generated, now).value.invoice;
      Below(invoices[n := inv], n + 1)
      && Generate(bookings, services, invoices[n := inv], n + 1, req2, generated2, now2) == Ok(Existing(n))
  {
    var inv := Generate(bookings, services, invoices, n, req, generated, now).value.invoice;
    var m := invoices[n := inv];
    assert Below(m, n + 1);
    var b := req.bookingId.value;
    var found := InvoiceFor(m, n + 1, b);
    assert found.Some? by {
      assert m[n].booking == b;
    }
    assert found.value == n by {
      assert InvoiceFor(invoices, n, b).None?;
    }
  }

  /** Who may read an invoice: an admin, its customer, or its provider when one is set. */
  predicate CanSeeInvoice(inv: Invoice, caller: Caller) {
    caller.role == AdminRole || inv.user == caller.id || inv.provider == Some(caller.id)
  }

  /** `GET /api/invoices/:id`: 404 first, then 403 for anyone else. */
  function GetInvoice(invoices: map<Id, Invoice>, caller: Caller, id: Id): (r: Result<Invoice>)
    ensures id !in invoices <==> r == Err(NotFound)
    ensures id in invoices && !CanSeeInvoice(invoices[id], caller) <==> r == Err(Forbidden)
    ensures r.Ok? <==> id in invoices && CanSeeInvoice(invoices[id], caller)
    ensures r.Ok? ==> r.value == invoices[id]
  {
    if id !in invoices then Err(NotFound)
    else if !CanSeeInvoice(invoices[id], caller) then Err(Forbidden)
    else Ok(invoices[id])
  }

  /** A provider-less invoice is visible to no provider but its customer and admins. */
  lemma UnassignedInvoiceHidden(inv: Invoice, caller: Caller)
    requires inv.provider.None? && caller.role != AdminRole && caller.id != inv.user
    ensures !CanSeeInvoice(inv, caller)
  {
  }

  /** `trxId ? String(trxId) : <unchanged>`. */
  function TrxOr(trx: Value, current: Option<string>): (r: Option<string>)
    ensures Truthy(trx) ==> r == Some(ToStr(trx))
    ensures !Truthy(trx) ==> r == current
  {
    if Truthy(trx) then Some(ToStr(trx)) else current
  }

  /**
   * The invoice after `markPaid`: unchanged once paid; otherwise paid, stamped
   * now, and the transaction id recorded when one is given. A void invoice
   * is not excluded.
   */
  function MarkPaidInvoice(inv: Invoice, trx: Value, now: Timestamp): (r: Invoice)
    ensures inv.status == Paid ==> r == inv
    ensures inv.status != Paid ==> r == inv.(status := Paid, paidAt := Some(now), paymentTrxId := TrxOr(trx, inv.paymentTrxId))
  {
    if inv.status == Paid then inv
    else inv.(status := Paid, paidAt := Some(now), paymentTrxId := TrxOr(trx, inv.paymentTrxId))
  }

  /** Marking paid twice is marking paid once: the first stamp and transaction id stay. */
  lemma MarkPaidTwice(inv: Invoice, trx: Value, trx2: Value, now: Timestamp, now2: Timestamp)
    ensures MarkPaidInvoice(MarkPaidInvoice(inv, trx, now), trx2, now2) == MarkPaidInvoice(inv, trx, now)
    ensures MarkPaidInvoice(inv, trx, now).status == Paid
  {
  }

  /** Marking paid keeps the validators and the booking the invoice belongs to. */
  lemma MarkPaidKeepsInvoice(inv: Invoice, trx: Value, now: Timestamp)
    ensures ValidInvoice(inv) ==> ValidInvoice(MarkPaidInvoice(inv, trx, now))
    ensures MarkPaidInvoice(inv, trx, now).booking == inv.booking
    ensures MarkPaidInvoice(inv, trx, now).total == inv.total
  {
  }

  /** `$set: { 'payment.status': 'paid', 'payment.trxId'? }` on the booking. */
  function BookingMarkedPaid(b: B.Booking, trx: Value): (r: B.Booking)
    ensures r.payment.status == B.Paid && r.payment.kind == b.payment.kind
    ensures r.payment.trxId == TrxOr(trx, b.payment.trxId)
    ensures r == b.(payment := r.payment)
  {
    b.(payment := b.payment.(status := B.Paid, trxId := TrxOr(trx, b.payment.trxId)))
  }

  /** `PUT /api/invoices/:id/pay`: 404, a no-op on a paid invoice, else both records updated. */
  method MarkPaid(db: Db, id: Id, trx: Value, now: Timestamp) returns (r: Result<Invoice>)
    requires db.Valid()
    modifies db`invoices, db`bookings
    ensures db.Valid()
    ensures id !in old(db.invoices) <==> r == Err(NotFound)
    ensures id !in old(db.invoices) ==> db.invoices == old(db.invoices) && db.bookings == old(db.bookings)
    ensures id in old(db.invoices) && old(db.invoices)[id].status == Paid ==>
      r == Ok(old(db.invoices)[id]) && db.invoices == old(db.invoices) && db.bookings == old(db.bookings)
    ensures id in old(db.invoices) && old(db.invoices)[id].status != Paid ==>
      var inv := MarkPaidInvoice(old(db.invoices)[id], trx, now);
      r == Ok(inv) && db.invoices == old(db.invoices)[id := inv]
      && db.bookings == (if inv.booking in old(db.bookings)
                         then old(db.bookings)[inv.booking := BookingMarkedPaid(old(db.bookings)[inv.booking], trx)]
                         else old(db.bookings))
  {
    if id !in db.invoices {
      return Err(NotFound);
    }
    var inv := db.invoices[id];
    if inv.status == Paid {
      return Ok(inv);
    }
    inv := MarkPaidInvoice(inv, trx, now);
    MarkPaidKeepsInvoice(db.invoices[id], trx, now);
    KeepInvoices(db.invoices, db.nextId, id, inv);
    db.invoices := db.invoices[id := inv];
    if inv.booking in db.bookings {
      db.bookings := db.bookings[inv.booking := BookingMarkedPaid(db.bookings[inv.booking], trx)];
    }
    return Ok(inv);
  }

  /** Rewriting one invoice with a valid one for the same booking keeps the collection valid. */
  lemma KeepInvoices(invoices: map<Id, Invoice>, n: nat, id: Id, inv: Invoice)
    requires InvoicesOk(invoices, n) && id in invoices && ValidInvoice(inv)
    requires inv.booking == invoices[id].booking
    ensures InvoicesOk(invoices[id := inv], n)
  {
    var m := invoices[id := inv];
    forall a, b | a in m && b in m && a != b ensures m[a].booking != m[b].booking {
      assert m[a].booking == invoices[a].booking;
      assert m[b].booking == invoices[b].booking;
    }
  }

  /** Replacing an invoice by one for the same booking keeps one invoice per booking. */
  lemma UniqueReplace(invoices: map<Id, Invoice>, k: Id, inv: Invoice)
    requires UniqueBookings(invoices) && k in invoices && inv.booking == invoices[k].booking
    ensures UniqueBookings(invoices[k := inv])
  {
    var m := invoices[k := inv];
    forall a, b | a in m && b in m && a != b ensures m[a].booking != m[b].booking {
      assert m[a].booking == invoices[a].booking;
      assert m[b].booking == invoices[b].booking;
    }
  }

  /** Adding an invoice under a fresh id, for a booking that has none, keeps one invoice per booking. */
  lemma UniqueAdd(invoices: map<Id, Invoice>, n: nat, inv: Invoice)
    requires Below(invoices, n) && UniqueBookings(invoices)
    requires forall id :: id in invoices ==> invoices[id].booking != inv.booking
    ensures Below(invoices[n := inv], n + 1) && UniqueBookings(invoices[n := inv])
  {
  }

  /** Adding a valid invoice under a fresh id, for a booking that has none, keeps the collection valid. */
  lemma AddInvoice(invoices: map<Id, Invoice>, n: nat, inv: Invoice)
    requires InvoicesOk(invoices, n) && ValidInvoice(inv)
    requires forall id :: id in invoices ==> invoices[id].booking != inv.booking
    ensures InvoicesOk(invoices[n := inv], n + 1)
  {
    var m := invoices[n := inv];
    forall k | k in m ensures ValidInvoice(m[k]) {
      if k != n {
        assert m[k] == invoices[k];
      }
    }
  }

  /** `PUT /api/invoices/:id/void`: status void whatever it was, even paid; 404 when absent. */
  function Voided(invoices: map<Id, Invoice>, id: Id): (r: Result<Invoice>)
    ensures id !in invoices <==> r == Err(NotFound)
    ensures id in invoices <==> r.Ok?
    ensures r.Ok? ==> r.value == invoices[id].(status := Void)
  {
    if id !in invoices then Err(NotFound) else Ok(invoices[id].(status := Void))
  }

  method VoidInvoice(db: Db, id: Id) returns (r: Result<Invoice>)
    requires db.Valid()
    modifies db`invoices
    ensures db.Valid()
    ensures r == Voided(old(db.invoices), id)
    ensures db.invoices == if r.Ok? then old(db.invoices)[id := r.value] else old(db.invoices)
  {
    r := Voided(db.invoices, id);
    if r.Ok? {
      KeepInvoices(db.invoices, db.nextId, id, r.value);
      db.invoices := db.invoices[id := r.value];
    }
  }

  /** `GET /api/invoices/me`: the caller's invoices as customer, newest first. */
  function MyInvoices(invoices: map<Id, Invoice>, n: nat, caller: Caller): (r: seq<Id>)
    ensures forall id :: id in r <==> id < n && id in invoices && invoices[id].user == caller.id
    ensures forall i, j :: 0 <= i < j < |r| ==> r[i] > r[j]
  {
    Sorting.Newest(invoices, n, (x: Invoice) => x.user == caller.id)
  }

  /** `GET /api/invoices/provider/me`: the caller's invoices as provider, newest first. */
  function MyProviderInvoices(invoices: map<Id, Invoice>, n: nat, caller: Caller): (r: seq<Id>)
    ensures forall id :: id in r <==> id < n && id in invoices && invoices[id].provider == Some(caller.id)
    ensures forall i, j :: 0 <= i < j < |r| ==> r[i] > r[j]
  {
    Sorting.Newest(invoices, n, (x: Invoice) => x.provider == Some(caller.id))
  }

  /** The `listAll` filter: each query field narrows only when it is given (a truthy string). */
  predicate ListAllMatch(x: Invoice, status: Option<string>, user: Option<Id>, provider: Option<Id>) {
    (status.Some? && status.value != "" ==> InvoiceStatusName(x.status) == status.value)
    && (user.Some? ==> x.user == user.value)
    && (provider.Some? ==> x.provider == Some(provider.value))
  }

  /** `GET /api/invoices`: the matching invoices, newest first. */
  function ListAll(invoices: map<Id, Invoice>, n: nat, status: Option<string>, user: Option<Id>,
                   provider: Option<Id>): (r: seq<Id>)
    ensures forall id :: id in r <==> id < n && id in invoices && ListAllMatch(invoices[id], status, user, provider)
    ensures forall i, j :: 0 <= i < j < |r| ==> r[i] > r[j]
  {
    Sorting.Newest(invoices, n, (x: Invoice) => ListAllMatch(x, status, user, provider))
  }

  /** A status outside the enum matches nothing. */
  lemma ListAllUnknownStatus(invoices: map<Id, Invoice>, n: nat, status: string, user: Option<Id>, provider: Option<Id>)
    requires status != "" && ParseInvoiceStatus(status).None?
    ensures ListAll(invoices, n, Some(status), user, provider) == []
  {
    var r := ListAll(invoices, n, Some(status), user, provider);
    if r != [] {
      assert r[0] in r;
      ParseInvoiceStatusName(invoices[r[0]].status);
    }
  }
}
