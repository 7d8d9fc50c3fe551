/**
 * The Invoice record (backend/models/invoice.js) and its `pre('validate')`
 * hook, which fills in a number, the tax amount and the total when they are
 * missing. Money is in integer cents; rounding to cents is half-up.
 */
module InvoiceModel {
  import opened Wrappers
  import opened Strings

  datatype InvoiceStatus = Unpaid | Paid | Void

  function InvoiceStatusName(s: InvoiceStatus): string {
    match s
    case Unpaid => "unpaid"
    case Paid => "paid"
    case Void => "void"
  }

  function ParseInvoiceStatus(t: string): (r: Option<InvoiceStatus>)
    ensures r.Some? ==> InvoiceStatusName(r.value) == t
  {
    if t == "unpaid" then Some(Unpaid)
    else if t == "paid" then Some(Paid)
    else if t == "void" then Some(Void)
    else None
  }

  lemma ParseInvoiceStatusName(s: InvoiceStatus)
    ensures ParseInvoiceStatus(InvoiceStatusName(s)) == Some(s)
  {
  }

  datatype Invoice = Invoice(
    number: string,
    booking: Id,
    user: Id,
    provider: Option<Id>,
    service: Option<Id>,
    currency: Option<string>,
    subtotal: int,
    taxPct: int,
    taxAmount: int,
    total: int,
    status: InvoiceStatus,
    issuedAt: Timestamp,
    paidAt: Option<Timestamp>,
    notes: Option<string>,
    paymentTrxId: Option<string>)

  /** The document given to `Invoice.create` or `save`, before the hook runs. */
  datatype Draft = Draft(
    number: Option<string>,
    booking: Id,
    user: Id,
    provider: Option<Id>,
    service: Option<Id>,
    currency: Option<string>,
    subtotal: int,
    taxPct: int,
    taxAmount: Option<int>,
    total: Option<int>,
    status: InvoiceStatus,
    issuedAt: Timestamp,
    paidAt: Option<Timestamp>,
    notes: Option<string>,
    paymentTrxId: Option<string>)

  const MaxNotes := 2000

  /** `subtotal * taxPct / 100` rounded to the cent. */
  function Tax(subtotal: int, taxPct: int): int {
    (subtotal * taxPct + 50) / 100
  }

  /**
   * The hook: a falsy number is replaced by the generated one; a missing
   * tax amount or total is derived. Notes pass through the `trim` setter;
   * a null currency or null notes stay null (None).
   */
  function PreValidate(d: Draft, generated: string): (inv: Invoice) {
    var number := if d.number.Some? && d.number.value != "" then d.number.value else generated;
    var taxAmount := if d.taxAmount.Some? then d.taxAmount.value else Tax(d.subtotal, d.taxPct);
    var total := if d.total.Some? then d.total.value else d.subtotal + taxAmount;
    Invoice(number, d.booking, d.user, d.provider, d.service, d.currency, d.subtotal, d.taxPct,
            taxAmount, total, d.status, d.issuedAt, d.paidAt, TrimNotes(d.notes), d.paymentTrxId)
  }

  function TrimNotes(notes: Option<string>): (r: Option<string>)
    ensures r.Some? <==> notes.Some?
    ensures r.Some? ==> r.value == Trim(notes.value)
  {
    if notes.Some? then Some(Trim(notes.value)) else None
  }

  /** Notes that are absent, or present with no white space at either end. */
  predicate NotesTrimmed(notes: Option<string>) {
    notes.Some? ==> Trimmed(notes.value)
  }

  /** A stored invoice seen as a draft again, as `save` sees it. */
  function Redraft(inv: Invoice): (d: Draft)
    ensures d.number == Some(inv.number) && d.taxAmount == Some(inv.taxAmount) && d.total == Some(inv.total)
  {
    Draft(Some(inv.number), inv.booking, inv.user, inv.provider, inv.service, inv.currency,
          inv.subtotal, inv.taxPct, Some(inv.taxAmount), Some(inv.total), inv.status,
          inv.issuedAt, inv.paidAt, inv.notes, inv.paymentTrxId)
  }

  /** The schema validators, and the `trim` setter on notes. */
  predicate ValidInvoice(inv: Invoice) {
    inv.subtotal >= 0 && 0 <= inv.taxPct <= 100 && inv.taxAmount >= 0 && inv.total >= 0
    && (inv.notes.Some? ==> |inv.notes.value| <= MaxNotes) && NotesTrimmed(inv.notes)
  }

  /** The unique index on booking: at most one invoice per booking. */
  predicate UniqueBookings(invoices: map<Id, Invoice>) {
    forall a, b :: a in invoices && b in invoices && a != b ==> invoices[a].booking != invoices[b].booking
  }

  /** Running the hook, then the validators; a document that fails is not stored. */
  function Create(d: Draft, generated: string): (r: Result<Invoice>)
    ensures r.Ok? ==> ValidInvoice(r.value)
    ensures r.Ok? ==> r.value.booking == d.booking && r.value.subtotal == d.subtotal && r.value.taxPct == d.taxPct
    ensures d.subtotal < 0 || d.taxPct < 0 || d.taxPct > 100 ==> r == Err(BadRequest)
    ensures r.Ok? <==> ValidInvoice(PreValidate(d, generated))
    ensures r.Ok? ==> r.value == PreValidate(d, generated)
    ensures r.Err? ==> r.error == BadRequest
  {
    var inv := PreValidate(d, generated);
    if ValidInvoice(inv) then Ok(inv) else Err(BadRequest)
  }

  /** A number that is present is never overwritten; an absent or empty one is generated. */
  lemma NumberKept(d: Draft, generated: string)
    ensures d.number.Some? && d.number.value != "" ==> PreValidate(d, generated).number == d.number.value
    ensures (d.number.None? || d.number.value == "") ==> PreValidate(d, generated).number == generated
  {
  }

  /**
   * With nothing preset and a valid subtotal and rate, the derived tax lies
   * between 0 and the subtotal and the total is their sum.
   */
  lemma {:induction false} DerivedAmounts(d: Draft, generated: string)
    requires d.taxAmount.None? && d.total.None?
    requires d.subtotal >= 0 && 0 <= d.taxPct <= 100
    ensures var inv := PreValidate(d, generated);
      0 <= inv.taxAmount <= inv.subtotal && inv.total == inv.subtotal + inv.taxAmount
  {
    var s, p := d.subtotal, d.taxPct;
    assert 0 <= s * p <= s * 100 by {
      MulBounds(s, p);
    }
    assert (s * p + 50) / 100 <= s;
  }

  lemma MulBounds(s: int, p: int)
    requires s >= 0 && 0 <= p <= 100
    ensures 0 <= s * p <= s * 100
  {
    assert s * 100 - s * p == s * (100 - p);
  }

  /** Saving a stored invoice again changes nothing: every derived field is present. */
  lemma {:induction false} HookIdempotent(inv: Invoice, generated: string)
    requires inv.number != "" && NotesTrimmed(inv.notes)
    ensures PreValidate(Redraft(inv), generated) == inv
  {
    if inv.notes.Some? {
      TrimOfTrimmed(inv.notes.value);
    }
  }
}
