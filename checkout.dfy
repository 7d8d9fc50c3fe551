/**
 * The checkout page's client logic (frontend/src/pages/Checkout.jsx): finding
 * the booking in whatever shape the server answers with, reading its payment
 * state and its price fields, labelling status words, and the payment
 * request that tries several endpoints and moves on only when a response
 * says the route or the payload does not fit.
 */
module Checkout {
  import opened Wrappers
  import opened Js
  import opened Strings
  import opened Attempts

  // ---------------------------------------------------------------- labelize

  /** `.replace(/[-_]/g, ' ')`. */
  function Dashless(s: string): (r: string)
    ensures |r| == |s|
    ensures forall i :: 0 <= i < |s| ==> r[i] == (if s[i] == '-' || s[i] == '_' then ' ' else s[i])
  {
    if s == [] then [] else [if s[0] == '-' || s[0] == '_' then ' ' else s[0]] + Dashless(s[1..])
  }

  /** No dash and no underscore. */
  predicate Undashed(s: string) {
    forall i :: 0 <= i < |s| ==> s[i] != '-' && s[i] != '_'
  }

  /** What `labelize` works on: `String(s || '')` without dashes, trimmed. */
  function LabelText(s: Value): (t: string)
    ensures Trimmed(t) && Undashed(t)
  {
    var d := Dashless(ToStr(Or(s, Str(""))));
    TrimUndashed(d);
    Trim(d)
  }

  /** Trimming keeps a string free of dashes. */
  lemma TrimUndashed(s: string)
    requires Undashed(s)
    ensures Undashed(Trim(s))
  {
    var u := TrimStart(s);
    assert Undashed(u) by {
      forall i | 0 <= i < |u| ensures u[i] != '-' && u[i] != '_' {
        assert u[i] == s[|s| - |u| + i];
      }
    }
  }

  /** Capitalising the first character of a non-empty string, or '—' for the empty one. */
  function Capitalized(t: string): (r: string)
    ensures t == [] ==> r == "—"
    ensures t != [] ==> |r| == |t| && r[0] == UpperChar(t[0]) && r[1..] == t[1..]
    ensures r != [] && (Trimmed(t) ==> Trimmed(r)) && (Undashed(t) ==> Undashed(r))
    ensures UpperChar(r[0]) == r[0]
  {
    if t != [] then UpperIdempotent(t[0]); [UpperChar(t[0])] + t[1..] else "—"
  }

  lemma UpperIdempotent(c: char)
    ensures UpperChar(UpperChar(c)) == UpperChar(c)
  {
  }

  /**
   * `labelize(s)`: dashes and underscores become spaces, the ends are
   * trimmed and the first character is upper-cased; nothing left gives '—'.
   */
  function Labelize(s: Value): (r: string)
    ensures r != [] && Trimmed(r) && Undashed(r)
    ensures r == Capitalized(LabelText(s))
  {
    Capitalized(LabelText(s))
  }

  lemma DashlessOfClean(s: string)
    requires Undashed(s)
    ensures Dashless(s) == s
  {
  }

  /** A label labels as itself. */
  lemma LabelizeIdempotent(s: Value)
    ensures Labelize(Str(Labelize(s))) == Labelize(s)
  {
    var r := Labelize(s);
    LabelTextOfLabel(r);
    CapitalizedOfCapital(r);
  }

  /** A clean, trimmed, non-empty text is its own label text. */
  lemma LabelTextOfLabel(r: string)
    requires r != [] && Trimmed(r) && Undashed(r)
    ensures LabelText(Str(r)) == r
  {
    assert Truthy(Str(r));
    assert ToStr(Or(Str(r), Str(""))) == r;
    DashlessOfClean(r);
    TrimOfTrimmed(r);
  }

  /** A text that starts upper-cased capitalises to itself. */
  lemma CapitalizedOfCapital(r: string)
    requires r != [] && UpperChar(r[0]) == r[0]
    ensures Capitalized(r) == r
  {
    assert r == [r[0]] + r[1..];
  }

  /** Characters `labelize` reads as a space. */
  predicate Separator(c: char) {
    c == '-' || c == '_' || c == ' '
  }

  /** Words that differ only in which separators they use (`on_the_way`, `on-the-way`) get the same label. */
  lemma LabelizeSeparators(s: string, u: string)
    requires |s| == |u|
    requires forall i :: 0 <= i < |s| ==> s[i] == u[i] || (Separator(s[i]) && Separator(u[i]))
    ensures Labelize(Str(s)) == Labelize(Str(u))
  {
    assert Dashless(s) == Dashless(u);
    if s == [] {
      assert u == [];
    } else {
      assert Or(Str(s), Str("")) == Str(s) && Or(Str(u), Str("")) == Str(u);
    }
  }

  /** Words made of separators and white space alone, and falsy values, show '—'. */
  lemma LabelizeBlank(v: Value, s: string)
    requires !Truthy(v)
    requires forall i :: 0 <= i < |s| ==> Separator(s[i]) || IsSpace(s[i])
    ensures Labelize(v) == "—"
    ensures Labelize(Str(s)) == "—"
  {
    FalsyLabelText(v);
    BlankLabelText(s);
  }

  /** A falsy value has an empty label text. */
  lemma FalsyLabelText(v: Value)
    requires !Truthy(v)
    ensures LabelText(v) == []
  {
    assert Or(v, Str("")) == Str("");
    assert ToStr(Str("")) == [];
    assert Dashless([]) == [];
    TrimEmptyIffAllSpace([]);
  }

  /** A text of separators and blanks has an empty label text. */
  lemma BlankLabelText(s: string)
    requires forall i :: 0 <= i < |s| ==> Separator(s[i]) || IsSpace(s[i])
    ensures LabelText(Str(s)) == []
  {
    assert ToStr(Or(Str(s), Str(""))) == s;
    var d := Dashless(s);
    assert forall i :: 0 <= i < |d| ==> IsSpace(d[i]);
    TrimEmptyIffAllSpace(d);
  }

  // ---------------------------------------------------------------- numberOr

  /** `!Number.isNaN(n) && Number.isFinite(n)` for `n = Number(v)`. */
  predicate FiniteNumber(v: Value) {
    ToNumber(v).Finite?
  }

  /** The first argument that converts to a finite number, else 0. */
  function FirstFinite(vals: seq<Value>): (r: int)
    ensures (forall j :: 0 <= j < |vals| ==> !FiniteNumber(vals[j])) ==> r == 0
    ensures forall k :: 0 <= k < |vals| && FiniteNumber(vals[k]) && (forall j :: 0 <= j < k ==> !FiniteNumber(vals[j])) ==>
      r == ToNumber(vals[k]).i
  {
    if vals == [] then 0
    else if FiniteNumber(vals[0]) then ToNumber(vals[0]).i
    else
      var rest := vals[1..];
      var r := FirstFinite(rest);
      assert forall k :: 1 <= k < |vals| ==> vals[k] == rest[k - 1];
      assert forall k :: 0 <= k < |vals| && FiniteNumber(vals[k]) ==> k >= 1;
      r
  }

  /** `numberOr(...vals)`. */
  method NumberOr(vals: seq<Value>) returns (n: int)
    ensures n == FirstFinite(vals)
  {
    var i := 0;
    while i < |vals|
      invariant 0 <= i <= |vals|
      invariant forall j :: 0 <= j < i ==> !FiniteNumber(vals[j])
    {
      var m := ToNumber(vals[i]);
      if m.Finite? {
        return m.i;
      }
      i := i + 1;
    }
    return 0;
  }

  /**
   * A missing field is skipped, but a `null` one counts as 0 and ends the
   * search: `numberOr(booking.total, booking.price)` with `total: null` is 0
   * whatever the price.
   */
  lemma NumberOrNull(price: int)
    ensures FirstFinite([Undefined, Num(price)]) == price
    ensures FirstFinite([Null, Num(price)]) == 0
  {
    assert FirstFinite([Num(price)]) == price;
  }

  // ------------------------------------------------------------- the booking

  /** `bookings.find(b => String(b._id) === String(bookingId))`. */
  function FindById(bookings: seq<Value>, bookingId: Value): (r: Option<nat>)
    ensures r.None? <==> forall j :: 0 <= j < |bookings| ==> ToStr(Get(bookings[j], "_id")) != ToStr(bookingId)
    ensures r.Some? ==> r.value < |bookings| && ToStr(Get(bookings[r.value], "_id")) == ToStr(bookingId)
    ensures r.Some? ==> forall j :: 0 <= j < r.value ==> ToStr(Get(bookings[j], "_id")) != ToStr(bookingId)
  {
    if bookings == [] then None
    else if ToStr(Get(bookings[0], "_id")) == ToStr(bookingId) then Some(0)
    else
      var k := FindById(bookings[1..], bookingId);
      assert forall j :: 1 <= j < |bookings| ==> bookings[j] == bookings[1..][j - 1];
      if k.None? then None else Some(k.value + 1)
  }

  /** `bookings[i]`: undefined past the end. */
  function At(items: seq<Value>, i: nat): Value {
    if i < |items| then items[i] else Undefined
  }

  /**
   * The `booking` memo: nothing (null) without data; from a list, the
   * element with the requested id or else the first; otherwise `booking`,
   * then `data.booking`, then the data itself.
   */
  function BookingOf(data: Value, bookingId: Value): (r: Value)
    ensures !Truthy(data) ==> r == Null
    ensures Truthy(data) && !IsArray(Get(data, "bookings")) ==> Truthy(r)
    ensures Truthy(data) && Get(data, "bookings") == Arr([]) ==> r == Undefined
  {
    if !Truthy(data) then Null
    else if IsArray(Get(data, "bookings")) then
      var bs := Get(data, "bookings").items;
      var k := FindById(bs, bookingId);
      Or(if k.Some? then bs[k.value] else Undefined, At(bs, 0))
    else Or(Get(data, "booking"), Or(Get(Get(data, "data"), "booking"), data))
  }

  /** A booking object with none of the wrapper keys. */
  predicate Bare(b: Value) {
    b.Obj? && "bookings" !in b.fields && "booking" !in b.fields && "data" !in b.fields
  }

  /** The same booking, sent bare, as `{ booking }` or as `{ data: { booking } }`, is found the same. */
  lemma BookingShapes(b: Value, bookingId: Value)
    requires Bare(b)
    ensures BookingOf(b, bookingId) == b
    ensures BookingOf(Obj(map["booking" := b]), bookingId) == b
    ensures BookingOf(Obj(map["data" := Obj(map["booking" := b])]), bookingId) == b
  {
  }

  /**
   * In a list, the booking whose id is the requested one is found wherever
   * it stands, when its id is unique in the list.
   */
  lemma BookingInList(bs: seq<Value>, k: nat, id: string)
    requires k < |bs| && bs[k].Obj? && Get(bs[k], "_id") == Str(id)
    requires forall j :: 0 <= j < |bs| && j != k ==> ToStr(Get(bs[j], "_id")) != id
    ensures BookingOf(Obj(map["bookings" := Arr(bs)]), Str(id)) == bs[k]
  {
    var data := Obj(map["bookings" := Arr(bs)]);
    assert Get(data, "bookings") == Arr(bs);
    var f := FindById(bs, Str(id));
    assert f == Some(k);
  }

  /** A list without the requested id falls back to its first element. */
  lemma BookingListFallback(bs: seq<Value>, id: string)
    requires bs != [] && forall j :: 0 <= j < |bs| ==> ToStr(Get(bs[j], "_id")) != id
    ensures BookingOf(Obj(map["bookings" := Arr(bs)]), Str(id)) == bs[0]
  {
    assert Get(Obj(map["bookings" := Arr(bs)]), "bookings") == Arr(bs);
  }

  /** `String(booking?.paymentStatus || '').toLowerCase() === 'paid'`. */
  predicate IsPaid(booking: Value) {
    Lower(ToStr(Or(Get(booking, "paymentStatus"), Str("")))) == "paid"
  }

  /** The `|| ''` changes nothing: the page shows a booking as paid exactly when its status reads "paid" in any case. */
  lemma IsPaidIff(booking: Value)
    ensures IsPaid(booking) <==> Lower(ToStr(Get(booking, "paymentStatus"))) == "paid"
  {
    var ps := Get(booking, "paymentStatus");
    if !Truthy(ps) {
      assert Lower(ToStr(Str(""))) != "paid";
      match ps
      case Undefined =>
      case Null => assert Lower("null")[0] == 'n';
      case Bool(b) => assert !b && |Lower("false")| == 5;
      case Num(n) => assert n == 0 && ToStr(ps) == "0";
      case Str(s) => assert s == "";
    }
  }

  lemma IsPaidExamples()
    ensures IsPaid(Obj(map["paymentStatus" := Str("PAID")]))
    ensures !IsPaid(Obj(map["paymentStatus" := Str("unpaid")]))
    ensures !IsPaid(Null)
  {
    assert Lower("unpaid") != "paid" by { assert |Lower("unpaid")| == 6; }
  }

  // ------------------------------------------------------------------- pay

  /** The statuses the page reads as "wrong endpoint or payload": it then tries the next. */
  predicate Retryable(e: Failure) {
    e.Failure? && e.status.Some? && e.status.value in {400, 401, 403, 404, 405}
  }

  /** An attempt after which the loop goes on. */
  predicate Continues<T>(o: Outcome<T>) {
    o.Threw? && Retryable(o.error)
  }

  /**
   * Where the payment loop stops: the first attempt that resolves or fails
   * with any other status (or none), else the last one.
   */
  function Stop<T>(tries: seq<Outcome<T>>): (k: nat)
    requires |tries| > 0
    ensures k < |tries|
    ensures forall j :: 0 <= j < k ==> Continues(tries[j])
    ensures k == |tries| - 1 || !Continues(tries[k])
  {
    if |tries| == 1 || !Continues(tries[0]) then 0
    else
      var k := Stop(tries[1..]);
      assert forall j :: 1 <= j <= k ==> tries[j] == tries[1..][j - 1];
      k + 1
  }

  /**
   * The `mutationFn` of `pay`: the outcome of the attempt where it stops, a
   * success returned, an unexpected error rethrown at once, and when every
   * attempt asks to go on, the last error; `ran` says how many requests were
   * sent.
   */
  method Pay<T>(tries: seq<Outcome<T>>) returns (r: Outcome<T>, ran: nat)
    requires |tries| > 0
    ensures r == tries[Stop(tries)] && ran == Stop(tries) + 1
  {
    var lastErr: Option<Failure> := None;
    var i := 0;
    while i < |tries|
      invariant 0 <= i <= |tries|
      invariant forall j :: 0 <= j < i ==> Continues(tries[j])
      invariant i > 0 ==> lastErr == Some(tries[i - 1].error)
    {
      var t := tries[i];
      if t.Returned? {
        return t, i + 1;
      }
      lastErr := Some(t.error);
      if !Retryable(t.error) {
        return Threw(t.error), i + 1;
      }
      i := i + 1;
    }
    r := Threw(lastErr.value);
    ran := i;
  }

  /** When every error asks to go on, paying settles exactly as `firstOk` does. */
  lemma PayAsFirstOk<T>(tries: seq<Outcome<T>>)
    requires |tries| > 0
    requires forall j :: 0 <= j < |tries| && tries[j].Threw? ==> Retryable(tries[j].error)
    ensures tries[Stop(tries)] == FirstOkOf(tries)
  {
  }

  /** A rejection without a response (a network error) is thrown at once, whatever the later attempts would do. */
  lemma PayNetworkError<T>(e: Failure, rest: seq<Outcome<T>>)
    requires e.Failure? && e.status.None?
    ensures Stop([Threw(e)] + rest) == 0
  {
  }
}
