/**
 * The admin's bookings table (frontend/src/pages/admin/BookingsAdmin.jsx):
 * the query string of a page request, the rows, total and page taken from
 * the answer, the merge of a live update into the rows, the provider shown
 * as assigned before the list is fetched again, and the pager's buttons.
 * The component's state is an object whose fields the handlers reassign;
 * requests are given by their answers.
 */
module BookingsAdmin {
  import opened Wrappers
  import opened Js
  import opened Strings
  import RealtimeBookings

  /** `const [limit] = useState(10)`. */
  const Limit: nat := 10

  // ------------------------------------------------------------ the request

  /** The entries of a `URLSearchParams`, in order. */
  type Params = seq<(string, string)>

  /** `params.get(key)`. */
  function Lookup(params: Params, key: string): (r: Option<string>)
    ensures r.Some? <==> exists i :: 0 <= i < |params| && params[i].0 == key
  {
    if params == [] then None
    else if params[0].0 == key then Some(params[0].1)
    else
      var r := Lookup(params[1..], key);
      assert forall i :: 0 <= i < |params| - 1 ==> params[1..][i] == params[i + 1];
      r
  }

  /** Looking a key up in two lists of entries one after the other: the first list wins. */
  lemma {:induction false} LookupConcat(a: Params, b: Params, key: string)
    ensures Lookup(a + b, key) == if Lookup(a, key).Some? then Lookup(a, key) else Lookup(b, key)
  {
    if a == [] {
      assert a + b == b;
    } else {
      assert (a + b)[1..] == a[1..] + b;
      LookupConcat(a[1..], b, key);
    }
  }

  /** `if (value) p.set(key, value)` on a key not yet set: one entry, or none for an empty value. */
  function Optional(key: string, value: string): (r: Params)
    ensures Lookup(r, key) == (if value != "" then Some(value) else None)
    ensures forall k :: k != key ==> Lookup(r, k).None?
  {
    if value != "" then [(key, value)] else []
  }

  /** The filters of the query, in the order they are set. */
  function Filters(status: string, from: string, to: string, q: string): Params {
    Optional("status", status) + Optional("from", from) + Optional("to", to) + Optional("q", q)
  }

  /** The query of `load(p)`. */
  function Query(p: int, status: string, from: string, to: string, q: string): Params {
    [("page", IntToStr(p)), ("limit", IntToStr(Limit))] + Filters(status, from, to, q)
  }

  /**
   * `page` and `limit` come first and always; `status`, `from`, `to` and
   * `q` each only when it is not empty; no other key is there.
   */
  lemma QueryLookups(p: int, status: string, from: string, to: string, q: string)
    ensures var r := Query(p, status, from, to, q);
      && |r| >= 2 && r[0] == ("page", IntToStr(p)) && r[1] == ("limit", IntToStr(Limit))
      && Lookup(r, "page") == Some(IntToStr(p)) && Lookup(r, "limit") == Some(IntToStr(Limit))
      && Lookup(r, "status") == (if status != "" then Some(status) else None)
      && Lookup(r, "from") == (if from != "" then Some(from) else None)
      && Lookup(r, "to") == (if to != "" then Some(to) else None)
      && Lookup(r, "q") == (if q != "" then Some(q) else None)
  {
    var f := Filters(status, from, to, q);
    FiltersLookup(status, from, to, q, "status");
    FiltersLookup(status, from, to, q, "from");
    FiltersLookup(status, from, to, q, "to");
    FiltersLookup(status, from, to, q, "q");
    LookupConcat([("page", IntToStr(p)), ("limit", IntToStr(Limit))], f, "status");
    LookupConcat([("page", IntToStr(p)), ("limit", IntToStr(Limit))], f, "from");
    LookupConcat([("page", IntToStr(p)), ("limit", IntToStr(Limit))], f, "to");
    LookupConcat([("page", IntToStr(p)), ("limit", IntToStr(Limit))], f, "q");
  }

  /** A key of the query that is neither of the six is not there. */
  lemma QueryNothingElse(p: int, status: string, from: string, to: string, q: string, k: string)
    requires k != "page" && k != "limit" && k != "status" && k != "from" && k != "to" && k != "q"
    ensures Lookup(Query(p, status, from, to, q), k).None?
  {
    FiltersLookup(status, from, to, q, k);
    LookupConcat([("page", IntToStr(p)), ("limit", IntToStr(Limit))], Filters(status, from, to, q), k);
  }

  lemma FiltersLookup(status: string, from: string, to: string, q: string, k: string)
    ensures Lookup(Filters(status, from, to, q), k) ==
      if k == "status" && status != "" then Some(status)
      else if k == "from" && from != "" then Some(from)
      else if k == "to" && to != "" then Some(to)
      else if k == "q" && q != "" then Some(q)
      else None
  {
    var s, f, t, w := Optional("status", status), Optional("from", from), Optional("to", to), Optional("q", q);
    LookupConcat(s + f + t, w, k);
    LookupConcat(s + f, t, k);
    LookupConcat(s, f, k);
  }

  /**
   * The query of `load(p)`, set entry by entry: `page` and `limit`, then
   * each filter that is not empty.
   */
  method Search(p: int, status: string, from: string, to: string, q: string) returns (params: Params)
    ensures params == Query(p, status, from, to, q)
  {
    var fixed := [("page", IntToStr(p)), ("limit", IntToStr(Limit))];
    params := fixed;
    ghost var filters: Params := [];
    if status != "" {
      params := params + [("status", status)];
    }
    filters := Optional("status", status);
    assert params == fixed + filters;
    if from != "" {
      params := params + [("from", from)];
    }
    filters := filters + Optional("from", from);
    assert params == fixed + filters;
    if to != "" {
      params := params + [("to", to)];
    }
    filters := filters + Optional("to", to);
    assert params == fixed + filters;
    if q != "" {
      params := params + [("q", q)];
    }
    filters := filters + Optional("q", q);
    assert params == fixed + filters;
  }

  // ------------------------------------------------------------- the answer

  /** `Array.isArray(res.data) ? res.data : res.data?.items || []`. */
  function ItemsOf(data: Value): (r: Value)
    ensures data.Arr? ==> r == data
    ensures !data.Arr? && Truthy(Get(data, "items")) ==> r == Get(data, "items")
    ensures !data.Arr? && !Truthy(Get(data, "items")) ==> r == Arr([])
  {
    if IsArray(data) then data else Or(Get(data, "items"), Arr([]))
  }

  /** `Number(res.data?.total || items.length || 0)`. */
  function TotalOf(data: Value, items: seq<Value>): Number {
    ToNumber(Or(Get(data, "total"), Or(Num(|items|), Num(0))))
  }

  /** `Number(res.data?.page || p)`. */
  function PageOf(data: Value, p: int): Number {
    ToNumber(Or(Get(data, "page"), Num(p)))
  }

  /** Without a total the count of the items on the page stands for it; without a page number, the one asked for. */
  lemma AnswerDefaults(items: seq<Value>, p: int)
    ensures TotalOf(Arr(items), items) == Finite(|items|)
    ensures TotalOf(Obj(map["items" := Arr(items)]), items) == Finite(|items|)
    ensures PageOf(Arr(items), p) == Finite(p)
    ensures PageOf(Obj(map["items" := Arr(items)]), p) == Finite(p)
  {
  }

  /** A numeric total and page are taken as they are. */
  lemma AnswerNumbers(items: seq<Value>, total: int, page: int, p: int)
    requires total != 0 && page != 0
    ensures var d := Obj(map["items" := Arr(items), "total" := Num(total), "page" := Num(page)]);
      ItemsOf(d) == Arr(items) && TotalOf(d, items) == Finite(total) && PageOf(d, p) == Finite(page)
  {
  }

  // ----------------------------------------------------------- row updates

  /** `{ ...x }` for a value: the fields of an object, none for anything else. */
  function Spread(x: Value): map<string, Value> {
    if x.Obj? then x.fields else map[]
  }

  /** `{ ...r, ...(booking || {}), status: newStatus ?? r.status }`. */
  function MergeRow(r: Value, newStatus: Value, booking: Value): (u: Value)
    ensures u.Obj?
    ensures Get(u, "status") == (if Nullish(newStatus) then Get(r, "status") else newStatus)
    ensures forall k :: k != "status" && k in Spread(Or(booking, Obj(map[]))) ==> Get(u, k) == Spread(Or(booking, Obj(map[])))[k]
    ensures forall k :: k != "status" && k !in Spread(Or(booking, Obj(map[]))) ==> Get(u, k) == Get(r, k)
  {
    Obj((Spread(r) + Spread(Or(booking, Obj(map[]))))["status" := Coalesce(newStatus, Get(r, "status"))])
  }

  /** The rows after a live update: the row whose id reads as the event's is merged with it. */
  function Merged(rows: seq<Value>, bookingId: Value, newStatus: Value, booking: Value): (u: seq<Value>)
    ensures |u| == |rows|
    ensures forall i :: 0 <= i < |rows| && ToStr(Get(rows[i], "_id")) != ToStr(bookingId) ==> u[i] == rows[i]
    ensures forall i :: 0 <= i < |rows| && ToStr(Get(rows[i], "_id")) == ToStr(bookingId) ==> u[i] == MergeRow(rows[i], newStatus, booking)
  {
    seq(|rows|, i requires 0 <= i < |rows| =>
      if ToStr(Get(rows[i], "_id")) == ToStr(bookingId) then MergeRow(rows[i], newStatus, booking) else rows[i])
  }

  /**
   * An event from the hook that carries no status keeps the row's status,
   * and one that does sets it.
   */
  lemma EventStatus(r: Value, e: RealtimeBookings.Event)
    requires e.status == Null || Truthy(e.status)
    ensures !Truthy(e.status) ==> Get(MergeRow(r, e.status, e.booking), "status") == Get(r, "status")
    ensures Truthy(e.status) ==> Get(MergeRow(r, e.status, e.booking), "status") == e.status
  {
  }

  /** `{ ...r, provider: { ...(r.provider || {}), _id: provider } }`. */
  function AssignRow(r: Value, provider: Value): (u: Value)
    ensures u.Obj? && Get(Get(u, "provider"), "_id") == provider
    ensures forall k :: k != "_id" ==> Get(Get(u, "provider"), k) == Get(Or(Get(r, "provider"), Obj(map[])), k)
    ensures forall k :: k != "provider" ==> Get(u, k) == Get(r, k)
  {
    Obj(Spread(r)["provider" := Obj(Spread(Or(Get(r, "provider"), Obj(map[])))["_id" := provider])])
  }

  /** The rows after the assignment: the row with the id gets the provider. */
  function Assigned(rows: seq<Value>, id: Value, provider: Value): (u: seq<Value>)
    ensures |u| == |rows|
    ensures forall i :: 0 <= i < |rows| && Get(rows[i], "_id") != id ==> u[i] == rows[i]
    ensures forall i :: 0 <= i < |rows| && Get(rows[i], "_id") == id ==> u[i] == AssignRow(rows[i], provider)
  {
    seq(|rows|, i requires 0 <= i < |rows| => if Get(rows[i], "_id") == id then AssignRow(rows[i], provider) else rows[i])
  }

  /** Assigning the same provider again changes nothing more. */
  lemma AssignIdempotent(r: Value, provider: Value)
    ensures AssignRow(AssignRow(r, provider), provider) == AssignRow(r, provider)
  {
    var u := AssignRow(r, provider);
    var pu := Get(u, "provider");
    assert pu.Obj? && Or(pu, Obj(map[])) == pu;
    assert pu.fields["_id" := provider] == pu.fields;
    assert u.fields["provider" := pu] == u.fields;
  }

  // ----------------------------------------------------------------- pager

  /** `n <= k` for a JavaScript number: false for NaN. */
  predicate AtMost(n: Number, k: int) {
    (n.Finite? && n.i <= k) || (n.Infinite? && !n.positive)
  }

  /** `disabled={page <= 1 || loading}`. */
  predicate PrevDisabled(page: Number, loading: bool) {
    AtMost(page, 1) || loading
  }

  /** `disabled={rows.length < limit || loading}`. */
  predicate NextDisabled(rows: seq<Value>, loading: bool) {
    |rows| < Limit || loading
  }

  /** The page's state. */
  class Page {
    var rows: seq<Value>
    var total: Number
    var page: Number
    var loading: bool
    var assigningId: Value

    constructor()
      ensures rows == [] && total == Finite(0) && page == Finite(1) && !loading && assigningId == Null
    {
      rows := [];
      total := Finite(0);
      page := Finite(1);
      loading := false;
      assigningId := Null;
    }

    /**
     * What `load(p)` does once the request settles: with an answer, its rows,
     * total and page, in that order; without one, the state as it was. The
     * loading flag is down either way.
     */
    method Loaded(p: int, answer: Option<Value>)
      requires answer.Some? ==> ItemsOf(answer.value).Arr?
      modifies this
      ensures answer.Some? ==> (rows == ItemsOf(answer.value).items
        && total == TotalOf(answer.value, rows) && page == PageOf(answer.value, p))
      ensures answer.None? ==> rows == old(rows) && total == old(total) && page == old(page)
      ensures !loading && assigningId == old(assigningId)
    {
      if answer.Some? {
        var items := ItemsOf(answer.value).items;
        rows := items;
        total := TotalOf(answer.value, items);
        page := PageOf(answer.value, p);
      }
      loading := false;
    }

    /** The `onEvent` of the live subscription. */
    method OnEvent(e: RealtimeBookings.Event)
      modifies this
      ensures rows == Merged(old(rows), e.bookingId, e.status, e.booking)
      ensures total == old(total) && page == old(page) && loading == old(loading) && assigningId == old(assigningId)
    {
      rows := Merged(rows, e.bookingId, e.status, e.booking);
    }

    /**
     * `assignProvider(id, provider)`, `succeeded` standing for the outcome
     * of `POST /bookings/:id/assign`: nothing at all without an id or a
     * provider; else the rows show the provider when the request succeeded,
     * the mark is cleared, and `reload` says the page is fetched again.
     */
    method AssignProvider(id: Value, provider: Value, succeeded: bool) returns (reload: bool)
      modifies this
      ensures !Truthy(id) || !Truthy(provider) ==> !reload && rows == old(rows) && assigningId == old(assigningId)
      ensures Truthy(id) && Truthy(provider) ==> (reload && assigningId == Null
        && rows == (if succeeded then Assigned(old(rows), id, provider) else old(rows)))
      ensures total == old(total) && page == old(page) && loading == old(loading)
    {
      if !Truthy(id) || !Truthy(provider) {
        return false;
      }
      assigningId := id;
      if succeeded {
        rows := Assigned(rows, id, provider);
      }
      assigningId := Null;
      reload := true;
    }
  }

  /**
   * After an answer that names no page, 'Prev' is off on the first page and
   * on when a later page was asked for; 'Next' is on exactly when the page
   * came back full.
   */
  lemma PagerAfterLoad(items: seq<Value>, p: int)
    ensures var d := Obj(map["items" := Arr(items)]);
      && (PrevDisabled(PageOf(d, p), false) <==> p <= 1)
      && (NextDisabled(ItemsOf(d).items, false) <==> |items| < Limit)
  {
  }

  /** Nothing can be pressed while a request is running. */
  lemma PagerWhileLoading(page: Number, rows: seq<Value>)
    ensures PrevDisabled(page, true) && NextDisabled(rows, true)
  {
  }

  /** A page number that is not a number leaves 'Prev' on. */
  lemma PrevAfterNaN(loading: bool)
    ensures PrevDisabled(NaN, loading) <==> loading
  {
  }
}
