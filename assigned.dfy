/**
 * The provider's list of assigned bookings
 * (frontend/src/pages/provider/Assigned.jsx): the rows taken from the
 * server's answer, the ids the page watches for live updates, and the status
 * change that shows the new status at once and puts the old rows back when
 * the server refuses it. The component's state is an object whose fields the
 * handlers reassign; the request itself is given by whether it succeeded.
 */
module Assigned {
  import opened Wrappers
  import opened Js
  import RealtimeBookings

  /** `STATUSES`: the values the status select offers. */
  const Statuses: seq<string> := ["pending", "confirmed", "on_the_way", "completed", "cancelled"]

  /** `Array.isArray(res.data) ? res.data : res.data?.items || res.data?.bookings || []`. */
  function ItemsOf(data: Value): (r: Value)
    ensures data.Arr? ==> r == data
    ensures !data.Arr? && Truthy(Get(data, "items")) ==> r == Get(data, "items")
    ensures !data.Arr? && !Truthy(Get(data, "items")) && Truthy(Get(data, "bookings")) ==> r == Get(data, "bookings")
    ensures !data.Arr? && !Truthy(Get(data, "items")) && !Truthy(Get(data, "bookings")) ==> r == Arr([])
  {
    if IsArray(data) then data else Or(Get(data, "items"), Or(Get(data, "bookings"), Arr([])))
  }

  /** The same list comes out bare, under `items` or under `bookings`. */
  lemma ItemsShapes(items: seq<Value>)
    ensures ItemsOf(Arr(items)) == Arr(items)
    ensures ItemsOf(Obj(map["items" := Arr(items)])) == Arr(items)
    ensures ItemsOf(Obj(map["bookings" := Arr(items)])) == Arr(items)
  {
    var b := Obj(map["bookings" := Arr(items)]);
    assert "items" !in b.fields;
  }

  /** `{ ...r, status }`: the row's own fields, with the status replaced. */
  function WithStatus(r: Value, status: string): (u: Value)
    ensures u.Obj? && Get(u, "status") == Str(status)
    ensures forall k :: k != "status" ==> Get(u, k) == Get(r, k)
  {
    Obj((if r.Obj? then r.fields else map[])["status" := Str(status)])
  }

  /** `rs.map(r => r._id === id ? { ...r, status } : r)`. */
  function Updated(rows: seq<Value>, id: Value, status: string): (r: seq<Value>)
    ensures |r| == |rows|
    ensures forall i :: 0 <= i < |rows| && Get(rows[i], "_id") != id ==> r[i] == rows[i]
    ensures forall i :: 0 <= i < |rows| && Get(rows[i], "_id") == id ==>
      Get(r[i], "status") == Str(status) && forall k :: k != "status" ==> Get(r[i], k) == Get(rows[i], k)
  {
    seq(|rows|, i requires 0 <= i < |rows| => if Get(rows[i], "_id") == id then WithStatus(rows[i], status) else rows[i])
  }

  /** Setting a status twice is setting it once. */
  lemma UpdatedIdempotent(rows: seq<Value>, id: Value, status: string)
    ensures Updated(Updated(rows, id, status), id, status) == Updated(rows, id, status)
  {
    var u := Updated(rows, id, status);
    forall i | 0 <= i < |rows| ensures Updated(u, id, status)[i] == u[i] {
      if Get(rows[i], "_id") == id {
        assert Get(u[i], "_id") == id;
        assert u[i].Obj? && u[i].fields["status" := Str(status)] == u[i].fields;
      }
    }
  }

  /** A row whose id matches none is left as it is. */
  lemma UpdatedElsewhere(rows: seq<Value>, id: Value, status: string)
    requires forall i :: 0 <= i < |rows| ==> Get(rows[i], "_id") != id
    ensures Updated(rows, id, status) == rows
  {
  }

  /** `rows.map(r => String(r._id))`: the ids the page subscribes to. */
  function WatchedIds(rows: seq<Value>): (ids: seq<string>)
    ensures |ids| == |rows| && forall i :: 0 <= i < |rows| ==> ids[i] == ToStr(Get(rows[i], "_id"))
  {
    seq(|rows|, i requires 0 <= i < |rows| => ToStr(Get(rows[i], "_id")))
  }

  /** A live update about any row on the page passes the hook's id filter. */
  lemma RowUpdatesPass(rows: seq<Value>, i: nat)
    requires i < |rows|
    ensures RealtimeBookings.Watched(WatchedIds(rows), Get(rows[i], "_id"))
  {
    assert WatchedIds(rows)[i] == ToStr(Get(rows[i], "_id"));
  }

  /** The page's state. */
  class Page {
    var rows: seq<Value>
    var updatingId: Option<Value>

    constructor()
      ensures rows == [] && updatingId == None
    {
      rows := [];
      updatingId := None;
    }

    /** `setRows(items)` after a successful `load`. */
    method Loaded(data: Value)
      requires ItemsOf(data).Arr?
      modifies this
      ensures rows == ItemsOf(data).items && updatingId == old(updatingId)
    {
      rows := ItemsOf(data).items;
    }

    /**
     * The part of `setStatus` before the request: nothing for a status that
     * is not offered; else the snapshot of the rows, the row marked as
     * updating, and its status shown already.
     */
    method Begin(id: Value, status: string) returns (prev: Option<seq<Value>>)
      modifies this
      ensures status !in Statuses ==> prev.None? && rows == old(rows) && updatingId == old(updatingId)
      ensures status in Statuses ==> prev == Some(old(rows)) && updatingId == Some(id) && rows == Updated(old(rows), id, status)
    {
      if status !in Statuses {
        return None;
      }
      prev := Some(rows);
      updatingId := Some(id);
      rows := Updated(rows, id, status);
    }

    /** The part after it: the snapshot back when the request failed; the mark cleared either way. */
    method Settle(prev: seq<Value>, succeeded: bool)
      modifies this
      ensures rows == (if succeeded then old(rows) else prev)
      ensures updatingId == None
    {
      if !succeeded {
        rows := prev;
      }
      updatingId := None;
    }

    /** `setStatus(id, status)`, `succeeded` standing for the outcome of `PUT /bookings/:id/status`. */
    method SetStatus(id: Value, status: string, succeeded: bool)
      modifies this
      ensures status !in Statuses ==> rows == old(rows) && updatingId == old(updatingId)
      ensures status in Statuses && succeeded ==> rows == Updated(old(rows), id, status) && updatingId == None
      ensures status in Statuses && !succeeded ==> rows == old(rows) && updatingId == None
    {
      var prev := Begin(id, status);
      if prev.Some? {
        Settle(prev.value, succeeded);
      }
    }
  }
}
