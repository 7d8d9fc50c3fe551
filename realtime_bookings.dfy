/**
 * The client side of live booking updates
 * (frontend/src/hooks/useRealTimeBookings.js): the subscribe message sent
 * when the socket opens, the shapes a server message may take and how they
 * are brought to one event, and the guards a message passes before the
 * cached queries are invalidated and the caller is told. The socket, the
 * query cache and the caller's callback are outside the model: what the
 * handler does to them is recorded as a log of effects.
 */
module RealtimeBookings {
  import opened Wrappers
  import opened Js

  // -------------------------------------------------------------- subscribe

  /** `{ type: "bookings:subscribe", bookingIds }`, or the same without ids. */
  datatype Subscribe = SubscribeIds(ids: seq<string>) | SubscribeAll

  /** `doSubscribe`: the message sent, if any. */
  function SubscribeMessage(bookingIds: seq<string>, subscribeAll: Value): (r: Option<Subscribe>)
    ensures r.Some? && r.value.SubscribeIds? <==> |bookingIds| > 0
    ensures r.Some? && r.value.SubscribeIds? ==> r.value.ids == bookingIds
    ensures r == Some(SubscribeAll) <==> |bookingIds| == 0 && subscribeAll != Bool(false)
    ensures r.None? <==> |bookingIds| == 0 && subscribeAll == Bool(false)
  {
    if |bookingIds| > 0 then Some(SubscribeIds(bookingIds))
    else if subscribeAll != Bool(false) then Some(SubscribeAll)
    else None
  }

  /** With no ids, everything is subscribed to unless `subscribeAll` is `false` itself. */
  lemma SubscribeAllByDefault(subscribeAll: Value)
    requires subscribeAll != Bool(false)
    ensures SubscribeMessage([], Undefined) == Some(SubscribeAll)
    ensures SubscribeMessage([], subscribeAll) == Some(SubscribeAll)
    ensures SubscribeMessage([], Bool(false)).None?
  {
  }

  // -------------------------------------------------------------- normalize

  /** `{ type, bookingId, status, raw, booking }`. */
  datatype Event = Event(kind: Value, bookingId: Value, status: Value, raw: Value, booking: Value)

  /** `normalize(evt)`: none for a falsy message. */
  function Normalize(evt: Value): (r: Option<Event>)
    ensures r.None? <==> !Truthy(evt)
    ensures r.Some? ==> r.value.raw == evt && Truthy(r.value.kind)
    ensures r.Some? ==> r.value.booking == Null || Truthy(r.value.booking)
    ensures r.Some? ==> r.value.bookingId == Null || Truthy(r.value.bookingId)
    ensures r.Some? ==> r.value.status == Null || Truthy(r.value.status)
  {
    if !Truthy(evt) then None
    else
      var kind := Or(Get(evt, "type"), Or(Get(evt, "event"), Str("booking:updated")));
      var booking := Or(Get(evt, "booking"), Or(Get(evt, "data"), Or(Get(evt, "payload"), Null)));
      var bookingId := Or(Get(evt, "bookingId"), Or(Get(booking, "_id"), Or(Get(booking, "id"), Null)));
      var status := Or(Get(evt, "status"), Or(Get(booking, "status"), Null));
      Some(Event(kind, bookingId, status, evt, booking))
  }

  /** A message that names no type is an update. */
  lemma TypeDefault(evt: Value)
    requires Truthy(evt) && !Truthy(Get(evt, "type")) && !Truthy(Get(evt, "event"))
    ensures Normalize(evt).value.kind == Str("booking:updated")
  {
  }

  /** The booking a message carries: the first truthy of `booking`, `data` and `payload`. */
  function CarriedBooking(evt: Value): Value {
    if Truthy(Get(evt, "booking")) then Get(evt, "booking")
    else if Truthy(Get(evt, "data")) then Get(evt, "data")
    else if Truthy(Get(evt, "payload")) then Get(evt, "payload")
    else Null
  }

  /**
   * The id of the event is the message's own `bookingId` when it has one,
   * else the carried booking's `_id`, else its `id`; and it is missing
   * exactly when none of them is there.
   */
  lemma BookingIdSources(evt: Value)
    requires Truthy(evt)
    ensures var n := Normalize(evt).value; var b := CarriedBooking(evt);
      && n.booking == b
      && (Truthy(n.bookingId) <==> Truthy(Get(evt, "bookingId")) || Truthy(Get(b, "_id")) || Truthy(Get(b, "id")))
      && (Truthy(Get(evt, "bookingId")) ==> n.bookingId == Get(evt, "bookingId"))
      && (!Truthy(Get(evt, "bookingId")) && Truthy(Get(b, "_id")) ==> n.bookingId == Get(b, "_id"))
      && (!Truthy(Get(evt, "bookingId")) && !Truthy(Get(b, "_id")) && Truthy(Get(b, "id")) ==> n.bookingId == Get(b, "id"))
  {
  }

  /** The status is the message's own, else the booking's, else null. */
  lemma StatusSources(evt: Value)
    requires Truthy(evt)
    ensures var n := Normalize(evt).value; var b := CarriedBooking(evt);
      && (Truthy(Get(evt, "status")) ==> n.status == Get(evt, "status"))
      && (!Truthy(Get(evt, "status")) ==> n.status == (if Truthy(Get(b, "status")) then Get(b, "status") else Null))
  {
  }

  /**
   * A booking sent under `booking`, `data` or `payload` gives the same
   * event apart from `raw`.
   */
  lemma CarrierShapes(booking: Value)
    requires Truthy(booking)
    ensures var a := Normalize(Obj(map["booking" := booking])).value;
      var d := Normalize(Obj(map["data" := booking])).value;
      var p := Normalize(Obj(map["payload" := booking])).value;
      a.bookingId == d.bookingId == p.bookingId && a.status == d.status == p.status && a.booking == d.booking == p.booking
  {
    var ma := Obj(map["booking" := booking]);
    var md := Obj(map["data" := booking]);
    var mp := Obj(map["payload" := booking]);
    assert CarriedBooking(ma) == booking by {
      assert Get(ma, "booking") == booking;
    }
    assert CarriedBooking(md) == booking by {
      assert "booking" !in md.fields && Get(md, "data") == booking;
    }
    assert CarriedBooking(mp) == booking by {
      assert "booking" !in mp.fields && "data" !in mp.fields && Get(mp, "payload") == booking;
    }
    assert "bookingId" !in ma.fields && "bookingId" !in md.fields && "bookingId" !in mp.fields;
    assert "status" !in ma.fields && "status" !in md.fields && "status" !in mp.fields;
    BookingIdSources(ma);
    BookingIdSources(md);
    BookingIdSources(mp);
    StatusSources(ma);
    StatusSources(md);
    StatusSources(mp);
  }

  // ---------------------------------------------------------------- handler

  /** The message names a booking topic: one of three types, or topic or channel 'booking'. */
  predicate Known(data: Value) {
    Get(data, "type") == Str("booking:updated") || Get(data, "type") == Str("booking:update")
    || Get(data, "type") == Str("booking:status")
    || Get(data, "topic") == Str("booking") || Get(data, "channel") == Str("booking")
  }

  /** The first guard: a known topic, or a `booking` or `bookingId` carried. */
  predicate Candidate(data: Value) {
    Known(data) || Truthy(Get(data, "booking")) || Truthy(Get(data, "bookingId"))
  }

  /** The id list lets the id through: no list, or the id's text is in it. */
  predicate Watched(bookingIds: seq<string>, id: Value) {
    |bookingIds| == 0 || ToStr(id) in bookingIds
  }

  /** The event the handler passes on, if the message passes every guard. */
  function Accepted(data: Value, bookingIds: seq<string>): (r: Option<Event>)
    ensures r.Some? ==> Candidate(data) && Normalize(data) == r
    ensures r.Some? ==> Truthy(r.value.bookingId) && Watched(bookingIds, r.value.bookingId)
    ensures (Candidate(data) && Normalize(data).Some? && Truthy(Normalize(data).value.bookingId)
      && Watched(bookingIds, Normalize(data).value.bookingId)) ==> r == Normalize(data)
  {
    if !Candidate(data) then None
    else
      var n := Normalize(data);
      if n.None? || !Truthy(n.value.bookingId) then None
      else if !Watched(bookingIds, n.value.bookingId) then None
      else n
  }

  /** What the handler does outside itself. */
  datatype Effect = Invalidate(queryKey: Value) | Deliver(event: Event)

  /**
   * The effects of one message, `parsed` being what `JSON.parse` gives (none
   * when it throws, which the handler swallows): every query key
   * invalidated, in order, then the event handed to `onEvent` when there is
   * one; nothing for a message that fails a guard.
   */
  function Effects(parsed: Option<Value>, bookingIds: seq<string>, keys: seq<Value>, hasOnEvent: bool): seq<Effect> {
    if parsed.None? then []
    else
      var n := Accepted(parsed.value, bookingIds);
      if n.None? then []
      else seq(|keys|, i requires 0 <= i < |keys| => Invalidate(keys[i])) + (if hasOnEvent then [Deliver(n.value)] else [])
  }

  /** `handler(ev)`: the guards, then the invalidations one by one, then the callback. */
  method Handle(parsed: Option<Value>, bookingIds: seq<string>, keys: seq<Value>, hasOnEvent: bool) returns (log: seq<Effect>)
    ensures log == Effects(parsed, bookingIds, keys, hasOnEvent)
  {
    log := [];
    if parsed.None? {
      return;
    }
    var data := parsed.value;
    if !Candidate(data) {
      return;
    }
    var n := Normalize(data);
    if n.None? || !Truthy(n.value.bookingId) {
      return;
    }
    if |bookingIds| > 0 && ToStr(n.value.bookingId) !in bookingIds {
      return;
    }
    var i := 0;
    while i < |keys|
      invariant 0 <= i <= |keys|
      invariant log == seq(i, j requires 0 <= j < i => Invalidate(keys[j]))
    {
      log := log + [Invalidate(keys[i])];
      i := i + 1;
    }
    if hasOnEvent {
      log := log + [Deliver(n.value)];
    }
  }

  /**
   * Every listed key is invalidated, in order, before the callback runs; the
   * callback runs at most once, last, with an event that has an id the list
   * lets through.
   */
  lemma InvalidateThenDeliver(parsed: Option<Value>, bookingIds: seq<string>, keys: seq<Value>, hasOnEvent: bool)
    ensures var log := Effects(parsed, bookingIds, keys, hasOnEvent);
      && (log == [] || forall i :: 0 <= i < |keys| ==> log[i] == Invalidate(keys[i]))
      && (forall i :: 0 <= i < |log| && log[i].Deliver? ==> i == |log| - 1 && i == |keys|)
      && (forall i :: 0 <= i < |log| && log[i].Deliver? ==> Truthy(log[i].event.bookingId) && Watched(bookingIds, log[i].event.bookingId))
  {
  }

  /** A message without a booking id reaches neither the cache nor the callback. */
  lemma NoIdNoEffect(data: Value, bookingIds: seq<string>, keys: seq<Value>, hasOnEvent: bool)
    requires Normalize(data).None? || !Truthy(Normalize(data).value.bookingId)
    ensures Effects(Some(data), bookingIds, keys, hasOnEvent) == []
  {
  }

  /** With an id list, an event for another booking does nothing. */
  lemma OtherBookingIgnored(data: Value, bookingIds: seq<string>, keys: seq<Value>, hasOnEvent: bool)
    requires |bookingIds| > 0 && Normalize(data).Some? && ToStr(Normalize(data).value.bookingId) !in bookingIds
    ensures Effects(Some(data), bookingIds, keys, hasOnEvent) == []
  {
  }

  /** A message with a known type and its own id passes, whatever else it holds. */
  lemma KnownWithIdDelivered(data: Value, keys: seq<Value>)
    requires data.Obj? && Known(data) && Truthy(Get(data, "bookingId"))
    ensures var log := Effects(Some(data), [], keys, true);
      |log| == |keys| + 1 && log[|keys|] == Deliver(Normalize(data).value)
      && Normalize(data).value.bookingId == Get(data, "bookingId")
  {
    BookingIdSources(data);
  }
}
