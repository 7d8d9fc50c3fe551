/**
 * The chat handlers (backend/controllers/messageController.js): only the
 * booking's customer and its assigned provider may talk, and only once the
 * booking is confirmed, on the way or completed.
 */
module MessageController {
  import opened Wrappers
  import opened Strings
  import opened Store
  import opened BookingModel
  import opened MessageModel
  import Sorting

  /** `canChat(booking, userId)`. */
  predicate CanChat(b: Booking, u: Id) {
    b.status in {Confirmed, OnTheWay, Completed} && (u == b.user || b.provider == Some(u))
  }

  /** Whoever may chat is a party to the booking, in a status past pending and short of cancelled. */
  lemma CanChatParties(b: Booking, u: Id)
    ensures CanChat(b, u) ==> u == b.user || (b.provider.Some? && b.provider.value == u)
    ensures b.status == Pending || b.status == Cancelled ==> !CanChat(b, u)
    ensures b.status != Pending && b.status != Cancelled && u == b.user ==> CanChat(b, u)
  {
  }

  /** The body of `POST /api/messages`; a missing or empty field is None. */
  datatype SendRequest = SendRequest(booking: Option<Id>, content: Option<string>, receiver: Option<Id>)

  /** `booking && content && receiver`. */
  predicate Present(req: SendRequest) {
    req.booking.Some? && req.content.Some? && req.content.value != "" && req.receiver.Some?
  }

  /** The other party check: the receiver is the customer or the assigned provider. */
  predicate ReceiverValid(b: Booking, receiver: Id) {
    receiver == b.user || b.provider == Some(receiver)
  }

  /**
   * The message `sendMessage` stores, or its error: 400 for a missing field,
   * 404 for an unknown booking, 403 when the caller may not chat, 400 for a
   * receiver outside the booking, and 400 when trimming leaves no content
   * (the required validator).
   */
  function SendDecision(bookings: map<Id, Booking>, caller: Caller, req: SendRequest): (r: Result<Message>)
    ensures !Present(req) ==> r == Err(BadRequest)
    ensures r.Ok? ==> req.booking.Some? && req.booking.value in bookings
    ensures r.Ok? ==> CanChat(bookings[req.booking.value], caller.id)
    ensures r.Ok? ==> ReceiverValid(bookings[req.booking.value], r.value.receiver)
    ensures r.Ok? ==> r.value == Message(req.booking.value, caller.id, req.receiver.value, Trim(req.content.value))
    ensures r.Ok? ==> ValidMessage(r.value)
    ensures r == Err(NotFound) <==> Present(req) && req.booking.value !in bookings
    ensures r == Err(Forbidden) <==>
      Present(req) && req.booking.value in bookings && !CanChat(bookings[req.booking.value], caller.id)
    ensures Present(req) && req.booking.value in bookings && CanChat(bookings[req.booking.value], caller.id) ==>
      (!ReceiverValid(bookings[req.booking.value], req.receiver.value) || Trim(req.content.value) == "" <==> r == Err(BadRequest))
    ensures Present(req) && req.booking.value in bookings && CanChat(bookings[req.booking.value], caller.id) ==>
      (r.Ok? <==> ReceiverValid(bookings[req.booking.value], req.receiver.value) && Trim(req.content.value) != "")
  {
    if !Present(req) then Err(BadRequest)
    else if req.booking.value !in bookings then Err(NotFound)
    else
      var b := bookings[req.booking.value];
      if !CanChat(b, caller.id) then Err(Forbidden)
      else if !ReceiverValid(b, req.receiver.value) then Err(BadRequest)
      else
        var content := Trim(req.content.value);
        if content == "" then Err(BadRequest)
        else Ok(Message(req.booking.value, caller.id, req.receiver.value, content))
  }

  /** A caller who may not chat never gets a message stored, whatever the request says. */
  lemma NoMessageWithoutChat(bookings: map<Id, Booking>, caller: Caller, req: SendRequest)
    requires req.booking.Some? && req.booking.value in bookings
    requires !CanChat(bookings[req.booking.value], caller.id)
    ensures SendDecision(bookings, caller, req).Err?
  {
  }

  /** `POST /api/messages`: on success one message is appended; nothing else changes. */
  method SendMessage(db: Db, caller: Caller, req: SendRequest) returns (r: Result<Id>)
    requires db.Valid()
    modifies db`messages, db`nextId
    ensures db.Valid()
    ensures var d := SendDecision(old(db.bookings), caller, req);
      (r.Err? <==> d.Err?) && (r.Err? ==> r.error == d.error)
    ensures r.Err? ==> db.messages == old(db.messages) && db.nextId == old(db.nextId)
    ensures r.Ok? ==> r.value == old(db.nextId)
    ensures r.Ok? ==> db.messages == old(db.messages)[r.value := SendDecision(old(db.bookings), caller, req).value]
  {
    var d := SendDecision(db.bookings, caller, req);
    if d.Err? {
      return Err(d.error);
    }
    var id := db.NewId();
    db.messages := db.messages[id := d.value];
    return Ok(id);
  }

  /**
   * `GET /api/messages/:bookingId`: 404 for an unknown booking, 403 unless
   * the caller may chat, otherwise that booking's messages oldest first.
   */
  function ListByBooking(bookings: map<Id, Booking>, messages: map<Id, Message>, n: nat,
                         caller: Caller, bookingId: Id): (r: Result<seq<Id>>)
    ensures bookingId !in bookings <==> r == Err(NotFound)
    ensures bookingId in bookings && !CanChat(bookings[bookingId], caller.id) <==> r == Err(Forbidden)
    ensures bookingId in bookings && CanChat(bookings[bookingId], caller.id) <==> r.Ok?
    ensures r.Ok? ==> forall id :: id in r.value <==> id < n && id in messages && messages[id].booking == bookingId
    ensures r.Ok? ==> forall i, j :: 0 <= i < j < |r.value| ==> r.value[i] < r.value[j]
  {
    if bookingId !in bookings then Err(NotFound)
    else if !CanChat(bookings[bookingId], caller.id) then Err(Forbidden)
    else Ok(Sorting.Oldest(messages, n, (m: Message) => m.booking == bookingId))
  }
}
