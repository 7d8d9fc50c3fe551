/**
 * The review handlers (backend/controllers/reviewController.js): a customer
 * may review a service once they have a completed booking for it; a review
 * is upserted per (user, service), goes back to moderation after every user
 * edit, and only approved reviews are public.
 */
module ReviewController {
  import opened Wrappers
  import opened Strings
  import opened Js
  import opened Store
  import B = BookingModel
  import opened ReviewModel
  import Sorting

  /** `userCanReviewService`: a completed booking of that service by that user exists. */
  predicate CanReview(bookings: map<Id, B.Booking>, user: Id, service: Id) {
    exists id :: id in bookings && bookings[id].user == user && bookings[id].service == service
      && bookings[id].status == B.Completed
  }

  predicate CompletedBy(b: B.Booking, user: Id, service: Id) {
    b.user == user && b.service == service && b.status == B.Completed
  }

  /** The matching completed booking `findOne` returns: the earliest one. */
  function FirstCompleted(bookings: map<Id, B.Booking>, n: nat, user: Id, service: Id): (r: Option<Id>)
    requires Below(bookings, n)
    ensures r.Some? <==> CanReview(bookings, user, service)
    ensures r.Some? ==> r.value in bookings && CompletedBy(bookings[r.value], user, service)
    ensures r.Some? ==> forall id :: id in bookings && CompletedBy(bookings[id], user, service) ==> r.value <= id
  {
    Sorting.FirstOf(bookings, n, (b: B.Booking) => CompletedBy(b, user, service))
  }

  predicate Pair(r: Review, user: Id, service: Id) {
    r.user == user && r.service == service
  }

  /** The review of `user` for `service`, if there is one. */
  function ReviewOf(reviews: map<Id, Review>, n: nat, user: Id, service: Id): (r: Option<Id>)
    requires Below(reviews, n)
    ensures r.Some? ==> r.value in reviews && Pair(reviews[r.value], user, service)
    ensures r.None? ==> forall id :: id in reviews ==> !Pair(reviews[id], user, service)
  {
    Sorting.FirstOf(reviews, n, (x: Review) => Pair(x, user, service))
  }

  /** Rewriting a review in place under the same (user, service) keeps the collection valid. */
  lemma RewriteKeepsValid(reviews: map<Id, Review>, n: nat, id: Id, r: Review)
    requires ReviewsOk(reviews, n) && id in reviews
    requires Pair(r, reviews[id].user, reviews[id].service)
    ensures ReviewsOk(reviews[id := r], n)
  {
    var m := reviews[id := r];
    forall a, b | a in m && b in m && a != b
      ensures m[a].user != m[b].user || m[a].service != m[b].service
    {
      assert Pair(m[a], reviews[a].user, reviews[a].service);
      assert Pair(m[b], reviews[b].user, reviews[b].service);
    }
  }

  /** The body of `POST /api/reviews`; a missing service or comment is None. */
  datatype UpsertRequest = UpsertRequest(service: Option<Id>, rating: Value, comment: Option<string>)

  /**
   * The review `findOneAndUpdate` leaves for (caller, service), AS WRITTEN:
   * 400 without a service or with a falsy rating, 400 when the caller is not
   * eligible, 400 when `Number(rating)` is not a finite number (the cast
   * fails); otherwise the rating, the comment (`comment || ''`, trimmed),
   * status pending and the earliest completed booking. The schema
   * validators do not run on this update.
   */
  function UpsertAsWritten(bookings: map<Id, B.Booking>, n: nat, caller: Caller, req: UpsertRequest): (r: Result<Review>)
    requires Below(bookings, n)
    ensures req.service.None? || !Truthy(req.rating) ==> r == Err(BadRequest)
    ensures req.service.Some? && !CanReview(bookings, caller.id, req.service.value) ==> r == Err(BadRequest)
    ensures r.Ok? ==> Pair(r.value, caller.id, req.service.value) && r.value.status == Pending
    ensures r.Ok? ==> ToNumber(req.rating) == Finite(r.value.rating)
    ensures r.Ok? ==> r.value.booking.Some? && r.value.booking.value in bookings
    ensures r.Ok? ==> CompletedBy(bookings[r.value.booking.value], caller.id, req.service.value)
    ensures r.Ok? ==> r.value.booking == FirstCompleted(bookings, n, caller.id, req.service.value)
    ensures r.Ok? ==> r.value.comment == Trim(if req.comment.Some? then req.comment.value else "")
    ensures req.service.Some? && Truthy(req.rating) && CanReview(bookings, caller.id, req.service.value) ==>
      (r.Ok? <==> ToNumber(req.rating).Finite?)
    ensures r.Err? ==> r.error == BadRequest
  {
    if req.service.None? || !Truthy(req.rating) then Err(BadRequest)
    else
      var first := FirstCompleted(bookings, n, caller.id, req.service.value);
      if first.None? then Err(BadRequest)
      else match ToNumber(req.rating)
        case Finite(rating) =>
          var comment := Trim(if req.comment.Some? then req.comment.value else "");
          Ok(Review(caller.id, req.service.value, first, rating, comment, Pending))
        case _ => Err(BadRequest)
  }

  /** A rating of 7 from an eligible customer is stored as it is, outside [1, 5]. */
  lemma UpsertStoresRatingSeven()
    ensures var b := B.Booking(1, 2, None, 0, "home", None, B.DefaultPayment, B.Completed);
      var r := UpsertAsWritten(map[0 := b], 1, Caller(1, UserRole), UpsertRequest(Some(2), Num(7), None));
      r.Ok? && r.value.rating == 7 && !ValidReview(r.value)
  {
    var b := B.Booking(1, 2, None, 0, "home", None, B.DefaultPayment, B.Completed);
    assert CompletedBy(map[0 := b][0], 1, 2);
  }

  /** The upsert with the schema validators applied: an invalid review is refused with 400. */
  function Upsert(bookings: map<Id, B.Booking>, n: nat, caller: Caller, req: UpsertRequest): (r: Result<Review>)
    requires Below(bookings, n)
    ensures r.Ok? ==> ValidReview(r.value)
    ensures r.Ok? ==> r == UpsertAsWritten(bookings, n, caller, req)
    ensures UpsertAsWritten(bookings, n, caller, req).Ok? && ValidReview(UpsertAsWritten(bookings, n, caller, req).value)
            ==> r == UpsertAsWritten(bookings, n, caller, req)
  {
    var w := UpsertAsWritten(bookings, n, caller, req);
    if w.Ok? && !ValidReview(w.value) then Err(BadRequest) else w
  }

  /** An eligible customer with a rating of 1 to 5 and a short comment always succeeds. */
  lemma UpsertAccepts(bookings: map<Id, B.Booking>, n: nat, caller: Caller, service: Id, rating: int, comment: string)
    requires Below(bookings, n) && CanReview(bookings, caller.id, service)
    requires 1 <= rating <= 5 && |comment| <= MaxComment
    ensures var r := Upsert(bookings, n, caller, UpsertRequest(Some(service), Num(rating), Some(comment)));
      r.Ok? && r.value.rating == rating && r.value.comment == Trim(comment) && r.value.status == Pending
  {
  }

  /**
   * `POST /api/reviews` as written: afterwards exactly one review exists for
   * (caller, service), the existing one overwritten in place or a new one,
   * holding what the unvalidated upsert computed.
   */
  method CreateOrUpsertReview(db: Db, caller: Caller, req: UpsertRequest) returns (r: Result<Id>)
    requires db.Valid()
    modifies db`reviews, db`nextId
    ensures db.Valid()
    ensures var u := UpsertAsWritten(old(db.bookings), old(db.nextId), caller, req);
      (r.Err? <==> u.Err?) && (r.Err? ==> r.error == u.error)
    ensures r.Err? ==> db.reviews == old(db.reviews) && db.nextId == old(db.nextId)
    ensures r.Ok? ==> db.reviews == old(db.reviews)[r.value := UpsertAsWritten(old(db.bookings), old(db.nextId), caller, req).value]
    ensures r.Ok? ==> req.service.Some?
    ensures r.Ok? ==> (r.value in old(db.reviews) <==> ReviewOf(old(db.reviews), old(db.nextId), caller.id, req.service.value).Some?)
    ensures r.Ok? ==> forall id :: id in db.reviews && Pair(db.reviews[id], caller.id, req.service.value) ==> id == r.value
  {
    var u := UpsertAsWritten(db.bookings, db.nextId, caller, req);
    if u.Err? {
      return Err(u.error);
    }
    var id := PutReview(db, u.value);
    return Ok(id);
  }

  /**
   * `POST /api/reviews` corrected: the same, with the validators run on the
   * upsert, so that what it stores is a valid review.
   */
  method CreateOrUpsertReviewCorrected(db: Db, caller: Caller, req: UpsertRequest) returns (r: Result<Id>)
    requires db.Valid()
    modifies db`reviews, db`nextId
    ensures db.Valid()
    ensures var u := Upsert(old(db.bookings), old(db.nextId), caller, req);
      (r.Err? <==> u.Err?) && (r.Err? ==> r.error == u.error)
    ensures r.Err? ==> db.reviews == old(db.reviews) && db.nextId == old(db.nextId)
    ensures r.Ok? ==> db.reviews == old(db.reviews)[r.value := Upsert(old(db.bookings), old(db.nextId), caller, req).value]
    ensures r.Ok? ==> ValidReview(db.reviews[r.value])
    ensures r.Ok? ==> req.service.Some?
    ensures r.Ok? ==> forall id :: id in db.reviews && Pair(db.reviews[id], caller.id, req.service.value) ==> id == r.value
  {
    var u := Upsert(db.bookings, db.nextId, caller, req);
    if u.Err? {
      return Err(u.error);
    }
    var id := PutReview(db, u.value);
    return Ok(id);
  }

  /**
   * Stores a review: over the existing review of its (user, service)
   * pair, or under a new id when there is none.
   */
  method PutReview(db: Db, x: Review) returns (id: Id)
    requires db.Valid()
    modifies db`reviews, db`nextId
    ensures db.Valid()
    ensures db.reviews == old(db.reviews)[id := x]
    ensures id in old(db.reviews) <==> ReviewOf(old(db.reviews), old(db.nextId), x.user, x.service).Some?
    ensures forall j :: j in db.reviews && Pair(db.reviews[j], x.user, x.service) ==> j == id
  {
    var existing := ReviewOf(db.reviews, db.nextId, x.user, x.service);
    if existing.Some? {
      id := existing.value;
      RewriteKeepsValid(db.reviews, db.nextId, id, x);
    } else {
      AddKeepsValid(db.reviews, db.nextId, x);
      id := db.NewId();
    }
    db.reviews := db.reviews[id := x];
    OnlyReview(db.reviews, id);
  }

  /** Adding a review under the next id, for a pair that has none, keeps the collection valid. */
  lemma AddKeepsValid(reviews: map<Id, Review>, n: nat, r: Review)
    requires ReviewsOk(reviews, n)
    requires forall id :: id in reviews ==> !Pair(reviews[id], r.user, r.service)
    ensures ReviewsOk(reviews[n := r], n + 1)
  {
    var m := reviews[n := r];
    forall a, b | a in m && b in m && a != b
      ensures m[a].user != m[b].user || m[a].service != m[b].service
    {
      if a == n {
        assert !Pair(reviews[b], r.user, r.service);
      } else if b == n {
        assert !Pair(reviews[a], r.user, r.service);
      }
    }
  }

  /** With unique pairs, a review is the only one of its pair. */
  lemma OnlyReview(reviews: map<Id, Review>, id: Id)
    requires UniquePairs(reviews) && id in reviews
    ensures forall j :: j in reviews && Pair(reviews[j], reviews[id].user, reviews[id].service) ==> j == id
  {
  }

  /**
   * `PATCH /api/reviews/:id`: 404, then 403 for anyone but the author; a
   * supplied rating is `Number(rating)`, a supplied comment `String(comment)`
   * trimmed; status goes back to pending; `save` runs the validators.
   */
  function EditReview(reviews: map<Id, Review>, caller: Caller, id: Id, rating: Value, comment: Value): (r: Result<Review>)
    ensures id !in reviews <==> r == Err(NotFound)
    ensures id in reviews && reviews[id].user != caller.id <==> r == Err(Forbidden)
    ensures r.Ok? ==> reviews[id].user == caller.id && ValidReview(r.value) && r.value.status == Pending
    ensures r.Ok? ==> r.value.user == reviews[id].user && r.value.service == reviews[id].service
    ensures r.Ok? ==> r.value.booking == reviews[id].booking
    ensures id in reviews && reviews[id].user == caller.id ==> r == Edited(reviews[id], rating, comment)
  {
    if id !in reviews then Err(NotFound)
    else if reviews[id].user != caller.id then Err(Forbidden)
    else Edited(reviews[id], rating, comment)
  }

  /** The edit applied to the author's review, then `save` with its validators. */
  function Edited(old_: Review, rating: Value, comment: Value): (r: Result<Review>)
    ensures r.Err? ==> r == Err(BadRequest)
    ensures r.Ok? ==> ValidReview(r.value) && r.value.status == Pending
    ensures r.Ok? ==> r.value.user == old_.user && r.value.service == old_.service && r.value.booking == old_.booking
    ensures r.Ok? <==> ((rating.Undefined? || ToNumber(rating).Finite?)
      && 1 <= (if rating.Undefined? then old_.rating else ToNumber(rating).i) <= 5
      && |if comment.Undefined? then old_.comment else Trim(ToStr(comment))| <= MaxComment)
  {
    var rated: Option<int> :=
      if rating.Undefined? then Some(old_.rating)
      else match ToNumber(rating) case Finite(i) => Some(i) case _ => None;
    if rated.None? then Err(BadRequest)
    else
      var next := old_.(rating := rated.value,
                        comment := if comment.Undefined? then old_.comment else Trim(ToStr(comment)),
                        status := Pending);
      if ValidReview(next) then Ok(next) else Err(BadRequest)
  }

  /**
   * What a successful edit stores: an omitted field keeps its value, a
   * supplied rating is its numeric value, a supplied comment its string form
   * trimmed.
   */
  lemma EditFields(reviews: map<Id, Review>, caller: Caller, id: Id, rating: Value, comment: Value)
    requires EditReview(reviews, caller, id, rating, comment).Ok?
    ensures var e := EditReview(reviews, caller, id, rating, comment).value;
      (rating.Undefined? ==> e.rating == reviews[id].rating)
      && (!rating.Undefined? ==> ToNumber(rating) == Finite(e.rating))
      && e.comment == if comment.Undefined? then reviews[id].comment else Trim(ToStr(comment))
  {
  }

  /** Even an edit that supplies nothing sends an approved review back to moderation. */
  lemma EmptyEditResetsStatus(reviews: map<Id, Review>, caller: Caller, id: Id)
    requires id in reviews && reviews[id].user == caller.id && ValidReview(reviews[id])
    ensures EditReview(reviews, caller, id, Undefined, Undefined) == Ok(reviews[id].(status := Pending))
  {
  }

  method UpdateMyReview(db: Db, caller: Caller, id: Id, rating: Value, comment: Value) returns (r: Result<Review>)
    requires db.Valid()
    modifies db`reviews
    ensures db.Valid()
    ensures r == EditReview(old(db.reviews), caller, id, rating, comment)
    ensures db.reviews == if r.Ok? then old(db.reviews)[id := r.value] else old(db.reviews)
  {
    r := EditReview(db.reviews, caller, id, rating, comment);
    if r.Ok? {
      Rewrite(db, id, r.value);
    }
  }

  /** Stores `x` in place of the review `id`, under the same (user, service). */
  method Rewrite(db: Db, id: Id, x: Review)
    requires db.Valid() && id in db.reviews && Pair(x, db.reviews[id].user, db.reviews[id].service)
    modifies db`reviews
    ensures db.Valid()
    ensures db.reviews == old(db.reviews)[id := x]
  {
    RewriteKeepsValid(db.reviews, db.nextId, id, x);
    db.reviews := db.reviews[id := x];
  }

  /** A successful edit keeps the collection valid. */
  lemma EditKeepsValid(reviews: map<Id, Review>, n: nat, caller: Caller, id: Id, rating: Value, comment: Value)
    requires ReviewsOk(reviews, n) && EditReview(reviews, caller, id, rating, comment).Ok?
    ensures ReviewsOk(reviews[id := EditReview(reviews, caller, id, rating, comment).value], n)
  {
    RewriteKeepsValid(reviews, n, id, EditReview(reviews, caller, id, rating, comment).value);
  }

  /** `DELETE /api/reviews/:id`: 404 for an unknown review, 403 unless author or admin. */
  function RemoveCheck(reviews: map<Id, Review>, caller: Caller, id: Id): (r: Result<()>)
    ensures r.Ok? <==> id in reviews && (reviews[id].user == caller.id || caller.role == AdminRole)
    ensures id !in reviews ==> r == Err(NotFound)
    ensures r.Err? && id in reviews ==> r == Err(Forbidden)
  {
    if id !in reviews then Err(NotFound)
    else if reviews[id].user != caller.id && caller.role != AdminRole then Err(Forbidden)
    else Ok(())
  }

  method RemoveReview(db: Db, caller: Caller, id: Id) returns (r: Result<()>)
    requires db.Valid()
    modifies db`reviews
    ensures db.Valid()
    ensures r == RemoveCheck(old(db.reviews), caller, id)
    ensures db.reviews == if r.Ok? then old(db.reviews) - {id} else old(db.reviews)
  {
    r := RemoveCheck(db.reviews, caller, id);
    if r.Ok? {
      db.reviews := db.reviews - {id};
    }
  }

  /**
   * `GET /api/reviews`: `includeAll=1` needs an admin (else 403) and lists
   * every status; otherwise only approved reviews; newest first.
   */
  function ListReviews(reviews: map<Id, Review>, n: nat, caller: Option<Caller>, service: Option<Id>,
                       includeAll: Option<string>): (r: Result<seq<Id>>)
    ensures includeAll == Some("1") && !IsAdmin(caller) <==> r == Err(Forbidden)
    ensures r.Err? ==> r == Err(Forbidden)
    ensures r.Ok? ==> forall id :: id in r.value <==> (id < n && id in reviews
      && (service.Some? ==> reviews[id].service == service.value)
      && (includeAll != Some("1") ==> reviews[id].status == Approved))
    ensures r.Ok? ==> forall i, j :: 0 <= i < j < |r.value| ==> r.value[i] > r.value[j]
  {
    var all := includeAll == Some("1");
    if all && !IsAdmin(caller) then Err(Forbidden)
    else Ok(Sorting.Newest(reviews, n, (x: Review) =>
      (service.Some? ==> x.service == service.value) && (!all ==> x.status == Approved)))
  }

  /** The public listing never shows a pending or rejected review. */
  lemma PublicListApprovedOnly(reviews: map<Id, Review>, n: nat, caller: Option<Caller>, service: Option<Id>, id: Id)
    requires id in reviews && reviews[id].status != Approved
    ensures var r := ListReviews(reviews, n, caller, service, None); r.Ok? && id !in r.value
  {
  }

  /** `GET /api/reviews/me?service=`: 400 without service, 404 when the caller has none. */
  function GetMyReview(reviews: map<Id, Review>, n: nat, caller: Caller, service: Option<Id>): (r: Result<Id>)
    requires Below(reviews, n)
    ensures service.None? ==> r == Err(BadRequest)
    ensures r.Ok? ==> r.value in reviews && Pair(reviews[r.value], caller.id, service.value)
    ensures service.Some? && r.Err? ==> r == Err(NotFound) && forall id :: id in reviews ==> !Pair(reviews[id], caller.id, service.value)
  {
    if service.None? then Err(BadRequest)
    else match ReviewOf(reviews, n, caller.id, service.value)
      case Some(id) => Ok(id)
      case None => Err(NotFound)
  }

  /** `GET /api/reviews/moderation?status=`: that status (default pending), oldest first. */
  function ListForModeration(reviews: map<Id, Review>, n: nat, status: Option<string>): (r: seq<Id>)
    ensures forall id :: id in r <==> (id < n && id in reviews
      && ReviewStatusName(reviews[id].status) == (if status.Some? then status.value else "pending"))
    ensures forall i, j :: 0 <= i < j < |r| ==> r[i] < r[j]
  {
    var s := if status.Some? then status.value else "pending";
    Sorting.Oldest(reviews, n, (x: Review) => ReviewStatusName(x.status) == s)
  }

  /** `PUT /api/reviews/:id/moderate`: only approved or rejected (else 400), 404 when absent. */
  function Moderate(reviews: map<Id, Review>, id: Id, status: Option<string>): (r: Result<Review>)
    ensures status != Some("approved") && status != Some("rejected") ==> r == Err(BadRequest)
    ensures (status == Some("approved") || status == Some("rejected")) && id !in reviews ==> r == Err(NotFound)
    ensures (status == Some("approved") || status == Some("rejected")) && id in reviews ==> r.Ok?
    ensures r.Ok? ==> id in reviews && r.value == reviews[id].(status := r.value.status)
    ensures r.Ok? ==> ReviewStatusName(r.value.status) == status.value && r.value.status != Pending
  {
    var s: Option<ReviewStatus> :=
      if status == Some("approved") then Some(Approved)
      else if status == Some("rejected") then Some(Rejected)
      else None;
    if s.None? then Err(BadRequest)
    else if id !in reviews then Err(NotFound)
    else Ok(reviews[id].(status := s.value))
  }

  method ModerateReview(db: Db, id: Id, status: Option<string>) returns (r: Result<Review>)
    requires db.Valid()
    modifies db`reviews
    ensures db.Valid()
    ensures r == Moderate(old(db.reviews), id, status)
    ensures db.reviews == if r.Ok? then old(db.reviews)[id := r.value] else old(db.reviews)
  {
    r := Moderate(db.reviews, id, status);
    if r.Ok? {
      RewriteKeepsValid(db.reviews, db.nextId, id, r.value);
      db.reviews := db.reviews[id := r.value];
    }
  }
}
