/**
 * The Review record (backend/models/review.js): one user's rating of one
 * service, awaiting moderation, with the unique (user, service) index.
 */
module ReviewModel {
  import opened Wrappers

  datatype ReviewStatus = Pending | Approved | Rejected

  function ReviewStatusName(s: ReviewStatus): string {
    match s
    case Pending => "pending"
    case Approved => "approved"
    case Rejected => "rejected"
  }

  function ParseReviewStatus(t: string): (r: Option<ReviewStatus>)
    ensures r.Some? ==> ReviewStatusName(r.value) == t
  {
    if t == "pending" then Some(Pending)
    else if t == "approved" then Some(Approved)
    else if t == "rejected" then Some(Rejected)
    else None
  }

  lemma ParseReviewStatusName(s: ReviewStatus)
    ensures ParseReviewStatus(ReviewStatusName(s)) == Some(s)
  {
  }

  datatype Review = Review(
    user: Id,
    service: Id,
    booking: Option<Id>,
    rating: int,
    comment: string,
    status: ReviewStatus)

  const MaxComment := 2000

  /** The schema validators: rating in [1, 5], comment at most 2000 characters. */
  predicate ValidReview(r: Review) {
    1 <= r.rating <= 5 && |r.comment| <= MaxComment
  }

  /** The unique index on (user, service). */
  predicate UniquePairs(reviews: map<Id, Review>) {
    forall a, b :: a in reviews && b in reviews && a != b ==>
      reviews[a].user != reviews[b].user || reviews[a].service != reviews[b].service
  }
}
