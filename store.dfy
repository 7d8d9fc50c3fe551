/**
 * The database the handlers share: one collection per model, each a map
 * from record id to record, and the id counter. Ids are handed out in
 * creation order, so comparing ids compares creation times.
 */
module Store {
  import opened Wrappers
  import B = BookingModel
  import M = MessageModel
  import R = ReviewModel
  import I = InvoiceModel
  import U = UserModel
  import P = ProfileModel
  import A = ApplicationModel
  import S = ServiceModel

  /** Every key was handed out before `n`. */
  predicate Below<T>(m: map<Id, T>, n: nat) {
    forall k :: k in m ==> k < n
  }

  predicate BookingsOk(m: map<Id, B.Booking>, n: nat) {
    Below(m, n) && forall k :: k in m ==> B.ValidBooking(m[k])
  }

  predicate MessagesOk(m: map<Id, M.Message>, n: nat) {
    Below(m, n) && forall k :: k in m ==> M.ValidMessage(m[k])
  }

  /**
   * Reviews keep their (user, service) pairs unique but need not pass the
   * validators: the upsert writes without them.
   */
  predicate ReviewsOk(m: map<Id, R.Review>, n: nat) {
    Below(m, n) && R.UniquePairs(m)
  }

  predicate InvoicesOk(m: map<Id, I.Invoice>, n: nat) {
    Below(m, n) && I.UniqueBookings(m) && forall k :: k in m ==> I.ValidInvoice(m[k])
  }

  predicate UsersOk(m: map<Id, U.User>, n: nat) {
    Below(m, n) && U.UniqueEmails(m) && forall k :: k in m ==> U.ValidUser(m[k])
  }

  /**
   * Profiles are well formed (declared, cast paths) but need not pass the
   * validators: the self-update writes without them.
   */
  predicate ProfilesOk(m: map<Id, P.Profile>, n: nat) {
    Below(m, n) && P.UniqueUsers(m) && forall k :: k in m ==> P.WellFormed(m[k])
  }

  predicate ServicesOk(m: map<Id, S.Service>, n: nat) {
    Below(m, n)
  }

  predicate ApplicationsOk(m: map<Id, A.Application>, n: nat) {
    Below(m, n)
  }

  class Db {
    var bookings: map<Id, B.Booking>
    var messages: map<Id, M.Message>
    var reviews: map<Id, R.Review>
    var invoices: map<Id, I.Invoice>
    var users: map<Id, U.User>
    var profiles: map<Id, P.Profile>
    var services: map<Id, S.Service>
    var applications: map<Id, A.Application>
    var nextId: nat

    ghost predicate Valid()
      reads this
    {
      BookingsOk(bookings, nextId) && MessagesOk(messages, nextId) && ReviewsOk(reviews, nextId)
      && InvoicesOk(invoices, nextId) && UsersOk(users, nextId) && ProfilesOk(profiles, nextId)
      && ServicesOk(services, nextId) && ApplicationsOk(applications, nextId)
    }

    constructor ()
      ensures Valid() && nextId == 0
      ensures bookings == map[] && messages == map[] && reviews == map[] && invoices == map[]
      ensures users == map[] && profiles == map[] && services == map[] && applications == map[]
    {
      bookings, messages, reviews, invoices := map[], map[], map[], map[];
      users, profiles, services, applications := map[], map[], map[], map[];
      nextId := 0;
    }

    /** A new ObjectId, later than every id handed out so far. */
    method NewId() returns (id: Id)
      requires Valid()
      modifies this`nextId
      ensures Valid()
      ensures id == old(nextId) && nextId == id + 1
    {
      id := nextId;
      nextId := nextId + 1;
    }
  }
}
