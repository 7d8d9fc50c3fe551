/**
 * Provider applications (backend/routes/adminProviderRoutes.js): the list,
 * and the approve and reject handlers, which set the application's status
 * and then, when the user still exists, the user's onboarding status. No
 * handler checks the caller's role.
 */
module AdminProviderRoutes {
  import opened Wrappers
  import opened Store
  import opened ApplicationModel
  import U = UserModel
  import Sorting
  import PR = ProviderRoutes

  /** `GET /applications`: every application, newest first. */
  function ListApplications(apps: map<Id, Application>, n: nat): (r: seq<Id>)
    ensures forall id :: id in r <==> id < n && id in apps
    ensures forall i, j :: 0 <= i < j < |r| ==> r[i] > r[j]
  {
    Sorting.Newest(apps, n, (a: Application) => true)
  }

  /** The user after approval: an approved provider, whatever its role was. */
  function Approved(u: U.User): (r: U.User)
    ensures r.role == ProviderRole && r.providerStatus == Some(U.PsApproved)
    ensures r.name == u.name && r.email == u.email && r.password == u.password
  {
    u.(role := ProviderRole, providerStatus := Some(U.PsApproved))
  }

  /** The user after rejection: rejected, with the role it had, so a rejected provider stays a provider. */
  function Rejected(u: U.User): (r: U.User)
    ensures r.providerStatus == Some(U.PsRejected)
    ensures r.role == u.role && r.name == u.name && r.email == u.email && r.password == u.password
  {
    u.(providerStatus := Some(U.PsRejected))
  }

  /** What a decision does: the new application status and the update of its user. */
  datatype Verdict = Approve | Reject

  function AppStatusOf(v: Verdict): AppStatus {
    if v == Approve then AppApproved else AppRejected
  }

  function Decided(u: U.User, v: Verdict): (r: U.User)
    ensures r.email == u.email && (U.ValidUser(u) ==> U.ValidUser(r))
  {
    if v == Approve then Approved(u) else Rejected(u)
  }

  /** Deciding twice the same way changes nothing the second time. */
  lemma DecideIdempotent(u: U.User, v: Verdict)
    ensures Decided(Decided(u, v), v) == Decided(u, v)
  {
  }

  /**
   * `PATCH /applications/:id/approve` and `/reject`: 404 for an unknown
   * application; otherwise the application's status, then the user when it
   * exists (a missing user is skipped and the answer is still ok).
   */
  method Decide(db: Db, id: Id, v: Verdict) returns (r: Result<Application>)
    requires db.Valid()
    modifies db`applications, db`users
    ensures db.Valid()
    ensures id !in old(db.applications) <==> r == Err(NotFound)
    ensures r.Err? ==> db.applications == old(db.applications) && db.users == old(db.users)
    ensures r.Ok? ==>
      r.value == old(db.applications)[id].(status := AppStatusOf(v))
      && db.applications == old(db.applications)[id := r.value]
    ensures r.Ok? ==>
      var u := old(db.applications)[id].user;
      db.users == if u in old(db.users) then old(db.users)[u := Decided(old(db.users)[u], v)] else old(db.users)
  {
    if id !in db.applications {
      return Err(NotFound);
    }
    var app := db.applications[id].(status := AppStatusOf(v));
    db.applications := db.applications[id := app];
    var u := app.user;
    if u in db.users {
      PR.KeepUsers(db.users, db.nextId, u, Decided(db.users[u], v));
      db.users := db.users[u := Decided(db.users[u], v)];
    }
    return Ok(app);
  }
}
