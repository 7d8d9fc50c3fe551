/**
 * The provider profile handlers (backend/controllers/providerController.js):
 * role guards, the public and admin listings, profile visibility, the lazily
 * created own profile, the whitelisted self-update and the admin
 * verification switch. Both writes are upserts keyed by the profile's user.
 */
module ProviderController {
  import opened Wrappers
  import opened Strings
  import opened Js
  import opened Casts
  import opened Store
  import opened ProfileModel
  import U = UserModel
  import Sorting

  /** `ensureProviderRole`: 403 unless there is a caller and it is a provider. */
  function EnsureProvider(c: Option<Caller>): (r: Result<Caller>)
    ensures r.Ok? <==> c.Some? && c.value.role == ProviderRole
    ensures r.Ok? ==> r.value == c.value
    ensures r.Err? ==> r.error == Forbidden
  {
    if c.Some? && c.value.role == ProviderRole then Ok(c.value) else Err(Forbidden)
  }

  /** `ensureAdminRole`: 403 unless there is a caller and it is an admin. */
  function EnsureAdmin(c: Option<Caller>): (r: Result<Caller>)
    ensures r.Ok? <==> IsAdmin(c)
    ensures r.Ok? ==> r.value == c.value
    ensures r.Err? ==> r.error == Forbidden
  {
    if IsAdmin(c) then Ok(c.value) else Err(Forbidden)
  }

  /** `ProviderProfile.findOne({ user })`. */
  function ProfileOf(profiles: map<Id, Profile>, n: nat, user: Id): (r: Option<Id>)
    requires Below(profiles, n)
    ensures r.Some? ==> r.value in profiles && profiles[r.value].user == user
    ensures r.None? <==> forall k :: k in profiles ==> profiles[k].user != user
  {
    Sorting.FirstOf(profiles, n, (p: Profile) => p.user == user)
  }

  /** With one profile per user, looking up a profile's user finds that profile. */
  lemma ProfileOfUnique(profiles: map<Id, Profile>, n: nat, k: Id)
    requires Below(profiles, n) && UniqueUsers(profiles) && k in profiles
    ensures ProfileOf(profiles, n, profiles[k].user) == Some(k)
  {
  }

  /** The query-string filters; a missing parameter is None. */
  datatype Filters = Filters(q: Option<string>, category: Option<string>, area: Option<string>, skill: Option<string>)

  /** `if (x)` on a query parameter: present and non-empty. */
  predicate Given(o: Option<string>) {
    o.Some? && o.value != ""
  }

  /** Mongo equality on a path: the value itself, or an element of an array value. */
  predicate Holds(v: Value, x: string) {
    v == Str(x) || (v.Arr? && Str(x) in v.items)
  }

  predicate HasIn(p: Profile, key: string, x: string) {
    key in p.content && Holds(p.content[key], x)
  }

  /**
   * The category, area, skill and text filters. `search(p, q)` stands for the
   * case-insensitive regex over displayName, bio, skills and categories.
   */
  predicate FiltersMatch(p: Profile, f: Filters, search: (Profile, string) -> bool) {
    (Given(f.category) ==> HasIn(p, "categories", f.category.value))
    && (Given(f.area) ==> HasIn(p, "serviceAreas", f.area.value))
    && (Given(f.skill) ==> HasIn(p, "skills", f.skill.value))
    && (Given(f.q) ==> search(p, f.q.value))
  }

  /** The whole query: an optional `isVerified` condition plus the filters. */
  predicate Matches(p: Profile, verified: Option<bool>, f: Filters, search: (Profile, string) -> bool) {
    (verified.Some? ==> p.isVerified == verified.value) && FiltersMatch(p, f, search)
  }

  function Flag(b: bool): int {
    if b then 1 else 0
  }

  /** `.sort({ isVerified: -1, ratingAvg: -1, updatedAt: -1 })`. */
  function PublicKey(p: Profile): seq<int> {
    [Flag(p.isVerified), p.ratingAvg, p.updatedAt]
  }

  /** `.sort({ isVerified: -1, updatedAt: -1 })`. */
  function AdminKey(p: Profile): seq<int> {
    [Flag(p.isVerified), p.updatedAt]
  }

  function KeyOf(profiles: map<Id, Profile>, key: Profile -> seq<int>, id: Id): seq<int> {
    if id in profiles then key(profiles[id]) else []
  }

  /** `find(query).sort(key)`: every matching profile once, in descending key order. */
  function Listing(profiles: map<Id, Profile>, n: nat, verified: Option<bool>, f: Filters,
                   search: (Profile, string) -> bool, key: Profile -> seq<int>): (r: seq<Id>)
    ensures forall id :: id in r <==> id < n && id in profiles && Matches(profiles[id], verified, f, search)
    ensures Sorting.Distinct(r)
    ensures forall i, j :: 0 <= i < j < |r| ==> Sorting.LexGe(key(profiles[r[i]]), key(profiles[r[j]]))
  {
    var ids := Sorting.Oldest(profiles, n, (p: Profile) => Matches(p, verified, f, search));
    Sorting.OldestDistinct(profiles, n, (p: Profile) => Matches(p, verified, f, search));
    var r := Sorting.SortByKey(ids, (id: Id) => KeyOf(profiles, key, id));
    assert forall i :: 0 <= i < |r| ==> r[i] in ids;
    r
  }

  /** `verified` after its default '1': anything but '0' keeps verified profiles only; '0' keeps all. */
  function PublicVerified(verified: Option<string>): (r: Option<bool>)
    ensures r.Some? <==> verified != Some("0")
    ensures r.Some? ==> r.value
  {
    if verified == Some("0") then None else Some(true)
  }

  /** `listProviders`: `GET /api/providers` as written in the controller. */
  function ListProviders(profiles: map<Id, Profile>, n: nat, verified: Option<string>, f: Filters,
                         search: (Profile, string) -> bool): (r: seq<Id>)
    ensures forall id :: id in r <==>
      id < n && id in profiles && FiltersMatch(profiles[id], f, search)
      && (verified != Some("0") ==> profiles[id].isVerified)
    ensures Sorting.Distinct(r)
    ensures forall i, j :: 0 <= i < j < |r| ==> Sorting.LexGe(PublicKey(profiles[r[i]]), PublicKey(profiles[r[j]]))
  {
    Listing(profiles, n, PublicVerified(verified), f, search, PublicKey)
  }

  /** `verified` after its default 'all': '1' and '0' select, anything else keeps all. */
  function AdminVerified(verified: Option<string>): (r: Option<bool>)
    ensures r == Some(true) <==> verified == Some("1")
    ensures r == Some(false) <==> verified == Some("0")
  {
    if verified == Some("1") then Some(true) else if verified == Some("0") then Some(false) else None
  }

  /** `adminList`: 403 for non-admins; otherwise the selected profiles, verified first, newest first. */
  function AdminList(caller: Option<Caller>, profiles: map<Id, Profile>, n: nat, verified: Option<string>,
                     f: Filters, search: (Profile, string) -> bool): (r: Result<seq<Id>>)
    ensures r.Err? <==> !IsAdmin(caller)
    ensures r.Err? ==> r.error == Forbidden
    ensures r.Ok? ==> forall id :: id in r.value <==>
      id < n && id in profiles && FiltersMatch(profiles[id], f, search)
      && (verified == Some("1") ==> profiles[id].isVerified)
      && (verified == Some("0") ==> !profiles[id].isVerified)
    ensures r.Ok? ==> Sorting.Distinct(r.value)
    ensures r.Ok? ==> forall i, j :: 0 <= i < j < |r.value| ==>
      Sorting.LexGe(AdminKey(profiles[r.value[i]]), AdminKey(profiles[r.value[j]]))
  {
    if !IsAdmin(caller) then Err(Forbidden)
    else Ok(Listing(profiles, n, AdminVerified(verified), f, search, AdminKey))
  }

  /**
   * `getProvider` for the user id in the path: 404 without a profile; when
   * there is a caller and the profile's user document is gone, populate leaves
   * `prof.user` null and reading its `_id` throws (400); an unverified
   * profile is shown only to its own user or an admin (403).
   */
  function GetProvider(profiles: map<Id, Profile>, n: nat, users: map<Id, U.User>,
                       caller: Option<Caller>, userId: Id): (r: Result<Id>)
    requires Below(profiles, n)
    ensures r == Err(NotFound) <==> forall k :: k in profiles ==> profiles[k].user != userId
    ensures r.Ok? ==> r.value in profiles && profiles[r.value].user == userId
    ensures r.Ok? ==> profiles[r.value].isVerified || IsAdmin(caller) || (caller.Some? && caller.value.id == userId)
    ensures r == Err(BadRequest) ==> caller.Some? && userId !in users
    ensures r != Err(Conflict)
    ensures ((exists k :: k in profiles && profiles[k].user == userId) && (caller.None? || userId in users)
             && (IsAdmin(caller) || (caller.Some? && caller.value.id == userId))) ==> r.Ok?
  {
    match ProfileOf(profiles, n, userId)
    case None => Err(NotFound)
    case Some(k) =>
      var p := profiles[k];
      if caller.Some? && p.user !in users then Err(BadRequest)
      else
        var isSelf := caller.Some? && caller.value.id == p.user;
        if !p.isVerified && !isSelf && !IsAdmin(caller) then Err(Forbidden) else Ok(k)
  }

  /** A verified profile is public. */
  lemma {:induction false} VerifiedVisible(profiles: map<Id, Profile>, n: nat, users: map<Id, U.User>,
                                           caller: Option<Caller>, k: Id)
    requires Below(profiles, n) && UniqueUsers(profiles) && k in profiles && profiles[k].isVerified
    requires caller.None? || profiles[k].user in users
    ensures GetProvider(profiles, n, users, caller, profiles[k].user) == Ok(k)
  {
    ProfileOfUnique(profiles, n, k);
  }

  /** An unverified profile is refused to everyone but its own user and admins. */
  lemma {:induction false} UnverifiedHidden(profiles: map<Id, Profile>, n: nat, users: map<Id, U.User>,
                                            caller: Option<Caller>, k: Id)
    requires Below(profiles, n) && UniqueUsers(profiles) && k in profiles && !profiles[k].isVerified
    requires !IsAdmin(caller) && (caller.None? || caller.value.id != profiles[k].user)
    ensures GetProvider(profiles, n, users, caller, profiles[k].user).Err?
  {
    ProfileOfUnique(profiles, n, k);
  }

  /** Either the caller's existing profile or the one to create for them. */
  datatype Mine = Found(id: Id) | Make(profile: Profile)

  /** `req.user.name || 'Provider'`. */
  function NameOr(users: map<Id, U.User>, id: Id): string {
    if id in users && users[id].name != "" then users[id].name else "Provider"
  }

  /**
   * `getMyProfile`: 403 for non-providers; the caller's profile if there is
   * one, else a new one whose displayName is the caller's name (400 when the
   * name is longer than displayName allows).
   */
  function MyProfile(profiles: map<Id, Profile>, n: nat, users: map<Id, U.User>,
                     caller: Option<Caller>, now: Timestamp): (r: Result<Mine>)
    requires Below(profiles, n)
    ensures r == Err(Forbidden) <==> EnsureProvider(caller).Err?
    ensures r == Err(BadRequest) ==> |Trim(NameOr(users, caller.value.id))| > StringLimits["displayName"]
    ensures r.Ok? && r.value.Found? ==> r.value.id in profiles && profiles[r.value.id].user == caller.value.id
    ensures r.Ok? && r.value.Make? ==> forall k :: k in profiles ==> profiles[k].user != caller.value.id
    ensures r.Ok? && r.value.Make? ==> var p := r.value.profile;
      ValidProfile(p) && p.user == caller.value.id && !p.isVerified && p.ratingAvg == 0 && p.ratingCount == 0
      && p.content == map["displayName" := Str(Trim(NameOr(users, caller.value.id)))]
    ensures EnsureProvider(caller).Ok? && ProfileOf(profiles, n, caller.value.id).Some? ==>
      r == Ok(Found(ProfileOf(profiles, n, caller.value.id).value))
    ensures EnsureProvider(caller).Ok? && ProfileOf(profiles, n, caller.value.id).None? ==>
      (r.Ok? <==> |Trim(NameOr(users, caller.value.id))| <= StringLimits["displayName"])
  {
    match EnsureProvider(caller)
    case Err(e) => Err(e)
    case Ok(c) =>
      match ProfileOf(profiles, n, c.id)
      case Some(k) => Ok(Found(k))
      case None =>
        var content := map["displayName" := Str(NameOr(users, c.id))];
        NameProfile(c.id, NameOr(users, c.id), now);
        match CreateProfile(c.id, content, false, None, now)
        case Err(e) => Err(e)
        case Ok(p) => Ok(Make(p))
  }

  /** The profile `getMyProfile` creates: the name trimmed by the setter, refused when longer than 120. */
  lemma NameProfile(user: Id, name: string, now: Timestamp)
    ensures var r := CreateProfile(user, map["displayName" := Str(name)], false, None, now);
      (r.Ok? <==> |Trim(name)| <= StringLimits["displayName"])
      && (r.Ok? ==> r.value.content == map["displayName" := Str(Trim(name))])
  {
    ExamplePaths();
    assert CastPath("displayName", Str(name)) == Ok(Str(Trim(name)));
    CreateOne(user, "displayName", Str(name), now);
  }

  /** Writing a profile back under its own id for the same user keeps one profile per user. */
  lemma KeepProfiles(profiles: map<Id, Profile>, n: nat, k: Id, p: Profile)
    requires ProfilesOk(profiles, n) && k in profiles && WellFormed(p) && p.user == profiles[k].user
    ensures ProfilesOk(profiles[k := p], n)
  {
    var m := profiles[k := p];
    forall a, b | a in m && b in m && a != b ensures m[a].user != m[b].user {
      assert m[a].user == profiles[a].user;
      assert m[b].user == profiles[b].user;
    }
  }

  /** Adding a valid profile under a fresh id, for a user without one, keeps the collection valid. */
  lemma AddProfile(profiles: map<Id, Profile>, n: nat, p: Profile)
    requires ProfilesOk(profiles, n) && WellFormed(p)
    requires forall k :: k in profiles ==> profiles[k].user != p.user
    ensures ProfilesOk(profiles[n := p], n + 1)
  {
    var m := profiles[n := p];
    forall k | k in m ensures WellFormed(m[k]) {
      if k != n {
        assert m[k] == profiles[k];
      }
    }
  }

  /** A write of `findOneAndUpdate(..., { upsert: true })`: the matched profile, or an insert. */
  datatype Upsert = Write(id: Id, profile: Profile) | Insert(profile: Profile)

  /** Stores an upsert: a write replaces the profile, an insert takes the next id. */
  method ApplyUpsert(db: Db, u: Upsert) returns (id: Id)
    requires db.Valid() && WellFormed(u.profile)
    requires u.Write? ==> u.id in db.profiles && db.profiles[u.id].user == u.profile.user
    requires u.Insert? ==> forall k :: k in db.profiles ==> db.profiles[k].user != u.profile.user
    modifies db`profiles, db`nextId
    ensures db.Valid()
    ensures u.Write? ==> id == u.id && db.nextId == old(db.nextId)
    ensures u.Insert? ==> id == old(db.nextId) && db.nextId == id + 1
    ensures db.profiles == old(db.profiles)[id := u.profile]
  {
    if u.Write? {
      KeepProfiles(db.profiles, db.nextId, u.id, u.profile);
      id := u.id;
      db.profiles := db.profiles[id := u.profile];
    } else {
      AddProfile(db.profiles, db.nextId, u.profile);
      id := db.NewId();
      db.profiles := db.profiles[id := u.profile];
    }
  }

  /** `GET /api/providers/me`: afterwards the caller, a provider, has a profile. */
  method GetMyProfile(db: Db, caller: Option<Caller>, now: Timestamp) returns (r: Result<Id>)
    requires db.Valid()
    modifies db`profiles, db`nextId
    ensures db.Valid()
    ensures var d := MyProfile(old(db.profiles), old(db.nextId), db.users, caller, now);
      (r.Err? <==> d.Err?) && (r.Err? ==> r.error == d.error && db.profiles == old(db.profiles))
      && (d.Ok? && d.value.Found? ==> r == Ok(d.value.id) && db.profiles == old(db.profiles))
      && (d.Ok? && d.value.Make? ==> r == Ok(old(db.nextId)) && db.profiles == old(db.profiles)[r.value := d.value.profile])
    ensures r.Ok? ==> r.value in db.profiles && db.profiles[r.value].user == caller.value.id
  {
    var d := MyProfile(db.profiles, db.nextId, db.users, caller, now);
    if d.Err? {
      return Err(d.error);
    }
    if d.value.Found? {
      return Ok(d.value.id);
    }
    var id := ApplyUpsert(db, Insert(d.value.profile));
    return Ok(id);
  }

  /** The body keys `updateMyProfile` copies. */
  const Allowed: seq<string> := ["displayName", "phone", "bio", "skills", "categories", "serviceAreas", "hourlyRate", "minFee"]

  /** The whitelisted keys the body supplies (`req.body[key] !== undefined`), with their values. */
  function Whitelisted(body: map<string, Value>): (r: map<string, Value>)
    ensures r.Keys <= SchemaKeys()
    ensures forall k :: k in r <==> k in Allowed && k in body && body[k] != Undefined
    ensures forall k :: k in r ==> r[k] == body[k]
  {
    map k | k in body && k in Allowed && body[k] != Undefined :: body[k]
  }

  /** The loop that fills `updates` key by key. */
  method CollectUpdates(body: map<string, Value>) returns (updates: map<string, Value>)
    ensures updates == Whitelisted(body)
  {
    updates := map[];
    var i := 0;
    while i < |Allowed|
      invariant 0 <= i <= |Allowed|
      invariant updates == map k | k in body && k in Allowed[..i] && body[k] != Undefined :: body[k]
    {
      var key := Allowed[i];
      CollectStep(body, updates, i);
      if key in body && body[key] != Undefined {
        updates := updates[key := body[key]];
      }
      i := i + 1;
    }
    assert Allowed[..i] == Allowed;
  }

  /** One more key of the whitelist: its value joins the updates when the body supplies it. */
  lemma CollectStep(body: map<string, Value>, updates: map<string, Value>, i: nat)
    requires i < |Allowed|
    requires updates == map k | k in body && k in Allowed[..i] && body[k] != Undefined :: body[k]
    ensures var key := Allowed[i];
      (map k | k in body && k in Allowed[..i + 1] && body[k] != Undefined :: body[k])
      == if key in body && body[key] != Undefined then updates[key := body[key]] else updates
  {
    assert Allowed[..i + 1] == Allowed[..i] + [Allowed[i]];
  }

  /**
   * `findOneAndUpdate({ user }, { $set: updates }, { upsert: true })` AS
   * WRITTEN: the update casts every value and runs the `trim` setters (a
   * value that fails its cast answers 400), but it runs no validators, so
   * the schema's bounds are not checked on this path.
   */
  function UpdateAsWritten(profiles: map<Id, Profile>, n: nat, user: Id, updates: map<string, Value>,
                           now: Timestamp): (r: Result<Upsert>)
    requires Below(profiles, n)
    ensures r.Ok? <==> CastContent(updates).Ok?
    ensures r.Err? ==> r.error == BadRequest
    ensures r.Ok? ==> r.value.profile.user == user && r.value.profile.updatedAt == now
    ensures r.Ok? && r.value.Write? ==>
      r.value.id in profiles && profiles[r.value.id].user == user
      && r.value.profile == profiles[r.value.id].(content := profiles[r.value.id].content + CastContent(updates).value,
                                                  updatedAt := now)
    ensures r.Ok? && r.value.Insert? ==>
      (forall k :: k in profiles ==> profiles[k].user != user)
      && r.value.profile == Profile(user, CastContent(updates).value, false, None, 0, 0, now)
  {
    match CastContent(updates)
    case Err(e) => Err(e)
    case Ok(c) =>
      match ProfileOf(profiles, n, user)
      case Some(k) => Ok(Write(k, profiles[k].(content := profiles[k].content + c, updatedAt := now)))
      case None => Ok(Insert(Profile(user, c, false, None, 0, 0, now)))
  }

  /** The as-written update keeps a well-formed profile well formed: only declared, cast paths. */
  lemma UpdateKeepsWellFormed(profiles: map<Id, Profile>, n: nat, user: Id, updates: map<string, Value>,
                              now: Timestamp)
    requires ProfilesOk(profiles, n) && UpdateAsWritten(profiles, n, user, updates, now).Ok?
    ensures WellFormed(UpdateAsWritten(profiles, n, user, updates, now).value.profile)
  {
    var c := CastContent(updates).value;
    CastContentTyped(updates);
    var u := UpdateAsWritten(profiles, n, user, updates, now).value;
    if u.Write? {
      var before := profiles[u.id];
      assert WellFormed(before);
      forall k | k in u.profile.content ensures Typed(k, u.profile.content[k]) {
        if k in c {
          assert u.profile.content[k] == c[k];
        } else {
          assert u.profile.content[k] == before.content[k];
        }
      }
    }
  }

  /** A negative hourly rate in the body is stored as it is, breaking the schema's `min: 0`. */
  lemma NegativeRateStored()
    ensures var u := UpdateAsWritten(map[], 0, 1, Whitelisted(map["hourlyRate" := Num(-5)]), 0);
      u.Ok? && u.value.Insert? && u.value.profile.content["hourlyRate"] == Num(-5) && !ValidProfile(u.value.profile)
  {
    var w := Whitelisted(map["hourlyRate" := Num(-5)]);
    assert "hourlyRate" in Allowed;
    assert w == map["hourlyRate" := Num(-5)];
    ExamplePaths();
    assert CastPath("hourlyRate", Num(-5)) == Ok(Num(-5));
    CastOne("hourlyRate", Num(-5));
    assert !FieldValid("hourlyRate", Num(-5));
  }

  /**
   * The update with `runValidators: true`: the cast values of the updated
   * paths must pass their validators, or the answer is 400 and nothing is
   * written.
   */
  function UpdateProfile(profiles: map<Id, Profile>, n: nat, user: Id, updates: map<string, Value>,
                         now: Timestamp): (r: Result<Upsert>)
    requires Below(profiles, n)
    ensures r.Ok? <==> CastContent(updates).Ok? && ContentValid(CastContent(updates).value)
    ensures r.Ok? ==> Ok(r.value) == UpdateAsWritten(profiles, n, user, updates, now)
    ensures r.Err? ==> r.error == BadRequest
  {
    var u := UpdateAsWritten(profiles, n, user, updates, now);
    if u.Ok? && ContentValid(CastContent(updates).value) then u else Err(BadRequest)
  }

  /** The corrected update keeps a valid profile valid, and an inserted one is valid. */
  lemma {:induction false} UpdateKeepsValid(profiles: map<Id, Profile>, n: nat, user: Id,
                                            updates: map<string, Value>, now: Timestamp)
    requires ProfilesOk(profiles, n) && UpdateProfile(profiles, n, user, updates, now).Ok?
    requires var u := UpdateProfile(profiles, n, user, updates, now).value;
      u.Write? ==> ValidProfile(profiles[u.id])
    ensures ValidProfile(UpdateProfile(profiles, n, user, updates, now).value.profile)
  {
    var c := CastContent(updates).value;
    var u := UpdateProfile(profiles, n, user, updates, now).value;
    UpdateKeepsWellFormed(profiles, n, user, updates, now);
    if u.Write? {
      var before := profiles[u.id];
      forall k | k in u.profile.content ensures FieldValid(k, u.profile.content[k]) {
        if k in c {
          assert u.profile.content[k] == c[k];
        } else {
          assert u.profile.content[k] == before.content[k];
        }
      }
    }
  }

  /** A negative rate, given as a number or as its text, is refused by the corrected update. */
  lemma NegativeRateRefused(profiles: map<Id, Profile>, n: nat, user: Id, now: Timestamp)
    requires Below(profiles, n)
    ensures UpdateProfile(profiles, n, user, map["hourlyRate" := Num(-5)], now) == Err(BadRequest)
    ensures UpdateProfile(profiles, n, user, map["hourlyRate" := Str("-5")], now) == Err(BadRequest)
  {
    ExamplePaths();
    assert CastPath("hourlyRate", Num(-5)) == Ok(Num(-5));
    CastOne("hourlyRate", Num(-5));
    assert IntToStr(-5) == "-5";
    CastNumberOfText(-5);
    assert CastPath("hourlyRate", Str("-5")) == Ok(Num(-5));
    CastOne("hourlyRate", Str("-5"));
    assert !ContentValid(map["hourlyRate" := Num(-5)]) by {
      assert !FieldValid("hourlyRate", Num(-5));
    }
  }

  /** Neither update can touch the verification flag, its date or the rating aggregates. */
  lemma {:induction false} UpdateKeepsVerification(profiles: map<Id, Profile>, n: nat, user: Id,
                                                   body: map<string, Value>, now: Timestamp)
    requires Below(profiles, n)
    requires UpdateAsWritten(profiles, n, user, Whitelisted(body), now).Ok?
    ensures var u := UpdateAsWritten(profiles, n, user, Whitelisted(body), now).value;
      (u.Write? ==> u.profile.isVerified == profiles[u.id].isVerified
                    && u.profile.verifiedAt == profiles[u.id].verifiedAt
                    && u.profile.ratingAvg == profiles[u.id].ratingAvg
                    && u.profile.ratingCount == profiles[u.id].ratingCount)
      && (u.Insert? ==> !u.profile.isVerified && u.profile.verifiedAt.None?)
    ensures "isVerified" !in Whitelisted(body) && "verifiedAt" !in Whitelisted(body)
    ensures "ratingAvg" !in Whitelisted(body) && "ratingCount" !in Whitelisted(body)
  {
    FlagsNotAllowed();
  }

  lemma FlagsNotAllowed()
    ensures "isVerified" !in Allowed && "verifiedAt" !in Allowed
    ensures "ratingAvg" !in Allowed && "ratingCount" !in Allowed
  {
  }

  /** Whitelisted values that cast and pass the validators are stored by the corrected update. */
  lemma {:induction false} ValidUpdateAccepted(profiles: map<Id, Profile>, n: nat, user: Id,
                                               body: map<string, Value>, now: Timestamp)
    requires Below(profiles, n)
    requires CastContent(Whitelisted(body)).Ok? && ContentValid(CastContent(Whitelisted(body)).value)
    ensures UpdateProfile(profiles, n, user, Whitelisted(body), now).Ok?
    ensures UpdateProfile(profiles, n, user, Whitelisted(body), now).value.profile.content.Keys
            >= CastContent(Whitelisted(body)).value.Keys
  {
  }

  /**
   * `PUT /api/providers/me` AS WRITTEN: the whitelisted body, cast, is
   * merged into the caller's profile (created when missing); the flags and
   * ratings never change; a failed cast answers 400 and writes nothing.
   */
  method UpdateMyProfile(db: Db, caller: Option<Caller>, body: map<string, Value>, now: Timestamp)
    returns (r: Result<Id>)
    requires db.Valid()
    modifies db`profiles, db`nextId
    ensures db.Valid()
    ensures caller.None? || caller.value.role != ProviderRole ==> r == Err(Forbidden)
    ensures r.Err? ==> db.profiles == old(db.profiles) && db.nextId == old(db.nextId)
    ensures caller.Some? && caller.value.role == ProviderRole ==>
      var u := UpdateAsWritten(old(db.profiles), old(db.nextId), caller.value.id, Whitelisted(body), now);
      (r.Ok? <==> u.Ok?)
      && (r.Ok? ==> db.profiles == old(db.profiles)[r.value := u.value.profile]
                    && (u.value.Write? ==> r.value == u.value.id) && (u.value.Insert? ==> r.value == old(db.nextId)))
    ensures r.Ok? && r.value in old(db.profiles) ==>
      db.profiles[r.value].isVerified == old(db.profiles)[r.value].isVerified
      && db.profiles[r.value].verifiedAt == old(db.profiles)[r.value].verifiedAt
  {
    var c := EnsureProvider(caller);
    if c.Err? {
      return Err(c.error);
    }
    var updates := CollectUpdates(body);
    var u := UpdateAsWritten(db.profiles, db.nextId, c.value.id, updates, now);
    if u.Err? {
      return Err(u.error);
    }
    UpdateKeepsWellFormed(db.profiles, db.nextId, c.value.id, updates, now);
    var id := ApplyUpsert(db, u.value);
    return Ok(id);
  }

  /**
   * The corrected `PUT /api/providers/me` (`runValidators: true`): as the
   * handler, but an update whose cast values fail a validator answers 400;
   * a valid profile stays valid.
   */
  method UpdateMyProfileCorrected(db: Db, caller: Option<Caller>, body: map<string, Value>, now: Timestamp)
    returns (r: Result<Id>)
    requires db.Valid()
    modifies db`profiles, db`nextId
    ensures db.Valid()
    ensures caller.None? || caller.value.role != ProviderRole ==> r == Err(Forbidden)
    ensures r.Err? ==> db.profiles == old(db.profiles) && db.nextId == old(db.nextId)
    ensures caller.Some? && caller.value.role == ProviderRole ==>
      var u := UpdateProfile(old(db.profiles), old(db.nextId), caller.value.id, Whitelisted(body), now);
      (r.Ok? <==> u.Ok?)
      && (r.Ok? ==> db.profiles == old(db.profiles)[r.value := u.value.profile]
                    && (u.value.Write? ==> r.value == u.value.id) && (u.value.Insert? ==> r.value == old(db.nextId)))
    ensures r.Ok? && (r.value in old(db.profiles) ==> ValidProfile(old(db.profiles)[r.value])) ==>
      ValidProfile(db.profiles[r.value])
  {
    var c := EnsureProvider(caller);
    if c.Err? {
      return Err(c.error);
    }
    var updates := CollectUpdates(body);
    var u := UpdateProfile(db.profiles, db.nextId, c.value.id, updates, now);
    if u.Err? {
      return Err(u.error);
    }
    UpdateKeepsWellFormed(db.profiles, db.nextId, c.value.id, updates, now);
    if (u.value.Write? && ValidProfile(db.profiles[u.value.id])) || u.value.Insert? {
      UpdateKeepsValid(db.profiles, db.nextId, c.value.id, updates, now);
    }
    var id := ApplyUpsert(db, u.value);
    return Ok(id);
  }

  /**
   * `setVerified`: 403 for non-admins, 400 unless `verified` is a boolean;
   * otherwise the user's profile gets the flag and `verifiedAt` (now when
   * true, cleared when false), and is created with the defaults if missing.
   */
  function VerifyDecision(profiles: map<Id, Profile>, n: nat, caller: Option<Caller>, verified: Value,
                          userId: Id, now: Timestamp): (r: Result<Upsert>)
    requires Below(profiles, n)
    ensures !IsAdmin(caller) ==> r == Err(Forbidden)
    ensures IsAdmin(caller) && !verified.Bool? ==> r == Err(BadRequest)
    ensures r.Ok? <==> IsAdmin(caller) && verified.Bool?
    ensures r.Ok? ==>
      var p := r.value.profile;
      p.user == userId && p.isVerified == verified.b && p.verifiedAt == (if verified.b then Some(now) else None)
    ensures r.Ok? && r.value.Write? ==>
      r.value.id in profiles && profiles[r.value.id].user == userId
      && r.value.profile.content == profiles[r.value.id].content
      && r.value.profile.ratingAvg == profiles[r.value.id].ratingAvg
      && r.value.profile.ratingCount == profiles[r.value.id].ratingCount
    ensures r.Ok? && r.value.Insert? ==>
      (forall k :: k in profiles ==> profiles[k].user != userId)
      && r.value.profile == Profile(userId, map[], verified.b, r.value.profile.verifiedAt, 0, 0, now)
  {
    if !IsAdmin(caller) then Err(Forbidden)
    else if !verified.Bool? then Err(BadRequest)
    else
      var at := if verified.b then Some(now) else None;
      match ProfileOf(profiles, n, userId)
      case Some(k) => Ok(Write(k, profiles[k].(isVerified := verified.b, verifiedAt := at, updatedAt := now)))
      case None => Ok(Insert(Profile(userId, map[], verified.b, at, 0, 0, now)))
  }

  /** Verifying and then unverifying a user writes both times to one profile and keeps its content. */
  lemma {:induction false} VerifyThenUnverify(profiles: map<Id, Profile>, n: nat, caller: Option<Caller>,
                                              userId: Id, t1: Timestamp, t2: Timestamp)
    requires ProfilesOk(profiles, n) && IsAdmin(caller)
    requires VerifyDecision(profiles, n, caller, Bool(true), userId, t1).Ok?
    ensures var u := VerifyDecision(profiles, n, caller, Bool(true), userId, t1).value;
      var m := profiles[if u.Write? then u.id else n := u.profile];
      var v := VerifyDecision(m, if u.Write? then n else n + 1, caller, Bool(false), userId, t2);
      v.Ok? && v.value.Write? && !v.value.profile.isVerified && v.value.profile.verifiedAt.None?
      && v.value.profile.content == u.profile.content
  {
    var u := VerifyDecision(profiles, n, caller, Bool(true), userId, t1).value;
    var id := if u.Write? then u.id else n;
    var m := profiles[id := u.profile];
    var n' := if u.Write? then n else n + 1;
    if u.Write? {
      KeepProfiles(profiles, n, u.id, u.profile);
    } else {
      AddProfile(profiles, n, u.profile);
    }
    ProfileOfUnique(m, n', id);
  }

  /** `PUT /api/providers/:id/verify`. */
  method SetVerified(db: Db, caller: Option<Caller>, verified: Value, userId: Id, now: Timestamp)
    returns (r: Result<Id>)
    requires db.Valid()
    modifies db`profiles, db`nextId
    ensures db.Valid()
    ensures var d := VerifyDecision(old(db.profiles), old(db.nextId), caller, verified, userId, now);
      (r.Err? <==> d.Err?) && (r.Err? ==> r.error == d.error)
      && (d.Ok? ==> db.profiles == old(db.profiles)[r.value := d.value.profile])
      && (d.Ok? && d.value.Write? ==> r.value == d.value.id)
      && (d.Ok? && d.value.Insert? ==> r.value == old(db.nextId))
    ensures r.Err? ==> db.profiles == old(db.profiles) && db.nextId == old(db.nextId)
  {
    var d := VerifyDecision(db.profiles, db.nextId, caller, verified, userId, now);
    if d.Err? {
      return Err(d.error);
    }
    if d.value.Write? {
      assert WellFormed(db.profiles[d.value.id]);
    }
    var id := ApplyUpsert(db, d.value);
    return Ok(id);
  }
}
