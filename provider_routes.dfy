/**
 * The mounted provider routes (backend/routes/providerRoutes.js): list
 * normalisation, the listing query and its verified rule, the open provider
 * sign-up, the admin verification toggle, and the order in which the router
 * tries its routes (which decides where the legacy alias ends up).
 */
module ProviderRoutes {
  import opened Wrappers
  import opened Js
  import opened Strings
  import opened Store
  import opened ProfileModel
  import opened Casts
  import U = UserModel
  import Sorting
  import PC = ProviderController

  /** `.map(s => s.trim())`. */
  function TrimAll(parts: seq<string>): (r: seq<string>)
    ensures |r| == |parts|
    ensures forall i :: 0 <= i < |r| ==> r[i] == Trim(parts[i])
  {
    if parts == [] then [] else [Trim(parts[0])] + TrimAll(parts[1..])
  }

  function AsStrings(parts: seq<string>): (r: seq<Value>)
    ensures |r| == |parts|
    ensures forall i :: 0 <= i < |r| ==> r[i] == Str(parts[i])
  {
    if parts == [] then [] else [Str(parts[0])] + AsStrings(parts[1..])
  }

  predicate NonEmpty(t: string) {
    t != ""
  }

  /**
   * `normalizeList`: an array keeps its truthy elements; a string is split on
   * ',' and each piece trimmed, empty pieces dropped; anything else is [].
   */
  function NormalizeList(v: Value): (r: seq<Value>)
    ensures forall i :: 0 <= i < |r| ==> Truthy(r[i])
    ensures v.Arr? ==> forall i :: 0 <= i < |r| ==> r[i] in v.items
    ensures v.Arr? ==> forall i :: 0 <= i < |v.items| && Truthy(v.items[i]) ==> v.items[i] in r
    ensures v.Str? ==> forall i :: 0 <= i < |r| ==>
      r[i].Str? && r[i].s != "" && Trimmed(r[i].s) && ',' !in r[i].s
    ensures v.Str? ==> forall t :: Str(t) in r <==> PieceOf(Split(v.s, ','), t)
    ensures !v.Arr? && !v.Str? ==> r == []
  {
    match v
    case Arr(items) => Sorting.Filter(items, Truthy)
    case Str(s) => SplitList(s)
    case _ => []
  }

  /** The string case: the comma-separated pieces, trimmed, the empty ones dropped. */
  function SplitList(s: string): (r: seq<Value>)
    ensures forall i :: 0 <= i < |r| ==> r[i].Str? && CleanPiece(r[i].s)
    ensures forall t :: Str(t) in r <==> PieceOf(Split(s, ','), t)
  {
    CleanStrings(Sorting.Filter(TrimAll(Split(s, ',')), NonEmpty), s);
    KeptPieces(Split(s, ','));
    AsStrings(Sorting.Filter(TrimAll(Split(s, ',')), NonEmpty))
  }

  lemma CleanStrings(pieces: seq<string>, s: string)
    requires pieces == Sorting.Filter(TrimAll(Split(s, ',')), NonEmpty)
    ensures forall i :: 0 <= i < |AsStrings(pieces)| ==> AsStrings(pieces)[i].Str? && CleanPiece(AsStrings(pieces)[i].s)
  {
    Pieces(s);
    assert CleanPieces(pieces);
    var r := AsStrings(pieces);
    forall i | 0 <= i < |r| ensures r[i].Str? && CleanPiece(r[i].s) {
      assert r[i] == Str(pieces[i]);
    }
  }

  /** `t` is the trimmed text of one of `parts`, and not empty. */
  predicate PieceOf(parts: seq<string>, t: string) {
    t != "" && exists k :: 0 <= k < |parts| && Trim(parts[k]) == t
  }

  /** Trimming, dropping the empty texts and wrapping keeps exactly the non-empty trimmed parts. */
  lemma KeptPieces(parts: seq<string>)
    ensures forall t :: Str(t) in AsStrings(Sorting.Filter(TrimAll(parts), NonEmpty)) <==> PieceOf(parts, t)
  {
    forall t ensures Str(t) in AsStrings(Sorting.Filter(TrimAll(parts), NonEmpty)) <==> PieceOf(parts, t) {
      InAsStrings(Sorting.Filter(TrimAll(parts), NonEmpty), t);
      InNonEmpty(TrimAll(parts), t);
      InTrimAll(parts, t);
    }
  }

  lemma InAsStrings(xs: seq<string>, t: string)
    ensures Str(t) in AsStrings(xs) <==> t in xs
  {
    var r := AsStrings(xs);
    if Str(t) in r {
      var i :| 0 <= i < |r| && r[i] == Str(t);
      assert xs[i] == t;
    }
    if t in xs {
      var i :| 0 <= i < |xs| && xs[i] == t;
      assert r[i] == Str(t);
    }
  }

  lemma InNonEmpty(xs: seq<string>, t: string)
    ensures t in Sorting.Filter(xs, NonEmpty) <==> t != "" && t in xs
  {
    var r := Sorting.Filter(xs, NonEmpty);
    if t in r {
      var i :| 0 <= i < |r| && r[i] == t;
      assert NonEmpty(r[i]);
    }
    if t != "" && t in xs {
      var i :| 0 <= i < |xs| && xs[i] == t;
      assert NonEmpty(xs[i]);
    }
  }

  lemma InTrimAll(parts: seq<string>, t: string)
    ensures t in TrimAll(parts) <==> exists k :: 0 <= k < |parts| && Trim(parts[k]) == t
  {
    var r := TrimAll(parts);
    if t in r {
      var k :| 0 <= k < |r| && r[k] == t;
      assert Trim(parts[k]) == t;
    }
    if exists k :: 0 <= k < |parts| && Trim(parts[k]) == t {
      var k :| 0 <= k < |parts| && Trim(parts[k]) == t;
      assert r[k] == t;
    }
  }

  /** A piece of a list sent as text: not empty, trimmed, free of commas. */
  predicate CleanPiece(t: string) {
    t != "" && Trimmed(t) && ',' !in t
  }

  /** The kept pieces of a split string are non-empty, trimmed and free of commas. */
  lemma Pieces(s: string)
    ensures CleanPieces(Sorting.Filter(TrimAll(Split(s, ',')), NonEmpty))
  {
    var parts := Split(s, ',');
    var pieces := Sorting.Filter(TrimAll(parts), NonEmpty);
    forall i | 0 <= i < |pieces| ensures CleanPiece(pieces[i]) {
      var k :| 0 <= k < |parts| && TrimAll(parts)[k] == pieces[i];
      assert pieces[i] == Trim(parts[k]);
      TrimKeepsOut(parts[k], ',');
    }
    assert CleanPieces(pieces);
  }

  predicate CleanPieces(pieces: seq<string>) {
    forall i :: 0 <= i < |pieces| ==> CleanPiece(pieces[i])
  }

  /** Trimming only removes characters, so a character absent before is absent after. */
  lemma {:induction false} TrimKeepsOut(s: string, c: char)
    requires c !in s
    ensures c !in Trim(s)
  {
    TrimSub(s);
  }

  lemma {:induction false} TrimSub(s: string)
    ensures forall i :: 0 <= i < |Trim(s)| ==> Trim(s)[i] in s
  {
    TrimStartSub(s);
    TrimEndSub(TrimStart(s));
  }

  lemma {:induction false} TrimStartSub(s: string)
    ensures forall i :: 0 <= i < |TrimStart(s)| ==> TrimStart(s)[i] in s
  {
    if s != [] && IsSpace(s[0]) {
      TrimStartSub(s[1..]);
      assert forall x :: x in s[1..] ==> x in s;
    }
  }

  lemma {:induction false} TrimEndSub(s: string)
    ensures forall i :: 0 <= i < |TrimEnd(s)| ==> TrimEnd(s)[i] in s
  {
    if s != [] && IsSpace(s[|s| - 1]) {
      TrimEndSub(s[..|s| - 1]);
      assert forall x :: x in s[..|s| - 1] ==> x in s;
    }
  }

  /** A normalised list is its own normal form. */
  lemma {:induction false} NormalizeListIdempotent(v: Value)
    ensures NormalizeList(Arr(NormalizeList(v))) == NormalizeList(v)
  {
    Sorting.FilterAllKept(NormalizeList(v), Truthy);
  }

  /**
   * `buildQuery`: a filter for each supplied (non-empty) category, area,
   * skill or search text, and none for the others.
   */
  function BuildQuery(f: PC.Filters): (r: PC.Filters)
    ensures r.category.Some? <==> PC.Given(f.category)
    ensures r.area.Some? <==> PC.Given(f.area)
    ensures r.skill.Some? <==> PC.Given(f.skill)
    ensures r.q.Some? <==> PC.Given(f.q)
    ensures r.category.Some? ==> r.category == f.category
    ensures r.area.Some? ==> r.area == f.area
    ensures r.skill.Some? ==> r.skill == f.skill
    ensures r.q.Some? ==> r.q == f.q
  {
    PC.Filters(
      if PC.Given(f.q) then f.q else None,
      if PC.Given(f.category) then f.category else None,
      if PC.Given(f.area) then f.area else None,
      if PC.Given(f.skill) then f.skill else None)
  }

  /** The query built field by field selects exactly what the inline query of the controller selects. */
  lemma BuildQueryAgrees(p: Profile, f: PC.Filters, search: (Profile, string) -> bool)
    ensures PC.FiltersMatch(p, BuildQuery(f), search) <==> PC.FiltersMatch(p, f, search)
  {
  }

  /**
   * The verified rule of `GET /api/providers`: '0' selects unverified
   * profiles, an admin asking for 'all' gets no condition, and every other
   * request (no parameter included) selects verified profiles.
   */
  function VerifiedRule(caller: Option<Caller>, verified: Option<string>): (r: Option<bool>)
    ensures verified == Some("0") ==> r == Some(false)
    ensures r.None? <==> IsAdmin(caller) && verified == Some("all")
    ensures verified != Some("0") && r.Some? ==> r == Some(true)
  {
    if verified == Some("0") then Some(false)
    else if IsAdmin(caller) && verified == Some("all") then None
    else Some(true)
  }

  /** `GET /api/providers`. */
  function ListPublic(profiles: map<Id, Profile>, n: nat, caller: Option<Caller>, verified: Option<string>,
                      f: PC.Filters, search: (Profile, string) -> bool): (r: seq<Id>)
    ensures forall id :: id in r <==>
      id < n && id in profiles && PC.FiltersMatch(profiles[id], f, search)
      && PC.Matches(profiles[id], VerifiedRule(caller, verified), f, search)
    ensures Sorting.Distinct(r)
    ensures forall i, j :: 0 <= i < j < |r| ==> Sorting.LexGe(PC.PublicKey(profiles[r[i]]), PC.PublicKey(profiles[r[j]]))
  {
    var q := BuildQuery(f);
    assert forall p :: PC.FiltersMatch(p, q, search) <==> PC.FiltersMatch(p, f, search);
    PC.Listing(profiles, n, VerifiedRule(caller, verified), q, search, PC.PublicKey)
  }

  /** Only an admin asking for 'all' sees verified and unverified profiles in one list. */
  lemma {:induction false} MixedListOnlyForAdmins(profiles: map<Id, Profile>, n: nat, caller: Option<Caller>,
                                                  verified: Option<string>, f: PC.Filters,
                                                  search: (Profile, string) -> bool, a: nat, b: nat)
    requires a in ListPublic(profiles, n, caller, verified, f, search)
    requires b in ListPublic(profiles, n, caller, verified, f, search)
    requires profiles[a].isVerified && !profiles[b].isVerified
    ensures IsAdmin(caller) && verified == Some("all")
  {
    var r := VerifiedRule(caller, verified);
    assert PC.Matches(profiles[a], r, f, search) && PC.Matches(profiles[b], r, f, search);
  }

  /**
   * `GET /api/providers/admin/list`: 403 for non-admins, otherwise every
   * matching profile, verified or not, once each and in the same
   * (isVerified, rating, updatedAt) descending order as the public listing.
   */
  function AdminListRoute(caller: Caller, profiles: map<Id, Profile>, n: nat, f: PC.Filters,
                          search: (Profile, string) -> bool): (r: Result<seq<Id>>)
    ensures r.Err? <==> caller.role != AdminRole
    ensures r.Err? ==> r.error == Forbidden
    ensures r.Ok? ==> forall id :: id in r.value <==> id < n && id in profiles && PC.FiltersMatch(profiles[id], f, search)
    ensures r.Ok? ==> Sorting.Distinct(r.value)
    ensures r.Ok? ==> forall i, j :: 0 <= i < j < |r.value| ==>
      Sorting.LexGe(PC.PublicKey(profiles[r.value[i]]), PC.PublicKey(profiles[r.value[j]]))
  {
    if caller.role != AdminRole then Err(Forbidden)
    else
      var q := BuildQuery(f);
      assert forall p :: PC.FiltersMatch(p, q, search) <==> PC.FiltersMatch(p, f, search);
      Ok(PC.Listing(profiles, n, None, q, search, PC.PublicKey))
  }

  /** The body of `POST /api/providers/apply`; a missing field is Undefined. */
  datatype ApplyBody = ApplyBody(
    name: Value, fullName: Value, email: Value, password: Value,
    phone: Value, city: Value, bio: Value,
    skills: Value, categories: Value, serviceAreas: Value,
    experience: Value, experienceYears: Value)

  /** A destructuring default: applies only when the field is undefined. */
  function Default(v: Value, d: Value): (r: Value)
    ensures r == if v.Undefined? then d else v
  {
    if v.Undefined? then d else v
  }

  /**
   * `(fullName || name || '').trim()`: the first truthy of the two, trimmed;
   * a truthy value that is not a string has no `trim` and the handler fails (400).
   */
  function DisplayName(body: ApplyBody): (r: Result<string>)
    ensures r.Ok? ==> Trimmed(r.value)
    ensures Truthy(body.fullName) ==> (r.Ok? <==> body.fullName.Str?)
    ensures Truthy(body.fullName) && body.fullName.Str? ==> r == Ok(Trim(body.fullName.s))
    ensures !Truthy(body.fullName) && Truthy(body.name) ==> (r.Ok? <==> body.name.Str?)
    ensures !Truthy(body.fullName) && Truthy(body.name) && body.name.Str? ==> r == Ok(Trim(body.name.s))
    ensures !Truthy(body.fullName) && !Truthy(body.name) ==> r == Ok("")
  {
    var v := Or(body.fullName, Or(body.name, Str("")));
    if v.Str? then Ok(Trim(v.s)) else Err(BadRequest)
  }

  /**
   * `Number(experienceYears ?? experience ?? 0) || 0`: the first non-nullish
   * of the two as a number, 0 when it is not numeric.
   */
  function YearsExperience(body: ApplyBody): (r: Number)
    ensures !r.NaN?
    ensures !Nullish(body.experienceYears) ==> r == NumberOrZero(body.experienceYears)
    ensures Nullish(body.experienceYears) && !Nullish(body.experience) ==> r == NumberOrZero(body.experience)
    ensures Nullish(body.experienceYears) && Nullish(body.experience) ==> r == Finite(0)
  {
    NumberOrZero(Coalesce(body.experienceYears, Coalesce(body.experience, Num(0))))
  }

  /** The document's fields left out when undefined, as Mongoose leaves them unset. */
  function Fields(pairs: seq<(string, Value)>): (r: map<string, Value>)
    ensures forall k :: k in r ==> exists i :: 0 <= i < |pairs| && pairs[i].0 == k && pairs[i].1 == r[k] && !pairs[i].1.Undefined?
    ensures forall i :: 0 <= i < |pairs| && !pairs[i].1.Undefined? ==> pairs[i].0 in r
  {
    if pairs == [] then map[]
    else
      var rest := Fields(pairs[1..]);
      if pairs[0].1.Undefined? then rest else rest[pairs[0].0 := pairs[0].1]
  }

  /**
   * The profile document `apply` creates. `city` and `yearsExperience` are not
   * schema paths and are dropped on create.
   */
  function ApplyContent(body: ApplyBody, displayName: string): (r: map<string, Value>)
  {
    Fields([
      ("displayName", Str(displayName)),
      ("phone", body.phone),
      ("city", body.city),
      ("bio", Default(body.bio, Str(""))),
      ("categories", Arr(NormalizeList(Default(body.categories, Arr([]))))),
      ("skills", Arr(NormalizeList(Default(body.skills, Arr([]))))),
      ("serviceAreas", Arr(NormalizeList(Default(body.serviceAreas, Arr([]))))),
      ("yearsExperience", match YearsExperience(body) case Finite(i) => Num(i) case _ => Undefined)])
  }

  /** The applicant's (trimmed) display name is stored as it is, whatever else the body holds. */
  lemma ApplyContentName(body: ApplyBody, displayName: string)
    requires Trimmed(displayName)
    ensures var c := CastContent(ApplyContent(body, displayName));
      c.Ok? ==> "displayName" in c.value && c.value["displayName"] == Str(displayName)
  {
    var a := ApplyContent(body, displayName);
    assert "displayName" in a && a["displayName"] == Str(displayName);
    ExamplePaths();
    TrimOfTrimmed(displayName);
    assert CastPath("displayName", Str(displayName)) == Ok(Str(displayName));
  }

  /** What `apply` writes: the new user, then (when it validates) the new profile. */
  datatype Applied = Applied(user: U.User, profile: Result<Profile>)

  /**
   * A request field as `findOne` and `create` see it after the String cast:
   * its text, or None when the cast fails (the catch then answers 400).
   */
  function FieldText(v: Value): (r: Option<string>)
    ensures r.Some? <==> CastString(v).Ok? && CastString(v).value.Str?
    ensures r.Some? ==> CastString(v) == Ok(Str(r.value))
    ensures v.Str? ==> r == Some(v.s)
  {
    match CastString(v)
    case Ok(Str(s)) => Some(s)
    case _ => None
  }

  /**
   * The two creates once the guards have passed: 409 when the email is
   * taken; 400 when the user fails validation; otherwise the user and the
   * outcome of creating the profile.
   */
  function Register(users: map<Id, U.User>, body: ApplyBody, displayName: string, email: string, password: string,
                    userId: Id, now: Timestamp): (r: Result<Applied>)
    ensures r == Err(Conflict) <==> exists k :: k in users && users[k].email == Lower(email)
    ensures r.Err? && r.error != Conflict ==> r.error == BadRequest
    ensures r.Ok? <==> ((forall k :: k in users ==> users[k].email != Lower(email))
      && displayName != "" && email != "" && |password| >= U.MinPassword)
    ensures r.Ok? ==> var u := r.value.user;
      U.ValidUser(u) && u.role == ProviderRole && u.providerStatus == Some(U.PsPending)
      && u.name == displayName && u.email == Lower(email) && u.password == password
    ensures r.Ok? ==> r.value.profile == CreateProfile(userId, ApplyContent(body, displayName), false, None, now)
  {
    if exists k :: k in users && users[k].email == Lower(email) then Err(Conflict)
    else
      match U.CreateUser(displayName, email, password, ProviderRole, Some(U.PsPending))
      case Err(e) => Err(e)
      case Ok(u) => Ok(Applied(u, CreateProfile(userId, ApplyContent(body, displayName), false, None, now)))
  }

  /** The guards of `apply`: a truthy display name, email and password, all three texts after the String cast. */
  predicate ApplyGuards(body: ApplyBody) {
    DisplayName(body).Ok? && DisplayName(body).value != "" && Truthy(body.email) && Truthy(body.password)
    && FieldText(body.email).Some? && FieldText(body.password).Some?
  }

  /**
   * `POST /api/providers/apply` up to the two creates: 400 without a display
   * name, email and password (truthiness only); 400 when the String cast of
   * the email or the password fails; 409 when the email's text is taken (the
   * lower-case setter also applies to the query); 400 when the user fails
   * validation. The user is created before the profile, so a profile that
   * fails validation leaves the user in place and answers 400.
   */
  function ApplyDecision(users: map<Id, U.User>, body: ApplyBody, userId: Id, now: Timestamp): (r: Result<Applied>)
    ensures !ApplyGuards(body) ==> r == Err(BadRequest)
    ensures ApplyGuards(body) ==> r == Register(users, body, DisplayName(body).value,
      FieldText(body.email).value, FieldText(body.password).value, userId, now)
    ensures r.Ok? ==> r.value.profile.Ok? ==> var p := r.value.profile.value;
      ValidProfile(p) && p.user == userId && !p.isVerified && p.ratingAvg == 0 && p.ratingCount == 0
      && CastContent(ApplyContent(body, DisplayName(body).value)) == Ok(p.content)
  {
    match DisplayName(body)
    case Err(e) => Err(e)
    case Ok(displayName) =>
      if displayName == "" || !Truthy(body.email) || !Truthy(body.password) then Err(BadRequest)
      else
        var email, password := FieldText(body.email), FieldText(body.password);
        if email.None? || password.None? then Err(BadRequest)
        else Register(users, body, displayName, email.value, password.value, userId, now)
  }

  /** A number sent as the password is accepted and stored as its decimal text, as the String cast gives it. */
  lemma NumericPasswordStored(users: map<Id, U.User>, body: ApplyBody, userId: Id, now: Timestamp)
    requires DisplayName(body).Ok? && DisplayName(body).value != ""
    requires body.email.Str? && body.email.s != "" && forall k :: k in users ==> users[k].email != Lower(body.email.s)
    requires body.password.Num? && body.password.n != 0 && |ToStr(body.password)| >= U.MinPassword
    ensures var r := ApplyDecision(users, body, userId, now); r.Ok? && r.value.user.password == ToStr(body.password)
  {
    assert FieldText(body.password) == Some(ToStr(body.password));
    assert ApplyGuards(body);
  }

  /** An email already registered, in any letter case, is refused with 409. */
  lemma {:induction false} TakenEmailRefused(users: map<Id, U.User>, body: ApplyBody, userId: Id, now: Timestamp, k: Id)
    requires k in users && body.email.Str? && users[k].email == Lower(body.email.s)
    requires DisplayName(body).Ok? && DisplayName(body).value != "" && body.email.s != ""
    requires body.password.Str? && body.password.s != ""
    ensures ApplyDecision(users, body, userId, now) == Err(Conflict)
  {
    assert Truthy(body.email) && Truthy(body.password);
    assert exists j :: j in users && users[j].email == Lower(body.email.s);
  }

  /** Adding a valid user under a fresh id, with an email nobody has, keeps the collection valid. */
  lemma AddUser(users: map<Id, U.User>, n: nat, u: U.User)
    requires UsersOk(users, n) && U.ValidUser(u)
    requires forall k :: k in users ==> users[k].email != u.email
    ensures UsersOk(users[n := u], n + 1)
  {
    var m := users[n := u];
    forall k | k in m ensures U.ValidUser(m[k]) {
      if k != n {
        assert m[k] == users[k];
      }
    }
  }

  /** Stores a new user under the next id. */
  method AddApplicant(db: Db, u: U.User) returns (uid: Id)
    requires db.Valid() && U.ValidUser(u)
    requires forall k :: k in db.users ==> db.users[k].email != u.email
    modifies db`users, db`nextId
    ensures db.Valid()
    ensures uid == old(db.nextId) && db.nextId == uid + 1
    ensures db.users == old(db.users)[uid := u]
  {
    AddUser(db.users, db.nextId, u);
    uid := db.NewId();
    db.users := db.users[uid := u];
  }

  /**
   * Stores what `apply` made: the user first; then its profile when it
   * validated and the unique index on user lets it in, and otherwise a 400
   * with the user left in place.
   */
  method StoreApplied(db: Db, a: Applied) returns (r: Result<Id>)
    requires db.Valid() && U.ValidUser(a.user)
    requires forall k :: k in db.users ==> db.users[k].email != a.user.email
    requires a.profile.Ok? ==> ValidProfile(a.profile.value) && a.profile.value.user == db.nextId
    modifies db`users, db`profiles, db`nextId
    ensures db.Valid()
    ensures db.users == old(db.users)[old(db.nextId) := a.user]
    ensures r.Ok? ==>
      r.value == old(db.nextId) && a.profile.Ok?
      && db.profiles == old(db.profiles)[old(db.nextId) + 1 := a.profile.value]
    ensures r.Err? ==> r.error == BadRequest && db.profiles == old(db.profiles)
    ensures a.profile.Ok? && (forall k :: k in old(db.profiles) ==> old(db.profiles)[k].user != old(db.nextId)) ==> r.Ok?
  {
    var uid := AddApplicant(db, a.user);
    if a.profile.Err? || PC.ProfileOf(db.profiles, db.nextId, uid).Some? {
      return Err(BadRequest);
    }
    var pid := PC.ApplyUpsert(db, PC.Insert(a.profile.value));
    return Ok(uid);
  }

  /** `POST /api/providers/apply`. */
  method Apply(db: Db, body: ApplyBody, now: Timestamp) returns (r: Result<Id>)
    requires db.Valid()
    modifies db`users, db`profiles, db`nextId
    ensures db.Valid()
    ensures var d := ApplyDecision(old(db.users), body, old(db.nextId), now);
      (d.Err? ==> r == Err(d.error) && db.users == old(db.users) && db.profiles == old(db.profiles))
      && (d.Ok? ==> db.users == old(db.users)[old(db.nextId) := d.value.user])
      && (d.Ok? && r.Ok? ==>
            r.value == old(db.nextId) && d.value.profile.Ok?
            && db.profiles == old(db.profiles)[old(db.nextId) + 1 := d.value.profile.value])
      && (d.Ok? && r.Err? ==> r.error == BadRequest && db.profiles == old(db.profiles))
  {
    var d := ApplyDecision(db.users, body, db.nextId, now);
    if d.Err? {
      return Err(d.error);
    }
    r := StoreApplied(db, d.value);
  }

  /** `Boolean(req.body?.verified)`: any truthy value verifies, the string "false" included. */
  lemma StringFalseVerifies()
    ensures Truthy(Str("false"))
  {
  }

  /**
   * `PUT /api/providers/admin/:userId/verify`: 403 for non-admins, 404
   * without a profile; otherwise the profile's flag becomes the truthiness of
   * `verified` (verifiedAt is not touched).
   */
  function VerifyRoute(profiles: map<Id, Profile>, n: nat, caller: Caller, verified: Value,
                       userId: Id, now: Timestamp): (r: Result<(Id, Profile)>)
    requires Below(profiles, n)
    ensures caller.role != AdminRole ==> r == Err(Forbidden)
    ensures caller.role == AdminRole ==> (r == Err(NotFound) <==> forall k :: k in profiles ==> profiles[k].user != userId)
    ensures caller.role == AdminRole && (exists k :: k in profiles && profiles[k].user == userId) ==> r.Ok?
    ensures r.Ok? ==> r.value.0 in profiles && profiles[r.value.0].user == userId
    ensures r.Ok? ==> r.value.1 == profiles[r.value.0].(isVerified := Truthy(verified), updatedAt := now)
  {
    if caller.role != AdminRole then Err(Forbidden)
    else
      match PC.ProfileOf(profiles, n, userId)
      case None => Err(NotFound)
      case Some(k) => Ok((k, profiles[k].(isVerified := Truthy(verified), updatedAt := now)))
  }

  /** The user update that follows: provider role, approved when verified, back to pending when not. */
  function VerifiedUser(u: U.User, verified: bool): (r: U.User)
    ensures r.role == ProviderRole
    ensures r.providerStatus == Some(if verified then U.PsApproved else U.PsPending)
    ensures r.name == u.name && r.email == u.email && r.password == u.password
  {
    u.(providerStatus := Some(if verified then U.PsApproved else U.PsPending), role := ProviderRole)
  }

  /** Rewriting a user without touching the email keeps the collection valid. */
  lemma KeepUsers(users: map<Id, U.User>, n: nat, k: Id, u: U.User)
    requires UsersOk(users, n) && k in users && U.ValidUser(u) && u.email == users[k].email
    ensures UsersOk(users[k := u], n)
  {
    var m := users[k := u];
    forall a, b | a in m && b in m && a != b ensures m[a].email != m[b].email {
      assert m[a].email == users[a].email;
      assert m[b].email == users[b].email;
    }
  }

  /** Writes the user update, if the user exists (`findByIdAndUpdate` matches nothing otherwise). */
  method UpdateUser(db: Db, userId: Id, verified: bool)
    requires db.Valid()
    modifies db`users
    ensures db.Valid()
    ensures db.users == if userId in old(db.users) then old(db.users)[userId := VerifiedUser(old(db.users)[userId], verified)] else old(db.users)
  {
    if userId in db.users {
      KeepUsers(db.users, db.nextId, userId, VerifiedUser(db.users[userId], verified));
      db.users := db.users[userId := VerifiedUser(db.users[userId], verified)];
    }
  }

  /** The verify route: the profile first, then the user; a 404 changes neither. */
  method Verify(db: Db, caller: Caller, verified: Value, userId: Id, now: Timestamp) returns (r: Result<Id>)
    requires db.Valid()
    modifies db`profiles, db`users
    ensures db.Valid()
    ensures var d := VerifyRoute(old(db.profiles), db.nextId, caller, verified, userId, now);
      (d.Err? ==> r == Err(d.error) && db.profiles == old(db.profiles) && db.users == old(db.users))
      && (d.Ok? ==> r == Ok(d.value.0) && db.profiles == old(db.profiles)[d.value.0 := d.value.1])
    ensures r.Ok? ==> db.users == if userId in old(db.users)
      then old(db.users)[userId := VerifiedUser(old(db.users)[userId], Truthy(verified))] else old(db.users)
  {
    var d := VerifyRoute(db.profiles, db.nextId, caller, verified, userId, now);
    if d.Err? {
      return Err(d.error);
    }
    PC.KeepProfiles(db.profiles, db.nextId, d.value.0, d.value.1);
    db.profiles := db.profiles[d.value.0 := d.value.1];
    UpdateUser(db, userId, Truthy(verified));
    return Ok(d.value.0);
  }

  /** A path segment of a route: a literal, or a `:param`. */
  datatype Segment = Lit(s: string) | Param

  datatype Verb = Get | Post | Put

  datatype Handler = ListRoute | AdminListHandler | ApplyHandler | AdminVerify | LegacyAlias

  datatype Route = Route(verb: Verb, path: seq<Segment>, handler: Handler)

  /** The routes in the order the router declares them. */
  const Routes: seq<Route> := [
    Route(Get, [], ListRoute),
    Route(Get, [Lit("admin"), Lit("list")], AdminListHandler),
    Route(Post, [Lit("apply")], ApplyHandler),
    Route(Put, [Lit("admin"), Param, Lit("verify")], AdminVerify),
    Route(Put, [Param, Lit("verify")], LegacyAlias)]

  predicate PathMatches(pattern: seq<Segment>, url: seq<string>) {
    |pattern| == |url| && forall i :: 0 <= i < |url| && pattern[i].Lit? ==> pattern[i].s == url[i]
  }

  /** The value of the first `:param` segment. */
  function ParamOf(pattern: seq<Segment>, url: seq<string>): Option<string>
    requires |pattern| == |url|
  {
    if pattern == [] then None
    else if pattern[0].Param? then Some(url[0])
    else ParamOf(pattern[1..], url[1..])
  }

  /** Where a request ends up: a handler, or out of the router (the app answers 404). */
  datatype Outcome = Handled(handler: Handler, param: Option<string>) | FellThrough(url: seq<string>)

  /**
   * The router AS WRITTEN: the routes are tried in order from `i`; the alias
   * rewrites the url and calls `next()`, which goes on with the routes after
   * it, not from the first one.
   */
  function Dispatch(verb: Verb, url: seq<string>, i: nat): (r: Outcome)
    requires i <= |Routes|
    decreases |Routes| - i
  {
    if i == |Routes| then FellThrough(url)
    else
      var route := Routes[i];
      if route.verb == verb && PathMatches(route.path, url) then
        var param := ParamOf(route.path, url);
        if route.handler == LegacyAlias then Dispatch(verb, ["admin", param.GetOr(""), "verify"], i + 1)
        else Handled(route.handler, param)
      else Dispatch(verb, url, i + 1)
  }

  /** Every request through the legacy path falls out of the router, so the app answers 404. */
  lemma LegacyAliasNotFound(userId: string)
    ensures Dispatch(Put, [userId, "verify"], 0) == FellThrough(["admin", userId, "verify"])
  {
    assert !PathMatches(Routes[3].path, [userId, "verify"]);
    assert PathMatches(Routes[4].path, [userId, "verify"]);
  }

  /** The admin path itself reaches the verify handler. */
  lemma AdminPathVerifies(userId: string)
    ensures Dispatch(Put, ["admin", userId, "verify"], 0) == Handled(AdminVerify, Some(userId))
  {
    var url := ["admin", userId, "verify"];
    assert PathMatches(Routes[3].path, url);
    assert ParamOf(Routes[3].path, url) == ParamOf(Routes[3].path[1..], url[1..]) == Some(userId);
    assert Dispatch(Put, url, 0) == Dispatch(Put, url, 3);
  }

  /**
   * The router as intended: the rewritten url is dispatched again from the
   * first route (and an alias is followed at most once).
   */
  function DispatchFixed(verb: Verb, url: seq<string>, i: nat, rewritten: bool): (r: Outcome)
    requires i <= |Routes|
    decreases if rewritten then 0 else 1, |Routes| - i
  {
    if i == |Routes| then FellThrough(url)
    else
      var route := Routes[i];
      if route.verb == verb && PathMatches(route.path, url) then
        var param := ParamOf(route.path, url);
        if route.handler != LegacyAlias then Handled(route.handler, param)
        else if rewritten then FellThrough(url)
        else DispatchFixed(verb, ["admin", param.GetOr(""), "verify"], 0, true)
      else DispatchFixed(verb, url, i + 1, rewritten)
  }

  /** With the fix, the legacy path reaches the admin verify handler with the same user id. */
  lemma LegacyAliasFixed(userId: string)
    ensures DispatchFixed(Put, [userId, "verify"], 0, false) == Handled(AdminVerify, Some(userId))
  {
    assert !PathMatches(Routes[3].path, [userId, "verify"]);
    assert PathMatches(Routes[4].path, [userId, "verify"]);
    assert PathMatches(Routes[3].path, ["admin", userId, "verify"]);
  }
}
