/**
 * The User record (backend/models/user.js) with the provider onboarding
 * status the provider routes write.
 */
module UserModel {
  import opened Wrappers
  import opened Strings

  function RoleName(r: Role): string {
    match r
    case UserRole => "user"
    case ProviderRole => "provider"
    case AdminRole => "admin"
  }

  function ParseRole(t: string): (r: Option<Role>)
    ensures r.Some? ==> RoleName(r.value) == t
  {
    if t == "user" then Some(UserRole)
    else if t == "provider" then Some(ProviderRole)
    else if t == "admin" then Some(AdminRole)
    else None
  }

  lemma ParseRoleName(r: Role)
    ensures ParseRole(RoleName(r)) == Some(r)
  {
  }

  datatype ProviderStatus = PsPending | PsApproved | PsRejected

  datatype User = User(
    name: string,
    email: string,
    password: string,
    role: Role,
    providerStatus: Option<ProviderStatus>)

  const MinPassword := 6

  /** name and email required, email stored lower-case, password at least 6 characters. */
  predicate ValidUser(u: User) {
    u.name != "" && u.email != "" && Lower(u.email) == u.email && |u.password| >= MinPassword
  }

  /** The unique index on email. */
  predicate UniqueEmails(users: map<Id, User>) {
    forall a, b :: a in users && b in users && a != b ==> users[a].email != users[b].email
  }

  /**
   * `User.create`: the `lowercase` setter runs before the validators; a
   * document that fails them is not stored.
   */
  function CreateUser(name: string, email: string, password: string, role: Role,
                      providerStatus: Option<ProviderStatus>): (r: Result<User>)
    ensures r.Ok? <==> name != "" && email != "" && |password| >= MinPassword
    ensures r.Ok? ==> ValidUser(r.value) && r.value.email == Lower(email)
    ensures r.Ok? ==> r.value.role == role && r.value.providerStatus == providerStatus
    ensures r.Ok? ==> r.value.name == name && r.value.password == password
    ensures r.Err? ==> r.error == BadRequest
  {
    var u := User(name, Lower(email), password, role, providerStatus);
    LowerIdempotent(email);
    if name != "" && email != "" && |password| >= MinPassword then Ok(u) else Err(BadRequest)
  }
}
