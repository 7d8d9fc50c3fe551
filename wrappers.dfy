/** Option and Result types, and the identities every collection shares. */
module Wrappers {

  datatype Option<T> = None | Some(value: T) {
    function GetOr(default: T): T {
      match this
      case Some(v) => v
      case None => default
    }
  }

  /** The HTTP error statuses the handlers answer with. */
  datatype HttpError = BadRequest | Forbidden | NotFound | Conflict {
    function Code(): int {
      match this
      case BadRequest => 400
      case Forbidden => 403
      case NotFound => 404
      case Conflict => 409
    }
  }

  /** A handler's outcome: the JSON record it sends, or an error status. */
  datatype Result<T> = Ok(value: T) | Err(error: HttpError)

  /** Record ids (Mongo ObjectIds); every collection shares one id space. */
  type Id = nat

  /** Opaque clock values (Date objects, milliseconds). */
  type Timestamp = int

  datatype Role = UserRole | ProviderRole | AdminRole

  /** The authenticated caller: `req.user` reduced to its id and role. */
  datatype Caller = Caller(id: Id, role: Role)

  predicate IsAdmin(c: Option<Caller>) {
    c.Some? && c.value.role == AdminRole
  }
}
