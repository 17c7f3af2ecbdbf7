/** Shared vocabulary of the MathMaster request handlers: optional values,
    HTTP-style responses, user roles and the session test every handler starts with. */
module Common {

  datatype Option<+T> = None | Some(value: T)

  /** Identifiers of stored documents (Mongo ObjectIds, Prisma ids) as strings. */
  type Id = string

  /** The closed role enumeration of the user schema. */
  datatype Role = Student | Teacher | Admin

  /** The role names as they travel in request bodies and sessions. */
  function RoleName(r: Role): string
  {
    match r
    case Student => "STUDENT"
    case Teacher => "TEACHER"
    case Admin => "ADMIN"
  }

  /** Reads a role name back; anything outside the enumeration is None. */
  function ParseRole(s: string): (r: Option<Role>)
    ensures r.Some? ==> RoleName(r.value) == s
    ensures r.None? ==> s != "STUDENT" && s != "TEACHER" && s != "ADMIN"
  {
    if s == "STUDENT" then Some(Student)
    else if s == "TEACHER" then Some(Teacher)
    else if s == "ADMIN" then Some(Admin)
    else None
  }

  lemma ParseRoleName(r: Role)
    ensures ParseRole(RoleName(r)) == Some(r)
  {
  }

  const OK_STATUS := 200
  const CREATED := 201
  const BAD_REQUEST := 400
  const UNAUTHORIZED := 401
  const FORBIDDEN := 403
  const NOT_FOUND := 404
  const SERVER_ERROR := 500

  /** What a route handler returns: a JSON body with a status, or a `{ message }` error. */
  datatype Response<+T> =
    | Ok(status: int, value: T)
    | Err(status: int, message: string)

  /** A JavaScript string is falsy exactly when it is absent or empty. */
  predicate Present(s: Option<string>)
  {
    s.Some? && s.value != ""
  }

  /** `session?.user?.email` is truthy: the handler has an authenticated principal. */
  predicate Authenticated(sessionEmail: Option<string>)
  {
    Present(sessionEmail)
  }

  /** `name || fallback`: the name when it is a non-empty string, the fallback otherwise. */
  function NameOr(name: Option<string>, fallback: string): (r: string)
    ensures Present(name) ==> r == name.value
    ensures !Present(name) ==> r == fallback
  {
    if name.Some? && name.value != "" then name.value else fallback
  }

  /** How a `fetch` ends: a body from an ok response, a response that is not ok,
      or a thrown value (an `Error` with its message, or something else). */
  datatype FetchOutcome<+T> = Received(value: T) | NotOk | Thrown(message: Option<string>)

  /** The message the catch block stores: a non-ok response throws `notOk`, an
      `Error` keeps its own message, anything else gives `fallback`. */
  function FailureMessage<T>(o: FetchOutcome<T>, notOk: string, fallback: string): (m: string)
    requires !o.Received?
    ensures o.NotOk? ==> m == notOk
    ensures o.Thrown? && o.message.Some? ==> m == o.message.value
    ensures o.Thrown? && o.message.None? ==> m == fallback
  {
    match o
    case NotOk => notOk
    case Thrown(msg) => if msg.Some? then msg.value else fallback
  }
}
