/** The User schema: an optional name, a required unique email, a required
    password (stored hashed by the callers) and a role from a closed enumeration
    that defaults to STUDENT. */
module UserModel {
  import opened Common
  import Seqs

  datatype User = User(id: Id, name: Option<string>, email: string, password: string, role: Role)

  /** A document as a caller hands it to `User.create`, before validation. */
  datatype UserInput = UserInput(name: Option<string>, email: Option<string>, password: Option<string>, role: Option<string>)

  datatype StoreError = Missing(path: string) | NotInEnum(path: string) | DuplicateKey(path: string)

  datatype Created<T> = Created(value: T) | Rejected(error: StoreError)

  function Email(u: User): string { u.email }

  /** The unique index on email. */
  predicate EmailsUnique(users: seq<User>)
  {
    Seqs.UniqueBy(users, Email)
  }

  /** `User.findOne({ email })`. */
  function FindByEmail(users: seq<User>, email: string): (r: Option<User>)
    ensures r.Some? ==> r.value in users && r.value.email == email
    ensures r.None? ==> forall u :: u in users ==> u.email != email
  {
    var i := Seqs.FindBy(users, email, Email);
    if i < 0 then None
    else Some(users[i])
  }

  /** `findUnique({ where: { email: session.user.email } })` behind the session check:
      the signed-in user, or nothing when there is no session or no such user. */
  function SessionUser(users: seq<User>, sessionEmail: Option<string>): (r: Option<User>)
    ensures r.Some? ==> Authenticated(sessionEmail) && r.value in users && r.value.email == sessionEmail.value
    ensures r.None? ==> !Authenticated(sessionEmail) || forall u :: u in users ==> u.email != sessionEmail.value
  {
    if Authenticated(sessionEmail) then FindByEmail(users, sessionEmail.value) else None
  }

  /** Schema validation: required strings must be present and non-empty, a role
      outside the enumeration is refused, and an omitted role becomes STUDENT. */
  function Validate(id: Id, input: UserInput): (r: Created<User>)
    ensures r.Created? <==> Present(input.email) && Present(input.password)
                            && (input.role.None? || ParseRole(input.role.value).Some?)
    ensures r.Created? ==> r.value.email == input.email.value && r.value.password == input.password.value
                           && r.value.name == input.name && r.value.id == id
    ensures r.Created? && input.role.None? ==> r.value.role == Student
    ensures r.Created? && input.role.Some? ==> RoleName(r.value.role) == input.role.value
  {
    if !Present(input.email) then Rejected(Missing("email"))
    else if !Present(input.password) then Rejected(Missing("password"))
    else
      var role := if input.role.None? then Some(Student) else ParseRole(input.role.value);
      if role.None? then Rejected(NotInEnum("role"))
      else Created(User(id, input.name, input.email.value, input.password.value, role.value))
  }

  /** `User.create(input)`: validation, then the unique email index. On any failure
      the collection is returned unchanged. */
  function Create(users: seq<User>, id: Id, input: UserInput): (r: (seq<User>, Created<User>))
    ensures r.1.Created? ==> r.0 == users + [r.1.value]
    ensures r.1.Rejected? ==> r.0 == users
    ensures r.1.Created? ==> forall u :: u in users ==> u.email != r.1.value.email
    ensures Validate(id, input).Created? && FindByEmail(users, input.email.value).Some? ==> r.1 == Rejected(DuplicateKey("email"))
    ensures EmailsUnique(users) ==> EmailsUnique(r.0)
    ensures Validate(id, input).Rejected? ==> r == (users, Validate(id, input))
    ensures Validate(id, input).Created? && FindByEmail(users, input.email.value).None? ==>
              r == (users + [Validate(id, input).value], Validate(id, input))
  {
    var v := Validate(id, input);
    if v.Rejected? then (users, v)
    else
      var (store, ok) := Seqs.InsertUnique(users, v.value, Email);
      if ok then (store, v) else (users, Rejected(DuplicateKey("email")))
  }

  /** Every stored role belongs to the enumeration: it reads back as itself. */
  lemma RoleClosed(u: User)
    ensures ParseRole(RoleName(u.role)) == Some(u.role)
  {
    ParseRoleName(u.role);
  }
}
