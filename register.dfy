/** POST /api/auth/register: self-registration through the authentication
    provider. The checks run in a fixed order and the first failure answers. */
module Register {
  import opened Common

  /** The JSON body's fields (string values; a field that is not a string is out of scope). */
  datatype Body = Body(name: Option<string>, email: Option<string>, password: Option<string>, role: Option<string>)

  /** What `supabase.auth.signUp` answers: an error with its message, no user, or the new user's id. */
  datatype SignUpResult = ProviderError(message: string) | NoUser | SignedUp(id: Id)

  /** The response body's user: no password field exists in it. */
  datatype RegisteredUser = RegisteredUser(id: Id, name: string, email: string, role: string)

  /** `['STUDENT', 'TEACHER'].includes(role)`: ADMIN cannot be chosen. */
  predicate SelfServiceRole(role: string)
  {
    role == "STUDENT" || role == "TEACHER"
  }

  function CountEmail(emails: seq<string>, email: string): (n: nat)
    ensures n <= |emails|
    ensures n == 0 <==> email !in emails
    ensures n == multiset(emails)[email]
  {
    if emails == [] then 0
    else
      assert emails == emails[..|emails| - 1] + [emails[|emails| - 1]];
      CountEmail(emails[..|emails| - 1], email) + (if emails[|emails| - 1] == email then 1 else 0)
  }

  /** `.eq('email', email).single()` yields a row only when exactly one row matches. */
  predicate Existing(emails: seq<string>, email: string)
  {
    CountEmail(emails, email) == 1
  }

  /** The handler. `emails` is the email column of the users table; `signUp` is the
      provider's answer, consulted only once every check has passed. */
  function Register(body: Body, emails: seq<string>, signUp: SignUpResult): (r: Response<RegisteredUser>)
    ensures !Present(body.name) || !Present(body.email) || !Present(body.password) || !Present(body.role) ==>
              r == Err(BAD_REQUEST, "Missing required fields")
    ensures Present(body.name) && Present(body.email) && Present(body.password) && Present(body.role) ==>
              (!SelfServiceRole(body.role.value) ==> r == Err(BAD_REQUEST, "Invalid role"))
              && (SelfServiceRole(body.role.value) && Existing(emails, body.email.value) ==>
                    r == Err(BAD_REQUEST, "Email already registered"))
              && (SelfServiceRole(body.role.value) && !Existing(emails, body.email.value) ==>
                    r == match signUp
                           case ProviderError(m) => Err(BAD_REQUEST, m)
                           case NoUser => Err(SERVER_ERROR, "Failed to create user")
                           case SignedUp(id) => Ok(CREATED, RegisteredUser(id, body.name.value, body.email.value, body.role.value)))
    ensures r.Err? ==> r.status == BAD_REQUEST || r.status == SERVER_ERROR
    ensures r.Ok? ==> r.status == CREATED && r.value.role != "ADMIN"
  {
    if !Present(body.name) || !Present(body.email) || !Present(body.password) || !Present(body.role) then
      Err(BAD_REQUEST, "Missing required fields")
    else if !SelfServiceRole(body.role.value) then Err(BAD_REQUEST, "Invalid role")
    else if Existing(emails, body.email.value) then Err(BAD_REQUEST, "Email already registered")
    else match signUp
      case ProviderError(message) => Err(BAD_REQUEST, message)
      case NoUser => Err(SERVER_ERROR, "Failed to create user")
      case SignedUp(id) => Ok(CREATED, RegisteredUser(id, body.name.value, body.email.value, body.role.value))
  }

  /** A valid request for an unregistered email succeeds exactly when the provider
      creates the user; the provider's error message is passed through. */
  lemma ProviderDecides(body: Body, emails: seq<string>, signUp: SignUpResult)
    requires Present(body.name) && Present(body.email) && Present(body.password) && Present(body.role)
    requires SelfServiceRole(body.role.value) && !Existing(emails, body.email.value)
    ensures Register(body, emails, signUp).Ok? <==> signUp.SignedUp?
    ensures signUp.ProviderError? ==> Register(body, emails, signUp) == Err(BAD_REQUEST, signUp.message)
  {
  }

  /** A registered email is refused before the provider is asked, whatever it would answer. */
  lemma RegisteredEmailRefused(body: Body, emails: seq<string>, s1: SignUpResult, s2: SignUpResult)
    requires Present(body.name) && Present(body.email) && Present(body.password) && Present(body.role)
    requires SelfServiceRole(body.role.value)
    requires Existing(emails, body.email.value)
    ensures Register(body, emails, s1) == Register(body, emails, s2) == Err(BAD_REQUEST, "Email already registered")
  {
  }

  /** `.single()` finds nothing when two rows match, so an email stored twice is
      not refused and the provider decides. */
  lemma DuplicatedEmailReachesProvider(body: Body, signUp: SignUpResult)
    requires Present(body.name) && Present(body.email) && Present(body.password) && Present(body.role)
    requires SelfServiceRole(body.role.value)
    ensures Register(body, [body.email.value, body.email.value], signUp).Ok? <==> signUp.SignedUp?
  {
    var e := body.email.value;
    assert [e, e][..1] == [e];
    assert [e][..0] == [];
  }
}
