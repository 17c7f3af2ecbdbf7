/** The credentials provider's `authorize` and the `jwt` and `session` callbacks.
    Tokens and sessions are JavaScript objects, modelled as maps from field names
    to values; a spread `{ ...a, k: v }` is a map update. */
module Auth {
  import opened Common
  import UserModel

  datatype JsValue = Undefined | Null | Str(s: string) | Obj(fields: map<string, JsValue>)

  type Record = map<string, JsValue>

  /** `r.k`: a missing field reads as `undefined`. */
  function Get(r: Record, k: string): JsValue
  {
    if k in r then r[k] else Undefined
  }

  datatype Credentials = Credentials(email: Option<string>, password: Option<string>)

  /** What `authorize` returns on success. */
  datatype AuthUser = AuthUser(id: Id, email: string, name: Option<string>, role: Role)

  datatype AuthResult = Authorized(user: AuthUser) | Rejected(message: string)

  /** `authorize(credentials)`. `compare` stands for `bcrypt.compare(plain, hashed)`.
      Every failure throws the same error, so a caller cannot tell which check failed. */
  function Authorize(credentials: Option<Credentials>, users: seq<UserModel.User>, compare: (string, string) -> bool)
    : (r: AuthResult)
    ensures r.Rejected? ==> r.message == "Invalid credentials"
    ensures r.Authorized? <==>
              credentials.Some? && Present(credentials.value.email) && Present(credentials.value.password)
              && UserModel.FindByEmail(users, credentials.value.email.value).Some?
              && compare(credentials.value.password.value, UserModel.FindByEmail(users, credentials.value.email.value).value.password)
    ensures r.Authorized? ==>
              var u := UserModel.FindByEmail(users, credentials.value.email.value).value;
              u in users && r.user == AuthUser(u.id, u.email, u.name, u.role) && u.email == credentials.value.email.value
  {
    if credentials.None? || !Present(credentials.value.email) || !Present(credentials.value.password) then
      Rejected("Invalid credentials")
    else
      var user := UserModel.FindByEmail(users, credentials.value.email.value);
      if user.None? then Rejected("Invalid credentials")
      else if !compare(credentials.value.password.value, user.value.password) then Rejected("Invalid credentials")
      else Authorized(AuthUser(user.value.id, user.value.email, user.value.name, user.value.role))
  }

  /** `jwt({ token, user })`: on sign-in the token gains the user's id and role;
      later calls (no user) return it untouched. */
  function Jwt(token: Record, user: Option<AuthUser>): (r: Record)
    ensures user.None? ==> r == token
    ensures user.Some? ==> r.Keys == token.Keys + {"id", "role"}
    ensures user.Some? ==> r["id"] == Str(user.value.id) && r["role"] == Str(RoleName(user.value.role))
    ensures forall k :: k in token && k != "id" && k != "role" ==> k in r && r[k] == token[k]
  {
    if user.Some? then token["id" := Str(user.value.id)]["role" := Str(RoleName(user.value.role))]
    else token
  }

  /** The fields of `session.user` as a spread sees them: none unless it is an object. */
  function UserFields(session: Record): Record
  {
    if "user" in session && session["user"].Obj? then session["user"].fields else map[]
  }

  /** `session({ session, token })`: `session.user` gains the token's id and role
      (possibly undefined); every other field of the session and of its user stays. */
  function Session(session: Record, token: Record): (r: Record)
    ensures r.Keys == session.Keys + {"user"}
    ensures forall k :: k in session && k != "user" ==> r[k] == session[k]
    ensures r["user"].Obj?
    ensures r["user"].fields.Keys == UserFields(session).Keys + {"id", "role"}
    ensures r["user"].fields["id"] == Get(token, "id") && r["user"].fields["role"] == Get(token, "role")
    ensures forall k :: k in UserFields(session) && k != "id" && k != "role" ==>
              r["user"].fields[k] == UserFields(session)[k]
  {
    session["user" := Obj(UserFields(session)["id" := Get(token, "id")]["role" := Get(token, "role")])]
  }

  /** Signing in and then reading the session: the session's user carries the id and
      role of the account `authorize` found, whatever the token held before. */
  lemma SignInRoundTrip(credentials: Option<Credentials>, users: seq<UserModel.User>, compare: (string, string) -> bool,
                        token: Record, session: Record)
    requires Authorize(credentials, users, compare).Authorized?
    ensures var u := Authorize(credentials, users, compare).user;
            var s := Session(session, Jwt(token, Some(u)));
            s["user"].fields["id"] == Str(u.id) && s["user"].fields["role"] == Str(RoleName(u.role))
  {
  }

  /** The three failures (missing field, unknown email, wrong password) produce the same result. */
  lemma FailuresIndistinguishable(c1: Option<Credentials>, c2: Option<Credentials>, users: seq<UserModel.User>,
                                  compare: (string, string) -> bool)
    requires Authorize(c1, users, compare).Rejected? && Authorize(c2, users, compare).Rejected?
    ensures Authorize(c1, users, compare) == Authorize(c2, users, compare)
  {
  }
}
