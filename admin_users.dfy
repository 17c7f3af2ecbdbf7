/** GET and POST /api/admin/users: an administrator lists every user without
    passwords and creates teacher accounts with a hashed password. */
module AdminUsers {
  import opened Common
  import UserModel
  import Seqs

  /** A user as the endpoint shows it: there is no password field. */
  datatype PublicUser = PublicUser(id: Id, name: Option<string>, email: string, role: Role)

  datatype Body = Body(email: Option<string>, password: Option<string>, name: Option<string>, role: Option<string>)

  /** The guard both handlers share: every failure is the same 401. */
  predicate IsAdmin(users: seq<UserModel.User>, sessionEmail: Option<string>)
  {
    UserModel.SessionUser(users, sessionEmail).Some? && UserModel.SessionUser(users, sessionEmail).value.role == Admin
  }

  function Public(u: UserModel.User): PublicUser
  {
    PublicUser(u.id, u.name, u.email, u.role)
  }

  /** GET: 401 unless the caller is an administrator, otherwise every user, in stored order. */
  function ListUsers(sessionEmail: Option<string>, users: seq<UserModel.User>): (r: Response<seq<PublicUser>>)
    ensures r.Err? <==> !IsAdmin(users, sessionEmail)
    ensures r.Err? ==> r == Err(UNAUTHORIZED, "Unauthorized")
    ensures r.Ok? ==> r.status == OK_STATUS && |r.value| == |users|
    ensures r.Ok? ==> forall i :: 0 <= i < |users| ==>
              r.value[i].id == users[i].id && r.value[i].name == users[i].name
              && r.value[i].email == users[i].email && r.value[i].role == users[i].role
  {
    if !IsAdmin(users, sessionEmail) then Err(UNAUTHORIZED, "Unauthorized")
    else Ok(OK_STATUS, seq(|users|, i requires 0 <= i < |users| => Public(users[i])))
  }

  /** `!email || !password || !name || !role || role !== 'TEACHER'`. */
  predicate ValidBody(b: Body)
  {
    Present(b.email) && Present(b.password) && Present(b.name) && Present(b.role) && b.role.value == "TEACHER"
  }

  /** POST. `hash` stands for `bcrypt.hash(·, 12)` and `newId` for the id the
      database assigns. */
  function CreateTeacher(sessionEmail: Option<string>, users: seq<UserModel.User>, body: Body,
                         hash: string -> string, newId: Id): (r: (seq<UserModel.User>, Response<PublicUser>))
    ensures !IsAdmin(users, sessionEmail) <==> r.1 == Err(UNAUTHORIZED, "Unauthorized")
    ensures r.1 == Err(BAD_REQUEST, "Invalid input") <==> IsAdmin(users, sessionEmail) && !ValidBody(body)
    ensures r.1 == Err(BAD_REQUEST, "User already exists") <==>
              IsAdmin(users, sessionEmail) && ValidBody(body) && UserModel.FindByEmail(users, body.email.value).Some?
    ensures r.1 == Err(SERVER_ERROR, "Failed to create user") <==>
              IsAdmin(users, sessionEmail) && ValidBody(body) && UserModel.FindByEmail(users, body.email.value).None?
              && hash(body.password.value) == ""
    ensures r.1.Err? ==> r.0 == users
    ensures r.1.Ok? ==>
              r.1.status == CREATED
              && r.0 == users + [UserModel.User(newId, body.name, body.email.value, hash(body.password.value), Teacher)]
              && r.1.value == PublicUser(newId, body.name, body.email.value, Teacher)
    ensures UserModel.EmailsUnique(users) ==> UserModel.EmailsUnique(r.0)
  {
    if !IsAdmin(users, sessionEmail) then (users, Err(UNAUTHORIZED, "Unauthorized"))
    else if !ValidBody(body) then (users, Err(BAD_REQUEST, "Invalid input"))
    else if UserModel.FindByEmail(users, body.email.value).Some? then (users, Err(BAD_REQUEST, "User already exists"))
    else
      var input := UserModel.UserInput(body.name, body.email, Some(hash(body.password.value)), body.role);
      var (next, created) := UserModel.Create(users, newId, input);
      if created.Rejected? then (users, Err(SERVER_ERROR, "Failed to create user"))
      else (next, Ok(CREATED, Public(created.value)))
  }

  /** A teacher created by the administrator is listed afterwards, last, and the
      stored password is the hash of the submitted one. */
  lemma CreatedTeacherListed(sessionEmail: Option<string>, users: seq<UserModel.User>, body: Body,
                             hash: string -> string, newId: Id)
    requires CreateTeacher(sessionEmail, users, body, hash, newId).1.Ok?
    ensures var after := CreateTeacher(sessionEmail, users, body, hash, newId).0;
            var listed := ListUsers(sessionEmail, after);
            listed.Ok? && listed.value[|listed.value| - 1] == CreateTeacher(sessionEmail, users, body, hash, newId).1.value
            && after[|after| - 1].password == hash(body.password.value)
  {
    var after := CreateTeacher(sessionEmail, users, body, hash, newId).0;
    var admin := UserModel.SessionUser(users, sessionEmail).value;
    var k := Seqs.FindBy(users, sessionEmail.value, UserModel.Email);
    assert UserModel.Email(users[k]) == sessionEmail.value;
    Seqs.FindByAppend(users, after[|after| - 1], sessionEmail.value, UserModel.Email);
    assert after == users + [after[|after| - 1]];
  }
}
