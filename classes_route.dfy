/** GET and POST /api/classes: listing the caller's classes by role, and a
    teacher creating a class with a trimmed name and a generated code. */
module ClassesRoute {
  import opened Common
  import Strings
  import Seqs
  import UserModel
  import ClassModel

  /** A class as `.lean()` returns it, teacher populated. The student list may be
      missing from a stored document, and the `quizzes` virtual is not populated
      by this query. */
  datatype LeanClass = LeanClass(id: Id, name: string, code: string, teacher: Id, teacherName: Option<string>,
                                 teacherEmail: string, students: Option<seq<Id>>, quizzes: Option<nat>)

  datatype FormattedClass = FormattedClass(id: Id, name: string, code: string, teacherName: Option<string>,
                                           teacherEmail: string, studentCount: nat, quizCount: nat)

  /** The `Class.find` condition: taught by a teacher, joined by anyone else. */
  predicate Selected(user: UserModel.User, c: LeanClass)
  {
    if user.role == Teacher then c.teacher == user.id
    else c.students.Some? && user.id in c.students.value
  }

  /** `cls.students?.length || 0` and `cls.quizzes || 0`. */
  function Format(c: LeanClass): (f: FormattedClass)
    ensures f.id == c.id && f.name == c.name && f.code == c.code
    ensures f.teacherName == c.teacherName && f.teacherEmail == c.teacherEmail
    ensures c.students.None? ==> f.studentCount == 0
    ensures c.students.Some? ==> f.studentCount == |c.students.value|
    ensures f.quizCount == if c.quizzes.Some? then c.quizzes.value else 0
  {
    FormattedClass(c.id, c.name, c.code, c.teacherName, c.teacherEmail,
                   if c.students.Some? then |c.students.value| else 0,
                   if c.quizzes.Some? then c.quizzes.value else 0)
  }

  /** GET: 401 without a session, 404 for an unknown user, otherwise the selected
      classes, formatted, in stored order. */
  function List(sessionEmail: Option<string>, users: seq<UserModel.User>, classes: seq<LeanClass>)
    : (r: Response<seq<FormattedClass>>)
    ensures !Authenticated(sessionEmail) <==> r == Err(UNAUTHORIZED, "Please sign in to view your classes")
    ensures r == Err(NOT_FOUND, "User account not found") <==>
              Authenticated(sessionEmail) && UserModel.SessionUser(users, sessionEmail).None?
    ensures r.Ok? ==> r.status == OK_STATUS
    ensures r.Ok? ==>
              var user := UserModel.SessionUser(users, sessionEmail).value;
              forall f :: f in r.value <==> exists c :: c in classes && Selected(user, c) && f == Format(c)
  {
    if !Authenticated(sessionEmail) then Err(UNAUTHORIZED, "Please sign in to view your classes")
    else
      var user := UserModel.SessionUser(users, sessionEmail);
      if user.None? then Err(NOT_FOUND, "User account not found")
      else
        var mine := Seqs.Filter(classes, (c: LeanClass) => Selected(user.value, c));
        var out := seq(|mine|, i requires 0 <= i < |mine| => Format(mine[i]));
        ListMembers(user.value, classes, out);
        Ok(OK_STATUS, out)
  }

  lemma ListMembers(user: UserModel.User, classes: seq<LeanClass>, out: seq<FormattedClass>)
    requires var mine := Seqs.Filter(classes, (c: LeanClass) => Selected(user, c));
             |out| == |mine| && forall i :: 0 <= i < |mine| ==> out[i] == Format(mine[i])
    ensures forall f :: f in out <==> exists c :: c in classes && Selected(user, c) && f == Format(c)
  {
    var sel := (c: LeanClass) => Selected(user, c);
    var mine := Seqs.Filter(classes, sel);
    forall f ensures f in out <==> exists c :: c in classes && Selected(user, c) && f == Format(c) {
      if f in out {
        var i :| 0 <= i < |out| && out[i] == f;
        assert mine[i] in mine;
        Seqs.FilterMember(classes, sel, mine[i]);
      }
      if exists c :: c in classes && Selected(user, c) && f == Format(c) {
        var c :| c in classes && Selected(user, c) && f == Format(c);
        Seqs.FilterMember(classes, sel, c);
        var i :| 0 <= i < |mine| && mine[i] == c;
        assert out[i] == f;
      }
    }
  }

  /** The `name` field of the request body: absent, a string, or any other JSON value. */
  datatype BodyField = Absent | Text(s: string) | NotText

  /** `!name || typeof name !== 'string' || name.trim().length === 0`. */
  predicate InvalidName(name: BodyField)
  {
    !name.Text? || name.s == "" || |Strings.Trim(name.s)| == 0
  }

  /** A name is refused exactly when it is not a string or consists of white space only. */
  lemma InvalidNameIffBlank(name: BodyField)
    ensures InvalidName(name) <==> !name.Text? || Strings.AllSpace(name.s)
  {
    if name.Text? {
      Strings.TrimEmptyIff(name.s);
    }
  }

  /** POST. `generated` is the output of `nanoid(6)` and `newId` the id the database
      assigns. The handler does not look for an existing class with the same code:
      a collision is refused by the unique index, which surfaces as a 500 (as does an
      empty code, which the schema's `required` refuses). */
  function Create(sessionEmail: Option<string>, users: seq<UserModel.User>, store: seq<ClassModel.Class>,
                  name: BodyField, generated: string, newId: Id)
    : (r: (seq<ClassModel.Class>, Response<FormattedClass>))
    ensures !Authenticated(sessionEmail) <==> r.1 == Err(UNAUTHORIZED, "Please sign in to create a class")
    ensures r.1 == Err(NOT_FOUND, "User account not found") <==>
              Authenticated(sessionEmail) && UserModel.SessionUser(users, sessionEmail).None?
    ensures r.1 == Err(FORBIDDEN, "Only teachers can create classes") <==>
              UserModel.SessionUser(users, sessionEmail).Some? && UserModel.SessionUser(users, sessionEmail).value.role != Teacher
    ensures r.1 == Err(BAD_REQUEST, "Please provide a valid class name") <==>
              UserModel.SessionUser(users, sessionEmail).Some? && UserModel.SessionUser(users, sessionEmail).value.role == Teacher
              && InvalidName(name)
    ensures r.1 == Err(SERVER_ERROR, "Failed to create class. Please try again.") <==>
              UserModel.SessionUser(users, sessionEmail).Some? && UserModel.SessionUser(users, sessionEmail).value.role == Teacher
              && !InvalidName(name)
              && (generated == "" || ClassModel.FindByCode(store, Strings.Upper(generated)).Some?)
    ensures r.1.Err? ==> r.0 == store
    ensures r.1.Ok? ==>
              var user := UserModel.SessionUser(users, sessionEmail).value;
              var code := Strings.Upper(generated);
              r.1.status == CREATED
              && r.1.value == FormattedClass(newId, Strings.Trim(name.s), code, user.name, user.email, 0, 0)
              && r.0 == store + [ClassModel.Class(newId, Strings.Trim(name.s), code, user.id, [])]
    ensures ClassModel.CodesUnique(store) ==> ClassModel.CodesUnique(r.0)
  {
    if !Authenticated(sessionEmail) then (store, Err(UNAUTHORIZED, "Please sign in to create a class"))
    else
      var user := UserModel.SessionUser(users, sessionEmail);
      if user.None? then (store, Err(NOT_FOUND, "User account not found"))
      else if user.value.role != Teacher then (store, Err(FORBIDDEN, "Only teachers can create classes"))
      else if InvalidName(name) then (store, Err(BAD_REQUEST, "Please provide a valid class name"))
      else
        var code := Strings.Upper(generated);
        var input := ClassModel.ClassInput(Some(Strings.Trim(name.s)), Some(code), Some(user.value.id), []);
        var (next, outcome) := ClassModel.Create(store, newId, input);
        if outcome.Refused? then (store, Err(SERVER_ERROR, "Failed to create class. Please try again."))
        else (next, Ok(CREATED, FormattedClass(newId, Strings.Trim(name.s), code, user.value.name, user.value.email, 0, 0)))
  }

  /** A created class's stored name has no surrounding white space and is the
      trimmed request name; its code has no lower-case ASCII letter. */
  lemma CreatedClassShape(sessionEmail: Option<string>, users: seq<UserModel.User>, store: seq<ClassModel.Class>,
                          name: BodyField, generated: string, newId: Id)
    requires Create(sessionEmail, users, store, name, generated, newId).1.Ok?
    ensures var f := Create(sessionEmail, users, store, name, generated, newId).1.value;
            name.Text? && f.name != "" && !Strings.IsSpace(f.name[0]) && !Strings.IsSpace(f.name[|f.name| - 1])
            && |f.code| == |generated| && forall i :: 0 <= i < |f.code| ==> !('a' <= f.code[i] <= 'z')
  {
  }
}
