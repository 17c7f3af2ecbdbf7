/** POST /api/classes/join: a student enrolls in a class by its code. The class
    document's student list is extended in place and saved. */
module ClassesJoin {
  import opened Common
  import UserModel

  /** The roster after admitting `id`: nothing when already enrolled, otherwise the
      list with `id` appended. */
  function Admit(students: seq<Id>, id: Id): (r: Option<seq<Id>>)
    ensures r.None? <==> id in students
    ensures r.Some? ==> |r.value| == |students| + 1 && r.value[..|students|] == students && r.value[|students|] == id
  {
    if id in students then None else Some(students + [id])
  }

  predicate NoDuplicates(ids: seq<Id>)
  {
    forall i, j :: 0 <= i < j < |ids| ==> ids[i] != ids[j]
  }

  /** Admission never enrolls anybody twice. */
  lemma AdmitKeepsDistinct(students: seq<Id>, id: Id)
    requires NoDuplicates(students)
    ensures Admit(students, id).Some? ==> NoDuplicates(Admit(students, id).value)
    ensures Admit(students, id).Some? ==> forall x :: x in Admit(students, id).value <==> x in students || x == id
  {
    if id !in students {
      var r := students + [id];
      forall i, j | 0 <= i < j < |r| ensures r[i] != r[j] {
        if j == |students| {
          assert r[i] in students;
        }
      }
    }
  }

  /** A loaded Class document (`teacher` populated with name and email). Only the
      student list changes. */
  class ClassDocument {
    const id: Id
    const name: string
    const code: string
    const teacherName: Option<string>
    const teacherEmail: string
    const quizzes: Option<nat>
    var students: seq<Id>

    constructor (id: Id, name: string, code: string, teacherName: Option<string>, teacherEmail: string,
                 quizzes: Option<nat>, students: seq<Id>)
      ensures this.id == id && this.name == name && this.code == code
      ensures this.teacherName == teacherName && this.teacherEmail == teacherEmail && this.quizzes == quizzes
      ensures this.students == students
    {
      this.id := id;
      this.name := name;
      this.code := code;
      this.teacherName := teacherName;
      this.teacherEmail := teacherEmail;
      this.quizzes := quizzes;
      this.students := students;
    }

    /** `classToJoin.students.push(user._id)`. */
    method Enroll(student: Id)
      modifies this
      ensures students == old(students) + [student]
    {
      students := students + [student];
    }
  }

  /** `Class.findOne({ code })`: the first document whose code equals the given
      string exactly, or -1. */
  function FindClass(classes: seq<ClassDocument>, code: string): (r: int)
    ensures -1 <= r < |classes|
    ensures r >= 0 ==> classes[r].code == code && forall k :: 0 <= k < r ==> classes[k].code != code
    ensures r == -1 <==> forall k :: 0 <= k < |classes| ==> classes[k].code != code
  {
    if classes == [] then -1
    else if classes[0].code == code then 0
    else
      var r := FindClass(classes[1..], code);
      if r == -1 then -1 else r + 1
  }

  datatype JoinedClass = JoinedClass(id: Id, name: string, code: string, teacherName: Option<string>,
                                     teacherEmail: string, studentCount: nat, quizCount: nat)

  /** The handler after the request body is parsed (`code` is the body's field).
      The checks run in order and the first failure decides; only a successful
      join touches a document, and then only the found class's student list. */
  method Join(sessionEmail: Option<string>, users: seq<UserModel.User>, code: Option<string>,
              classes: seq<ClassDocument>) returns (r: Response<JoinedClass>)
    modifies set c | c in classes
    ensures !Authenticated(sessionEmail) <==> r == Err(UNAUTHORIZED, "Unauthorized")
    ensures r == Err(NOT_FOUND, "User not found") <==>
              Authenticated(sessionEmail) && UserModel.SessionUser(users, sessionEmail).None?
    ensures r == Err(FORBIDDEN, "Only students can join classes") <==>
              UserModel.SessionUser(users, sessionEmail).Some? && UserModel.SessionUser(users, sessionEmail).value.role != Student
    ensures r == Err(BAD_REQUEST, "Class code is required") <==>
              UserModel.SessionUser(users, sessionEmail).Some? && UserModel.SessionUser(users, sessionEmail).value.role == Student
              && !Present(code)
    ensures r == Err(NOT_FOUND, "Class not found") <==>
              UserModel.SessionUser(users, sessionEmail).Some? && UserModel.SessionUser(users, sessionEmail).value.role == Student
              && Present(code) && FindClass(classes, code.value) == -1
    ensures r == Err(BAD_REQUEST, "You are already enrolled in this class") <==>
              UserModel.SessionUser(users, sessionEmail).Some? && UserModel.SessionUser(users, sessionEmail).value.role == Student
              && Present(code) && FindClass(classes, code.value) >= 0
              && UserModel.SessionUser(users, sessionEmail).value.id in old(classes[FindClass(classes, code.value)].students)
    ensures r.Err? ==> forall c :: c in classes ==> c.students == old(c.students)
    ensures r.Ok? ==>
              var me := UserModel.SessionUser(users, sessionEmail).value.id;
              var k := FindClass(classes, code.value);
              0 <= k < |classes|
              && Admit(old(classes[k].students), me) == Some(classes[k].students)
              && r.status == OK_STATUS
              && r.value == JoinedClass(classes[k].id, classes[k].name, classes[k].code, classes[k].teacherName,
                                        classes[k].teacherEmail, |classes[k].students|,
                                        if classes[k].quizzes.Some? then classes[k].quizzes.value else 0)
              && forall c :: c in classes && c != classes[k] ==> c.students == old(c.students)
  {
    if !Authenticated(sessionEmail) {
      return Err(UNAUTHORIZED, "Unauthorized");
    }
    var user := UserModel.SessionUser(users, sessionEmail);
    if user.None? {
      return Err(NOT_FOUND, "User not found");
    }
    if user.value.role != Student {
      return Err(FORBIDDEN, "Only students can join classes");
    }
    if !Present(code) {
      return Err(BAD_REQUEST, "Class code is required");
    }
    var k := FindClass(classes, code.value);
    if k == -1 {
      return Err(NOT_FOUND, "Class not found");
    }
    var target := classes[k];
    if user.value.id in target.students {
      return Err(BAD_REQUEST, "You are already enrolled in this class");
    }
    target.Enroll(user.value.id);
    r := Ok(OK_STATUS, JoinedClass(target.id, target.name, target.code, target.teacherName, target.teacherEmail,
                                   |target.students|, if target.quizzes.Some? then target.quizzes.value else 0));
  }
}
