/** GET /api/students: for a teacher, every student enrolled in one of their
    classes, with the teacher's classes and statistics over the attempts on the
    teacher's quizzes only. */
module StudentsRoute {
  import opened Common
  import opened Scoring
  import Seqs
  import UserModel

  datatype ClassRef = ClassRef(id: Id, name: string, teacherId: Id)

  /** A user row before the query's `where`, with every joined class and every attempt. */
  datatype StudentRow = StudentRow(id: Id, name: Option<string>, email: string, role: Role,
                                   classesJoined: seq<ClassRef>, attempts: seq<Attempt>)

  datatype RecentScore = RecentScore(score: int, maxScore: int, quizTitle: string, createdAt: int)

  datatype StudentSummary = StudentSummary(
    id: Id,
    name: Option<string>,
    email: string,
    enrolledClasses: seq<ClassRef>,
    totalAttempts: nat,
    averageScore: int,
    recentScore: Option<RecentScore>)

  /** The query's `where`: a STUDENT who joined at least one of the teacher's classes. */
  predicate Listed(teacherId: Id, s: StudentRow)
  {
    s.role == Student && exists c :: c in s.classesJoined && c.teacherId == teacherId
  }

  /** `validAttempts`: the student's attempts, newest first, on the teacher's quizzes. */
  function ValidAttempts(teacherId: Id, s: StudentRow): (r: seq<Attempt>)
    ensures NewestFirst(r)
    ensures forall a :: a in r <==> a in s.attempts && a.teacherId == teacherId
  {
    var ordered := NewestOrder(s.attempts);
    var mine := (a: Attempt) => a.teacherId == teacherId;
    FilterNewestFirst(ordered, mine);
    forall a ensures a in Seqs.Filter(ordered, mine) <==> a in s.attempts && mine(a) {
      Seqs.FilterMember(ordered, mine, a);
      assert a in ordered <==> a in multiset(ordered);
    }
    Seqs.Filter(ordered, mine)
  }

  /** One formatted student. */
  function Summary(teacherId: Id, s: StudentRow): (r: StudentSummary)
    ensures r.id == s.id && r.name == s.name && r.email == s.email
    ensures forall c :: c in r.enrolledClasses <==> c in s.classesJoined && c.teacherId == teacherId
    ensures r.totalAttempts == |ValidAttempts(teacherId, s)|
    ensures r.averageScore == Average(ValidAttempts(teacherId, s))
    ensures r.recentScore.None? <==> ValidAttempts(teacherId, s) == []
    ensures r.recentScore.Some? ==>
              var a := ValidAttempts(teacherId, s)[0];
              r.recentScore.value == RecentScore(a.score, a.maxScore, a.quizTitle, a.createdAt)
  {
    var valid := ValidAttempts(teacherId, s);
    var taught := (c: ClassRef) => c.teacherId == teacherId;
    forall c ensures c in Seqs.Filter(s.classesJoined, taught) <==> c in s.classesJoined && taught(c) {
      Seqs.FilterMember(s.classesJoined, taught, c);
    }
    StudentSummary(s.id, s.name, s.email, Seqs.Filter(s.classesJoined, taught), |valid|, Average(valid),
                   if |valid| > 0 then Some(RecentScore(valid[0].score, valid[0].maxScore, valid[0].quizTitle, valid[0].createdAt))
                   else None)
  }

  /** The handler: 401 without a session, 403 for an unknown user or a non-teacher,
      otherwise one summary per listed student in the order the query returns them. */
  function Students(sessionEmail: Option<string>, users: seq<UserModel.User>, rows: seq<StudentRow>)
    : (r: Response<seq<StudentSummary>>)
    ensures !Authenticated(sessionEmail) <==> r == Err(UNAUTHORIZED, "Not authenticated")
    ensures r == Err(FORBIDDEN, "Not authorized") <==>
              Authenticated(sessionEmail)
              && (UserModel.SessionUser(users, sessionEmail).None? || UserModel.SessionUser(users, sessionEmail).value.role != Teacher)
    ensures r.Ok? ==> r.status == OK_STATUS
    ensures r.Ok? ==>
              var me := UserModel.SessionUser(users, sessionEmail).value.id;
              var listed := Seqs.Filter(rows, (s: StudentRow) => Listed(me, s));
              |r.value| == |listed|
              && forall i :: 0 <= i < |listed| ==> r.value[i] == Summary(me, listed[i])
  {
    if !Authenticated(sessionEmail) then Err(UNAUTHORIZED, "Not authenticated")
    else
      var user := UserModel.SessionUser(users, sessionEmail);
      if user.None? || user.value.role != Teacher then Err(FORBIDDEN, "Not authorized")
      else
        var me := user.value.id;
        var listed := Seqs.Filter(rows, (s: StudentRow) => Listed(me, s));
        Ok(OK_STATUS, seq(|listed|, i requires 0 <= i < |listed| => Summary(me, listed[i])))
  }

  /** The recent score is the newest attempt on the teacher's quizzes. */
  lemma RecentScoreIsNewest(teacherId: Id, s: StudentRow, a: Attempt)
    requires a in s.attempts && a.teacherId == teacherId
    ensures Summary(teacherId, s).recentScore.Some?
    ensures Summary(teacherId, s).recentScore.value.createdAt >= a.createdAt
  {
    var valid := ValidAttempts(teacherId, s);
    assert a in valid;
    var k :| 0 <= k < |valid| && valid[k] == a;
    if k > 0 {
      assert valid[0].createdAt >= valid[k].createdAt;
    }
  }

  /** An attempt on another teacher's quiz is never among the valid attempts, so it
      adds nothing to the list the statistics are computed from. */
  lemma OtherTeachersIgnored(teacherId: Id, s: StudentRow, other: Attempt)
    requires other.teacherId != teacherId
    ensures other !in ValidAttempts(teacherId, s.(attempts := s.attempts + [other]))
    ensures forall a :: a in ValidAttempts(teacherId, s.(attempts := s.attempts + [other]))
                        <==> a in ValidAttempts(teacherId, s)
  {
  }
}
