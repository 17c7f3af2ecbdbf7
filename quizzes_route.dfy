/** GET /api/quizzes: every quiz of the teacher's classes, newest first, with its
    question count, attempt count, average percentage and most recent attempt. */
module QuizzesRoute {
  import opened Common
  import opened Scoring
  import Ranking
  import Seqs
  import UserModel

  /** A quiz row with its class, its question ids and its scores. */
  datatype QuizRow = QuizRow(id: Id, title: string, createdAt: int, classId: Id, className: string, teacherId: Id,
                             questionIds: seq<Id>, scores: seq<Attempt>)

  datatype RecentAttempt = RecentAttempt(studentName: string, score: int, maxScore: int, createdAt: int)

  datatype QuizSummary = QuizSummary(
    id: Id,
    title: string,
    className: string,
    classId: Id,
    createdAt: int,
    totalQuestions: nat,
    totalAttempts: nat,
    averageScore: int,
    recentAttempt: Option<RecentAttempt>)

  function QuizKey(q: QuizRow): Ranking.Key
  {
    Ranking.Key(q.createdAt, 0)
  }

  /** One formatted quiz; its scores are ordered newest first. */
  function Summary(q: QuizRow): (r: QuizSummary)
    ensures r.id == q.id && r.title == q.title && r.className == q.className && r.classId == q.classId
    ensures r.createdAt == q.createdAt
    ensures r.totalQuestions == |q.questionIds|
    ensures r.totalAttempts == |q.scores|
    ensures r.averageScore == Average(NewestOrder(q.scores))
    ensures r.recentAttempt.None? <==> q.scores == []
    ensures r.recentAttempt.Some? ==>
              var a := NewestOrder(q.scores)[0];
              a in q.scores
              && r.recentAttempt.value == RecentAttempt(NameOr(a.userName, a.userEmail), a.score, a.maxScore, a.createdAt)
              && forall b :: b in q.scores ==> a.createdAt >= b.createdAt
  {
    var scores := NewestOrder(q.scores);
    NewestHead(q.scores);
    QuizSummary(q.id, q.title, q.className, q.classId, q.createdAt, |q.questionIds|, |scores|, Average(scores),
                if |scores| > 0 then
                  Some(RecentAttempt(NameOr(scores[0].userName, scores[0].userEmail), scores[0].score,
                                     scores[0].maxScore, scores[0].createdAt))
                else None)
  }

  /** The quizzes of the teacher's classes, `orderBy: { createdAt: 'desc' }`. */
  function TeacherQuizzes(teacherId: Id, quizzes: seq<QuizRow>): (r: seq<QuizRow>)
    ensures forall i, j :: 0 <= i < j < |r| ==> r[i].createdAt >= r[j].createdAt
    ensures forall q :: q in r <==> q in quizzes && q.teacherId == teacherId
  {
    var mine := (q: QuizRow) => q.teacherId == teacherId;
    var kept := Seqs.Filter(quizzes, mine);
    var r := Ranking.SortDesc(kept, QuizKey);
    assert forall i, j :: 0 <= i < j < |r| ==> Ranking.Ahead(QuizKey(r[i]), QuizKey(r[j]));
    forall q ensures q in r <==> q in quizzes && mine(q) {
      Seqs.FilterMember(quizzes, mine, q);
      assert q in r <==> q in multiset(r);
    }
    r
  }

  /** The handler: 401 without a session, 403 for an unknown user or a non-teacher,
      otherwise one summary per quiz of the teacher, newest quiz first. */
  function Quizzes(sessionEmail: Option<string>, users: seq<UserModel.User>, quizzes: seq<QuizRow>)
    : (r: Response<seq<QuizSummary>>)
    ensures !Authenticated(sessionEmail) <==> r == Err(UNAUTHORIZED, "Not authenticated")
    ensures r == Err(FORBIDDEN, "Not authorized") <==>
              Authenticated(sessionEmail)
              && (UserModel.SessionUser(users, sessionEmail).None? || UserModel.SessionUser(users, sessionEmail).value.role != Teacher)
    ensures r.Ok? ==> r.status == OK_STATUS
    ensures r.Ok? ==>
              var mine := TeacherQuizzes(UserModel.SessionUser(users, sessionEmail).value.id, quizzes);
              |r.value| == |mine| && forall i :: 0 <= i < |mine| ==> r.value[i] == Summary(mine[i])
    ensures r.Ok? ==> forall i, j :: 0 <= i < j < |r.value| ==> r.value[i].createdAt >= r.value[j].createdAt
  {
    if !Authenticated(sessionEmail) then Err(UNAUTHORIZED, "Not authenticated")
    else
      var user := UserModel.SessionUser(users, sessionEmail);
      if user.None? || user.value.role != Teacher then Err(FORBIDDEN, "Not authorized")
      else
        var mine := TeacherQuizzes(user.value.id, quizzes);
        Ok(OK_STATUS, seq(|mine|, i requires 0 <= i < |mine| => Summary(mine[i])))
  }

  /** Every quiz of the teacher is listed once its summary is formed, and no quiz of
      another teacher is. */
  lemma QuizListed(sessionEmail: Option<string>, users: seq<UserModel.User>, quizzes: seq<QuizRow>, q: QuizRow)
    requires Quizzes(sessionEmail, users, quizzes).Ok?
    ensures var me := UserModel.SessionUser(users, sessionEmail).value.id;
            q in quizzes && q.teacherId == me ==> Summary(q) in Quizzes(sessionEmail, users, quizzes).value
    ensures var me := UserModel.SessionUser(users, sessionEmail).value.id;
            forall s :: s in Quizzes(sessionEmail, users, quizzes).value ==>
              exists q' :: q' in quizzes && q'.teacherId == me && s == Summary(q')
  {
    var me := UserModel.SessionUser(users, sessionEmail).value.id;
    var mine := TeacherQuizzes(me, quizzes);
    var listed := Quizzes(sessionEmail, users, quizzes).value;
    if q in quizzes && q.teacherId == me {
      var k :| 0 <= k < |mine| && mine[k] == q;
      assert listed[k] == Summary(q);
    }
    forall s | s in listed ensures exists q' :: q' in quizzes && q'.teacherId == me && s == Summary(q') {
      var k :| 0 <= k < |listed| && listed[k] == s;
      assert mine[k] in mine;
    }
  }

  /** Ordering the scores does not change the average: it is the average of the relation as stored. */
  lemma SummaryAverageIgnoresOrder(q: QuizRow)
    ensures Summary(q).averageScore == Average(q.scores)
  {
    TotalsPermutation(NewestOrder(q.scores), q.scores);
  }

  /** The average is a percentage when each score is within its maximum. */
  lemma QuizAverageInRange(q: QuizRow)
    requires AllWellFormed(q.scores)
    ensures 0 <= Summary(q).averageScore <= 100
  {
    var ordered := NewestOrder(q.scores);
    forall i | 0 <= i < |ordered| ensures WellFormed(ordered[i]) {
      assert ordered[i] in multiset(ordered);
      var k :| 0 <= k < |q.scores| && q.scores[k] == ordered[i];
    }
    AverageInRange(ordered);
  }
}
