/** GET /api/dashboard: a teacher sees counts, the average over the latest ten
    attempts on their quizzes, those attempts as recent activity and up to five top
    performers; every other role sees its own totals, recent activity, per-class
    performance and upcoming quizzes. */
module Dashboard {
  import opened Common
  import opened Scoring
  import Ranking
  import Seqs
  import UserModel

  /** One entry of `recentActivity`. */
  datatype Activity = Activity(kind: string, title: string, subtitle: string, score: int, maxScore: int, date: int)

  /** A class as the performer query selects it from `classesJoined`. */
  datatype JoinedClass = JoinedClass(name: string, teacherId: Id)

  /** A user row of the top-performers query, before its `where` and `take`. */
  datatype PerformerRow = PerformerRow(name: Option<string>, role: Role, classesJoined: seq<JoinedClass>, attempts: seq<Attempt>)

  datatype TopPerformer = TopPerformer(studentName: Option<string>, className: string, score: int)

  /** A class of the student's performance query: its name, how many students the
      query returned for it, and for each selected quiz the student's scores. */
  datatype ClassRow = ClassRow(name: string, studentCount: nat, quizScores: seq<seq<Attempt>>)

  datatype ClassPerformance = ClassPerformance(className: string, averageScore: int, quizzesTaken: nat, rank: int, totalStudents: nat)

  /** A quiz row of the upcoming-quizzes query. */
  datatype UpcomingRow = UpcomingRow(id: Id, title: string, className: string, dueDate: Option<int>, questionIds: seq<Id>)

  datatype Upcoming = Upcoming(id: Id, title: string, className: string, dueDate: Option<int>, totalQuestions: nat)

  datatype TeacherStats = TeacherStats(totalStudents: nat, totalClasses: nat, totalQuizzes: nat, averageScore: int)

  datatype StudentStats = StudentStats(totalClasses: nat, quizzesCompleted: nat, averageScore: int, rank: int,
                                       totalStudentsInRank: nat)

  datatype View =
    | TeacherView(teacherStats: TeacherStats, recentActivity: seq<Activity>, topPerformers: seq<TopPerformer>)
    | StudentView(studentStats: StudentStats, recentActivity: seq<Activity>,
                  performanceByClass: seq<ClassPerformance>, upcomingQuizzes: seq<Upcoming>)

  /** Query results the teacher branch works on. `attempts` is every attempt,
      newest first; `performers` the user rows in the order the database returns them. */
  datatype TeacherData = TeacherData(studentsCount: nat, classesCount: nat, quizzesCount: nat,
                                     attempts: seq<Attempt>, performers: seq<PerformerRow>)

  /** Query results the student branch works on. The rank count comes from a query
      that is not modelled and is taken as given. */
  datatype StudentData = StudentData(classesCount: nat, attempts: seq<Attempt>, upcoming: seq<UpcomingRow>,
                                     studentRank: nat, totalStudentsInRank: nat, classes: seq<ClassRow>)

  /** The teacher's attempt query: attempts on quizzes of the teacher's classes,
      newest first, at most ten. */
  function TeacherAttempts(teacherId: Id, attempts: seq<Attempt>): (r: seq<Attempt>)
    ensures |r| <= 10
    ensures forall i :: 0 <= i < |r| ==> r[i].teacherId == teacherId
    ensures forall a :: a in r ==> a in attempts
    ensures var mine := Seqs.Filter(attempts, (a: Attempt) => a.teacherId == teacherId);
            |r| == (if |mine| < 10 then |mine| else 10) && forall i :: 0 <= i < |r| ==> r[i] == mine[i]
  {
    var mine := Seqs.Filter(attempts, (a: Attempt) => a.teacherId == teacherId);
    var r := Take(mine, 10);
    forall a | a in r ensures a in attempts {
      Seqs.FilterMember(attempts, (a: Attempt) => a.teacherId == teacherId, a);
    }
    r
  }

  /** A teacher's activity line: `${name || email} completed ${title}` / `in ${className}`. */
  function TeacherActivity(a: Attempt): Activity
  {
    Activity("attempt", NameOr(a.userName, a.userEmail) + " completed " + a.quizTitle, "in " + a.className,
             a.score, a.maxScore, a.createdAt)
  }

  /** A student's activity line: `Completed ${title}` / `in ${className}`. */
  function StudentActivity(a: Attempt): Activity
  {
    Activity("quiz", "Completed " + a.quizTitle, "in " + a.className, a.score, a.maxScore, a.createdAt)
  }

  /** `performer.classesJoined[0]?.name || 'Multiple Classes'`. */
  function FirstClassName(classes: seq<JoinedClass>): (r: string)
    ensures |classes| > 0 && classes[0].name != "" ==> r == classes[0].name
    ensures |classes| == 0 || classes[0].name == "" ==> r == "Multiple Classes"
  {
    NameOr(if |classes| > 0 then Some(classes[0].name) else None, "Multiple Classes")
  }

  /** The performer query's `where`: a STUDENT in one of the teacher's classes with
      at least one attempt on any quiz. */
  predicate Eligible(teacherId: Id, p: PerformerRow)
  {
    p.role == Student && (exists c :: c in p.classesJoined && c.teacherId == teacherId) && |p.attempts| > 0
  }

  /** One formatted performer: joined classes and attempts restricted to the teacher's. */
  function Performer(teacherId: Id, p: PerformerRow): (t: TopPerformer)
    ensures t.studentName == p.name
    ensures t.className == FirstClassName(Seqs.Filter(p.classesJoined, (c: JoinedClass) => c.teacherId == teacherId))
    ensures t.score == Average(Seqs.Filter(p.attempts, (a: Attempt) => a.teacherId == teacherId))
  {
    var classes := Seqs.Filter(p.classesJoined, (c: JoinedClass) => c.teacherId == teacherId);
    var attempts := Seqs.Filter(p.attempts, (a: Attempt) => a.teacherId == teacherId);
    TopPerformer(p.name, FirstClassName(classes), Average(attempts))
  }

  function ScoreKey(t: TopPerformer): Ranking.Key
  {
    Ranking.Key(t.score, 0)
  }

  /** Before sorting: the first five eligible rows, formatted. */
  function Performers(teacherId: Id, rows: seq<PerformerRow>): (r: seq<TopPerformer>)
    ensures |r| <= 5
    ensures var eligible := Seqs.Filter(rows, (p: PerformerRow) => Eligible(teacherId, p));
            |r| == (if |eligible| < 5 then |eligible| else 5)
    ensures forall t :: t in r ==> exists p :: p in rows && Eligible(teacherId, p) && t == Performer(teacherId, p)
  {
    var ok := (p: PerformerRow) => Eligible(teacherId, p);
    var fetched := Take(Seqs.Filter(rows, ok), 5);
    var r := seq(|fetched|, i requires 0 <= i < |fetched| => Performer(teacherId, fetched[i]));
    forall t | t in r ensures exists p :: p in rows && Eligible(teacherId, p) && t == Performer(teacherId, p) {
      var i :| 0 <= i < |r| && r[i] == t;
      assert fetched[i] in Seqs.Filter(rows, ok);
      Seqs.FilterMember(rows, ok, fetched[i]);
    }
    r
  }

  /** The `.sort((a, b) => b.score - a.score)` applied to the formatted performers. */
  function TopPerformers(teacherId: Id, rows: seq<PerformerRow>): (r: seq<TopPerformer>)
    ensures |r| <= 5
    ensures forall i, j :: 0 <= i < j < |r| ==> r[i].score >= r[j].score
    ensures multiset(r) == multiset(Performers(teacherId, rows))
  {
    var r := Ranking.SortDesc(Performers(teacherId, rows), ScoreKey);
    assert forall i, j :: 0 <= i < j < |r| ==> Ranking.Ahead(ScoreKey(r[i]), ScoreKey(r[j]));
    r
  }

  /** The teacher branch. */
  function TeacherDashboard(teacherId: Id, d: TeacherData): (v: View)
    ensures v.TeacherView?
    ensures v.teacherStats == TeacherStats(d.studentsCount, d.classesCount, d.quizzesCount,
                                           Average(TeacherAttempts(teacherId, d.attempts)))
    ensures |v.recentActivity| == |TeacherAttempts(teacherId, d.attempts)|
    ensures forall i :: 0 <= i < |v.recentActivity| ==>
              v.recentActivity[i] == TeacherActivity(TeacherAttempts(teacherId, d.attempts)[i])
    ensures v.topPerformers == TopPerformers(teacherId, d.performers)
  {
    var fetched := TeacherAttempts(teacherId, d.attempts);
    TeacherView(TeacherStats(d.studentsCount, d.classesCount, d.quizzesCount, Average(fetched)),
                seq(|fetched|, i requires 0 <= i < |fetched| => TeacherActivity(fetched[i])),
                TopPerformers(teacherId, d.performers))
  }

  /** The caller's own attempts, newest first. */
  function OwnAttempts(userId: Id, attempts: seq<Attempt>): (r: seq<Attempt>)
    ensures forall i :: 0 <= i < |r| ==> r[i].userId == userId
    ensures forall a :: a in r <==> a in attempts && a.userId == userId
  {
    var own := (a: Attempt) => a.userId == userId;
    forall a ensures a in Seqs.Filter(attempts, own) <==> a in attempts && own(a) {
      Seqs.FilterMember(attempts, own, a);
    }
    Seqs.Filter(attempts, own)
  }

  /** One `performanceByClass` entry: the class's quiz scores flattened. */
  function ClassPerformanceOf(c: ClassRow): (p: ClassPerformance)
    ensures p.className == c.name && p.rank == 1 && p.totalStudents == c.studentCount
    ensures p.quizzesTaken == CountAll(c.quizScores)
    ensures p.averageScore == Average(Flatten(c.quizScores))
  {
    var attempts := Flatten(c.quizScores);
    FlattenLength(c.quizScores);
    ClassPerformance(c.name, Average(attempts), |attempts|, 1, c.studentCount)
  }

  function UpcomingOf(q: UpcomingRow): Upcoming
  {
    Upcoming(q.id, q.title, q.className, q.dueDate, |q.questionIds|)
  }

  /** The student branch (any role other than TEACHER). */
  function StudentDashboard(userId: Id, d: StudentData): (v: View)
    ensures v.StudentView?
    ensures v.studentStats.quizzesCompleted == |OwnAttempts(userId, d.attempts)|
    ensures v.studentStats.averageScore == Average(OwnAttempts(userId, d.attempts))
    ensures v.studentStats.rank == d.studentRank + 1
    ensures v.studentStats.totalClasses == d.classesCount && v.studentStats.totalStudentsInRank == d.totalStudentsInRank
    ensures |v.recentActivity| == |Take(OwnAttempts(userId, d.attempts), 10)| <= 10
    ensures forall i :: 0 <= i < |v.recentActivity| ==>
              v.recentActivity[i] == StudentActivity(OwnAttempts(userId, d.attempts)[i])
    ensures |v.performanceByClass| == |d.classes|
    ensures forall i :: 0 <= i < |d.classes| ==> v.performanceByClass[i] == ClassPerformanceOf(d.classes[i])
    ensures |v.upcomingQuizzes| == |Take(d.upcoming, 6)| <= 6
    ensures forall i :: 0 <= i < |v.upcomingQuizzes| ==> v.upcomingQuizzes[i] == UpcomingOf(d.upcoming[i])
  {
    var own := OwnAttempts(userId, d.attempts);
    var recent := Take(own, 10);
    var upcoming := Take(d.upcoming, 6);
    StudentView(StudentStats(d.classesCount, |own|, Average(own), d.studentRank + 1, d.totalStudentsInRank),
                seq(|recent|, i requires 0 <= i < |recent| => StudentActivity(recent[i])),
                seq(|d.classes|, i requires 0 <= i < |d.classes| => ClassPerformanceOf(d.classes[i])),
                seq(|upcoming|, i requires 0 <= i < |upcoming| => UpcomingOf(upcoming[i])))
  }

  /** The handler: 401 without a session, 404 for an unknown email, then the
      branch chosen by `user.role === 'TEACHER'`. */
  function Dashboard(sessionEmail: Option<string>, users: seq<UserModel.User>, teacher: TeacherData,
                     student: StudentData): (r: Response<View>)
    ensures !Authenticated(sessionEmail) <==> r == Err(UNAUTHORIZED, "Not authenticated")
    ensures r == Err(NOT_FOUND, "User not found")
            <==> Authenticated(sessionEmail) && UserModel.FindByEmail(users, sessionEmail.value).None?
    ensures r.Ok? ==> r.status == OK_STATUS
    ensures r.Ok? ==> var u := UserModel.SessionUser(users, sessionEmail).value;
              (r.value.TeacherView? <==> u.role == Teacher)
              && (u.role == Teacher ==> r.value == TeacherDashboard(u.id, teacher))
              && (u.role != Teacher ==> r.value == StudentDashboard(u.id, student))
  {
    if !Authenticated(sessionEmail) then Err(UNAUTHORIZED, "Not authenticated")
    else
      var user := UserModel.SessionUser(users, sessionEmail);
      if user.None? then Err(NOT_FOUND, "User not found")
      else if user.value.role == Teacher then Ok(OK_STATUS, TeacherDashboard(user.value.id, teacher))
      else Ok(OK_STATUS, StudentDashboard(user.value.id, student))
  }

  /** The teacher's average looks only at the ten newest attempts on the teacher's
      quizzes: older attempts, whatever their scores, change nothing. */
  lemma TeacherAverageIgnoresOlder(teacherId: Id, attempts: seq<Attempt>, older: seq<Attempt>)
    requires |Seqs.Filter(attempts, (a: Attempt) => a.teacherId == teacherId)| >= 10
    ensures TeacherAttempts(teacherId, attempts + older) == TeacherAttempts(teacherId, attempts)
  {
    var mine := (a: Attempt) => a.teacherId == teacherId;
    Seqs.FilterAppend(attempts, older, mine);
    var f := Seqs.Filter(attempts, mine);
    assert (f + Seqs.Filter(older, mine))[..10] == f[..10];
  }

  /** Recent activity lists the fetched attempts newest first. */
  lemma TeacherActivityNewestFirst(teacherId: Id, d: TeacherData)
    requires NewestFirst(d.attempts)
    ensures var v := TeacherDashboard(teacherId, d);
            forall i, j :: 0 <= i < j < |v.recentActivity| ==> v.recentActivity[i].date >= v.recentActivity[j].date
  {
    FilterNewestFirst(d.attempts, (a: Attempt) => a.teacherId == teacherId);
    TakeNewestFirst(Seqs.Filter(d.attempts, (a: Attempt) => a.teacherId == teacherId), 10);
  }

  /** The student's recent activity is the ten newest of their attempts: none of the
      attempts left out is newer than one shown. */
  lemma StudentRecentIsNewest(userId: Id, d: StudentData)
    requires NewestFirst(d.attempts)
    ensures var v := StudentDashboard(userId, d);
            var own := OwnAttempts(userId, d.attempts);
            forall i, j :: 0 <= i < |v.recentActivity| <= j < |own| ==> v.recentActivity[i].date >= own[j].createdAt
  {
    FilterNewestFirst(d.attempts, (a: Attempt) => a.userId == userId);
    TakeNewestFirst(OwnAttempts(userId, d.attempts), 10);
  }

  /** The teacher's recent attempts are the ten newest of theirs: newest first, as
      many as exist up to ten, and none of the teacher's attempts left out is newer. */
  lemma TeacherRecentIsNewest(teacherId: Id, attempts: seq<Attempt>)
    requires NewestFirst(attempts)
    ensures NewestFirst(TeacherAttempts(teacherId, attempts))
    ensures var r := TeacherAttempts(teacherId, attempts);
            var mine := Seqs.Filter(attempts, (a: Attempt) => a.teacherId == teacherId);
            forall i, j :: 0 <= i < |r| <= j < |mine| ==> r[i].createdAt >= mine[j].createdAt
  {
    var mine := Seqs.Filter(attempts, (a: Attempt) => a.teacherId == teacherId);
    FilterNewestFirst(attempts, (a: Attempt) => a.teacherId == teacherId);
    TakeNewestFirst(mine, 10);
  }

  /** The performer score is a percentage when the performer's attempts are well formed. */
  lemma PerformerScoreInRange(teacherId: Id, p: PerformerRow)
    requires AllWellFormed(p.attempts)
    ensures 0 <= Performer(teacherId, p).score <= 100
  {
    var mine := (a: Attempt) => a.teacherId == teacherId;
    var kept := Seqs.Filter(p.attempts, mine);
    forall i | 0 <= i < |kept| ensures WellFormed(kept[i]) {
      assert kept[i] in kept;
      Seqs.FilterMember(p.attempts, mine, kept[i]);
    }
    AverageInRange(kept);
  }

  /** Every attempt of every quiz of a class is counted in its performance entry. */
  lemma ClassPerformanceCountsAll(c: ClassRow, i: int, j: int)
    requires 0 <= i < |c.quizScores| && 0 <= j < |c.quizScores[i]|
    ensures c.quizScores[i][j] in Flatten(c.quizScores)
    ensures ClassPerformanceOf(c).quizzesTaken >= |c.quizScores[i]|
  {
    FlattenContains(c.quizScores, i, j);
    CountAllBound(c.quizScores, i);
  }

  lemma {:induction false} CountAllBound(ss: seq<seq<Attempt>>, i: int)
    requires 0 <= i < |ss|
    ensures CountAll(ss) >= |ss[i]|
  {
    if i < |ss| - 1 {
      CountAllBound(ss[..|ss| - 1], i);
    }
  }
}
