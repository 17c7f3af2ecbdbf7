/** GET /api/analytics: a teacher's totals over their classes, the overall and
    per-class percentages accumulated score by score, and the ten newest scores. */
module Analytics {
  import opened Common
  import opened Scoring
  import Seqs
  import UserModel

  datatype QuizData = QuizData(title: string, scores: seq<Attempt>)

  /** A class with its students and its quizzes, each quiz with its scores. */
  datatype ClassData = ClassData(name: string, teacherId: Id, students: seq<Id>, quizzes: seq<QuizData>)

  datatype ClassStat = ClassStat(className: string, averageScore: int, totalStudents: nat, totalQuizzes: nat)

  datatype RecentScore = RecentScore(studentName: string, quizTitle: string, score: int, maxScore: int, createdAt: int)

  datatype Report = Report(
    totalStudents: nat,
    totalQuizzes: nat,
    totalAttempts: nat,
    averageScore: int,
    classPerformance: seq<ClassStat>,
    recentScores: seq<RecentScore>)

  function QuizScores(quizzes: seq<QuizData>): seq<seq<Attempt>>
  {
    seq(|quizzes|, j requires 0 <= j < |quizzes| => quizzes[j].scores)
  }

  /** Every score of a class, quiz after quiz. */
  function ClassAttempts(c: ClassData): seq<Attempt>
  {
    Flatten(QuizScores(c.quizzes))
  }

  function ClassLists(classes: seq<ClassData>): seq<seq<Attempt>>
  {
    seq(|classes|, i requires 0 <= i < |classes| => ClassAttempts(classes[i]))
  }

  /** Every score of every class, in the order the nested `forEach` visits them. */
  function AllAttempts(classes: seq<ClassData>): seq<Attempt>
  {
    Flatten(ClassLists(classes))
  }

  /** `classes.reduce((sum, c) => sum + c.quizzes.length, 0)`. */
  function TotalQuizzes(classes: seq<ClassData>): (n: nat)
    ensures classes == [] ==> n == 0
    ensures forall i :: 0 <= i < |classes| ==> n >= |classes[i].quizzes|
  {
    if classes == [] then 0 else TotalQuizzes(classes[..|classes| - 1]) + |classes[|classes| - 1].quizzes|
  }

  /** The quiz count of two groups of classes is the sum of their counts, and a
      single class counts its own quizzes: the reduce is exactly the sum. */
  lemma {:induction false} TotalQuizzesAppend(a: seq<ClassData>, b: seq<ClassData>)
    ensures TotalQuizzes(a + b) == TotalQuizzes(a) + TotalQuizzes(b)
    ensures forall c :: TotalQuizzes([c]) == |c.quizzes|
    decreases |b|
  {
    forall c ensures TotalQuizzes([c]) == |c.quizzes| {
      assert [c][..0] == [];
    }
    if b == [] {
      assert a + b == a;
    } else {
      var b' := b[..|b| - 1];
      assert (a + b)[..|a + b| - 1] == a + b';
      TotalQuizzesAppend(a, b');
    }
  }

  /** `c.quizzes.reduce((s, q) => s + q.scores.length, 0)`. */
  function QuizAttemptTotal(quizzes: seq<QuizData>): (n: nat)
    ensures n == |Flatten(QuizScores(quizzes))|
  {
    if quizzes == [] then 0
    else
      var init := quizzes[..|quizzes| - 1];
      assert QuizScores(quizzes) == QuizScores(init) + [quizzes[|quizzes| - 1].scores];
      FlattenSnoc(QuizScores(init), quizzes[|quizzes| - 1].scores);
      QuizAttemptTotal(init) + |quizzes[|quizzes| - 1].scores|
  }

  /** The nested reduce of `totalAttempts`: it counts exactly the scores the
      average is taken over. */
  function TotalAttempts(classes: seq<ClassData>): (n: nat)
    ensures n == |AllAttempts(classes)|
  {
    if classes == [] then 0
    else
      var init := classes[..|classes| - 1];
      assert ClassLists(classes) == ClassLists(init) + [ClassAttempts(classes[|classes| - 1])];
      FlattenSnoc(ClassLists(init), ClassAttempts(classes[|classes| - 1]));
      TotalAttempts(init) + QuizAttemptTotal(classes[|classes| - 1].quizzes)
  }

  /** `scores.forEach(s => { score += s.score; max += s.maxScore })`. */
  method AddScores(scores: seq<Attempt>, score0: int, max0: int) returns (score: int, max: int)
    ensures score == score0 + TotalScore(scores)
    ensures max == max0 + TotalMax(scores)
  {
    score, max := score0, max0;
    var k := 0;
    while k < |scores|
      invariant 0 <= k <= |scores|
      invariant score == score0 + TotalScore(scores[..k])
      invariant max == max0 + TotalMax(scores[..k])
    {
      assert scores[..k + 1][..k] == scores[..k];
      score := score + scores[k].score;
      max := max + scores[k].maxScore;
      k := k + 1;
    }
    assert scores[..k] == scores;
  }

  /** `c.quizzes.forEach(q => q.scores.forEach(...))`, continuing from the given sums. */
  method AddClass(c: ClassData, score0: int, max0: int) returns (score: int, max: int)
    ensures score == score0 + TotalScore(ClassAttempts(c))
    ensures max == max0 + TotalMax(ClassAttempts(c))
  {
    score, max := score0, max0;
    var j := 0;
    while j < |c.quizzes|
      invariant 0 <= j <= |c.quizzes|
      invariant score == score0 + TotalScore(Flatten(QuizScores(c.quizzes[..j])))
      invariant max == max0 + TotalMax(Flatten(QuizScores(c.quizzes[..j])))
    {
      assert QuizScores(c.quizzes[..j + 1]) == QuizScores(c.quizzes[..j]) + [c.quizzes[j].scores];
      FlattenSnoc(QuizScores(c.quizzes[..j]), c.quizzes[j].scores);
      TotalsAppend(Flatten(QuizScores(c.quizzes[..j])), c.quizzes[j].scores);
      score, max := AddScores(c.quizzes[j].scores, score, max);
      j := j + 1;
    }
    assert c.quizzes[..j] == c.quizzes;
  }

  /** The overall accumulation over every class, quiz and score. */
  method OverallTotals(classes: seq<ClassData>) returns (totalScore: int, totalMaxScore: int)
    ensures totalScore == TotalScore(AllAttempts(classes))
    ensures totalMaxScore == TotalMax(AllAttempts(classes))
  {
    totalScore, totalMaxScore := 0, 0;
    var i := 0;
    while i < |classes|
      invariant 0 <= i <= |classes|
      invariant totalScore == TotalScore(AllAttempts(classes[..i]))
      invariant totalMaxScore == TotalMax(AllAttempts(classes[..i]))
    {
      assert ClassLists(classes[..i + 1]) == ClassLists(classes[..i]) + [ClassAttempts(classes[i])];
      FlattenSnoc(ClassLists(classes[..i]), ClassAttempts(classes[i]));
      TotalsAppend(AllAttempts(classes[..i]), ClassAttempts(classes[i]));
      totalScore, totalMaxScore := AddClass(classes[i], totalScore, totalMaxScore);
      i := i + 1;
    }
    assert classes[..i] == classes;
  }

  /** What `classPerformance` reports for one class. */
  function StatOf(c: ClassData): ClassStat
  {
    ClassStat(c.name, Average(ClassAttempts(c)), |c.students|, |c.quizzes|)
  }

  /** `classes.map(...)` with a fresh pair of accumulators per class. */
  method ClassPerformance(classes: seq<ClassData>) returns (perf: seq<ClassStat>)
    ensures |perf| == |classes|
    ensures forall i :: 0 <= i < |classes| ==> perf[i] == StatOf(classes[i])
  {
    perf := [];
    var i := 0;
    while i < |classes|
      invariant 0 <= i <= |classes|
      invariant |perf| == i
      invariant forall k :: 0 <= k < i ==> perf[k] == StatOf(classes[k])
    {
      var c := classes[i];
      var classScore, classMaxScore := AddClass(c, 0, 0);
      var average := if classMaxScore > 0 then Percent(classScore, classMaxScore) else 0;
      perf := perf + [ClassStat(c.name, average, |c.students|, |c.quizzes|)];
      i := i + 1;
    }
  }

  function RecentScoreOf(a: Attempt): RecentScore
  {
    RecentScore(NameOr(a.userName, a.userEmail), a.quizTitle, a.score, a.maxScore, a.createdAt)
  }

  /** The ten newest scores on the teacher's quizzes (`scores` is every score, newest first). */
  function RecentScores(teacherId: Id, scores: seq<Attempt>): (r: seq<RecentScore>)
    ensures |r| == |Take(Seqs.Filter(scores, (a: Attempt) => a.teacherId == teacherId), 10)| <= 10
    ensures forall i :: 0 <= i < |r| ==>
              r[i] == RecentScoreOf(Seqs.Filter(scores, (a: Attempt) => a.teacherId == teacherId)[i])
  {
    var fetched := Take(Seqs.Filter(scores, (a: Attempt) => a.teacherId == teacherId), 10);
    seq(|fetched|, i requires 0 <= i < |fetched| => RecentScoreOf(fetched[i]))
  }

  /** Given the scores newest first, the recent scores are newest first too, and
      none of the teacher's scores left out is newer than any shown. */
  lemma RecentScoresNewestFirst(teacherId: Id, scores: seq<Attempt>)
    requires NewestFirst(scores)
    ensures var r := RecentScores(teacherId, scores);
            forall i, j :: 0 <= i < j < |r| ==> r[i].createdAt >= r[j].createdAt
    ensures var r := RecentScores(teacherId, scores);
            var mine := Seqs.Filter(scores, (a: Attempt) => a.teacherId == teacherId);
            forall i, j :: 0 <= i < |r| <= j < |mine| ==> r[i].createdAt >= mine[j].createdAt
  {
    var mine := Seqs.Filter(scores, (a: Attempt) => a.teacherId == teacherId);
    FilterNewestFirst(scores, (a: Attempt) => a.teacherId == teacherId);
    TakeNewestFirst(mine, 10);
  }

  /** The classes of this teacher (`where: { teacherId: user.id }`). */
  function TaughtBy(teacherId: Id, classes: seq<ClassData>): seq<ClassData>
  {
    Seqs.Filter(classes, (c: ClassData) => c.teacherId == teacherId)
  }

  /** The handler. 401 without a session; 403 when the user is unknown or not a
      teacher; otherwise the report. It reads its inputs and changes nothing. */
  method Analytics(sessionEmail: Option<string>, users: seq<UserModel.User>, allClasses: seq<ClassData>,
                   allScores: seq<Attempt>) returns (r: Response<Report>)
    ensures !Authenticated(sessionEmail) <==> r == Err(UNAUTHORIZED, "Not authenticated")
    ensures r == Err(FORBIDDEN, "Not authorized") <==>
              Authenticated(sessionEmail)
              && (UserModel.SessionUser(users, sessionEmail).None? || UserModel.SessionUser(users, sessionEmail).value.role != Teacher)
    ensures r.Ok? ==> r.status == OK_STATUS
    ensures r.Ok? ==>
              var me := UserModel.SessionUser(users, sessionEmail).value;
              var classes := TaughtBy(me.id, allClasses);
              r.value == Report(|Seqs.Filter(users, (u: UserModel.User) => u.role == Student)|,
                                TotalQuizzes(classes), TotalAttempts(classes), Average(AllAttempts(classes)),
                                r.value.classPerformance, RecentScores(me.id, allScores))
              && |r.value.classPerformance| == |classes|
              && forall i :: 0 <= i < |classes| ==> r.value.classPerformance[i] == StatOf(classes[i])
  {
    if !Authenticated(sessionEmail) {
      return Err(UNAUTHORIZED, "Not authenticated");
    }
    var user := UserModel.SessionUser(users, sessionEmail);
    if user.None? || user.value.role != Teacher {
      return Err(FORBIDDEN, "Not authorized");
    }
    var totalStudents := |Seqs.Filter(users, (u: UserModel.User) => u.role == Student)|;
    var classes := TaughtBy(user.value.id, allClasses);
    var totalScore, totalMaxScore := OverallTotals(classes);
    var averageScore := if totalMaxScore > 0 then Percent(totalScore, totalMaxScore) else 0;
    var classPerformance := ClassPerformance(classes);
    r := Ok(OK_STATUS, Report(totalStudents, TotalQuizzes(classes), TotalAttempts(classes), averageScore,
                              classPerformance, RecentScores(user.value.id, allScores)));
  }

  /** The overall percentage lies in 0..100 when every score is within its maximum. */
  lemma OverallAverageInRange(classes: seq<ClassData>)
    requires forall c, q, a :: c in classes && q in c.quizzes && a in q.scores ==> WellFormed(a)
    ensures 0 <= Average(AllAttempts(classes)) <= 100
  {
    var all := AllAttempts(classes);
    forall k | 0 <= k < |all| ensures WellFormed(all[k]) {
      var i, j := FlattenIndex(ClassLists(classes), k);
      var c := classes[i];
      var qj, m := FlattenIndex(QuizScores(c.quizzes), j);
      assert c.quizzes[qj] in c.quizzes && c.quizzes[qj].scores[m] in c.quizzes[qj].scores;
    }
    AverageInRange(all);
  }

  /** Every position of a flattened list comes from some inner list. */
  lemma {:induction false} FlattenIndex(ss: seq<seq<Attempt>>, k: int) returns (i: int, j: int)
    requires 0 <= k < |Flatten(ss)|
    ensures 0 <= i < |ss| && 0 <= j < |ss[i]| && Flatten(ss)[k] == ss[i][j]
  {
    var init := ss[..|ss| - 1];
    if k < |Flatten(init)| {
      i, j := FlattenIndex(init, k);
    } else {
      i, j := |ss| - 1, k - |Flatten(init)|;
    }
  }

  /** The teacher's total counts every class's attempts: the per-class counts add up. */
  lemma TotalAttemptsAppend(a: seq<ClassData>, b: seq<ClassData>)
    ensures TotalAttempts(a + b) == TotalAttempts(a) + TotalAttempts(b)
  {
    assert ClassLists(a + b) == ClassLists(a) + ClassLists(b);
    FlattenAppend(ClassLists(a), ClassLists(b));
  }

  lemma {:induction false} FlattenAppend(xs: seq<seq<Attempt>>, ys: seq<seq<Attempt>>)
    ensures Flatten(xs + ys) == Flatten(xs) + Flatten(ys)
  {
    if ys != [] {
      var init := ys[..|ys| - 1];
      assert xs + ys == (xs + init) + [ys[|ys| - 1]];
      assert ys == init + [ys[|ys| - 1]];
      FlattenSnoc(xs + init, ys[|ys| - 1]);
      FlattenSnoc(init, ys[|ys| - 1]);
      FlattenAppend(xs, init);
    } else {
      assert xs + ys == xs;
    }
  }
}
