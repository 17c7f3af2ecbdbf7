/** GET /api/leaderboard: every student's totals over the attempts inside the
    requested time window, students without such attempts dropped, ranked by
    average percentage and then by total score, both descending. */
module Leaderboard {
  import opened Common
  import opened Scoring
  import Ranking
  import Seqs

  /** A STUDENT user as the query returns it; `attempts` is the relation in any order. */
  datatype StudentRow = StudentRow(id: Id, name: Option<string>, email: string, attempts: seq<Attempt>)

  datatype RecentScore = RecentScore(quizTitle: string, score: int, maxScore: int, createdAt: int)

  datatype Entry = Entry(
    userId: Id,
    studentName: string,
    totalScore: int,
    totalMaxScore: int,
    averageScore: int,
    quizzesTaken: nat,
    recentScores: seq<RecentScore>)

  /** Which attempts count: all of them, or those created at or after a start time. */
  datatype Window = AllTime | Since(start: int)

  /** `searchParams.get('timeframe') || 'all'` and the start date derived from it.
      The clock reading and the two calendar shifts (`setDate(-7)`, `setMonth(-1)`)
      are inputs. */
  function WindowOf(timeframe: Option<string>, now: int, weekAgo: int, monthAgo: int): (w: Window)
    ensures w == AllTime <==> !Present(timeframe) || timeframe.value == "all"
    ensures timeframe == Some("week") ==> w == Since(weekAgo)
    ensures timeframe == Some("month") ==> w == Since(monthAgo)
    ensures (Present(timeframe) && timeframe.value != "all" && timeframe.value != "week"
             && timeframe.value != "month") ==> w == Since(now)
  {
    var tf := if Present(timeframe) then timeframe.value else "all";
    if tf == "all" then AllTime
    else Since(if tf == "week" then weekAgo else if tf == "month" then monthAgo else now)
  }

  predicate Counts(w: Window, a: Attempt)
  {
    w.AllTime? || a.createdAt >= w.start
  }

  /** The attempts the `quizAttempts` relation selects: those its `where` clause
      keeps, in its `orderBy: { createdAt: 'desc' }` order. */
  function Counted(s: StudentRow, w: Window): (r: seq<Attempt>)
    ensures NewestFirst(r)
    ensures forall a :: a in r <==> a in s.attempts && Counts(w, a)
  {
    var p := a => Counts(w, a);
    FilterNewestFirst(NewestOrder(s.attempts), p);
    forall a ensures a in Seqs.Filter(NewestOrder(s.attempts), p) <==> a in s.attempts && p(a) {
      Seqs.FilterMember(NewestOrder(s.attempts), p, a);
    }
    Seqs.Filter(NewestOrder(s.attempts), p)
  }

  /** One student's leaderboard entry. */
  function EntryOf(s: StudentRow, w: Window): (e: Entry)
    ensures e.userId == s.id
    ensures e.studentName == NameOr(s.name, s.email)
    ensures e.quizzesTaken == |Counted(s, w)| == |e.recentScores|
    ensures e.totalScore == TotalScore(Counted(s, w)) && e.totalMaxScore == TotalMax(Counted(s, w))
    ensures e.averageScore == Percent(e.totalScore, e.totalMaxScore)
    ensures forall i :: 0 <= i < |e.recentScores| ==>
              var a := Counted(s, w)[i];
              e.recentScores[i] == RecentScore(a.quizTitle, a.score, a.maxScore, a.createdAt)
    ensures forall i, j :: 0 <= i < j < |e.recentScores| ==> e.recentScores[i].createdAt >= e.recentScores[j].createdAt
  {
    var scores := Counted(s, w);
    Entry(s.id, NameOr(s.name, s.email), TotalScore(scores), TotalMax(scores), Average(scores), |scores|,
          seq(|scores|, i requires 0 <= i < |scores| =>
            RecentScore(scores[i].quizTitle, scores[i].score, scores[i].maxScore, scores[i].createdAt)))
  }

  /** The comparator's keys: average first, total score second. */
  function RankKey(e: Entry): Ranking.Key
  {
    Ranking.Key(e.averageScore, e.totalScore)
  }

  function Entries(students: seq<StudentRow>, w: Window): seq<Entry>
  {
    seq(|students|, i requires 0 <= i < |students| => EntryOf(students[i], w))
  }

  predicate HasAttempts(e: Entry) { e.quizzesTaken > 0 }

  /** Average descending, ties broken by total score descending. */
  predicate RankedDesc(es: seq<Entry>)
  {
    forall i, j :: 0 <= i < j < |es| ==>
      es[i].averageScore > es[j].averageScore
      || (es[i].averageScore == es[j].averageScore && es[i].totalScore >= es[j].totalScore)
  }

  /** The whole handler after the query. */
  function Leaderboard(sessionEmail: Option<string>, timeframe: Option<string>, now: int, weekAgo: int, monthAgo: int,
                       students: seq<StudentRow>): (r: Response<seq<Entry>>)
    ensures r.Err? <==> !Authenticated(sessionEmail)
    ensures r.Err? ==> r.status == UNAUTHORIZED
    ensures r.Ok? ==> r.status == OK_STATUS
    ensures r.Ok? ==> forall i :: 0 <= i < |r.value| ==> r.value[i].quizzesTaken > 0
    ensures r.Ok? ==> RankedDesc(r.value)
    ensures r.Ok? ==> (multiset(r.value)
              == multiset(Seqs.Filter(Entries(students, WindowOf(timeframe, now, weekAgo, monthAgo)), HasAttempts)))
  {
    if !Authenticated(sessionEmail) then Err(UNAUTHORIZED, "Not authenticated")
    else
      var w := WindowOf(timeframe, now, weekAgo, monthAgo);
      var kept := Seqs.Filter(Entries(students, w), HasAttempts);
      var ranked := Ranking.SortDesc(kept, RankKey);
      assert forall i :: 0 <= i < |ranked| ==> ranked[i].quizzesTaken > 0 by {
        forall i | 0 <= i < |ranked| ensures ranked[i].quizzesTaken > 0 {
          assert ranked[i] in multiset(ranked);
          assert ranked[i] in kept;
        }
      }
      assert RankedDesc(ranked) by {
        forall i, j | 0 <= i < j < |ranked|
          ensures ranked[i].averageScore > ranked[j].averageScore
                  || (ranked[i].averageScore == ranked[j].averageScore && ranked[i].totalScore >= ranked[j].totalScore)
        {
          assert Ranking.Ahead(RankKey(ranked[i]), RankKey(ranked[j]));
        }
      }
      Ok(OK_STATUS, ranked)
  }

  /** An entry is listed exactly when it belongs to a student with at least one
      counted attempt: nobody with such an attempt is dropped, nobody else appears. */
  lemma LeaderboardMembers(sessionEmail: Option<string>, timeframe: Option<string>, now: int, weekAgo: int, monthAgo: int,
                           students: seq<StudentRow>, e: Entry)
    requires Authenticated(sessionEmail)
    ensures var w := WindowOf(timeframe, now, weekAgo, monthAgo);
            e in Leaderboard(sessionEmail, timeframe, now, weekAgo, monthAgo, students).value
            <==> exists i :: 0 <= i < |students| && e == EntryOf(students[i], w) && |Counted(students[i], w)| > 0
  {
    var w := WindowOf(timeframe, now, weekAgo, monthAgo);
    var r := Leaderboard(sessionEmail, timeframe, now, weekAgo, monthAgo, students).value;
    var entries := Entries(students, w);
    Seqs.FilterMember(entries, HasAttempts, e);
    assert e in r <==> e in multiset(r);
    assert e in r <==> e in entries && HasAttempts(e);
    EntriesMember(students, w, e);
  }

  lemma EntriesMember(students: seq<StudentRow>, w: Window, e: Entry)
    ensures e in Entries(students, w) && HasAttempts(e)
            <==> exists i :: 0 <= i < |students| && e == EntryOf(students[i], w) && |Counted(students[i], w)| > 0
  {
    if e in Entries(students, w) && HasAttempts(e) {
      var i := EntryIndex(students, w, e);
      EntryHasAttempts(students[i], w);
    }
    if exists i :: 0 <= i < |students| && e == EntryOf(students[i], w) && |Counted(students[i], w)| > 0 {
      var i :| 0 <= i < |students| && e == EntryOf(students[i], w) && |Counted(students[i], w)| > 0;
      assert Entries(students, w)[i] == e;
      EntryHasAttempts(students[i], w);
    }
  }

  lemma EntryHasAttempts(s: StudentRow, w: Window)
    ensures HasAttempts(EntryOf(s, w)) <==> |Counted(s, w)| > 0
  {
  }

  lemma EntryIndex(students: seq<StudentRow>, w: Window, e: Entry) returns (i: nat)
    requires e in Entries(students, w)
    ensures i < |students| && e == EntryOf(students[i], w)
  {
    var entries := Entries(students, w);
    var k :| 0 <= k < |entries| && entries[k] == e;
    i := k;
  }

  /** With no timeframe (or 'all') every attempt counts. */
  lemma AllTimeCountsEverything(s: StudentRow, now: int, weekAgo: int, monthAgo: int)
    ensures EntryOf(s, WindowOf(None, now, weekAgo, monthAgo)).quizzesTaken == |s.attempts|
    ensures EntryOf(s, WindowOf(None, now, weekAgo, monthAgo)).totalScore == TotalScore(s.attempts)
    ensures EntryOf(s, WindowOf(None, now, weekAgo, monthAgo)).totalMaxScore == TotalMax(s.attempts)
  {
    var sorted := NewestOrder(s.attempts);
    Seqs.FilterAll(sorted, a => Counts(AllTime, a));
    TotalsPermutation(sorted, s.attempts);
  }

  /** Inside a window only attempts created at or after its start are counted,
      and every one of them is. */
  lemma WindowedEntry(s: StudentRow, start: int)
    ensures forall i :: 0 <= i < |EntryOf(s, Since(start)).recentScores| ==>
              EntryOf(s, Since(start)).recentScores[i].createdAt >= start
    ensures forall a :: a in s.attempts && a.createdAt >= start ==> a in Counted(s, Since(start))
  {
    var counted := Counted(s, Since(start));
    forall i | 0 <= i < |counted| ensures counted[i].createdAt >= start {
      assert counted[i] in counted;
    }
  }

  /** A timeframe other than week, month or all leaves the start at the current time,
      yet still filters. */
  lemma UnknownTimeframeFiltersFromNow(s: StudentRow, tf: string, now: int, weekAgo: int, monthAgo: int)
    requires tf != "" && tf != "all" && tf != "week" && tf != "month"
    ensures EntryOf(s, WindowOf(Some(tf), now, weekAgo, monthAgo)) == EntryOf(s, Since(now))
  {
  }

  /** Averages are percentages when every attempt's score is within its maximum. */
  lemma EntryAverageInRange(s: StudentRow, w: Window)
    requires AllWellFormed(s.attempts)
    ensures 0 <= EntryOf(s, w).averageScore <= 100
  {
    var counted := Counted(s, w);
    forall i | 0 <= i < |counted| ensures WellFormed(counted[i]) {
      assert counted[i] in counted;
      var k :| 0 <= k < |s.attempts| && s.attempts[k] == counted[i];
    }
    AverageInRange(counted);
  }
}
