/** The students list of a class page: the fetch of the class's students, then
    the skeleton, the error, the "No students" notice, or one row per student with
    the student's name (or a placeholder), average percentage and number of quizzes taken. */
module StudentsList {
  import opened Common
  import opened Scoring

  datatype StudentItem = StudentItem(id: Id, name: Option<string>, email: string, quizScores: seq<Attempt>)

  datatype Row = Row(displayName: string, email: string, averageScore: int, quizzesTaken: nat)

  /** The component's React state. */
  datatype State = State(students: seq<StudentItem>, loading: bool, error: Option<string>)

  /** The state of the first render. */
  function Initial(): (st: State)
    ensures st.students == [] && st.loading && st.error.None?
  {
    State([], true, None)
  }

  /** `fetchStudents`: stores the list or the message, and always ends the loading state. */
  function StudentsFetched(st: State, o: FetchOutcome<seq<StudentItem>>): (r: State)
    ensures !r.loading
    ensures o.Received? ==> r == st.(students := o.value, loading := false)
    ensures !o.Received? ==> r == st.(error := Some(FailureMessage(o, "Failed to fetch students", "Something went wrong")), loading := false)
  {
    if o.Received? then st.(students := o.value, loading := false)
    else st.(error := Some(FailureMessage(o, "Failed to fetch students", "Something went wrong")), loading := false)
  }

  /** The skeleton while loading, then a truthy error, then the "No students"
      notice for an empty list, otherwise the rows. */
  datatype View = Loading | Failed(message: string) | NoStudents | Rows(rows: seq<Row>)

  function RowOf(s: StudentItem): (r: Row)
    ensures r.displayName == NameOr(s.name, "Unnamed Student")
    ensures r.email == s.email
    ensures r.quizzesTaken == |s.quizScores|
    ensures TotalMax(s.quizScores) <= 0 ==> r.averageScore == 0
    ensures TotalMax(s.quizScores) > 0 ==>
              2 * TotalMax(s.quizScores) * r.averageScore <= 200 * TotalScore(s.quizScores) + TotalMax(s.quizScores)
                < 2 * TotalMax(s.quizScores) * (r.averageScore + 1)
  {
    Row(NameOr(s.name, "Unnamed Student"), s.email, Average(s.quizScores), |s.quizScores|)
  }

  function Render(st: State): (v: View)
    ensures v.Loading? <==> st.loading
    ensures v.Failed? <==> !st.loading && Present(st.error)
    ensures v.Failed? ==> v.message == st.error.value
    ensures v.NoStudents? <==> !st.loading && !Present(st.error) && st.students == []
    ensures v.Rows? ==> |v.rows| == |st.students| && forall i :: 0 <= i < |st.students| ==> v.rows[i] == RowOf(st.students[i])
  {
    if st.loading then Loading
    else if Present(st.error) then Failed(st.error.value)
    else if st.students == [] then NoStudents
    else Rows(seq(|st.students|, i requires 0 <= i < |st.students| => RowOf(st.students[i])))
  }

  /** A successful fetch shows one row per student, or the notice when there are none. */
  lemma FetchedStudentsShown(students: seq<StudentItem>)
    ensures students == [] ==> Render(StudentsFetched(Initial(), Received(students))) == NoStudents
    ensures students != [] ==>
              var v := Render(StudentsFetched(Initial(), Received(students)));
              v.Rows? && |v.rows| == |students| && forall i :: 0 <= i < |students| ==> v.rows[i] == RowOf(students[i])
  {
  }

  /** A failed fetch shows its message, unless it is an `Error` with an empty one,
      which leaves the "No students" notice. */
  lemma FailedFetchShown(o: FetchOutcome<seq<StudentItem>>)
    requires !o.Received?
    ensures o.NotOk? ==> Render(StudentsFetched(Initial(), o)) == Failed("Failed to fetch students")
    ensures o.Thrown? && o.message.None? ==> Render(StudentsFetched(Initial(), o)) == Failed("Something went wrong")
    ensures o == Thrown(Some("")) ==> Render(StudentsFetched(Initial(), o)) == NoStudents
  {
  }

  /** Every shown average is a percentage when each score is within its maximum. */
  lemma RowAverageInRange(s: StudentItem)
    requires AllWellFormed(s.quizScores)
    ensures 0 <= RowOf(s).averageScore <= 100
  {
    AverageInRange(s.quizScores);
  }

  /** Full marks on every quiz show 100%, and none at all shows 0%. */
  lemma RowAverageExtremes(s: StudentItem)
    requires TotalMax(s.quizScores) > 0
    ensures TotalScore(s.quizScores) == TotalMax(s.quizScores) ==> RowOf(s).averageScore == 100
    ensures TotalScore(s.quizScores) == 0 ==> RowOf(s).averageScore == 0
  {
    PercentEndpoints(TotalMax(s.quizScores));
  }
}
