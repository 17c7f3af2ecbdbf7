/** The teacher's quizzes page: the role check and quiz fetch that run once a
    session exists, the view chosen from the page state, and the title-or-class
    search over the fetched quizzes. */
module QuizzesPage {
  import opened Common
  import Strings
  import Seqs

  /** A quiz as the page lists it (the statistics are only displayed). */
  datatype QuizItem = QuizItem(id: Id, title: string, className: string, classId: Id, createdAt: int)

  /** The page's React state together with the session it sees. */
  datatype Page = Page(
    sessionEmail: Option<string>,
    userRole: Option<string>,
    quizzes: seq<QuizItem>,
    loading: bool,
    error: Option<string>,
    searchQuery: string)

  /** The state of the first render. */
  function Initial(sessionEmail: Option<string>): (p: Page)
    ensures p.userRole.None? && p.quizzes == [] && p.loading && p.error.None? && p.searchQuery == ""
    ensures p.sessionEmail == sessionEmail
  {
    Page(sessionEmail, None, [], true, None, "")
  }

  /** The role check runs whenever the session carries an email. */
  predicate ChecksRole(p: Page)
  {
    Present(p.sessionEmail)
  }

  /** The quizzes are fetched, and the page shown, only to a signed-in teacher. */
  predicate FetchesQuizzes(p: Page)
  {
    Present(p.sessionEmail) && p.userRole == Some("TEACHER")
  }

  /** `checkRole`: stores the role on success, the message on failure. */
  function RoleChecked(p: Page, o: FetchOutcome<Option<string>>): (r: Page)
    requires ChecksRole(p)
    ensures o.Received? ==> r == p.(userRole := o.value)
    ensures !o.Received? ==> r == p.(error := Some(FailureMessage(o, "Failed to check role", "Failed to check role")))
  {
    if o.Received? then p.(userRole := o.value)
    else p.(error := Some(FailureMessage(o, "Failed to check role", "Failed to check role")))
  }

  /** `fetchQuizzes`: stores the list or the message, and always ends the loading state. */
  function QuizzesFetched(p: Page, o: FetchOutcome<seq<QuizItem>>): (r: Page)
    requires FetchesQuizzes(p)
    ensures !r.loading
    ensures o.Received? ==> r == p.(quizzes := o.value, loading := false)
    ensures !o.Received? ==> r == p.(error := Some(FailureMessage(o, "Failed to fetch quizzes", "Failed to load quizzes")), loading := false)
  {
    if o.Received? then p.(quizzes := o.value, loading := false)
    else p.(error := Some(FailureMessage(o, "Failed to fetch quizzes", "Failed to load quizzes")), loading := false)
  }

  /** A quiz matches when its title or its class name contains the query, ignoring case. */
  predicate Matches(q: QuizItem, query: string)
  {
    Strings.Includes(Strings.Lower(q.title), Strings.Lower(query))
    || Strings.Includes(Strings.Lower(q.className), Strings.Lower(query))
  }

  /** `filteredQuizzes`. */
  function Filtered(quizzes: seq<QuizItem>, query: string): (r: seq<QuizItem>)
    ensures forall q :: q in r <==> q in quizzes && Matches(q, query)
    ensures |r| <= |quizzes|
  {
    var p := (q: QuizItem) => Matches(q, query);
    forall q ensures q in Seqs.Filter(quizzes, p) <==> q in quizzes && p(q) {
      Seqs.FilterMember(quizzes, p, q);
    }
    Seqs.Filter(quizzes, p)
  }

  datatype View = AccessDenied | Loading | Failed(message: string) | Listed(shown: seq<QuizItem>)

  /** What the page renders: access denied first, then the skeleton, then the
      error, then the filtered list. */
  function Render(p: Page): (v: View)
    ensures v.AccessDenied? <==> !FetchesQuizzes(p)
    ensures v.Loading? <==> FetchesQuizzes(p) && p.loading
    ensures v.Failed? <==> FetchesQuizzes(p) && !p.loading && Present(p.error)
    ensures v.Failed? ==> v.message == p.error.value
    ensures v.Listed? ==> forall q :: q in v.shown <==> q in p.quizzes && Matches(q, p.searchQuery)
  {
    if !FetchesQuizzes(p) then AccessDenied
    else if p.loading then Loading
    else if Present(p.error) then Failed(p.error.value)
    else Listed(Filtered(p.quizzes, p.searchQuery))
  }

  /** The empty search shows every quiz, in the order received. */
  lemma EmptySearchListsAll(quizzes: seq<QuizItem>)
    ensures Filtered(quizzes, "") == quizzes
  {
    assert Strings.Lower("") == "";
    forall i | 0 <= i < |quizzes| ensures Matches(quizzes[i], "") {
      Strings.IncludesEmpty(Strings.Lower(quizzes[i].title));
    }
    Seqs.FilterAll(quizzes, (q: QuizItem) => Matches(q, ""));
  }

  /** The search keeps the received order: filtering a concatenation filters each part. */
  lemma FilterKeepsOrder(a: seq<QuizItem>, b: seq<QuizItem>, query: string)
    ensures Filtered(a + b, query) == Filtered(a, query) + Filtered(b, query)
  {
    Seqs.FilterAppend(a, b, (q: QuizItem) => Matches(q, query));
  }

  /** Until the role check answers, even a teacher sees the access-denied view. */
  lemma DeniedBeforeRoleKnown(sessionEmail: Option<string>)
    ensures Render(Initial(sessionEmail)) == AccessDenied
  {
  }

  /** A signed-in teacher whose role check and quiz fetch both succeed sees every fetched quiz. */
  lemma TeacherSeesFetchedQuizzes(email: string, quizzes: seq<QuizItem>)
    requires email != ""
    ensures var p := Initial(Some(email));
            ChecksRole(p) && FetchesQuizzes(RoleChecked(p, Received(Some("TEACHER"))))
    ensures Render(QuizzesFetched(RoleChecked(Initial(Some(email)), Received(Some("TEACHER"))),
                                  Received(quizzes))) == Listed(quizzes)
  {
    EmptySearchListsAll(quizzes);
  }

  /** Any other role keeps the page denied, whatever state the rest of the page is in. */
  lemma OtherRolesDenied(p: Page, role: Option<string>)
    requires ChecksRole(p) && role != Some("TEACHER")
    ensures Render(RoleChecked(p, Received(role))) == AccessDenied
  {
  }

  /** An `Error` thrown with an empty message is not shown: the page falls through
      to the list, which is still empty. */
  lemma EmptyMessageListsNothing(p: Page)
    requires FetchesQuizzes(p) && p.quizzes == [] && p.error.None?
    ensures Render(QuizzesFetched(p, Thrown(Some("")))) == Listed([])
  {
  }
}
