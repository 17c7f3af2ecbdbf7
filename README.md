# MathMaster core, modelled in Dafny

MathMaster is a quiz platform for classes. Teachers create classes and quizzes, students join a
class with its code and take the quizzes, and the read endpoints report scores: the leaderboard,
the dashboards, the analytics, and the students and quizzes lists. This project models that
platform's deterministic logic and proves properties about it:

- **Score aggregation.** Every endpoint sums attempt scores and maxima and reports
  `Math.round(total / max * 100)`, or 0 when the maximum is 0. This is `Scoring.Percent`, specified
  as exact round-half-up. The per-endpoint functions over attempt sequences are built on it, and so
  is a stable two-key descending sort (`Ranking.SortDesc`).
- **Guard chains.** Each route handler is an ordered sequence of checks. Each check maps to an
  exact status and message: session, user lookup, role, body validation, duplicate lookup. The
  model proves the chain as a set of if-and-only-if postconditions, followed by the handler's
  effect on the store.
- **Schemas.** The Mongoose schemas give Score, Class, User and Quiz records. Their unique indexes
  are predicates, and each store insert is proved to keep them.
- **Auth.** The `authorize`, `jwt` and `session` callbacks of NextAuth, and the middleware's path
  gate.
- **Client logic.**
  - The quiz editors' question and option edits. The editing dialog of an existing quiz mutates
    shared question objects in place, so it is modelled with classes.
  - The search filters of the students and quizzes pages.
  - The class-option list of the students page.

Database queries are not modelled. Each query result is an input sequence in the order the query
returns it, and only the computation after the query is modelled. Where a route orders a relation
itself (`orderBy: { createdAt: 'desc' }` on a quiz's scores or a student's attempts), the model
sorts with `Scoring.NewestOrder`. Elsewhere the caller supplies the list already in the query's
order.

Imperative parts:

- The class join appends to the student list of a `ClassDocument` object (`ClassDocument.Enroll`).
- The analytics totals are `while` loops that accumulate, proved equal to the folds
  `TotalScore` and `TotalMax`.
- The question editor of an existing quiz is a `QuestionsEditor` holding `QuestionBox` objects.
  Each of its methods is proved against a value-level function (`OptionAdded`, `OptionSet`,
  `OptionRemoved`, `RemoveAt`, `ChangeAt`) over its `Snapshot()`.

Where the code and the product description differ, the model follows the code:

- Class codes get no collision check beyond the unique index. The handler itself does not retry.
- Registration checks for an existing email through the provider, and `.single()` yields a row
  only when exactly one matches.
- The quizzes page denies access until the role check has answered.

## Model

| member | source | states |
|---|---|---|
| Scoring.Percent | src/app/api/leaderboard/route.ts:72-76 | a zero or negative maximum gives 0; otherwise the result is the nearest integer to 100·total/max, with halves rounded up |
| Scoring.PercentZeroGuard | src/app/api/students/route.ts:84-86 | a non-positive maximum total never divides and yields 0 |
| Scoring.PercentBounds | src/components/classes/students-list.tsx:77-81 | a total between 0 and the maximum gives a percentage between 0 and 100 |
| Scoring.PercentEndpoints | src/app/api/quizzes/route.ts:75-79 | full marks are 100 and no marks are 0 |
| Scoring.TotalsAppend | src/app/api/analytics/route.ts:56-63 | the sums over a concatenation are the sums of the parts |
| Scoring.TotalsBounded | src/app/api/leaderboard/route.ts:72-73 | well-formed attempts sum to a score total between 0 and the maximum total |
| Scoring.AverageInRange | src/app/api/leaderboard/route.ts:72-76 | the reported average of well-formed attempts lies in 0..100 |
| Scoring.AverageOfNone | src/app/api/students/route.ts:82-86 | no attempts at all average to 0 rather than failing |
| Scoring.Take | src/app/api/dashboard/route.ts:96 | `take: n` keeps the first min(n, length) rows unchanged |
| Scoring.FlattenLength | src/app/api/dashboard/route.ts:350 | flattening keeps every attempt: the length is the sum of the inner lengths |
| Scoring.FlattenSnoc | src/app/api/dashboard/route.ts:350 | flattening one more list appends exactly that list |
| Scoring.FlattenContains | src/app/api/dashboard/route.ts:350 | every attempt of every inner list occurs in the flattened list |
| Scoring.FilterNewestFirst | src/app/api/students/route.ts:77-79 | filtering a newest-first list keeps it newest first |
| Scoring.TakeNewestFirst | src/app/api/dashboard/route.ts:93-96 | the first n of a newest-first list are newest first, and none is older than any row left out |
| Scoring.NewestOrder | src/app/api/quizzes/route.ts:50-53 | the relation ordered by creation time descending: newest first, a permutation of the input, with the same members |
| Scoring.TotalsPermutation | src/app/api/quizzes/route.ts:75-79 | the summed score and maximum do not depend on the order of the attempts |
| Scoring.NewestHead | src/app/api/quizzes/route.ts:91 | the head of that order is an attempt of the list, and no attempt is newer |
| Ranking.Insert | src/app/api/leaderboard/route.ts:96-101 | inserting into a descending list keeps it descending, and adds exactly the element |
| Ranking.SortDesc | src/app/api/leaderboard/route.ts:96-101 | the result is ordered by the two-key comparator, and is a permutation of the input |
| Leaderboard.WindowOf | src/app/api/leaderboard/route.ts:19-27 | a missing timeframe or 'all' counts everything; week and month start at their shifted dates; any other value starts now |
| Leaderboard.Counted | src/app/api/leaderboard/route.ts:45-53 | the relation's attempts that the window keeps, and only those, newest first |
| Leaderboard.EntryOf | src/app/api/leaderboard/route.ts:45-92 | an entry holds the student's id, the name with the email as fallback, totals and percentage over the counted attempts, and one recent score per counted attempt, newest first |
| Leaderboard.Leaderboard | src/app/api/leaderboard/route.ts:10-103 | 401 exactly without a session; otherwise every listed entry has an attempt, the list is ranked by average and then by total, both descending, and it is a permutation of the entries that have attempts |
| Leaderboard.LeaderboardMembers | src/app/api/leaderboard/route.ts:93-94 | an entry is listed iff it is the entry of a student with at least one counted attempt |
| Leaderboard.EntriesMember | src/app/api/leaderboard/route.ts:69-94 | membership in the mapped-and-filtered list is membership of some student's entry that has attempts |
| Leaderboard.EntryIndex | src/app/api/leaderboard/route.ts:69-70 | every mapped entry comes from a student at some index |
| Leaderboard.AllTimeCountsEverything | src/app/api/leaderboard/route.ts:19-53 | with no timeframe every attempt counts, in quizzesTaken, totalScore and totalMaxScore, whatever order the relation is stored in |
| Leaderboard.WindowedEntry | src/app/api/leaderboard/route.ts:46-50 | inside a window only attempts at or after its start are counted, and every such attempt is |
| Leaderboard.UnknownTimeframeFiltersFromNow | src/app/api/leaderboard/route.ts:22-27 | an unknown timeframe filters from the current time |
| Leaderboard.EntryAverageInRange | src/app/api/leaderboard/route.ts:72-76 | an entry's average is a percentage when the student's attempts are well formed |
| Dashboard.TeacherAttempts | src/app/api/dashboard/route.ts:64-97 | the first min(10, n) of the teacher's n attempts, in the query's order; all on the teacher's quizzes and all from the input |
| Dashboard.TeacherRecentIsNewest | src/app/api/dashboard/route.ts:93-96 | from attempts newest first, the teacher's recent attempts are newest first and none of the teacher's attempts left out is newer |
| Dashboard.FirstClassName | src/app/api/dashboard/route.ts:159 | the first joined class's name, or 'Multiple Classes' when there is none or its name is empty |
| Dashboard.Performer | src/app/api/dashboard/route.ts:152-161 | a performer keeps the name, takes the class name from the teacher's classes only, and scores the teacher's attempts only |
| Dashboard.Performers | src/app/api/dashboard/route.ts:113-150 | min(5, n) performers for n eligible rows, each the formatting of an eligible row |
| Dashboard.TopPerformers | src/app/api/dashboard/route.ts:152-162 | at most five, sorted by score descending, and a permutation of the formatted performers |
| Dashboard.TeacherDashboard | src/app/api/dashboard/route.ts:100-172 | the teacher's stats carry the three counts and the average over the fetched attempts; there is one activity line per fetched attempt, titled with the name or the email; and the top performers |
| Dashboard.OwnAttempts | src/app/api/dashboard/route.ts:197-219 | an attempt is kept iff it is one of the caller's own |
| Dashboard.ClassPerformanceOf | src/app/api/dashboard/route.ts:349-361 | the class's scores are flattened; quizzesTaken is their count, the average is their percentage, and the rank is always 1 |
| Dashboard.StudentDashboard | src/app/api/dashboard/route.ts:282-381 | quizzesCompleted is the attempt count and averageScore their percentage; rank is studentRank + 1; activity is the first 10 attempts; one performance entry per class; the first 6 upcoming quizzes |
| Dashboard.Dashboard | src/app/api/dashboard/route.ts:10-28 | 401 iff no session, then 404 iff the user is unknown, then the teacher or the student branch by role |
| Dashboard.TeacherAverageIgnoresOlder | src/app/api/dashboard/route.ts:93-103 | once ten attempts on the teacher's quizzes exist, older attempts change nothing |
| Dashboard.TeacherActivityNewestFirst | src/app/api/dashboard/route.ts:165-172 | teacher activity is in creation-time descending order |
| Dashboard.StudentRecentIsNewest | src/app/api/dashboard/route.ts:365-372 | student activity holds the newest attempts, and none left out is newer |
| Dashboard.PerformerScoreInRange | src/app/api/dashboard/route.ts:153-155 | a performer's score is a percentage |
| Dashboard.ClassPerformanceCountsAll | src/app/api/dashboard/route.ts:350-358 | every score of every quiz of the class is counted |
| Dashboard.CountAllBound | src/app/api/dashboard/route.ts:358 | the flattened count is at least each quiz's own count |
| Analytics.TotalQuizzes | src/app/api/analytics/route.ts:47 | 0 for no classes, and at least each class's count |
| Analytics.TotalQuizzesAppend | src/app/api/analytics/route.ts:47 | the count is the sum of the classes' quiz counts: additive over concatenation, one class counting its own quizzes |
| Analytics.QuizAttemptTotal | src/app/api/analytics/route.ts:49 | the inner reduce counts exactly the class's flattened scores |
| Analytics.TotalAttempts | src/app/api/analytics/route.ts:48-51 | the nested reduce counts exactly the scores the forEach loops visit |
| Analytics.AddScores | src/app/api/analytics/route.ts:58-61 | the innermost loop adds the score and maximum sums of the list |
| Analytics.AddClass | src/app/api/analytics/route.ts:57-62 | the loop over a class's quizzes adds the sums of all its scores |
| Analytics.OverallTotals | src/app/api/analytics/route.ts:54-63 | the nested loops compute exactly the total score and maximum of every score of every class |
| Analytics.ClassPerformance | src/app/api/analytics/route.ts:69-87 | one entry per class in the same order, each with its own fresh totals |
| Analytics.RecentScores | src/app/api/analytics/route.ts:90-129 | the first 10 of the teacher's scores, each named with the name or the email |
| Analytics.RecentScoresNewestFirst | src/app/api/analytics/route.ts:111-114 | from scores newest first, the recent scores are newest first and none of the teacher's scores left out is newer |
| Analytics.Analytics | src/app/api/analytics/route.ts:10-51 | 401 iff no session; 403 'Not authorized' iff the user is unknown or not a teacher; otherwise the report over the teacher's classes, with the student count over role STUDENT |
| Analytics.OverallAverageInRange | src/app/api/analytics/route.ts:64-66 | the overall percentage lies in 0..100 for well-formed scores |
| Analytics.FlattenIndex | src/app/api/analytics/route.ts:56-63 | every visited score comes from some class and quiz |
| Analytics.TotalAttemptsAppend | src/app/api/analytics/route.ts:48-51 | the attempt count over two groups of classes is the sum of the two counts |
| Analytics.FlattenAppend | src/app/api/analytics/route.ts:56-63 | flattening distributes over concatenation |
| StudentsRoute.ValidAttempts | src/app/api/students/route.ts:51-79 | newest first, and an attempt is valid iff it is the student's and on one of the teacher's quizzes |
| StudentsRoute.Summary | src/app/api/students/route.ts:75-103 | id, name and email are copied; only the teacher's classes are listed; totalAttempts and averageScore are over the valid attempts; recentScore is null iff there are none, otherwise the first |
| StudentsRoute.Students | src/app/api/students/route.ts:10-106 | 401 iff no session; 403 iff the user is unknown or not a teacher; otherwise one summary per listed student |
| StudentsRoute.RecentScoreIsNewest | src/app/api/students/route.ts:96-101 | the recent score is no older than any valid attempt |
| StudentsRoute.OtherTeachersIgnored | src/app/api/students/route.ts:77-79 | an attempt on another teacher's quiz never becomes valid, nor changes which attempts are |
| QuizzesRoute.Summary | src/app/api/quizzes/route.ts:73-98 | the question count and the score count; the average over the scores; recentAttempt is null iff there are no scores, otherwise the newest, named with the name or the email |
| QuizzesRoute.TeacherQuizzes | src/app/api/quizzes/route.ts:29-69 | exactly the teacher's quizzes, by creation time descending |
| QuizzesRoute.Quizzes | src/app/api/quizzes/route.ts:10-101 | 401 iff no session; 403 iff the user is unknown or not a teacher; otherwise one summary per quiz, newest first |
| QuizzesRoute.QuizListed | src/app/api/quizzes/route.ts:29-73 | every quiz of the teacher has its summary listed, and every listed summary is that of a quiz of the teacher |
| QuizzesRoute.SummaryAverageIgnoresOrder | src/app/api/quizzes/route.ts:50-79 | the average over the newest-first scores equals the average of the scores as stored |
| QuizzesRoute.QuizAverageInRange | src/app/api/quizzes/route.ts:77-79 | a quiz's average is a percentage |
| StudentsList.RowOf | src/components/classes/students-list.tsx:76-106 | the name, or 'Unnamed Student'; the email; quizzesTaken is the score count; the average is 0 for a zero maximum, otherwise the rounded percentage |
| StudentsList.Initial | src/components/classes/students-list.tsx:19-21 | no students, loading, no error |
| StudentsList.StudentsFetched | src/components/classes/students-list.tsx:23-37 | stores the list, or 'Failed to fetch students' for a non-ok response, an Error's message, or 'Something went wrong'; always ends loading |
| StudentsList.Render | src/components/classes/students-list.tsx:42-106 | the skeleton iff loading; then the error view iff the error is a non-empty string, showing it; then 'No students' iff the list is empty; otherwise one row per student |
| StudentsList.FetchedStudentsShown | src/components/classes/students-list.tsx:30-76 | after a successful fetch, 'No students' for an empty list, otherwise one row per fetched student |
| StudentsList.FailedFetchShown | src/components/classes/students-list.tsx:27-59 | a failed fetch shows its message; an Error with an empty message falls through to 'No students' |
| StudentsList.RowAverageInRange | src/components/classes/students-list.tsx:77-81 | the shown average lies in 0..100 |
| StudentsList.RowAverageExtremes | src/components/classes/students-list.tsx:79-81 | full marks show 100 and no marks show 0 |
| ClassesJoin.Admit | src/app/api/classes/join/route.ts:49-57 | refused iff already enrolled; otherwise the id is appended and earlier entries are unchanged |
| ClassesJoin.AdmitKeepsDistinct | src/app/api/classes/join/route.ts:49-57 | admission keeps the student list free of duplicates and adds only the caller |
| ClassesJoin.FindClass | src/app/api/classes/join/route.ts:38 | the first class whose code equals the given code exactly, or -1 iff there is none |
| ClassesJoin.ClassDocument.Enroll | src/app/api/classes/join/route.ts:57 | the student list becomes the old list plus the caller |
| ClassesJoin.Join | src/app/api/classes/join/route.ts:11-75 | each of the six failures with its exact status and message, iff all earlier checks passed; no list changes on failure; on success the caller is appended to exactly the found class, and the counts report the new length and the quizzes or 0 |
| ClassesRoute.Format | src/app/api/classes/route.ts:43-55 | fields are copied; the student count is the list length or 0; the quiz count is the virtual or 0 |
| ClassesRoute.List | src/app/api/classes/route.ts:13-57 | 401 and 404 with their messages; otherwise a class is listed iff it is taught by the user (teacher) or has the user as a student (others) |
| ClassesRoute.ListMembers | src/app/api/classes/route.ts:34-55 | the formatted list holds exactly the formatted selected classes |
| ClassesRoute.InvalidNameIffBlank | src/app/api/classes/route.ts:98 | a name is refused iff it is absent, not a string, or whitespace only |
| ClassesRoute.Create | src/app/api/classes/route.ts:72-139 | 401, 404, 403 and 400 with their messages, each iff the earlier checks passed; 500 iff the generated code is empty or already used; the store is unchanged on error; on success a 201 with the trimmed name, the upper-cased code, the teacher and no students; code uniqueness is kept |
| ClassesRoute.CreatedClassShape | src/app/api/classes/route.ts:119-133 | a created class has a trimmed, non-empty name and a code as long as the generated one with no lower-case letter |
| Register.CountEmail | src/app/api/auth/register/route.ts:37-41 | the number of matching rows, exactly: 0 iff the email is absent |
| Register.Register | src/app/api/auth/register/route.ts:14-95 | missing fields, then an invalid role, then an existing email, then the provider error, then a missing user, each with its status and message; 201 echoes id, name, email and role, never ADMIN and never the password |
| Register.ProviderDecides | src/app/api/auth/register/route.ts:51-76 | for valid fields and an email the lookup does not find, success iff the provider created a user, and its error message is returned as is |
| Register.RegisteredEmailRefused | src/app/api/auth/register/route.ts:36-48 | an email the lookup finds is refused whatever the provider would answer |
| Register.DuplicatedEmailReachesProvider | src/app/api/auth/register/route.ts:36-48 | `.single()` finds no row when two match, so an email stored twice is not refused and the provider decides |
| AdminUsers.ListUsers | src/app/api/admin/users/route.ts:12-36 | 401 iff the caller is not an admin; otherwise one entry per user with id, name, email and role |
| AdminUsers.CreateTeacher | src/app/api/admin/users/route.ts:51-114 | 401, 'Invalid input', 'User already exists' and 500, each iff its condition holds after the earlier ones; the store is unchanged on error; on success the new teacher is stored with the hashed password; emails stay unique |
| AdminUsers.CreatedTeacherListed | src/app/api/admin/users/route.ts:88-107 | after creation the new user is the last entry of the admin listing, and the stored password is the hash of the submitted password |
| Auth.Authorize | src/lib/auth.ts:16-43 | every failure is 'Invalid credentials'; success iff both fields are present, the email is known and the password compares; the result carries the stored id, email, name and role |
| Auth.Jwt | src/lib/auth.ts:47-56 | without a user the token is unchanged; with one, id and role are added and other fields kept |
| Auth.Session | src/lib/auth.ts:57-66 | the session gains a user object that overlays the token's id and role on the old user fields; the other session fields are kept |
| Auth.SignInRoundTrip | src/lib/auth.ts:37-66 | a signed-in user's id and role reach the session through the token |
| Auth.FailuresIndistinguishable | src/lib/auth.ts:17-35 | any two failures are the same result |
| Middleware.PrefixGated | src/middleware.ts:5-12 | without a token the callback refuses '/dashboard' followed by anything, and allows a path only if it does not begin that way |
| Middleware.TokenAllowsAll | src/middleware.ts:8-11 | with a token the callback allows every path |
| Middleware.MatchedNeedsToken | src/middleware.ts:3-18 | every path the matcher selects passes iff a token exists |
| Middleware.PrefixNotSegment | src/middleware.ts:8-18 | the callback alone would refuse '/dashboardx', but the matcher never sends it there, so it passes; '/dashboard' and '/dashboard/classes' need a token; '/dash' is allowed |
| Middleware.TokenContentsIgnored | src/middleware.ts:9 | only the token's presence matters, never its contents |
| ScoreModel.Validate | src/models/Score.ts:14-32 | stored iff user, quiz, score and maxScore are all present |
| ScoreModel.Create | src/models/Score.ts:38 | a duplicate (user, quiz) pair is refused iff one exists, and the store is unchanged; otherwise exactly one record is appended; the index stays unique |
| ScoreModel.SecondSubmissionRefused | src/models/Score.ts:37-38 | a second submission of a quiz by the same student is always refused |
| ClassModel.FindByCode | src/models/Class.ts:18-22 | finds a class with exactly this code, or none exists |
| ClassModel.Create | src/models/Class.ts:14-31 | stored iff name, code and teacher are present and the code is unused; otherwise the store is unchanged; codes stay unique |
| ClassModel.QuizCount | src/models/Class.ts:39-44 | the number of quizzes naming the class: 0 iff none does |
| ClassModel.QuizCountAppend | src/models/Class.ts:39-44 | a new quiz of the class raises the count by one, and any other quiz leaves it |
| UserModel.FindByEmail | src/models/User.ts:16-20 | a user with exactly this email, or none exists |
| UserModel.SessionUser | src/app/api/dashboard/route.ts:10-26 | the signed-in user, or nothing when there is no session or no such user |
| UserModel.Validate | src/models/User.ts:14-29 | created iff email and password are present and the role is in the enumeration or omitted; an omitted role becomes STUDENT |
| UserModel.Create | src/models/User.ts:16-20 | a duplicate email is refused and the store unchanged; otherwise one user is appended; emails stay unique |
| UserModel.RoleClosed | src/models/User.ts:25-29 | every stored role is one of the three names |
| Common.ParseRole | src/models/User.ts:27 | recognises exactly STUDENT, TEACHER and ADMIN |
| Common.NameOr | src/app/api/leaderboard/route.ts:80 | `name \|\| fallback`: the name when present and non-empty, otherwise the fallback |
| QuizModel.Validate | src/models/Quiz.ts:21-50 | valid iff title and class are present and every question has its text, its answer and every option; optional fields are copied; question order is kept |
| QuizModel.ScoresOf | src/models/Quiz.ts:57-61 | exactly the scores whose quiz is this quiz |
| QuizDraft.RemoveAt | src/components/classes/edit-quiz-questions.tsx:49-51 | drops exactly that index and keeps the others in order; an index out of range changes nothing |
| QuizDraft.RemoveAtMultiset | src/components/classes/create-quiz-dialog.tsx:110 | removal takes out exactly one element |
| QuizDraft.ChangeAt | src/components/classes/create-quiz-dialog.tsx:87-94 | only the given question changes, and only in the given field |
| CreateQuizDialog.Blank | src/components/classes/create-quiz-dialog.tsx:99-104 | empty text, four empty options, and an empty explanation |
| CreateQuizDialog.Initial | src/components/classes/create-quiz-dialog.tsx:30-39 | empty title, a limit of 30, and one blank question |
| CreateQuizDialog.Reset | src/components/classes/create-quiz-dialog.tsx:64-74 | the form after a submit equals the initial form |
| CreateQuizDialog.AddQuestion | src/components/classes/create-quiz-dialog.tsx:96-106 | one blank question is appended; the rest is unchanged |
| CreateQuizDialog.RemoveQuestion | src/components/classes/create-quiz-dialog.tsx:108-112 | removes the index when more than one question exists; otherwise nothing changes |
| CreateQuizDialog.HandleQuestionChange | src/components/classes/create-quiz-dialog.tsx:87-94 | only the field of question i changes |
| CreateQuizDialog.NeverEmpty | src/components/classes/create-quiz-dialog.tsx:108-112 | after any sequence of edits from the initial form, at least one question remains |
| CreateQuizDialog.RemoveDropsOne | src/components/classes/create-quiz-dialog.tsx:110 | a removal drops exactly the question at that index |
| EditQuizQuestions.Blank | src/components/classes/edit-quiz-questions.tsx:41-45 | empty text, two empty options, and no explanation |
| EditQuizQuestions.OptionAdded | src/components/classes/edit-quiz-questions.tsx:62-66 | question i gets one more empty option; nothing else changes |
| EditQuizQuestions.OptionSet | src/components/classes/edit-quiz-questions.tsx:68-72 | only option j of question i changes |
| EditQuizQuestions.OptionRemoved | src/components/classes/edit-quiz-questions.tsx:74-80 | option j of question i is dropped and the rest keep their order; nothing else changes |
| EditQuizQuestions.QuestionsEditor.AddQuestion | src/components/classes/edit-quiz-questions.tsx:38-47 | the questions become the old questions plus a blank one |
| EditQuizQuestions.QuestionsEditor.RemoveQuestion | src/components/classes/edit-quiz-questions.tsx:49-51 | the questions become the old ones without index i, with no lower bound |
| EditQuizQuestions.QuestionsEditor.UpdateQuestion | src/components/classes/edit-quiz-questions.tsx:53-60 | only the field of question i changes |
| EditQuizQuestions.QuestionsEditor.AddOption | src/components/classes/edit-quiz-questions.tsx:62-66 | the shared question object gains an option in place; the list of objects is unchanged |
| EditQuizQuestions.QuestionsEditor.UpdateOption | src/components/classes/edit-quiz-questions.tsx:68-72 | option j is set in place on the shared object |
| EditQuizQuestions.QuestionsEditor.RemoveOption | src/components/classes/edit-quiz-questions.tsx:74-80 | option j is removed from the shared object, with no length guard |
| EditQuizQuestions.ButtonKeepsTwoOptions | src/components/classes/edit-quiz-questions.tsx:182 | removal through the enabled button leaves at least two options |
| EditQuizQuestions.RemovingLastDisablesSave | src/components/classes/edit-quiz-questions.tsx:243 | removing the last question empties the list and disables saving |
| StudentsPage.ClassOptionsAsWritten | src/app/dashboard/students/page.tsx:80-86 | one option per (student, enrolled class), in order; a class is listed iff some student joined it |
| StudentsPage.ClassListedTwice | src/app/dashboard/students/page.tsx:80-86 | two students of one class list that class twice |
| StudentsPage.ClassOptions | src/app/dashboard/students/page.tsx:80-86 | each class id once, every listed class from the students, and every class of any student present |
| StudentsPage.Dedupe | src/app/dashboard/students/page.tsx:80-86 | ids are unique, nothing is invented, and every id is kept |
| StudentsPage.MatchesSearchAsWritten | src/app/dashboard/students/page.tsx:90-92 | throws iff the name is null; otherwise matches iff the lower-cased name or email contains the lower-cased query |
| StudentsPage.FilterAsWritten | src/app/dashboard/students/page.tsx:89-99 | the whole filter throws iff some student has a null name |
| StudentsPage.NullNameBreaksFilter | src/app/dashboard/students/page.tsx:89-92 | one nameless student breaks the page even for the empty query, which should list everybody |
| StudentsPage.Filter | src/app/dashboard/students/page.tsx:89-99 | a student is kept iff it matches both the search and the class test |
| StudentsPage.AgreesWhenNamed | src/app/dashboard/students/page.tsx:89-99 | with no null names, the corrected filter equals the code's result |
| StudentsPage.EmptyQueryMatchesAll | src/app/dashboard/students/page.tsx:90-92 | the empty query matches every student |
| StudentsPage.NoFilterKeepsAll | src/app/dashboard/students/page.tsx:89-99 | class 'all' with the empty query keeps the whole list in order |
| StudentsPage.QueryCaseIgnored | src/app/dashboard/students/page.tsx:90-92 | queries that lower-case alike match alike |
| QuizzesPage.Initial | src/app/dashboard/quizzes/page.tsx:40-44 | no role, no quizzes, loading, no error, empty query |
| Common.FailureMessage | src/app/dashboard/quizzes/page.tsx:70-77 | a non-ok response gives its own message, an Error its message, anything else the fallback |
| QuizzesPage.RoleChecked | src/app/dashboard/quizzes/page.tsx:46-63 | stores the role, or the failure message |
| QuizzesPage.QuizzesFetched | src/app/dashboard/quizzes/page.tsx:66-85 | stores the list or the failure message, and always ends loading |
| QuizzesPage.Filtered | src/app/dashboard/quizzes/page.tsx:124-130 | a quiz is kept iff its lower-cased title or class name contains the lower-cased query |
| QuizzesPage.Render | src/app/dashboard/quizzes/page.tsx:88-130 | access denied iff not a signed-in teacher; then loading; then the error iff it is truthy; then the filtered list |
| QuizzesPage.EmptySearchListsAll | src/app/dashboard/quizzes/page.tsx:124-130 | the empty query keeps every quiz in order |
| QuizzesPage.FilterKeepsOrder | src/app/dashboard/quizzes/page.tsx:124 | the filter keeps the fetched order: filtering a concatenation filters each part |
| QuizzesPage.DeniedBeforeRoleKnown | src/app/dashboard/quizzes/page.tsx:44-88 | the first render is denied even for a teacher |
| QuizzesPage.TeacherSeesFetchedQuizzes | src/app/dashboard/quizzes/page.tsx:61-86 | a teacher whose role check and fetch succeed sees every fetched quiz |
| QuizzesPage.OtherRolesDenied | src/app/dashboard/quizzes/page.tsx:83-98 | any role other than TEACHER is denied |
| QuizzesPage.EmptyMessageListsNothing | src/app/dashboard/quizzes/page.tsx:114 | an error with an empty message is falsy, so the empty list is shown |

## Left out

- `Math.round(a / b * 100)` in double precision. `Scoring.Percent` is exact round-half-up, so
  results at .5 boundaries may differ from the floating-point value.
- Date arithmetic (`setDate`, `setMonth`, `toISOString`, `toLocaleDateString`). Timestamps are
  integers, and the week and month start dates are inputs.
- The database queries and the `Promise.all` fan-out. Their results are input sequences.
  - The student rank query (src/app/api/dashboard/route.ts:254-278) has no well-defined meaning,
    so `studentRank` is an input.
  - So is the class filter through `fields.id` (src/app/api/dashboard/route.ts:313-325).
- Foreign libraries are parameters:
  - nanoid is the generated code.
  - bcrypt's hash and compare are functions.
  - The Supabase lookup and sign-up are the existing rows and a `SignUpResult`.
- React rendering, hooks, `fetch`, the router and the dialogs' open/close state. Only the state
  transitions and the chosen view are modelled.
- Request body fields that are not strings, in every handler except class creation. There,
  `ClassesRoute.BodyField` models a name that is absent, a string, or not a string. The other
  handlers' bodies (`Register.Body`, `AdminUsers.Body` and the rest) model each field as absent or
  a string, so a number or an object sent in place of a string is not covered.
- Out-of-range indices in the editors' `updateQuestion`, `addOption` and `updateOption`. These
  carry a precondition, because JavaScript would create or crash on an undefined entry.
  `removeQuestion` and `removeOption` are modelled for every index.
- The middleware matcher's full path-to-regexp semantics. `Middleware.Matched` takes
  `/dashboard/:path*` as the dashboard root or any path below it, with no trailing slash
  handling, no URL decoding and no `_next` or locale prefixes.
- Case mapping beyond ASCII in `toLowerCase` and `toUpperCase`.
- Ranking.SortDesc: stability (ties keep their input order) is not proved; the contract states
  order and permutation only.
- Concurrent requests, such as two joins or two submissions at once. Only the storage-level
  uniqueness invariants are modelled.
- Grading a submission against the answer key, and the quiz time limit. The handler is not part of
  this model.
- The 500 responses from `catch` blocks that handle database failures. Two are modelled, because
  an input the model represents causes them: the class-creation 500, for an empty or used generated
  code (`ClassesRoute.Create`), and the teacher-creation 500, for a user the schema rejects
  (`AdminUsers.CreateTeacher`).

## Findings

| source | as written | input that shows it | evidently intended | confidence | as-written member | corrected member |
|---|---|---|---|---|---|---|
| src/app/dashboard/students/page.tsx:89-92 | the search calls `student.name.toLowerCase()`, but the students API returns the stored name, which may be null | one student with a null name, empty query, class 'all': the filter throws and the page fails | a null name matches nothing by name, the email still matches, and the empty query lists everybody | not executed | StudentsPage.FilterAsWritten (NullNameBreaksFilter) | StudentsPage.Filter (AgreesWhenNamed) |
| src/app/dashboard/students/page.tsx:80-86 | a `Set` of freshly built `{ id, name }` objects merges nothing, because objects compare by identity | two students enrolled in the same class: the class appears twice in the drop-down | each class listed once | not executed | StudentsPage.ClassOptionsAsWritten (ClassListedTwice) | StudentsPage.ClassOptions |
