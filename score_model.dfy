/** The Score schema: required user, quiz, score and maxScore, and a compound
    unique index on (user, quiz) so that a student holds at most one score per quiz. */
module ScoreModel {
  import opened Common
  import Seqs

  datatype Score = Score(id: Id, user: Id, quiz: Id, score: int, maxScore: int, createdAt: int)

  /** A document as handed to `Score.create`, before validation. */
  datatype ScoreInput = ScoreInput(user: Option<Id>, quiz: Option<Id>, score: Option<int>, maxScore: Option<int>)

  datatype ScoreError = MissingField(path: string) | DuplicateUserQuiz

  datatype Outcome = Stored(record: Score) | Refused(error: ScoreError)

  function Pair(s: Score): (Id, Id) { (s.user, s.quiz) }

  /** The `{ user: 1, quiz: 1 }, { unique: true }` index. */
  predicate PairsUnique(scores: seq<Score>)
  {
    Seqs.UniqueBy(scores, Pair)
  }

  /** The required fields: an absent reference or number fails validation (0 is a number). */
  function Validate(id: Id, now: int, input: ScoreInput): (r: Outcome)
    ensures r.Stored? <==> input.user.Some? && input.quiz.Some? && input.score.Some? && input.maxScore.Some?
    ensures r.Stored? ==> r.record == Score(id, input.user.value, input.quiz.value, input.score.value, input.maxScore.value, now)
  {
    if input.user.None? then Refused(MissingField("user"))
    else if input.quiz.None? then Refused(MissingField("quiz"))
    else if input.score.None? then Refused(MissingField("score"))
    else if input.maxScore.None? then Refused(MissingField("maxScore"))
    else Stored(Score(id, input.user.value, input.quiz.value, input.score.value, input.maxScore.value, now))
  }

  /** `Score.create(input)`: a second score for the same (user, quiz) pair is
      refused and the collection is unchanged; a fresh pair adds exactly one
      record and keeps every existing one. */
  function Create(scores: seq<Score>, id: Id, now: int, input: ScoreInput): (r: (seq<Score>, Outcome))
    ensures r.1.Refused? ==> r.0 == scores
    ensures r.1.Stored? ==> r.0 == scores + [r.1.record]
    ensures r.1.Stored? ==> forall s :: s in scores ==> Pair(s) != Pair(r.1.record)
    ensures Validate(id, now, input).Stored? ==>
              (r.1 == Refused(DuplicateUserQuiz) <==> exists s :: s in scores && Pair(s) == (input.user.value, input.quiz.value))
    ensures PairsUnique(scores) ==> PairsUnique(r.0)
    ensures Validate(id, now, input).Refused? ==> r == (scores, Validate(id, now, input))
    ensures Validate(id, now, input).Stored? && (forall s :: s in scores ==> Pair(s) != Pair(Validate(id, now, input).record)) ==>
              r == (scores + [Validate(id, now, input).record], Validate(id, now, input))
  {
    var v := Validate(id, now, input);
    if v.Refused? then (scores, v)
    else
      var (store, ok) := Seqs.InsertUnique(scores, v.record, Pair);
      if ok then (store, v) else (scores, Refused(DuplicateUserQuiz))
  }

  /** Under the index a second submission of the same quiz by the same student is
      always refused, whatever its score. */
  lemma SecondSubmissionRefused(scores: seq<Score>, id1: Id, id2: Id, t1: int, t2: int, first: ScoreInput, second: ScoreInput)
    requires PairsUnique(scores)
    requires Create(scores, id1, t1, first).1.Stored?
    requires Validate(id2, t2, second).Stored?
    requires second.user == first.user && second.quiz == first.quiz
    ensures Create(Create(scores, id1, t1, first).0, id2, t2, second).1 == Refused(DuplicateUserQuiz)
    ensures Create(Create(scores, id1, t1, first).0, id2, t2, second).0 == Create(scores, id1, t1, first).0
  {
    var after := Create(scores, id1, t1, first);
    var rec := after.1.record;
    assert after.0[|after.0| - 1] == rec;
    assert Pair(rec) == (second.user.value, second.quiz.value);
  }
}
