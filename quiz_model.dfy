/** The Quiz schema with its embedded Question documents, and the `scores`
    virtual that links a quiz to the Score records pointing at it. */
module QuizModel {
  import opened Common
  import Seqs
  import ScoreModel

  datatype Question = Question(question: string, options: seq<string>, answer: string, explanation: Option<string>)

  datatype Quiz = Quiz(id: Id, title: string, description: Option<string>, classId: Id,
                       questions: seq<Question>, timeLimit: Option<int>)

  /** Documents as handed to `Quiz.create`, before validation. */
  datatype QuestionInput = QuestionInput(question: Option<string>, options: seq<Option<string>>,
                                         answer: Option<string>, explanation: Option<string>)

  datatype QuizInput = QuizInput(title: Option<string>, description: Option<string>, classId: Option<Id>,
                                 questions: seq<QuestionInput>, timeLimit: Option<int>)

  /** A required string path: absent or empty strings fail Mongoose's `required` validator. */
  predicate OptionsPresent(options: seq<Option<string>>)
  {
    forall i :: 0 <= i < |options| ==> Present(options[i])
  }

  predicate QuestionValid(q: QuestionInput)
  {
    Present(q.question) && Present(q.answer) && OptionsPresent(q.options)
  }

  predicate QuestionsValid(qs: seq<QuestionInput>)
  {
    forall i :: 0 <= i < |qs| ==> QuestionValid(qs[i])
  }

  function ToQuestion(q: QuestionInput): Question
    requires QuestionValid(q)
  {
    Question(q.question.value, seq(|q.options|, i requires 0 <= i < |q.options| => q.options[i].value),
             q.answer.value, q.explanation)
  }

  /** Validation of a quiz document: title and class are required, each question
      needs its text, its answer and every option; description, time limit and
      explanation are optional. The question list keeps its order. */
  function Validate(id: Id, input: QuizInput): (r: Option<Quiz>)
    ensures r.Some? <==> Present(input.title) && input.classId.Some? && QuestionsValid(input.questions)
    ensures r.Some? ==> r.value.title == input.title.value && r.value.classId == input.classId.value
                        && r.value.description == input.description && r.value.timeLimit == input.timeLimit
                        && |r.value.questions| == |input.questions|
    ensures r.Some? ==> forall i :: 0 <= i < |input.questions| ==>
              r.value.questions[i].question == input.questions[i].question.value
              && r.value.questions[i].answer == input.questions[i].answer.value
              && r.value.questions[i].explanation == input.questions[i].explanation
              && |r.value.questions[i].options| == |input.questions[i].options|
              && (forall j :: 0 <= j < |input.questions[i].options| ==>
                    r.value.questions[i].options[j] == input.questions[i].options[j].value)
  {
    if Present(input.title) && input.classId.Some? && QuestionsValid(input.questions) then
      Some(Quiz(id, input.title.value, input.description, input.classId.value,
                seq(|input.questions|, i requires 0 <= i < |input.questions| => ToQuestion(input.questions[i])),
                input.timeLimit))
    else None
  }

  /** The `scores` virtual: the Score records whose quiz field is this quiz. */
  function ScoresOf(quiz: Quiz, scores: seq<ScoreModel.Score>): (r: seq<ScoreModel.Score>)
    ensures forall s :: s in r <==> s in scores && s.quiz == quiz.id
  {
    var linked := (s: ScoreModel.Score) => s.quiz == quiz.id;
    forall s ensures s in Seqs.Filter(scores, linked) <==> s in scores && linked(s) {
      Seqs.FilterMember(scores, linked, s);
    }
    Seqs.Filter(scores, linked)
  }
}
