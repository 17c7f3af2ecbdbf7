/** The quiz-questions editor. Adding, removing and changing a question build a
    new list; the option edits copy only the list and then change the option list
    of a question object in place. */
module EditQuizQuestions {
  import opened Common
  import opened QuizDraft

  /** A blank question as `addQuestion` appends it: two empty options, no explanation. */
  function Blank(): (q: Draft)
    ensures q.question == "" && q.answer == "" && q.explanation.None? && q.options == ["", ""]
  {
    Draft("", ["", ""], "", None)
  }

  /** The editable fields of `updateQuestion`, which always receives a string. */
  datatype TextField = QuestionText | Answer | Explanation

  function TextChange(field: TextField, value: string): Change
  {
    match field
    case QuestionText => SetQuestion(value)
    case Answer => SetAnswer(value)
    case Explanation => SetExplanation(value)
  }

  /** The option-list edits, stated on values. */
  function OptionAdded(qs: seq<Draft>, i: nat): (r: seq<Draft>)
    requires i < |qs|
    ensures |r| == |qs| && r[i].options == qs[i].options + [""]
    ensures r[i] == qs[i].(options := r[i].options)
    ensures forall k :: 0 <= k < |qs| && k != i ==> r[k] == qs[k]
  {
    qs[i := qs[i].(options := qs[i].options + [""])]
  }

  function OptionSet(qs: seq<Draft>, i: nat, j: nat, value: string): (r: seq<Draft>)
    requires i < |qs| && j < |qs[i].options|
    ensures |r| == |qs| && |r[i].options| == |qs[i].options| && r[i].options[j] == value
    ensures forall m :: 0 <= m < |qs[i].options| && m != j ==> r[i].options[m] == qs[i].options[m]
    ensures r[i] == qs[i].(options := r[i].options)
    ensures forall k :: 0 <= k < |qs| && k != i ==> r[k] == qs[k]
  {
    qs[i := qs[i].(options := qs[i].options[j := value])]
  }

  function OptionRemoved(qs: seq<Draft>, i: nat, j: int): (r: seq<Draft>)
    requires i < |qs|
    ensures |r| == |qs| && r[i].options == RemoveAt(qs[i].options, j)
    ensures r[i] == qs[i].(options := r[i].options)
    ensures forall k :: 0 <= k < |qs| && k != i ==> r[k] == qs[k]
  {
    qs[i := qs[i].(options := RemoveAt(qs[i].options, j))]
  }

  /** One question object of the component state. */
  class QuestionBox {
    var question: string
    var options: seq<string>
    var answer: string
    var explanation: Option<string>

    constructor (d: Draft)
      ensures Value() == d
    {
      question, options, answer, explanation := d.question, d.options, d.answer, d.explanation;
    }

    function Value(): Draft
      reads this
    {
      Draft(question, options, answer, explanation)
    }
  }

  /** The `questions` state: a list of question objects, no object listed twice. */
  class QuestionsEditor {
    var questions: seq<QuestionBox>

    predicate Valid()
      reads this
    {
      forall a, b :: 0 <= a < b < |questions| ==> questions[a] != questions[b]
    }

    function Snapshot(): (r: seq<Draft>)
      reads this, questions
      ensures |r| == |questions|
    {
      var qs := questions;
      seq(|qs|, k reads qs requires 0 <= k < |qs| => qs[k].Value())
    }

    constructor (initial: seq<Draft>)
      ensures Valid() && Snapshot() == initial
    {
      questions := [];
      new;
      var k := 0;
      while k < |initial|
        invariant 0 <= k <= |initial|
        invariant |questions| == k && Valid()
        invariant forall m :: 0 <= m < k ==> fresh(questions[m])
        invariant forall m :: 0 <= m < k ==> questions[m].Value() == initial[m]
        modifies this
      {
        var box := new QuestionBox(initial[k]);
        questions := questions + [box];
        k := k + 1;
      }
    }

    /** `addQuestion`. */
    method AddQuestion()
      requires Valid()
      modifies this
      ensures Valid() && Snapshot() == old(Snapshot()) + [Blank()]
    {
      var box := new QuestionBox(Blank());
      questions := questions + [box];
      assert Snapshot() == old(Snapshot()) + [Blank()];
    }

    /** `removeQuestion(index)`: no lower bound, the list may become empty. */
    method RemoveQuestion(index: int)
      requires Valid()
      modifies this
      ensures Valid() && Snapshot() == RemoveAt(old(Snapshot()), index)
    {
      questions := RemoveAt(questions, index);
    }

    /** `updateQuestion(index, field, value)`: a new object replaces the old one. */
    method UpdateQuestion(index: nat, field: TextField, value: string)
      requires Valid() && index < |questions|
      modifies this
      ensures Valid() && Snapshot() == ChangeAt(old(Snapshot()), index, TextChange(field, value))
    {
      var box := new QuestionBox(Apply(questions[index].Value(), TextChange(field, value)));
      questions := questions[index := box];
    }

    /** `addOption(i)`: `push('')` on the shared option list. */
    method AddOption(i: nat)
      requires Valid() && i < |questions|
      modifies questions[i]
      ensures Valid() && questions == old(questions)
      ensures Snapshot() == OptionAdded(old(Snapshot()), i)
    {
      questions[i].options := questions[i].options + [""];
    }

    /** `updateOption(i, j, value)`: assignment into the shared option list. */
    method UpdateOption(i: nat, j: nat, value: string)
      requires Valid() && i < |questions| && j < |questions[i].options|
      modifies questions[i]
      ensures Valid() && questions == old(questions)
      ensures Snapshot() == OptionSet(old(Snapshot()), i, j, value)
    {
      questions[i].options := questions[i].options[j := value];
    }

    /** `removeOption(i, j)`: the option list is replaced by its filtered copy; the
        function itself has no lower bound on the number of options. */
    method RemoveOption(i: nat, j: int)
      requires Valid() && i < |questions|
      modifies questions[i]
      ensures Valid() && questions == old(questions)
      ensures Snapshot() == OptionRemoved(old(Snapshot()), i, j)
    {
      questions[i].options := RemoveAt(questions[i].options, j);
    }
  }

  /** The remove-option button is disabled at two options or fewer. */
  predicate RemoveOptionEnabled(q: Draft)
  {
    |q.options| > 2
  }

  /** The save button: `disabled={loading || questions.length === 0}`. */
  predicate SaveDisabled(loading: bool, qs: seq<Draft>)
  {
    loading || |qs| == 0
  }

  /** Through the buttons alone an option list never shrinks below two once it has two. */
  lemma ButtonKeepsTwoOptions(qs: seq<Draft>, i: nat, j: int)
    requires i < |qs| && RemoveOptionEnabled(qs[i])
    ensures |OptionRemoved(qs, i, j)[i].options| >= 2
  {
  }

  /** Removing the last question disables saving. */
  lemma RemovingLastDisablesSave(q: Draft)
    ensures RemoveAt([q], 0) == [] && SaveDisabled(false, RemoveAt([q], 0))
  {
  }
}
