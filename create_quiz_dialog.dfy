/** The create-quiz dialog's form state: a title, a time limit and a non-empty list
    of question drafts, each starting with four empty options. */
module CreateQuizDialog {
  import opened Common
  import opened QuizDraft

  datatype Form = Form(title: string, timeLimit: int, questions: seq<Draft>)

  /** The blank question the dialog starts with and adds. */
  function Blank(): (q: Draft)
    ensures q.question == "" && q.answer == "" && q.explanation == Some("")
    ensures |q.options| == 4 && forall j :: 0 <= j < 4 ==> q.options[j] == ""
  {
    Draft("", ["", "", "", ""], "", Some(""))
  }

  /** The state on opening, and the state a successful submit resets to. */
  function Initial(): (f: Form)
    ensures f.title == "" && f.timeLimit == 30 && f.questions == [Blank()]
  {
    Form("", 30, [Blank()])
  }

  function Reset(f: Form): (r: Form)
    ensures r == Initial()
  {
    Form("", 30, [Blank()])
  }

  /** `addQuestion`: one blank question at the end. */
  function AddQuestion(f: Form): (r: Form)
    ensures r.title == f.title && r.timeLimit == f.timeLimit
    ensures |r.questions| == |f.questions| + 1
    ensures r.questions[..|f.questions|] == f.questions && r.questions[|f.questions|] == Blank()
  {
    f.(questions := f.questions + [Blank()])
  }

  /** `removeQuestion(index)`: ignored while only one question is left. */
  function RemoveQuestion(f: Form, index: int): (r: Form)
    ensures r.title == f.title && r.timeLimit == f.timeLimit
    ensures |f.questions| > 1 ==> r.questions == RemoveAt(f.questions, index)
    ensures |f.questions| <= 1 ==> r == f
  {
    if |f.questions| > 1 then f.(questions := RemoveAt(f.questions, index)) else f
  }

  /** `handleQuestionChange(index, field, value)`. */
  function HandleQuestionChange(f: Form, index: nat, c: Change): (r: Form)
    requires index < |f.questions|
    ensures r.title == f.title && r.timeLimit == f.timeLimit
    ensures r.questions == ChangeAt(f.questions, index, c)
  {
    f.(questions := f.questions[index := Apply(f.questions[index], c)])
  }

  /** The operations a user can perform on the form. */
  datatype Edit = Add | Remove(index: int) | ChangeField(at: nat, change: Change) | Submitted

  function Step(f: Form, e: Edit): Form
  {
    match e
    case Add => AddQuestion(f)
    case Remove(i) => RemoveQuestion(f, i)
    case ChangeField(i, c) => if i < |f.questions| then HandleQuestionChange(f, i, c) else f
    case Submitted => Reset(f)
  }

  function Run(f: Form, edits: seq<Edit>): Form
  {
    if edits == [] then f else Step(Run(f, edits[..|edits| - 1]), edits[|edits| - 1])
  }

  /** Whatever the user does, starting from the initial state the list is never empty. */
  lemma {:induction false} NeverEmpty(edits: seq<Edit>)
    ensures |Run(Initial(), edits).questions| >= 1
  {
    if edits != [] {
      NeverEmpty(edits[..|edits| - 1]);
    }
  }

  /** Removing from a list of two or more drops exactly one question and keeps the others. */
  lemma RemoveDropsOne(f: Form, index: int)
    requires |f.questions| > 1 && 0 <= index < |f.questions|
    ensures multiset(RemoveQuestion(f, index).questions) + multiset{f.questions[index]} == multiset(f.questions)
  {
    RemoveAtMultiset(f.questions, index);
  }
}
