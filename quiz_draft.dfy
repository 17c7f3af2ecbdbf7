/** The question drafts both quiz editors keep in component state, and the list
    edits they share. */
module QuizDraft {
  import opened Common

  datatype Draft = Draft(question: string, options: seq<string>, answer: string, explanation: Option<string>)

  /** A change of one field, `{ ...q, [field]: value }`. */
  datatype Change = SetQuestion(text: string) | SetOptions(options: seq<string>) | SetAnswer(text: string)
                  | SetExplanation(text: string)

  function Apply(q: Draft, c: Change): (r: Draft)
    ensures c.SetQuestion? ==> r == q.(question := c.text)
    ensures c.SetOptions? ==> r == q.(options := c.options)
    ensures c.SetAnswer? ==> r == q.(answer := c.text)
    ensures c.SetExplanation? ==> r == q.(explanation := Some(c.text))
  {
    match c
    case SetQuestion(t) => Draft(t, q.options, q.answer, q.explanation)
    case SetOptions(o) => Draft(q.question, o, q.answer, q.explanation)
    case SetAnswer(t) => Draft(q.question, q.options, t, q.explanation)
    case SetExplanation(t) => Draft(q.question, q.options, q.answer, Some(t))
  }

  /** `s.filter((_, i) => i !== index)`: the element at `index` is dropped and the
      rest keep their order; an index outside the list drops nothing. */
  function RemoveAt<T>(s: seq<T>, index: int): (r: seq<T>)
    ensures 0 <= index < |s| ==> |r| == |s| - 1
    ensures 0 <= index < |s| ==> forall k :: 0 <= k < |r| ==> r[k] == if k < index then s[k] else s[k + 1]
    ensures !(0 <= index < |s|) ==> r == s
  {
    if 0 <= index < |s| then s[..index] + s[index + 1..] else s
  }

  /** Removing keeps every other element: the multiset loses exactly the removed one. */
  lemma RemoveAtMultiset<T>(s: seq<T>, index: int)
    requires 0 <= index < |s|
    ensures multiset(RemoveAt(s, index)) + multiset{s[index]} == multiset(s)
  {
    assert s == s[..index] + [s[index]] + s[index + 1..];
  }

  /** `[...qs]` then `newQuestions[index] = { ...newQuestions[index], [field]: value }`. */
  function ChangeAt(qs: seq<Draft>, index: nat, c: Change): (r: seq<Draft>)
    requires index < |qs|
    ensures |r| == |qs| && r[index] == Apply(qs[index], c)
    ensures forall k :: 0 <= k < |qs| && k != index ==> r[k] == qs[k]
  {
    qs[index := Apply(qs[index], c)]
  }
}
