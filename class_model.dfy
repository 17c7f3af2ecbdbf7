/** The Class schema: required name, code and teacher, a unique code, a list of
    student references, and the `quizzes` count virtual. */
module ClassModel {
  import opened Common
  import Seqs
  import QuizModel

  datatype Class = Class(id: Id, name: string, code: string, teacher: Id, students: seq<Id>)

  /** A document as handed to `Class.create`, before validation. */
  datatype ClassInput = ClassInput(name: Option<string>, code: Option<string>, teacher: Option<Id>, students: seq<Id>)

  datatype ClassError = MissingPath(path: string) | DuplicateCode

  datatype Outcome = Stored(record: Class) | Refused(error: ClassError)

  function Code(c: Class): string { c.code }

  /** The unique index on code. */
  predicate CodesUnique(classes: seq<Class>)
  {
    Seqs.UniqueBy(classes, Code)
  }

  /** `Class.findOne({ code })`: exact string equality, no case folding. */
  function FindByCode(classes: seq<Class>, code: string): (r: Option<Class>)
    ensures r.Some? ==> r.value in classes && r.value.code == code
    ensures r.None? ==> forall c :: c in classes ==> c.code != code
  {
    var i := Seqs.FindBy(classes, code, Code);
    if i < 0 then None else Some(classes[i])
  }

  /** `Class.create(input)`: name, code and teacher are required; a code already in
      use is refused by the unique index and the collection is unchanged. */
  function Create(classes: seq<Class>, id: Id, input: ClassInput): (r: (seq<Class>, Outcome))
    ensures r.1.Stored? <==> Present(input.name) && Present(input.code) && input.teacher.Some?
                             && FindByCode(classes, input.code.value).None?
    ensures r.1.Stored? ==> r.1.record == Class(id, input.name.value, input.code.value, input.teacher.value, input.students)
    ensures r.1.Stored? ==> r.0 == classes + [r.1.record]
    ensures r.1.Refused? ==> r.0 == classes
    ensures CodesUnique(classes) ==> CodesUnique(r.0)
  {
    if !Present(input.name) then (classes, Refused(MissingPath("name")))
    else if !Present(input.code) then (classes, Refused(MissingPath("code")))
    else if input.teacher.None? then (classes, Refused(MissingPath("teacher")))
    else
      var c := Class(id, input.name.value, input.code.value, input.teacher.value, input.students);
      var (store, ok) := Seqs.InsertUnique(classes, c, Code);
      if ok then (store, Stored(c)) else (classes, Refused(DuplicateCode))
  }

  /** The `quizzes` virtual (`count: true`): how many quizzes name this class. */
  function QuizCount(c: Class, quizzes: seq<QuizModel.Quiz>): (n: nat)
    ensures n <= |quizzes|
    ensures n == 0 <==> forall q :: q in quizzes ==> q.classId != c.id
  {
    var mine := (q: QuizModel.Quiz) => q.classId == c.id;
    forall q ensures q in Seqs.Filter(quizzes, mine) <==> q in quizzes && mine(q) {
      Seqs.FilterMember(quizzes, mine, q);
    }
    var kept := Seqs.Filter(quizzes, mine);
    assert |kept| > 0 ==> kept[0] in kept;
    |kept|
  }

  /** Adding a quiz of this class raises the count by one; a quiz of another class leaves it. */
  lemma QuizCountAppend(c: Class, quizzes: seq<QuizModel.Quiz>, q: QuizModel.Quiz)
    ensures QuizCount(c, quizzes + [q]) == QuizCount(c, quizzes) + (if q.classId == c.id then 1 else 0)
  {
    var mine := (q: QuizModel.Quiz) => q.classId == c.id;
    Seqs.FilterAppend(quizzes, [q], mine);
    assert Seqs.Filter([q], mine) == Seqs.Filter([], mine) + (if mine(q) then [q] else []);
  }
}
