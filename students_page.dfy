/** The students page: the class options of the filter drop-down and the
    search-and-class filter over the students the API returned. */
module StudentsPage {
  import opened Common
  import Strings
  import Seqs

  datatype ClassOption = ClassOption(id: Id, name: string)

  /** A student as the page receives it. The API sends the stored name, which may be null. */
  datatype PageStudent = PageStudent(id: Id, name: Option<string>, email: string, enrolledClasses: seq<ClassOption>)

  /** `Array.from(new Set(students.flatMap(s => s.enrolledClasses.map(c => ({ id, name })))))`:
      each mapped element is a fresh object, so the Set merges nothing. */
  function ClassOptionsAsWritten(students: seq<PageStudent>): (r: seq<ClassOption>)
    ensures |students| > 0 ==>
              r == ClassOptionsAsWritten(students[..|students| - 1]) + students[|students| - 1].enrolledClasses
    ensures forall c :: c in r <==> exists s :: s in students && c in s.enrolledClasses
  {
    if students == [] then []
    else
      var init := students[..|students| - 1];
      var last := students[|students| - 1];
      assert forall s :: s in students <==> s in init || s == last;
      ClassOptionsAsWritten(init) + last.enrolledClasses
  }

  /** Two students of the same class give the drop-down that class twice. */
  lemma ClassListedTwice(c: ClassOption, a: PageStudent, b: PageStudent)
    requires a.enrolledClasses == [c] && b.enrolledClasses == [c]
    ensures ClassOptionsAsWritten([a, b]) == [c, c]
  {
    assert [a, b][..1] == [a];
    assert [a][..0] == [];
  }

  function OptionId(c: ClassOption): Id { c.id }

  /** The evidently intended list: each class once, first occurrence first. */
  function ClassOptions(students: seq<PageStudent>): (r: seq<ClassOption>)
    ensures Seqs.UniqueBy(r, OptionId)
    ensures forall c :: c in r ==> c in ClassOptionsAsWritten(students)
    ensures forall c :: c in ClassOptionsAsWritten(students) ==> Seqs.HasKey(r, c.id, OptionId)
  {
    Dedupe(ClassOptionsAsWritten(students))
  }

  /** Keeps the first option of every id, in order. */
  function Dedupe(s: seq<ClassOption>): (r: seq<ClassOption>)
    ensures Seqs.UniqueBy(r, OptionId)
    ensures forall c :: c in r ==> c in s
    ensures forall c :: c in s ==> Seqs.HasKey(r, c.id, OptionId)
  {
    if s == [] then []
    else
      var init := Dedupe(s[..|s| - 1]);
      var last := s[|s| - 1];
      assert forall c :: c in s ==> c in s[..|s| - 1] || c == last;
      if Seqs.HasKey(init, last.id, OptionId) then init
      else
        var r := init + [last];
        assert r[|init|] == last;
        assert forall c :: c in s ==> Seqs.HasKey(r, c.id, OptionId) by {
          forall c | c in s ensures Seqs.HasKey(r, c.id, OptionId) {
            if c in s[..|s| - 1] {
              var k :| 0 <= k < |init| && OptionId(init[k]) == c.id;
              assert r[k] == init[k];
            } else {
              assert OptionId(r[|init|]) == c.id;
            }
          }
        }
        r
  }

  /** `student.enrolledClasses.some(c => c.id === selectedClass)` behind `'all'`. */
  predicate MatchesClass(s: PageStudent, selectedClass: string)
  {
    selectedClass == "all" || exists c :: c in s.enrolledClasses && c.id == selectedClass
  }

  /** The search test as written: `student.name.toLowerCase()` throws (`None`) on a
      null name, before the email is looked at. */
  function MatchesSearchAsWritten(s: PageStudent, query: string): (r: Option<bool>)
    ensures r.None? <==> s.name.None?
    ensures r.Some? ==> (r.value <==> Strings.Includes(Strings.Lower(s.name.value), Strings.Lower(query))
                                      || Strings.Includes(Strings.Lower(s.email), Strings.Lower(query)))
  {
    if s.name.None? then None
    else Some(Strings.Includes(Strings.Lower(s.name.value), Strings.Lower(query))
              || Strings.Includes(Strings.Lower(s.email), Strings.Lower(query)))
  }

  /** `students.filter(...)` as written: the whole filter throws when any student has a null name. */
  function FilterAsWritten(students: seq<PageStudent>, query: string, selectedClass: string): (r: Option<seq<PageStudent>>)
    ensures r.None? <==> exists k :: 0 <= k < |students| && students[k].name.None?
  {
    if students == [] then Some([])
    else
      var init := FilterAsWritten(students[..|students| - 1], query, selectedClass);
      var last := students[|students| - 1];
      var m := MatchesSearchAsWritten(last, query);
      assert forall k :: 0 <= k < |students| - 1 ==> students[..|students| - 1][k] == students[k];
      if init.None? || m.None? then None
      else Some(init.value + (if m.value && MatchesClass(last, selectedClass) then [last] else []))
  }

  /** One student without a name makes the page fail even for the empty query,
      which should list everybody. */
  lemma NullNameBreaksFilter(s: PageStudent)
    requires s.name.None?
    ensures FilterAsWritten([s], "", "all").None?
    ensures Filter([s], "", "all") == [s]
  {
    assert [s][0].name.None?;
    Strings.IncludesEmpty(Strings.Lower(s.email));
    assert Strings.Lower("") == "";
    Seqs.FilterMember([s], (t: PageStudent) => Matches(t, "", "all"), s);
  }

  /** The evidently intended search test: a null name matches nothing, the email still counts. */
  predicate MatchesSearch(s: PageStudent, query: string)
  {
    (s.name.Some? && Strings.Includes(Strings.Lower(s.name.value), Strings.Lower(query)))
    || Strings.Includes(Strings.Lower(s.email), Strings.Lower(query))
  }

  predicate Matches(s: PageStudent, query: string, selectedClass: string)
  {
    MatchesSearch(s, query) && MatchesClass(s, selectedClass)
  }

  /** `filteredStudents`, with the intended search test. */
  function Filter(students: seq<PageStudent>, query: string, selectedClass: string): (r: seq<PageStudent>)
    ensures forall s :: s in r <==> s in students && Matches(s, query, selectedClass)
    ensures |r| <= |students|
  {
    var p := (s: PageStudent) => Matches(s, query, selectedClass);
    forall s ensures s in Seqs.Filter(students, p) <==> s in students && p(s) {
      Seqs.FilterMember(students, p, s);
    }
    Seqs.Filter(students, p)
  }

  /** Where no name is null the intended filter gives what the page computes. */
  lemma AgreesWhenNamed(students: seq<PageStudent>, query: string, selectedClass: string)
    requires forall k :: 0 <= k < |students| ==> students[k].name.Some?
    ensures FilterAsWritten(students, query, selectedClass) == Some(Filter(students, query, selectedClass))
  {
    if students != [] {
      var init := students[..|students| - 1];
      var last := students[|students| - 1];
      AgreesWhenNamed(init, query, selectedClass);
      assert students == init + [last];
      var p := (s: PageStudent) => Matches(s, query, selectedClass);
      Seqs.FilterAppend(init, [last], p);
      assert Seqs.Filter([last], p) == Seqs.Filter([], p) + (if p(last) then [last] else []);
    }
  }

  /** The empty query leaves only the class test. */
  lemma EmptyQueryMatchesAll(s: PageStudent)
    ensures MatchesSearch(s, "")
  {
    Strings.IncludesEmpty(Strings.Lower(s.email));
    assert Strings.Lower("") == "";
  }

  /** Class 'all' together with the empty query keeps the whole list. */
  lemma NoFilterKeepsAll(students: seq<PageStudent>)
    ensures Filter(students, "", "all") == students
  {
    forall k | 0 <= k < |students| ensures Matches(students[k], "", "all") {
      EmptyQueryMatchesAll(students[k]);
    }
    Seqs.FilterAll(students, (s: PageStudent) => Matches(s, "", "all"));
  }

  /** The search ignores ASCII case in the query. */
  lemma QueryCaseIgnored(s: PageStudent, q1: string, q2: string)
    requires Strings.Lower(q1) == Strings.Lower(q2)
    ensures MatchesSearch(s, q1) <==> MatchesSearch(s, q2)
  {
  }
}
