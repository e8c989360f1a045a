/**
 * The join and aggregation of one test with its answersheet and subjects,
 * and the shaping of the result into an export row. All of it is pure.
 */
module Aggregator {
  import opened Records

  /** The separator between subject names in the Subjects column. */
  const SubjectSeparator: string := ", "

  /**
   * The subject lookup, built from the fetched subjects in order; a later
   * subject with the same id replaces an earlier one.
   */
  function SubjectMap(subjects: seq<Subject>): (m: map<Id, string>)
    ensures m.Keys == set i | 0 <= i < |subjects| :: subjects[i].id
  {
    if subjects == [] then map[]
    else
      var last := subjects[|subjects| - 1];
      var m := SubjectMap(subjects[..|subjects| - 1])[last.id := last.name];
      assert forall i :: 0 <= i < |subjects| - 1 ==> subjects[..|subjects| - 1][i] == subjects[i];
      m
  }

  /** An id maps to the name of the last fetched subject that carries it. */
  lemma {:induction false} SubjectMapLastWins(subjects: seq<Subject>, i: nat)
    requires i < |subjects|
    requires forall j :: i < j < |subjects| ==> subjects[j].id != subjects[i].id
    ensures SubjectMap(subjects)[subjects[i].id] == subjects[i].name
  {
    if i < |subjects| - 1 {
      var init := subjects[..|subjects| - 1];
      assert init[i] == subjects[i];
      SubjectMapLastWins(init, i);
    }
  }

  /**
   * The subject names of a test: one entry per subject reference, in
   * order, the mapped name or the empty string for an unknown id.
   */
  function SubjectNames(ids: seq<Id>, subjectMap: map<Id, string>): (names: seq<string>)
    ensures |names| == |ids|
    ensures forall k :: 0 <= k < |ids| ==>
      names[k] == (if ids[k] in subjectMap then subjectMap[ids[k]] else "")
  {
    if ids == [] then []
    else [if ids[0] in subjectMap then subjectMap[ids[0]] else ""] + SubjectNames(ids[1..], subjectMap)
  }

  /** Total number of characters in a sequence of strings. */
  function TotalLength(xs: seq<string>): nat
  {
    if xs == [] then 0 else TotalLength(xs[..|xs| - 1]) + |xs[|xs| - 1]|
  }

  /** The strings joined with the separator between neighbours (Array.prototype.join). */
  function Join(xs: seq<string>, sep: string): (r: string)
    ensures xs == [] ==> r == ""
    ensures xs != [] ==> |r| == TotalLength(xs) + (|xs| - 1) * |sep|
  {
    if xs == [] then ""
    else if |xs| == 1 then xs[0]
    else Join(xs[..|xs| - 1], sep) + sep + xs[|xs| - 1]
  }

  /** Joining splits off the first string just as it splits off the last one. */
  lemma {:induction false} JoinFront(xs: seq<string>, sep: string)
    requires |xs| > 1
    ensures Join(xs, sep) == xs[0] + sep + Join(xs[1..], sep)
  {
    var init := xs[..|xs| - 1];
    assert xs[1..][..|xs| - 2] == init[1..];
    if |xs| > 2 {
      JoinFront(init, sep);
    } else {
      assert xs[1..] == [xs[1]];
    }
  }

  /** Joining pieces: the result starts with the first string and ends with the last one. */
  lemma {:induction false} JoinEnds(xs: seq<string>, sep: string)
    requires xs != []
    ensures |xs[0]| <= |Join(xs, sep)| && Join(xs, sep)[..|xs[0]|] == xs[0]
    ensures |xs[|xs| - 1]| <= |Join(xs, sep)|
    ensures Join(xs, sep)[|Join(xs, sep)| - |xs[|xs| - 1]|..] == xs[|xs| - 1]
  {
    if |xs| > 1 {
      var init := xs[..|xs| - 1];
      JoinEnds(init, sep);
      var j := Join(init, sep);
      assert Join(xs, sep) == j + sep + xs[|xs| - 1];
      assert (j + sep + xs[|xs| - 1])[..|xs[0]|] == j[..|xs[0]|];
    }
  }

  /** The sum of the values, added left to right from 0 (Array.prototype.reduce). */
  function Sum(values: seq<int>): (r: int)
    ensures |values| == 1 ==> r == values[0]
    ensures (forall i :: 0 <= i < |values| ==> 0 <= values[i]) ==> 0 <= r
  {
    if values == [] then 0 else Sum(values[..|values| - 1]) + values[|values| - 1]
  }

  /** The sum splits over concatenation. */
  lemma {:induction false} SumConcat(a: seq<int>, b: seq<int>)
    ensures Sum(a + b) == Sum(a) + Sum(b)
  {
    if b == [] {
      assert a + b == a;
    } else {
      assert (a + b)[..|a + b| - 1] == a + b[..|b| - 1];
      SumConcat(a, b[..|b| - 1]);
    }
  }

  /** The sum of a sequence is its first element plus the sum of the rest. */
  lemma SumFirst(values: seq<int>)
    requires values != []
    ensures Sum(values) == values[0] + Sum(values[1..])
  {
    assert values == [values[0]] + values[1..];
    SumConcat([values[0]], values[1..]);
  }

  /** The total of one answersheet score. */
  function ScoreTotal(score: Score): int
  {
    match score
    case Scalar(v) => v
    case PerQuestion(vs) => Sum(vs)
  }

  /** The first answersheet, in answersheet order, whose test is the given one. */
  function FindAnswersheet(answersheets: seq<Answersheet>, test: Id): (r: Option<Answersheet>)
    ensures r.None? <==> forall i :: 0 <= i < |answersheets| ==> answersheets[i].test != test
    ensures r.Some? ==> exists i :: (0 <= i < |answersheets| && answersheets[i] == r.value
      && r.value.test == test && forall j :: 0 <= j < i ==> answersheets[j].test != test)
  {
    if answersheets == [] then None
    else if answersheets[0].test == test then Some(answersheets[0])
    else
      var r := FindAnswersheet(answersheets[1..], test);
      assert forall i :: 1 <= i < |answersheets| ==> answersheets[i] == answersheets[1..][i - 1];
      r
  }

  /** The total score of a test: 0 without an answersheet. */
  function TotalScore(answersheet: Option<Answersheet>): int
  {
    match answersheet
    case None => 0
    case Some(a) => ScoreTotal(a.score)
  }

  /** The export row of one (already reconciled) test. */
  function BuildRow(test: Test, answersheets: seq<Answersheet>, subjectMap: map<Id, string>): (row: Row)
    ensures row.title == test.title && row.status == test.status && row.maxMarks == test.maxMarks
    ensures row.subjects == Join(SubjectNames(test.subjects, subjectMap), SubjectSeparator)
    ensures row.questions == |test.questions|
    ensures (forall i :: 0 <= i < |answersheets| ==> answersheets[i].test != test.id) ==> row.score == 0
    ensures forall i :: (0 <= i < |answersheets| && answersheets[i].test == test.id
      && (forall j :: 0 <= j < i ==> answersheets[j].test != test.id)
      ==> row.score == ScoreTotal(answersheets[i].score))
  {
    var answersheet := FindAnswersheet(answersheets, test.id);
    var subjectNames := SubjectNames(test.subjects, subjectMap);
    Row(
      test.title,
      test.status,
      test.maxMarks,
      Join(subjectNames, SubjectSeparator),
      TotalScore(answersheet),
      |test.questions|)
  }

  /** A worked example: scores 2 and 1 total 3; without an answersheet the total is 0. */
  lemma ScoreExample()
    ensures TotalScore(Some(Answersheet("1", ["A", "B"], PerQuestion([2, 1])))) == 3
    ensures TotalScore(Some(Answersheet("1", ["A"], Scalar(7)))) == 7
    ensures TotalScore(None) == 0
  {
    assert [2, 1][..1] == [2];
    assert [2][..0] == [];
  }

  /** A worked example: subject 2 is unknown and contributes an empty name. */
  lemma SubjectsExample()
    ensures Join(SubjectNames(["1", "2"], SubjectMap([Subject("1", "Math")])), SubjectSeparator) == "Math, "
  {
    var m := SubjectMap([Subject("1", "Math")]);
    assert m == map["1" := "Math"];
    var names := SubjectNames(["1", "2"], m);
    assert names == ["Math", ""];
    assert names[..1] == ["Math"];
  }
}
