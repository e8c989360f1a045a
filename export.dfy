/**
 * The completed-tests export of one user: early exit when there is nothing
 * completed, status reconciliation, the subject lookup, and one row per
 * fetched test in fetch order. Writing the rows to the CSV file is left to
 * the file-writing library and is not modelled; the outcome carries the
 * rows that would be written.
 */
module CompletedTestsExport {
  import opened Records
  import opened StatusReconciler
  import opened Aggregator

  /** The file's header, in column order. */
  const Header: seq<string> := ["Test Title", "Test Status", "Max Marks", "Subjects", "Score", "Questions"]

  /** No completed answersheet (nothing is written), or the header and rows of the export file. */
  datatype Outcome = NoCompletedTests | Exported(header: seq<string>, rows: seq<Row>)

  /** The test ids referenced by the answersheets, in answersheet order. */
  function TestIds(answersheets: seq<Answersheet>): (ids: seq<Id>)
    ensures |ids| == |answersheets|
    ensures forall k :: 0 <= k < |ids| ==> ids[k] == answersheets[k].test
  {
    if answersheets == [] then [] else [answersheets[0].test] + TestIds(answersheets[1..])
  }

  /**
   * A test whose id was asked for with the answersheets' ids always finds
   * an answersheet, the first one of that test.
   */
  lemma {:induction false} RequestedTestHasAnswersheet(answersheets: seq<Answersheet>, test: Id)
    requires test in TestIds(answersheets)
    ensures FindAnswersheet(answersheets, test).Some?
    ensures FindAnswersheet(answersheets, test).value.test == test
  {
    if answersheets[0].test != test {
      RequestedTestHasAnswersheet(answersheets[1..], test);
      assert answersheets[1..][0] == answersheets[1];
    }
  }

  /** The row loop: one row per test, pushed in test order. */
  method BuildRows(tests: seq<Test>, answersheets: seq<Answersheet>, subjectMap: map<Id, string>)
    returns (rows: seq<Row>)
    ensures |rows| == |tests|
    ensures forall k :: 0 <= k < |tests| ==> rows[k] == BuildRow(tests[k], answersheets, subjectMap)
  {
    rows := [];
    for k := 0 to |tests|
      invariant |rows| == k
      invariant forall j :: 0 <= j < k ==> rows[j] == BuildRow(tests[j], answersheets, subjectMap)
    {
      rows := rows + [BuildRow(tests[k], answersheets, subjectMap)];
    }
  }

  /**
   * The row of the k-th fetched test after reconciliation shows the
   * recomputed status and the test's own title, max marks and question count.
   */
  lemma ReconciledRow(fetched: seq<Test>, getTestStatus: Test -> Status, answersheets: seq<Answersheet>,
                      subjectMap: map<Id, string>, k: nat)
    requires k < |fetched|
    ensures var row := BuildRow(ReconciledAll(fetched, getTestStatus)[k], answersheets, subjectMap);
      && row.status == getTestStatus(fetched[k])
      && row.title == fetched[k].title
      && row.maxMarks == fetched[k].maxMarks
      && row.questions == |fetched[k].questions|
  {
    ReconciledAllAt(fetched, getTestStatus);
  }

  /**
   * When the fetched tests are among the requested ids, the row of fetched
   * test k joins the first answersheet of that test and shows its total.
   */
  lemma FetchedRowScore(fetched: seq<Test>, getTestStatus: Test -> Status, answersheets: seq<Answersheet>,
                        subjectMap: map<Id, string>, k: nat)
    requires k < |fetched|
    requires fetched[k].id in TestIds(answersheets)
    ensures var answersheet := FindAnswersheet(answersheets, fetched[k].id);
      && answersheet.Some?
      && answersheet.value.test == fetched[k].id
      && BuildRow(ReconciledAll(fetched, getTestStatus)[k], answersheets, subjectMap).score
         == ScoreTotal(answersheet.value.score)
  {
    ReconciledAllAt(fetched, getTestStatus);
    RequestedTestHasAnswersheet(answersheets, fetched[k].id);
  }

  /**
   * The export of one user's completed tests. `fetchTests` stands for the
   * test query (tests with the given ids, latest result time first),
   * `getTestStatus` for the status rule and `store` for the status write-back.
   */
  method ExportCompletedTests(
    answersheets: seq<Answersheet>,
    fetchTests: seq<Id> -> seq<Test>,
    subjects: seq<Subject>,
    getTestStatus: Test -> Status,
    store: TestStore)
    returns (outcome: Outcome)
    modifies store
    ensures answersheets == [] ==> outcome == NoCompletedTests && store.log == old(store.log)
    ensures answersheets != [] ==>
      var fetched := fetchTests(TestIds(answersheets));
      && store.log == old(store.log) + WriteBacks(fetched, getTestStatus)
      && outcome.Exported?
      && outcome.header == Header
      && |outcome.rows| == |fetched|
      && (forall k :: 0 <= k < |fetched| ==>
            outcome.rows[k] == BuildRow(ReconciledAll(fetched, getTestStatus)[k], answersheets, SubjectMap(subjects)))
      && (forall k :: 0 <= k < |fetched| ==> outcome.rows[k].status == getTestStatus(fetched[k]))
    ensures answersheets != [] ==>
      var fetched := fetchTests(TestIds(answersheets));
      (forall t :: t in fetched ==> t.id in TestIds(answersheets)) ==>
        forall k :: 0 <= k < |fetched| ==>
          && FindAnswersheet(answersheets, fetched[k].id).Some?
          && outcome.rows[k].score == ScoreTotal(FindAnswersheet(answersheets, fetched[k].id).value.score)
  {
    if |answersheets| == 0 {
      return NoCompletedTests;
    }
    var testIds := TestIds(answersheets);
    var fetched := fetchTests(testIds);
    var tests := new Test[|fetched|](i requires 0 <= i < |fetched| => fetched[i]);
    assert tests[..] == fetched;
    Reconcile(tests, store, getTestStatus);
    var subjectMap := SubjectMap(subjects);
    var rows := BuildRows(tests[..], answersheets, subjectMap);
    ReconciledAllAt(fetched, getTestStatus);
    forall k | 0 <= k < |fetched|
      ensures rows[k].status == getTestStatus(fetched[k])
    {
      ReconciledRow(fetched, getTestStatus, answersheets, subjectMap, k);
    }
    if forall t :: t in fetched ==> t.id in testIds {
      forall k | 0 <= k < |fetched|
        ensures FindAnswersheet(answersheets, fetched[k].id).Some?
        ensures rows[k].score == ScoreTotal(FindAnswersheet(answersheets, fetched[k].id).value.score)
      {
        FetchedRowScore(fetched, getTestStatus, answersheets, subjectMap, k);
      }
    }
    outcome := Exported(Header, rows);
  }
}
