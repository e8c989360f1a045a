# Completed-tests export of the online exam portal, modelled in Dafny

The portal's backend can export one user's completed tests as a CSV file
(`getUserCompletedTestsCSV` in `backend/services/getUserCompletedTestsCSV.js`).
It works in four steps:

1. It fetches the user's completed answersheets. If there are none, it stops.
   Nothing is written back and no file is produced.
2. It fetches the tests those answersheets refer to. For each test it
   recomputes the status with the status rule of the test service. A stale
   status is written back to the store and overwritten in memory.
3. It builds a subject id → name lookup from all subjects.
4. For each test, in fetch order, it joins the first answersheet of that
   test and resolves the subject names (an unknown id gives `''`). It totals
   the score: the sum of a per-question score, a scalar score as is, or 0
   without an answersheet. It then pushes a six-column row: Test Title,
   Test Status, Max Marks, Subjects, Score, Questions.

The model has four modules, one file each:

- `records.dfy` (`Records`): the records as datatypes. The score is the
  variant `Scalar(int) | PerQuestion(seq<int>)`. Ids and statuses are strings.
- `reconcile.dfy` (`StatusReconciler`): the reconcile loop.
  - The loop is a method over an `array<Test>`. It overwrites stale statuses
    in place.
  - The store's status update is a `TestStore` class that records every call
    in a log.
  - The method is proved against the functions `ReconciledAll` and
    `WriteBacks`. The lemmas say what those functions mean.
- `aggregate.dfy` (`Aggregator`): the pure parts. These are the subject map,
  subject-name resolution, `join(', ')`, the answersheet `find`, the score
  `reduce`, and the row of one test.
- `export.dfy` (`CompletedTestsExport`): the row-building loop, and the
  whole pipeline `ExportCompletedTests`. The pipeline takes as parameters:
  - the answersheet query result;
  - the test query, as a function from the requested ids to the fetched tests;
  - the subject query result;
  - the status rule, as a function;
  - the store.

## Model

| member | source | states |
|---|---|---|
| `StatusReconciler.IsStale` | backend/services/getUserCompletedTestsCSV.js:24 | a test is stale when the status rule's value differs from its stored status (strict inequality); `StaleIndicesExact` and `WriteBacksExactlyStale` state what follows from it |
| `StatusReconciler.WriteBacks` | backend/services/getUserCompletedTestsCSV.js:22-28 | the loop issues at most one write-back per test, and none when no test is stale; `WriteBacksExactlyStale` gives the exact entries |
| `StatusReconciler.Reconciled` | backend/services/getUserCompletedTestsCSV.js:23-27 | after one step the test's status is what the rule computed, whether or not it was stale, and no other field differs |
| `StatusReconciler.ReconciledAll` | backend/services/getUserCompletedTestsCSV.js:22-28 | the reconcile loop keeps the number of tests |
| `StatusReconciler.ReconciledAllAt` | backend/services/getUserCompletedTestsCSV.js:22-28 | after the loop, test k is fetched test k with its status replaced by the rule's value for the fetched test; nothing else changes and the order is kept |
| `StatusReconciler.StaleIndicesExact` | backend/services/getUserCompletedTestsCSV.js:24 | the stale positions are listed once each, in increasing order, and a position is listed exactly when the rule disagrees with the stored status |
| `StatusReconciler.WriteBacksExactlyStale` | backend/services/getUserCompletedTestsCSV.js:22-28 | the status update is called exactly once per stale test, in fetch order, with that test's id and recomputed status, and never for a test whose status was already right |
| `StatusReconciler.ReconcileIdempotent` | backend/services/getUserCompletedTestsCSV.js:22-28 | when the rule leaves an already-correct status alone (recomputing it on a test that carries the rule's value gives that value), a second reconcile pass changes nothing and writes nothing back |
| `StatusReconciler.TestStore.UpdateStatus` | backend/services/getUserCompletedTestsCSV.js:25 | each call appends one (test id, status) entry to the write-back log |
| `StatusReconciler.Reconcile` | backend/services/getUserCompletedTestsCSV.js:22-28 | the array in memory ends as the reconciled tests, and the log grows by exactly the write-backs of the stale tests |
| `Aggregator.SubjectMap` | backend/services/getUserCompletedTestsCSV.js:31 | the lookup's keys are exactly the ids of the fetched subjects |
| `Aggregator.SubjectMapLastWins` | backend/services/getUserCompletedTestsCSV.js:31 | an id maps to the name of the last subject that carries it, as when a JavaScript Map is built from entries |
| `Aggregator.SubjectNames` | backend/services/getUserCompletedTestsCSV.js:37 | one name per subject reference, in the test's order; each is the mapped name, or `''` for an id not in the lookup |
| `Aggregator.Join` | backend/services/getUserCompletedTestsCSV.js:49 | joining no names gives `''`; otherwise the length is the names' total length plus one separator between each neighbouring pair |
| `Aggregator.JoinFront` | backend/services/getUserCompletedTestsCSV.js:49 | splitting off the first name gives the same string: the first name, the separator, then the rest joined |
| `Aggregator.JoinEnds` | backend/services/getUserCompletedTestsCSV.js:49 | the joined Subjects field starts with the first name and ends with the last one |
| `Aggregator.Sum` | backend/services/getUserCompletedTestsCSV.js:50 | the `reduce` from 0 of one value is that value, and of values that are all non-negative is non-negative; `SumConcat` and `SumFirst` state how it splits |
| `Aggregator.SumConcat` | backend/services/getUserCompletedTestsCSV.js:50 | the left-to-right sum from 0 splits over concatenation |
| `Aggregator.SumFirst` | backend/services/getUserCompletedTestsCSV.js:50 | the left-to-right sum is the first element plus the sum of the rest |
| `Aggregator.ScoreTotal` | backend/services/getUserCompletedTestsCSV.js:50 | a scalar score totals to itself and a per-question score to the `Sum` of its values; the row's Score clauses of `BuildRow` state it for the export |
| `Aggregator.TotalScore` | backend/services/getUserCompletedTestsCSV.js:50 | 0 without an answersheet, otherwise the answersheet's `ScoreTotal`; `BuildRow` and `ScoreExample` state it |
| `Aggregator.FindAnswersheet` | backend/services/getUserCompletedTestsCSV.js:36 | no answersheet is found exactly when none has the test's id; otherwise the result is the first answersheet, in answersheet order, with that id |
| `Aggregator.BuildRow` | backend/services/getUserCompletedTestsCSV.js:36-52 | title, status and max marks pass through; Subjects is the resolved names joined by `", "`; Questions is the question count; Score is 0 without a matching answersheet, and otherwise the total of the first matching answersheet's score |
| `Aggregator.ScoreExample` | backend/services/getUserCompletedTestsCSV.js:50 | per-question scores [2, 1] total 3, a scalar 7 totals 7, and no answersheet totals 0 |
| `Aggregator.SubjectsExample` | backend/services/getUserCompletedTestsCSV.js:31-49 | with subject 1 = "Math", a test with subjects [1, 2] gets the Subjects field "Math, " |
| `CompletedTestsExport.TestIds` | backend/services/getUserCompletedTestsCSV.js:19 | one id per answersheet, in answersheet order: id k is answersheet k's test |
| `CompletedTestsExport.RequestedTestHasAnswersheet` | backend/services/getUserCompletedTestsCSV.js:19-20 | a test whose id is among the answersheets' test ids always finds an answersheet of that test |
| `CompletedTestsExport.FetchedRowScore` | backend/services/getUserCompletedTestsCSV.js:20-50 | when a fetched test's id was requested, its row joins the first answersheet of that test and its Score is that answersheet's total, never the no-answersheet 0 |
| `CompletedTestsExport.BuildRows` | backend/services/getUserCompletedTestsCSV.js:33-53 | exactly one row per test: row k is the row of test k, so there are as many rows as tests and the order is kept |
| `CompletedTestsExport.ReconciledRow` | backend/services/getUserCompletedTestsCSV.js:26-51 | the row of fetched test k shows the recomputed status, never the stale one, plus that test's own title, max marks and question count |
| `CompletedTestsExport.ExportCompletedTests` | backend/services/getUserCompletedTestsCSV.js:12-53 | with no completed answersheet there are no rows and no write-backs. Otherwise the log grows by the stale tests' write-backs, the outcome carries the fixed six-column header, and there is one row per fetched test in fetch order, showing that test's recomputed status. When the test query returns only tests with requested ids (the `$in` filter), every row joins an answersheet and its Score is that answersheet's total |

## Left out

- The database queries are left out: their projections, the `$in` filter and
  `.lean()`. The answersheets and subjects are input sequences. The test query
  is a function parameter `fetchTests`. Its `resultTime` ordering is assumed
  to be done by the fetcher.
- The test service's status rule and status update (`backend/services/test.js`)
  are not part of this model. The rule is an arbitrary function parameter.
  It is taken to be a pure function of the test, independent of the clock;
  `ReconcileIdempotent` relies on that and on the rule being stable on its
  own output; the rule may read the stored status. The update is a call log
  in `TestStore`.
- Creating the output directory and writing the CSV file are foreign I/O
  (`fs` and `csv-writer`). The outcome `Exported(header, rows)` carries
  the header and rows that would be written. The header is the constant
  `CompletedTestsExport.Header`, the column order of the writer's header
  (lines 62-69).
- Console logging, `async`/`await` and the catch-all `try`/`catch` are left
  out. A failing query, write-back or file write is therefore not modelled.
- The per-question `testQuestions` array (lines 38-43) is left out. It is
  computed but never written to the output.
- Scores are integers. JavaScript number arithmetic in `reduce` (floating
  point) is not modelled.
- Ids are compared as strings, which stands for the source's `toString()`
  comparisons.
- `subjectMap.get(id) || ''` is modelled as "the mapped name, or `''`". Names
  are strings, and an empty name gives `''` either way, so the two agree.
