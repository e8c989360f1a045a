/**
 * Status reconciliation: every fetched test's status is recomputed by the
 * external status rule; a stale status is written back to the store and
 * overwritten in memory, so the later stages see the corrected value.
 */
module StatusReconciler {
  import opened Records

  /** One recorded call of the store's status update. */
  datatype WriteBack = WriteBack(test: Id, status: Status)

  /** The status rule disagrees with the stored status. */
  predicate IsStale(t: Test, getTestStatus: Test -> Status)
  {
    getTestStatus(t) != t.status
  }

  /** The test as it stands after its reconciliation step. */
  function Reconciled(t: Test, getTestStatus: Test -> Status): (r: Test)
    ensures r.status == getTestStatus(t)
    ensures r.(status := t.status) == t
  {
    if IsStale(t, getTestStatus) then t.(status := getTestStatus(t)) else t
  }

  /** The tests after the whole reconcile loop, defined prefix by prefix as the loop runs. */
  function ReconciledAll(ts: seq<Test>, getTestStatus: Test -> Status): (r: seq<Test>)
    ensures |r| == |ts|
  {
    if ts == [] then []
    else ReconciledAll(ts[..|ts| - 1], getTestStatus) + [Reconciled(ts[|ts| - 1], getTestStatus)]
  }

  /** The write-backs the reconcile loop issues, in order. */
  function WriteBacks(ts: seq<Test>, getTestStatus: Test -> Status): (log: seq<WriteBack>)
    ensures |log| <= |ts|
    ensures (forall i :: 0 <= i < |ts| ==> !IsStale(ts[i], getTestStatus)) ==> log == []
  {
    if ts == [] then []
    else
      var t := ts[|ts| - 1];
      WriteBacks(ts[..|ts| - 1], getTestStatus)
      + (if IsStale(t, getTestStatus) then [WriteBack(t.id, getTestStatus(t))] else [])
  }

  /** The positions of the stale tests, in increasing order. */
  function StaleIndices(ts: seq<Test>, getTestStatus: Test -> Status): seq<nat>
  {
    if ts == [] then []
    else
      StaleIndices(ts[..|ts| - 1], getTestStatus)
      + (if IsStale(ts[|ts| - 1], getTestStatus) then [|ts| - 1] else [])
  }

  /**
   * After the loop each test, at its fetched position, has the status the
   * rule gives for the test as fetched, and every other field is unchanged.
   */
  lemma {:induction false} ReconciledAllAt(ts: seq<Test>, getTestStatus: Test -> Status)
    ensures forall k :: 0 <= k < |ts| ==>
      ReconciledAll(ts, getTestStatus)[k] == ts[k].(status := getTestStatus(ts[k]))
  {
    if ts != [] {
      ReconciledAllAt(ts[..|ts| - 1], getTestStatus);
    }
  }

  /** StaleIndices lists exactly the stale positions, each once, in increasing order. */
  lemma {:induction false} StaleIndicesExact(ts: seq<Test>, getTestStatus: Test -> Status)
    ensures forall k :: 0 <= k < |StaleIndices(ts, getTestStatus)| ==>
      StaleIndices(ts, getTestStatus)[k] < |ts|
    ensures forall k, l :: 0 <= k < l < |StaleIndices(ts, getTestStatus)| ==>
      StaleIndices(ts, getTestStatus)[k] < StaleIndices(ts, getTestStatus)[l]
    ensures forall i :: 0 <= i < |ts| ==>
      (i in StaleIndices(ts, getTestStatus) <==> IsStale(ts[i], getTestStatus))
  {
    if ts != [] {
      var init := ts[..|ts| - 1];
      StaleIndicesExact(init, getTestStatus);
      forall i | 0 <= i < |init|
        ensures IsStale(ts[i], getTestStatus) == IsStale(init[i], getTestStatus)
      {
      }
    }
  }

  /**
   * The status update is called once for each stale test, in fetch order,
   * with that test's id and its recomputed status, and for no other test.
   */
  lemma {:induction false} WriteBacksExactlyStale(ts: seq<Test>, getTestStatus: Test -> Status)
    ensures |WriteBacks(ts, getTestStatus)| == |StaleIndices(ts, getTestStatus)|
    ensures forall k :: 0 <= k < |StaleIndices(ts, getTestStatus)| ==>
      var i := StaleIndices(ts, getTestStatus)[k];
      i < |ts| && WriteBacks(ts, getTestStatus)[k] == WriteBack(ts[i].id, getTestStatus(ts[i]))
  {
    StaleIndicesExact(ts, getTestStatus);
    if ts != [] {
      var init := ts[..|ts| - 1];
      WriteBacksExactlyStale(init, getTestStatus);
      StaleIndicesExact(init, getTestStatus);
      var si := StaleIndices(ts, getTestStatus);
      forall k | 0 <= k < |StaleIndices(init, getTestStatus)|
        ensures ts[si[k]] == init[si[k]]
      {
      }
    }
  }

  /**
   * A rule that leaves an already-correct status alone: recomputing the
   * status of a test that already carries the rule's value gives that value.
   */
  ghost predicate StableOnOwnOutput(getTestStatus: Test -> Status)
  {
    forall t: Test :: getTestStatus(t.(status := getTestStatus(t))) == getTestStatus(t)
  }

  /**
   * When the rule is stable on its own output, reconciliation is idempotent:
   * a second pass changes nothing and writes nothing back.
   */
  lemma {:induction false} ReconcileIdempotent(ts: seq<Test>, getTestStatus: Test -> Status)
    requires StableOnOwnOutput(getTestStatus)
    ensures ReconciledAll(ReconciledAll(ts, getTestStatus), getTestStatus) == ReconciledAll(ts, getTestStatus)
    ensures WriteBacks(ReconciledAll(ts, getTestStatus), getTestStatus) == []
  {
    if ts != [] {
      var init := ts[..|ts| - 1];
      var t := ts[|ts| - 1];
      ReconcileIdempotent(init, getTestStatus);
      var once := ReconciledAll(ts, getTestStatus);
      assert once[..|once| - 1] == ReconciledAll(init, getTestStatus);
      var r := Reconciled(t, getTestStatus);
      assert r == t.(status := getTestStatus(t));
      assert getTestStatus(r) == getTestStatus(t);
      assert !IsStale(r, getTestStatus);
    }
  }

  /** The store's status-update entry point, recorded as a log of calls. */
  class TestStore {
    var log: seq<WriteBack>

    method UpdateStatus(test: Id, status: Status)
      modifies this
      ensures log == old(log) + [WriteBack(test, status)]
    {
      log := log + [WriteBack(test, status)];
    }
  }

  /** The reconcile loop: corrects stale statuses in place and writes them back. */
  method Reconcile(tests: array<Test>, store: TestStore, getTestStatus: Test -> Status)
    modifies tests, store
    ensures tests[..] == ReconciledAll(old(tests[..]), getTestStatus)
    ensures store.log == old(store.log) + WriteBacks(old(tests[..]), getTestStatus)
  {
    ghost var fetched := tests[..];
    for i := 0 to tests.Length
      invariant tests[..i] == ReconciledAll(fetched[..i], getTestStatus)
      invariant forall j :: i <= j < tests.Length ==> tests[j] == fetched[j]
      invariant store.log == old(store.log) + WriteBacks(fetched[..i], getTestStatus)
    {
      var test := tests[i];
      assert fetched[..i + 1][..i] == fetched[..i];
      assert test == fetched[i];
      var correctStatus := getTestStatus(test);
      if correctStatus != test.status {
        store.UpdateStatus(test.id, correctStatus);
        tests[i] := test.(status := correctStatus);
      }
      assert tests[..i + 1] == tests[..i] + [tests[i]];
    }
    assert fetched[..tests.Length] == fetched;
  }
}
