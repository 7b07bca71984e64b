/**
 * The operational endpoints: which paths are the health and readiness
 * probes, and the readiness report built from the named checks.
 *
 * The readiness state is a dict in insertion order, so it is a sequence of
 * (name, passed) pairs here.
 */
module Ops {
  import opened Wrappers
  import opened Lists

  /** `OPS_PATHS`. */
  const OpsPaths: set<string> := {"/healthz", "/readyz"}

  /** `is_ops_path(path)`: a present, non-empty path that is one of the two probes. */
  function IsOpsPath(path: Option<string>): (r: bool)
    ensures r <==> path.Some? && (path.value == "/healthz" || path.value == "/readyz")
    ensures r ==> path.value != ""
  {
    path.Some? && path.value != "" && path.value in OpsPaths
  }

  /** The readiness report: `"ok"` or `"fail"`, the checks as given, and the names of the failed ones. */
  datatype Readiness = Readiness(status: string, checks: seq<(string, bool)>, failed: seq<string>)

  /** `[k for k, v in readiness_state.items() if not v]`. */
  function FailedChecks(state: seq<(string, bool)>): seq<string>
  {
    Map(Filter(state, (e: (string, bool)) => !e.1), (e: (string, bool)) => e.0)
  }

  /** `build_readiness_status(readiness_state)`. */
  function BuildReadinessStatus(state: seq<(string, bool)>): (r: Readiness)
    ensures r.checks == state
    ensures r.failed == FailedChecks(state)
    ensures r.status == "ok" || r.status == "fail"
  {
    var failed := FailedChecks(state);
    Readiness(if failed == [] then "ok" else "fail", state, failed)
  }

  /** A name is reported failed exactly when some check of that name did not pass. */
  lemma FailedNames(state: seq<(string, bool)>)
    ensures forall name :: name in BuildReadinessStatus(state).failed <==> (name, false) in state
  {
    var notPassed := (e: (string, bool)) => !e.1;
    var key := (e: (string, bool)) => e.0;
    var kept := Filter(state, notPassed);
    FilterMembers(state, notPassed);
    forall n
      ensures n in FailedChecks(state) <==> (n, false) in state
    {
      if n in FailedChecks(state) {
        var i :| 0 <= i < |kept| && Map(kept, key)[i] == n;
        assert kept[i] in kept;
      }
      if (n, false) in state {
        var i :| 0 <= i < |kept| && kept[i] == (n, false);
        assert Map(kept, key)[i] == n;
      }
    }
  }

  /** The status is `"ok"` exactly when every check passed, `"fail"` otherwise. */
  lemma StatusOk(state: seq<(string, bool)>)
    ensures BuildReadinessStatus(state).status == "ok" <==> forall i :: 0 <= i < |state| ==> state[i].1
  {
    var notPassed := (e: (string, bool)) => !e.1;
    if forall i :: 0 <= i < |state| ==> state[i].1 {
      FilterNone(state, notPassed);
    } else {
      var i :| 0 <= i < |state| && !state[i].1;
      FilterMembers(state, notPassed);
      assert state[i] in Filter(state, notPassed);
    }
  }

  /** Failed names keep the order of the checks: appending a check appends its name only if it failed. */
  lemma FailedInOrder(state: seq<(string, bool)>, name: string, passed: bool)
    ensures FailedChecks(state + [(name, passed)]) == FailedChecks(state) + (if passed then [] else [name])
  {
    var notPassed := (e: (string, bool)) => !e.1;
    var key := (e: (string, bool)) => e.0;
    FilterAppend(state, [(name, passed)], notPassed);
    assert Filter([(name, passed)], notPassed) == if passed then [] else [(name, passed)];
    MapAppend(Filter(state, notPassed), Filter([(name, passed)], notPassed), key);
  }
}
