/** The deployment status report (`foreup_bot/utils/check_status.py`): six independent
    checks are run in order, a check that raises counts as failed, and the number that
    passed decides a three-way verdict. */
module CheckStatus {

  /** How one check ended: it returned its boolean, or it raised. `main` runs six, in
      order: `check_lambda_function`, `check_eventbridge_rule`, `check_sns_topic`,
      `check_cloudwatch_logs`, `check_cloudwatch_metrics` and
      `check_current_configuration`. What each inspects is AWS and filesystem access,
      outside this model; only how each ended is taken. */
  datatype Run = Returned(passed: bool) | Raised

  /** What a run contributes to `results`. */
  function ResultOf(r: Run): bool {
    match r
    case Returned(b) => b
    case Raised => false
  }

  /** Lines 221-228: the results list the loop builds, in order. */
  method CollectResults(runs: seq<Run>) returns (results: seq<bool>)
    ensures |results| == |runs|
    ensures forall k | 0 <= k < |runs| :: results[k] <==> runs[k] == Returned(true)
  {
    results := [];
    for i := 0 to |runs|
      invariant |results| == i
      invariant forall k | 0 <= k < i :: results[k] <==> runs[k] == Returned(true)
    {
      var result: bool;
      match runs[i] {
        case Returned(b) => result := b;
        case Raised => result := false;
      }
      results := results + [result];
    }
  }

  /** `sum(results)`: the number of `True`s. */
  function Passed(results: seq<bool>): (n: nat)
    ensures n <= |results|
    decreases |results|
  {
    if results == [] then 0
    else Passed(results[..|results| - 1]) + (if results[|results| - 1] then 1 else 0)
  }

  /** Every check passed exactly when the count is the total. */
  lemma {:induction false} PassedAll(results: seq<bool>)
    ensures Passed(results) == |results| <==> forall k | 0 <= k < |results| :: results[k]
    decreases |results|
  {
    if results != [] {
      var init := results[..|results| - 1];
      PassedAll(init);
      if forall k | 0 <= k < |results| :: results[k] {
        assert forall k | 0 <= k < |init| :: init[k] == results[k];
      }
      if Passed(results) == |results| {
        forall k | 0 <= k < |results| ensures results[k] {
          if k < |init| {
            assert init[k] == results[k];
          }
        }
      }
    }
  }

  /** Nothing passed exactly when no result is `True`. */
  lemma {:induction false} PassedNone(results: seq<bool>)
    ensures Passed(results) == 0 <==> forall k | 0 <= k < |results| :: !results[k]
    decreases |results|
  {
    if results != [] {
      var init := results[..|results| - 1];
      PassedNone(init);
      if Passed(results) == 0 {
        forall k | 0 <= k < |results| ensures !results[k] {
          if k < |init| {
            assert init[k] == results[k];
          }
        }
      }
      if forall k | 0 <= k < |results| :: !results[k] {
        assert forall k | 0 <= k < |init| :: init[k] == results[k];
      }
    }
  }

  /** The closing verdict, by the message it prints. */
  datatype Verdict = AllOperational | SomeIssues | MultipleIssues

  /** Lines 234-244: all passed; more than `total // 2` passed, which is strictly more
      than half; or not, which includes exactly half. With the six checks `main` runs,
      six passed is all operational, four or five is some issues, and three, exactly
      half, is already multiple issues. */
  function VerdictOf(passed: nat, total: nat): (v: Verdict)
    requires passed <= total
    ensures v == AllOperational <==> passed == total
    ensures v == SomeIssues <==> passed < total && 2 * passed > total
    ensures v == MultipleIssues <==> 2 * passed <= total && passed < total
  {
    if passed == total then AllOperational
    else if passed > total / 2 then SomeIssues
    else MultipleIssues
  }

  /** Lines 207-244: `main`'s summary, from how each check ended. */
  method Summary(runs: seq<Run>) returns (passed: nat, total: nat, verdict: Verdict)
    ensures total == |runs| && passed <= total
    ensures passed == |set k | 0 <= k < |runs| && runs[k] == Returned(true)|
    ensures verdict == VerdictOf(passed, total)
  {
    var results := CollectResults(runs);
    passed := Passed(results);
    total := |results|;
    PassedCounts(results);
    assert (set k | 0 <= k < |results| && results[k]) == (set k | 0 <= k < |runs| && runs[k] == Returned(true));
    verdict := VerdictOf(passed, total);
  }

  /** `sum` counts the positions that hold `True`. */
  lemma {:induction false} PassedCounts(results: seq<bool>)
    ensures Passed(results) == |set k | 0 <= k < |results| && results[k]|
    decreases |results|
  {
    if results != [] {
      var n := |results| - 1;
      var init := results[..n];
      PassedCounts(init);
      var before := set k | 0 <= k < n && init[k];
      var all := set k | 0 <= k < |results| && results[k];
      assert before == set k | 0 <= k < n && results[k];
      if results[n] {
        assert all == before + {n};
      } else {
        assert all == before;
      }
    }
  }
}
