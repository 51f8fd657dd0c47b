/**
 * The terminal colour of a CloudFormation resource status (brume/color.py): a fixed table from
 * status to colour code, with no default.
 */
module Color {
  import opened Wrappers
  import opened Strings

  const Red := 1
  const Green := 2
  const Yellow := 3
  const Grey := 8

  /** The statuses the table knows, and their colour codes. */
  const ColorsMap: map<string, int> := map[
    "CREATE_FAILED" := Red,
    "DELETE_FAILED" := Red,
    "UPDATE_FAILED" := Red,
    "ROLLBACK_IN_PROGRESS" := Red,
    "ROLLBACK_FAILED" := Red,
    "UPDATE_ROLLBACK_FAILED" := Red,
    "ROLLBACK_COMPLETE" := Green,
    "CREATE_COMPLETE" := Green,
    "DELETE_COMPLETE" := Green,
    "UPDATE_COMPLETE" := Green,
    "UPDATE_ROLLBACK_COMPLETE" := Green,
    "CREATE_IN_PROGRESS" := Yellow,
    "DELETE_IN_PROGRESS" := Yellow,
    "UPDATE_IN_PROGRESS" := Yellow,
    "UPDATE_ROLLBACK_IN_PROGRESS" := Yellow,
    "UPDATE_COMPLETE_CLEANUP_IN_PROGRESS" := Yellow,
    "UPDATE_ROLLBACK_COMPLETE_CLEANUP_IN_PROGRESS" := Yellow,
    "DELETE_SKIPPED" := Grey
  ]

  /** `Color.for_status`, as the colour code; a status outside the table is the `KeyError`. */
  function ForStatus(status: string): (r: Option<int>)
    ensures r.None? <==> status !in ColorsMap
    ensures r.Some? ==> r.value in {Red, Green, Yellow, Grey}
  {
    if status in ColorsMap then Some(ColorsMap[status]) else None
  }

  /**
   * The colour a status is meant to have, read off its name: a failure, or the rollback
   * starting, is red; a finished operation green; one under way yellow; anything else grey.
   */
  function Classify(status: string): int {
    if Contains(status, "FAILED") || status == "ROLLBACK_IN_PROGRESS" then Red
    else if EndsWith(status, "COMPLETE") then Green
    else if EndsWith(status, "IN_PROGRESS") then Yellow
    else Grey
  }

  /** A status without the letter `F` cannot contain `FAILED`. */
  lemma NoFailure(status: string)
    requires 'F' !in status
    ensures !Contains(status, "FAILED")
  {
    forall j: nat ensures !OccursAt(status, "FAILED", j) {
      if j + 6 <= |status| {
        assert status[j] in status;
      }
    }
  }

  /** A status ending in `FAILED` is red. */
  lemma ClassifyFailed(status: string)
    requires EndsWith(status, "FAILED")
    ensures Classify(status) == Red && Contains(status, "FAILED")
  {
    ContainsAt(status, "FAILED", |status| - 6);
  }

  /** A status ending in `COMPLETE`, with no failure in it, is green. */
  lemma ClassifyComplete(status: string)
    requires 'F' !in status && EndsWith(status, "COMPLETE")
    ensures Classify(status) == Green && !EndsWith(status, "FAILED")
  {
    NoFailure(status);
    assert status[|status| - 1] == 'E';
  }

  /** A status under way, with no failure in it and other than a rollback, is yellow. */
  lemma ClassifyInProgress(status: string)
    requires 'F' !in status && EndsWith(status, "IN_PROGRESS") && status != "ROLLBACK_IN_PROGRESS"
    ensures Classify(status) == Yellow && !EndsWith(status, "FAILED")
  {
    NoFailure(status);
    assert status[|status| - 1] == 'S';
  }

  /** The failed statuses of the table are red. */
  lemma FailedRed(status: string)
    requires status == "CREATE_FAILED" || status == "DELETE_FAILED" || status == "UPDATE_FAILED" ||
             status == "ROLLBACK_FAILED" || status == "UPDATE_ROLLBACK_FAILED"
    ensures ColorsMap[status] == Red
  {
  }

  /** The failed statuses of the table end in `FAILED`. */
  lemma FailedNamed(status: string)
    requires status == "CREATE_FAILED" || status == "DELETE_FAILED" || status == "UPDATE_FAILED" ||
             status == "ROLLBACK_FAILED" || status == "UPDATE_ROLLBACK_FAILED"
    ensures EndsWith(status, "FAILED")
  {
  }

  /** The finished statuses of the table are green. */
  lemma CompleteGreen(status: string)
    requires status == "ROLLBACK_COMPLETE" || status == "CREATE_COMPLETE" || status == "DELETE_COMPLETE" ||
             status == "UPDATE_COMPLETE" || status == "UPDATE_ROLLBACK_COMPLETE"
    ensures ColorsMap[status] == Green
  {
  }

  /** The finished statuses of the table end in `COMPLETE` and have no `F`. */
  lemma CompleteNamed(status: string)
    requires status == "ROLLBACK_COMPLETE" || status == "CREATE_COMPLETE" || status == "DELETE_COMPLETE" ||
             status == "UPDATE_COMPLETE" || status == "UPDATE_ROLLBACK_COMPLETE"
    ensures EndsWith(status, "COMPLETE") && 'F' !in status
  {
  }

  /** The statuses of the table under way, but for the rollback, are yellow. */
  lemma InProgressYellow(status: string)
    requires status == "CREATE_IN_PROGRESS" || status == "DELETE_IN_PROGRESS" || status == "UPDATE_IN_PROGRESS" ||
             status == "UPDATE_ROLLBACK_IN_PROGRESS" || status == "UPDATE_COMPLETE_CLEANUP_IN_PROGRESS" ||
             status == "UPDATE_ROLLBACK_COMPLETE_CLEANUP_IN_PROGRESS"
    ensures ColorsMap[status] == Yellow
  {
  }

  /** The statuses of the table under way end in `IN_PROGRESS`. */
  lemma InProgressNamed(status: string)
    requires status == "CREATE_IN_PROGRESS" || status == "DELETE_IN_PROGRESS" || status == "UPDATE_IN_PROGRESS" ||
             status == "UPDATE_ROLLBACK_IN_PROGRESS" || status == "UPDATE_COMPLETE_CLEANUP_IN_PROGRESS" ||
             status == "UPDATE_ROLLBACK_COMPLETE_CLEANUP_IN_PROGRESS"
    ensures EndsWith(status, "IN_PROGRESS")
  {
  }

  /** The statuses of the table under way have no `F`. */
  lemma InProgressUnfailed(status: string)
    requires status == "CREATE_IN_PROGRESS" || status == "DELETE_IN_PROGRESS" || status == "UPDATE_IN_PROGRESS" ||
             status == "UPDATE_ROLLBACK_IN_PROGRESS" || status == "UPDATE_COMPLETE_CLEANUP_IN_PROGRESS" ||
             status == "UPDATE_ROLLBACK_COMPLETE_CLEANUP_IN_PROGRESS"
    ensures 'F' !in status
  {
  }

  /**
   * Every status of the table has the colour its name calls for, and contains `FAILED` only
   * as its ending.
   */
  lemma Classified(status: string)
    requires status in ColorsMap
    ensures ForStatus(status) == Some(Classify(status))
    ensures Contains(status, "FAILED") <==> EndsWith(status, "FAILED")
  {
    if status == "CREATE_FAILED" || status == "DELETE_FAILED" || status == "UPDATE_FAILED" ||
             status == "ROLLBACK_FAILED" || status == "UPDATE_ROLLBACK_FAILED" {
      FailedRed(status);
      FailedNamed(status);
      ClassifyFailed(status);
    } else if status == "ROLLBACK_COMPLETE" || status == "CREATE_COMPLETE" || status == "DELETE_COMPLETE" ||
             status == "UPDATE_COMPLETE" || status == "UPDATE_ROLLBACK_COMPLETE" {
      CompleteGreen(status);
      CompleteNamed(status);
      ClassifyComplete(status);
      NoFailure(status);
    } else if status == "CREATE_IN_PROGRESS" || status == "DELETE_IN_PROGRESS" || status == "UPDATE_IN_PROGRESS" ||
             status == "UPDATE_ROLLBACK_IN_PROGRESS" || status == "UPDATE_COMPLETE_CLEANUP_IN_PROGRESS" ||
             status == "UPDATE_ROLLBACK_COMPLETE_CLEANUP_IN_PROGRESS" {
      InProgressYellow(status);
      InProgressNamed(status);
      InProgressUnfailed(status);
      ClassifyInProgress(status);
      NoFailure(status);
    } else if status == "ROLLBACK_IN_PROGRESS" {
      assert ColorsMap[status] == Red && 'F' !in status;
      NoFailure(status);
      NoSuffix(status, "FAILED");
    } else {
      assert status == "DELETE_SKIPPED";
      assert ColorsMap[status] == Grey && 'F' !in status;
      NoFailure(status);
      NoSuffix(status, "FAILED");
      assert status[|status| - 1] == 'D';
    }
  }

  /** Without the first letter of a suffix, a status cannot end with it. */
  lemma NoSuffix(status: string, suffix: string)
    requires suffix != [] && suffix[0] !in status
    ensures !EndsWith(status, suffix)
  {
    if |suffix| <= |status| {
      assert status[|status| - |suffix|] in status;
    }
  }

  /** A table status containing `FAILED` is red. */
  lemma FailedIsRed(status: string)
    requires status in ColorsMap && Contains(status, "FAILED")
    ensures ForStatus(status) == Some(Red)
  {
    Classified(status);
  }

  /** A table status ending in `COMPLETE` is green. */
  lemma CompleteIsGreen(status: string)
    requires status in ColorsMap && EndsWith(status, "COMPLETE")
    ensures ForStatus(status) == Some(Green)
  {
    Classified(status);
    assert status[|status| - 1] == 'E';
  }

  /** A table status ending in `IN_PROGRESS`, other than `ROLLBACK_IN_PROGRESS`, is yellow. */
  lemma InProgressIsYellow(status: string)
    requires status in ColorsMap && EndsWith(status, "IN_PROGRESS") && status != "ROLLBACK_IN_PROGRESS"
    ensures ForStatus(status) == Some(Yellow)
  {
    Classified(status);
    assert status[|status| - 1] == 'S';
  }
}
