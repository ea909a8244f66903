/**
 * The three standard test stages, their display names, and the membership
 * check and display lookup over them.
 */
module TestStages {

  /** `TEST_STAGES`, in their standard order. */
  const Stages: seq<string> := ["Board-Bring-Up", "SIT", "Test-Campaign"]

  /** `TEST_STAGE_DISPLAY_NAMES`. */
  const DisplayNames: map<string, string> :=
    map["Board-Bring-Up" := "Board Bring-Up", "SIT" := "Select-In-Test", "Test-Campaign" := "Test Campaign"]

  /** `validate_test_stage`: one of the three standard stages, spelled exactly. */
  function ValidateTestStage(stage: string): (r: bool)
    ensures r <==> stage == "Board-Bring-Up" || stage == "SIT" || stage == "Test-Campaign"
  {
    stage in Stages
  }

  /** `get_test_stage_display_name`: the display name of a standard stage, anything else unchanged. */
  function DisplayName(stage: string): (r: string)
    ensures !ValidateTestStage(stage) ==> r == stage
    ensures stage == "Board-Bring-Up" ==> r == "Board Bring-Up"
    ensures stage == "SIT" ==> r == "Select-In-Test"
    ensures stage == "Test-Campaign" ==> r == "Test Campaign"
  {
    if stage in DisplayNames then DisplayNames[stage] else stage
  }

  /**
   * Exactly the standard stages have display names; each differs from its stage, and
   * no two stages share one, so a display name identifies its stage.
   */
  lemma DisplayNamesMatchStages(s1: string, s2: string)
    ensures s1 in DisplayNames <==> ValidateTestStage(s1)
    ensures ValidateTestStage(s1) ==> DisplayName(s1) != s1
    ensures ValidateTestStage(s1) && ValidateTestStage(s2) && DisplayName(s1) == DisplayName(s2) ==> s1 == s2
  {
    assert "Board Bring-Up"[6] != "Select-In-Test"[6];
    assert "Board Bring-Up"[0] != "Test Campaign"[0];
    assert "Select-In-Test"[0] != "Test Campaign"[0];
  }

  /** The stages are three distinct names. */
  lemma StagesDistinct()
    ensures |Stages| == 3
    ensures forall i, j :: 0 <= i < j < |Stages| ==> Stages[i] != Stages[j]
  {
    assert Stages[0][0] != Stages[1][0] && Stages[0][0] != Stages[2][0] && Stages[1][0] != Stages[2][0];
  }
}
