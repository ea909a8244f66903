/**
 * The test-criteria editor of the device-maintenance dialog: what `_save_all_criteria`
 * writes to the criteria store for each test stage (Gain Range, VSWR Max and the OOB
 * rows), and the Tab / Shift-Tab / Enter navigation between the cells of the OOB table
 * (`OOBSpinboxFilter.eventFilter`). The store stands in for the device service's
 * criteria repository.
 */
module CriteriaEditor {
  import opened Exceptions
  import opened Criteria
  import Text
  import TestStages
  import Compliance

  // ---------------------------------------------------------------- the criteria store

  /** No two stored criteria share an id (the primary key of the criteria table). */
  predicate UniqueIds(cs: seq<TestCriteria>)
  {
    forall i, j :: 0 <= i < j < |cs| ==> cs[i].id != cs[j].id
  }

  function Ids(cs: seq<TestCriteria>): set<Id>
  {
    set c | c in cs :: c.id
  }

  /** The largest id in use (0 for an empty store). */
  function MaxId(cs: seq<TestCriteria>): (m: Id)
    ensures forall c :: c in cs ==> c.id <= m
  {
    if cs == [] then 0
    else
      var m := MaxId(cs[..|cs| - 1]);
      assert forall c :: c in cs ==> c in cs[..|cs| - 1] || c == cs[|cs| - 1];
      if cs[|cs| - 1].id > m then cs[|cs| - 1].id else m
  }

  /** An id no stored criterion has: the model's stand-in for `uuid4()`. */
  function FreshId(cs: seq<TestCriteria>): (id: Id)
    ensures id !in Ids(cs)
  {
    MaxId(cs) + 1
  }

  /** `create`: the criterion appended under a fresh id. */
  function Added(cs: seq<TestCriteria>, c: TestCriteria): seq<TestCriteria>
  {
    cs + [c.(id := FreshId(cs))]
  }

  /** The columns `update` writes; id, device, test type and stage are kept. */
  function Rewritten(prev: TestCriteria, c: TestCriteria): TestCriteria
  {
    prev.(requirementName := c.requirementName, criteriaType := c.criteriaType, minValue := c.minValue,
          maxValue := c.maxValue, unit := c.unit, frequencyMin := c.frequencyMin, frequencyMax := c.frequencyMax)
  }

  /** `update`: the row with `c`'s id rewritten. */
  function Updated(cs: seq<TestCriteria>, c: TestCriteria): seq<TestCriteria>
  {
    seq(|cs|, i requires 0 <= i < |cs| => if cs[i].id == c.id then Rewritten(cs[i], c) else cs[i])
  }

  /** The store without the rows whose ids are in `ids`, order kept (`delete` for one id). */
  function WithoutIds(cs: seq<TestCriteria>, ids: set<Id>): seq<TestCriteria>
  {
    if cs == [] then []
    else WithoutIds(cs[..|cs| - 1], ids) + if cs[|cs| - 1].id in ids then [] else [cs[|cs| - 1]]
  }

  /** A row survives the deletion exactly when its id is not deleted. */
  lemma {:induction false} WithoutIdsIn(cs: seq<TestCriteria>, ids: set<Id>, c: TestCriteria)
    ensures c in WithoutIds(cs, ids) <==> c in cs && c.id !in ids
  {
    if cs != [] {
      var init, last := cs[..|cs| - 1], cs[|cs| - 1];
      WithoutIdsIn(init, ids, c);
      assert cs == init + [last];
    }
  }

  /** Appending a row whose id is new keeps the ids unique. */
  lemma SnocUnique(cs: seq<TestCriteria>, x: TestCriteria)
    requires UniqueIds(cs) && forall y :: y in cs ==> y.id != x.id
    ensures UniqueIds(cs + [x])
  {
    var r := cs + [x];
    forall i, j | 0 <= i < j < |r| ensures r[i].id != r[j].id {
      if j == |cs| { assert r[i] in cs; }
    }
  }

  /** Adding under a fresh id keeps the ids unique. */
  lemma AddedUnique(cs: seq<TestCriteria>, c: TestCriteria)
    requires UniqueIds(cs)
    ensures UniqueIds(Added(cs, c))
  {
    SnocUnique(cs, c.(id := FreshId(cs)));
  }

  /** Updating keeps every row's id, so they stay unique. */
  lemma UpdatedUnique(cs: seq<TestCriteria>, c: TestCriteria)
    requires UniqueIds(cs)
    ensures UniqueIds(Updated(cs, c))
  {
    var r := Updated(cs, c);
    assert forall i :: 0 <= i < |cs| ==> r[i].id == cs[i].id;
  }

  /** Deleting rows keeps the ids unique. */
  lemma {:induction false} WithoutIdsUnique(cs: seq<TestCriteria>, ids: set<Id>)
    requires UniqueIds(cs)
    ensures UniqueIds(WithoutIds(cs, ids))
  {
    if cs != [] {
      var init, last := cs[..|cs| - 1], cs[|cs| - 1];
      WithoutIdsUnique(init, ids);
      if last.id !in ids {
        forall y | y in WithoutIds(init, ids) ensures y.id != last.id {
          WithoutIdsIn(init, ids, y);
          var i :| 0 <= i < |init| && init[i] == y;
          assert cs[i] == y;
        }
        SnocUnique(WithoutIds(init, ids), last);
      }
    }
  }

  /** Deleting one more id after a set of ids is deleting both at once. */
  lemma {:induction false} WithoutIdsStep(cs: seq<TestCriteria>, ids: set<Id>, x: Id)
    ensures WithoutIds(WithoutIds(cs, ids), {x}) == WithoutIds(cs, ids + {x})
  {
    if cs != [] {
      var init, last := cs[..|cs| - 1], cs[|cs| - 1];
      WithoutIdsStep(init, ids, x);
      var pre := WithoutIds(init, ids);
      assert WithoutIds(cs, ids + {x}) == WithoutIds(init, ids + {x}) + if last.id in ids + {x} then [] else [last];
      if last.id !in ids {
        var both := pre + [last];
        assert both[..|both| - 1] == pre && both[|both| - 1] == last;
        assert WithoutIds(both, {x}) == WithoutIds(pre, {x}) + if last.id == x then [] else [last];
      } else {
        var rest := WithoutIds(init, ids + {x});
        assert pre + [] == pre && rest + [] == rest;
        assert WithoutIds(cs, ids) == pre;
      }
    }
  }

  /** Deleting no ids changes nothing. */
  lemma {:induction false} WithoutNoIds(cs: seq<TestCriteria>)
    ensures WithoutIds(cs, {}) == cs
  {
    if cs != [] {
      WithoutNoIds(cs[..|cs| - 1]);
      assert cs == cs[..|cs| - 1] + [cs[|cs| - 1]];
    }
  }

  /** The device service's criteria, backed by a sequence in place of the SQLite table. */
  class CriteriaStore {
    var criteria: seq<TestCriteria>

    ghost predicate Valid()
      reads this
    {
      UniqueIds(criteria)
    }

    constructor (cs: seq<TestCriteria>)
      requires UniqueIds(cs)
      ensures Valid() && criteria == cs
    {
      criteria := cs;
    }

    /** `add_criteria`: the criterion stored under a new id. */
    method Add(c: TestCriteria) returns (created: TestCriteria)
      requires Valid()
      modifies this
      ensures Valid()
      ensures created == c.(id := FreshId(old(criteria))) && criteria == old(criteria) + [created]
    {
      AddedUnique(criteria, c);
      created := c.(id := FreshId(criteria));
      criteria := criteria + [created];
    }

    /** `update_criteria`: TestCriteriaError for an unknown id; otherwise that row's columns rewritten. */
    method Update(c: TestCriteria) returns (r: Result<TestCriteria>)
      requires Valid()
      modifies this
      ensures Valid()
      ensures c.id in Ids(old(criteria)) ==> r == Ok(c) && criteria == Updated(old(criteria), c)
      ensures c.id !in Ids(old(criteria)) ==> r.Err? && r.error.TestCriteriaError? && criteria == old(criteria)
    {
      if c.id !in Ids(criteria) {
        return Err(TestCriteriaError("Test criteria not found"));
      }
      UpdatedUnique(criteria, c);
      criteria := Updated(criteria, c);
      r := Ok(c);
    }

    /** `delete_criteria`: TestCriteriaError for an unknown id; otherwise that row removed. */
    method Delete(id: Id) returns (r: Result<()>)
      requires Valid()
      modifies this
      ensures Valid()
      ensures id in Ids(old(criteria)) ==> r == Ok(()) && criteria == WithoutIds(old(criteria), {id})
      ensures id !in Ids(old(criteria)) ==> r.Err? && r.error.TestCriteriaError? && criteria == old(criteria)
    {
      if id !in Ids(criteria) {
        return Err(TestCriteriaError("Test criteria not found"));
      }
      WithoutIdsUnique(criteria, {id});
      criteria := WithoutIds(criteria, {id});
      r := Ok(());
    }
  }

  // ---------------------------------------------------------------- what a save writes

  /** One row of a stage's OOB table: its frequency-min, frequency-max and rejection spin boxes. */
  datatype OobRow = OobRow(freqMin: real, freqMax: real, rejection: real)

  /** The values of one stage's tab when Save is pressed. */
  datatype StageForm = StageForm(gainMin: real, gainMax: real, vswrMax: real, oobRows: seq<OobRow>)

  /** The device and test type the editor was opened for; every criterion it writes carries them. */
  datatype Scope = Scope(deviceId: Id, testType: string)

  const GainRangeName: string := "Gain Range"
  const VswrMaxName: string := "VSWR Max"

  predicate InStage(c: TestCriteria, sc: Scope, stage: string)
  {
    c.deviceId == sc.deviceId && c.testType == sc.testType && c.testStage == stage
  }

  /** `get_criteria_for_device(device.id, test_type, stage)`. */
  function StageCriteria(cs: seq<TestCriteria>, sc: Scope, stage: string): seq<TestCriteria>
  {
    Compliance.CriteriaFor(cs, sc.deviceId, sc.testType, stage)
  }

  /** The Gain Range criterion a save creates (the store gives it its id). */
  function GainRangeCriterion(sc: Scope, stage: string, gainMin: real, gainMax: real): TestCriteria
  {
    TestCriteria(0, sc.deviceId, sc.testType, stage, GainRangeName, "range", Some(gainMin), Some(gainMax), "dB", None, None)
  }

  /** The VSWR Max criterion a save creates. */
  function VswrCriterion(sc: Scope, stage: string, vswrMax: real): TestCriteria
  {
    TestCriteria(0, sc.deviceId, sc.testType, stage, VswrMaxName, "max", None, Some(vswrMax), "", None, None)
  }

  /** The name of the criterion saved from table row `row` (rows are numbered from 1). */
  function OobName(row: nat): string
  {
    "OOB " + Text.NatToString(row + 1)
  }

  /**
   * The criterion saved from table row `row`. The next save's deletion step recognises it as
   * OOB, and an accepted row passes construction: the acceptance rule implies the band rule.
   */
  function OobCriterion(sc: Scope, stage: string, row: nat, r: OobRow): (c: TestCriteria)
    ensures IsOob(c)
    ensures Accepted(r) ==> NewTestCriteria(c) == Ok(c)
  {
    var name := OobName(row);
    assert name[0..3] == "OOB";
    Text.ContainsAt(name, "OOB", 0);
    TestCriteria(0, sc.deviceId, sc.testType, stage, OobName(row), "greater_than_equal",
                 Some(r.rejection), None, "dBc", Some(r.freqMin), Some(r.freqMax))
  }

  /** A row is saved only when all three values are positive and the band is not empty. */
  predicate Accepted(r: OobRow)
  {
    r.freqMin > 0.0 && r.freqMax > 0.0 && r.rejection > 0.0 && r.freqMin < r.freqMax
  }

  /** `"OOB" in c.requirement_name`. */
  predicate IsOob(c: TestCriteria)
  {
    Text.Contains(c.requirementName, "OOB")
  }

  /** The index of the first criterion named `name`, as `[c for c in criteria if ...][0]` picks it. */
  function FirstNamed(cs: seq<TestCriteria>, name: string): (r: Option<nat>)
    ensures r.Some? ==> r.value < |cs| && cs[r.value].requirementName == name
    ensures r.Some? ==> forall j :: 0 <= j < r.value ==> cs[j].requirementName != name
    ensures r.None? ==> forall j :: 0 <= j < |cs| ==> cs[j].requirementName != name
  {
    if cs == [] then None
    else if cs[0].requirementName == name then Some(0)
    else match FirstNamed(cs[1..], name)
      case None => None
      case Some(k) => Some(k + 1)
  }

  /** The Gain Range step: skipped unless min < max; updates the first Gain Range or creates one. */
  function WithGainRange(cs: seq<TestCriteria>, sc: Scope, stage: string, f: StageForm): seq<TestCriteria>
  {
    if f.gainMin < f.gainMax then
      var existing := StageCriteria(cs, sc, stage);
      match FirstNamed(existing, GainRangeName)
      case Some(k) => Updated(cs, existing[k].(minValue := Some(f.gainMin), maxValue := Some(f.gainMax)))
      case None => Added(cs, GainRangeCriterion(sc, stage, f.gainMin, f.gainMax))
    else cs
  }

  /** The VSWR Max step: always taken; updates the first VSWR Max or creates one. */
  function WithVswrMax(cs: seq<TestCriteria>, sc: Scope, stage: string, f: StageForm): seq<TestCriteria>
  {
    var existing := StageCriteria(cs, sc, stage);
    match FirstNamed(existing, VswrMaxName)
    case Some(k) => Updated(cs, existing[k].(maxValue := Some(f.vswrMax)))
    case None => Added(cs, VswrCriterion(sc, stage, f.vswrMax))
  }

  /** The criteria whose names contain "OOB", in order. */
  function OobIn(cs: seq<TestCriteria>): (r: seq<TestCriteria>)
    ensures forall c :: c in r <==> c in cs && IsOob(c)
  {
    if cs == [] then []
    else
      assert cs == cs[..|cs| - 1] + [cs[|cs| - 1]];
      OobIn(cs[..|cs| - 1]) + if IsOob(cs[|cs| - 1]) then [cs[|cs| - 1]] else []
  }

  /** `existing_oob`: the stage's OOB criteria. */
  function OobOf(cs: seq<TestCriteria>, sc: Scope, stage: string): seq<TestCriteria>
  {
    OobIn(StageCriteria(cs, sc, stage))
  }

  /** The deletion step: every OOB criterion of the stage removed. */
  function WithoutOob(cs: seq<TestCriteria>, sc: Scope, stage: string): seq<TestCriteria>
  {
    WithoutIds(cs, Ids(OobOf(cs, sc, stage)))
  }

  /** The re-adding step over the table rows, in row order. */
  function WithOobRows(cs: seq<TestCriteria>, sc: Scope, stage: string, rows: seq<OobRow>): seq<TestCriteria>
  {
    if rows == [] then cs
    else
      var pre := WithOobRows(cs, sc, stage, rows[..|rows| - 1]);
      var k := |rows| - 1;
      if Accepted(rows[k]) then Added(pre, OobCriterion(sc, stage, k, rows[k])) else pre
  }

  /** One iteration of the stage loop of `_save_all_criteria`. */
  function SaveStage(cs: seq<TestCriteria>, sc: Scope, stage: string, f: StageForm): seq<TestCriteria>
  {
    var v := WithVswrMax(WithGainRange(cs, sc, stage, f), sc, stage, f);
    WithOobRows(WithoutOob(v, sc, stage), sc, stage, f.oobRows)
  }

  /** The stage loop of `_save_all_criteria` over `stages`. */
  function SaveStages(cs: seq<TestCriteria>, sc: Scope, forms: map<string, StageForm>, stages: seq<string>): seq<TestCriteria>
    requires forall s :: s in stages ==> s in forms
  {
    if stages == [] then cs
    else
      var last := stages[|stages| - 1];
      assert last in stages;
      SaveStage(SaveStages(cs, sc, forms, stages[..|stages| - 1]), sc, last, forms[last])
  }

  /** The OOB criteria the accepted rows of `rows` become, in row order. */
  function AcceptedOobs(sc: Scope, stage: string, rows: seq<OobRow>): seq<TestCriteria>
  {
    if rows == [] then []
    else
      var k := |rows| - 1;
      AcceptedOobs(sc, stage, rows[..k]) + if Accepted(rows[k]) then [OobCriterion(sc, stage, k, rows[k])] else []
  }

  /** Criteria as stored, with the store-drawn ids blanked. */
  function Unkeyed(cs: seq<TestCriteria>): seq<TestCriteria>
  {
    seq(|cs|, i requires 0 <= i < |cs| => cs[i].(id := 0))
  }

  // ---------------------------------------------------------------- the criteria a save creates

  /** A created Gain Range passes construction exactly because the step runs only when min < max. */
  lemma GainRangeCriterionValid(sc: Scope, stage: string, gainMin: real, gainMax: real)
    requires gainMin < gainMax
    ensures NewTestCriteria(GainRangeCriterion(sc, stage, gainMin, gainMax)) == Ok(GainRangeCriterion(sc, stage, gainMin, gainMax))
  {
  }

  /** A created VSWR Max always passes construction. */
  lemma VswrCriterionValid(sc: Scope, stage: string, vswrMax: real)
    ensures NewTestCriteria(VswrCriterion(sc, stage, vswrMax)) == Ok(VswrCriterion(sc, stage, vswrMax))
  {
  }

  /** Gain Range and VSWR Max are never swept up by the OOB deletion. */
  lemma FixedNamesNotOob()
    ensures !Text.Contains(GainRangeName, "OOB") && !Text.Contains(VswrMaxName, "OOB")
  {
    assert "OOB"[0] == 'O' && 'O' !in GainRangeName && 'O' !in VswrMaxName;
    Text.MissingCharNotContained(GainRangeName, "OOB", 0);
    Text.MissingCharNotContained(VswrMaxName, "OOB", 0);
  }

  /** Different rows are saved under different names. */
  lemma OobNamesDistinct(j: nat, k: nat)
    requires OobName(j) == OobName(k)
    ensures j == k
  {
    assert Text.NatToString(j + 1) == OobName(j)[4..];
    assert Text.NatToString(k + 1) == OobName(k)[4..];
    Text.NatToStringInjective(j + 1, k + 1);
  }

  // ---------------------------------------------------------------- the stage's OOB criteria after a save

  lemma StageCriteriaSnoc(cs: seq<TestCriteria>, sc: Scope, stage: string, x: TestCriteria)
    ensures StageCriteria(cs + [x], sc, stage) == StageCriteria(cs, sc, stage) + if InStage(x, sc, stage) then [x] else []
  {
    assert (cs + [x])[..|cs|] == cs;
  }

  lemma OobInSnoc(cs: seq<TestCriteria>, x: TestCriteria)
    ensures OobIn(cs + [x]) == OobIn(cs) + if IsOob(x) then [x] else []
  {
    assert (cs + [x])[..|cs|] == cs;
  }

  /** Adding an in-stage criterion appends it to the stage's OOB list when its name says OOB. */
  lemma OobOfAdded(cs: seq<TestCriteria>, sc: Scope, stage: string, c: TestCriteria)
    requires InStage(c, sc, stage)
    ensures OobOf(Added(cs, c), sc, stage) == OobOf(cs, sc, stage) + if IsOob(c) then [c.(id := FreshId(cs))] else []
  {
    var x := c.(id := FreshId(cs));
    StageCriteriaSnoc(cs, sc, stage, x);
    OobInSnoc(StageCriteria(cs, sc, stage), x);
  }

  /** After the deletion step the stage has no OOB criterion left. */
  lemma OobOfWithoutOob(cs: seq<TestCriteria>, sc: Scope, stage: string)
    ensures OobOf(WithoutOob(cs, sc, stage), sc, stage) == []
  {
    var r := OobOf(WithoutOob(cs, sc, stage), sc, stage);
    if r != [] {
      var c := r[0];
      assert c in r;
      WithoutIdsIn(cs, Ids(OobOf(cs, sc, stage)), c);
      assert false;
    }
  }

  lemma UnkeyedAppend(a: seq<TestCriteria>, b: seq<TestCriteria>)
    ensures Unkeyed(a + b) == Unkeyed(a) + Unkeyed(b)
  {
  }

  /** The re-adding step appends the accepted rows, in order, to the stage's OOB list. */
  lemma {:induction false} OobOfWithOobRows(cs: seq<TestCriteria>, sc: Scope, stage: string, rows: seq<OobRow>)
    ensures Unkeyed(OobOf(WithOobRows(cs, sc, stage, rows), sc, stage))
         == Unkeyed(OobOf(cs, sc, stage)) + AcceptedOobs(sc, stage, rows)
  {
    if rows != [] {
      var k := |rows| - 1;
      var pre := WithOobRows(cs, sc, stage, rows[..k]);
      OobOfWithOobRows(cs, sc, stage, rows[..k]);
      if Accepted(rows[k]) {
        var c := OobCriterion(sc, stage, k, rows[k]);
        OobOfAdded(pre, sc, stage, c);
        UnkeyedAppend(OobOf(pre, sc, stage), [c.(id := FreshId(pre))]);
        assert Unkeyed([c.(id := FreshId(pre))]) == [c];
      } else {
        assert AcceptedOobs(sc, stage, rows) == AcceptedOobs(sc, stage, rows[..k]) + [];
      }
    }
  }

  /** After a stage is saved, its OOB criteria are exactly its accepted table rows, in row order. */
  lemma SaveStageOob(cs: seq<TestCriteria>, sc: Scope, stage: string, f: StageForm)
    ensures Unkeyed(OobOf(SaveStage(cs, sc, stage, f), sc, stage)) == AcceptedOobs(sc, stage, f.oobRows)
  {
    var w := WithoutOob(WithVswrMax(WithGainRange(cs, sc, stage, f), sc, stage, f), sc, stage);
    OobOfWithOobRows(w, sc, stage, f.oobRows);
    OobOfWithoutOob(WithVswrMax(WithGainRange(cs, sc, stage, f), sc, stage, f), sc, stage);
    assert Unkeyed([]) == [];
  }

  // ---------------------------------------------------------------- ids stay unique

  /** Two stored criteria with the same id are the same row. */
  lemma SameIdSameRow(cs: seq<TestCriteria>, x: TestCriteria, y: TestCriteria)
    requires UniqueIds(cs) && x in cs && y in cs && x.id == y.id
    ensures x == y
  {
    var i :| 0 <= i < |cs| && cs[i] == x;
    var j :| 0 <= j < |cs| && cs[j] == y;
    assert i == j;
  }

  lemma WithGainRangeUnique(cs: seq<TestCriteria>, sc: Scope, stage: string, f: StageForm)
    requires UniqueIds(cs)
    ensures UniqueIds(WithGainRange(cs, sc, stage, f))
  {
    if f.gainMin < f.gainMax {
      var existing := StageCriteria(cs, sc, stage);
      match FirstNamed(existing, GainRangeName)
      case Some(k) => UpdatedUnique(cs, existing[k].(minValue := Some(f.gainMin), maxValue := Some(f.gainMax)));
      case None => AddedUnique(cs, GainRangeCriterion(sc, stage, f.gainMin, f.gainMax));
    }
  }

  lemma WithVswrMaxUnique(cs: seq<TestCriteria>, sc: Scope, stage: string, f: StageForm)
    requires UniqueIds(cs)
    ensures UniqueIds(WithVswrMax(cs, sc, stage, f))
  {
    var existing := StageCriteria(cs, sc, stage);
    match FirstNamed(existing, VswrMaxName)
    case Some(k) => UpdatedUnique(cs, existing[k].(maxValue := Some(f.vswrMax)));
    case None => AddedUnique(cs, VswrCriterion(sc, stage, f.vswrMax));
  }

  lemma {:induction false} WithOobRowsUnique(cs: seq<TestCriteria>, sc: Scope, stage: string, rows: seq<OobRow>)
    requires UniqueIds(cs)
    ensures UniqueIds(WithOobRows(cs, sc, stage, rows))
  {
    if rows != [] {
      var k := |rows| - 1;
      WithOobRowsUnique(cs, sc, stage, rows[..k]);
      AddedUnique(WithOobRows(cs, sc, stage, rows[..k]), OobCriterion(sc, stage, k, rows[k]));
    }
  }

  /** A save keeps the store's ids unique. */
  lemma SaveStageUnique(cs: seq<TestCriteria>, sc: Scope, stage: string, f: StageForm)
    requires UniqueIds(cs)
    ensures UniqueIds(SaveStage(cs, sc, stage, f))
  {
    WithGainRangeUnique(cs, sc, stage, f);
    var v := WithVswrMax(WithGainRange(cs, sc, stage, f), sc, stage, f);
    WithVswrMaxUnique(WithGainRange(cs, sc, stage, f), sc, stage, f);
    WithoutIdsUnique(v, Ids(OobOf(v, sc, stage)));
    WithOobRowsUnique(WithoutOob(v, sc, stage), sc, stage, f.oobRows);
  }

  // ---------------------------------------------------------------- other stages are left alone

  lemma AddedElsewhere(cs: seq<TestCriteria>, c: TestCriteria, o: Scope, other: string)
    requires !InStage(c, o, other)
    ensures StageCriteria(Added(cs, c), o, other) == StageCriteria(cs, o, other)
  {
    StageCriteriaSnoc(cs, o, other, c.(id := FreshId(cs)));
    assert StageCriteria(cs, o, other) + [] == StageCriteria(cs, o, other);
  }

  /** An update whose target row is not in a stage leaves that stage's criteria as they were. */
  lemma {:induction false} UpdatedElsewhere(cs: seq<TestCriteria>, c: TestCriteria, o: Scope, other: string)
    requires forall x :: x in cs && x.id == c.id ==> !InStage(x, o, other)
    ensures StageCriteria(Updated(cs, c), o, other) == StageCriteria(cs, o, other)
  {
    if cs != [] {
      var init, last := cs[..|cs| - 1], cs[|cs| - 1];
      assert forall x :: x in init ==> x in cs;
      UpdatedElsewhere(init, c, o, other);
      assert cs == init + [last];
      assert last in cs;
      UpdatedElsewhereStep(init, last, c, o, other);
    }
  }

  lemma UpdatedElsewhereStep(init: seq<TestCriteria>, last: TestCriteria, c: TestCriteria, o: Scope, other: string)
    requires StageCriteria(Updated(init, c), o, other) == StageCriteria(init, o, other)
    requires last.id == c.id ==> !InStage(last, o, other)
    ensures StageCriteria(Updated(init + [last], c), o, other) == StageCriteria(init + [last], o, other)
  {
    var cs := init + [last];
    var u := Updated(cs, c);
    assert u == Updated(init, c) + [u[|cs| - 1]];
    StageCriteriaSnoc(Updated(init, c), o, other, u[|cs| - 1]);
    StageCriteriaSnoc(init, o, other, last);
  }

  /** A deletion of ids no row of a stage has leaves that stage's criteria as they were. */
  lemma {:induction false} WithoutIdsElsewhere(cs: seq<TestCriteria>, ids: set<Id>, o: Scope, other: string)
    requires forall x :: x in cs && InStage(x, o, other) ==> x.id !in ids
    ensures StageCriteria(WithoutIds(cs, ids), o, other) == StageCriteria(cs, o, other)
  {
    if cs != [] {
      var init, last := cs[..|cs| - 1], cs[|cs| - 1];
      assert forall x :: x in init ==> x in cs;
      WithoutIdsElsewhere(init, ids, o, other);
      assert cs == init + [last];
      assert last in cs;
      WithoutIdsElsewhereStep(init, last, ids, o, other);
    }
  }

  lemma WithoutIdsElsewhereStep(init: seq<TestCriteria>, last: TestCriteria, ids: set<Id>, o: Scope, other: string)
    requires StageCriteria(WithoutIds(init, ids), o, other) == StageCriteria(init, o, other)
    requires InStage(last, o, other) ==> last.id !in ids
    ensures StageCriteria(WithoutIds(init + [last], ids), o, other) == StageCriteria(init + [last], o, other)
  {
    var cs := init + [last];
    assert cs[..|cs| - 1] == init;
    StageCriteriaSnoc(init, o, other, last);
    var pre := WithoutIds(init, ids);
    if last.id in ids {
      assert pre + [] == pre && WithoutIds(cs, ids) == pre;
      assert StageCriteria(init, o, other) + [] == StageCriteria(init, o, other);
    } else {
      assert WithoutIds(cs, ids) == pre + [last];
      StageCriteriaSnoc(pre, o, other, last);
    }
  }

  lemma UpdateOfStageRowElsewhere(cs: seq<TestCriteria>, sc: Scope, stage: string, e: TestCriteria, c: TestCriteria,
                                  o: Scope, other: string)
    requires UniqueIds(cs) && e in StageCriteria(cs, sc, stage) && c.id == e.id && (o, other) != (sc, stage)
    ensures StageCriteria(Updated(cs, c), o, other) == StageCriteria(cs, o, other)
  {
    forall x | x in cs && x.id == c.id ensures !InStage(x, o, other) {
      SameIdSameRow(cs, x, e);
    }
    UpdatedElsewhere(cs, c, o, other);
  }

  lemma WithGainRangeElsewhere(cs: seq<TestCriteria>, sc: Scope, stage: string, f: StageForm, o: Scope, other: string)
    requires UniqueIds(cs) && (o, other) != (sc, stage)
    ensures StageCriteria(WithGainRange(cs, sc, stage, f), o, other) == StageCriteria(cs, o, other)
  {
    if f.gainMin < f.gainMax {
      var existing := StageCriteria(cs, sc, stage);
      match FirstNamed(existing, GainRangeName)
      case Some(k) =>
        UpdateOfStageRowElsewhere(cs, sc, stage, existing[k],
          existing[k].(minValue := Some(f.gainMin), maxValue := Some(f.gainMax)), o, other);
      case None => AddedElsewhere(cs, GainRangeCriterion(sc, stage, f.gainMin, f.gainMax), o, other);
    }
  }

  lemma WithVswrMaxElsewhere(cs: seq<TestCriteria>, sc: Scope, stage: string, f: StageForm, o: Scope, other: string)
    requires UniqueIds(cs) && (o, other) != (sc, stage)
    ensures StageCriteria(WithVswrMax(cs, sc, stage, f), o, other) == StageCriteria(cs, o, other)
  {
    var existing := StageCriteria(cs, sc, stage);
    match FirstNamed(existing, VswrMaxName)
    case Some(k) => UpdateOfStageRowElsewhere(cs, sc, stage, existing[k], existing[k].(maxValue := Some(f.vswrMax)), o, other);
    case None => AddedElsewhere(cs, VswrCriterion(sc, stage, f.vswrMax), o, other);
  }

  lemma WithoutOobElsewhere(cs: seq<TestCriteria>, sc: Scope, stage: string, o: Scope, other: string)
    requires UniqueIds(cs) && (o, other) != (sc, stage)
    ensures StageCriteria(WithoutOob(cs, sc, stage), o, other) == StageCriteria(cs, o, other)
  {
    var oob := OobOf(cs, sc, stage);
    forall x | x in cs && InStage(x, o, other) ensures x.id !in Ids(oob) {
      if x.id in Ids(oob) {
        var y :| y in oob && y.id == x.id;
        SameIdSameRow(cs, x, y);
      }
    }
    WithoutIdsElsewhere(cs, Ids(oob), o, other);
  }

  lemma {:induction false} WithOobRowsElsewhere(cs: seq<TestCriteria>, sc: Scope, stage: string, rows: seq<OobRow>,
                                                o: Scope, other: string)
    requires (o, other) != (sc, stage)
    ensures StageCriteria(WithOobRows(cs, sc, stage, rows), o, other) == StageCriteria(cs, o, other)
  {
    if rows != [] {
      var k := |rows| - 1;
      WithOobRowsElsewhere(cs, sc, stage, rows[..k], o, other);
      AddedElsewhere(WithOobRows(cs, sc, stage, rows[..k]), OobCriterion(sc, stage, k, rows[k]), o, other);
    }
  }

  /** Saving one stage leaves the criteria of every other stage, test type and device as they were. */
  lemma SaveStageElsewhere(cs: seq<TestCriteria>, sc: Scope, stage: string, f: StageForm, o: Scope, other: string)
    requires UniqueIds(cs) && (o, other) != (sc, stage)
    ensures StageCriteria(SaveStage(cs, sc, stage, f), o, other) == StageCriteria(cs, o, other)
  {
    var g := WithGainRange(cs, sc, stage, f);
    WithGainRangeElsewhere(cs, sc, stage, f, o, other);
    WithGainRangeUnique(cs, sc, stage, f);
    var v := WithVswrMax(g, sc, stage, f);
    WithVswrMaxElsewhere(g, sc, stage, f, o, other);
    WithVswrMaxUnique(g, sc, stage, f);
    WithoutOobElsewhere(v, sc, stage, o, other);
    WithOobRowsElsewhere(WithoutOob(v, sc, stage), sc, stage, f.oobRows, o, other);
  }

  // ---------------------------------------------------------------- Gain Range and VSWR Max after a save

  /** The stage holds a Gain Range criterion with these bounds. */
  predicate HasGainRange(cs: seq<TestCriteria>, sc: Scope, stage: string, gainMin: real, gainMax: real)
  {
    exists c :: c in StageCriteria(cs, sc, stage) && c.requirementName == GainRangeName
                && c.minValue == Some(gainMin) && c.maxValue == Some(gainMax)
  }

  /** The stage holds a VSWR Max criterion with this limit. */
  predicate HasVswrMax(cs: seq<TestCriteria>, sc: Scope, stage: string, vswrMax: real)
  {
    exists c :: c in StageCriteria(cs, sc, stage) && c.requirementName == VswrMaxName && c.maxValue == Some(vswrMax)
  }

  /** Updating the row `e` in place leaves the updated row in the store, under `e`'s id and stage. */
  lemma UpdatedHolds(cs: seq<TestCriteria>, e: TestCriteria, c: TestCriteria)
    requires e in cs && c.id == e.id
    ensures Rewritten(e, c) in Updated(cs, c)
  {
    var i :| 0 <= i < |cs| && cs[i] == e;
    assert Updated(cs, c)[i] == Rewritten(e, c);
  }

  /** A row the update does not target stays as it was. */
  lemma UpdatedKeeps(cs: seq<TestCriteria>, c: TestCriteria, x: TestCriteria)
    requires x in cs && x.id != c.id
    ensures x in Updated(cs, c)
  {
    var i :| 0 <= i < |cs| && cs[i] == x;
    assert Updated(cs, c)[i] == x;
  }

  /** With min < max the stage then holds a Gain Range with those bounds; an existing one is updated, not duplicated. */
  lemma GainRangeWritten(cs: seq<TestCriteria>, sc: Scope, stage: string, f: StageForm)
    requires f.gainMin < f.gainMax
    ensures HasGainRange(WithGainRange(cs, sc, stage, f), sc, stage, f.gainMin, f.gainMax)
    ensures FirstNamed(StageCriteria(cs, sc, stage), GainRangeName).Some? ==> |WithGainRange(cs, sc, stage, f)| == |cs|
  {
    var existing := StageCriteria(cs, sc, stage);
    match FirstNamed(existing, GainRangeName)
    case Some(k) =>
      var e := existing[k];
      var c := e.(minValue := Some(f.gainMin), maxValue := Some(f.gainMax));
      assert e in existing;
      UpdatedHolds(cs, e, c);
      assert Rewritten(e, c) == c;
      assert c in StageCriteria(Updated(cs, c), sc, stage);
    case None =>
      var c := GainRangeCriterion(sc, stage, f.gainMin, f.gainMax).(id := FreshId(cs));
      assert c in Added(cs, GainRangeCriterion(sc, stage, f.gainMin, f.gainMax));
  }

  /** The stage then holds a VSWR Max with the form's limit; an existing one is updated, not duplicated. */
  lemma VswrMaxWritten(cs: seq<TestCriteria>, sc: Scope, stage: string, f: StageForm)
    ensures HasVswrMax(WithVswrMax(cs, sc, stage, f), sc, stage, f.vswrMax)
    ensures FirstNamed(StageCriteria(cs, sc, stage), VswrMaxName).Some? ==> |WithVswrMax(cs, sc, stage, f)| == |cs|
  {
    var existing := StageCriteria(cs, sc, stage);
    match FirstNamed(existing, VswrMaxName)
    case Some(k) =>
      var e := existing[k];
      var c := e.(maxValue := Some(f.vswrMax));
      assert e in existing;
      UpdatedHolds(cs, e, c);
      assert Rewritten(e, c) == c;
      assert c in StageCriteria(Updated(cs, c), sc, stage);
    case None =>
      var c := VswrCriterion(sc, stage, f.vswrMax).(id := FreshId(cs));
      assert c in Added(cs, VswrCriterion(sc, stage, f.vswrMax));
  }

  lemma {:induction false} WithOobRowsKeeps(cs: seq<TestCriteria>, sc: Scope, stage: string, rows: seq<OobRow>, x: TestCriteria)
    requires x in cs
    ensures x in WithOobRows(cs, sc, stage, rows)
  {
    if rows != [] {
      var k := |rows| - 1;
      WithOobRowsKeeps(cs, sc, stage, rows[..k], x);
    }
  }

  /** A row whose name does not say OOB survives the OOB steps of a save. */
  lemma OobStepsKeep(cs: seq<TestCriteria>, sc: Scope, stage: string, rows: seq<OobRow>, x: TestCriteria)
    requires UniqueIds(cs) && x in cs && !IsOob(x)
    ensures x in WithOobRows(WithoutOob(cs, sc, stage), sc, stage, rows)
  {
    var oob := OobOf(cs, sc, stage);
    if x.id in Ids(oob) {
      var y :| y in oob && y.id == x.id;
      SameIdSameRow(cs, x, y);
    }
    WithoutIdsIn(cs, Ids(oob), x);
    WithOobRowsKeeps(WithoutOob(cs, sc, stage), sc, stage, rows, x);
  }

  /** After a stage is saved it holds a VSWR Max with the form's limit. */
  lemma SaveStageVswr(cs: seq<TestCriteria>, sc: Scope, stage: string, f: StageForm)
    requires UniqueIds(cs)
    ensures HasVswrMax(SaveStage(cs, sc, stage, f), sc, stage, f.vswrMax)
  {
    var g := WithGainRange(cs, sc, stage, f);
    var v := WithVswrMax(g, sc, stage, f);
    WithGainRangeUnique(cs, sc, stage, f);
    WithVswrMaxUnique(g, sc, stage, f);
    VswrMaxWritten(g, sc, stage, f);
    var c :| c in StageCriteria(v, sc, stage) && c.requirementName == VswrMaxName && c.maxValue == Some(f.vswrMax);
    FixedNamesNotOob();
    OobStepsKeep(v, sc, stage, f.oobRows, c);
    assert c in StageCriteria(SaveStage(cs, sc, stage, f), sc, stage);
  }

  /** The VSWR step leaves every row not named VSWR Max in the store. */
  lemma VswrStepKeeps(cs: seq<TestCriteria>, sc: Scope, stage: string, f: StageForm, x: TestCriteria)
    requires UniqueIds(cs) && x in cs && x.requirementName != VswrMaxName
    ensures x in WithVswrMax(cs, sc, stage, f)
  {
    var existing := StageCriteria(cs, sc, stage);
    match FirstNamed(existing, VswrMaxName)
    case Some(k) =>
      var e := existing[k];
      assert e in existing;
      if x.id == e.id {
        SameIdSameRow(cs, x, e);
      }
      UpdatedKeeps(cs, e.(maxValue := Some(f.vswrMax)), x);
    case None =>
      assert x in Added(cs, VswrCriterion(sc, stage, f.vswrMax));
  }

  /** After a stage is saved with min < max it holds a Gain Range with those bounds. */
  lemma SaveStageGain(cs: seq<TestCriteria>, sc: Scope, stage: string, f: StageForm)
    requires UniqueIds(cs) && f.gainMin < f.gainMax
    ensures HasGainRange(SaveStage(cs, sc, stage, f), sc, stage, f.gainMin, f.gainMax)
  {
    var g := WithGainRange(cs, sc, stage, f);
    var v := WithVswrMax(g, sc, stage, f);
    WithGainRangeUnique(cs, sc, stage, f);
    WithVswrMaxUnique(g, sc, stage, f);
    GainRangeWritten(cs, sc, stage, f);
    var c :| c in StageCriteria(g, sc, stage) && c.requirementName == GainRangeName
             && c.minValue == Some(f.gainMin) && c.maxValue == Some(f.gainMax);
    VswrStepKeeps(g, sc, stage, f, c);
    FixedNamesNotOob();
    OobStepsKeep(v, sc, stage, f.oobRows, c);
    assert c in StageCriteria(SaveStage(cs, sc, stage, f), sc, stage);
  }

  // ---------------------------------------------------------------- the whole save

  predicate Distinct(stages: seq<string>)
  {
    forall i, j :: 0 <= i < j < |stages| ==> stages[i] != stages[j]
  }

  lemma {:induction false} SaveStagesUnique(cs: seq<TestCriteria>, sc: Scope, forms: map<string, StageForm>, stages: seq<string>)
    requires UniqueIds(cs) && forall s :: s in stages ==> s in forms
    ensures UniqueIds(SaveStages(cs, sc, forms, stages))
  {
    if stages != [] {
      var n := |stages| - 1;
      assert forall s :: s in stages[..n] ==> s in stages;
      SaveStagesUnique(cs, sc, forms, stages[..n]);
      assert stages[n] in stages;
      SaveStageUnique(SaveStages(cs, sc, forms, stages[..n]), sc, stages[n], forms[stages[n]]);
    }
  }

  /** A save touches only the editor's own device and test type, and only the stages it saves. */
  lemma {:induction false} SaveStagesElsewhere(cs: seq<TestCriteria>, sc: Scope, forms: map<string, StageForm>,
                                               stages: seq<string>, o: Scope, other: string)
    requires UniqueIds(cs) && forall s :: s in stages ==> s in forms
    requires forall s :: s in stages ==> (o, other) != (sc, s)
    ensures StageCriteria(SaveStages(cs, sc, forms, stages), o, other) == StageCriteria(cs, o, other)
  {
    if stages != [] {
      var n := |stages| - 1;
      assert forall s :: s in stages[..n] ==> s in stages;
      SaveStagesElsewhere(cs, sc, forms, stages[..n], o, other);
      SaveStagesUnique(cs, sc, forms, stages[..n]);
      assert stages[n] in stages;
      SaveStageElsewhere(SaveStages(cs, sc, forms, stages[..n]), sc, stages[n], forms[stages[n]], o, other);
    }
  }

  /** Saving the last stage of the list leaves every other stage's criteria as the earlier stages left them. */
  lemma SaveStagesLastElsewhere(cs: seq<TestCriteria>, sc: Scope, forms: map<string, StageForm>,
                                stages: seq<string>, other: string)
    requires UniqueIds(cs) && stages != [] && forall s :: s in stages ==> s in forms
    requires other != stages[|stages| - 1]
    ensures StageCriteria(SaveStages(cs, sc, forms, stages), sc, other)
         == StageCriteria(SaveStages(cs, sc, forms, stages[..|stages| - 1]), sc, other)
  {
    var n := |stages| - 1;
    assert forall s :: s in stages[..n] ==> s in stages;
    assert stages[n] in stages;
    SaveStagesUnique(cs, sc, forms, stages[..n]);
    SaveStageElsewhere(SaveStages(cs, sc, forms, stages[..n]), sc, stages[n], forms[stages[n]], sc, other);
  }

  lemma SaveStagesLastOob(cs: seq<TestCriteria>, sc: Scope, forms: map<string, StageForm>, stages: seq<string>)
    requires stages != [] && forall s :: s in stages ==> s in forms
    ensures stages[|stages| - 1] in forms
    ensures Unkeyed(OobOf(SaveStages(cs, sc, forms, stages), sc, stages[|stages| - 1]))
         == AcceptedOobs(sc, stages[|stages| - 1], forms[stages[|stages| - 1]].oobRows)
  {
    var n := |stages| - 1;
    assert forall s :: s in stages[..n] ==> s in stages;
    assert stages[n] in stages;
    SaveStageOob(SaveStages(cs, sc, forms, stages[..n]), sc, stages[n], forms[stages[n]]);
  }

  /** The stage `stages[i]` ends with its own accepted rows as OOB criteria: later stages do not disturb it. */
  lemma {:induction false} SaveStagesOob(cs: seq<TestCriteria>, sc: Scope, forms: map<string, StageForm>,
                                         stages: seq<string>, i: nat)
    requires UniqueIds(cs) && Distinct(stages) && i < |stages| && forall s :: s in stages ==> s in forms
    ensures stages[i] in forms
    ensures Unkeyed(OobOf(SaveStages(cs, sc, forms, stages), sc, stages[i])) == AcceptedOobs(sc, stages[i], forms[stages[i]].oobRows)
  {
    var n := |stages| - 1;
    assert stages[i] in stages;
    if i == n {
      SaveStagesLastOob(cs, sc, forms, stages);
    } else {
      SaveStagesOob(cs, sc, forms, stages[..n], i);
      SaveStagesLastElsewhere(cs, sc, forms, stages, stages[i]);
    }
  }

  lemma SaveStagesLastLimits(cs: seq<TestCriteria>, sc: Scope, forms: map<string, StageForm>, stages: seq<string>)
    requires UniqueIds(cs) && stages != [] && forall s :: s in stages ==> s in forms
    ensures stages[|stages| - 1] in forms
    ensures var f := forms[stages[|stages| - 1]];
            HasVswrMax(SaveStages(cs, sc, forms, stages), sc, stages[|stages| - 1], f.vswrMax)
            && (f.gainMin < f.gainMax ==>
                  HasGainRange(SaveStages(cs, sc, forms, stages), sc, stages[|stages| - 1], f.gainMin, f.gainMax))
  {
    var n := |stages| - 1;
    assert forall s :: s in stages[..n] ==> s in stages;
    assert stages[n] in stages;
    var pre := SaveStages(cs, sc, forms, stages[..n]);
    SaveStagesUnique(cs, sc, forms, stages[..n]);
    var f := forms[stages[n]];
    SaveStageVswr(pre, sc, stages[n], f);
    if f.gainMin < f.gainMax {
      SaveStageGain(pre, sc, stages[n], f);
    }
  }

  /** The stage `stages[i]` ends with the VSWR Max of its form, and its Gain Range when min < max. */
  lemma {:induction false} SaveStagesLimits(cs: seq<TestCriteria>, sc: Scope, forms: map<string, StageForm>,
                                            stages: seq<string>, i: nat)
    requires UniqueIds(cs) && Distinct(stages) && i < |stages| && forall s :: s in stages ==> s in forms
    ensures stages[i] in forms
    ensures HasVswrMax(SaveStages(cs, sc, forms, stages), sc, stages[i], forms[stages[i]].vswrMax)
    ensures forms[stages[i]].gainMin < forms[stages[i]].gainMax ==>
              HasGainRange(SaveStages(cs, sc, forms, stages), sc, stages[i], forms[stages[i]].gainMin, forms[stages[i]].gainMax)
  {
    var n := |stages| - 1;
    assert stages[i] in stages;
    if i == n {
      SaveStagesLastLimits(cs, sc, forms, stages);
    } else {
      SaveStagesLimits(cs, sc, forms, stages[..n], i);
      SaveStagesLastElsewhere(cs, sc, forms, stages, stages[i]);
    }
  }

  /** What a save over the three test stages promises about the store. */
  lemma SaveAllStages(cs: seq<TestCriteria>, sc: Scope, forms: map<string, StageForm>)
    requires UniqueIds(cs) && forall s :: s in TestStages.Stages ==> s in forms
    ensures UniqueIds(SaveStages(cs, sc, forms, TestStages.Stages))
    ensures forall s :: s in TestStages.Stages ==>
              Unkeyed(OobOf(SaveStages(cs, sc, forms, TestStages.Stages), sc, s)) == AcceptedOobs(sc, s, forms[s].oobRows)
    ensures forall s :: s in TestStages.Stages ==>
              HasVswrMax(SaveStages(cs, sc, forms, TestStages.Stages), sc, s, forms[s].vswrMax)
    ensures forall s :: s in TestStages.Stages && forms[s].gainMin < forms[s].gainMax ==>
              HasGainRange(SaveStages(cs, sc, forms, TestStages.Stages), sc, s, forms[s].gainMin, forms[s].gainMax)
  {
    var stages := TestStages.Stages;
    TestStages.StagesDistinct();
    SaveStagesUnique(cs, sc, forms, stages);
    forall s | s in stages
      ensures Unkeyed(OobOf(SaveStages(cs, sc, forms, stages), sc, s)) == AcceptedOobs(sc, s, forms[s].oobRows)
      ensures HasVswrMax(SaveStages(cs, sc, forms, stages), sc, s, forms[s].vswrMax)
      ensures forms[s].gainMin < forms[s].gainMax ==>
                HasGainRange(SaveStages(cs, sc, forms, stages), sc, s, forms[s].gainMin, forms[s].gainMax)
    {
      var i :| 0 <= i < |stages| && stages[i] == s;
      SaveStagesOob(cs, sc, forms, stages, i);
      SaveStagesLimits(cs, sc, forms, stages, i);
    }
  }

  /** A save leaves the criteria of every other device, test type and stage as they were. */
  lemma SaveAllElsewhere(cs: seq<TestCriteria>, sc: Scope, forms: map<string, StageForm>, o: Scope, other: string)
    requires UniqueIds(cs) && forall s :: s in TestStages.Stages ==> s in forms
    requires o != sc || other !in TestStages.Stages
    ensures StageCriteria(SaveStages(cs, sc, forms, TestStages.Stages), o, other) == StageCriteria(cs, o, other)
  {
    SaveStagesElsewhere(cs, sc, forms, TestStages.Stages, o, other);
  }

  // ---------------------------------------------------------------- the editor

  lemma {:induction false} CriteriaForUnique(cs: seq<TestCriteria>, sc: Scope, stage: string)
    requires UniqueIds(cs)
    ensures UniqueIds(StageCriteria(cs, sc, stage))
  {
    if cs != [] {
      var init, last := cs[..|cs| - 1], cs[|cs| - 1];
      assert cs == init + [last];
      CriteriaForUnique(init, sc, stage);
      StageCriteriaSnoc(init, sc, stage, last);
      if InStage(last, sc, stage) {
        forall y | y in StageCriteria(init, sc, stage) ensures y.id != last.id {
          var i :| 0 <= i < |init| && init[i] == y;
          assert cs[i] == y;
        }
        SnocUnique(StageCriteria(init, sc, stage), last);
      }
    }
  }

  lemma {:induction false} OobInUnique(cs: seq<TestCriteria>)
    requires UniqueIds(cs)
    ensures UniqueIds(OobIn(cs))
  {
    if cs != [] {
      var init, last := cs[..|cs| - 1], cs[|cs| - 1];
      assert cs == init + [last];
      OobInUnique(init);
      OobInSnoc(init, last);
      if IsOob(last) {
        forall y | y in OobIn(init) ensures y.id != last.id {
          var i :| 0 <= i < |init| && init[i] == y;
          assert cs[i] == y;
        }
        SnocUnique(OobIn(init), last);
      }
    }
  }

  /** The i-th OOB criterion is still stored when the deletion loop reaches it. */
  lemma StillStored(cs: seq<TestCriteria>, sc: Scope, stage: string, i: nat)
    requires UniqueIds(cs) && i < |OobOf(cs, sc, stage)|
    ensures OobOf(cs, sc, stage)[i].id in Ids(WithoutIds(cs, Ids(OobOf(cs, sc, stage)[..i])))
  {
    var oob := OobOf(cs, sc, stage);
    CriteriaForUnique(cs, sc, stage);
    OobInUnique(StageCriteria(cs, sc, stage));
    assert oob[i] in oob;
    forall y | y in oob[..i] ensures y.id != oob[i].id {
      var j :| 0 <= j < i && oob[..i][j] == y;
      assert oob[j] == y;
    }
    WithoutIdsIn(cs, Ids(oob[..i]), oob[i]);
  }

  /** One more deletion extends the deleted prefix of the OOB list by one row. */
  lemma DeletedPrefix(cs: seq<TestCriteria>, existing: seq<TestCriteria>, i: nat)
    requires i < |existing|
    ensures WithoutIds(WithoutIds(cs, Ids(existing[..i])), {existing[i].id}) == WithoutIds(cs, Ids(existing[..i + 1]))
  {
    WithoutIdsStep(cs, Ids(existing[..i]), existing[i].id);
    assert existing[..i + 1] == existing[..i] + [existing[i]];
    assert Ids(existing[..i + 1]) == Ids(existing[..i]) + {existing[i].id};
  }

  /** One more loop iteration saves one more stage. */
  lemma SaveStagesPrefix(cs: seq<TestCriteria>, sc: Scope, forms: map<string, StageForm>, stages: seq<string>, i: nat)
    requires i < |stages| && forall s :: s in stages ==> s in forms
    ensures stages[i] in forms
    ensures forall s :: s in stages[..i + 1] ==> s in forms
    ensures SaveStages(cs, sc, forms, stages[..i + 1]) == SaveStage(SaveStages(cs, sc, forms, stages[..i]), sc, stages[i], forms[stages[i]])
  {
    assert stages[i] in stages;
    assert forall s :: s in stages[..i + 1] ==> s in stages;
    assert stages[..i + 1][..i] == stages[..i];
  }

  /** The editor's Save: the stage loop of `_save_all_criteria` over the values of its tabs. */
  class TestCriteriaEditor {
    const scope: Scope
    const forms: map<string, StageForm>
    const store: CriteriaStore

    constructor (scope: Scope, forms: map<string, StageForm>, store: CriteriaStore)
      ensures this.scope == scope && this.forms == forms && this.store == store
    {
      this.scope := scope;
      this.forms := forms;
      this.store := store;
    }

    /** Saves every stage; a stage whose tab is missing is not possible, as the tabs are built from the same list. */
    method SaveAllCriteria()
      requires store.Valid() && forall s :: s in TestStages.Stages ==> s in forms
      modifies store
      ensures store.Valid() && store.criteria == SaveStages(old(store.criteria), scope, forms, TestStages.Stages)
    {
      var stages := TestStages.Stages;
      for i := 0 to |stages|
        invariant store.Valid()
        invariant forall s :: s in stages[..i] ==> s in forms
        invariant store.criteria == SaveStages(old(store.criteria), scope, forms, stages[..i])
      {
        SaveStagesPrefix(old(store.criteria), scope, forms, stages, i);
        SaveStageCriteria(stages[i], forms[stages[i]]);
      }
      assert stages[..|stages|] == stages;
    }

    method SaveStageCriteria(stage: string, f: StageForm)
      requires store.Valid()
      modifies store
      ensures store.Valid() && store.criteria == SaveStage(old(store.criteria), scope, stage, f)
    {
      SaveGainRange(stage, f);
      SaveVswrMax(stage, f);
      DeleteOob(stage);
      AddOobRows(stage, f.oobRows);
    }

    method SaveGainRange(stage: string, f: StageForm)
      requires store.Valid()
      modifies store
      ensures store.Valid() && store.criteria == WithGainRange(old(store.criteria), scope, stage, f)
    {
      if f.gainMin < f.gainMax {
        var criteria := StageCriteria(store.criteria, scope, stage);
        var first := FirstNamed(criteria, GainRangeName);
        if first.Some? {
          var c := criteria[first.value].(minValue := Some(f.gainMin), maxValue := Some(f.gainMax));
          assert criteria[first.value] in criteria;
          var r := store.Update(c);
          assert r.Ok?;
        } else {
          GainRangeCriterionValid(scope, stage, f.gainMin, f.gainMax);
          var c := NewTestCriteria(GainRangeCriterion(scope, stage, f.gainMin, f.gainMax));
          var created := store.Add(c.value);
        }
      }
    }

    method SaveVswrMax(stage: string, f: StageForm)
      requires store.Valid()
      modifies store
      ensures store.Valid() && store.criteria == WithVswrMax(old(store.criteria), scope, stage, f)
    {
      var criteria := StageCriteria(store.criteria, scope, stage);
      var first := FirstNamed(criteria, VswrMaxName);
      if first.Some? {
        var c := criteria[first.value].(maxValue := Some(f.vswrMax));
        assert criteria[first.value] in criteria;
        var r := store.Update(c);
        assert r.Ok?;
      } else {
        VswrCriterionValid(scope, stage, f.vswrMax);
        var c := NewTestCriteria(VswrCriterion(scope, stage, f.vswrMax));
        var created := store.Add(c.value);
      }
    }

    /** Deletes the stage's OOB criteria one at a time; every deletion finds its row. */
    method DeleteOob(stage: string)
      requires store.Valid()
      modifies store
      ensures store.Valid() && store.criteria == WithoutOob(old(store.criteria), scope, stage)
    {
      var existing := OobOf(store.criteria, scope, stage);
      ghost var start := store.criteria;
      WithoutNoIds(start);
      assert Ids(existing[..0]) == {};
      for i := 0 to |existing|
        invariant store.Valid()
        invariant store.criteria == WithoutIds(start, Ids(existing[..i]))
      {
        StillStored(start, scope, stage, i);
        var r := store.Delete(existing[i].id);
        assert r.Ok?;
        DeletedPrefix(start, existing, i);
      }
      assert existing[..|existing|] == existing;
    }

    /** Adds a criterion for every accepted row, in row order. */
    method AddOobRows(stage: string, rows: seq<OobRow>)
      requires store.Valid()
      modifies store
      ensures store.Valid() && store.criteria == WithOobRows(old(store.criteria), scope, stage, rows)
    {
      for row := 0 to |rows|
        invariant store.Valid()
        invariant store.criteria == WithOobRows(old(store.criteria), scope, stage, rows[..row])
      {
        var r := rows[row];
        if r.freqMin > 0.0 && r.freqMax > 0.0 && r.rejection > 0.0 && r.freqMin < r.freqMax {
          var c := NewTestCriteria(OobCriterion(scope, stage, row, r));
          var created := store.Add(c.value);
        }
        assert rows[..row + 1][..row] == rows[..row];
      }
      assert rows[..|rows|] == rows;
    }
  }

  // ---------------------------------------------------------------- OOB table navigation

  /** The keys `eventFilter` tells apart; every other key is `OtherKey`. */
  datatype Key = TabKey | BacktabKey | ReturnKey | EnterKey | OtherKey

  /** A key press (with whether Shift is held), or any other event the filter sees. */
  datatype Event = KeyPress(key: Key, shift: bool) | OtherEvent

  /** A cell of the three-column OOB table: frequency min, frequency max, rejection. */
  datatype Cell = Cell(row: int, col: int)

  /** Where the filter sends focus when it handles the event. */
  datatype Focus = FocusCell(cell: Cell) | FocusTable

  predicate IsShiftTab(ev: Event)
  {
    ev.KeyPress? && (ev.key == BacktabKey || (ev.key == TabKey && ev.shift))
  }

  /** Tab, Shift-Tab, Return and Enter are the keys the filter handles. */
  predicate IsNavigation(ev: Event)
  {
    ev.KeyPress? && ev.key != OtherKey
  }

  /** The cell after (or, for Shift-Tab, before) `c` in row-major order; Python's `%` by 3 is Dafny's. */
  function NextCell(c: Cell, backward: bool): (r: Cell)
    ensures 0 <= r.col < 3
    ensures 0 <= c.col < 3 ==> Position(r) == Position(c) + if backward then -1 else 1
  {
    if backward then
      var col := (c.col - 1) % 3;
      Cell(if col < 2 then c.row else c.row - 1, col)
    else
      var col := (c.col + 1) % 3;
      Cell(if col > 0 then c.row else c.row + 1, col)
  }

  /**
   * `eventFilter` of the spin box in cell `c`: `None` lets the event through (returns False);
   * otherwise the event is consumed and focus goes to the next cell when it is in the table and
   * has a widget, else to the table itself.
   */
  function EventFilter(c: Cell, rowCount: int, hasWidget: Cell -> bool, ev: Event): (r: Option<Focus>)
    ensures r.None? <==> !IsNavigation(ev)
    ensures r.Some? && r.value.FocusCell? ==>
              0 <= r.value.cell.row < rowCount && 0 <= r.value.cell.col < 3 && hasWidget(r.value.cell)
  {
    if !IsNavigation(ev) then None
    else
      var next := NextCell(c, IsShiftTab(ev));
      if 0 <= next.col < 3 && 0 <= next.row < rowCount && hasWidget(next) then Some(FocusCell(next))
      else Some(FocusTable)
  }

  /** The row-major position of a cell. */
  function Position(c: Cell): int
  {
    3 * c.row + c.col
  }

  /** The cell at a row-major position. */
  function CellAt(p: int): (c: Cell)
    ensures Position(c) == p && 0 <= c.col < 3
  {
    Cell(p / 3, p % 3)
  }

  /** Tab and Enter move one position forward in reading order, Shift-Tab one position back. */
  lemma NextCellPosition(c: Cell, backward: bool)
    requires 0 <= c.col < 3
    ensures NextCell(c, backward) == CellAt(Position(c) + if backward then -1 else 1)
  {
    var p := Position(c) + if backward then -1 else 1;
    var n := NextCell(c, backward);
    assert Position(n) == p && 0 <= n.col < 3;
    CellPositionUnique(n, CellAt(p));
  }

  lemma CellPositionUnique(a: Cell, b: Cell)
    requires 0 <= a.col < 3 && 0 <= b.col < 3 && Position(a) == Position(b)
    ensures a == b
  {
    CellOfPosition(a);
    CellOfPosition(b);
  }

  /** A cell is recovered from its position by division and remainder by three. */
  lemma CellOfPosition(c: Cell)
    requires 0 <= c.col < 3
    ensures c.row == Position(c) / 3 && c.col == Position(c) % 3
  {
  }

  /** Shift-Tab undoes Tab, and Tab undoes Shift-Tab. */
  lemma NextCellRoundTrip(c: Cell, backward: bool)
    requires 0 <= c.col < 3
    ensures NextCell(NextCell(c, backward), !backward) == c
  {
    NextCellPosition(c, backward);
    var n := NextCell(c, backward);
    NextCellPosition(n, !backward);
    CellPositionUnique(NextCell(n, !backward), c);
  }

  /**
   * On a handled key, focus moves to the cell one position on in reading order exactly when
   * that position lies inside the table and its cell has a widget; otherwise to the table.
   */
  lemma EventFilterMoves(c: Cell, rowCount: int, hasWidget: Cell -> bool, ev: Event)
    requires 0 <= c.col < 3 && IsNavigation(ev)
    ensures EventFilter(c, rowCount, hasWidget, ev)
         == var p := Position(c) + if IsShiftTab(ev) then -1 else 1;
            if 0 <= p < 3 * rowCount && hasWidget(CellAt(p)) then Some(FocusCell(CellAt(p))) else Some(FocusTable)
  {
    NextCellPosition(c, IsShiftTab(ev));
  }

  /** Tab from the last cell and Shift-Tab from the first both leave the cells for the table. */
  lemma EventFilterLeavesAtEnds(rowCount: int, hasWidget: Cell -> bool, ev: Event)
    requires IsNavigation(ev)
    ensures !IsShiftTab(ev) ==> EventFilter(Cell(rowCount - 1, 2), rowCount, hasWidget, ev) == Some(FocusTable)
    ensures IsShiftTab(ev) ==> EventFilter(Cell(0, 0), rowCount, hasWidget, ev) == Some(FocusTable)
  {
  }
}
