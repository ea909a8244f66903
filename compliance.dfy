/**
 * ComplianceService: evaluation of stored measurements against the criteria
 * of a test stage, and the stored results with their stale flags. The four
 * repositories are in-memory tables (sequences of rows) held by the service.
 */
module Compliance {
  import opened Exceptions
  import opened RfNetwork
  import opened Criteria
  import opened Measurements
  import Devices
  import SParameters
  import Registry

  /** A row of the results table: an evaluation record with its id and its stale flag. */
  datatype StoredResult = StoredResult(id: Id, result: SParameters.TestResult, isStale: bool)

  /**
   * What evaluating needs beyond the stores: the numeric primitives of the S-parameter
   * test type, and the evaluation of any other registered test type, whose code is not
   * part of this model.
   */
  datatype Evaluators = Evaluators(
    nu: Numerics,
    other: (Registry.TestType, Measurement, Devices.Device, seq<TestCriteria>, real, real) -> Result<seq<SParameters.TestResult>>)

  // ---------------------------------------------------------------- table queries

  /** `get_by_id` on the devices table. */
  function DeviceById(ds: seq<Devices.Device>, id: Id): (r: Option<Devices.Device>)
    ensures r.Some? ==> r.value in ds && r.value.id == id
    ensures r.None? ==> forall k :: 0 <= k < |ds| ==> ds[k].id != id
  {
    if ds == [] then None else if ds[0].id == id then Some(ds[0]) else DeviceById(ds[1..], id)
  }

  /** `get_by_id` on the criteria table. */
  function CriterionById(cs: seq<TestCriteria>, id: Id): (r: Option<TestCriteria>)
    ensures r.Some? ==> r.value in cs && r.value.id == id
    ensures r.None? ==> forall k :: 0 <= k < |cs| ==> cs[k].id != id
  {
    if cs == [] then None else if cs[0].id == id then Some(cs[0]) else CriterionById(cs[1..], id)
  }

  /** With ids unique, the criterion found for an id is the one stored under it. */
  lemma CriterionByIdUnique(cs: seq<TestCriteria>, k: nat)
    requires k < |cs| && forall i, j :: 0 <= i < j < |cs| ==> cs[i].id != cs[j].id
    ensures CriterionById(cs, cs[k].id) == Some(cs[k])
  {
    if k > 0 {
      assert cs[0].id != cs[k].id;
      assert cs[1..][k - 1] == cs[k];
      CriterionByIdUnique(cs[1..], k - 1);
    }
  }

  /** `get_by_device_and_test`: the criteria of one device, test type and stage, in table order. */
  function CriteriaFor(cs: seq<TestCriteria>, deviceId: Id, testType: string, stage: string): (r: seq<TestCriteria>)
    ensures forall c :: c in r <==> c in cs && c.deviceId == deviceId && c.testType == testType && c.testStage == stage
  {
    if cs == [] then []
    else
      CriteriaFor(cs[..|cs| - 1], deviceId, testType, stage)
      + (var c := cs[|cs| - 1]; if c.deviceId == deviceId && c.testType == testType && c.testStage == stage then [c] else [])
  }

  /** `get_by_device` followed by the test-type comprehension of `evaluate_all_measurements`. */
  function MeasurementsOf(ms: seq<Measurement>, deviceId: Id, testType: string): (r: seq<Measurement>)
    ensures forall m :: m in r <==> m in ms && m.deviceId == deviceId && m.testType == testType
    ensures |r| <= |ms|
  {
    if ms == [] then []
    else
      MeasurementsOf(ms[..|ms| - 1], deviceId, testType)
      + (var m := ms[|ms| - 1]; if m.deviceId == deviceId && m.testType == testType then [m] else [])
  }

  /** `get_by_measurement_id`: the rows of one measurement, in table order. */
  function ByMeasurement(rs: seq<StoredResult>, mid: Id): (r: seq<StoredResult>)
    ensures forall x :: x in r <==> x in rs && x.result.measurementId == mid
  {
    if rs == [] then []
    else ByMeasurement(rs[..|rs| - 1], mid) + (if rs[|rs| - 1].result.measurementId == mid then [rs[|rs| - 1]] else [])
  }

  /** The comprehension `[r for r in rows if not r.is_stale]`. */
  function Fresh(rs: seq<StoredResult>): (r: seq<StoredResult>)
    ensures forall x :: x in r <==> x in rs && !x.isStale
  {
    if rs == [] then [] else Fresh(rs[..|rs| - 1]) + (if !rs[|rs| - 1].isStale then [rs[|rs| - 1]] else [])
  }

  /** The stale rows, as `delete_stale_results` visits them. */
  function Stale(rs: seq<StoredResult>): (r: seq<StoredResult>)
    ensures forall x :: x in r <==> x in rs && x.isStale
    ensures |r| <= |rs|
  {
    if rs == [] then [] else Stale(rs[..|rs| - 1]) + (if rs[|rs| - 1].isStale then [rs[|rs| - 1]] else [])
  }

  /** Whether a row's criterion exists and belongs to `stage`. */
  predicate InStage(cs: seq<TestCriteria>, stage: string, x: StoredResult)
  {
    var c := CriterionById(cs, x.result.criteriaId);
    c.Some? && c.value.testStage == stage
  }

  /** The stage loop of `get_compliance_results`. */
  function WithStage(rs: seq<StoredResult>, cs: seq<TestCriteria>, stage: string): (r: seq<StoredResult>)
    ensures forall x :: x in r <==> x in rs && InStage(cs, stage, x)
  {
    if rs == [] then []
    else WithStage(rs[..|rs| - 1], cs, stage) + (if InStage(cs, stage, rs[|rs| - 1]) then [rs[|rs| - 1]] else [])
  }

  function IdsOf(rs: seq<StoredResult>): (ids: set<Id>)
    ensures forall x :: x in rs ==> x.id in ids
    ensures forall i :: i in ids ==> exists x :: x in rs && x.id == i
  {
    set x | x in rs :: x.id
  }

  /** The table after `delete(id)` for every id in `ids`. */
  function WithoutIds(rs: seq<StoredResult>, ids: set<Id>): (r: seq<StoredResult>)
    ensures forall x :: x in r <==> x in rs && x.id !in ids
    ensures |r| <= |rs|
  {
    if rs == [] then [] else WithoutIds(rs[..|rs| - 1], ids) + (if rs[|rs| - 1].id !in ids then [rs[|rs| - 1]] else [])
  }

  /** Deleting one id after a set of ids is deleting both. */
  lemma {:induction false} WithoutIdsStep(rs: seq<StoredResult>, ids: set<Id>, i: Id)
    ensures WithoutIds(WithoutIds(rs, ids), {i}) == WithoutIds(rs, ids + {i})
  {
    if rs != [] {
      var init, x := rs[..|rs| - 1], rs[|rs| - 1];
      WithoutIdsStep(init, ids, i);
      var pre := WithoutIds(init, ids);
      assert WithoutIds(rs, ids + {i}) == WithoutIds(init, ids + {i}) + (if x.id !in ids + {i} then [x] else []);
      if x.id !in ids {
        var w := pre + [x];
        assert WithoutIds(rs, ids) == w;
        assert w[..|w| - 1] == pre && w[|w| - 1] == x;
        assert WithoutIds(w, {i}) == WithoutIds(pre, {i}) + (if x.id != i then [x] else []);
      } else {
        assert WithoutIds(rs, ids) == pre;
      }
    }
  }

  /** Deleting no ids changes nothing. */
  lemma {:induction false} WithoutNoIds(rs: seq<StoredResult>)
    ensures WithoutIds(rs, {}) == rs
  {
    if rs != [] {
      var init, x := rs[..|rs| - 1], rs[|rs| - 1];
      WithoutNoIds(init);
      assert WithoutIds(rs, {}) == init + [x];
      assert init + [x] == rs;
    }
  }

  /** Row ids are unique. */
  predicate UniqueIds(rs: seq<StoredResult>)
  {
    forall i, j :: 0 <= i < j < |rs| ==> rs[i].id != rs[j].id
  }

  /** With unique ids, the rows whose ids are those of some chosen rows are exactly the chosen rows. */
  lemma ChosenByIds(rs: seq<StoredResult>, chosen: seq<StoredResult>, x: StoredResult)
    requires UniqueIds(rs) && (forall y :: y in chosen ==> y in rs) && x in rs
    ensures x.id in IdsOf(chosen) <==> x in chosen
  {
    if x.id in IdsOf(chosen) {
      var y :| y in chosen && y.id == x.id;
      var i :| 0 <= i < |rs| && rs[i] == x;
      var j :| 0 <= j < |rs| && rs[j] == y;
      assert i == j;
    }
  }

  /** All rows passed (`all(r.passed for r in rows)`, true for no rows). */
  function AllPassed(rs: seq<StoredResult>): (b: bool)
    ensures b <==> forall x :: x in rs ==> x.result.passed
  {
    if rs == [] then true else rs[0].result.passed && AllPassed(rs[1..])
  }

  /** The row UPDATE of `mark_as_stale_by_criteria`. */
  function MarkStale(rs: seq<StoredResult>, cid: Id): (r: seq<StoredResult>)
    ensures |r| == |rs|
    ensures forall k :: 0 <= k < |rs| ==>
              r[k] == rs[k].(isStale := rs[k].isStale || rs[k].result.criteriaId == cid)
  {
    seq(|rs|, k requires 0 <= k < |rs| => rs[k].(isStale := rs[k].isStale || rs[k].result.criteriaId == cid))
  }

  /** The number of rows of one criterion (the UPDATE's rowcount). */
  function CountOfCriterion(rs: seq<StoredResult>, cid: Id): nat
  {
    if rs == [] then 0 else CountOfCriterion(rs[..|rs| - 1], cid) + (if rs[|rs| - 1].result.criteriaId == cid then 1 else 0)
  }

  /** Whether `test_stage` filters: Python's truthiness, so an empty stage filters nothing. */
  predicate Filters(stage: Option<string>)
  {
    stage.Some? && stage.value != ""
  }

  /** The evaluations `evaluate_all_measurements` collects: one entry per measurement id, the first error aborting. */
  function Collect(eval: Measurement --> Result<seq<SParameters.TestResult>>, ms: seq<Measurement>)
    : Result<map<Id, seq<SParameters.TestResult>>>
    requires forall m :: m in ms ==> eval.requires(m)
  {
    if ms == [] then Ok(map[])
    else
      var pre :- Collect(eval, ms[..|ms| - 1]);
      var r :- eval(ms[|ms| - 1]);
      Ok(pre[ms[|ms| - 1].id := r])
  }

  /** The collected map has an entry exactly for the evaluated measurements; with unique ids, each holds that measurement's results. */
  lemma CollectSpec(eval: Measurement --> Result<seq<SParameters.TestResult>>, ms: seq<Measurement>)
    requires forall m :: m in ms ==> eval.requires(m)
    ensures Collect(eval, ms).Ok? <==> forall m :: m in ms ==> eval(m).Ok?
    ensures Collect(eval, ms).Ok? ==> Collect(eval, ms).value.Keys == set m | m in ms :: m.id
    ensures Collect(eval, ms).Ok? && (forall i, j :: 0 <= i < j < |ms| ==> ms[i].id != ms[j].id) ==>
              forall k :: 0 <= k < |ms| ==> Collect(eval, ms).value[ms[k].id] == eval(ms[k]).value
  {
    CollectOk(eval, ms);
    CollectKeys(eval, ms);
    if Collect(eval, ms).Ok? && (forall i, j :: 0 <= i < j < |ms| ==> ms[i].id != ms[j].id) {
      CollectValues(eval, ms);
    }
  }

  lemma {:induction false} CollectOk(eval: Measurement --> Result<seq<SParameters.TestResult>>, ms: seq<Measurement>)
    requires forall m :: m in ms ==> eval.requires(m)
    ensures Collect(eval, ms).Ok? <==> forall m :: m in ms ==> eval(m).Ok?
  {
    if ms != [] {
      var init, last := ms[..|ms| - 1], ms[|ms| - 1];
      CollectOk(eval, init);
      assert forall m :: m in ms <==> m in init || m == last;
    }
  }

  lemma {:induction false} CollectKeys(eval: Measurement --> Result<seq<SParameters.TestResult>>, ms: seq<Measurement>)
    requires forall m :: m in ms ==> eval.requires(m)
    ensures Collect(eval, ms).Ok? ==> Collect(eval, ms).value.Keys == set m | m in ms :: m.id
  {
    if ms != [] {
      var init, last := ms[..|ms| - 1], ms[|ms| - 1];
      CollectKeys(eval, init);
      assert forall m :: m in ms <==> m in init || m == last;
      assert (set m | m in ms :: m.id) == (set m | m in init :: m.id) + {last.id};
    }
  }

  lemma {:induction false} CollectValues(eval: Measurement --> Result<seq<SParameters.TestResult>>, ms: seq<Measurement>)
    requires forall m :: m in ms ==> eval.requires(m)
    requires forall m :: m in ms ==> eval(m).Ok?
    requires Collect(eval, ms).Ok? && forall i, j :: 0 <= i < j < |ms| ==> ms[i].id != ms[j].id
    ensures forall k :: 0 <= k < |ms| ==>
              ms[k].id in Collect(eval, ms).value && Collect(eval, ms).value[ms[k].id] == eval(ms[k]).value
  {
    if ms != [] {
      var init, last := ms[..|ms| - 1], ms[|ms| - 1];
      assert forall k :: 0 <= k < |init| ==> init[k] == ms[k];
      assert forall m :: m in init ==> m in ms;
      assert Collect(eval, init).Ok?;
      CollectValues(eval, init);
      var r := Collect(eval, ms);
      forall k | 0 <= k < |ms| ensures ms[k].id in r.value && r.value[ms[k].id] == eval(ms[k]).value {
        if k < |ms| - 1 {
          assert ms[k] == init[k] && ms[k].id != last.id;
        }
      }
    }
  }

  /** An error in the first `k` measurements is the error of them all. */
  lemma {:induction false} CollectAbort(eval: Measurement --> Result<seq<SParameters.TestResult>>, ms: seq<Measurement>, k: nat)
    requires forall m :: m in ms ==> eval.requires(m)
    requires k <= |ms| && Collect(eval, ms[..k]).Err?
    ensures Collect(eval, ms) == Collect(eval, ms[..k])
  {
    if k < |ms| {
      var init := ms[..|ms| - 1];
      assert init[..k] == ms[..k];
      CollectAbort(eval, init, k);
    } else {
      assert ms[..k] == ms;
    }
  }

  // ---------------------------------------------------------------- evaluation

  /**
   * `evaluate_compliance` over the given tables: DeviceNotFoundError for an unknown device;
   * no results without criteria for the device, test type and stage, or without a registered
   * test type; otherwise the registered test type's evaluation with the device's operational band.
   */
  function EvaluationIn(ev: Evaluators, ds: seq<Devices.Device>, cs: seq<TestCriteria>, types: map<string, Registry.TestType>,
                        m: Measurement, d: Devices.Device, stage: string): (r: Result<seq<SParameters.TestResult>>)
    requires SParameters.HasWellFormedData(m)
    ensures DeviceById(ds, d.id).None? ==> r == Err(DeviceNotFoundError)
    ensures DeviceById(ds, d.id).Some? && CriteriaFor(cs, d.id, m.testType, stage) == [] ==> r == Ok([])
    ensures DeviceById(ds, d.id).Some? && m.testType !in types ==> r == Ok([])
  {
    if DeviceById(ds, d.id).None? then Err(DeviceNotFoundError)
    else
      var criteria := CriteriaFor(cs, d.id, m.testType, stage);
      if criteria == [] || m.testType !in types then Ok([])
      else
        match types[m.testType]
        case SParametersTestType =>
          SParameters.ComplianceOf(ev.nu, m, d, criteria, d.operationalFreqMin, d.operationalFreqMax)
        case OtherTestType(_, _) =>
          ev.other(types[m.testType], m, d, criteria, d.operationalFreqMin, d.operationalFreqMax)
  }

  /** `evaluate_compliance` for a fixed device and stage, as `evaluate_all_measurements` applies it. */
  function Evaluator(ev: Evaluators, ds: seq<Devices.Device>, cs: seq<TestCriteria>, types: map<string, Registry.TestType>,
                     d: Devices.Device, stage: string): Measurement --> Result<seq<SParameters.TestResult>>
  {
    m requires SParameters.HasWellFormedData(m) => EvaluationIn(ev, ds, cs, types, m, d, stage)
  }

  /**
   * An S-parameter evaluation yields results of the evaluated measurement only, each for
   * one of the criteria stored for that device, test type and stage.
   */
  lemma EvaluationReferencesStage(ev: Evaluators, ds: seq<Devices.Device>, cs: seq<TestCriteria>,
                                  types: map<string, Registry.TestType>, m: Measurement, d: Devices.Device, stage: string)
    requires SParameters.HasWellFormedData(m)
    requires m.testType in types && types[m.testType] == Registry.SParametersTestType
    requires EvaluationIn(ev, ds, cs, types, m, d, stage).Ok?
    ensures forall k :: 0 <= k < |EvaluationIn(ev, ds, cs, types, m, d, stage).value| ==>
              EvaluationIn(ev, ds, cs, types, m, d, stage).value[k].measurementId == m.id
    ensures forall k :: 0 <= k < |EvaluationIn(ev, ds, cs, types, m, d, stage).value| ==>
              exists c :: c in cs && c.id == EvaluationIn(ev, ds, cs, types, m, d, stage).value[k].criteriaId
                && c.deviceId == d.id && c.testType == m.testType && c.testStage == stage
  {
    var criteria := CriteriaFor(cs, d.id, m.testType, stage);
    var r := EvaluationIn(ev, ds, cs, types, m, d, stage).value;
    if criteria != [] {
      var n := m.touchstone.value.nports;
      var s := SParameters.SettingOf(ev.nu, m, d.operationalFreqMin, d.operationalFreqMax);
      var gl, vl := SParameters.GainLabels(d, n), Devices.VswrSParameters(d, n);
      assert r == SParameters.AllResults(s, criteria, gl, vl).value;
      SParameters.AllResultsShape(s, criteria, gl, vl);
      forall k | 0 <= k < |r|
        ensures exists c :: c in cs && c.id == r[k].criteriaId && c.deviceId == d.id && c.testType == m.testType && c.testStage == stage
      {
        var j :| 0 <= j < |criteria| && SParameters.CriteriaIds(criteria)[j] == r[k].criteriaId;
        assert criteria[j] in criteria;
      }
    }
  }

  // ---------------------------------------------------------------- the service

  function MeasurementIds(ms: seq<Measurement>): set<Id> { set m | m in ms :: m.id }

  function CriteriaIdSet(cs: seq<TestCriteria>): set<Id> { set c | c in cs :: c.id }

  /** What the results table accepts on INSERT: a new primary key and rows its foreign keys reference. */
  predicate Insertable(rs: seq<StoredResult>, ms: seq<Measurement>, cs: seq<TestCriteria>, x: StoredResult)
  {
    x.id !in IdsOf(rs) && x.result.measurementId in MeasurementIds(ms) && x.result.criteriaId in CriteriaIdSet(cs)
  }

  /** The rows `records` become when saved under `ids`: fresh, in order. */
  function Rows(records: seq<SParameters.TestResult>, ids: seq<Id>): (r: seq<StoredResult>)
    requires |ids| == |records|
    ensures |r| == |records|
    ensures forall k :: 0 <= k < |r| ==> r[k] == StoredResult(ids[k], records[k], false)
  {
    seq(|records|, k requires 0 <= k < |records| => StoredResult(ids[k], records[k], false))
  }

  /**
   * `save_test_results` inserts the records one by one, each committed as it goes; the
   * number saved is the index of the first INSERT the table rejects (primary key in use,
   * or a foreign key to no measurement or criterion), or all of them.
   */
  function SavedCount(rs: seq<StoredResult>, ms: seq<Measurement>, cs: seq<TestCriteria>,
                      records: seq<SParameters.TestResult>, ids: seq<Id>): (k: nat)
    requires |ids| == |records|
    ensures k <= |records|
  {
    if records == [] then 0
    else
      var n := |records| - 1;
      var k := SavedCount(rs, ms, cs, records[..n], ids[..n]);
      if k < n then k
      else if Insertable(rs + Rows(records[..n], ids[..n]), ms, cs, StoredResult(ids[n], records[n], false)) then n + 1
      else n
  }

  lemma IdsOfRows(rs: seq<StoredResult>, records: seq<SParameters.TestResult>, ids: seq<Id>)
    requires |ids| == |records|
    ensures IdsOf(rs + Rows(records, ids)) == IdsOf(rs) + (set k | 0 <= k < |ids| :: ids[k])
  {
    var t := rs + Rows(records, ids);
    forall i | i in IdsOf(t) ensures i in IdsOf(rs) + (set k | 0 <= k < |ids| :: ids[k]) {
      var y :| y in t && y.id == i;
      var j :| 0 <= j < |t| && t[j] == y;
      if j >= |rs| { assert y.id == ids[j - |rs|]; } else { assert y in rs; }
    }
    forall i | i in IdsOf(rs) + (set k | 0 <= k < |ids| :: ids[k]) ensures i in IdsOf(t) {
      if i !in IdsOf(rs) {
        var k :| 0 <= k < |ids| && ids[k] == i;
        assert t[|rs| + k] in t;
      }
    }
  }

  /** Once a record is rejected, the later ones are never attempted. */
  lemma {:induction false} SavedCountPrefix(rs: seq<StoredResult>, ms: seq<Measurement>, cs: seq<TestCriteria>,
                                            records: seq<SParameters.TestResult>, ids: seq<Id>, k: nat)
    requires |ids| == |records| && k <= |records|
    requires SavedCount(rs, ms, cs, records[..k], ids[..k]) < k
    ensures SavedCount(rs, ms, cs, records, ids) == SavedCount(rs, ms, cs, records[..k], ids[..k])
  {
    if k < |records| {
      var n := |records| - 1;
      assert records[..n][..k] == records[..k] && ids[..n][..k] == ids[..k];
      SavedCountPrefix(rs, ms, cs, records[..n], ids[..n], k);
    } else {
      assert records[..k] == records && ids[..k] == ids;
    }
  }

  /** The new ids are unused in the table and pairwise distinct. */
  predicate NewIds(rs: seq<StoredResult>, ids: seq<Id>)
  {
    && (forall k :: 0 <= k < |ids| ==> ids[k] !in IdsOf(rs))
    && (forall i, j :: 0 <= i < j < |ids| ==> ids[i] != ids[j])
  }

  /** Every record refers to a stored measurement and a stored criterion. */
  predicate Referenced(ms: seq<Measurement>, cs: seq<TestCriteria>, records: seq<SParameters.TestResult>)
  {
    forall k :: 0 <= k < |records| ==>
      records[k].measurementId in MeasurementIds(ms) && records[k].criteriaId in CriteriaIdSet(cs)
  }

  lemma NewIdsStep(rs: seq<StoredResult>, ids: seq<Id>)
    requires ids != []
    ensures NewIds(rs, ids) <==>
              NewIds(rs, ids[..|ids| - 1]) && ids[|ids| - 1] !in IdsOf(rs) + (set k | 0 <= k < |ids| - 1 :: ids[k])
  {
    var n := |ids| - 1;
    var ii := ids[..n];
    if NewIds(rs, ii) && ids[n] !in IdsOf(rs) + (set k | 0 <= k < n :: ids[k]) {
      forall i, j | 0 <= i < j < |ids| ensures ids[i] != ids[j] {
        if j == n { assert ids[i] in (set k | 0 <= k < n :: ids[k]); } else { assert ii[i] == ids[i] && ii[j] == ids[j]; }
      }
    }
    if NewIds(rs, ids) {
      var earlier := set k | 0 <= k < n :: ids[k];
      forall i | i in earlier ensures i != ids[n] {
        var k :| 0 <= k < n && ids[k] == i;
      }
    }
  }

  lemma ReferencedStep(ms: seq<Measurement>, cs: seq<TestCriteria>, records: seq<SParameters.TestResult>)
    requires records != []
    ensures Referenced(ms, cs, records) <==>
              && Referenced(ms, cs, records[..|records| - 1])
              && records[|records| - 1].measurementId in MeasurementIds(ms)
              && records[|records| - 1].criteriaId in CriteriaIdSet(cs)
  {
    assert forall k :: 0 <= k < |records| - 1 ==> records[..|records| - 1][k] == records[k];
  }

  /**
   * Every record is saved exactly when the new ids are unused and distinct and every
   * record refers to an existing measurement and criterion.
   */
  lemma {:induction false} SavedCountSpec(rs: seq<StoredResult>, ms: seq<Measurement>, cs: seq<TestCriteria>,
                                          records: seq<SParameters.TestResult>, ids: seq<Id>)
    requires |ids| == |records|
    ensures SavedCount(rs, ms, cs, records, ids) == |records| <==> NewIds(rs, ids) && Referenced(ms, cs, records)
  {
    if records != [] {
      var n := |records| - 1;
      var ri, ii := records[..n], ids[..n];
      SavedCountSpec(rs, ms, cs, ri, ii);
      IdsOfRows(rs, ri, ii);
      NewIdsStep(rs, ids);
      ReferencedStep(ms, cs, records);
      assert (set k | 0 <= k < |ii| :: ii[k]) == (set k | 0 <= k < n :: ids[k]);
    }
  }

  /**
   * Saving the results of an S-parameter evaluation of a stored measurement under new,
   * distinct ids never breaks a foreign key: every result is saved.
   */
  lemma EvaluatedResultsSaveable(ev: Evaluators, ds: seq<Devices.Device>, ms: seq<Measurement>, cs: seq<TestCriteria>,
                                 types: map<string, Registry.TestType>, rs: seq<StoredResult>,
                                 m: Measurement, d: Devices.Device, stage: string, results: seq<SParameters.TestResult>,
                                 ids: seq<Id>)
    requires SParameters.HasWellFormedData(m) && m in ms
    requires m.testType in types && types[m.testType] == Registry.SParametersTestType
    requires EvaluationIn(ev, ds, cs, types, m, d, stage) == Ok(results)
    requires |ids| == |results| && NewIds(rs, ids)
    ensures SavedCount(rs, ms, cs, results, ids) == |ids|
  {
    EvaluationReferencesStage(ev, ds, cs, types, m, d, stage);
    ResultsOfStoredRowsSaveable(rs, ms, cs, results, ids, m, d.id, stage);
  }

  /** Results of a stored measurement against stored criteria, under new and distinct ids, are all saved. */
  lemma ResultsOfStoredRowsSaveable(rs: seq<StoredResult>, ms: seq<Measurement>, cs: seq<TestCriteria>,
                                    r: seq<SParameters.TestResult>, ids: seq<Id>, m: Measurement, did: Id, stage: string)
    requires m in ms && |ids| == |r| && NewIds(rs, ids)
    requires forall k :: 0 <= k < |r| ==> r[k].measurementId == m.id
    requires forall k :: 0 <= k < |r| ==>
               exists c :: c in cs && c.id == r[k].criteriaId && c.deviceId == did && c.testType == m.testType && c.testStage == stage
    ensures SavedCount(rs, ms, cs, r, ids) == |ids|
  {
    forall k | 0 <= k < |r| ensures r[k].measurementId in MeasurementIds(ms) && r[k].criteriaId in CriteriaIdSet(cs) {
      var x := r[k];
      assert exists c :: c in cs && c.id == x.criteriaId && c.deviceId == did && c.testType == m.testType && c.testStage == stage;
      var c :| c in cs && c.id == x.criteriaId && c.deviceId == did && c.testType == m.testType && c.testStage == stage;
      assert c.id in CriteriaIdSet(cs);
    }
    SavedCountSpec(rs, ms, cs, r, ids);
  }

  // ---------------------------------------------------------------- reading and deleting stored results

  /**
   * `get_compliance_results`: the measurement's rows that are not stale and, when a
   * non-empty stage is given, whose criterion is of that stage.
   */
  function ComplianceResults(rs: seq<StoredResult>, cs: seq<TestCriteria>, mid: Id, stage: Option<string>): (r: seq<StoredResult>)
    ensures forall x :: x in r <==>
              && x in rs && x.result.measurementId == mid && !x.isStale
              && (stage.Some? && stage.value != "" ==> InStage(cs, stage.value, x))
  {
    var current := Fresh(ByMeasurement(rs, mid));
    if Filters(stage) then WithStage(current, cs, stage.value) else current
  }

  /** Whether `get_compliance_results` returns a stored row. */
  predicate Reported(cs: seq<TestCriteria>, mid: Id, stage: Option<string>, x: StoredResult)
  {
    x.result.measurementId == mid && !x.isStale && (Filters(stage) ==> InStage(cs, stage.value, x))
  }

  /** One more stored row is appended to the reported rows exactly when it is reported. */
  lemma ComplianceResultsSnoc(rs: seq<StoredResult>, cs: seq<TestCriteria>, mid: Id, stage: Option<string>, x: StoredResult)
    ensures ComplianceResults(rs + [x], cs, mid, stage)
            == ComplianceResults(rs, cs, mid, stage) + (if Reported(cs, mid, stage, x) then [x] else [])
  {
    assert (rs + [x])[..|rs|] == rs;
    var b := ByMeasurement(rs, mid);
    if x.result.measurementId == mid {
      assert ByMeasurement(rs + [x], mid) == b + [x];
      assert (b + [x])[..|b|] == b;
      var f := Fresh(b);
      if !x.isStale {
        assert Fresh(b + [x]) == f + [x];
        assert (f + [x])[..|f|] == f;
      } else {
        assert Fresh(b + [x]) == f;
      }
    } else {
      assert ByMeasurement(rs + [x], mid) == b;
    }
  }

  /** `get_compliance_results` keeps the stored order: its rows are a subsequence of the stored rows. */
  lemma {:induction false} ComplianceResultsOrder(rs: seq<StoredResult>, cs: seq<TestCriteria>, mid: Id, stage: Option<string>)
    ensures SParameters.IsSubsequence(ComplianceResults(rs, cs, mid, stage), rs)
  {
    if rs != [] {
      var init, x := rs[..|rs| - 1], rs[|rs| - 1];
      assert rs == init + [x];
      ComplianceResultsOrder(init, cs, mid, stage);
      ComplianceResultsSnoc(init, cs, mid, stage, x);
      var pre := ComplianceResults(init, cs, mid, stage);
      if Reported(cs, mid, stage, x) {
        assert (pre + [x])[..|pre|] == pre;
      } else {
        SParameters.SubsequenceExtend(pre, init, x);
        assert ComplianceResults(rs, cs, mid, stage) == pre;
      }
    }
  }

  /** Deleting rows keeps the ids of the rest unique. */
  lemma {:induction false} WithoutIdsUnique(rs: seq<StoredResult>, ids: set<Id>)
    requires UniqueIds(rs)
    ensures UniqueIds(WithoutIds(rs, ids))
  {
    if rs != [] {
      var init, x := rs[..|rs| - 1], rs[|rs| - 1];
      assert UniqueIds(init) by {
        forall i, j | 0 <= i < j < |init| ensures init[i].id != init[j].id { assert init[i] == rs[i] && init[j] == rs[j]; }
      }
      WithoutIdsUnique(init, ids);
      var w := WithoutIds(init, ids);
      if x.id !in ids {
        forall y | y in w ensures y.id != x.id {
          var j :| 0 <= j < |init| && init[j] == y;
          assert rs[j] == y;
        }
        assert WithoutIds(rs, ids) == w + [x];
      }
    }
  }

  /**
   * What `delete_results_for_measurement_and_stage` leaves: with unique ids, a row is removed
   * exactly when it is a non-stale row of the measurement in the stage (any non-stale row of the
   * measurement for an empty stage); every other row stays.
   */
  lemma DeleteForStageSpec(rs: seq<StoredResult>, cs: seq<TestCriteria>, mid: Id, stage: string, x: StoredResult)
    requires UniqueIds(rs)
    ensures x in WithoutIds(rs, IdsOf(ComplianceResults(rs, cs, mid, Some(stage)))) <==>
              x in rs && !(x.result.measurementId == mid && !x.isStale && (stage != "" ==> InStage(cs, stage, x)))
  {
    if x in rs {
      ChosenByIds(rs, ComplianceResults(rs, cs, mid, Some(stage)), x);
    }
  }

  /** The rows of a criterion number at most the rows, and none exactly when no row has that criterion. */
  lemma {:induction false} CountOfCriterionSpec(rs: seq<StoredResult>, cid: Id)
    ensures CountOfCriterion(rs, cid) <= |rs|
    ensures CountOfCriterion(rs, cid) == 0 <==> forall x :: x in rs ==> x.result.criteriaId != cid
  {
    if rs != [] {
      var init := rs[..|rs| - 1];
      CountOfCriterionSpec(init, cid);
      assert forall x :: x in rs <==> x in init || x == rs[|rs| - 1];
    }
  }

  /** Marking stale keeps every row's id, so the primary keys and the foreign keys stay as they were. */
  lemma MarkStaleKeepsIds(rs: seq<StoredResult>, cid: Id)
    ensures IdsOf(MarkStale(rs, cid)) == IdsOf(rs)
    ensures forall x :: x in MarkStale(rs, cid) ==> exists y :: y in rs && y.id == x.id && y.result == x.result
  {
    var r := MarkStale(rs, cid);
    forall i | i in IdsOf(rs) ensures i in IdsOf(r) {
      var y :| y in rs && y.id == i;
      var j :| 0 <= j < |rs| && rs[j] == y;
      assert r[j] in r;
    }
    forall x | x in r ensures exists y :: y in rs && y.id == x.id && y.result == x.result {
      var j :| 0 <= j < |r| && r[j] == x;
      assert rs[j] in rs;
    }
  }

  // ---------------------------------------------------------------- the service object

  /** The rows of the tables are what the schema admits: unique keys and foreign keys that resolve. */
  ghost predicate TablesValid(ms: seq<Measurement>, cs: seq<TestCriteria>, rs: seq<StoredResult>)
  {
    && (forall i, j :: 0 <= i < j < |ms| ==> ms[i].id != ms[j].id)
    && (forall m :: m in ms ==> SParameters.HasWellFormedData(m))
    && UniqueIds(rs)
    && (forall x :: x in rs ==> x.result.measurementId in MeasurementIds(ms) && x.result.criteriaId in CriteriaIdSet(cs))
  }

  lemma TablesValidAfterInsert(ms: seq<Measurement>, cs: seq<TestCriteria>, rs: seq<StoredResult>, x: StoredResult)
    requires TablesValid(ms, cs, rs) && Insertable(rs, ms, cs, x)
    ensures TablesValid(ms, cs, rs + [x])
  {
    forall y | y in rs ensures y.id != x.id { }
  }

  lemma TablesValidAfterDelete(ms: seq<Measurement>, cs: seq<TestCriteria>, rs: seq<StoredResult>, ids: set<Id>)
    requires TablesValid(ms, cs, rs)
    ensures TablesValid(ms, cs, WithoutIds(rs, ids))
  {
    WithoutIdsUnique(rs, ids);
  }

  lemma TablesValidAfterMark(ms: seq<Measurement>, cs: seq<TestCriteria>, rs: seq<StoredResult>, cid: Id)
    requires TablesValid(ms, cs, rs)
    ensures TablesValid(ms, cs, MarkStale(rs, cid))
  {
    MarkStaleKeepsIds(rs, cid);
  }

  /** One more measurement evaluated: its entry added, or its error the outcome. */
  lemma CollectStep(eval: Measurement --> Result<seq<SParameters.TestResult>>, ms: seq<Measurement>, i: nat)
    requires forall m :: m in ms ==> eval.requires(m)
    requires i < |ms| && Collect(eval, ms[..i]).Ok?
    ensures eval(ms[i]).Ok? ==> Collect(eval, ms[..i + 1]) == Ok(Collect(eval, ms[..i]).value[ms[i].id := eval(ms[i]).value])
    ensures eval(ms[i]).Err? ==> Collect(eval, ms) == Err(eval(ms[i]).error)
  {
    assert ms[..i + 1][..i] == ms[..i];
    if eval(ms[i]).Err? {
      CollectAbort(eval, ms, i + 1);
    }
  }

  /** The rows of one more record: the earlier rows, then the new one. */
  lemma RowsStep(records: seq<SParameters.TestResult>, ids: seq<Id>, i: nat)
    requires |ids| == |records| && i < |records|
    ensures Rows(records[..i + 1], ids[..i + 1]) == Rows(records[..i], ids[..i]) + [StoredResult(ids[i], records[i], false)]
  {
    var r, r' := Rows(records[..i], ids[..i]), Rows(records[..i + 1], ids[..i + 1]);
    assert forall k :: 0 <= k < i ==> r'[k] == r[k];
  }

  /** Saving one more record that the table accepts: the count grows by one and the row is appended. */
  lemma SaveAccepted(rs: seq<StoredResult>, ms: seq<Measurement>, cs: seq<TestCriteria>,
                     records: seq<SParameters.TestResult>, ids: seq<Id>, i: nat)
    requires |ids| == |records| && i < |records|
    requires SavedCount(rs, ms, cs, records[..i], ids[..i]) == i
    requires Insertable(rs + Rows(records[..i], ids[..i]), ms, cs, StoredResult(ids[i], records[i], false))
    ensures SavedCount(rs, ms, cs, records[..i + 1], ids[..i + 1]) == i + 1
    ensures rs + Rows(records[..i + 1], ids[..i + 1]) == rs + Rows(records[..i], ids[..i]) + [StoredResult(ids[i], records[i], false)]
  {
    assert records[..i + 1][..i] == records[..i] && ids[..i + 1][..i] == ids[..i];
    RowsStep(records, ids, i);
  }

  /** A record the table rejects ends the saving: the count stays where it is. */
  lemma SaveRejected(rs: seq<StoredResult>, ms: seq<Measurement>, cs: seq<TestCriteria>,
                     records: seq<SParameters.TestResult>, ids: seq<Id>, i: nat)
    requires |ids| == |records| && i < |records|
    requires SavedCount(rs, ms, cs, records[..i], ids[..i]) == i
    requires !Insertable(rs + Rows(records[..i], ids[..i]), ms, cs, StoredResult(ids[i], records[i], false))
    ensures SavedCount(rs, ms, cs, records, ids) == i
  {
    assert records[..i + 1][..i] == records[..i] && ids[..i + 1][..i] == ids[..i];
    SavedCountPrefix(rs, ms, cs, records, ids, i + 1);
  }

  /** The ids of some rows and one more. */
  lemma IdsOfSnoc(rs: seq<StoredResult>, x: StoredResult)
    ensures IdsOf(rs + [x]) == IdsOf(rs) + {x.id}
  {
    assert forall y :: y in rs + [x] <==> y in rs || y == x;
  }

  /** Deleting the ids of one more row. */
  lemma DeleteStep(rs: seq<StoredResult>, chosen: seq<StoredResult>, i: nat)
    requires i < |chosen|
    ensures WithoutIds(WithoutIds(rs, IdsOf(chosen[..i])), {chosen[i].id}) == WithoutIds(rs, IdsOf(chosen[..i + 1]))
  {
    assert chosen[..i + 1] == chosen[..i] + [chosen[i]];
    IdsOfSnoc(chosen[..i], chosen[i]);
    WithoutIdsStep(rs, IdsOf(chosen[..i]), chosen[i].id);
  }

  /** Deleting the ids of one more stale row, when the next row is stale. */
  lemma DeleteStaleStep(rs: seq<StoredResult>, rows: seq<StoredResult>, i: nat)
    requires i < |rows|
    ensures rows[i].isStale ==>
              WithoutIds(WithoutIds(rs, IdsOf(Stale(rows[..i]))), {rows[i].id}) == WithoutIds(rs, IdsOf(Stale(rows[..i + 1])))
              && |Stale(rows[..i + 1])| == |Stale(rows[..i])| + 1
    ensures !rows[i].isStale ==> Stale(rows[..i + 1]) == Stale(rows[..i])
  {
    assert rows[..i + 1][..i] == rows[..i];
    if rows[i].isStale {
      assert Stale(rows[..i + 1]) == Stale(rows[..i]) + [rows[i]];
      IdsOfSnoc(Stale(rows[..i]), rows[i]);
      WithoutIdsStep(rs, IdsOf(Stale(rows[..i])), rows[i].id);
    }
  }

  class ComplianceService {
    var devices: seq<Devices.Device>
    var measurements: seq<Measurement>
    var criteria: seq<TestCriteria>
    /** The results table. */
    var results: seq<StoredResult>
    /** The test-type registry the service was given, or the shared one. */
    const registry: Registry.TestTypeRegistry

    ghost predicate Valid()
      reads this, registry
    {
      registry.Valid() && TablesValid(measurements, criteria, results)
    }

    /** `__init__`: the given registry, or the shared instance (`test_type_registry or TestTypeRegistry()`). */
    constructor (ds: seq<Devices.Device>, ms: seq<Measurement>, cs: seq<TestCriteria>, rs: seq<StoredResult>,
                 given: Option<Registry.TestTypeRegistry>, holder: Registry.RegistryHolder)
      requires TablesValid(ms, cs, rs) && holder.Valid()
      requires given.Some? ==> given.value.Valid()
      modifies holder
      ensures Valid()
      ensures devices == ds && measurements == ms && criteria == cs && results == rs
      ensures given.Some? ==> registry == given.value
      ensures given.None? ==> holder.instance == Some(registry)
    {
      var reg: Registry.TestTypeRegistry;
      if given.Some? {
        reg := given.value;
      } else {
        reg := holder.Instance();
      }
      devices, measurements, criteria, results, registry := ds, ms, cs, rs, reg;
    }

    /** `evaluate_compliance`. */
    method EvaluateCompliance(ev: Evaluators, m: Measurement, d: Devices.Device, stage: string)
      returns (r: Result<seq<SParameters.TestResult>>)
      requires Valid() && SParameters.HasWellFormedData(m)
      ensures r == EvaluationIn(ev, devices, criteria, registry.types, m, d, stage)
    {
      if DeviceById(devices, d.id).None? {
        return Err(DeviceNotFoundError);
      }
      var cs := CriteriaFor(criteria, d.id, m.testType, stage);
      if cs == [] {
        return Ok([]);
      }
      var testType := registry.Get(m.testType);
      if testType.None? {
        return Ok([]);
      }
      match testType.value {
        case SParametersTestType =>
          r := SParameters.EvaluateCompliance(ev.nu, m, d, cs, d.operationalFreqMin, d.operationalFreqMax);
        case OtherTestType(_, _) =>
          r := ev.other(testType.value, m, d, cs, d.operationalFreqMin, d.operationalFreqMax);
      }
    }

    /**
     * `evaluate_all_measurements`: DeviceNotFoundError for an unknown device, otherwise each
     * of the device's measurements of the test type evaluated for the stage, keyed by id.
     */
    method EvaluateAllMeasurements(ev: Evaluators, deviceId: Id, testType: string, stage: string)
      returns (r: Result<map<Id, seq<SParameters.TestResult>>>)
      requires Valid()
      ensures DeviceById(devices, deviceId).None? ==> r == Err(DeviceNotFoundError)
      ensures DeviceById(devices, deviceId).Some? ==>
                r == Collect(Evaluator(ev, devices, criteria, registry.types, DeviceById(devices, deviceId).value, stage),
                             MeasurementsOf(measurements, deviceId, testType))
    {
      var device := DeviceById(devices, deviceId);
      if device.None? {
        return Err(DeviceNotFoundError);
      }
      var d := device.value;
      var ms := MeasurementsOf(measurements, deviceId, testType);
      ghost var eval := Evaluator(ev, devices, criteria, registry.types, d, stage);
      var all := map[];
      var i := 0;
      while i < |ms|
        invariant 0 <= i <= |ms|
        invariant Collect(eval, ms[..i]) == Ok(all)
      {
        var results := EvaluateCompliance(ev, ms[i], d, stage);
        assert results == eval(ms[i]);
        CollectStep(eval, ms, i);
        if results.Err? {
          return Err(results.error);
        }
        all := all[ms[i].id := results.value];
        i := i + 1;
      }
      assert ms[..i] == ms;
      r := Ok(all);
    }

    /** `result_repo.create`: one INSERT, committed, or refused when a key constraint fails. */
    method CreateResult(x: StoredResult) returns (created: bool)
      requires Valid()
      modifies this
      ensures Valid()
      ensures devices == old(devices) && measurements == old(measurements) && criteria == old(criteria)
      ensures created == Insertable(old(results), measurements, criteria, x)
      ensures results == if created then old(results) + [x] else old(results)
    {
      created := Insertable(results, measurements, criteria, x);
      if created {
        TablesValidAfterInsert(measurements, criteria, results, x);
        results := results + [x];
      }
    }

    /** `result_repo.delete`: the row with this id, if any, removed. */
    method DeleteResult(id: Id)
      requires Valid()
      modifies this
      ensures Valid()
      ensures devices == old(devices) && measurements == old(measurements) && criteria == old(criteria)
      ensures results == WithoutIds(old(results), {id})
    {
      TablesValidAfterDelete(measurements, criteria, results, {id});
      results := WithoutIds(results, {id});
    }

    /**
     * `save_test_results`: the records inserted one by one under the given ids, each committed
     * as it goes; DatabaseError at the first one the table rejects, the earlier ones staying saved.
     */
    method SaveTestResults(records: seq<SParameters.TestResult>, ids: seq<Id>) returns (r: Result<seq<StoredResult>>)
      requires Valid() && |ids| == |records|
      modifies this
      ensures Valid()
      ensures devices == old(devices) && measurements == old(measurements) && criteria == old(criteria)
      ensures results == old(results) + Rows(records[..SavedCount(old(results), measurements, criteria, records, ids)],
                                             ids[..SavedCount(old(results), measurements, criteria, records, ids)])
      ensures r.Ok? <==> SavedCount(old(results), measurements, criteria, records, ids) == |records|
      ensures r.Ok? ==> r.value == Rows(records, ids)
      ensures r.Err? ==> r.error == DatabaseError("Failed to create test result")
    {
      ghost var table := results;
      var i := 0;
      while i < |records|
        invariant 0 <= i <= |records|
        invariant Valid()
        invariant devices == old(devices) && measurements == old(measurements) && criteria == old(criteria)
        invariant SavedCount(table, measurements, criteria, records[..i], ids[..i]) == i
        invariant results == table + Rows(records[..i], ids[..i])
      {
        var created := CreateResult(StoredResult(ids[i], records[i], false));
        if !created {
          SaveRejected(table, measurements, criteria, records, ids, i);
          return Err(DatabaseError("Failed to create test result"));
        }
        SaveAccepted(table, measurements, criteria, records, ids, i);
        i := i + 1;
      }
      assert records[..i] == records && ids[..i] == ids;
      r := Ok(Rows(records, ids));
    }

    /** `get_compliance_results`. */
    function GetComplianceResults(mid: Id, stage: Option<string>): (r: seq<StoredResult>)
      reads this
      ensures r == ComplianceResults(results, criteria, mid, stage)
      ensures SParameters.IsSubsequence(r, results)
    {
      ComplianceResultsOrder(results, criteria, mid, stage);
      ComplianceResults(results, criteria, mid, stage)
    }

    /** `delete_results_for_measurement_and_stage`: deletes by id every row `get_compliance_results` returns for the stage. */
    method DeleteResultsForMeasurementAndStage(mid: Id, stage: string)
      requires Valid()
      modifies this
      ensures Valid()
      ensures devices == old(devices) && measurements == old(measurements) && criteria == old(criteria)
      ensures results == WithoutIds(old(results), IdsOf(ComplianceResults(old(results), criteria, mid, Some(stage))))
    {
      var toDelete := GetComplianceResults(mid, Some(stage));
      DeleteRows(toDelete);
    }

    /** The loop of `delete_results_for_measurement_and_stage`: `result_repo.delete` for each of `rows`. */
    method DeleteRows(rows: seq<StoredResult>)
      requires Valid()
      modifies this
      ensures Valid()
      ensures devices == old(devices) && measurements == old(measurements) && criteria == old(criteria)
      ensures results == WithoutIds(old(results), IdsOf(rows))
    {
      ghost var table := results;
      assert IdsOf(rows[..0]) == {};
      WithoutNoIds(results);
      for i := 0 to |rows|
        invariant devices == old(devices) && measurements == old(measurements) && criteria == old(criteria)
        invariant Valid()
        invariant results == WithoutIds(table, IdsOf(rows[..i]))
      {
        DeleteStep(table, rows, i);
        DeleteResult(rows[i].id);
      }
      assert rows[..|rows|] == rows;
    }

    /** `get_overall_pass_status`: every stored row of the measurement passed, stale rows included. */
    function GetOverallPassStatus(mid: Id): (b: bool)
      reads this
      ensures b <==> forall x :: x in results && x.result.measurementId == mid ==> x.result.passed
    {
      AllPassed(ByMeasurement(results, mid))
    }

    /** `mark_results_stale_for_criteria`: every row of the criterion marked stale; the count of those rows. */
    method MarkResultsStaleForCriteria(cid: Id) returns (count: nat)
      requires Valid()
      modifies this
      ensures Valid()
      ensures devices == old(devices) && measurements == old(measurements) && criteria == old(criteria)
      ensures results == MarkStale(old(results), cid)
      ensures count == CountOfCriterion(old(results), cid)
    {
      TablesValidAfterMark(measurements, criteria, results, cid);
      count := CountOfCriterion(results, cid);
      results := MarkStale(results, cid);
    }

    /** `delete_stale_results`: deletes the measurement's stale rows one by one, counting them. */
    method DeleteStaleResults(mid: Id) returns (count: nat)
      requires Valid()
      modifies this
      ensures Valid()
      ensures devices == old(devices) && measurements == old(measurements) && criteria == old(criteria)
      ensures results == WithoutIds(old(results), IdsOf(Stale(ByMeasurement(old(results), mid))))
      ensures count == |Stale(ByMeasurement(old(results), mid))|
    {
      var rows := ByMeasurement(results, mid);
      count := DeleteStaleRows(rows);
    }

    /** The loop of `delete_stale_results`: each stale row among `rows` deleted and counted. */
    method DeleteStaleRows(rows: seq<StoredResult>) returns (count: nat)
      requires Valid()
      modifies this
      ensures Valid()
      ensures devices == old(devices) && measurements == old(measurements) && criteria == old(criteria)
      ensures results == WithoutIds(old(results), IdsOf(Stale(rows)))
      ensures count == |Stale(rows)|
    {
      ghost var table := results;
      assert rows[..0] == [];
      assert IdsOf(Stale(rows[..0])) == {};
      WithoutNoIds(results);
      count := 0;
      for i := 0 to |rows|
        invariant devices == old(devices) && measurements == old(measurements) && criteria == old(criteria)
        invariant Valid()
        invariant results == WithoutIds(table, IdsOf(Stale(rows[..i])))
        invariant count == |Stale(rows[..i])|
      {
        DeleteStaleStep(table, rows, i);
        if rows[i].isStale {
          DeleteResult(rows[i].id);
          count := count + 1;
        }
      }
      assert rows[..|rows|] == rows;
    }
  }
}
