/**
 * A test requirement (TestCriteria): which values are accepted when it is
 * constructed, and the pass/fail predicate `evaluate`.
 */
module Criteria {
  import opened Exceptions

  datatype TestCriteria = TestCriteria(
    id: Id,
    deviceId: Id,
    testType: string,
    testStage: string,
    requirementName: string,
    criteriaType: string,
    minValue: Option<real>,
    maxValue: Option<real>,
    unit: string,
    frequencyMin: Option<real>,   // GHz, out-of-band requirements only
    frequencyMax: Option<real>)

  const AllowedCriteriaTypes: set<string> := {"range", "min", "max", "less_than_equal", "greater_than_equal"}

  predicate IsLowerBoundType(t: string) { t == "min" || t == "greater_than_equal" }

  predicate IsUpperBoundType(t: string) { t == "max" || t == "less_than_equal" }

  /** What construction guarantees, stated declaratively. */
  predicate Valid(c: TestCriteria)
  {
    && c.criteriaType in AllowedCriteriaTypes
    && (c.criteriaType == "range" ==>
          c.minValue.Some? && c.maxValue.Some? && c.minValue.value < c.maxValue.value)
    && (IsLowerBoundType(c.criteriaType) ==> c.minValue.Some? && c.maxValue.None?)
    && (IsUpperBoundType(c.criteriaType) ==> c.maxValue.Some? && c.minValue.None?)
    && (c.frequencyMin.Some? <==> c.frequencyMax.Some?)
    && (c.frequencyMin.Some? ==> c.frequencyMin.value < c.frequencyMax.value)
  }

  /** The field validator of `criteria_type`. */
  function ValidateCriteriaType(t: string): (r: Result<string>)
    ensures r.Ok? <==> t in AllowedCriteriaTypes
    ensures r.Ok? ==> r.value == t
    ensures r.Err? ==> r.error.TestCriteriaError?
  {
    if t in AllowedCriteriaTypes then Ok(t)
    else Err(TestCriteriaError("criteria_type must be one of the allowed types"))
  }

  /** The model validator: bounds that fit the type, then the optional OOB frequency band. */
  function ValidateCriteriaValues(c: TestCriteria): (r: Result<TestCriteria>)
    ensures r.Ok? ==> r.value == c
    ensures r.Err? ==> r.error.TestCriteriaError?
  {
    if c.criteriaType == "range" && (c.minValue.None? || c.maxValue.None?) then
      Err(TestCriteriaError("range criteria_type requires both min_value and max_value"))
    else if c.criteriaType == "range" && c.minValue.value >= c.maxValue.value then
      Err(TestCriteriaError("min_value must be less than max_value"))
    else if IsLowerBoundType(c.criteriaType) && c.minValue.None? then
      Err(TestCriteriaError("criteria_type requires min_value"))
    else if IsLowerBoundType(c.criteriaType) && c.maxValue.Some? then
      Err(TestCriteriaError("criteria_type should not have max_value"))
    else if IsUpperBoundType(c.criteriaType) && c.maxValue.None? then
      Err(TestCriteriaError("criteria_type requires max_value"))
    else if IsUpperBoundType(c.criteriaType) && c.minValue.Some? then
      Err(TestCriteriaError("criteria_type should not have min_value"))
    else if (c.frequencyMin.Some? || c.frequencyMax.Some?) && (c.frequencyMin.None? || c.frequencyMax.None?) then
      Err(TestCriteriaError("OOB criteria requires both frequency_min and frequency_max"))
    else if c.frequencyMin.Some? && c.frequencyMin.value >= c.frequencyMax.value then
      Err(TestCriteriaError("frequency_min must be less than frequency_max"))
    else
      Ok(c)
  }

  /** Constructing a TestCriteria: the field validator runs first, then the model validator. */
  function NewTestCriteria(c: TestCriteria): (r: Result<TestCriteria>)
    ensures r.Ok? ==> r.value == c
    ensures r.Err? ==> r.error.TestCriteriaError?
  {
    var _ :- ValidateCriteriaType(c.criteriaType);
    ValidateCriteriaValues(c)
  }

  /** Construction succeeds exactly on the valid criteria, and returns them unchanged. */
  lemma NewTestCriteriaIffValid(c: TestCriteria)
    ensures NewTestCriteria(c).Ok? <==> Valid(c)
    ensures NewTestCriteria(c).Ok? ==> NewTestCriteria(c).value == c
  {
  }

  /** A criteria type outside the allowed five is always refused. */
  lemma UnknownTypeRefused(c: TestCriteria)
    requires c.criteriaType !in AllowedCriteriaTypes
    ensures NewTestCriteria(c) == Err(TestCriteriaError("criteria_type must be one of the allowed types"))
  {
  }

  /**
   * `evaluate(value)`. A missing bound is compared with None, which raises TypeError;
   * for a range the lower comparison happens first and short-circuits.
   */
  function Evaluate(c: TestCriteria, v: real): (r: Result<bool>)
    ensures r.Err? ==> (r.error.TestCriteriaError? <==> c.criteriaType !in AllowedCriteriaTypes)
    ensures r.Err? ==> r.error.TestCriteriaError? || r.error.TypeError?
  {
    if c.criteriaType == "range" then
      if c.minValue.None? then Err(TypeError)
      else if !(c.minValue.value <= v) then Ok(false)
      else if c.maxValue.None? then Err(TypeError)
      else Ok(v <= c.maxValue.value)
    else if IsLowerBoundType(c.criteriaType) then
      if c.minValue.None? then Err(TypeError) else Ok(v >= c.minValue.value)
    else if IsUpperBoundType(c.criteriaType) then
      if c.maxValue.None? then Err(TypeError) else Ok(v <= c.maxValue.value)
    else
      Err(TestCriteriaError("Unknown criteria_type"))
  }

  /** On a constructed criterion `evaluate` never raises: the unknown-type branch is unreachable. */
  lemma EvaluateTotal(c: TestCriteria, v: real)
    requires NewTestCriteria(c).Ok?
    ensures Evaluate(c, v).Ok?
  {
    NewTestCriteriaIffValid(c);
  }

  /** A range accepts exactly the closed interval [min, max]: both ends included. */
  lemma RangeIsInclusive(c: TestCriteria, v: real)
    requires Valid(c) && c.criteriaType == "range"
    ensures Evaluate(c, v) == Ok(c.minValue.value <= v <= c.maxValue.value)
    ensures Evaluate(c, c.minValue.value) == Ok(true) && Evaluate(c, c.maxValue.value) == Ok(true)
  {
  }

  /** min / greater_than_equal accept exactly the values at or above min_value. */
  lemma LowerBoundSemantics(c: TestCriteria, v: real)
    requires Valid(c) && IsLowerBoundType(c.criteriaType)
    ensures Evaluate(c, v) == Ok(v >= c.minValue.value)
  {
  }

  /** max / less_than_equal accept exactly the values at or below max_value. */
  lemma UpperBoundSemantics(c: TestCriteria, v: real)
    requires Valid(c) && IsUpperBoundType(c.criteriaType)
    ensures Evaluate(c, v) == Ok(v <= c.maxValue.value)
  {
  }
}
