/**
 * A loaded measurement file (Measurement): its identification, conditions,
 * date and network, with the two field validators.
 */
module Measurements {
  import opened Exceptions
  import opened RfNetwork

  /** A calendar date (`datetime.date`). */
  datatype Date = Date(year: int, month: int, day: int)

  predicate IsLeapYear(y: int)
  {
    y % 4 == 0 && (y % 100 != 0 || y % 400 == 0)
  }

  function DaysInMonth(y: int, m: int): (d: int)
    requires 1 <= m <= 12
    ensures 28 <= d <= 31
  {
    if m == 2 then (if IsLeapYear(y) then 29 else 28)
    else if m == 4 || m == 6 || m == 9 || m == 11 then 30
    else 31
  }

  /** What `date(year, month, day)` accepts: years 1..9999 and a day that exists in that month. */
  predicate IsValidDate(y: int, m: int, d: int)
  {
    1 <= y <= 9999 && 1 <= m <= 12 && 1 <= d <= DaysInMonth(y, m)
  }

  const AllowedTemperatures: set<string> := {"AMB", "HOT", "COLD"}

  const AllowedPathTypes: set<string> := {"PRI", "RED", "PRI_HG", "PRI_LG", "RED_HG", "RED_LG"}

  datatype Measurement = Measurement(
    id: Id,
    deviceId: Id,
    serialNumber: string,
    testType: string,
    testStage: string,
    temperature: string,
    pathType: string,
    filePath: string,
    measurementDate: Date,
    touchstone: Option<Network>,    // None models `touchstone_data=None`
    metadata: map<string, string>)

  /** `validate_temperature`: AMB, HOT or COLD, returned unchanged; anything else is ValueError. */
  function ValidateTemperature(v: string): (r: Result<string>)
    ensures r.Ok? <==> v in AllowedTemperatures
    ensures r.Ok? ==> r.value == v
    ensures r.Err? ==> r.error.ValueError?
  {
    if v !in AllowedTemperatures then Err(ValueError("temperature must be one of AMB, HOT, COLD, got: " + v))
    else Ok(v)
  }

  /** `validate_path_type`: one of the six path types, returned unchanged; anything else is ValueError. */
  function ValidatePathType(v: string): (r: Result<string>)
    ensures r.Ok? <==> v in AllowedPathTypes
    ensures r.Ok? ==> r.value == v
    ensures r.Err? ==> r.error.ValueError?
  {
    if v !in AllowedPathTypes then Err(ValueError("path_type must be one of PRI, RED, PRI_HG, PRI_LG, RED_HG, RED_LG, got: " + v))
    else Ok(v)
  }

  /**
   * Constructing a Measurement: both validators run and any failure is a ValueError;
   * omitting `metadata` gives the empty map.
   */
  function NewMeasurement(id: Id, deviceId: Id, serialNumber: string, testType: string, testStage: string,
                          temperature: string, pathType: string, filePath: string, measurementDate: Date,
                          touchstone: Option<Network>, metadata: Option<map<string, string>>): (r: Result<Measurement>)
    ensures r.Ok? <==> temperature in AllowedTemperatures && pathType in AllowedPathTypes
    ensures r.Err? ==> r.error.ValueError?
    ensures r.Ok? ==> r.value.temperature == temperature && r.value.pathType == pathType
                      && r.value.serialNumber == serialNumber && r.value.touchstone == touchstone
    ensures r.Ok? && metadata.None? ==> r.value.metadata == map[]
  {
    var t := ValidateTemperature(temperature);
    var p := ValidatePathType(pathType);
    if t.Err? then Err(t.error)
    else if p.Err? then Err(p.error)
    else Ok(Measurement(id, deviceId, serialNumber, testType, testStage, t.value, p.value, filePath,
                        measurementDate, touchstone, if metadata.Some? then metadata.value else map[]))
  }

  /** February has 29 days exactly in leap years: 2024-02-29 exists, 2023-02-29 and 1900-02-29 do not. */
  lemma LeapDays()
    ensures IsValidDate(2024, 2, 29) && !IsValidDate(2023, 2, 29) && !IsValidDate(1900, 2, 29) && IsValidDate(2000, 2, 29)
  {
  }
}
