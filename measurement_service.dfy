/**
 * MeasurementService: loading Touchstone files for a selected device. One file
 * becomes a Measurement built from the metadata its name carries; a batch of 2
 * (standard) or 4 (multi-gain) files is loaded in order, tagged with the
 * selected temperature, and checked for consistent serial numbers. The device
 * table is an in-memory sequence, and reading a file's network is a parameter.
 */
module MeasurementService {
  import opened Exceptions
  import opened RfNetwork
  import opened Measurements
  import Devices
  import FilenameParser

  /** Reading the network of a file (`load_file`), which fails with FileLoadError on I/O or format problems. */
  type NetworkLoader = string -> Result<Network>

  /** The warnings the service returns; their wording is left to the display. */
  datatype Warning =
    | PartNumberMismatch(filenamePartNumber: string, devicePartNumber: string)
    | SerialNumberMismatch(serialNumbers: set<string>)
    | TemperatureMismatch(temperatures: set<string>, expected: string)
    | TemperatureNotSelected(temperatures: set<string>, expected: string)

  /** A loaded file: the measurement (not yet saved) and the part-number warning, if any. */
  datatype Loaded = Loaded(measurement: Measurement, warning: Option<Warning>)

  /** What `load_multiple_files` returns: the measurements in file order and the warnings. */
  datatype Batch = Batch(measurements: seq<Measurement>, warnings: seq<Warning>)

  /** `device_repo.get_by_id(device.id) is not None`. */
  predicate DeviceStored(devices: seq<Devices.Device>, id: Id)
  {
    exists k :: 0 <= k < |devices| && devices[k].id == id
  }

  // ---------------------------------------------------------------- one file

  /**
   * The part-number check of `load_measurement_file`: a warning when the file name
   * carries a (non-empty) part number that is not the device's.
   */
  function PartNumberWarning(filenamePartNumber: Option<string>, devicePartNumber: string): (r: Option<Warning>)
    ensures r.Some? <==> filenamePartNumber.Some? && filenamePartNumber.value != "" && filenamePartNumber.value != devicePartNumber
    ensures r.Some? ==> r.value == PartNumberMismatch(filenamePartNumber.value, devicePartNumber)
  {
    if filenamePartNumber.Some? && filenamePartNumber.value != "" && filenamePartNumber.value != devicePartNumber then
      Some(PartNumberMismatch(filenamePartNumber.value, devicePartNumber))
    else None
  }

  /** The string-valued keys of the parsed metadata dictionary, stored with the measurement. */
  function MetadataMap(p: FilenameParser.ParsedName): map<string, string>
  {
    var m := p.metadata;
    (if m.serialNumber.Some? then map["serial_number" := m.serialNumber.value] else map[])
    + (if m.partNumber.Some? then map["part_number" := m.partNumber.value] else map[])
    + (if m.pathType.Some? then map["path_type" := m.pathType.value] else map[])
    + (if m.temperature.Some? then map["temperature" := m.temperature.value] else map[])
    + (if m.testType.Some? then map["test_type" := m.testType.value] else map[])
    + (if m.runNumber.Some? then map["run_number" := m.runNumber.value] else map[])
    + map["filename" := p.filename, "file_path" := p.filePath]
  }

  /**
   * `load_measurement_file`: the device must be stored; the network is read, then the
   * name parsed; the Measurement takes its fields from the metadata (test type
   * "S-Parameters" when the name gives no hint) and the stage from the caller.
   */
  function LoadMeasurementFile(devices: seq<Devices.Device>, loadFile: NetworkLoader, id: Id,
                               filepath: string, device: Devices.Device, testStage: string): (r: Result<Loaded>)
    ensures !DeviceStored(devices, device.id) ==> r == Err(DeviceNotFoundError)
    ensures DeviceStored(devices, device.id) && loadFile(filepath).Err? ==> r == Err(loadFile(filepath).error)
    ensures DeviceStored(devices, device.id) && loadFile(filepath).Ok? && FilenameParser.ParseOf(filepath).Err? ==>
              r == Err(FilenameParser.ParseOf(filepath).error)
  {
    if !DeviceStored(devices, device.id) then Err(DeviceNotFoundError)
    else
      var network :- loadFile(filepath);
      var parsed :- FilenameParser.ParseOf(filepath);
      var md := parsed.metadata;
      var m :- NewMeasurement(id, device.id, md.serialNumber.value, if md.testType.Some? then md.testType.value else "S-Parameters",
                              testStage, md.temperature.value, md.pathType.value, parsed.filePath, md.date.value,
                              Some(network), Some(MetadataMap(parsed)));
      Ok(Loaded(m, PartNumberWarning(md.partNumber, device.partNumber)))
  }

  /**
   * Once the device is stored, the file read and its name parsed, loading succeeds: the
   * Measurement's validators accept what the parser produces. The measurement carries
   * the parsed fields, and a warning comes exactly when the parsed part number is not
   * the device's.
   */
  lemma LoadMeasurementFileSpec(devices: seq<Devices.Device>, loadFile: NetworkLoader, id: Id,
                                filepath: string, device: Devices.Device, testStage: string)
    requires DeviceStored(devices, device.id) && loadFile(filepath).Ok? && FilenameParser.ParseOf(filepath).Ok?
    ensures var r := LoadMeasurementFile(devices, loadFile, id, filepath, device, testStage);
            var md := FilenameParser.ParseOf(filepath).value.metadata;
            && r.Ok?
            && r.value.measurement.id == id
            && r.value.measurement.deviceId == device.id
            && r.value.measurement.testStage == testStage
            && r.value.measurement.filePath == filepath
            && Some(r.value.measurement.serialNumber) == md.serialNumber
            && Some(r.value.measurement.temperature) == md.temperature
            && Some(r.value.measurement.pathType) == md.pathType
            && Some(r.value.measurement.measurementDate) == md.date
            && r.value.measurement.touchstone == Some(loadFile(filepath).value)
            && r.value.measurement.testType == (if md.testType.Some? then md.testType.value else "S-Parameters")
            && (r.value.warning.Some? <==> md.partNumber.value != device.partNumber)
  {
  }

  /** `validate_part_number_match`: (True, None) when the two are equal, else (False, a warning). */
  function ValidatePartNumberMatch(filenamePartNumber: string, devicePartNumber: string): (r: (bool, Option<Warning>))
    ensures r.0 <==> filenamePartNumber == devicePartNumber
    ensures r.1.None? <==> r.0
    ensures r.1.Some? ==> r.1.value == PartNumberMismatch(filenamePartNumber, devicePartNumber)
  {
    if filenamePartNumber != devicePartNumber then (false, Some(PartNumberMismatch(filenamePartNumber, devicePartNumber)))
    else (true, None)
  }

  /** For a non-empty file-name part number the two checks agree: a warning exactly on a mismatch. */
  lemma PartNumberChecksAgree(filenamePartNumber: string, devicePartNumber: string)
    requires filenamePartNumber != ""
    ensures PartNumberWarning(Some(filenamePartNumber), devicePartNumber) == ValidatePartNumberMatch(filenamePartNumber, devicePartNumber).1
  {
  }

  // ---------------------------------------------------------------- a batch of files

  /** The file count a device's mode demands, checked as `load_multiple_files` does before loading. */
  function CountCheck(n: nat, multiGainMode: bool): (r: Option<Error>)
    ensures r.None? <==> n == (if multiGainMode then 4 else 2)
    ensures r.Some? ==> r.value.ValidationError?
  {
    if n != 2 && n != 4 then Some(ValidationError("Expected 2 or 4 files"))
    else if multiGainMode && n != 4 then Some(ValidationError("Device has Multi-Gain-Mode enabled but only 2 files provided"))
    else if !multiGainMode && n != 2 then Some(ValidationError("Device does not have Multi-Gain-Mode but 4 files provided"))
    else None
  }

  /** Loading one file of a batch under a given id, for a fixed device table, reader, device and stage. */
  type FileLoader = (Id, string) -> Result<Loaded>

  function FileLoaderOf(devices: seq<Devices.Device>, loadFile: NetworkLoader, device: Devices.Device, testStage: string): FileLoader
  {
    (id: Id, filepath: string) => LoadMeasurementFile(devices, loadFile, id, filepath, device, testStage)
  }

  /** The files loaded in order under their ids; the first failure is the failure of the batch. */
  function LoadAll(load: FileLoader, ids: seq<Id>, filepaths: seq<string>): Result<seq<Loaded>>
    requires |ids| == |filepaths|
  {
    if filepaths == [] then Ok([])
    else
      var n := |filepaths| - 1;
      var pre :- LoadAll(load, ids[..n], filepaths[..n]);
      var last :- load(ids[n], filepaths[n]);
      Ok(pre + [last])
  }

  /** Each loaded measurement with its temperature replaced by the selected one. */
  function Retagged(loaded: seq<Loaded>, temperature: string): (r: seq<Measurement>)
    ensures |r| == |loaded|
    ensures forall i :: 0 <= i < |r| ==> r[i] == loaded[i].measurement.(temperature := temperature)
  {
    if loaded == [] then []
    else Retagged(loaded[..|loaded| - 1], temperature) + [loaded[|loaded| - 1].measurement.(temperature := temperature)]
  }

  /** The part-number warnings of the files, in file order. */
  function PartWarnings(loaded: seq<Loaded>): seq<Warning>
  {
    if loaded == [] then []
    else
      var last := loaded[|loaded| - 1];
      PartWarnings(loaded[..|loaded| - 1]) + (if last.warning.Some? then [last.warning.value] else [])
  }

  function SerialsOf(ms: seq<Measurement>): (r: set<string>)
    ensures forall x :: x in r <==> exists i :: 0 <= i < |ms| && ms[i].serialNumber == x
  {
    set i | 0 <= i < |ms| :: ms[i].serialNumber
  }

  function TemperaturesOf(ms: seq<Measurement>): (r: set<string>)
    ensures forall x :: x in r <==> exists i :: 0 <= i < |ms| && ms[i].temperature == x
  {
    set i | 0 <= i < |ms| :: ms[i].temperature
  }

  /** The serial-number check after loading: a warning when more than one serial number was seen. */
  function SerialWarnings(serials: set<string>): (r: seq<Warning>)
    ensures r != [] <==> |serials| > 1
    ensures r == [] || r == [SerialNumberMismatch(serials)]
  {
    if |serials| > 1 then [SerialNumberMismatch(serials)] else []
  }

  lemma AtMostOne(s: set<string>, x: string)
    requires |s| <= 1 && x in s
    ensures s == {x}
  {
    assert |s - {x}| == |s| - 1;
    assert s - {x} == {};
  }

  /** The temperature checks after loading, as written: more than one seen, or one that is not the selected one. */
  function TemperatureWarnings(temperatures: set<string>, temperature: string): (r: seq<Warning>)
    ensures r == [] <==> temperatures == {} || temperatures == {temperature}
  {
    if |temperatures| > 1 then [TemperatureMismatch(temperatures, temperature)]
    else if temperatures != {} && temperature !in temperatures then [TemperatureNotSelected(temperatures, temperature)]
    else
      assert temperatures != {} ==> temperatures == {temperature} by {
        if temperatures != {} { AtMostOne(temperatures, temperature); }
      }
      []
  }

  /** A batch once the count is accepted: the files loaded, retagged, and checked. */
  function Checked(load: FileLoader, ids: seq<Id>, filepaths: seq<string>, temperature: string): Result<Batch>
    requires |ids| == |filepaths|
  {
    var loaded :- LoadAll(load, ids, filepaths);
    var ms := Retagged(loaded, temperature);
    Ok(Batch(ms, PartWarnings(loaded) + SerialWarnings(SerialsOf(ms)) + TemperatureWarnings(TemperaturesOf(ms), temperature)))
  }

  /** What `load_multiple_files` returns or raises. */
  function BatchOf(devices: seq<Devices.Device>, loadFile: NetworkLoader, ids: seq<Id>, filepaths: seq<string>,
                   device: Devices.Device, testStage: string, temperature: string): (r: Result<Batch>)
    requires |ids| == |filepaths|
    ensures CountCheck(|filepaths|, device.multiGainMode).Some? ==> r == Err(CountCheck(|filepaths|, device.multiGainMode).value)
  {
    var check := CountCheck(|filepaths|, device.multiGainMode);
    if check.Some? then Err(check.value)
    else Checked(FileLoaderOf(devices, loadFile, device, testStage), ids, filepaths, temperature)
  }

  /**
   * `load_multiple_files`: the count checked against the device's mode, then each file
   * loaded in turn, its temperature overwritten with the selected one, its warning kept,
   * its serial number and temperature collected; finally the consistency checks.
   */
  method LoadMultipleFiles(devices: seq<Devices.Device>, loadFile: NetworkLoader, ids: seq<Id>, filepaths: seq<string>,
                           device: Devices.Device, testStage: string, temperature: string) returns (r: Result<Batch>)
    requires |ids| == |filepaths|
    ensures r == BatchOf(devices, loadFile, ids, filepaths, device, testStage, temperature)
  {
    var check := CountCheck(|filepaths|, device.multiGainMode);
    if check.Some? {
      return Err(check.value);
    }
    var load := FileLoaderOf(devices, loadFile, device, testStage);
    var measurements: seq<Measurement> := [];
    var warnings: seq<Warning> := [];
    var serialNumbers: set<string> := {};
    var temperatures: set<string> := {};
    ghost var loaded: seq<Loaded> := [];
    for i := 0 to |filepaths|
      invariant LoadAll(load, ids[..i], filepaths[..i]) == Ok(loaded)
      invariant measurements == Retagged(loaded, temperature)
      invariant warnings == PartWarnings(loaded)
      invariant serialNumbers == SerialsOf(measurements)
      invariant temperatures == TemperaturesOf(measurements)
    {
      var file := load(ids[i], filepaths[i]);
      if file.Err? {
        LoadAllStep(load, ids, filepaths, i);
        LoadAllAbort(load, ids, filepaths, i + 1);
        return Err(file.error);
      }
      LoadedStep(load, ids, filepaths, i, loaded, file.value, temperature);
      var m := file.value.measurement.(temperature := temperature);
      if file.value.warning.Some? {
        warnings := warnings + [file.value.warning.value];
      }
      serialNumbers := serialNumbers + {m.serialNumber};
      temperatures := temperatures + {m.temperature};
      SetsStep(measurements, m);
      measurements := measurements + [m];
      loaded := loaded + [file.value];
    }
    assert ids[..|filepaths|] == ids && filepaths[..|filepaths|] == filepaths;
    var checks := ConsistencyWarnings(serialNumbers, temperatures, temperature);
    BatchOfLoaded(devices, loadFile, ids, filepaths, device, testStage, temperature, loaded);
    r := Ok(Batch(measurements, warnings + checks));
  }

  /** Once every file has loaded, the batch is the retagged measurements with all their warnings. */
  lemma BatchOfLoaded(devices: seq<Devices.Device>, loadFile: NetworkLoader, ids: seq<Id>, filepaths: seq<string>,
                      device: Devices.Device, testStage: string, temperature: string, loaded: seq<Loaded>)
    requires |ids| == |filepaths| && CountCheck(|filepaths|, device.multiGainMode).None?
    requires LoadAll(FileLoaderOf(devices, loadFile, device, testStage), ids, filepaths) == Ok(loaded)
    ensures var ms := Retagged(loaded, temperature);
            BatchOf(devices, loadFile, ids, filepaths, device, testStage, temperature)
              == Ok(Batch(ms, PartWarnings(loaded) + (SerialWarnings(SerialsOf(ms)) + TemperatureWarnings(TemperaturesOf(ms), temperature))))
  {
    var ms := Retagged(loaded, temperature);
    var w1, w2, w3 := PartWarnings(loaded), SerialWarnings(SerialsOf(ms)), TemperatureWarnings(TemperaturesOf(ms), temperature);
    assert w1 + w2 + w3 == w1 + (w2 + w3);
  }

  /** The checks after the loop of `load_multiple_files`: serial numbers first, then temperatures. */
  method ConsistencyWarnings(serialNumbers: set<string>, temperatures: set<string>, temperature: string)
    returns (warnings: seq<Warning>)
    ensures warnings == SerialWarnings(serialNumbers) + TemperatureWarnings(temperatures, temperature)
  {
    warnings := [];
    if |serialNumbers| > 1 {
      warnings := warnings + [SerialNumberMismatch(serialNumbers)];
    }
    if |temperatures| > 1 {
      warnings := warnings + [TemperatureMismatch(temperatures, temperature)];
    } else if temperatures != {} && temperature !in temperatures {
      warnings := warnings + [TemperatureNotSelected(temperatures, temperature)];
    }
  }

  /** One more file loaded: the loaded prefix, its retagged measurements and its warnings each grow by that file. */
  lemma LoadedStep(load: FileLoader, ids: seq<Id>, filepaths: seq<string>, i: nat, loaded: seq<Loaded>, x: Loaded, temperature: string)
    requires |ids| == |filepaths| && i < |filepaths|
    requires LoadAll(load, ids[..i], filepaths[..i]) == Ok(loaded) && load(ids[i], filepaths[i]) == Ok(x)
    ensures LoadAll(load, ids[..i + 1], filepaths[..i + 1]) == Ok(loaded + [x])
    ensures Retagged(loaded + [x], temperature) == Retagged(loaded, temperature) + [x.measurement.(temperature := temperature)]
    ensures PartWarnings(loaded + [x]) == PartWarnings(loaded) + (if x.warning.Some? then [x.warning.value] else [])
  {
    LoadAllStep(load, ids, filepaths, i);
    assert (loaded + [x])[..|loaded|] == loaded;
  }

  lemma LoadAllStep(load: FileLoader, ids: seq<Id>, filepaths: seq<string>, i: nat)
    requires |ids| == |filepaths| && i < |filepaths|
    ensures LoadAll(load, ids[..i + 1], filepaths[..i + 1])
            == (var pre :- LoadAll(load, ids[..i], filepaths[..i]);
                var last :- load(ids[i], filepaths[i]);
                Ok(pre + [last]))
  {
    assert ids[..i + 1][..i] == ids[..i] && filepaths[..i + 1][..i] == filepaths[..i];
  }

  /** A failure among the first `k` files is the failure of the batch. */
  lemma {:induction false} LoadAllAbort(load: FileLoader, ids: seq<Id>, filepaths: seq<string>, k: nat)
    requires |ids| == |filepaths| && k <= |filepaths|
    requires LoadAll(load, ids[..k], filepaths[..k]).Err?
    ensures LoadAll(load, ids, filepaths) == LoadAll(load, ids[..k], filepaths[..k])
    decreases |filepaths| - k
  {
    if k < |filepaths| {
      LoadAllStep(load, ids, filepaths, k);
      LoadAllAbort(load, ids, filepaths, k + 1);
    } else {
      assert ids[..k] == ids && filepaths[..k] == filepaths;
    }
  }

  lemma SetsStep(ms: seq<Measurement>, m: Measurement)
    ensures SerialsOf(ms + [m]) == SerialsOf(ms) + {m.serialNumber}
    ensures TemperaturesOf(ms + [m]) == TemperaturesOf(ms) + {m.temperature}
  {
    var ms' := ms + [m];
    assert ms'[|ms|] == m;
    forall x | x in SerialsOf(ms) ensures x in SerialsOf(ms') {
      var i :| 0 <= i < |ms| && ms[i].serialNumber == x;
      assert ms'[i] == ms[i];
    }
    forall x | x in TemperaturesOf(ms) ensures x in TemperaturesOf(ms') {
      var i :| 0 <= i < |ms| && ms[i].temperature == x;
      assert ms'[i] == ms[i];
    }
  }

  // ---------------------------------------------------------------- properties of a batch

  /** The loaded files correspond one to one, in order, to the paths. */
  lemma {:induction false} LoadAllSpec(load: FileLoader, ids: seq<Id>, filepaths: seq<string>)
    requires |ids| == |filepaths|
    ensures LoadAll(load, ids, filepaths).Ok? <==> forall i :: 0 <= i < |filepaths| ==> load(ids[i], filepaths[i]).Ok?
    ensures LoadAll(load, ids, filepaths).Ok? ==>
              && |LoadAll(load, ids, filepaths).value| == |filepaths|
              && forall i :: 0 <= i < |filepaths| ==> LoadAll(load, ids, filepaths).value[i] == load(ids[i], filepaths[i]).value
  {
    if filepaths != [] {
      var n := |filepaths| - 1;
      LoadAllSpec(load, ids[..n], filepaths[..n]);
      assert forall i :: 0 <= i < n ==> ids[..n][i] == ids[i] && filepaths[..n][i] == filepaths[i];
    }
  }

  /**
   * A batch is accepted only with the number of files the device's mode demands; it has
   * one measurement per file, in file order, each loaded from its file and tagged with
   * the selected temperature.
   */
  lemma BatchSpec(devices: seq<Devices.Device>, loadFile: NetworkLoader, ids: seq<Id>, filepaths: seq<string>,
                  device: Devices.Device, testStage: string, temperature: string)
    requires |ids| == |filepaths|
    ensures var r := BatchOf(devices, loadFile, ids, filepaths, device, testStage, temperature);
            && (|filepaths| != 2 && |filepaths| != 4 ==> r.Err? && r.error.ValidationError?)
            && (r.Ok? ==> |filepaths| == (if device.multiGainMode then 4 else 2))
            && (r.Ok? ==> |r.value.measurements| == |filepaths|
                          && forall i :: 0 <= i < |filepaths| ==>
                               && LoadMeasurementFile(devices, loadFile, ids[i], filepaths[i], device, testStage).Ok?
                               && r.value.measurements[i]
                                  == LoadMeasurementFile(devices, loadFile, ids[i], filepaths[i], device, testStage).value.measurement.(temperature := temperature))
  {
    LoadAllSpec(FileLoaderOf(devices, loadFile, device, testStage), ids, filepaths);
  }

  /**
   * Because every measurement is tagged with the selected temperature before the check,
   * neither temperature warning can be produced: the warnings are the part-number
   * warnings in file order, then the serial-number warning exactly when more than one
   * serial number was loaded.
   */
  lemma CheckedWarnings(load: FileLoader, ids: seq<Id>, filepaths: seq<string>, temperature: string)
    requires |ids| == |filepaths| && filepaths != []
    requires Checked(load, ids, filepaths, temperature).Ok?
    ensures var b := Checked(load, ids, filepaths, temperature).value;
            && TemperaturesOf(b.measurements) == {temperature}
            && b.warnings == PartWarnings(LoadAll(load, ids, filepaths).value) + SerialWarnings(SerialsOf(b.measurements))
  {
    var b := Checked(load, ids, filepaths, temperature).value;
    LoadAllSpec(load, ids, filepaths);
    assert b.measurements[0].temperature == temperature;
    assert TemperaturesOf(b.measurements) == {temperature};
  }

  /** Loading a file yields at most a part-number warning, so the only other warning a batch can carry is the serial one. */
  lemma {:induction false} PartWarningsKinds(loaded: seq<Loaded>)
    requires forall i :: 0 <= i < |loaded| ==> loaded[i].warning.None? || loaded[i].warning.value.PartNumberMismatch?
    ensures forall w :: w in PartWarnings(loaded) ==> w.PartNumberMismatch?
  {
    if loaded != [] {
      PartWarningsKinds(loaded[..|loaded| - 1]);
    }
  }
}
