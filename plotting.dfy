/**
 * PlottingService: which stored measurements a plot shows, the traces drawn
 * from each (gain, VSWR or return loss per S-parameter), the shared serial
 * number and dates, the axis label, and the pass region taken from the
 * stage's criteria. Rendering is not modelled; a trace keeps its numbers.
 */
module Plotting {
  import opened Exceptions
  import opened RfNetwork
  import opened Measurements
  import opened Criteria
  import Text
  import Sorting
  import Devices
  import Calculator
  import SParameters
  import Compliance

  /** One line of a plot. `port` is 0 for a gain trace. */
  datatype PlotTrace = PlotTrace(
    traceLabel: string,
    sParameter: string,
    port: int,
    frequencies: seq<real>,   // GHz
    values: seq<real>,
    temperature: string,
    pathType: string)

  /** The band shaded as passing, with the limits that apply inside it. */
  datatype PassRegion = PassRegion(freqMin: real, freqMax: real, valueMin: Option<real>, valueMax: Option<real>)

  datatype PlotData = PlotData(
    plotType: string,
    deviceName: string,
    serialNumber: string,
    testStage: string,
    measurementDates: seq<string>,
    traces: seq<PlotTrace>,
    freqMin: real,
    freqMax: real,
    passRegion: Option<PassRegion>,
    xLabel: string,
    yLabel: string)

  /** What the plot type names, read from its lower-cased text. */
  datatype PlotKind = PlotKind(vswr: bool, returnLoss: bool, wideband: bool)
  {
    /** VSWR and return-loss plots draw one trace per port; the others draw gains. */
    predicate PerPort() { vswr || returnLoss }
  }

  function KindOf(plotType: string): PlotKind
  {
    var t := Text.Lower(plotType);
    PlotKind(Text.Contains(t, "vswr"), Text.Contains(t, "return loss"), Text.Contains(t, "wideband"))
  }

  const XLabel: string := "Frequency (GHz)"

  /** `_get_y_label`: return loss before VSWR, VSWR before gain. */
  function YLabel(isVswrPlot: bool, isReturnLossPlot: bool): (r: string)
    ensures isReturnLossPlot ==> r == "Return Loss (dB)"
    ensures !isReturnLossPlot && isVswrPlot ==> r == "VSWR"
    ensures !isReturnLossPlot && !isVswrPlot ==> r == "Gain (dB)"
  {
    if isReturnLossPlot then "Return Loss (dB)"
    else if isVswrPlot then "VSWR"
    else "Gain (dB)"
  }

  /** The band of the plot: the wideband band for wideband plots, otherwise the operational band (GHz). */
  function Band(d: Devices.Device, wideband: bool): (r: (real, real))
    ensures Devices.Valid(d) ==> 0.0 < r.0 < r.1
  {
    if wideband then (d.widebandFreqMin, d.widebandFreqMax) else (d.operationalFreqMin, d.operationalFreqMax)
  }

  // ---------------------------------------------------------------- which measurements

  /** The condition of `_filter_measurements`: an empty selection admits everything. */
  predicate Admitted(m: Measurement, d: Devices.Device, temperatures: set<string>, paths: set<string>)
    ensures |temperatures| == 0 && |paths| == 0 ==>
              (Admitted(m, d, temperatures, paths) <==> m.deviceId == d.id && m.testType == "S-Parameters")
    ensures Admitted(m, d, temperatures, paths) ==> m.deviceId == d.id
  {
    && m.deviceId == d.id
    && m.testType == "S-Parameters"
    && (|temperatures| == 0 || m.temperature in temperatures)
    && (|paths| == 0 || m.pathType in paths)
  }

  /** `_filter_measurements`: the admitted measurements, in their order. */
  function FilterMeasurements(ms: seq<Measurement>, d: Devices.Device, temperatures: set<string>, paths: set<string>)
    : (r: seq<Measurement>)
    ensures forall m :: m in r <==> m in ms && Admitted(m, d, temperatures, paths)
    ensures |r| <= |ms|
  {
    if ms == [] then []
    else
      var last := ms[|ms| - 1];
      FilterMeasurements(ms[..|ms| - 1], d, temperatures, paths) + (if Admitted(last, d, temperatures, paths) then [last] else [])
  }

  /** Filtering keeps the order: the filter of two lists is the filter of the first, then of the second. */
  lemma {:induction false} FilterMeasurementsAppend(a: seq<Measurement>, b: seq<Measurement>, d: Devices.Device,
                                                    temperatures: set<string>, paths: set<string>)
    ensures FilterMeasurements(a + b, d, temperatures, paths)
            == FilterMeasurements(a, d, temperatures, paths) + FilterMeasurements(b, d, temperatures, paths)
  {
    if b != [] {
      var n := |b| - 1;
      FilterMeasurementsAppend(a, b[..n], d, temperatures, paths);
      assert (a + b)[..|a + b| - 1] == a + b[..n];
    } else {
      assert a + b == a;
    }
  }

  function SerialsOf(ms: seq<Measurement>): (r: set<string>)
    ensures forall x :: x in r <==> exists i :: 0 <= i < |ms| && ms[i].serialNumber == x
  {
    set i | 0 <= i < |ms| :: ms[i].serialNumber
  }

  /** The measurements of one serial number, in their order. */
  function WithSerial(ms: seq<Measurement>, serial: string): (r: seq<Measurement>)
    ensures forall m :: m in r <==> m in ms && m.serialNumber == serial
  {
    if ms == [] then []
    else
      var last := ms[|ms| - 1];
      WithSerial(ms[..|ms| - 1], serial) + (if last.serialNumber == serial then [last] else [])
  }

  /** The measurements of a serial number that occurs among them are not none. */
  lemma {:induction false} WithSerialNonEmpty(ms: seq<Measurement>, serial: string)
    requires serial in SerialsOf(ms)
    ensures WithSerial(ms, serial) != []
  {
    var i :| 0 <= i < |ms| && ms[i].serialNumber == serial;
    assert ms[i] in WithSerial(ms, serial);
  }

  /** `f"{n:0{width}d}"` for a natural number. */
  function ZeroPadded(n: nat, width: nat): (r: string)
    ensures var digits := Text.NatToString(n);
            && |r| >= width && |r| >= |digits|
            && (|r| == width || r == digits)
            && r[|r| - |digits|..] == digits
            && forall i :: 0 <= i < |r| - |digits| ==> r[i] == '0'
  {
    var digits := Text.NatToString(n);
    if |digits| >= width then digits else seq(width - |digits|, _ => '0') + digits
  }

  /** Zero-padding does not change the number the digits spell. */
  lemma ZeroPaddedValue(n: nat, width: nat)
    ensures var r := ZeroPadded(n, width);
            && (forall i :: 0 <= i < |r| ==> Text.IsDigit(r[i]))
            && Text.DigitsValue(r) == n
  {
    var r := ZeroPadded(n, width);
    var digits := Text.NatToString(n);
    var zeros := r[..|r| - |digits|];
    assert r == zeros + digits;
    Text.LeadingZeros(zeros, digits);
    Text.DigitsValueOfNatToString(n);
  }

  /** `str(date)`: the ISO form YYYY-MM-DD. */
  function IsoDate(d: Date): string
  {
    var y := if d.year < 0 then 0 else d.year;
    var m := if d.month < 0 then 0 else d.month;
    var dd := if d.day < 0 then 0 else d.day;
    ZeroPadded(y, 4) + "-" + ZeroPadded(m, 2) + "-" + ZeroPadded(dd, 2)
  }

  function DatesOf(ms: seq<Measurement>): (r: seq<string>)
    ensures |r| == |ms| && forall i :: 0 <= i < |ms| ==> r[i] == IsoDate(ms[i].measurementDate)
  {
    seq(|ms|, i requires 0 <= i < |ms| => IsoDate(ms[i].measurementDate))
  }

  // ---------------------------------------------------------------- labels and ports

  /** `[f"S{p}{p}" for p in range(1, nports + 1)]`: every port of the network, whatever the device says. */
  function PortLabels(nports: nat): (r: seq<string>)
    ensures |r| == nports
    ensures forall k :: 0 <= k < nports ==> r[k] == Devices.Label(k + 1, k + 1)
  {
    seq(nports, k requires 0 <= k < nports => Devices.Label(k + 1, k + 1))
  }

  /** `get_available_s_parameters`: all reflection labels of the network for VSWR, the device's gain labels otherwise. */
  function AvailableSParameters(d: Devices.Device, net: Network, isVswrPlot: bool): (r: seq<string>)
    ensures isVswrPlot ==> r == PortLabels(net.nports)
    ensures !isVswrPlot ==> r == SParameters.GainLabels(d, net.nports)
  {
    if isVswrPlot then PortLabels(net.nports) else SParameters.GainLabels(d, net.nports)
  }

  /**
   * `re.match(r"S(\d+)(\d+)", s)` and `int(group(1))`: both groups are greedy digit runs,
   * so the first takes every digit of the leading run but the last.
   */
  function PortOfLabel(sp: string): (r: Option<int>)
    ensures r.Some? ==> r.value >= 0
  {
    if |sp| < 3 || sp[0] != 'S' then None
    else
      var e := Text.DigitRunEnd(sp, 1);
      if e < 3 then None else Some(Text.DigitsValue(sp[1..e - 1]))
  }

  /** For the labels of ports 1 to 9 the port read back is the port. */
  lemma PortOfReflectionLabel(p: int)
    requires 1 <= p <= 9
    ensures PortOfLabel(Devices.Label(p, p)) == Some(p)
  {
    Devices.SingleDigitLabel(p, p);
    var l := Devices.Label(p, p);
    assert Text.DigitRunEnd(l, 3) == 3;
    assert Text.DigitRunEnd(l, 2) == 3;
    assert Text.DigitRunEnd(l, 1) == 3;
    assert l[1..2] == [Text.DigitChar(p)];
    assert [Text.DigitChar(p)][..0] == [];
    assert Text.DigitsValue([Text.DigitChar(p)]) == p;
  }

  /** From port 10 on the reading is off: the label of port 10 is read as port 101, which a 10-port network lacks. */
  lemma PortOfTenthReflectionLabel()
    ensures Devices.Label(10, 10) == "S1010"
    ensures PortOfLabel("S1010") == Some(101)
  {
    assert Text.NatToString(10) == "10";
    var l := "S1010";
    assert Text.DigitRunEnd(l, 5) == 5;
    assert Text.DigitRunEnd(l, 1) == 5;
    assert l[1..4] == "101" && "101"[..2] == "10" && "10"[..1] == "1" && "1"[..0] == [];
  }

  /** `f"{temperature} {path_type} Port {port} ({s})"` for a per-port plot, `f"{temperature} {path_type} {s}"` otherwise. */
  function TraceLabel(kind: PlotKind, temperature: string, pathType: string, port: int, sp: string): (r: string)
    ensures |r| > |temperature| + |pathType| + 1 + |sp|
    ensures r[..|temperature| + 1 + |pathType| + 1] == temperature + " " + pathType + " "
    ensures !kind.PerPort() ==> r[|r| - |sp|..] == sp
    ensures kind.PerPort() ==> r[|r| - |sp| - 1..] == sp + ")"
  {
    if kind.PerPort() then temperature + " " + pathType + " Port " + Text.IntToString(port) + " (" + sp + ")"
    else temperature + " " + pathType + " " + sp
  }

  function InGHz(f: seq<real>): (r: seq<real>)
    ensures |r| == |f| && forall k :: 0 <= k < |f| ==> r[k] == f[k] / Calculator.GHz
  {
    seq(|f|, k requires 0 <= k < |f| => f[k] / Calculator.GHz)
  }

  // ---------------------------------------------------------------- traces

  /** What one S-parameter of one measurement contributes: nothing, a trace, or an error that ends the measurement. */
  datatype Step = Skip | Emit(trace: PlotTrace) | Abort

  /** The trace of computed values, unless their length differs from the frequencies'. */
  function Finish(kind: PlotKind, m: Measurement, w: Network, sp: string, port: int, values: seq<real>): Step
  {
    var freqs := InGHz(w.f);
    if |freqs| != |values| then Skip
    else Emit(PlotTrace(TraceLabel(kind, m.temperature, m.pathType, port, sp), sp, port, freqs, values, m.temperature, m.pathType))
  }

  /** The body of the loop over `s_params` for one label, over the windowed network `w`. */
  function TraceFor(nu: Numerics, kind: PlotKind, m: Measurement, w: Network, sp: string, selected: set<string>): Step
    requires WellFormed(w)
  {
    if sp !in selected then Skip
    else if kind.PerPort() then
      match PortOfLabel(sp)
      case None => Skip
      case Some(port) =>
        var r := if kind.returnLoss then Calculator.ReturnLoss(nu, w, port, None, None) else Calculator.Vswr(nu, w, port, None, None);
        if r.Err? then Abort else Finish(kind, m, w, sp, port, r.value.values)
    else
      var g := Calculator.Gain(nu, w, sp);
      if g.Err? then Abort else Finish(kind, m, w, sp, 0, g.value)
  }

  /** The traces of the labels in order, and whether an error ended the run early (keeping the traces before it). */
  function LabelTraces(nu: Numerics, kind: PlotKind, m: Measurement, w: Network, labels: seq<string>, selected: set<string>)
    : (seq<PlotTrace>, bool)
    requires WellFormed(w)
  {
    if labels == [] then ([], false)
    else
      var (ts, aborted) := LabelTraces(nu, kind, m, w, labels[..|labels| - 1], selected);
      if aborted then (ts, true)
      else match TraceFor(nu, kind, m, w, labels[|labels| - 1], selected)
        case Skip => (ts, false)
        case Emit(t) => (ts + [t], false)
        case Abort => (ts, true)
  }

  /** The labels a measurement's network offers the plot. */
  function LabelsOf(kind: PlotKind, d: Devices.Device, net: Network): seq<string>
  {
    if kind.PerPort() then PortLabels(net.nports) else SParameters.GainLabels(d, net.nports)
  }

  /** The network of a measurement, when it can be read (a missing or malformed one raises inside the `try`). */
  predicate Readable(m: Measurement)
  {
    m.touchstone.Some? && WellFormed(m.touchstone.value)
  }

  /**
   * One measurement's traces and the selection after it: an empty selection is replaced by
   * all of this measurement's labels, and that replacement stays for the later measurements.
   */
  function MeasurementTraces(nu: Numerics, kind: PlotKind, d: Devices.Device, fmin: real, fmax: real, m: Measurement,
                             selected: set<string>): (seq<PlotTrace>, set<string>)
  {
    if !Readable(m) then ([], selected)
    else
      var net := m.touchstone.value;
      var w := Calculator.FilterFrequencyRange(net, fmin, fmax);
      var labels := LabelsOf(kind, d, net);
      var sel := if selected == {} then Sorting.Elems(labels) else selected;
      (LabelTraces(nu, kind, m, w, labels, sel).0, sel)
  }

  /** The traces of the measurements in order, and the selection in force after them. */
  function AllTraces(nu: Numerics, kind: PlotKind, d: Devices.Device, fmin: real, fmax: real, ms: seq<Measurement>,
                     selected: set<string>): (seq<PlotTrace>, set<string>)
  {
    if ms == [] then ([], selected)
    else
      var (ts, sel) := AllTraces(nu, kind, d, fmin, fmax, ms[..|ms| - 1], selected);
      var (ts2, sel2) := MeasurementTraces(nu, kind, d, fmin, fmax, ms[|ms| - 1], sel);
      (ts + ts2, sel2)
  }

  // ---------------------------------------------------------------- pass region

  predicate Named(c: TestCriteria, name: string, criteriaType: string)
  {
    c.requirementName == name && c.criteriaType == criteriaType
  }

  /** The index of the first criterion with this name and type, in the order the store gives them (|cs| when none). */
  function FirstMatchIndex(cs: seq<TestCriteria>, name: string, criteriaType: string): (i: nat)
    ensures i <= |cs|
    ensures forall j :: 0 <= j < i ==> !Named(cs[j], name, criteriaType)
    ensures i < |cs| ==> Named(cs[i], name, criteriaType)
  {
    if cs == [] then 0
    else if Named(cs[0], name, criteriaType) then 0
    else
      var i := FirstMatchIndex(cs[1..], name, criteriaType);
      assert forall j :: 1 <= j < i + 1 ==> cs[j] == cs[1..][j - 1];
      i + 1
  }

  function FirstMatching(cs: seq<TestCriteria>, name: string, criteriaType: string): (r: Option<TestCriteria>)
  {
    var i := FirstMatchIndex(cs, name, criteriaType);
    if i < |cs| then Some(cs[i]) else None
  }

  /** The name and type of the criterion a plot's pass region comes from. */
  function RegionCriterion(kind: PlotKind): (string, string)
  {
    if kind.PerPort() then ("VSWR Max", "max") else ("Gain Range", "range")
  }

  /**
   * The pass region: none for wideband plots or without criteria; otherwise from the first
   * criterion of the right name and type, even if its limit is unset. A return-loss plot
   * converts the VSWR limit, which fails for a limit below 1.
   */
  function PassRegionOf(nu: Numerics, kind: PlotKind, criteria: Option<seq<TestCriteria>>, d: Devices.Device, stage: string,
                        fmin: real, fmax: real): (r: Result<Option<PassRegion>>)
    ensures kind.wideband || criteria.None? ==> r == Ok(None)
    ensures r.Ok? && r.value.Some? ==> r.value.value.freqMin == fmin && r.value.value.freqMax == fmax
    ensures r.Err? ==> kind.returnLoss && r.error.ValueError?
  {
    if kind.wideband || criteria.None? then Ok(None)
    else
      var cs := Compliance.CriteriaFor(criteria.value, d.id, "S-Parameters", stage);
      var (name, criteriaType) := RegionCriterion(kind);
      match FirstMatching(cs, name, criteriaType)
      case None => Ok(None)
      case Some(c) =>
        if kind.returnLoss then
          if c.maxValue.None? then Ok(None)
          else
            var limit :- Calculator.VswrToReturnLoss(nu, c.maxValue.value);
            Ok(Some(PassRegion(fmin, fmax, None, Some(limit))))
        else if kind.vswr then
          if c.maxValue.None? then Ok(None) else Ok(Some(PassRegion(fmin, fmax, None, c.maxValue)))
        else if c.minValue.Some? && c.maxValue.Some? then Ok(Some(PassRegion(fmin, fmax, c.minValue, c.maxValue)))
        else Ok(None)
  }

  // ---------------------------------------------------------------- the plot

  /** What `prepare_plot_data` returns or raises when `target` is the serial number it settles on. */
  function PlotDataOf(nu: Numerics, d: Devices.Device, ms: seq<Measurement>, plotType: string, temperatures: set<string>,
                      paths: set<string>, selected: set<string>, stage: string, criteria: Option<seq<TestCriteria>>,
                      target: string): (r: Result<PlotData>)
    ensures FilterMeasurements(ms, d, temperatures, paths) == [] ==>
              r.Ok? && r.value.traces == [] && r.value.serialNumber == ""
              && r.value.measurementDates == [] && r.value.passRegion.None?
    ensures FilterMeasurements(ms, d, temperatures, paths) != [] && r.Ok? ==>
              && r.value.serialNumber == target
              && r.value.measurementDates
                 == Sorting.SortedStringSet(DatesOf(WithSerial(FilterMeasurements(ms, d, temperatures, paths), target)))
  {
    var kind := KindOf(plotType);
    var (fmin, fmax) := Band(d, kind.wideband);
    var filtered := FilterMeasurements(ms, d, temperatures, paths);
    var y := YLabel(kind.vswr, kind.returnLoss);
    if filtered == [] then Ok(PlotData(plotType, d.name, "", stage, [], [], fmin, fmax, None, XLabel, y))
    else
      var narrowed := WithSerial(filtered, target);
      var traces := AllTraces(nu, kind, d, fmin, fmax, narrowed, selected).0;
      var region :- PassRegionOf(nu, kind, criteria, d, stage, fmin, fmax);
      Ok(PlotData(plotType, d.name, target, stage, Sorting.SortedStringSet(DatesOf(narrowed)), traces, fmin, fmax, region, XLabel, y))
  }

  /**
   * `prepare_plot_data`. The serial number is the first of a set of strings, whose order
   * Python does not fix, so the method may settle on any serial number of the filtered
   * measurements.
   */
  method PreparePlotData(nu: Numerics, device: Devices.Device, measurements: seq<Measurement>, plotType: string,
                         selectedTemperatures: set<string>, selectedPaths: set<string>, selectedSParams: set<string>,
                         testStage: string, criteria: Option<seq<TestCriteria>>) returns (r: Result<PlotData>)
    ensures var filtered := FilterMeasurements(measurements, device, selectedTemperatures, selectedPaths);
            && (filtered == [] ==>
                  r == PlotDataOf(nu, device, measurements, plotType, selectedTemperatures, selectedPaths, selectedSParams,
                                  testStage, criteria, ""))
            && (filtered != [] ==>
                  exists target :: target in SerialsOf(filtered)
                    && r == PlotDataOf(nu, device, measurements, plotType, selectedTemperatures, selectedPaths, selectedSParams,
                                       testStage, criteria, target))
  {
    var kind := KindOf(plotType);
    var fmin, fmax;
    if kind.wideband {
      fmin, fmax := device.widebandFreqMin, device.widebandFreqMax;
    } else {
      fmin, fmax := device.operationalFreqMin, device.operationalFreqMax;
    }
    var filtered := FilterMeasurements(measurements, device, selectedTemperatures, selectedPaths);
    if filtered == [] {
      return Ok(PlotData(plotType, device.name, "", testStage, [], [], fmin, fmax, None, XLabel, YLabel(kind.vswr, kind.returnLoss)));
    }
    var serialNumbers := SerialsOf(filtered);
    assert filtered[0].serialNumber in serialNumbers;
    var target :| target in serialNumbers;
    filtered := WithSerial(filtered, target);
    var dates := Sorting.SortedStringSet(DatesOf(filtered));
    var traces, selected := TracesOf(nu, kind, device, fmin, fmax, filtered, selectedSParams);
    var region :- FindPassRegion(nu, kind, criteria, device, testStage, fmin, fmax);
    r := Ok(PlotData(plotType, device.name, target, testStage, dates, traces, fmin, fmax, region, XLabel, YLabel(kind.vswr, kind.returnLoss)));
  }

  /** The loop over the measurements of the chosen serial number, the selection carried from one to the next. */
  method TracesOf(nu: Numerics, kind: PlotKind, device: Devices.Device, fmin: real, fmax: real, ms: seq<Measurement>,
                  selectedSParams: set<string>) returns (traces: seq<PlotTrace>, selected: set<string>)
    ensures (traces, selected) == AllTraces(nu, kind, device, fmin, fmax, ms, selectedSParams)
  {
    traces, selected := [], selectedSParams;
    for i := 0 to |ms|
      invariant (traces, selected) == AllTraces(nu, kind, device, fmin, fmax, ms[..i], selectedSParams)
    {
      var ts;
      ts, selected := TracesOfMeasurement(nu, kind, device, fmin, fmax, ms[i], selected);
      traces := traces + ts;
      assert ms[..i + 1][..i] == ms[..i];
    }
    assert ms[..|ms|] == ms;
  }

  /** The body of the loop over the measurements: the `try` block, a measurement whose network cannot be read giving nothing. */
  method TracesOfMeasurement(nu: Numerics, kind: PlotKind, device: Devices.Device, fmin: real, fmax: real, m: Measurement,
                             selected: set<string>) returns (traces: seq<PlotTrace>, selectedAfter: set<string>)
    ensures (traces, selectedAfter) == MeasurementTraces(nu, kind, device, fmin, fmax, m, selected)
  {
    traces, selectedAfter := [], selected;
    if Readable(m) {
      var net := m.touchstone.value;
      var w := Calculator.FilterFrequencyRange(net, fmin, fmax);
      var labels;
      if kind.PerPort() {
        labels := PortLabels(net.nports);
      } else {
        labels := Devices.GetGainSParameters(device, net.nports);
      }
      if selectedAfter == {} {
        selectedAfter := Sorting.Elems(labels);
      }
      var aborted;
      traces, aborted := CollectTraces(nu, kind, m, w, labels, selectedAfter);
    }
  }

  /** The loop over one measurement's labels: skipped labels contribute nothing, and an error ends the loop. */
  method CollectTraces(nu: Numerics, kind: PlotKind, m: Measurement, w: Network, labels: seq<string>, selected: set<string>)
    returns (traces: seq<PlotTrace>, aborted: bool)
    requires WellFormed(w)
    ensures (traces, aborted) == LabelTraces(nu, kind, m, w, labels, selected)
  {
    traces := [];
    for j := 0 to |labels|
      invariant LabelTraces(nu, kind, m, w, labels[..j], selected) == (traces, false)
    {
      assert labels[..j + 1][..j] == labels[..j];
      var step := TraceOfLabel(nu, kind, m, w, labels[j], selected);
      match step
      case Skip =>
      case Emit(t) =>
        traces := traces + [t];
      case Abort =>
        LabelTracesAbort(nu, kind, m, w, labels, selected, j + 1);
        return traces, true;
    }
    assert labels[..|labels|] == labels;
    aborted := false;
  }

  /** The body of the loop over the labels: an unselected or unreadable label is skipped, a failed computation ends the loop. */
  method TraceOfLabel(nu: Numerics, kind: PlotKind, m: Measurement, w: Network, sp: string, selected: set<string>)
    returns (step: Step)
    requires WellFormed(w)
    ensures step == TraceFor(nu, kind, m, w, sp, selected)
  {
    if sp !in selected {
      return Skip;
    }
    var port: int;
    var values: seq<real>;
    if kind.PerPort() {
      var parsed := PortOfLabel(sp);
      if parsed.None? {
        return Skip;
      }
      port := parsed.value;
      var reduced;
      if kind.returnLoss {
        reduced := Calculator.ReturnLoss(nu, w, port, None, None);
      } else {
        reduced := Calculator.Vswr(nu, w, port, None, None);
      }
      if reduced.Err? {
        return Abort;
      }
      values := reduced.value.values;
    } else {
      var gain := Calculator.Gain(nu, w, sp);
      if gain.Err? {
        return Abort;
      }
      values := gain.value;
      port := 0;
    }
    var frequencies := InGHz(w.f);
    if |frequencies| != |values| {
      return Skip;
    }
    step := Emit(PlotTrace(TraceLabel(kind, m.temperature, m.pathType, port, sp), sp, port, frequencies, values,
                           m.temperature, m.pathType));
  }

  /** An error among the first `k` labels ends the measurement's traces there. */
  lemma {:induction false} LabelTracesAbort(nu: Numerics, kind: PlotKind, m: Measurement, w: Network, labels: seq<string>,
                                            selected: set<string>, k: nat)
    requires WellFormed(w) && k <= |labels| && LabelTraces(nu, kind, m, w, labels[..k], selected).1
    ensures LabelTraces(nu, kind, m, w, labels, selected) == LabelTraces(nu, kind, m, w, labels[..k], selected)
    decreases |labels| - k
  {
    if k < |labels| {
      assert labels[..k + 1][..k] == labels[..k];
      LabelTracesAbort(nu, kind, m, w, labels, selected, k + 1);
    } else {
      assert labels[..k] == labels;
    }
  }

  /** The scan of the criteria for the pass region, stopping at the first of the right name and type. */
  method FindPassRegion(nu: Numerics, kind: PlotKind, criteria: Option<seq<TestCriteria>>, device: Devices.Device, stage: string,
                        fmin: real, fmax: real) returns (r: Result<Option<PassRegion>>)
    ensures r == PassRegionOf(nu, kind, criteria, device, stage, fmin, fmax)
  {
    if kind.wideband || criteria.None? {
      return Ok(None);
    }
    var cs := Compliance.CriteriaFor(criteria.value, device.id, "S-Parameters", stage);
    var (name, criteriaType) := RegionCriterion(kind);
    for i := 0 to |cs|
      invariant forall j :: 0 <= j < i ==> !Named(cs[j], name, criteriaType)
    {
      var c := cs[i];
      if c.requirementName == name && c.criteriaType == criteriaType {
        assert FirstMatchIndex(cs, name, criteriaType) == i;
        if kind.returnLoss {
          if c.maxValue.Some? {
            var limit :- Calculator.VswrToReturnLoss(nu, c.maxValue.value);
            return Ok(Some(PassRegion(fmin, fmax, None, Some(limit))));
          }
        } else if kind.vswr {
          if c.maxValue.Some? {
            return Ok(Some(PassRegion(fmin, fmax, None, c.maxValue)));
          }
        } else if c.minValue.Some? && c.maxValue.Some? {
          return Ok(Some(PassRegion(fmin, fmax, c.minValue, c.maxValue)));
        }
        return Ok(None);
      }
    }
    assert FirstMatchIndex(cs, name, criteriaType) == |cs|;
    return Ok(None);
  }

  // ---------------------------------------------------------------- properties

  /** What a trace drawn from measurement `m` looks like. */
  predicate TraceOf(kind: PlotKind, d: Devices.Device, m: Measurement, t: PlotTrace)
  {
    && Readable(m)
    && t.temperature == m.temperature
    && t.pathType == m.pathType
    && t.sParameter in LabelsOf(kind, d, m.touchstone.value)
    && t.traceLabel == TraceLabel(kind, m.temperature, m.pathType, t.port, t.sParameter)
    && (kind.PerPort() ==> PortOfLabel(t.sParameter) == Some(t.port))
    && (!kind.PerPort() ==> t.port == 0)
    && |t.frequencies| == |t.values|
  }

  /**
   * The per-label work never falls through the length check: a selected label whose
   * values are computed always yields its trace, with one value per frequency.
   */
  lemma TraceForEmits(nu: Numerics, kind: PlotKind, m: Measurement, w: Network, sp: string, selected: set<string>)
    requires WellFormed(w) && sp in selected
    ensures kind.PerPort() && PortOfLabel(sp).Some? ==>
              var port := PortOfLabel(sp).value;
              var r := if kind.returnLoss then Calculator.ReturnLoss(nu, w, port, None, None) else Calculator.Vswr(nu, w, port, None, None);
              r.Ok? ==> TraceFor(nu, kind, m, w, sp, selected).Emit?
    ensures !kind.PerPort() && Calculator.Gain(nu, w, sp).Ok? ==> TraceFor(nu, kind, m, w, sp, selected).Emit?
  {
  }

  /** Each trace of a measurement's labels is one of those labels, selected, labelled as the plot type demands. */
  lemma {:induction false} LabelTracesShape(nu: Numerics, kind: PlotKind, m: Measurement, w: Network, labels: seq<string>,
                                            selected: set<string>)
    requires WellFormed(w)
    ensures forall t :: t in LabelTraces(nu, kind, m, w, labels, selected).0 ==>
              && t.sParameter in labels && t.sParameter in selected
              && t.temperature == m.temperature && t.pathType == m.pathType
              && t.traceLabel == TraceLabel(kind, m.temperature, m.pathType, t.port, t.sParameter)
              && (kind.PerPort() ==> PortOfLabel(t.sParameter) == Some(t.port))
              && (!kind.PerPort() ==> t.port == 0)
              && |t.frequencies| == |t.values|
  {
    if labels != [] {
      var init := labels[..|labels| - 1];
      LabelTracesShape(nu, kind, m, w, init, selected);
      assert forall x :: x in init ==> x in labels;
    }
  }

  /** Every trace drawn for one measurement has the shape `TraceOf` describes. */
  lemma MeasurementTracesShape(nu: Numerics, kind: PlotKind, d: Devices.Device, fmin: real, fmax: real,
                               m: Measurement, selected: set<string>)
    ensures forall t :: t in MeasurementTraces(nu, kind, d, fmin, fmax, m, selected).0 ==> TraceOf(kind, d, m, t)
  {
    if Readable(m) {
      var net := m.touchstone.value;
      var w := Calculator.FilterFrequencyRange(net, fmin, fmax);
      var labels := LabelsOf(kind, d, net);
      LabelTracesShape(nu, kind, m, w, labels, if selected == {} then Sorting.Elems(labels) else selected);
    }
  }

  /** Every trace of a plot comes from one of the measurements drawn, in the shape `TraceOf` describes. */
  lemma {:induction false} AllTracesShape(nu: Numerics, kind: PlotKind, d: Devices.Device, fmin: real, fmax: real,
                                          ms: seq<Measurement>, selected: set<string>)
    ensures forall t :: t in AllTraces(nu, kind, d, fmin, fmax, ms, selected).0 ==> exists m :: m in ms && TraceOf(kind, d, m, t)
  {
    if ms != [] {
      var init, last := ms[..|ms| - 1], ms[|ms| - 1];
      AllTracesShape(nu, kind, d, fmin, fmax, init, selected);
      var (ts, sel) := AllTraces(nu, kind, d, fmin, fmax, init, selected);
      var ts2 := MeasurementTraces(nu, kind, d, fmin, fmax, last, sel).0;
      MeasurementTracesShape(nu, kind, d, fmin, fmax, last, sel);
      assert AllTraces(nu, kind, d, fmin, fmax, ms, selected).0 == ts + ts2;
      assert last in ms;
      assert forall m :: m in init ==> m in ms;
    }
  }

  /** A non-empty selection stays as it is from measurement to measurement. */
  lemma {:induction false} SelectionKept(nu: Numerics, kind: PlotKind, d: Devices.Device, fmin: real, fmax: real,
                                         ms: seq<Measurement>, selected: set<string>)
    requires selected != {}
    ensures AllTraces(nu, kind, d, fmin, fmax, ms, selected).1 == selected
  {
    if ms != [] {
      SelectionKept(nu, kind, d, fmin, fmax, ms[..|ms| - 1], selected);
    }
  }

  /**
   * An empty selection means every label of the first measurement whose network is read;
   * that choice then holds for all later measurements, whatever labels they offer.
   */
  lemma {:induction false} EmptySelectionTakesFirstLabels(nu: Numerics, kind: PlotKind, d: Devices.Device, fmin: real, fmax: real,
                                                          ms: seq<Measurement>, k: nat)
    requires k < |ms| && Readable(ms[k]) && forall j :: 0 <= j < k ==> !Readable(ms[j])
    requires LabelsOf(kind, d, ms[k].touchstone.value) != []
    ensures AllTraces(nu, kind, d, fmin, fmax, ms, {}).1 == Sorting.Elems(LabelsOf(kind, d, ms[k].touchstone.value))
    decreases |ms|
  {
    var init, last := ms[..|ms| - 1], ms[|ms| - 1];
    var labels := LabelsOf(kind, d, ms[k].touchstone.value);
    assert labels[0] in Sorting.Elems(labels);
    if k < |ms| - 1 {
      EmptySelectionTakesFirstLabels(nu, kind, d, fmin, fmax, init, k);
    } else {
      NothingReadableKeepsSelection(nu, kind, d, fmin, fmax, init);
    }
  }

  lemma {:induction false} NothingReadableKeepsSelection(nu: Numerics, kind: PlotKind, d: Devices.Device, fmin: real, fmax: real,
                                                         ms: seq<Measurement>)
    requires forall j :: 0 <= j < |ms| ==> !Readable(ms[j])
    ensures AllTraces(nu, kind, d, fmin, fmax, ms, {}) == ([], {})
  {
    if ms != [] {
      var init, last := ms[..|ms| - 1], ms[|ms| - 1];
      assert forall j :: 0 <= j < |init| ==> init[j] == ms[j];
      NothingReadableKeepsSelection(nu, kind, d, fmin, fmax, init);
      assert MeasurementTraces(nu, kind, d, fmin, fmax, last, {}) == ([], {});
      AllTracesStep(nu, kind, d, fmin, fmax, ms, {});
      var none: seq<PlotTrace> := [];
      assert none + none == none;
    }
  }

  /** One more measurement adds its traces after the others' and hands on its selection. */
  lemma AllTracesStep(nu: Numerics, kind: PlotKind, d: Devices.Device, fmin: real, fmax: real,
                      ms: seq<Measurement>, selected: set<string>)
    requires ms != []
    ensures var before := AllTraces(nu, kind, d, fmin, fmax, ms[..|ms| - 1], selected);
            var step := MeasurementTraces(nu, kind, d, fmin, fmax, ms[|ms| - 1], before.1);
            AllTraces(nu, kind, d, fmin, fmax, ms, selected) == (before.0 + step.0, step.1)
  {
  }

  /**
   * The pass region of a non-wideband plot with criteria comes from the first criterion of
   * the stage named "VSWR Max" of type max (per-port plots) or "Gain Range" of type range
   * (gain plots), and from no other, even when its limit is unset. A return-loss plot
   * converts the VSWR limit and fails exactly when that limit is below 1.
   */
  lemma PassRegionSpec(nu: Numerics, kind: PlotKind, criteria: seq<TestCriteria>, d: Devices.Device, stage: string,
                       fmin: real, fmax: real)
    requires !kind.wideband
    ensures var cs := Compliance.CriteriaFor(criteria, d.id, "S-Parameters", stage);
            var (name, criteriaType) := RegionCriterion(kind);
            var i := FirstMatchIndex(cs, name, criteriaType);
            var r := PassRegionOf(nu, kind, Some(criteria), d, stage, fmin, fmax);
            && (i == |cs| ==> r == Ok(None))
            && (i < |cs| && kind.returnLoss ==>
                  && (r.Err? <==> cs[i].maxValue.Some? && cs[i].maxValue.value < 1.0)
                  && (cs[i].maxValue.None? ==> r == Ok(None))
                  && (r.Ok? && cs[i].maxValue.Some? ==>
                        r == Ok(Some(PassRegion(fmin, fmax, None, Some(Calculator.VswrToReturnLoss(nu, cs[i].maxValue.value).value))))))
            && (i < |cs| && kind.vswr && !kind.returnLoss ==>
                  r == Ok(if cs[i].maxValue.None? then None else Some(PassRegion(fmin, fmax, None, cs[i].maxValue))))
            && (i < |cs| && !kind.PerPort() ==>
                  r == Ok(if cs[i].minValue.Some? && cs[i].maxValue.Some? then Some(PassRegion(fmin, fmax, cs[i].minValue, cs[i].maxValue)) else None))
  {
  }

  /** With a sound `log10`, a return-loss pass region's limit lies in [-200, 0] dB. */
  lemma ReturnLossRegionBounds(nu: Numerics, kind: PlotKind, criteria: Option<seq<TestCriteria>>, d: Devices.Device, stage: string,
                               fmin: real, fmax: real)
    requires Sound(nu) && kind.returnLoss
    ensures var r := PassRegionOf(nu, kind, criteria, d, stage, fmin, fmax);
            r.Ok? && r.value.Some? ==> r.value.value.valueMax.Some? && -200.0 <= r.value.value.valueMax.value <= 0.0
  {
    var r := PassRegionOf(nu, kind, criteria, d, stage, fmin, fmax);
    if r.Ok? && r.value.Some? {
      var cs := Compliance.CriteriaFor(criteria.value, d.id, "S-Parameters", stage);
      var c := FirstMatching(cs, "VSWR Max", "max").value;
      Calculator.VswrToReturnLossBounds(nu, c.maxValue.value);
    }
  }

  /** The band and y-axis label of a plot follow its type. */
  lemma PlotDataShape(nu: Numerics, d: Devices.Device, ms: seq<Measurement>, plotType: string, temperatures: set<string>,
                      paths: set<string>, selected: set<string>, stage: string, criteria: Option<seq<TestCriteria>>,
                      target: string)
    ensures var r := PlotDataOf(nu, d, ms, plotType, temperatures, paths, selected, stage, criteria, target);
            var kind := KindOf(plotType);
            r.Ok? ==> (r.value.freqMin, r.value.freqMax) == Band(d, kind.wideband)
                      && r.value.yLabel == YLabel(kind.vswr, kind.returnLoss)
  {
  }

  /** A plot fails only when a VSWR limit cannot be converted for a return-loss plot over the operational band. */
  lemma PlotDataError(nu: Numerics, d: Devices.Device, ms: seq<Measurement>, plotType: string, temperatures: set<string>,
                      paths: set<string>, selected: set<string>, stage: string, criteria: Option<seq<TestCriteria>>,
                      target: string)
    ensures var r := PlotDataOf(nu, d, ms, plotType, temperatures, paths, selected, stage, criteria, target);
            var kind := KindOf(plotType);
            r.Err? ==> kind.returnLoss && !kind.wideband && criteria.Some? && r.error.ValueError?
  {
    var kind := KindOf(plotType);
    var (fmin, fmax) := Band(d, kind.wideband);
    var region := PassRegionOf(nu, kind, criteria, d, stage, fmin, fmax);
    assert region.Err? ==> kind.returnLoss && !kind.wideband && criteria.Some? && region.error.ValueError?;
  }

  /**
   * With admitted measurements, the plot names the chosen serial number, which has at
   * least one measurement when it is one of theirs, and lists the distinct dates of that
   * serial number's measurements in increasing order.
   */
  lemma PlotDataDates(nu: Numerics, d: Devices.Device, ms: seq<Measurement>, plotType: string, temperatures: set<string>,
                      paths: set<string>, selected: set<string>, stage: string, criteria: Option<seq<TestCriteria>>,
                      target: string)
    requires FilterMeasurements(ms, d, temperatures, paths) != []
    ensures var r := PlotDataOf(nu, d, ms, plotType, temperatures, paths, selected, stage, criteria, target);
            var narrowed := WithSerial(FilterMeasurements(ms, d, temperatures, paths), target);
            && (target in SerialsOf(FilterMeasurements(ms, d, temperatures, paths)) ==> narrowed != [])
            && (r.Ok? ==>
                  && r.value.serialNumber == target
                  && Sorting.StrictlySorted(r.value.measurementDates, Text.StrLt)
                  && (forall x :: x in r.value.measurementDates <==> exists m :: m in narrowed && x == IsoDate(m.measurementDate)))
  {
    var filtered := FilterMeasurements(ms, d, temperatures, paths);
    if target in SerialsOf(filtered) {
      WithSerialNonEmpty(filtered, target);
    }
    DatesSpec(WithSerial(filtered, target));
  }

  /** The sorted distinct dates of some measurements are exactly their dates. */
  lemma DatesSpec(ms: seq<Measurement>)
    ensures Sorting.StrictlySorted(Sorting.SortedStringSet(DatesOf(ms)), Text.StrLt)
    ensures forall x :: x in Sorting.SortedStringSet(DatesOf(ms)) <==> exists m :: m in ms && x == IsoDate(m.measurementDate)
  {
    var dates := DatesOf(ms);
    var sorted := Sorting.SortedStringSet(dates);
    forall x ensures x in sorted <==> exists m :: m in ms && x == IsoDate(m.measurementDate) {
      assert x in sorted <==> x in Sorting.Elems(dates);
      if x in dates {
        var i :| 0 <= i < |dates| && dates[i] == x;
        assert ms[i] in ms;
      }
      if exists m :: m in ms && x == IsoDate(m.measurementDate) {
        var m :| m in ms && x == IsoDate(m.measurementDate);
        var i :| 0 <= i < |ms| && ms[i] == m;
        assert dates[i] == x;
      }
    }
  }

  /** Every trace of a plot is drawn from an admitted measurement of the chosen serial number. */
  lemma PlotDataTraces(nu: Numerics, d: Devices.Device, ms: seq<Measurement>, plotType: string, temperatures: set<string>,
                       paths: set<string>, selected: set<string>, stage: string, criteria: Option<seq<TestCriteria>>,
                       target: string)
    ensures var r := PlotDataOf(nu, d, ms, plotType, temperatures, paths, selected, stage, criteria, target);
            r.Ok? ==> forall t :: t in r.value.traces ==>
                        exists m :: m in ms && Admitted(m, d, temperatures, paths) && m.serialNumber == target
                                    && TraceOf(KindOf(plotType), d, m, t)
  {
    var kind := KindOf(plotType);
    var (fmin, fmax) := Band(d, kind.wideband);
    var narrowed := WithSerial(FilterMeasurements(ms, d, temperatures, paths), target);
    AllTracesShape(nu, kind, d, fmin, fmax, narrowed, selected);
  }

  /** For ports 1 to 9, the per-port labels of a network are exactly S11 .. S{n}{n}, read back as their own ports. */
  lemma PortLabelsSpec(nports: nat, x: string)
    requires nports <= 9
    ensures x in PortLabels(nports) <==> exists p :: 1 <= p <= nports && x == Devices.Label(p, p)
    ensures x in PortLabels(nports) ==> PortOfLabel(x).Some? && 1 <= PortOfLabel(x).value <= nports
                                        && x == Devices.Label(PortOfLabel(x).value, PortOfLabel(x).value)
  {
    if x in PortLabels(nports) {
      var k :| 0 <= k < nports && PortLabels(nports)[k] == x;
      PortOfReflectionLabel(k + 1);
    }
    if exists p :: 1 <= p <= nports && x == Devices.Label(p, p) {
      var p :| 1 <= p <= nports && x == Devices.Label(p, p);
      assert PortLabels(nports)[p - 1] == x;
    }
  }
}
