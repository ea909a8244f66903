/**
 * SParametersTestType: the metrics map of a measurement, and the evaluation of
 * generically named requirements against every S-parameter the device's port
 * roles make relevant.
 */
module SParameters {
  import opened Exceptions
  import opened RfNetwork
  import opened Criteria
  import opened Measurements
  import Calculator
  import Devices
  import Text
  import Sorting

  /** One pass/fail record (TestResult), before the store gives it an id. */
  datatype TestResult = TestResult(
    measurementId: Id,
    criteriaId: Id,
    measuredValue: real,
    passed: bool,
    sParameter: string)

  /** A metrics-map value: `{"min": .., "max": ..}` for a gain range, a float otherwise. */
  datatype Metric = GainRangeMetric(min: real, max: real) | ScalarMetric(value: real)

  type Metrics = map<string, Metric>

  const GainRangeSuffix: string := " Gain Range"
  const FlatnessSuffix: string := " Flatness"
  const LowestSuffix: string := " Lowest In-Band Gain"
  const VswrSuffix: string := " VSWR"

  predicate IsSuffix(s: string)
  {
    s == GainRangeSuffix || s == FlatnessSuffix || s == LowestSuffix || s == VswrSuffix
  }

  /** The four key suffixes end in different characters, so a key names its label and its metric. */
  lemma KeyInjective(l1: string, s1: string, l2: string, s2: string)
    requires IsSuffix(s1) && IsSuffix(s2) && l1 + s1 == l2 + s2
    ensures l1 == l2 && s1 == s2
  {
    var k := l1 + s1;
    assert k[|k| - 1] == s1[|s1| - 1] && k[|k| - 1] == s2[|s2| - 1];
    assert s1 == s2;
    assert l1 == k[..|l1|] && l2 == k[..|l2|];
  }

  // ---------------------------------------------------------------- calculate_metrics

  /**
   * What the metrics loops ask the calculator, for one network and one band: the gain
   * range, flatness and lowest in-band gain of a label, and the bounded VSWR of a port.
   */
  datatype MetricSource = MetricSource(
    gainRange: string -> Result<(real, real)>,
    flatness: string -> Result<real>,
    lowest: string -> Result<real>,
    vswr: int -> Result<real>)

  /** The calculator's answers for network `net` over the band [fmin, fmax] GHz. */
  function SourceOf(nu: Numerics, net: Network, fmin: real, fmax: real): MetricSource
    requires WellFormed(net)
  {
    MetricSource(
      l => Calculator.GainRange(nu, net, fmin, fmax, l),
      l => Calculator.Flatness(nu, net, fmin, fmax, l),
      l => Calculator.LowestInBandGain(nu, net, fmin, fmax, l),
      p => match Calculator.Vswr(nu, net, p, Some(fmin), Some(fmax))
           case Ok(v) => Ok(if v.Scalar? then v.value else 0.0)
           case Err(e) => Err(e))
  }

  /** Flatness and lowest in-band gain are computed exactly when the gain range is, as its spread and its lower end; a range is ordered. */
  ghost predicate Coherent(src: MetricSource)
  {
    forall l ::
      && (src.flatness(l).Ok? <==> src.gainRange(l).Ok?)
      && (src.lowest(l).Ok? <==> src.gainRange(l).Ok?)
      && (src.gainRange(l).Ok? ==>
            src.gainRange(l).value.0 <= src.gainRange(l).value.1
            && src.flatness(l).value == src.gainRange(l).value.1 - src.gainRange(l).value.0
            && src.lowest(l).value == src.gainRange(l).value.0)
  }

  /** The calculator's answers are coherent, and its VSWR is the bounded (scalar) one. */
  lemma SourceOfCoherent(nu: Numerics, net: Network, fmin: real, fmax: real)
    requires WellFormed(net)
    ensures Coherent(SourceOf(nu, net, fmin, fmax))
  {
    var src := SourceOf(nu, net, fmin, fmax);
    forall l ensures
      && (src.flatness(l).Ok? <==> src.gainRange(l).Ok?)
      && (src.lowest(l).Ok? <==> src.gainRange(l).Ok?)
      && (src.gainRange(l).Ok? ==>
            src.gainRange(l).value.0 <= src.gainRange(l).value.1
            && src.flatness(l).value == src.gainRange(l).value.1 - src.gainRange(l).value.0
            && src.lowest(l).value == src.gainRange(l).value.0)
    {
      assert src.gainRange(l) == Calculator.GainRange(nu, net, fmin, fmax, l);
      assert src.flatness(l) == Calculator.Flatness(nu, net, fmin, fmax, l);
      assert src.lowest(l) == Calculator.LowestInBandGain(nu, net, fmin, fmax, l);
    }
  }

  /** The VSWR the metrics record for a port is the worst VSWR of the port over the band. */
  lemma SourceOfVswrIsWorst(nu: Numerics, net: Network, fmin: real, fmax: real, p: int)
    requires WellFormed(net) && SourceOf(nu, net, fmin, fmax).vswr(p).Ok?
    ensures var w := Calculator.FilterFrequencyRange(net, fmin, fmax);
            var v := Calculator.PortVswrs(nu, w, Calculator.ReflectionIndex(w, p).value);
            && (forall k :: 0 <= k < |v| ==> v[k] <= SourceOf(nu, net, fmin, fmax).vswr(p).value)
            && (exists k :: 0 <= k < |v| && v[k] == SourceOf(nu, net, fmin, fmax).vswr(p).value)
  {
    Calculator.VswrSpec(nu, net, p, fmin, fmax);
  }

  /** With sound numerics, the VSWR the metrics record for a port that is passive over the band is at least 1. */
  lemma SourceOfVswrAtLeastOne(nu: Numerics, net: Network, fmin: real, fmax: real, p: int)
    requires WellFormed(net) && Sound(nu) && SourceOf(nu, net, fmin, fmax).vswr(p).Ok?
    requires var w := Calculator.FilterFrequencyRange(net, fmin, fmax);
             Calculator.Passive(nu, w, Calculator.ReflectionIndex(w, p).value)
    ensures SourceOf(nu, net, fmin, fmax).vswr(p).value >= 1.0
  {
    Calculator.VswrAtLeastOne(nu, net, p, fmin, fmax);
  }

  /** The body of the inner port loop for label `l`: Gain Range, then Flatness, then Lowest In-Band Gain. */
  function WithGainMetrics(src: MetricSource, m: Metrics, l: string): Metrics
  {
    match src.gainRange(l)
    case Err(_) => m
    case Ok((lo, hi)) =>
      var m1 := m[l + GainRangeSuffix := GainRangeMetric(lo, hi)];
      match src.flatness(l)
      case Err(_) => m1
      case Ok(fl) =>
        var m2 := m1[l + FlatnessSuffix := ScalarMetric(fl)];
        match src.lowest(l)
        case Err(_) => m2
        case Ok(lw) => m2[l + LowestSuffix := ScalarMetric(lw)]
  }

  /** Row `o` of the port loops after input ports 1..i. */
  function RowMetrics(src: MetricSource, m: Metrics, o: int, i: nat): Metrics
  {
    if i == 0 then m
    else WithGainMetrics(src, RowMetrics(src, m, o, i - 1), Devices.Label(o, i))
  }

  /** The gain entries after output ports 1..o, each row running over input ports 1..n. */
  function GainMetrics(src: MetricSource, n: nat, o: nat): Metrics
  {
    if o == 0 then map[]
    else RowMetrics(src, GainMetrics(src, n, o - 1), o, n)
  }

  /** The body of the VSWR loop for port `p`. */
  function WithVswrMetric(src: MetricSource, m: Metrics, p: int): Metrics
  {
    match src.vswr(p)
    case Err(_) => m
    case Ok(v) => m[Devices.Label(p, p) + VswrSuffix := ScalarMetric(v)]
  }

  /** The VSWR entries for ports 1..p added to `m`. */
  function VswrMetrics(src: MetricSource, m: Metrics, p: nat): Metrics
  {
    if p == 0 then m
    else WithVswrMetric(src, VswrMetrics(src, m, p - 1), p)
  }

  /** The map `calculate_metrics` builds for an n-port network. */
  function MetricsOf(src: MetricSource, n: nat): Metrics
  {
    VswrMetrics(src, GainMetrics(src, n, n), n)
  }

  /** Networks a measurement carries are well formed. */
  predicate HasWellFormedData(m: Measurement)
  {
    m.touchstone.Some? ==> WellFormed(m.touchstone.value)
  }

  const NoTouchstoneData: Error := ValueError("Measurement has no touchstone data")

  /** `calculate_metrics(measurement, freq_min, freq_max)`. */
  method CalculateMetrics(nu: Numerics, m: Measurement, fmin: real, fmax: real) returns (r: Result<Metrics>)
    requires HasWellFormedData(m)
    ensures m.touchstone.None? ==> r == Err(NoTouchstoneData)
    ensures m.touchstone.Some? ==>
              r == Ok(MetricsOf(SourceOf(nu, m.touchstone.value, fmin, fmax), m.touchstone.value.nports))
  {
    if m.touchstone.None? {
      return Err(NoTouchstoneData);
    }
    var net := m.touchstone.value;
    var src := SourceOf(nu, net, fmin, fmax);
    var metrics := GainMetricsLoop(src, net.nports);
    metrics := VswrMetricsLoop(src, metrics, net.nports);
    return Ok(metrics);
  }

  /** The nested port loops of `calculate_metrics`: output ports outside, input ports inside. */
  method GainMetricsLoop(src: MetricSource, n: nat) returns (metrics: Metrics)
    ensures metrics == GainMetrics(src, n, n)
  {
    metrics := map[];
    for o := 1 to n + 1
      invariant metrics == GainMetrics(src, n, o - 1)
    {
      metrics := RowMetricsLoop(src, metrics, o, n);
    }
  }

  /** The inner port loop of `calculate_metrics`: output port `o` against input ports 1..n. */
  method RowMetricsLoop(src: MetricSource, metrics: Metrics, o: int, n: nat) returns (r: Metrics)
    ensures r == RowMetrics(src, metrics, o, n)
  {
    r := metrics;
    for i := 1 to n + 1
      invariant r == RowMetrics(src, metrics, o, i - 1)
    {
      r := AddGainMetrics(src, r, Devices.Label(o, i));
    }
  }

  /** The body of the inner port loop: Gain Range, then Flatness, then Lowest In-Band Gain, each skipped on an error. */
  method AddGainMetrics(src: MetricSource, metrics: Metrics, sp: string) returns (r: Metrics)
    ensures r == WithGainMetrics(src, metrics, sp)
  {
    r := metrics;
    var gr := src.gainRange(sp);
    if gr.Ok? {
      r := r[sp + GainRangeSuffix := GainRangeMetric(gr.value.0, gr.value.1)];
      var fl := src.flatness(sp);
      if fl.Ok? {
        r := r[sp + FlatnessSuffix := ScalarMetric(fl.value)];
        var lw := src.lowest(sp);
        if lw.Ok? {
          r := r[sp + LowestSuffix := ScalarMetric(lw.value)];
        }
      }
    }
  }

  /** The VSWR loop of `calculate_metrics`: one entry per port whose VSWR can be computed. */
  method VswrMetricsLoop(src: MetricSource, metrics: Metrics, n: nat) returns (r: Metrics)
    ensures r == VswrMetrics(src, metrics, n)
  {
    r := metrics;
    for p := 1 to n + 1
      invariant r == VswrMetrics(src, metrics, p - 1)
    {
      var v := src.vswr(p);
      if v.Ok? {
        r := r[Devices.Label(p, p) + VswrSuffix := ScalarMetric(v.value)];
      }
    }
  }

  // ---------------------------------------------------------------- what the metrics map holds

  /**
   * The three gain entries of label `l`: present exactly when its gain range can be
   * computed, holding the range, its spread (max - min) and its lower end.
   */
  ghost predicate GainEntries(src: MetricSource, m: Metrics, l: string)
  {
    var gr := src.gainRange(l);
    && (l + GainRangeSuffix in m <==> gr.Ok?)
    && (l + FlatnessSuffix in m <==> gr.Ok?)
    && (l + LowestSuffix in m <==> gr.Ok?)
    && (gr.Ok? ==>
          && m[l + GainRangeSuffix] == GainRangeMetric(gr.value.0, gr.value.1)
          && m[l + FlatnessSuffix] == ScalarMetric(gr.value.1 - gr.value.0)
          && m[l + LowestSuffix] == ScalarMetric(gr.value.0))
  }

  /** The VSWR entry of port `p`: present exactly when its VSWR can be computed, holding it. */
  ghost predicate VswrEntry(src: MetricSource, m: Metrics, p: int)
  {
    && (Devices.Label(p, p) + VswrSuffix in m <==> src.vswr(p).Ok?)
    && (src.vswr(p).Ok? ==> m[Devices.Label(p, p) + VswrSuffix] == ScalarMetric(src.vswr(p).value))
  }

  /** The gain entries of one label are all written or none, from one gain range. */
  lemma WithGainMetricsShape(src: MetricSource, m: Metrics, l: string)
    requires Coherent(src)
    ensures var gr := src.gainRange(l);
            WithGainMetrics(src, m, l)
              == if gr.Err? then m
                 else m[l + GainRangeSuffix := GainRangeMetric(gr.value.0, gr.value.1)]
                       [l + FlatnessSuffix := ScalarMetric(gr.value.1 - gr.value.0)]
                       [l + LowestSuffix := ScalarMetric(gr.value.0)]
  {
  }

  /** Adding the gain entries of a label that has none yet, or the right ones already, establishes them. */
  lemma WithGainMetricsEstablishes(src: MetricSource, m: Metrics, l2: string)
    requires Coherent(src)
    requires || GainEntries(src, m, l2)
             || (l2 + GainRangeSuffix !in m && l2 + FlatnessSuffix !in m && l2 + LowestSuffix !in m)
    ensures GainEntries(src, WithGainMetrics(src, m, l2), l2)
  {
    WithGainMetricsShape(src, m, l2);
    forall s, s' | IsSuffix(s) && IsSuffix(s') && s != s' ensures l2 + s != l2 + s' {
      if l2 + s == l2 + s' { KeyInjective(l2, s, l2, s'); }
    }
  }

  /** Adding the gain entries of `l2` leaves every key of another label, and every VSWR key, alone. */
  lemma WithGainMetricsFrame(src: MetricSource, m: Metrics, l2: string, l: string, s: string)
    requires Coherent(src) && IsSuffix(s) && (l != l2 || s == VswrSuffix)
    ensures var m' := WithGainMetrics(src, m, l2);
            (l + s in m' <==> l + s in m) && (l + s in m ==> m'[l + s] == m[l + s])
  {
    WithGainMetricsShape(src, m, l2);
    forall s' | s' == GainRangeSuffix || s' == FlatnessSuffix || s' == LowestSuffix ensures l + s != l2 + s' {
      if l + s == l2 + s' { KeyInjective(l, s, l2, s'); }
    }
  }

  /** Adding the gain entries of `l2` keeps every label's gain entries and every VSWR entry. */
  lemma WithGainMetricsPreserves(src: MetricSource, m: Metrics, l2: string)
    requires Coherent(src)
    ensures var m' := WithGainMetrics(src, m, l2);
            && (forall l :: GainEntries(src, m, l) ==> GainEntries(src, m', l))
            && (forall p :: VswrEntry(src, m, p) ==> VswrEntry(src, m', p))
  {
    var m' := WithGainMetrics(src, m, l2);
    forall l | GainEntries(src, m, l) ensures GainEntries(src, m', l) {
      if l == l2 {
        WithGainMetricsEstablishes(src, m, l2);
      } else {
        WithGainMetricsFrame(src, m, l2, l, GainRangeSuffix);
        WithGainMetricsFrame(src, m, l2, l, FlatnessSuffix);
        WithGainMetricsFrame(src, m, l2, l, LowestSuffix);
      }
    }
    forall p | VswrEntry(src, m, p) ensures VswrEntry(src, m', p) {
      WithGainMetricsFrame(src, m, l2, Devices.Label(p, p), VswrSuffix);
    }
  }

  /** A label's gain entries are either all absent or all correct. */
  ghost predicate GainSettled(src: MetricSource, m: Metrics, l: string)
  {
    || GainEntries(src, m, l)
    || (l + GainRangeSuffix !in m && l + FlatnessSuffix !in m && l + LowestSuffix !in m)
  }

  /** A port's VSWR entry is either absent or correct. */
  ghost predicate VswrSettled(src: MetricSource, m: Metrics, p: int)
  {
    VswrEntry(src, m, p) || Devices.Label(p, p) + VswrSuffix !in m
  }

  /** Adding the gain entries of `l2` keeps every label settled and writes no VSWR key. */
  lemma WithGainMetricsSettles(src: MetricSource, m: Metrics, l2: string)
    requires Coherent(src)
    requires forall l :: GainSettled(src, m, l)
    ensures var m' := WithGainMetrics(src, m, l2);
            && (forall l :: GainSettled(src, m', l))
            && (forall p :: Devices.Label(p, p) + VswrSuffix in m' <==> Devices.Label(p, p) + VswrSuffix in m)
  {
    var m' := WithGainMetrics(src, m, l2);
    WithGainMetricsPreserves(src, m, l2);
    forall l ensures GainSettled(src, m', l) {
      assert GainSettled(src, m, l);
      if l == l2 {
        WithGainMetricsEstablishes(src, m, l2);
      } else {
        WithGainMetricsFrame(src, m, l2, l, GainRangeSuffix);
        WithGainMetricsFrame(src, m, l2, l, FlatnessSuffix);
        WithGainMetricsFrame(src, m, l2, l, LowestSuffix);
      }
    }
    forall p ensures Devices.Label(p, p) + VswrSuffix in m' <==> Devices.Label(p, p) + VswrSuffix in m {
      WithGainMetricsFrame(src, m, l2, Devices.Label(p, p), VswrSuffix);
    }
  }

  /** Row `o` up to input port i keeps every label settled and writes no VSWR key. */
  lemma {:induction false} RowMetricsSettles(src: MetricSource, m: Metrics, o: int, i: nat)
    requires Coherent(src)
    requires forall l :: GainSettled(src, m, l)
    ensures forall l :: GainSettled(src, RowMetrics(src, m, o, i), l)
    ensures forall p :: Devices.Label(p, p) + VswrSuffix in RowMetrics(src, m, o, i) <==> Devices.Label(p, p) + VswrSuffix in m
  {
    if i > 0 {
      var prev := RowMetrics(src, m, o, i - 1);
      RowMetricsSettles(src, m, o, i - 1);
      WithGainMetricsSettles(src, prev, Devices.Label(o, i));
    }
  }

  /** Row `o` keeps every gain entry already in place. */
  lemma {:induction false} RowMetricsKeeps(src: MetricSource, m: Metrics, o: int, i: nat)
    requires Coherent(src)
    ensures forall l :: GainEntries(src, m, l) ==> GainEntries(src, RowMetrics(src, m, o, i), l)
  {
    if i > 0 {
      RowMetricsKeeps(src, m, o, i - 1);
      WithGainMetricsPreserves(src, RowMetrics(src, m, o, i - 1), Devices.Label(o, i));
    }
  }

  /** After row `o` up to input port i, the labels S{o}{1}..S{o}{i} have their gain entries. */
  lemma {:induction false} RowMetricsSpec(src: MetricSource, m: Metrics, o: int, i: nat)
    requires Coherent(src)
    requires forall l :: GainSettled(src, m, l)
    ensures forall k :: 1 <= k <= i ==> GainEntries(src, RowMetrics(src, m, o, i), Devices.Label(o, k))
  {
    if i > 0 {
      var prev := RowMetrics(src, m, o, i - 1);
      RowMetricsSpec(src, m, o, i - 1);
      RowMetricsSettles(src, m, o, i - 1);
      assert GainSettled(src, prev, Devices.Label(o, i));
      WithGainMetricsEstablishes(src, prev, Devices.Label(o, i));
      WithGainMetricsPreserves(src, prev, Devices.Label(o, i));
    }
  }

  /** After output ports 1..o, every label S{o'}{i'} with o' <= o and i' <= n has its gain entries, and no VSWR key exists. */
  lemma {:induction false} GainMetricsSpec(src: MetricSource, n: nat, o: nat)
    requires Coherent(src)
    ensures var g := GainMetrics(src, n, o);
            && (forall l :: GainSettled(src, g, l))
            && (forall a, b :: 1 <= a <= o && 1 <= b <= n ==> GainEntries(src, g, Devices.Label(a, b)))
            && (forall p :: Devices.Label(p, p) + VswrSuffix !in g)
  {
    if o > 0 {
      var prev := GainMetrics(src, n, o - 1);
      GainMetricsSpec(src, n, o - 1);
      RowMetricsSettles(src, prev, o, n);
      RowMetricsKeeps(src, prev, o, n);
      RowMetricsSpec(src, prev, o, n);
    }
  }

  /** Adding the VSWR entry of port `p2` settles it and keeps every gain entry and every other port's entry. */
  lemma WithVswrMetricSpec(src: MetricSource, m: Metrics, p2: int)
    requires VswrSettled(src, m, p2)
    ensures var m' := WithVswrMetric(src, m, p2);
            && VswrEntry(src, m', p2)
            && (forall p :: VswrSettled(src, m, p) ==> VswrSettled(src, m', p))
            && (forall l :: GainEntries(src, m, l) ==> GainEntries(src, m', l))
  {
    var m' := WithVswrMetric(src, m, p2);
    var key := Devices.Label(p2, p2) + VswrSuffix;
    forall p | VswrSettled(src, m, p) ensures VswrSettled(src, m', p) {
      if Devices.Label(p, p) + VswrSuffix == key {
        KeyInjective(Devices.Label(p, p), VswrSuffix, Devices.Label(p2, p2), VswrSuffix);
        Devices.ReflectionLabelInjectiveAnySign(p, p2);
      }
    }
    forall l | GainEntries(src, m, l) ensures GainEntries(src, m', l) {
      forall s | s == GainRangeSuffix || s == FlatnessSuffix || s == LowestSuffix ensures l + s != key {
        if l + s == key { KeyInjective(l, s, Devices.Label(p2, p2), VswrSuffix); }
      }
    }
  }

  /** After ports 1..p the VSWR entries of those ports are in place, and the gain entries are kept. */
  lemma {:induction false} VswrMetricsSpec(src: MetricSource, m: Metrics, p: nat)
    requires forall q :: VswrSettled(src, m, q)
    ensures forall q :: VswrSettled(src, VswrMetrics(src, m, p), q)
    ensures forall q :: 1 <= q <= p ==> VswrEntry(src, VswrMetrics(src, m, p), q)
    ensures forall l :: GainEntries(src, m, l) ==> GainEntries(src, VswrMetrics(src, m, p), l)
  {
    if p > 0 {
      var prev := VswrMetrics(src, m, p - 1);
      VswrMetricsSpec(src, m, p - 1);
      assert VswrSettled(src, prev, p);
      WithVswrMetricSpec(src, prev, p);
      var v := WithVswrMetric(src, prev, p);
      forall q | 1 <= q <= p ensures VswrEntry(src, v, q) {
        if q < p {
          assert VswrEntry(src, prev, q);
          assert VswrSettled(src, v, q);
          if Devices.Label(q, q) + VswrSuffix == Devices.Label(p, p) + VswrSuffix {
            KeyInjective(Devices.Label(q, q), VswrSuffix, Devices.Label(p, p), VswrSuffix);
            Devices.ReflectionLabelInjectiveAnySign(q, p);
          }
        }
      }
      forall q ensures VswrSettled(src, v, q) {
        assert VswrSettled(src, prev, q);
      }
    }
  }

  /**
   * The metrics of an n-port network: for every port pair (o, i) in 1..n the keys
   * "S{o}{i} Gain Range", "S{o}{i} Flatness" and "S{o}{i} Lowest In-Band Gain" are present
   * exactly when the gain range of S{o}{i} can be computed, holding (min, max), max - min
   * and min; for every port p in 1..n, "S{p}{p} VSWR" is present exactly when its
   * windowed VSWR can be computed, holding it.
   */
  lemma MetricsOfSpec(src: MetricSource, n: nat)
    requires Coherent(src)
    ensures forall o, i :: 1 <= o <= n && 1 <= i <= n ==> GainEntries(src, MetricsOf(src, n), Devices.Label(o, i))
    ensures forall p :: 1 <= p <= n ==> VswrEntry(src, MetricsOf(src, n), p)
  {
    var g := GainMetrics(src, n, n);
    GainMetricsSpec(src, n, n);
    VswrMetricsSpec(src, g, n);
  }

  /** The metrics the calculator yields: every port pair and every port of the network has its entries. */
  lemma CalculatedMetricsSpec(nu: Numerics, net: Network, fmin: real, fmax: real)
    requires WellFormed(net)
    ensures var src := SourceOf(nu, net, fmin, fmax);
            (forall o, i :: 1 <= o <= net.nports && 1 <= i <= net.nports ==>
               GainEntries(src, MetricsOf(src, net.nports), Devices.Label(o, i)))
            && (forall p :: 1 <= p <= net.nports ==> VswrEntry(src, MetricsOf(src, net.nports), p))
  {
    SourceOfCoherent(nu, net, fmin, fmax);
    MetricsOfSpec(SourceOf(nu, net, fmin, fmax), net.nports);
  }

  // ---------------------------------------------------------------- dispatch

  /** Which evaluator a requirement goes to. */
  datatype Family = GainRangeFamily | FlatnessFamily | VswrFamily | OobFamily | Unrecognised

  /**
   * The dispatch of `_evaluate_criterion_for_all_s_params` on the lower-cased
   * requirement name, first match wins: "gain" and "range", then "flatness", then
   * "vswr", then a criterion with both OOB frequency bounds.
   */
  function FamilyOf(c: TestCriteria): (f: Family)
    ensures var name := Text.Lower(c.requirementName);
            && (f == GainRangeFamily <==> Text.Contains(name, "gain") && Text.Contains(name, "range"))
            && (f == FlatnessFamily <==> !(Text.Contains(name, "gain") && Text.Contains(name, "range"))
                                         && Text.Contains(name, "flatness"))
            && (f == OobFamily ==> c.frequencyMin.Some? && c.frequencyMax.Some? && !Text.Contains(name, "vswr"))
            && (f == Unrecognised <==> !Text.Contains(name, "flatness") && !Text.Contains(name, "vswr")
                                       && !(Text.Contains(name, "gain") && Text.Contains(name, "range"))
                                       && (c.frequencyMin.None? || c.frequencyMax.None?))
  {
    var name := Text.Lower(c.requirementName);
    if Text.Contains(name, "gain") && Text.Contains(name, "range") then GainRangeFamily
    else if Text.Contains(name, "flatness") then FlatnessFamily
    else if Text.Contains(name, "vswr") then VswrFamily
    else if c.frequencyMin.Some? && c.frequencyMax.Some? then OobFamily
    else Unrecognised
  }

  /** "Gain Flatness" mentions gain but not range, so it is evaluated as flatness. */
  lemma GainFlatnessIsFlatness(c: TestCriteria)
    requires c.requirementName == "Gain Flatness"
    ensures FamilyOf(c) == FlatnessFamily
  {
    GainFlatnessWords(Text.Lower(c.requirementName));
  }

  /** The lower-cased "Gain Flatness" contains "flatness" and not "range". */
  lemma GainFlatnessWords(name: string)
    requires name == Text.Lower("Gain Flatness")
    ensures !Text.Contains(name, "range") && Text.Contains(name, "flatness")
  {
    LowerGainFlatness();
    NoRange(name);
    HasFlatness(name);
  }

  lemma LowerGainFlatness()
    ensures Text.Lower("Gain Flatness") == "gain flatness"
  {
  }

  lemma NoRange(name: string)
    requires name == "gain flatness"
    ensures !Text.Contains(name, "range")
  {
    assert 'r' !in name;
    Text.MissingCharNotContained(name, "range", 0);
  }

  lemma HasFlatness(name: string)
    requires name == "gain flatness"
    ensures Text.Contains(name, "flatness")
  {
    assert Text.OccursAt(name, "flatness", 5);
    Text.ContainsAt(name, "flatness", 5);
  }

  /** "Gain Range" is evaluated as a gain range. */
  lemma GainRangeIsGainRange(c: TestCriteria)
    requires c.requirementName == "Gain Range"
    ensures FamilyOf(c) == GainRangeFamily
  {
    var name := Text.Lower(c.requirementName);
    assert name == "gain range";
    assert Text.OccursAt(name, "gain", 0);
    Text.ContainsAt(name, "gain", 0);
    assert Text.OccursAt(name, "range", 5);
    Text.ContainsAt(name, "range", 5);
  }

  /** "VSWR Max" is evaluated as VSWR. */
  lemma VswrMaxIsVswr(c: TestCriteria)
    requires c.requirementName == "VSWR Max"
    ensures FamilyOf(c) == VswrFamily
  {
    var name := Text.Lower(c.requirementName);
    assert name == "vswr max";
    Text.MissingCharNotContained(name, "gain", 0);
    Text.MissingCharNotContained(name, "flatness", 0);
    assert Text.OccursAt(name, "vswr", 0);
    Text.ContainsAt(name, "vswr", 0);
  }

  /** A name such as "OOB 1" is evaluated as OOB exactly when both band edges are set, and yields nothing otherwise. */
  lemma OobNameDispatch(c: TestCriteria)
    requires c.requirementName == "OOB 1"
    ensures FamilyOf(c) == (if c.frequencyMin.Some? && c.frequencyMax.Some? then OobFamily else Unrecognised)
  {
    var name := Text.Lower(c.requirementName);
    assert name == "oob 1";
    Text.MissingCharNotContained(name, "gain", 0);
    Text.MissingCharNotContained(name, "flatness", 0);
    Text.MissingCharNotContained(name, "vswr", 0);
  }

  // ---------------------------------------------------------------- per-label evaluators

  /** What the evaluators of one measurement share: its metrics, its network and the operational band. */
  datatype Setting = Setting(nu: Numerics, net: Network, metrics: Metrics, measurementId: Id, opMin: real, opMax: real)

  /** `criterion.evaluate(metric)` on a metrics value; a gain-range dict cannot be compared with a bound. */
  function EvaluateMetric(c: TestCriteria, mt: Metric): (r: Result<bool>)
    ensures mt.ScalarMetric? ==> r == Evaluate(c, mt.value)
    ensures r.Ok? ==> mt.ScalarMetric?
  {
    match mt
    case ScalarMetric(v) => Evaluate(c, v)
    case GainRangeMetric(_, _) =>
      if c.criteriaType in AllowedCriteriaTypes then Err(TypeError) else Err(TestCriteriaError("Unknown criteria_type"))
  }

  /** `_evaluate_gain_range_criterion`: passes iff both ends of the range pass; the measured value is the maximum. */
  function GainRangeResult(s: Setting, c: TestCriteria, l: string): (r: Result<Option<TestResult>>)
    ensures l + GainRangeSuffix !in s.metrics ==> r == Ok(None)
    ensures l + GainRangeSuffix in s.metrics && s.metrics[l + GainRangeSuffix].GainRangeMetric? ==>
              var g := s.metrics[l + GainRangeSuffix];
              && (r.Ok? <==> Evaluate(c, g.min).Ok? && Evaluate(c, g.max).Ok?)
              && (r.Ok? ==> r.value == Some(TestResult(s.measurementId, c.id, g.max,
                                                       Evaluate(c, g.min).value && Evaluate(c, g.max).value, l)))
  {
    var key := l + GainRangeSuffix;
    if key !in s.metrics then Ok(None)
    else
      match s.metrics[key]
      case ScalarMetric(_) => Err(TypeError)
      case GainRangeMetric(minGain, maxGain) =>
        var minPass :- Evaluate(c, minGain);
        var maxPass :- Evaluate(c, maxGain);
        Ok(Some(TestResult(s.measurementId, c.id, maxGain, minPass && maxPass, l)))
  }

  /** `_evaluate_flatness_criterion` and `_evaluate_vswr_criterion`: the metric under `l + suffix`, evaluated. */
  function ScalarResult(s: Setting, c: TestCriteria, l: string, suffix: string): (r: Result<Option<TestResult>>)
    ensures l + suffix !in s.metrics ==> r == Ok(None)
    ensures l + suffix in s.metrics && s.metrics[l + suffix].ScalarMetric? ==>
              var v := s.metrics[l + suffix].value;
              && (r.Ok? <==> Evaluate(c, v).Ok?)
              && (r.Ok? ==> r.value == Some(TestResult(s.measurementId, c.id, v, Evaluate(c, v).value, l)))
  {
    var key := l + suffix;
    if key !in s.metrics then Ok(None)
    else
      var passed :- EvaluateMetric(c, s.metrics[key]);
      Ok(Some(TestResult(s.measurementId, c.id, s.metrics[key].value, passed, l)))
  }

  /** The truthiness of `criterion.min_value`: present and non-zero. */
  predicate Truthy(v: Option<real>)
  {
    v.Some? && v.value != 0.0
  }

  /**
   * `_evaluate_oob_criterion`: the worst-case rejection over the criterion's band; a
   * calculation that raises ValueError or IndexError gives no result.
   */
  function OobResult(s: Setting, c: TestCriteria, l: string): (r: Option<TestResult>)
    requires WellFormed(s.net)
    ensures r.Some? ==> c.frequencyMin.Some? && c.frequencyMax.Some?
    ensures r.Some? ==>
              var rej := Calculator.OobRejection(s.nu, s.net, c.frequencyMin.value, c.frequencyMax.value, s.opMin, s.opMax, l);
              rej.Ok? && r.value.measuredValue == rej.value
              && (r.value.passed <==> Truthy(c.minValue) && rej.value >= c.minValue.value)
  {
    if c.frequencyMin.None? || c.frequencyMax.None? then None
    else
      match Calculator.OobRejection(s.nu, s.net, c.frequencyMin.value, c.frequencyMax.value, s.opMin, s.opMax, l)
      case Err(_) => None
      case Ok(rejection) =>
        var passed := if Truthy(c.minValue) then rejection >= c.minValue.value else false;
        Some(TestResult(s.measurementId, c.id, rejection, passed, l))
  }

  /** A requirement of None or 0.0 dBc never passes, whatever the rejection. */
  lemma OobFalsyRequirementFails(s: Setting, c: TestCriteria, l: string)
    requires WellFormed(s.net) && (c.minValue.None? || c.minValue.value == 0.0)
    ensures OobResult(s, c, l).Some? ==> !OobResult(s, c, l).value.passed
  {
  }

  /** The evaluator a family applies to one label. */
  function LabelResult(s: Setting, fam: Family, c: TestCriteria, l: string): (r: Result<Option<TestResult>>)
    requires WellFormed(s.net)
    ensures r.Ok? && r.value.Some? ==>
              r.value.value.sParameter == l && r.value.value.criteriaId == c.id
              && r.value.value.measurementId == s.measurementId
  {
    match fam
    case GainRangeFamily => GainRangeResult(s, c, l)
    case FlatnessFamily => ScalarResult(s, c, l, FlatnessSuffix)
    case VswrFamily => ScalarResult(s, c, l, VswrSuffix)
    case OobFamily => Ok(OobResult(s, c, l))
    case Unrecognised => Ok(None)
  }

  // ---------------------------------------------------------------- fan-out

  /** What evaluating one label yields: an error, nothing, or one result. */
  type Outcome = Result<Option<TestResult>>

  /** The outcome of each label, in label order. */
  function Outcomes(s: Setting, fam: Family, c: TestCriteria, labels: seq<string>): seq<Outcome>
    requires WellFormed(s.net)
  {
    seq(|labels|, k requires 0 <= k < |labels| => LabelResult(s, fam, c, labels[k]))
  }

  /** The results of a list of outcomes, in order; the first error aborts and an empty outcome is skipped. */
  function Gather(os: seq<Outcome>): Result<seq<TestResult>>
  {
    if os == [] then Ok([])
    else
      var pre :- Gather(os[..|os| - 1]);
      var x :- os[|os| - 1];
      Ok(pre + if x.Some? then [x.value] else [])
  }

  /** The results of one family over `labels`, in label order; the first raising label aborts. */
  function FamilyResults(s: Setting, fam: Family, c: TestCriteria, labels: seq<string>): Result<seq<TestResult>>
    requires WellFormed(s.net)
  {
    Gather(Outcomes(s, fam, c, labels))
  }

  /** The labels a family fans out over: the gain labels, or the reflection labels for VSWR. */
  function LabelsFor(fam: Family, gainLabels: seq<string>, vswrLabels: seq<string>): seq<string>
  {
    match fam
    case VswrFamily => vswrLabels
    case Unrecognised => []
    case _ => gainLabels
  }

  /** `_evaluate_criterion_for_all_s_params`. */
  function CriterionResults(s: Setting, c: TestCriteria, gainLabels: seq<string>, vswrLabels: seq<string>): Result<seq<TestResult>>
    requires WellFormed(s.net)
  {
    FamilyResults(s, FamilyOf(c), c, LabelsFor(FamilyOf(c), gainLabels, vswrLabels))
  }

  /** The loop of `evaluate_compliance` over the criteria, results concatenated in criterion order. */
  function AllResults(s: Setting, criteria: seq<TestCriteria>, gainLabels: seq<string>, vswrLabels: seq<string>): Result<seq<TestResult>>
    requires WellFormed(s.net)
  {
    if criteria == [] then Ok([])
    else
      var pre :- AllResults(s, criteria[..|criteria| - 1], gainLabels, vswrLabels);
      var next :- CriterionResults(s, criteria[|criteria| - 1], gainLabels, vswrLabels);
      Ok(pre + next)
  }

  lemma GatherStep(os: seq<Outcome>, k: nat)
    requires k < |os|
    ensures Gather(os[..k + 1])
            == (var pre :- Gather(os[..k]);
                var x :- os[k];
                Ok(pre + if x.Some? then [x.value] else []))
  {
    assert os[..k + 1][..k] == os[..k];
  }

  /** Once a prefix of the outcomes raises, the whole list raises the same error. */
  lemma {:induction false} GatherAbort(os: seq<Outcome>, k: nat)
    requires k <= |os| && Gather(os[..k]).Err?
    ensures Gather(os) == Gather(os[..k])
    decreases |os| - k
  {
    if k < |os| {
      GatherStep(os, k);
      GatherAbort(os, k + 1);
    } else {
      assert os[..k] == os;
    }
  }

  /** The fan-out loop over one label list. */
  method CollectResults(s: Setting, fam: Family, c: TestCriteria, labels: seq<string>) returns (r: Result<seq<TestResult>>)
    requires WellFormed(s.net)
    ensures r == FamilyResults(s, fam, c, labels)
  {
    ghost var os := Outcomes(s, fam, c, labels);
    var results: seq<TestResult> := [];
    for k := 0 to |labels|
      invariant Gather(os[..k]) == Ok(results)
    {
      GatherStep(os, k);
      var result := LabelResult(s, fam, c, labels[k]);
      assert result == os[k];
      if result.Err? {
        GatherAbort(os, k + 1);
        return Err(result.error);
      }
      if result.value.Some? {
        results := results + [result.value.value];
      } else {
        assert results + [] == results;
      }
    }
    assert os[..|labels|] == os;
    return Ok(results);
  }

  /** `_evaluate_criterion_for_all_s_params(criterion, ...)`. */
  method EvaluateCriterionForAllSParams(s: Setting, c: TestCriteria, gainLabels: seq<string>, vswrLabels: seq<string>)
    returns (r: Result<seq<TestResult>>)
    requires WellFormed(s.net)
    ensures r == CriterionResults(s, c, gainLabels, vswrLabels)
  {
    var reqName := Text.Lower(c.requirementName);
    if Text.Contains(reqName, "gain") && Text.Contains(reqName, "range") {
      r := CollectResults(s, GainRangeFamily, c, gainLabels);
    } else if Text.Contains(reqName, "flatness") {
      r := CollectResults(s, FlatnessFamily, c, gainLabels);
    } else if Text.Contains(reqName, "vswr") {
      r := CollectResults(s, VswrFamily, c, vswrLabels);
    } else if c.frequencyMin.Some? && c.frequencyMax.Some? {
      r := CollectResults(s, OobFamily, c, gainLabels);
    } else {
      r := Ok([]);
    }
  }

  lemma AllResultsStep(s: Setting, criteria: seq<TestCriteria>, gl: seq<string>, vl: seq<string>, k: nat)
    requires WellFormed(s.net) && k < |criteria|
    ensures AllResults(s, criteria[..k + 1], gl, vl)
            == (var pre :- AllResults(s, criteria[..k], gl, vl);
                var next :- CriterionResults(s, criteria[k], gl, vl);
                Ok(pre + next))
  {
    assert criteria[..k + 1][..k] == criteria[..k];
  }

  lemma {:induction false} AllResultsAbort(s: Setting, criteria: seq<TestCriteria>, gl: seq<string>, vl: seq<string>, k: nat)
    requires WellFormed(s.net) && k <= |criteria| && AllResults(s, criteria[..k], gl, vl).Err?
    ensures AllResults(s, criteria, gl, vl) == AllResults(s, criteria[..k], gl, vl)
    decreases |criteria| - k
  {
    if k < |criteria| {
      AllResultsStep(s, criteria, gl, vl, k);
      AllResultsAbort(s, criteria, gl, vl, k + 1);
    } else {
      assert criteria[..k] == criteria;
    }
  }

  /** The gain labels `get_gain_s_parameters(n)` returns. */
  function GainLabels(d: Devices.Device, n: int): seq<string>
  {
    Sorting.SortStrings(Devices.GainLabelsInLoopOrder(d.inputPorts, d.outputPorts, n))
  }

  /** The setting `evaluate_compliance` evaluates a measurement's network in. */
  function SettingOf(nu: Numerics, m: Measurement, opMin: real, opMax: real): Setting
    requires m.touchstone.Some? && WellFormed(m.touchstone.value)
  {
    var net := m.touchstone.value;
    Setting(nu, net, MetricsOf(SourceOf(nu, net, opMin, opMax), net.nports), m.id, opMin, opMax)
  }

  /**
   * What `evaluate_compliance` yields: ValueError without touchstone data, otherwise the
   * results of every criterion over the device's gain and reflection labels.
   */
  function ComplianceOf(nu: Numerics, m: Measurement, d: Devices.Device, criteria: seq<TestCriteria>, opMin: real, opMax: real)
    : Result<seq<TestResult>>
    requires HasWellFormedData(m)
  {
    if m.touchstone.None? then Err(NoTouchstoneData)
    else
      var n := m.touchstone.value.nports;
      AllResults(SettingOf(nu, m, opMin, opMax), criteria, GainLabels(d, n), Devices.VswrSParameters(d, n))
  }

  /** `SParametersTestType.evaluate_compliance(measurement, device, test_criteria, freq_min, freq_max)`. */
  method EvaluateCompliance(nu: Numerics, m: Measurement, d: Devices.Device, criteria: seq<TestCriteria>, opMin: real, opMax: real)
    returns (r: Result<seq<TestResult>>)
    requires HasWellFormedData(m)
    ensures r == ComplianceOf(nu, m, d, criteria, opMin, opMax)
  {
    var metrics :- CalculateMetrics(nu, m, opMin, opMax);
    var net := m.touchstone.value;
    var n := net.nports;
    var gainSParams := Devices.GetGainSParameters(d, n);
    var vswrSParams := Devices.VswrSParameters(d, n);
    var s := Setting(nu, net, metrics, m.id, opMin, opMax);
    var results: seq<TestResult> := [];
    for k := 0 to |criteria|
      invariant AllResults(s, criteria[..k], gainSParams, vswrSParams) == Ok(results)
    {
      AllResultsStep(s, criteria, gainSParams, vswrSParams, k);
      var criterionResults := EvaluateCriterionForAllSParams(s, criteria[k], gainSParams, vswrSParams);
      if criterionResults.Err? {
        AllResultsAbort(s, criteria, gainSParams, vswrSParams, k + 1);
        return Err(criterionResults.error);
      }
      results := results + criterionResults.value;
    }
    assert criteria[..|criteria|] == criteria;
    return Ok(results);
  }

  // ---------------------------------------------------------------- what the evaluation yields

  /** `a` can be obtained from `b` by deleting elements (order kept). */
  predicate IsSubsequence<T(==)>(a: seq<T>, b: seq<T>)
    decreases |a| + |b|
  {
    if a == [] then true
    else if b == [] then false
    else if a[|a| - 1] == b[|b| - 1] then IsSubsequence(a[..|a| - 1], b[..|b| - 1])
    else IsSubsequence(a, b[..|b| - 1])
  }

  lemma {:induction false} SubsequenceDropLast<T>(a: seq<T>, b: seq<T>)
    requires a != [] && IsSubsequence(a, b)
    ensures IsSubsequence(a[..|a| - 1], b)
    decreases |b|, 0
  {
    var a', b' := a[..|a| - 1], b[..|b| - 1];
    if a[|a| - 1] == b[|b| - 1] {
      if a' != [] {
        SubsequenceExtend(a'[..|a'| - 1], b', b[|b| - 1]) by {
          SubsequenceDropLast(a', b');
        }
        SubsequenceExtend(a', b', b[|b| - 1]);
        assert b' + [b[|b| - 1]] == b;
      }
    } else {
      SubsequenceDropLast(a, b');
      SubsequenceExtend(a', b', b[|b| - 1]);
      assert b' + [b[|b| - 1]] == b;
    }
  }

  lemma {:induction false} SubsequenceExtend<T>(a: seq<T>, b: seq<T>, x: T)
    requires IsSubsequence(a, b)
    ensures IsSubsequence(a, b + [x])
    decreases |b|, 1
  {
    assert (b + [x])[..|b|] == b;
    if a != [] && a[|a| - 1] == x {
      SubsequenceDropLast(a, b);
    }
  }

  lemma {:induction false} SubsequenceLength<T>(a: seq<T>, b: seq<T>)
    requires IsSubsequence(a, b)
    ensures |a| <= |b|
    decreases |a| + |b|
  {
    if a != [] && b != [] {
      if a[|a| - 1] == b[|b| - 1] {
        SubsequenceLength(a[..|a| - 1], b[..|b| - 1]);
      } else {
        SubsequenceLength(a, b[..|b| - 1]);
      }
    }
  }

  /** The S-parameter tags of a list of results. */
  function SParametersOf(rs: seq<TestResult>): (ls: seq<string>)
    ensures |ls| == |rs| && forall k :: 0 <= k < |rs| ==> ls[k] == rs[k].sParameter
  {
    if rs == [] then [] else SParametersOf(rs[..|rs| - 1]) + [rs[|rs| - 1].sParameter]
  }

  /** Outcomes that are tagged with their labels gather into a subsequence of the labels. */
  lemma {:induction false} GatherOrder(os: seq<Outcome>, labels: seq<string>)
    requires |os| == |labels|
    requires forall k :: 0 <= k < |os| && os[k].Ok? && os[k].value.Some? ==> os[k].value.value.sParameter == labels[k]
    ensures Gather(os).Ok? ==> IsSubsequence(SParametersOf(Gather(os).value), labels)
  {
    var r := Gather(os);
    if os != [] && r.Ok? {
      var init, last := labels[..|labels| - 1], labels[|labels| - 1];
      var os' := os[..|os| - 1];
      GatherOrder(os', init);
      var pre := Gather(os').value;
      var x := os[|os| - 1].value;
      if x.Some? {
        assert r.value == pre + [x.value];
        assert SParametersOf(r.value)[..|pre|] == SParametersOf(pre);
      } else {
        assert r.value == pre;
        SubsequenceExtend(SParametersOf(pre), init, last);
        assert init + [last] == labels;
      }
    }
  }

  /** Outcomes that carry a criterion and a measurement gather into results that all carry them. */
  lemma {:induction false} GatherTags(os: seq<Outcome>, cid: Id, mid: Id)
    requires forall k :: 0 <= k < |os| && os[k].Ok? && os[k].value.Some? ==>
               os[k].value.value.criteriaId == cid && os[k].value.value.measurementId == mid
    ensures Gather(os).Ok? ==>
              forall k :: 0 <= k < |Gather(os).value| ==>
                Gather(os).value[k].criteriaId == cid && Gather(os).value[k].measurementId == mid
  {
    var r := Gather(os);
    if os != [] && r.Ok? {
      var os' := os[..|os| - 1];
      GatherTags(os', cid, mid);
      var pre := Gather(os').value;
      var x := os[|os| - 1].value;
      assert r.value == pre + if x.Some? then [x.value] else [];
    }
  }

  /** Outcomes that all hold a result tagged with their label gather into one result per label, in label order. */
  lemma {:induction false} GatherComplete(os: seq<Outcome>, labels: seq<string>)
    requires |os| == |labels|
    requires forall k :: 0 <= k < |os| ==> os[k].Ok? && os[k].value.Some? && os[k].value.value.sParameter == labels[k]
    ensures Gather(os).Ok? && SParametersOf(Gather(os).value) == labels
  {
    if os != [] {
      var init := labels[..|labels| - 1];
      GatherComplete(os[..|os| - 1], init);
      assert labels == init + [labels[|labels| - 1]];
    }
  }

  /** An empty outcome drops out without affecting any other outcome. */
  lemma {:induction false} GatherSkip(os: seq<Outcome>, k: nat)
    requires k < |os| && os[k] == Ok(None)
    ensures Gather(os) == Gather(os[..k] + os[k + 1..])
  {
    var init := os[..|os| - 1];
    if k == |os| - 1 {
      assert os[..k] + os[k + 1..] == init;
      var pre := Gather(init);
      if pre.Ok? { assert pre.value + [] == pre.value; }
    } else {
      GatherSkip(init, k);
      var without := os[..k] + os[k + 1..];
      assert without[..|without| - 1] == init[..k] + init[k + 1..];
      assert without[|without| - 1] == os[|os| - 1];
    }
  }

  /** The outcome of label k carries label k, the criterion and the measurement. */
  lemma OutcomeTagged(s: Setting, fam: Family, c: TestCriteria, labels: seq<string>, k: nat, o: Outcome)
    requires WellFormed(s.net) && k < |labels|
    requires o == Outcomes(s, fam, c, labels)[k] && o.Ok? && o.value.Some?
    ensures o.value.value.sParameter == labels[k] && o.value.value.criteriaId == c.id
    ensures o.value.value.measurementId == s.measurementId
  {
    var r := LabelResult(s, fam, c, labels[k]);
    assert Outcomes(s, fam, c, labels)[k] == r;
  }

  /** Each label's outcome is tagged with that label. */
  lemma OutcomesLabelled(s: Setting, fam: Family, c: TestCriteria, labels: seq<string>, os: seq<Outcome>)
    requires WellFormed(s.net) && os == Outcomes(s, fam, c, labels)
    ensures forall k :: 0 <= k < |os| && os[k].Ok? && os[k].value.Some? ==> os[k].value.value.sParameter == labels[k]
  {
    forall k | 0 <= k < |os| && os[k].Ok? && os[k].value.Some?
      ensures os[k].value.value.sParameter == labels[k]
    {
      OutcomeTagged(s, fam, c, labels, k, os[k]);
    }
  }

  /** The fan-out of one criterion: results come in label order, each tagged with its label. */
  lemma FamilyResultsOrder(s: Setting, fam: Family, c: TestCriteria, labels: seq<string>, results: seq<TestResult>)
    requires WellFormed(s.net) && FamilyResults(s, fam, c, labels) == Ok(results)
    ensures IsSubsequence(SParametersOf(results), labels)
  {
    var os := Outcomes(s, fam, c, labels);
    OutcomesLabelled(s, fam, c, labels, os);
    GatherOrder(os, labels);
  }

  /** The fan-out of one criterion yields at most one result per label. */
  lemma FamilyResultsCount(s: Setting, fam: Family, c: TestCriteria, labels: seq<string>, results: seq<TestResult>)
    requires WellFormed(s.net) && FamilyResults(s, fam, c, labels) == Ok(results)
    ensures |results| <= |labels|
  {
    FamilyResultsOrder(s, fam, c, labels, results);
    SubsequenceLength(SParametersOf(results), labels);
  }

  /** Every result of the fan-out of one criterion carries that criterion and the measurement. */
  lemma FamilyResultsTags(s: Setting, fam: Family, c: TestCriteria, labels: seq<string>, results: seq<TestResult>)
    requires WellFormed(s.net) && FamilyResults(s, fam, c, labels) == Ok(results)
    ensures forall k :: 0 <= k < |results| ==> results[k].criteriaId == c.id && results[k].measurementId == s.measurementId
  {
    var os := Outcomes(s, fam, c, labels);
    forall k | 0 <= k < |os| && os[k].Ok? && os[k].value.Some?
      ensures os[k].value.value.criteriaId == c.id && os[k].value.value.measurementId == s.measurementId
    {
      OutcomeTagged(s, fam, c, labels, k, os[k]);
    }
    GatherTags(os, c.id, s.measurementId);
  }

  /** When every label yields a result, the fan-out has exactly one result per label, in label order. */
  lemma FamilyResultsComplete(s: Setting, fam: Family, c: TestCriteria, labels: seq<string>)
    requires WellFormed(s.net)
    requires forall l :: l in labels ==> LabelResult(s, fam, c, l).Ok? && LabelResult(s, fam, c, l).value.Some?
    ensures var r := FamilyResults(s, fam, c, labels);
            r.Ok? && |r.value| == |labels| && SParametersOf(r.value) == labels
  {
    var os := Outcomes(s, fam, c, labels);
    forall k | 0 <= k < |os|
      ensures os[k].Ok? && os[k].value.Some? && os[k].value.value.sParameter == labels[k]
    {
      assert labels[k] in labels;
      assert os[k] == LabelResult(s, fam, c, labels[k]);
    }
    GatherComplete(os, labels);
  }

  /** A label that yields no result drops out without affecting any other label's result. */
  lemma FamilyResultsSkip(s: Setting, fam: Family, c: TestCriteria, labels: seq<string>, k: nat)
    requires WellFormed(s.net) && k < |labels| && LabelResult(s, fam, c, labels[k]) == Ok(None)
    ensures FamilyResults(s, fam, c, labels) == FamilyResults(s, fam, c, labels[..k] + labels[k + 1..])
  {
    var os := Outcomes(s, fam, c, labels);
    OutcomesWithout(s, fam, c, labels, k);
    GatherSkip(os, k);
  }

  /** Dropping label k drops its outcome and keeps the others in order. */
  lemma OutcomesWithout(s: Setting, fam: Family, c: TestCriteria, labels: seq<string>, k: nat)
    requires WellFormed(s.net) && k < |labels|
    ensures Outcomes(s, fam, c, labels[..k] + labels[k + 1..])
            == Outcomes(s, fam, c, labels)[..k] + Outcomes(s, fam, c, labels)[k + 1..]
  {
    var os := Outcomes(s, fam, c, labels);
    var without := labels[..k] + labels[k + 1..];
    var ws := Outcomes(s, fam, c, without);
    forall j | 0 <= j < |ws| ensures ws[j] == (os[..k] + os[k + 1..])[j] {
      if j < k {
        assert without[j] == labels[j];
      } else {
        assert without[j] == labels[j + 1];
      }
    }
  }

  /** The ids of a list of criteria. */
  function CriteriaIds(cs: seq<TestCriteria>): (ids: seq<Id>)
    ensures |ids| == |cs| && forall j :: 0 <= j < |cs| ==> ids[j] == cs[j].id
  {
    if cs == [] then [] else CriteriaIds(cs[..|cs| - 1]) + [cs[|cs| - 1].id]
  }

  /** Every result of an evaluation belongs to one of the criteria and to the measurement. */
  lemma {:induction false} AllResultsShape(s: Setting, criteria: seq<TestCriteria>, gl: seq<string>, vl: seq<string>)
    requires WellFormed(s.net)
    ensures AllResults(s, criteria, gl, vl).Ok? ==>
              forall k :: 0 <= k < |AllResults(s, criteria, gl, vl).value| ==>
                && AllResults(s, criteria, gl, vl).value[k].measurementId == s.measurementId
                && AllResults(s, criteria, gl, vl).value[k].criteriaId in CriteriaIds(criteria)
  {
    var r := AllResults(s, criteria, gl, vl);
    if criteria != [] && r.Ok? {
      var init, c := criteria[..|criteria| - 1], criteria[|criteria| - 1];
      AllResultsShape(s, init, gl, vl);
      var pre := AllResults(s, init, gl, vl).value;
      var next := CriterionResults(s, c, gl, vl).value;
      assert r.value == pre + next;
      FamilyResultsTags(s, FamilyOf(c), c, LabelsFor(FamilyOf(c), gl, vl), next);
      assert CriteriaIds(criteria) == CriteriaIds(init) + [c.id];
      forall k | 0 <= k < |r.value|
        ensures r.value[k].measurementId == s.measurementId && r.value[k].criteriaId in CriteriaIds(criteria)
      {
        if k < |pre| {
          assert r.value[k] == pre[k];
        } else {
          assert r.value[k] == next[k - |pre|];
          assert next == FamilyResults(s, FamilyOf(c), c, LabelsFor(FamilyOf(c), gl, vl)).value;
        }
      }
    }
  }

  // ---------------------------------------------------------------- per-label results on calculated metrics

  /** A gain-range result read from entries written by `src`: none without a range, else max and both ends evaluated. */
  lemma GainRangeFromEntries(s: Setting, src: MetricSource, c: TestCriteria, l: string)
    requires WellFormed(s.net) && GainEntries(src, s.metrics, l) && NewTestCriteria(c).Ok?
    ensures src.gainRange(l).Err? ==> LabelResult(s, GainRangeFamily, c, l) == Ok(None)
    ensures src.gainRange(l).Ok? ==>
              LabelResult(s, GainRangeFamily, c, l)
                == Ok(Some(TestResult(s.measurementId, c.id, src.gainRange(l).value.1,
                                      Evaluate(c, src.gainRange(l).value.0).value && Evaluate(c, src.gainRange(l).value.1).value, l)))
  {
    if src.gainRange(l).Ok? {
      EvaluateTotal(c, src.gainRange(l).value.0);
      EvaluateTotal(c, src.gainRange(l).value.1);
    }
  }

  /** A flatness result read from entries written by `src`: none without a range, else max - min evaluated. */
  lemma FlatnessFromEntries(s: Setting, src: MetricSource, c: TestCriteria, l: string)
    requires WellFormed(s.net) && GainEntries(src, s.metrics, l) && NewTestCriteria(c).Ok?
    ensures src.gainRange(l).Err? ==> LabelResult(s, FlatnessFamily, c, l) == Ok(None)
    ensures src.gainRange(l).Ok? ==>
              LabelResult(s, FlatnessFamily, c, l)
                == Ok(Some(TestResult(s.measurementId, c.id, src.gainRange(l).value.1 - src.gainRange(l).value.0,
                                      Evaluate(c, src.gainRange(l).value.1 - src.gainRange(l).value.0).value, l)))
  {
    if src.gainRange(l).Ok? {
      EvaluateTotal(c, src.gainRange(l).value.1 - src.gainRange(l).value.0);
    }
  }

  /** A VSWR result read from the entry written by `src` for port p: none without a VSWR, else the VSWR evaluated. */
  lemma VswrFromEntry(s: Setting, src: MetricSource, c: TestCriteria, p: int)
    requires WellFormed(s.net) && VswrEntry(src, s.metrics, p) && NewTestCriteria(c).Ok?
    ensures src.vswr(p).Err? ==> LabelResult(s, VswrFamily, c, Devices.Label(p, p)) == Ok(None)
    ensures src.vswr(p).Ok? ==>
              LabelResult(s, VswrFamily, c, Devices.Label(p, p))
                == Ok(Some(TestResult(s.measurementId, c.id, src.vswr(p).value, Evaluate(c, src.vswr(p).value).value,
                                      Devices.Label(p, p))))
  {
    if src.vswr(p).Ok? {
      EvaluateTotal(c, src.vswr(p).value);
    }
  }

  /** For a range criterion, a gain-range result passes exactly when [min_value, max_value] contains the whole gain range. */
  lemma GainRangePassesIffWithinLimits(s: Setting, src: MetricSource, c: TestCriteria, l: string)
    requires WellFormed(s.net) && Coherent(src) && GainEntries(src, s.metrics, l) && Valid(c) && c.criteriaType == "range"
    requires src.gainRange(l).Ok?
    ensures LabelResult(s, GainRangeFamily, c, l).Ok? && LabelResult(s, GainRangeFamily, c, l).value.Some?
    ensures LabelResult(s, GainRangeFamily, c, l).value.value.passed
            <==> c.minValue.value <= src.gainRange(l).value.0 && src.gainRange(l).value.1 <= c.maxValue.value
  {
    NewTestCriteriaIffValid(c);
    GainRangeFromEntries(s, src, c, l);
    RangeIsInclusive(c, src.gainRange(l).value.0);
    RangeIsInclusive(c, src.gainRange(l).value.1);
    assert src.gainRange(l).value.0 <= src.gainRange(l).value.1;
  }

  /** The VSWR entry of one port, as `calculate_metrics` writes it. */
  lemma VswrEntryOf(nu: Numerics, net: Network, fmin: real, fmax: real, p: int)
    requires WellFormed(net) && 1 <= p <= net.nports
    ensures var src := SourceOf(nu, net, fmin, fmax); VswrEntry(src, MetricsOf(src, net.nports), p)
  {
    CalculatedMetricsSpec(nu, net, fmin, fmax);
  }

  /**
   * On the metrics `calculate_metrics` writes, a "max" or "less_than_equal" VSWR criterion
   * yields a result for every port of the network, and it passes exactly when the VSWR at
   * every frequency of the operational window is within the criterion's maximum.
   */
  lemma VswrMaxPassesIffWithinLimit(s: Setting, c: TestCriteria, p: int)
    requires WellFormed(s.net) && s.metrics == MetricsOf(SourceOf(s.nu, s.net, s.opMin, s.opMax), s.net.nports)
    requires Valid(c) && IsUpperBoundType(c.criteriaType)
    requires 1 <= p <= s.net.nports && |s.net.f| > 0
    ensures var r := LabelResult(s, VswrFamily, c, Devices.Label(p, p));
            var v := Calculator.PortVswrs(s.nu, Calculator.FilterFrequencyRange(s.net, s.opMin, s.opMax), p - 1);
            && r.Ok? && r.value.Some?
            && (r.value.value.passed <==> forall k :: 0 <= k < |v| ==> v[k] <= c.maxValue.value)
  {
    var x := SourceOf(s.nu, s.net, s.opMin, s.opMax).vswr(p);
    VswrResultOfMetrics(s, c, p);
    PortVswrIsWorst(s.nu, s.net, s.opMin, s.opMax, p);
    WorstWithinIff(Calculator.PortVswrs(s.nu, Calculator.FilterFrequencyRange(s.net, s.opMin, s.opMax), p - 1), x.value, c.maxValue.value);
  }

  /** `SourceOfVswrIsWorst` for a port given by its number. */
  lemma PortVswrIsWorst(nu: Numerics, net: Network, fmin: real, fmax: real, p: int)
    requires WellFormed(net) && 1 <= p <= net.nports && SourceOf(nu, net, fmin, fmax).vswr(p).Ok?
    ensures var v := Calculator.PortVswrs(nu, Calculator.FilterFrequencyRange(net, fmin, fmax), p - 1);
            && (forall k :: 0 <= k < |v| ==> v[k] <= SourceOf(nu, net, fmin, fmax).vswr(p).value)
            && (exists k :: 0 <= k < |v| && v[k] == SourceOf(nu, net, fmin, fmax).vswr(p).value)
  {
    var w := Calculator.FilterFrequencyRange(net, fmin, fmax);
    Calculator.ReflectionIndexOfPort(w, p);
    SourceOfVswrIsWorst(nu, net, fmin, fmax, p);
    var v := Calculator.PortVswrs(nu, w, p - 1);
    assert v == Calculator.PortVswrs(nu, w, Calculator.ReflectionIndex(w, p).value);
  }

  /** On the metrics `calculate_metrics` writes, the VSWR result of a port compares the recorded VSWR with the maximum. */
  lemma VswrResultOfMetrics(s: Setting, c: TestCriteria, p: int)
    requires WellFormed(s.net) && s.metrics == MetricsOf(SourceOf(s.nu, s.net, s.opMin, s.opMax), s.net.nports)
    requires Valid(c) && IsUpperBoundType(c.criteriaType)
    requires 1 <= p <= s.net.nports && |s.net.f| > 0
    ensures var x := SourceOf(s.nu, s.net, s.opMin, s.opMax).vswr(p);
            && x.Ok?
            && LabelResult(s, VswrFamily, c, Devices.Label(p, p))
                 == Ok(Some(TestResult(s.measurementId, c.id, x.value, x.value <= c.maxValue.value, Devices.Label(p, p))))
  {
    var src := SourceOf(s.nu, s.net, s.opMin, s.opMax);
    Calculator.VswrSpec(s.nu, s.net, p, s.opMin, s.opMax);
    VswrEntryOf(s.nu, s.net, s.opMin, s.opMax, p);
    NewTestCriteriaIffValid(c);
    VswrFromEntry(s, src, c, p);
    UpperBoundSemantics(c, src.vswr(p).value);
  }

  /** The largest of some values is within a limit exactly when every value is. */
  lemma WorstWithinIff(v: seq<real>, x: real, limit: real)
    requires forall k :: 0 <= k < |v| ==> v[k] <= x
    requires exists k :: 0 <= k < |v| && v[k] == x
    ensures x <= limit <==> forall k :: 0 <= k < |v| ==> v[k] <= limit
  {
  }

  // ---------------------------------------------------------------- result counts

  /** When every criterion yields k results, the evaluation yields k per criterion, in criterion order. */
  lemma {:induction false} AllResultsLength(s: Setting, criteria: seq<TestCriteria>, gl: seq<string>, vl: seq<string>, k: nat)
    requires WellFormed(s.net)
    requires forall c :: c in criteria ==> CriterionResults(s, c, gl, vl).Ok? && |CriterionResults(s, c, gl, vl).value| == k
    ensures AllResults(s, criteria, gl, vl).Ok? && |AllResults(s, criteria, gl, vl).value| == |criteria| * k
  {
    if criteria != [] {
      var init, c := criteria[..|criteria| - 1], criteria[|criteria| - 1];
      forall x | x in init
        ensures CriterionResults(s, x, gl, vl).Ok? && |CriterionResults(s, x, gl, vl).value| == k
      {
        assert x in criteria;
      }
      AllResultsLength(s, init, gl, vl, k);
      assert c in criteria;
      Devices.MulSuccessor(|init|, k);
    }
  }

  /**
   * The reference configuration, inputs [1, 2] and outputs [3, 4] on a 4-port network:
   * every recognised criterion fans out over four labels (S31, S32, S41, S42, or S11,
   * S22, S33, S44 for VSWR), so when each label yields a result it gives four results.
   */
  lemma ReferenceCriterionCount(s: Setting, c: TestCriteria, d: Devices.Device)
    requires WellFormed(s.net) && d.inputPorts == [1, 2] && d.outputPorts == [3, 4] && FamilyOf(c) != Unrecognised
    requires forall l :: l in LabelsFor(FamilyOf(c), GainLabels(d, 4), Devices.VswrSParameters(d, 4)) ==>
               LabelResult(s, FamilyOf(c), c, l).Ok? && LabelResult(s, FamilyOf(c), c, l).value.Some?
    ensures CriterionResults(s, c, GainLabels(d, 4), Devices.VswrSParameters(d, 4)).Ok?
    ensures |CriterionResults(s, c, GainLabels(d, 4), Devices.VswrSParameters(d, 4)).value| == 4
  {
    Devices.GainLabelsExample();
    Devices.VswrLabelsExample(d);
    var labels := LabelsFor(FamilyOf(c), GainLabels(d, 4), Devices.VswrSParameters(d, 4));
    assert |labels| == 4;
    FamilyResultsComplete(s, FamilyOf(c), c, labels);
  }

  /** Gain range, flatness, VSWR and OOB criteria on the reference configuration: 16 results in all. */
  lemma ReferenceEvaluationCount(s: Setting, criteria: seq<TestCriteria>, d: Devices.Device)
    requires WellFormed(s.net) && d.inputPorts == [1, 2] && d.outputPorts == [3, 4] && |criteria| == 4
    requires forall c :: c in criteria ==> FamilyOf(c) != Unrecognised
    requires forall c, l :: c in criteria && l in LabelsFor(FamilyOf(c), GainLabels(d, 4), Devices.VswrSParameters(d, 4)) ==>
               LabelResult(s, FamilyOf(c), c, l).Ok? && LabelResult(s, FamilyOf(c), c, l).value.Some?
    ensures AllResults(s, criteria, GainLabels(d, 4), Devices.VswrSParameters(d, 4)).Ok?
    ensures |AllResults(s, criteria, GainLabels(d, 4), Devices.VswrSParameters(d, 4)).value| == 16
  {
    forall c | c in criteria
      ensures CriterionResults(s, c, GainLabels(d, 4), Devices.VswrSParameters(d, 4)).Ok?
      ensures |CriterionResults(s, c, GainLabels(d, 4), Devices.VswrSParameters(d, 4)).value| == 4
    {
      ReferenceCriterionCount(s, c, d);
    }
    AllResultsLength(s, criteria, GainLabels(d, 4), Devices.VswrSParameters(d, 4), 4);
  }
}
