/**
 * SParameterCalculator: the frequency window, the gain and reflection
 * metrics reduced over it, and the VSWR to return-loss conversion.
 * Band edges are given in GHz and scaled to Hz.
 */
module Calculator {
  import opened Exceptions
  import opened RfNetwork
  import Sorting
  import Text

  const GHz: real := 1000000000.0

  // ---------------------------------------------------------------- reductions

  /** `np.min` of a non-empty array: attained, and below every element. */
  function Min(s: seq<real>): (m: real)
    requires |s| > 0
    ensures (exists k :: 0 <= k < |s| && s[k] == m) && forall k :: 0 <= k < |s| ==> m <= s[k]
  {
    if |s| == 1 then s[0]
    else
      var t := Min(s[1..]);
      assert forall k :: 1 <= k < |s| ==> s[k] == s[1..][k - 1];
      if s[0] <= t then s[0] else t
  }

  /** `np.max` of a non-empty array: attained, and above every element. */
  function Max(s: seq<real>): (m: real)
    requires |s| > 0
    ensures (exists k :: 0 <= k < |s| && s[k] == m) && forall k :: 0 <= k < |s| ==> s[k] <= m
  {
    if |s| == 1 then s[0]
    else
      var t := Max(s[1..]);
      assert forall k :: 1 <= k < |s| ==> s[k] == s[1..][k - 1];
      if s[0] >= t then s[0] else t
  }

  /** `np.clip(x, lo, hi)` with lo <= hi. */
  function Clip(x: real, lo: real, hi: real): (r: real)
    requires lo <= hi
    ensures lo <= r <= hi
    ensures lo <= x <= hi ==> r == x
    ensures x < lo ==> r == lo
    ensures x > hi ==> r == hi
  {
    if x < lo then lo else if x > hi then hi else x
  }

  // ---------------------------------------------------------------- frequency window

  /** `f[(f >= lo) & (f <= hi)]`. */
  function InRange(f: seq<real>, lo: real, hi: real): (r: seq<real>)
    ensures forall x :: x in r <==> x in f && lo <= x <= hi
  {
    if f == [] then []
    else (if lo <= f[0] <= hi then [f[0]] else []) + InRange(f[1..], lo, hi)
  }

  /** The requested band in Hz put in order: `if freq_min > freq_max: swap`. */
  function Ordered(lo: real, hi: real): (r: (real, real))
    ensures r.0 <= r.1
    ensures {r.0, r.1} == {lo, hi}
  {
    if lo > hi then (hi, lo) else (lo, hi)
  }

  /** The lower window edge, clamped into the sweep. */
  function WindowMin(f: seq<real>, lo: real, hi: real): real
    requires |f| > 0
  {
    Clip(Ordered(lo, hi).0, Min(f), Max(f))
  }

  /** The upper window edge, clamped into the sweep. */
  function WindowMax(f: seq<real>, lo: real, hi: real): real
    requires |f| > 0
  {
    Clip(Ordered(lo, hi).1, Min(f), Max(f))
  }

  /** The frequencies the window interpolates onto: `unique(sort(concat(interior, [tmin, tmax])))`. */
  function WindowTargets(f: seq<real>, lo: real, hi: real): seq<real>
    requires |f| > 0
  {
    var tmin, tmax := WindowMin(f, lo, hi), WindowMax(f, lo, hi);
    Sorting.SortedRealSet(InRange(f, tmin, tmax) + [tmin, tmax])
  }

  /** The clamped edges are ordered and lie inside the sweep. */
  lemma WindowEdges(f: seq<real>, lo: real, hi: real)
    requires |f| > 0
    ensures Min(f) <= WindowMin(f, lo, hi) <= WindowMax(f, lo, hi) <= Max(f)
  {
  }

  /**
   * The window targets increase strictly, start at the clamped lower edge, end at
   * the clamped upper edge, and are exactly the in-range samples plus the two edges.
   */
  lemma WindowTargetsSpec(f: seq<real>, lo: real, hi: real)
    requires |f| > 0
    ensures var t := WindowTargets(f, lo, hi);
            && |t| >= 1 && StrictlyIncreasing(t)
            && t[0] == WindowMin(f, lo, hi) && t[|t| - 1] == WindowMax(f, lo, hi)
            && (forall x :: x in t <==>
                  (x in f && WindowMin(f, lo, hi) <= x <= WindowMax(f, lo, hi))
                  || x == WindowMin(f, lo, hi) || x == WindowMax(f, lo, hi))
  {
    WindowEdges(f, lo, hi);
    EdgedSetSpec(InRange(f, WindowMin(f, lo, hi), WindowMax(f, lo, hi)), WindowMin(f, lo, hi), WindowMax(f, lo, hi));
  }

  /** The sorted set of some values in [tmin, tmax] together with tmin and tmax runs from tmin to tmax. */
  lemma EdgedSetSpec(inner: seq<real>, tmin: real, tmax: real)
    requires tmin <= tmax && forall x :: x in inner ==> tmin <= x <= tmax
    ensures var t := Sorting.SortedRealSet(inner + [tmin, tmax]);
            && |t| >= 1 && StrictlyIncreasing(t) && t[0] == tmin && t[|t| - 1] == tmax
            && (forall x :: x in t <==> x in inner || x == tmin || x == tmax)
  {
    var t := Sorting.SortedRealSet(inner + [tmin, tmax]);
    assert tmin in t && tmax in t;
    assert forall x :: x in t ==> tmin <= x <= tmax;
    var i :| 0 <= i < |t| && t[i] == tmin;
    var j :| 0 <= j < |t| && t[j] == tmax;
    assert t[0] <= t[i] && t[0] in t;
    assert t[j] <= t[|t| - 1] && t[|t| - 1] in t;
  }

  /** For a strictly increasing sweep, `f.min()` and `f.max()` are its first and last sample. */
  lemma SweepEnds(f: seq<real>)
    requires |f| > 0 && StrictlyIncreasing(f)
    ensures Min(f) == f[0] && Max(f) == f[|f| - 1]
  {
  }

  /** Every window target lies within the sweep, so it can be interpolated. */
  lemma WindowTargetsInSweep(f: seq<real>, lo: real, hi: real)
    requires |f| > 0 && StrictlyIncreasing(f)
    ensures var t := WindowTargets(f, lo, hi);
            StrictlyIncreasing(t) && forall k :: 0 <= k < |t| ==> f[0] <= t[k] <= f[|f| - 1]
  {
    WindowTargetsSpec(f, lo, hi);
    WindowEdges(f, lo, hi);
    SweepEnds(f);
    var t := WindowTargets(f, lo, hi);
    forall k | 0 <= k < |t| ensures f[0] <= t[k] <= f[|f| - 1] {
      assert t[k] in t;
    }
  }

  /** `filter_frequency_range(network, freq_min, freq_max)`, bounds in GHz. */
  function FilterFrequencyRange(net: Network, fminGHz: real, fmaxGHz: real): (r: Network)
    requires WellFormed(net)
    ensures WellFormed(r) && r.nports == net.nports
    ensures |net.f| == 0 ==> r == net
    ensures |net.f| > 0 ==> r.f == WindowTargets(net.f, fminGHz * GHz, fmaxGHz * GHz)
  {
    if |net.f| == 0 then net
    else
      WindowTargetsInSweep(net.f, fminGHz * GHz, fmaxGHz * GHz);
      // The tolerance mask afterwards keeps every target (WindowMaskKeepsAll).
      Interpolate(net, WindowTargets(net.f, fminGHz * GHz, fmaxGHz * GHz))
  }

  const TenToMinusNine: real := 0.000000001

  /** The tolerance mask `(f >= tmin - 1e-9) & (f <= tmax + 1e-9)` applied after interpolation selects every target. */
  lemma WindowMaskKeepsAll(f: seq<real>, lo: real, hi: real, k: nat)
    requires |f| > 0 && k < |WindowTargets(f, lo, hi)|
    ensures WindowMin(f, lo, hi) - TenToMinusNine <= WindowTargets(f, lo, hi)[k] <= WindowMax(f, lo, hi) + TenToMinusNine
  {
    WindowTargetsSpec(f, lo, hi);
    WindowEdges(f, lo, hi);
    assert WindowTargets(f, lo, hi)[k] in WindowTargets(f, lo, hi);
  }

  /** A window reaching past both ends of the sweep keeps the sweep's own frequencies. */
  lemma WindowCoveringSweep(net: Network, fminGHz: real, fmaxGHz: real)
    requires WellFormed(net) && |net.f| > 0
    requires fminGHz * GHz <= net.f[0] && net.f[|net.f| - 1] <= fmaxGHz * GHz
    ensures FilterFrequencyRange(net, fminGHz, fmaxGHz).f == net.f
  {
    var f := net.f;
    SweepEnds(f);
    WindowTargetsSpec(f, fminGHz * GHz, fmaxGHz * GHz);
    var t := WindowTargets(f, fminGHz * GHz, fmaxGHz * GHz);
    assert WindowMin(f, fminGHz * GHz, fmaxGHz * GHz) == f[0];
    assert WindowMax(f, fminGHz * GHz, fmaxGHz * GHz) == f[|f| - 1];
    forall x ensures x in t <==> x in f {
      if x in f {
        var k :| 0 <= k < |f| && f[k] == x;
        assert f[0] <= x <= f[|f| - 1] by {
          if k > 0 { assert f[0] < f[k]; }
          if k < |f| - 1 { assert f[k] < f[|f| - 1]; }
        }
      }
    }
    Sorting.IncreasingRealsUnique(t, f);
  }

  /** A window inside the sweep keeps its own edges and the samples between them. */
  lemma WindowInsideSweep(net: Network, fminGHz: real, fmaxGHz: real)
    requires WellFormed(net) && |net.f| > 0
    requires net.f[0] <= fminGHz * GHz <= fmaxGHz * GHz <= net.f[|net.f| - 1]
    ensures var t := FilterFrequencyRange(net, fminGHz, fmaxGHz).f;
            |t| >= 1 && t[0] == fminGHz * GHz && t[|t| - 1] == fmaxGHz * GHz
            && forall x :: x in net.f && fminGHz * GHz <= x <= fmaxGHz * GHz ==> x in t
  {
    SweepEnds(net.f);
    WindowTargetsSpec(net.f, fminGHz * GHz, fmaxGHz * GHz);
  }

  // ---------------------------------------------------------------- gain

  /** `re.match(r"S(\d)(\d)", s_param)`: one digit per port, each turned into a 0-based index. */
  function ParseSParam(sp: string): (r: Option<(int, int)>)
    ensures r.Some? <==> |sp| >= 3 && sp[0] == 'S' && Text.IsDigit(sp[1]) && Text.IsDigit(sp[2])
    ensures r.Some? ==> -1 <= r.value.0 <= 8 && -1 <= r.value.1 <= 8
  {
    if |sp| >= 3 && sp[0] == 'S' && Text.IsDigit(sp[1]) && Text.IsDigit(sp[2])
    then Some((Text.DigitValue(sp[1]) - 1, Text.DigitValue(sp[2]) - 1))
    else None
  }

  /** `calculate_gain(network, s_param)`: the gain in dB of entry S{out}{in} at every frequency. */
  function Gain(nu: Numerics, net: Network, sp: string): (r: Result<seq<real>>)
    requires WellFormed(net)
    ensures ParseSParam(sp).None? ==> r.Err? && r.error.ValueError?
    ensures ParseSParam(sp).Some? ==>
              (r.Ok? <==> PyIndex(ParseSParam(sp).value.0, net.nports).Some?
                          && PyIndex(ParseSParam(sp).value.1, net.nports).Some?)
    ensures r.Err? ==> r.error.ValueError? || r.error.IndexError?
    ensures r.Ok? ==> |r.value| == |net.f|
  {
    match ParseSParam(sp)
    case None => Err(ValueError("Invalid S-parameter format"))
    case Some((o, i)) =>
      match (PyIndex(o, net.nports), PyIndex(i, net.nports))
      case (Some(oi), Some(ii)) => Ok(seq(|net.f|, k requires 0 <= k < |net.f| => Db(nu, net.s[k][oi][ii])))
      case _ => Err(IndexError)
  }

  /** For single-digit ports, the sp S{o}{i} selects entry (o-1, i-1), exactly when both ports exist. */
  lemma GainOfLabel(nu: Numerics, net: Network, o: int, i: int)
    requires WellFormed(net) && 1 <= o <= 9 && 1 <= i <= 9
    ensures ParseSParam("S" + Text.IntToString(o) + Text.IntToString(i)) == Some((o - 1, i - 1))
    ensures Gain(nu, net, "S" + Text.IntToString(o) + Text.IntToString(i)).Ok? <==> o <= net.nports && i <= net.nports
    ensures o <= net.nports && i <= net.nports ==>
              forall k :: 0 <= k < |net.f| ==>
                Gain(nu, net, "S" + Text.IntToString(o) + Text.IntToString(i)).value[k] == Db(nu, net.s[k][o - 1][i - 1])
  {
    var sp := "S" + Text.IntToString(o) + Text.IntToString(i);
    assert sp == ['S', Text.DigitChar(o), Text.DigitChar(i)];
  }

  /** The sp parser reads one digit per port: "S101" (output 10, input 1) is read as ports 1 and 0. */
  lemma ParseReadsOneDigitPerPort()
    ensures ParseSParam("S" + Text.IntToString(10) + Text.IntToString(1)) == Some((0, -1))
  {
    assert Text.IntToString(10) == "10";
  }

  /** `calculate_gain_range`: the lowest and highest windowed gain. */
  function GainRange(nu: Numerics, net: Network, fminGHz: real, fmaxGHz: real, sp: string): (r: Result<(real, real)>)
    requires WellFormed(net)
    ensures r.Ok? ==> r.value.0 <= r.value.1
    ensures r.Err? ==> r.error.ValueError? || r.error.IndexError?
  {
    var g :- Gain(nu, FilterFrequencyRange(net, fminGHz, fmaxGHz), sp);
    if |g| == 0 then Err(ValueError("zero-size array to reduction operation"))
    else Ok((Min(g), Max(g)))
  }

  /**
   * The gain range bounds the windowed gain from both sides and both bounds are attained;
   * it fails only for a malformed sp, a port the network lacks, or an empty sweep.
   */
  lemma GainRangeSpec(nu: Numerics, net: Network, fminGHz: real, fmaxGHz: real, sp: string)
    requires WellFormed(net)
    ensures var g := Gain(nu, FilterFrequencyRange(net, fminGHz, fmaxGHz), sp);
            var r := GainRange(nu, net, fminGHz, fmaxGHz, sp);
            && (r.Ok? <==> g.Ok? && |net.f| > 0)
            && (r.Ok? ==> (forall k :: 0 <= k < |g.value| ==> r.value.0 <= g.value[k] <= r.value.1)
                          && (exists k :: 0 <= k < |g.value| && g.value[k] == r.value.0)
                          && (exists k :: 0 <= k < |g.value| && g.value[k] == r.value.1))
  {
    var w := FilterFrequencyRange(net, fminGHz, fmaxGHz);
    if |net.f| > 0 {
      WindowTargetsSpec(net.f, fminGHz * GHz, fmaxGHz * GHz);
    }
  }

  /** Limits [a, b] contain the gain range exactly when they contain the windowed gain at every frequency. */
  lemma GainRangeWithinLimits(nu: Numerics, net: Network, fminGHz: real, fmaxGHz: real, sp: string, a: real, b: real)
    requires WellFormed(net) && GainRange(nu, net, fminGHz, fmaxGHz, sp).Ok?
    ensures Gain(nu, FilterFrequencyRange(net, fminGHz, fmaxGHz), sp).Ok?
    ensures (a <= GainRange(nu, net, fminGHz, fmaxGHz, sp).value.0 && GainRange(nu, net, fminGHz, fmaxGHz, sp).value.1 <= b)
            <==> forall k :: 0 <= k < |Gain(nu, FilterFrequencyRange(net, fminGHz, fmaxGHz), sp).value| ==>
                   a <= Gain(nu, FilterFrequencyRange(net, fminGHz, fmaxGHz), sp).value[k] <= b
  {
    GainRangeSpec(nu, net, fminGHz, fmaxGHz, sp);
    var g := Gain(nu, FilterFrequencyRange(net, fminGHz, fmaxGHz), sp).value;
    var r := GainRange(nu, net, fminGHz, fmaxGHz, sp).value;
    if forall k :: 0 <= k < |g| ==> a <= g[k] <= b {
      var j0 :| 0 <= j0 < |g| && g[j0] == r.0;
      var j1 :| 0 <= j1 < |g| && g[j1] == r.1;
      assert a <= g[j0] && g[j1] <= b;
    }
  }

  /** `calculate_flatness`: the spread of the windowed gain. */
  function Flatness(nu: Numerics, net: Network, fminGHz: real, fmaxGHz: real, sp: string): (r: Result<real>)
    requires WellFormed(net)
    ensures r.Ok? <==> GainRange(nu, net, fminGHz, fmaxGHz, sp).Ok?
    ensures r.Ok? ==> r.value >= 0.0
    ensures r.Ok? ==> r.value + GainRange(nu, net, fminGHz, fmaxGHz, sp).value.0
                      == GainRange(nu, net, fminGHz, fmaxGHz, sp).value.1
  {
    var (lo, hi) :- GainRange(nu, net, fminGHz, fmaxGHz, sp);
    Ok(hi - lo)
  }

  /** `calculate_lowest_in_band_gain`: the lower end of the gain range. */
  function LowestInBandGain(nu: Numerics, net: Network, fminGHz: real, fmaxGHz: real, sp: string): (r: Result<real>)
    requires WellFormed(net)
    ensures r.Ok? <==> GainRange(nu, net, fminGHz, fmaxGHz, sp).Ok?
    ensures r.Ok? ==> r.value == GainRange(nu, net, fminGHz, fmaxGHz, sp).value.0
    ensures r.Ok? ==> r.value <= GainRange(nu, net, fminGHz, fmaxGHz, sp).value.1
  {
    var (lo, _) :- GainRange(nu, net, fminGHz, fmaxGHz, sp);
    Ok(lo)
  }

  /** `calculate_oob_rejection`: the worst (smallest) margin of the lowest in-band gain over the out-of-band gain. */
  function OobRejection(nu: Numerics, net: Network, oobMinGHz: real, oobMaxGHz: real,
                        opMinGHz: real, opMaxGHz: real, sp: string): (r: Result<real>)
    requires WellFormed(net)
    ensures r.Ok? ==> LowestInBandGain(nu, net, opMinGHz, opMaxGHz, sp).Ok?
    ensures r.Err? ==> r.error.ValueError? || r.error.IndexError?
  {
    var lowest :- LowestInBandGain(nu, net, opMinGHz, opMaxGHz, sp);
    var g :- Gain(nu, FilterFrequencyRange(net, oobMinGHz, oobMaxGHz), sp);
    var rejections := seq(|g|, k requires 0 <= k < |g| => lowest - g[k]);
    if |rejections| == 0 then Err(ValueError("zero-size array to reduction operation"))
    else Ok(Min(rejections))
  }

  /** The minimum of the margins L - g[k] is L minus the maximum of g. */
  lemma {:induction false} MinOfMargins(l: real, g: seq<real>)
    requires |g| > 0
    ensures Min(seq(|g|, k requires 0 <= k < |g| => l - g[k])) == l - Max(g)
  {
    var m := seq(|g|, k requires 0 <= k < |g| => l - g[k]);
    var lo, hi := Min(m), Max(g);
    var j :| 0 <= j < |g| && g[j] == hi;
    assert lo <= m[j] == l - hi;
    var k :| 0 <= k < |m| && m[k] == lo;
    assert g[k] <= hi;
  }

  /** The OOB rejection is the lowest in-band gain minus the highest gain in the out-of-band window. */
  lemma OobRejectionIsMarginOverPeak(nu: Numerics, net: Network, oobMinGHz: real, oobMaxGHz: real,
                                     opMinGHz: real, opMaxGHz: real, sp: string)
    requires WellFormed(net)
    requires OobRejection(nu, net, oobMinGHz, oobMaxGHz, opMinGHz, opMaxGHz, sp).Ok?
    ensures var g := Gain(nu, FilterFrequencyRange(net, oobMinGHz, oobMaxGHz), sp);
            g.Ok? && |g.value| > 0 &&
            OobRejection(nu, net, oobMinGHz, oobMaxGHz, opMinGHz, opMaxGHz, sp).value
              == LowestInBandGain(nu, net, opMinGHz, opMaxGHz, sp).value - Max(g.value)
  {
    var lowest := LowestInBandGain(nu, net, opMinGHz, opMaxGHz, sp).value;
    var g := Gain(nu, FilterFrequencyRange(net, oobMinGHz, oobMaxGHz), sp).value;
    MinOfMargins(lowest, g);
  }

  // ---------------------------------------------------------------- reflection

  /** A metric with both bounds is reduced to one number; without them it stays a per-frequency array. */
  datatype Reduced = Scalar(value: real) | PerPoint(values: seq<real>)

  /** The entry (p, p) of port `port` (1-based), as numpy indexes it; ValueError for a port the network lacks. */
  function ReflectionIndex(net: Network, port: int): (r: Result<nat>)
    ensures r.Ok? <==> PyIndex(port - 1, net.nports).Some?
    ensures r.Ok? ==> r.value < net.nports
    ensures r.Err? ==> r.error.ValueError?
  {
    match PyIndex(port - 1, net.nports)
    case Some(p) => Ok(p)
    case None => Err(ValueError("Invalid port for network"))
  }

  /** A port numbered 1 to nports is the entry one below its number. */
  lemma ReflectionIndexOfPort(net: Network, port: int)
    requires 1 <= port <= net.nports
    ensures ReflectionIndex(net, port) == Ok(port - 1)
  {
  }

  /** `s_vswr[:, p, p]`: the VSWR of the entry (p, p) at every frequency of `w`. */
  function PortVswrs(nu: Numerics, w: Network, p: nat): seq<real>
    requires WellFormed(w) && p < w.nports
  {
    seq(|w.f|, k requires 0 <= k < |w.f| => nu.vswr(w.s[k][p][p]))
  }

  /** `calculate_vswr(network, port, freq_min, freq_max)`. */
  function Vswr(nu: Numerics, net: Network, port: int, fminGHz: Option<real>, fmaxGHz: Option<real>): (r: Result<Reduced>)
    requires WellFormed(net)
    ensures r.Err? ==> r.error.ValueError?
    ensures r.Ok? ==> (r.value.Scalar? <==> fminGHz.Some? && fmaxGHz.Some?)
  {
    var bounded := fminGHz.Some? && fmaxGHz.Some?;
    var w := if bounded then FilterFrequencyRange(net, fminGHz.value, fmaxGHz.value) else net;
    var p :- ReflectionIndex(w, port);
    var v := PortVswrs(nu, w, p);
    if !bounded then Ok(PerPoint(v))
    else if |v| == 0 then Err(ValueError("zero-size array to reduction operation"))
    else Ok(Scalar(Max(v)))
  }

  /**
   * With a band, `calculate_vswr` fails only for a port the network lacks or an empty sweep,
   * and otherwise returns the worst VSWR of the window: one of its per-frequency values,
   * and no smaller than any of them.
   */
  lemma VswrSpec(nu: Numerics, net: Network, port: int, fminGHz: real, fmaxGHz: real)
    requires WellFormed(net)
    ensures var w := FilterFrequencyRange(net, fminGHz, fmaxGHz);
            var r := Vswr(nu, net, port, Some(fminGHz), Some(fmaxGHz));
            && (r.Ok? <==> PyIndex(port - 1, net.nports).Some? && |net.f| > 0)
            && (r.Ok? ==>
                  var v := PortVswrs(nu, w, ReflectionIndex(w, port).value);
                  && (forall k :: 0 <= k < |v| ==> v[k] <= r.value.value)
                  && (exists k :: 0 <= k < |v| && v[k] == r.value.value))
  {
    if |net.f| > 0 {
      WindowTargetsSpec(net.f, fminGHz * GHz, fmaxGHz * GHz);
    }
  }

  /** Without a band, `calculate_vswr` returns the VSWR of the port at every measured frequency. */
  lemma VswrPerPointSpec(nu: Numerics, net: Network, port: int)
    requires WellFormed(net) && Vswr(nu, net, port, None, None).Ok?
    ensures var v := Vswr(nu, net, port, None, None).value.values;
            var p := ReflectionIndex(net, port).value;
            |v| == |net.f| && forall k :: 0 <= k < |v| ==> v[k] == nu.vswr(net.s[k][p][p])
  {
  }

  /** Every sample of the reflection entry (p, p) has |Gamma| < 1: the port reflects less than it receives. */
  ghost predicate Passive(nu: Numerics, w: Network, p: nat)
    requires WellFormed(w) && p < w.nports
  {
    forall k :: 0 <= k < |w.f| ==> nu.mag(w.s[k][p][p]) < 1.0
  }

  /** (1 + |Gamma|) / (1 - |Gamma|) is at least 1 for |Gamma| < 1, and exactly 1 for a perfect match. */
  lemma VswrOfReflection(nu: Numerics, z: Complex)
    requires Sound(nu) && nu.mag(z) < 1.0
    ensures nu.vswr(z) >= 1.0
    ensures nu.vswr(z) == 1.0 <==> nu.mag(z) == 0.0
  {
    var m := nu.mag(z);
    var v := nu.vswr(z);
    assert m >= 0.0;
    assert v - 1.0 == 2.0 * m / (1.0 - m);
  }

  /** Beyond |Gamma| = 1 the VSWR formula turns negative, so the bound needs a passive port. */
  lemma VswrOfActiveReflection(nu: Numerics, z: Complex)
    requires Sound(nu) && nu.mag(z) > 1.0
    ensures nu.vswr(z) < 0.0
  {
    var m := nu.mag(z);
    var v := nu.vswr(z);
    assert v == -((1.0 + m) / (m - 1.0));
  }

  /** A bounded VSWR of a port that is passive over the window is at least 1. */
  lemma VswrAtLeastOne(nu: Numerics, net: Network, port: int, fminGHz: real, fmaxGHz: real)
    requires WellFormed(net) && Sound(nu) && Vswr(nu, net, port, Some(fminGHz), Some(fmaxGHz)).Ok?
    requires var w := FilterFrequencyRange(net, fminGHz, fmaxGHz);
             Passive(nu, w, ReflectionIndex(w, port).value)
    ensures Vswr(nu, net, port, Some(fminGHz), Some(fmaxGHz)).value.value >= 1.0
  {
    var w := FilterFrequencyRange(net, fminGHz, fmaxGHz);
    var p := ReflectionIndex(w, port).value;
    WorstVswrAtLeastOne(nu, w, p);
  }

  /** The largest VSWR of a passive entry (p, p) over a non-empty sweep is at least 1. */
  lemma WorstVswrAtLeastOne(nu: Numerics, w: Network, p: nat)
    requires WellFormed(w) && Sound(nu) && p < w.nports && |w.f| > 0 && Passive(nu, w, p)
    ensures Max(PortVswrs(nu, w, p)) >= 1.0
  {
    var v := PortVswrs(nu, w, p);
    VswrOfReflection(nu, w.s[0][p][p]);
    assert v[0] >= 1.0 && v[0] <= Max(v);
  }

  /** Every per-frequency VSWR of a passive port, as returned without a band, is at least 1. */
  lemma VswrPerPointAtLeastOne(nu: Numerics, net: Network, port: int)
    requires WellFormed(net) && Sound(nu) && Vswr(nu, net, port, None, None).Ok?
    requires Passive(nu, net, ReflectionIndex(net, port).value)
    ensures forall k :: 0 <= k < |Vswr(nu, net, port, None, None).value.values| ==> Vswr(nu, net, port, None, None).value.values[k] >= 1.0
  {
    var p := ReflectionIndex(net, port).value;
    forall k | 0 <= k < |net.f| ensures nu.vswr(net.s[k][p][p]) >= 1.0 {
      VswrOfReflection(nu, net.s[k][p][p]);
    }
  }

  /** `calculate_vswr` fails exactly for a port outside the network (or an empty bounded window). */
  lemma VswrPortCheck(nu: Numerics, net: Network, port: int)
    requires WellFormed(net)
    ensures Vswr(nu, net, port, None, None).Ok? <==> -(net.nports as int) < port <= net.nports
  {
  }

  /** The return loss of one entry: 20 log10 of its magnitude clipped into [1e-10, 1]. */
  function ReturnLossDb(nu: Numerics, z: Complex): real
  {
    20.0 * nu.log10(Clip(nu.mag(z), TenToMinusTen, 1.0))
  }

  /** Clipping the magnitude bounds every return loss to [-200, 0] dB. */
  lemma ReturnLossDbBounds(nu: Numerics, z: Complex)
    requires Sound(nu)
    ensures -200.0 <= ReturnLossDb(nu, z) <= 0.0
  {
    var c := Clip(nu.mag(z), TenToMinusTen, 1.0);
    assert nu.log10(TenToMinusTen) <= nu.log10(c) <= nu.log10(1.0);
  }

  /** The return loss of the entry (p, p) at every frequency of `w`. */
  function PortReturnLosses(nu: Numerics, w: Network, p: nat): seq<real>
    requires WellFormed(w) && p < w.nports
  {
    seq(|w.f|, k requires 0 <= k < |w.f| => ReturnLossDb(nu, w.s[k][p][p]))
  }

  /**
   * `calculate_return_loss(network, port, freq_min, freq_max)`. With a band it returns
   * `np.min`, the most negative value, which the source calls the worst case although a
   * more negative return loss is the better match.
   */
  function ReturnLoss(nu: Numerics, net: Network, port: int, fminGHz: Option<real>, fmaxGHz: Option<real>): (r: Result<Reduced>)
    requires WellFormed(net)
    ensures r.Err? ==> r.error.ValueError?
    ensures r.Ok? ==> (r.value.Scalar? <==> fminGHz.Some? && fmaxGHz.Some?)
  {
    var bounded := fminGHz.Some? && fmaxGHz.Some?;
    var w := if bounded then FilterFrequencyRange(net, fminGHz.value, fmaxGHz.value) else net;
    var p :- ReflectionIndex(w, port);
    var v := PortReturnLosses(nu, w, p);
    if !bounded then Ok(PerPoint(v))
    else if |v| == 0 then Err(ValueError("zero-size array to reduction operation"))
    else Ok(Scalar(Min(v)))
  }

  /**
   * With a band, `calculate_return_loss` fails only for a port the network lacks or an
   * empty sweep, and otherwise returns the smallest return loss of the window: one of its
   * per-frequency values, and no larger than any of them.
   */
  lemma ReturnLossSpec(nu: Numerics, net: Network, port: int, fminGHz: real, fmaxGHz: real)
    requires WellFormed(net)
    ensures var w := FilterFrequencyRange(net, fminGHz, fmaxGHz);
            var r := ReturnLoss(nu, net, port, Some(fminGHz), Some(fmaxGHz));
            && (r.Ok? <==> PyIndex(port - 1, net.nports).Some? && |net.f| > 0)
            && (r.Ok? ==>
                  var v := PortReturnLosses(nu, w, ReflectionIndex(w, port).value);
                  && (forall k :: 0 <= k < |v| ==> r.value.value <= v[k])
                  && (exists k :: 0 <= k < |v| && v[k] == r.value.value))
  {
    if |net.f| > 0 {
      WindowTargetsSpec(net.f, fminGHz * GHz, fmaxGHz * GHz);
    }
  }

  /** Every return loss the calculator returns lies in [-200, 0] dB. */
  lemma ReturnLossBounds(nu: Numerics, net: Network, port: int, fminGHz: Option<real>, fmaxGHz: Option<real>)
    requires WellFormed(net) && Sound(nu)
    ensures var r := ReturnLoss(nu, net, port, fminGHz, fmaxGHz);
            && (r.Ok? && r.value.Scalar? ==> -200.0 <= r.value.value <= 0.0)
            && (r.Ok? && r.value.PerPoint? ==> forall k :: 0 <= k < |r.value.values| ==> -200.0 <= r.value.values[k] <= 0.0)
  {
    forall z ensures -200.0 <= ReturnLossDb(nu, z) <= 0.0 {
      ReturnLossDbBounds(nu, z);
    }
  }

  /** |Gamma| for a VSWR: (vswr - 1) / (vswr + 1). */
  function ReflectionMagnitude(v: real): (g: real)
    requires v >= 1.0
    ensures 0.0 <= g < 1.0
  {
    var g := (v - 1.0) / (v + 1.0);
    assert g * (v + 1.0) == v - 1.0;
    g
  }

  /** `vswr_to_return_loss(vswr)`: ValueError below 1, else 20 log10 of |Gamma| floored at 1e-10. */
  function VswrToReturnLoss(nu: Numerics, v: real): (r: Result<real>)
    ensures r.Err? <==> v < 1.0
    ensures r.Err? ==> r.error.ValueError?
  {
    if v < 1.0 then Err(ValueError("VSWR must be >= 1.0"))
    else
      var g := ReflectionMagnitude(v);
      Ok(20.0 * nu.log10(if g > TenToMinusTen then g else TenToMinusTen))
  }

  /** A convertible VSWR gives a return loss in [-200, 0] dB. */
  lemma VswrToReturnLossBounds(nu: Numerics, v: real)
    requires Sound(nu) && v >= 1.0
    ensures -200.0 <= VswrToReturnLoss(nu, v).value <= 0.0
  {
    var g := ReflectionMagnitude(v);
    var c := if g > TenToMinusTen then g else TenToMinusTen;
    assert nu.log10(TenToMinusTen) <= nu.log10(c) <= nu.log10(1.0);
  }

  /** A VSWR of 1.5 is |Gamma| = 0.2. */
  lemma VswrOneAndAHalf(nu: Numerics)
    ensures VswrToReturnLoss(nu, 1.5) == Ok(20.0 * nu.log10(0.2))
  {
    assert ReflectionMagnitude(1.5) == 0.2;
  }

  // ---------------------------------------------------------------- available labels

  /** `get_available_s_params(network)`: S21, S31 and S41 as far as the network has the ports. */
  method GetAvailableSParams(net: Network) returns (r: seq<string>)
    ensures |r| == if net.nports <= 1 then 0 else if net.nports >= 4 then 3 else net.nports - 1
    ensures forall k :: 0 <= k < |r| ==> r[k] == "S" + Text.IntToString(k + 2) + "1"
  {
    r := [];
    var n := net.nports;
    if n >= 2 {
      r := r + ["S21"];
    }
    if n >= 3 {
      r := r + ["S31"];
    }
    if n >= 4 {
      r := r + ["S41"];
    }
    assert Text.IntToString(2) == "2" && Text.IntToString(3) == "3" && Text.IntToString(4) == "4";
  }
}
