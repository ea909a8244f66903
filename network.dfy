/**
 * A swept multi-port S-parameter measurement (a scikit-rf Network) and the
 * numeric primitives the calculator applies to it. Magnitude, `log10` and
 * VSWR are floating-point library calls and stay uninterpreted: they are
 * fields of `Numerics`, and `Sound` lists the only facts assumed about them.
 * Interpolation onto new frequencies is piecewise linear in the real and
 * imaginary parts.
 */
module RfNetwork {
  import opened Exceptions

  datatype Complex = Complex(re: real, im: real)

  /** Frequencies in Hz; `s[k][o][i]` is the S-parameter from port i+1 to port o+1 at `f[k]`. */
  datatype Network = Network(f: seq<real>, nports: nat, s: seq<seq<seq<Complex>>>)

  predicate StrictlyIncreasing(f: seq<real>)
  {
    forall i, j :: 0 <= i < j < |f| ==> f[i] < f[j]
  }

  /** One S-matrix of the right size per frequency, frequencies strictly increasing. */
  predicate WellFormed(net: Network)
  {
    && |net.s| == |net.f|
    && (forall k :: 0 <= k < |net.s| ==> |net.s[k]| == net.nports)
    && (forall k, o :: 0 <= k < |net.s| && 0 <= o < net.nports ==> |net.s[k][o]| == net.nports)
    && StrictlyIncreasing(net.f)
  }

  /** The floating-point primitives: `np.abs`, `np.log10` and scikit-rf's `s_vswr` of one entry. */
  datatype Numerics = Numerics(mag: Complex -> real, log10: real -> real, vswr: Complex -> real)

  const TenToMinusTen: real := 0.0000000001

  /**
   * What the calculations rely on: a magnitude is never negative, the VSWR of an entry is
   * (1 + |s|) / (1 - |s|) wherever that is defined (at |s| = 1 numpy yields inf, which no
   * real holds, so nothing is assumed there), log10 is monotone with log10(1) = 0 and
   * log10(1e-10) = -10.
   */
  ghost predicate Sound(nu: Numerics)
  {
    && (forall z :: nu.mag(z) >= 0.0)
    && (forall z :: nu.mag(z) != 1.0 ==> nu.vswr(z) == (1.0 + nu.mag(z)) / (1.0 - nu.mag(z)))
    && (forall x, y :: 0.0 < x <= y ==> nu.log10(x) <= nu.log10(y))
    && nu.log10(1.0) == 0.0
    && nu.log10(TenToMinusTen) == -10.0
  }

  /** The gain of one entry in dB (scikit-rf's `s_db`): 20 log10 |s|. */
  function Db(nu: Numerics, z: Complex): real
  {
    20.0 * nu.log10(nu.mag(z))
  }

  /** The sequence of one entry (o, i) over frequency. */
  function Column(net: Network, o: nat, i: nat): (c: seq<Complex>)
    requires WellFormed(net) && o < net.nports && i < net.nports
    ensures |c| == |net.f| && forall k :: 0 <= k < |c| ==> c[k] == net.s[k][o][i]
  {
    seq(|net.f|, k requires 0 <= k < |net.f| => net.s[k][o][i])
  }

  /** The straight line through (x0, y0) and (x1, y1), evaluated at x. */
  function Lerp(x0: real, y0: Complex, x1: real, y1: Complex, x: real): Complex
    requires x0 < x1
  {
    var t := (x - x0) / (x1 - x0);
    Complex(y0.re + (y1.re - y0.re) * t, y0.im + (y1.im - y0.im) * t)
  }

  /** Linear interpolation of the samples `ys` taken at `f`, at a point inside the sweep. */
  function InterpAt(f: seq<real>, ys: seq<Complex>, x: real): Complex
    requires |f| == |ys| >= 1 && StrictlyIncreasing(f) && f[0] <= x <= f[|f| - 1]
    decreases |f|
  {
    if |f| == 1 then ys[0]
    else if x <= f[1] then Lerp(f[0], ys[0], f[1], ys[1], x)
    else InterpAt(f[1..], ys[1..], x)
  }

  /** A straight line through two samples passes through both. */
  lemma LerpAtEnds(x0: real, y0: Complex, x1: real, y1: Complex)
    requires x0 < x1
    ensures Lerp(x0, y0, x1, y1, x0) == y0
    ensures Lerp(x0, y0, x1, y1, x1) == y1
  {
    var d := x1 - x0;
    assert (x0 - x0) / d == 0.0;
    assert (x1 - x0) / d == 1.0;
  }

  /** Interpolating at a sampled frequency gives back the sample. */
  lemma {:induction false} InterpAtSample(f: seq<real>, ys: seq<Complex>, k: nat)
    requires |f| == |ys| >= 1 && StrictlyIncreasing(f) && k < |f|
    ensures InterpAt(f, ys, f[k]) == ys[k]
    decreases |f|
  {
    if |f| > 1 {
      if k <= 1 {
        LerpAtEnds(f[0], ys[0], f[1], ys[1]);
      } else {
        assert f[1] < f[k];
        InterpAtSample(f[1..], ys[1..], k - 1);
      }
    }
  }

  /** `network.interpolate(targets)` for targets inside the sweep. */
  function Interpolate(net: Network, targets: seq<real>): (r: Network)
    requires WellFormed(net) && |net.f| >= 1 && StrictlyIncreasing(targets)
    requires forall k :: 0 <= k < |targets| ==> net.f[0] <= targets[k] <= net.f[|net.f| - 1]
    ensures WellFormed(r) && r.f == targets && r.nports == net.nports
  {
    var n := net.nports;
    Network(targets, n,
      seq(|targets|, k requires 0 <= k < |targets| =>
        seq(n, o requires 0 <= o < n =>
          seq(n, i requires 0 <= i < n => InterpAt(net.f, Column(net, o, i), targets[k])))))
  }

  /** Where a target is a sampled frequency, the interpolated network has the measured value. */
  lemma InterpolateKeepsSamples(net: Network, targets: seq<real>, k: nat, j: nat, o: nat, i: nat)
    requires WellFormed(net) && |net.f| >= 1 && StrictlyIncreasing(targets)
    requires forall m :: 0 <= m < |targets| ==> net.f[0] <= targets[m] <= net.f[|net.f| - 1]
    requires k < |targets| && j < |net.f| && targets[k] == net.f[j] && o < net.nports && i < net.nports
    ensures Interpolate(net, targets).s[k][o][i] == net.s[j][o][i]
  {
    InterpAtSample(net.f, Column(net, o, i), j);
  }

  /** numpy's reading of an index into an axis of length n: negative indices count from the end. */
  function PyIndex(idx: int, n: nat): (r: Option<nat>)
    ensures r.Some? <==> -(n as int) <= idx < n
    ensures r.Some? ==> r.value < n && (r.value == idx || r.value == idx + n)
  {
    if 0 <= idx < n then Some(idx)
    else if -(n as int) <= idx < 0 then Some(idx + n)
    else None
  }
}
