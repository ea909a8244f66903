/**
 * A device under test: construction-time validation of the part number,
 * frequency bands and port roles, and the S-parameter labels derived from
 * the port roles (`S{out}{in}` for gain, `S{p}{p}` for reflection).
 */
module Devices {
  import opened Exceptions
  import Text
  import Sorting

  datatype Device = Device(
    id: Id,
    name: string,
    description: string,
    partNumber: string,
    operationalFreqMin: real,   // GHz
    operationalFreqMax: real,
    widebandFreqMin: real,
    widebandFreqMax: real,
    multiGainMode: bool,
    testsPerformed: seq<string>,
    inputPorts: seq<int>,
    outputPorts: seq<int>)

  // ---------------------------------------------------------------- part number

  /** L followed by exactly six digits. */
  predicate IsPartNumber(s: string)
  {
    |s| == 7 && s[0] == 'L' && forall i :: 1 <= i < 7 ==> Text.IsDigit(s[i])
  }

  /**
   * `re.match(r"^L\d{6}$", s)` as Python evaluates it: `$` also matches just
   * before a final newline, so one trailing "\n" is let through.
   */
  predicate PartNumberMatchesAsWritten(s: string)
  {
    IsPartNumber(s) || (|s| == 8 && IsPartNumber(s[..7]) && s[7] == '\n')
  }

  /** The pattern as written accepts a part number followed by a newline, which the format forbids. */
  lemma PartNumberPatternAdmitsNewline()
    ensures PartNumberMatchesAsWritten("L123456\n") && !IsPartNumber("L123456\n")
  {
    assert "L123456\n"[..7] == "L123456";
  }

  /** The as-written pattern and the intended format differ only by that trailing newline. */
  lemma PartNumberPatternDifference(s: string)
    ensures PartNumberMatchesAsWritten(s) <==> IsPartNumber(s) || (|s| == 8 && s[7] == '\n' && IsPartNumber(s[..7]))
    ensures IsPartNumber(s) ==> PartNumberMatchesAsWritten(s)
  {
  }

  /** The part-number field validator, with the intended exact format. */
  function ValidatePartNumber(s: string): (r: Result<string>)
    ensures r.Ok? <==> IsPartNumber(s)
    ensures r.Ok? ==> r.value == s
    ensures r.Err? ==> r.error == InvalidPartNumberError(s)
  {
    if IsPartNumber(s) then Ok(s) else Err(InvalidPartNumberError(s))
  }

  // ---------------------------------------------------------------- validation

  /** What a constructed Device satisfies, stated declaratively. */
  predicate Valid(d: Device)
  {
    && IsPartNumber(d.partNumber)
    && d.operationalFreqMin > 0.0 && d.operationalFreqMax > 0.0
    && d.widebandFreqMin > 0.0 && d.widebandFreqMax > 0.0
    && d.operationalFreqMin < d.operationalFreqMax
    && d.widebandFreqMin < d.widebandFreqMax
    && (forall p :: p in d.inputPorts ==> p !in d.outputPorts)
    && (forall p :: p in d.inputPorts ==> p >= 1)
    && (forall p :: p in d.outputPorts ==> p >= 1)
    && |d.inputPorts| > 0 && |d.outputPorts| > 0
  }

  /** The `gt=0` field constraints on the four band edges. */
  function ValidateFieldBounds(d: Device): (r: Result<Device>)
    ensures r.Ok? <==> d.operationalFreqMin > 0.0 && d.operationalFreqMax > 0.0 && d.widebandFreqMin > 0.0 && d.widebandFreqMax > 0.0
    ensures r.Ok? ==> r.value == d
  {
    if d.operationalFreqMin > 0.0 && d.operationalFreqMax > 0.0 && d.widebandFreqMin > 0.0 && d.widebandFreqMax > 0.0
    then Ok(d)
    else Err(ValueError("frequency must be greater than 0"))
  }

  /** `validate_frequencies`: operational band first, then wideband band. */
  function ValidateFrequencies(d: Device): (r: Result<Device>)
    ensures r.Ok? <==> d.operationalFreqMin < d.operationalFreqMax && d.widebandFreqMin < d.widebandFreqMax
    ensures r.Ok? ==> r.value == d
  {
    if d.operationalFreqMin >= d.operationalFreqMax then
      Err(ValueError("operational_freq_min must be less than operational_freq_max"))
    else if d.widebandFreqMin >= d.widebandFreqMax then
      Err(ValueError("wideband_freq_min must be less than wideband_freq_max"))
    else Ok(d)
  }

  /** `validate_port_configuration`: overlap, then port numbering, then the two non-empty lists. */
  function ValidatePortConfiguration(d: Device): (r: Result<Device>)
    ensures r.Ok? ==> r.value == d
    ensures r.Err? ==> r.error.ValueError?
  {
    if exists p :: p in d.inputPorts && p in d.outputPorts then
      Err(ValueError("Ports cannot be both input and output"))
    else if exists p :: p in d.inputPorts + d.outputPorts && p < 1 then
      Err(ValueError("Port numbers must be >= 1 (1-indexed)"))
    else if |d.inputPorts| == 0 then
      Err(ValueError("At least one input port must be specified"))
    else if |d.outputPorts| == 0 then
      Err(ValueError("At least one output port must be specified"))
    else Ok(d)
  }

  /**
   * Constructing a Device: the part-number validator raises its own error at once;
   * the field constraints and the two model validators raise ValueError.
   */
  function NewDevice(d: Device): (r: Result<Device>)
    ensures r.Ok? ==> r.value == d
    ensures r.Err? ==> r.error.InvalidPartNumberError? || r.error.ValueError?
  {
    var _ :- ValidatePartNumber(d.partNumber);
    var _ :- ValidateFieldBounds(d);
    var _ :- ValidateFrequencies(d);
    ValidatePortConfiguration(d)
  }

  /** Construction succeeds exactly on the valid devices; a bad part number is reported before anything else. */
  lemma NewDeviceIffValid(d: Device)
    ensures NewDevice(d).Ok? <==> Valid(d)
    ensures !IsPartNumber(d.partNumber) ==> NewDevice(d) == Err(InvalidPartNumberError(d.partNumber))
  {
    if NewDevice(d).Ok? {
      assert forall p :: p in d.inputPorts ==> p in d.inputPorts + d.outputPorts;
      assert forall p :: p in d.outputPorts ==> p in d.inputPorts + d.outputPorts;
    }
  }

  /** A device whose inputs and outputs share a port is refused. */
  lemma OverlappingPortsRefused(d: Device, p: int)
    requires p in d.inputPorts && p in d.outputPorts
    ensures NewDevice(d).Err?
  {
    NewDeviceIffValid(d);
  }

  // ---------------------------------------------------------------- labels

  /** `f"S{out}{inp}"`. */
  function Label(out: int, inp: int): string
  {
    "S" + Text.IntToString(out) + Text.IntToString(inp)
  }

  /** For single-digit ports the label is three characters: S, the output digit, the input digit. */
  lemma SingleDigitLabel(out: int, inp: int)
    requires 0 <= out <= 9 && 0 <= inp <= 9
    ensures Label(out, inp) == ['S', Text.DigitChar(out), Text.DigitChar(inp)]
  {
  }

  /** With ten or more ports labels are ambiguous: S{1}{111} and S{11}{11} are both "S1111". */
  lemma LabelsAmbiguousBeyondNinePorts()
    ensures Label(1, 111) == Label(11, 11) == "S1111"
  {
    assert Text.NatToString(111) == "111";
    assert Text.NatToString(11) == "11";
  }

  /** `get_all_ports`: the sorted, duplicate-free union of the input and output ports. */
  function AllPorts(d: Device): (r: seq<int>)
    ensures Sorting.StrictlySorted(r, Sorting.IntLt)
    ensures forall p :: p in r <==> p in d.inputPorts || p in d.outputPorts
  {
    var r := Sorting.SortedIntSet(d.inputPorts + d.outputPorts);
    assert forall p :: p in r <==> p in Sorting.Elems(r);
    r
  }

  /** The labels of one input port against the first outputs, in loop order. */
  function RowLabels(inp: int, outs: seq<int>, n: int): seq<string>
  {
    if outs == [] then []
    else
      RowLabels(inp, outs[..|outs| - 1], n)
      + (if inp <= n && outs[|outs| - 1] <= n then [Label(outs[|outs| - 1], inp)] else [])
  }

  /** The list the nested loops of `get_gain_s_parameters` build before sorting. */
  function GainLabelsInLoopOrder(ins: seq<int>, outs: seq<int>, n: int): seq<string>
  {
    if ins == [] then []
    else GainLabelsInLoopOrder(ins[..|ins| - 1], outs, n) + RowLabels(ins[|ins| - 1], outs, n)
  }

  /** `get_gain_s_parameters(n_ports)`. */
  method GetGainSParameters(d: Device, n: int) returns (r: seq<string>)
    ensures r == Sorting.SortStrings(GainLabelsInLoopOrder(d.inputPorts, d.outputPorts, n))
  {
    var ins, outs := d.inputPorts, d.outputPorts;
    var gainParams: seq<string> := [];
    for a := 0 to |ins|
      invariant gainParams == GainLabelsInLoopOrder(ins[..a], outs, n)
    {
      gainParams := AppendRow(gainParams, ins[a], outs, n);
      GainLabelsStep(ins, a, outs, n);
    }
    assert ins[..|ins|] == ins;
    r := Sorting.SortStrings(gainParams);
  }

  /** The inner loop of `get_gain_s_parameters`: one input port against every output port. */
  method AppendRow(gainParams: seq<string>, inp: int, outs: seq<int>, n: int) returns (r: seq<string>)
    ensures r == gainParams + RowLabels(inp, outs, n)
  {
    r := gainParams;
    for b := 0 to |outs|
      invariant r == gainParams + RowLabels(inp, outs[..b], n)
    {
      RowLabelsStep(inp, outs, b, n);
      if inp <= n && outs[b] <= n {
        r := r + [Label(outs[b], inp)];
      }
    }
    assert outs[..|outs|] == outs;
  }

  lemma RowLabelsStep(inp: int, outs: seq<int>, b: int, n: int)
    requires 0 <= b < |outs|
    ensures RowLabels(inp, outs[..b + 1], n)
            == RowLabels(inp, outs[..b], n) + (if inp <= n && outs[b] <= n then [Label(outs[b], inp)] else [])
  {
    assert outs[..b + 1][..b] == outs[..b];
  }

  lemma GainLabelsStep(ins: seq<int>, a: int, outs: seq<int>, n: int)
    requires 0 <= a < |ins|
    ensures GainLabelsInLoopOrder(ins[..a + 1], outs, n)
            == GainLabelsInLoopOrder(ins[..a], outs, n) + RowLabels(ins[a], outs, n)
  {
    assert ins[..a + 1][..a] == ins[..a];
  }

  /** How many entries of `s` are at most `n`. */
  function CountAtMost(s: seq<int>, n: int): nat
  {
    if s == [] then 0 else CountAtMost(s[..|s| - 1], n) + (if s[|s| - 1] <= n then 1 else 0)
  }

  lemma MulSuccessor(a: nat, b: nat)
    ensures (a + 1) * b == a * b + b
  {
  }

  lemma {:induction false} RowLabelsCount(inp: int, outs: seq<int>, n: int)
    ensures |RowLabels(inp, outs, n)| == if inp <= n then CountAtMost(outs, n) else 0
  {
    if outs != [] { RowLabelsCount(inp, outs[..|outs| - 1], n); }
  }

  /** One gain label per (input, output) pair with both ports at most n, duplicates counted. */
  lemma {:induction false} GainLabelsCount(ins: seq<int>, outs: seq<int>, n: int)
    ensures |GainLabelsInLoopOrder(ins, outs, n)| == CountAtMost(ins, n) * CountAtMost(outs, n)
  {
    if ins != [] {
      var init, last := ins[..|ins| - 1], ins[|ins| - 1];
      GainLabelsCount(init, outs, n);
      RowLabelsCount(last, outs, n);
      var a, b := CountAtMost(init, n), CountAtMost(outs, n);
      assert |GainLabelsInLoopOrder(ins, outs, n)| == a * b + |RowLabels(last, outs, n)|;
      if last <= n {
        assert CountAtMost(ins, n) == a + 1;
        MulSuccessor(a, b);
      } else {
        assert CountAtMost(ins, n) == a;
      }
    }
  }

  lemma {:induction false} RowLabelsMembership(inp: int, outs: seq<int>, n: int, x: string)
    ensures x in RowLabels(inp, outs, n) <==> inp <= n && exists o :: o in outs && o <= n && x == Label(o, inp)
  {
    if outs != [] {
      var init := outs[..|outs| - 1];
      RowLabelsMembership(inp, init, n, x);
      assert outs == init + [outs[|outs| - 1]];
      if exists o :: o in outs && o <= n && x == Label(o, inp) {
        var o :| o in outs && o <= n && x == Label(o, inp);
        if o != outs[|outs| - 1] { assert o in init; }
      }
    }
  }

  /** The gain labels are exactly the S{out}{in} with an input and an output port both at most n. */
  lemma GainLabelsMembership(ins: seq<int>, outs: seq<int>, n: int, x: string)
    ensures x in GainLabelsInLoopOrder(ins, outs, n) <==>
            exists i, o :: i in ins && o in outs && i <= n && o <= n && x == Label(o, i)
  {
    if x in GainLabelsInLoopOrder(ins, outs, n) {
      GainLabelsSound(ins, outs, n, x);
    }
    if exists i, o :: i in ins && o in outs && i <= n && o <= n && x == Label(o, i) {
      var i, o :| i in ins && o in outs && i <= n && o <= n && x == Label(o, i);
      GainLabelsComplete(ins, outs, n, i, o);
    }
  }

  lemma {:induction false} GainLabelsSound(ins: seq<int>, outs: seq<int>, n: int, x: string)
    requires x in GainLabelsInLoopOrder(ins, outs, n)
    ensures exists i, o :: i in ins && o in outs && i <= n && o <= n && x == Label(o, i)
  {
    var init, last := ins[..|ins| - 1], ins[|ins| - 1];
    assert GainLabelsInLoopOrder(ins, outs, n) == GainLabelsInLoopOrder(init, outs, n) + RowLabels(last, outs, n);
    if x in GainLabelsInLoopOrder(init, outs, n) {
      GainLabelsSound(init, outs, n, x);
      var i, o :| i in init && o in outs && i <= n && o <= n && x == Label(o, i);
      assert i in ins;
    } else {
      RowLabelsMembership(last, outs, n, x);
      var o :| o in outs && o <= n && x == Label(o, last);
      assert last in ins;
    }
  }

  lemma {:induction false} GainLabelsComplete(ins: seq<int>, outs: seq<int>, n: int, i: int, o: int)
    requires i in ins && o in outs && i <= n && o <= n
    ensures Label(o, i) in GainLabelsInLoopOrder(ins, outs, n)
  {
    var init, last := ins[..|ins| - 1], ins[|ins| - 1];
    assert ins == init + [last];
    assert GainLabelsInLoopOrder(ins, outs, n) == GainLabelsInLoopOrder(init, outs, n) + RowLabels(last, outs, n);
    if i == last {
      RowLabelsMembership(last, outs, n, Label(o, i));
    } else {
      assert i in init;
      GainLabelsComplete(init, outs, n, i, o);
    }
  }

  /** The reflection labels before sorting: S{p}{p} for each listed port at most n. */
  function ReflectionLabels(ports: seq<int>, n: int): seq<string>
  {
    if ports == [] then []
    else ReflectionLabels(ports[..|ports| - 1], n)
         + (if ports[|ports| - 1] <= n then [Label(ports[|ports| - 1], ports[|ports| - 1])] else [])
  }

  /** `get_vswr_s_parameters(n_ports)`. */
  function VswrSParameters(d: Device, n: int): (r: seq<string>)
    ensures Sorting.Sorted(r, Text.StrLt)
    ensures multiset(r) == multiset(ReflectionLabels(AllPorts(d), n))
  {
    Sorting.SortStrings(ReflectionLabels(AllPorts(d), n))
  }

  lemma {:induction false} ReflectionLabelsMembership(ports: seq<int>, n: int, x: string)
    ensures x in ReflectionLabels(ports, n) <==> exists p :: p in ports && p <= n && x == Label(p, p)
  {
    if ports != [] {
      var init, last := ports[..|ports| - 1], ports[|ports| - 1];
      ReflectionLabelsMembership(init, n, x);
      assert ports == init + [last];
      if exists p :: p in ports && p <= n && x == Label(p, p) {
        var p :| p in ports && p <= n && x == Label(p, p);
        if p != last { assert p in init; }
      }
    }
  }

  /** Distinct non-negative ports have distinct reflection labels. */
  lemma ReflectionLabelInjective(p: int, q: int)
    requires p >= 0 && q >= 0 && Label(p, p) == Label(q, q)
    ensures p == q
  {
    var sp, sq := Text.NatToString(p), Text.NatToString(q);
    assert Label(p, p) == "S" + sp + sp && Label(q, q) == "S" + sq + sq;
    assert |sp| == |sq|;
    assert sp == Label(p, p)[1..1 + |sp|];
    assert sq == Label(q, q)[1..1 + |sq|];
    Text.NatToStringInjective(p, q);
  }

  lemma {:induction false} ReflectionLabelsStrictlySorted(ports: seq<int>, n: int)
    requires Sorting.StrictlySorted(ports, Sorting.IntLt)
    ensures forall i, j :: 0 <= i < j < |ReflectionLabels(ports, n)| ==> ReflectionLabels(ports, n)[i] != ReflectionLabels(ports, n)[j]
  {
    if ports != [] {
      var init, last := ports[..|ports| - 1], ports[|ports| - 1];
      ReflectionLabelsStrictlySorted(init, n);
      var pre := ReflectionLabels(init, n);
      if last <= n {
        forall i | 0 <= i < |pre| ensures pre[i] != Label(last, last) {
          ReflectionLabelsMembership(init, n, pre[i]);
          var p :| p in init && p <= n && pre[i] == Label(p, p);
          if pre[i] == Label(last, last) {
            var k :| 0 <= k < |init| && init[k] == p;
            assert Sorting.IntLt(ports[k], ports[|ports| - 1]);
            ReflectionLabelInjectiveAnySign(p, last);
          }
        }
      }
    }
  }

  /** Reflection labels are injective on all integers (a negative port is written with its sign). */
  lemma ReflectionLabelInjectiveAnySign(p: int, q: int)
    requires Label(p, p) == Label(q, q)
    ensures p == q
  {
    var sp, sq := Text.IntToString(p), Text.IntToString(q);
    assert Label(p, p) == "S" + sp + sp && Label(q, q) == "S" + sq + sq;
    assert |sp| == |sq|;
    assert sp == Label(p, p)[1..1 + |sp|];
    assert sq == Label(q, q)[1..1 + |sq|];
    if p >= 0 && q >= 0 {
      Text.NatToStringInjective(p, q);
    } else if p < 0 && q < 0 {
      assert sp[1..] == Text.NatToString(-p) && sq[1..] == Text.NatToString(-q);
      Text.NatToStringInjective(-p, -q);
    }
  }

  /**
   * The reflection labels are exactly S{p}{p} for the configured ports p at most n,
   * each once, in string order.
   */
  lemma VswrSParametersSpec(d: Device, n: int, x: string)
    ensures x in VswrSParameters(d, n) <==> exists p :: (p in d.inputPorts || p in d.outputPorts) && p <= n && x == Label(p, p)
    ensures Sorting.StrictlySorted(VswrSParameters(d, n), Text.StrLt)
  {
    var r := VswrSParameters(d, n);
    var pre := ReflectionLabels(AllPorts(d), n);
    assert x in r <==> x in multiset(pre);
    ReflectionLabelsMembership(AllPorts(d), n, x);
    ReflectionLabelsStrictlySorted(AllPorts(d), n);
    Sorting.StrLtIsStrictTotal();
    forall i, j | 0 <= i < j < |r| ensures Text.StrLt(r[i], r[j]) {
      assert !Text.StrLt(r[j], r[i]);
      if r[i] == r[j] {
        DistinctHasMultiplicityOne(pre, r[i]);
        MultiplicityAtLeastTwo(r, i, j);
      }
      Text.StrLtTotal(r[i], r[j]);
    }
  }

  lemma DistinctHasMultiplicityOne(s: seq<string>, x: string)
    requires forall i, j :: 0 <= i < j < |s| ==> s[i] != s[j]
    ensures multiset(s)[x] <= 1
  {
    if s != [] {
      var init := s[..|s| - 1];
      DistinctHasMultiplicityOne(init, x);
      assert s == init + [s[|s| - 1]];
      if x == s[|s| - 1] {
        assert x !in init;
      }
    }
  }

  lemma MultiplicityAtLeastTwo(s: seq<string>, i: int, j: int)
    requires 0 <= i < j < |s| && s[i] == s[j]
    ensures multiset(s)[s[i]] >= 2
  {
    assert s == s[..i] + [s[i]] + s[i + 1..j] + [s[j]] + s[j + 1..];
  }

  /** For single-digit ports, no gain label of a constructed device has the reflection form S{p}{p}. */
  lemma GainLabelIsNotReflection(d: Device, n: int, i: int, o: int, p: int)
    requires Valid(d)
    requires i in d.inputPorts && o in d.outputPorts && i <= 9 && o <= 9
    ensures Label(o, i) != Label(p, p)
  {
    SingleDigitLabel(o, i);
    if Label(o, i) == Label(p, p) {
      var s := Text.IntToString(p);
      assert |Label(p, p)| == 1 + 2 * |s|;
      assert |s| == 1;
      assert p >= 0 && p <= 9;
      SingleDigitLabel(p, p);
    }
  }

  lemma ExampleLabels()
    ensures Label(3, 1) == "S31" && Label(4, 1) == "S41" && Label(3, 2) == "S32" && Label(4, 2) == "S42"
  {
    SingleDigitLabel(3, 1);
    SingleDigitLabel(4, 1);
    SingleDigitLabel(3, 2);
    SingleDigitLabel(4, 2);
  }

  lemma ExampleLoopOrder()
    ensures GainLabelsInLoopOrder([1, 2], [3, 4], 4) == ["S31", "S41", "S32", "S42"]
  {
    ExampleLabels();
    assert [3, 4][..1] == [3] && [3][..0] == [];
    assert RowLabels(1, [3, 4], 4) == ["S31", "S41"];
    assert RowLabels(2, [3, 4], 4) == ["S32", "S42"];
    assert [1, 2][..1] == [1] && [1][..0] == [];
  }

  lemma ExampleSorted()
    ensures Sorting.Sorted(["S31", "S32", "S41", "S42"], Text.StrLt)
  {
    var e := ["S31", "S32", "S41", "S42"];
    assert !Text.StrLt(e[1], e[0]) && !Text.StrLt(e[2], e[0]) && !Text.StrLt(e[3], e[0]);
    assert !Text.StrLt(e[2], e[1]) && !Text.StrLt(e[3], e[1]) && !Text.StrLt(e[3], e[2]);
  }

  /** The reference configuration: inputs [1, 2], outputs [3, 4] on a 4-port network. */
  lemma GainLabelsExample()
    ensures Sorting.SortStrings(GainLabelsInLoopOrder([1, 2], [3, 4], 4)) == ["S31", "S32", "S41", "S42"]
  {
    var loop := GainLabelsInLoopOrder([1, 2], [3, 4], 4);
    var expected := ["S31", "S32", "S41", "S42"];
    ExampleLoopOrder();
    ExampleSorted();
    ExamplePermutation();
    Sorting.SortStringsCharacterized(loop, expected);
  }

  lemma ExamplePermutation()
    ensures multiset(["S31", "S32", "S41", "S42"]) == multiset(["S31", "S41", "S32", "S42"])
  {
  }

  /** In the reference configuration the ports are 1..4. */
  lemma ExampleAllPorts(d: Device)
    requires d.inputPorts == [1, 2] && d.outputPorts == [3, 4]
    ensures AllPorts(d) == [1, 2, 3, 4]
  {
    var e := [1, 2, 3, 4];
    Sorting.IntLtIsStrictTotal();
    assert Sorting.StrictlySorted(e, Sorting.IntLt);
    assert Sorting.Elems(AllPorts(d)) == Sorting.Elems(e);
    Sorting.StrictlySortedUnique(AllPorts(d), e, Sorting.IntLt);
  }

  /** In the reference configuration on a 4-port network the reflection labels are S11, S22, S33 and S44. */
  lemma VswrLabelsExample(d: Device)
    requires d.inputPorts == [1, 2] && d.outputPorts == [3, 4]
    ensures VswrSParameters(d, 4) == ["S11", "S22", "S33", "S44"]
  {
    ExampleAllPorts(d);
    var e := ["S11", "S22", "S33", "S44"];
    ExampleReflectionLabels();
    assert !Text.StrLt(e[1], e[0]) && !Text.StrLt(e[2], e[0]) && !Text.StrLt(e[3], e[0]);
    assert !Text.StrLt(e[2], e[1]) && !Text.StrLt(e[3], e[1]) && !Text.StrLt(e[3], e[2]);
    Sorting.SortStringsCharacterized(ReflectionLabels([1, 2, 3, 4], 4), e);
  }

  lemma ExampleReflectionLabels()
    ensures ReflectionLabels([1, 2, 3, 4], 4) == ["S11", "S22", "S33", "S44"]
  {
    SingleDigitLabel(1, 1);
    SingleDigitLabel(2, 2);
    SingleDigitLabel(3, 3);
    SingleDigitLabel(4, 4);
    var ports := [1, 2, 3, 4];
    assert ports[..3] == [1, 2, 3] && ports[..3][..2] == [1, 2] && [1, 2][..1] == [1] && [1][..0] == [];
  }
}
