/**
 * The two rules of the device form that are not layout: how a port list typed
 * by the user is read, and the order in which saving validates the form
 * before a device is built and handed on.
 */
module DeviceForm {
  import opened Exceptions
  import Text
  import Devices

  // ---------------------------------------------------------------- port lists

  /** Each string stripped. */
  function Stripped(xs: seq<string>): (r: seq<string>)
    ensures |r| == |xs| && forall i :: 0 <= i < |xs| ==> r[i] == Text.Strip(xs[i])
  {
    seq(|xs|, i requires 0 <= i < |xs| => Text.Strip(xs[i]))
  }

  /**
   * The parts a port list is read from: the text split on commas, or, when that gives
   * a single part, split on whitespace; each part stripped.
   */
  function Parts(text: string): (r: seq<string>)
    ensures forall i :: 0 <= i < |r| ==> r[i] == [] || (!Text.IsSpace(r[i][0]) && !Text.IsSpace(r[i][|r[i]| - 1]))
  {
    var parts := Stripped(Text.SplitOn(text, ','));
    if |parts| == 1 then Stripped(Text.SplitWhitespace(text)) else parts
  }

  /** Text with a comma is read comma-separated; text without one is read whitespace-separated. */
  lemma PartsSpec(text: string)
    ensures ',' in text ==> Parts(text) == Stripped(Text.SplitOn(text, ','))
    ensures ',' !in text ==> Parts(text) == Stripped(Text.SplitWhitespace(text))
  {
    SplitOnSingleIff(text, ',');
  }

  /** How one part is read: `int(part)`, kept when positive. */
  type Reader = string -> Option<int>

  /** The positive integers `read` finds in the parts, in order, duplicates kept. */
  function Positives(read: Reader, parts: seq<string>): seq<int>
  {
    if parts == [] then []
    else
      var v := read(parts[|parts| - 1]);
      Positives(read, parts[..|parts| - 1]) + (if v.Some? && v.value > 0 then [v.value] else [])
  }

  /** The ports a list of parts spells. */
  function PortsOf(parts: seq<string>): seq<int>
  {
    Positives(Text.PyInt, parts)
  }

  /** `_parse_ports`: blank text gives no ports; otherwise each part `int()` reads as a positive number, in order. */
  method ParsePorts(text: string) returns (ports: seq<int>)
    ensures ports == PortsOf(Parts(text))
    ensures Text.Strip(text) == [] ==> ports == []
  {
    if Text.Strip(text) == [] {
      BlankTextHasNoParts(text);
      return [];
    }
    ports := ReadPorts(Text.PyInt, Parts(text));
  }

  /** The loop of `_parse_ports`: each part `read` reads as a positive number is kept, in order. */
  method ReadPorts(read: Reader, parts: seq<string>) returns (ports: seq<int>)
    ensures ports == Positives(read, parts)
  {
    ports := [];
    for i := 0 to |parts|
      invariant ports == Positives(read, parts[..i])
    {
      var v := read(parts[i]);
      if v.Some? && v.value > 0 {
        ports := ports + [v.value];
      }
      assert parts[..i + 1][..i] == parts[..i];
    }
    assert parts[..|parts|] == parts;
  }

  /** A port read from some part is positive and is what `read` finds there; every such value is read. */
  lemma {:induction false} PositivesSpec(read: Reader, parts: seq<string>, x: int)
    ensures x in Positives(read, parts) <==> x > 0 && exists i :: 0 <= i < |parts| && read(parts[i]) == Some(x)
  {
    if parts != [] {
      var init := parts[..|parts| - 1];
      PositivesSpec(read, init, x);
      if exists i :: 0 <= i < |init| && read(init[i]) == Some(x) {
        var i :| 0 <= i < |init| && read(init[i]) == Some(x);
        assert parts[i] == init[i];
      }
      if exists i :: 0 <= i < |parts| && read(parts[i]) == Some(x) {
        var i :| 0 <= i < |parts| && read(parts[i]) == Some(x);
        if i < |init| {
          assert init[i] == parts[i];
        }
      }
    }
  }

  /** Parts are read independently and in order: the ports of two runs of parts are the ports of each, in turn. */
  lemma {:induction false} PositivesAppend(read: Reader, a: seq<string>, b: seq<string>)
    ensures Positives(read, a + b) == Positives(read, a) + Positives(read, b)
  {
    if b == [] {
      assert a + b == a;
    } else {
      var n := |b| - 1;
      PositivesAppend(read, a, b[..n]);
      assert (a + b)[..|a + b| - 1] == a + b[..n];
    }
  }

  // ---------------------------------------------------------------- splitting lemmas

  lemma {:induction false} SplitOnWithoutSep(s: string, sep: char)
    requires sep !in s
    ensures Text.SplitOn(s, sep) == [s]
  {
    if s != [] {
      SplitOnWithoutSep(s[1..], sep);
      assert [s[0]] + s[1..] == s;
    }
  }

  /** Splitting on a separator gives a single part exactly when the separator does not occur. */
  lemma SplitOnSingleIff(s: string, sep: char)
    ensures |Text.SplitOn(s, sep)| == 1 <==> sep !in s
  {
    if sep !in s {
      SplitOnWithoutSep(s, sep);
    } else {
      Text.JoinSplitOn(s, sep);
    }
  }

  lemma {:induction false} SplitOnAtSep(a: string, b: string, sep: char)
    requires sep !in a
    ensures Text.SplitOn(a + [sep] + b, sep) == [a] + Text.SplitOn(b, sep)
  {
    if a == [] {
      assert a + [sep] + b == [sep] + b;
      assert ([sep] + b)[1..] == b;
    } else {
      SplitOnAtSep(a[1..], b, sep);
      assert (a + [sep] + b)[1..] == a[1..] + [sep] + b;
      assert [a[0]] + a[1..] == a;
    }
  }

  /** Blank text has no comma, so it falls to the whitespace split, which finds no word. */
  lemma BlankTextHasNoParts(text: string)
    requires Text.Strip(text) == []
    ensures Parts(text) == []
  {
    Text.StripOfBlank(text);
    assert ',' !in text;
    SplitOnWithoutSep(text, ',');
  }

  /** A word without whitespace is its own whitespace split and its own strip. */
  lemma OneWord(s: string)
    requires s != [] && forall i :: 0 <= i < |s| ==> !Text.IsSpace(s[i])
    ensures Text.SplitWhitespace(s) == [s]
    ensures Text.Strip(s) == s
  {
    assert Text.TrimStart(s) == s;
    assert Text.WordEnd(s) == |s|;
    assert s[|s|..] == [];
    assert Text.TrimStart([]) == [];
    Text.NoSpaceStrip(s);
  }

  // ---------------------------------------------------------------- the text the form shows

  /** `", ".join(map(str, ports))`: how a device's ports are shown in the form. */
  function PortsText(ports: seq<int>): string
  {
    if ports == [] then ""
    else if |ports| == 1 then Text.IntToString(ports[0])
    else Text.IntToString(ports[0]) + ", " + PortsText(ports[1..])
  }

  /** A number as shown, after no space or one space, holds no comma. */
  lemma ShownNumberHasNoComma(pre: string, p: int)
    requires pre == "" || pre == " "
    requires p > 0
    ensures ',' !in pre + Text.IntToString(p)
  {
    var d := Text.IntToString(p);
    assert d == Text.NatToString(p);
    assert forall i :: 0 <= i < |pre + d| ==> (pre + d)[i] == ' ' || Text.IsDigit((pre + d)[i]);
  }

  /** Stripping a number as shown, after no space or one space, gives its decimal form. */
  lemma StripShownNumber(pre: string, p: int)
    requires pre == "" || pre == " "
    requires p > 0
    ensures Text.Strip(pre + Text.IntToString(p)) == Text.IntToString(p)
  {
    var d := Text.IntToString(p);
    assert d == Text.NatToString(p);
    if pre == "" {
      assert pre + d == d;
      Text.DigitIsNotSpace(d[0]);
      Text.DigitIsNotSpace(d[|d| - 1]);
      Text.NoSpaceStrip(d);
    } else {
      Text.StripLeadingSpace(d);
    }
  }

  /** The comma parts of the shown text: the first number after `pre`, each later one after a space. */
  lemma {:induction false} SplitShownPorts(pre: string, ports: seq<int>)
    requires pre == "" || pre == " "
    requires |ports| >= 1 && forall i :: 0 <= i < |ports| ==> ports[i] > 0
    ensures var r := Text.SplitOn(pre + PortsText(ports), ',');
            && |r| == |ports| && r[0] == pre + Text.IntToString(ports[0])
            && forall i :: 1 <= i < |ports| ==> r[i] == " " + Text.IntToString(ports[i])
    decreases |ports|
  {
    var d := Text.IntToString(ports[0]);
    ShownNumberHasNoComma(pre, ports[0]);
    if |ports| == 1 {
      assert pre + PortsText(ports) == pre + d;
      SplitOnWithoutSep(pre + d, ',');
    } else {
      var rest := ports[1..];
      ShownPortsCons(pre, ports);
      SplitOnAtSep(pre + d, " " + PortsText(rest), ',');
      SplitShownPorts(" ", rest);
      ShiftedParts([pre + d], Text.SplitOn(" " + PortsText(rest), ','), ports);
    }
  }

  /** The shown text of two or more ports: the first, a comma, then the rest after one space. */
  lemma ShownPortsCons(pre: string, ports: seq<int>)
    requires |ports| >= 2
    ensures pre + PortsText(ports) == (pre + Text.IntToString(ports[0])) + [','] + (" " + PortsText(ports[1..]))
  {
    var d, x := Text.IntToString(ports[0]), PortsText(ports[1..]);
    assert PortsText(ports) == d + ", " + x;
    Regroup(pre, d, x);
  }

  lemma Regroup(pre: string, d: string, x: string)
    ensures pre + (d + ", " + x) == (pre + d) + [','] + (" " + x)
  {
  }

  lemma ShiftedParts(head: seq<string>, tail: seq<string>, ports: seq<int>)
    requires |head| == 1 && |tail| == |ports| - 1 >= 1
    requires forall i :: 1 <= i < |tail| ==> tail[i] == " " + Text.IntToString(ports[1..][i])
    requires tail[0] == " " + Text.IntToString(ports[1..][0])
    ensures forall i :: 1 <= i < |ports| ==> (head + tail)[i] == " " + Text.IntToString(ports[i])
  {
    forall i | 1 <= i < |ports| ensures (head + tail)[i] == " " + Text.IntToString(ports[i]) {
      assert (head + tail)[i] == tail[i - 1];
      assert ports[1..][i - 1] == ports[i];
    }
  }

  /** Ports typed with a space between them: `" ".join(map(str, ports))`. */
  function SpacedText(ports: seq<int>): string
  {
    if ports == [] then ""
    else if |ports| == 1 then Text.IntToString(ports[0])
    else Text.IntToString(ports[0]) + " " + SpacedText(ports[1..])
  }

  /** The decimal form of each port, in order. */
  function Shown(ports: seq<int>): (r: seq<string>)
    ensures |r| == |ports| && forall i :: 0 <= i < |ports| ==> r[i] == Text.IntToString(ports[i])
  {
    if ports == [] then [] else [Text.IntToString(ports[0])] + Shown(ports[1..])
  }

  /** A word, a space and more text split into that word and the words of the rest. */
  lemma WordThenSpace(w: string, t: string)
    requires w != [] && forall i :: 0 <= i < |w| ==> !Text.IsSpace(w[i])
    ensures Text.SplitWhitespace(w + " " + t) == [w] + Text.SplitWhitespace(t)
  {
    var s := w + " " + t;
    WordEndAtSpace(w, t);
    SplitWhitespaceAtWord(s);
    assert s[..|w|] == w;
    assert s[|w|..] == " " + t;
    LeadingSpaceSkipped(t);
  }

  /** Text starting with a word splits into that word and the words after it. */
  lemma SplitWhitespaceAtWord(s: string)
    requires s != [] && !Text.IsSpace(s[0])
    ensures Text.SplitWhitespace(s) == [s[..Text.WordEnd(s)]] + Text.SplitWhitespace(s[Text.WordEnd(s)..])
  {
    assert Text.TrimStart(s) == s;
  }

  lemma WordEndAtSpace(w: string, t: string)
    requires w != [] && forall i :: 0 <= i < |w| ==> !Text.IsSpace(w[i])
    ensures Text.WordEnd(w + " " + t) == |w| && !Text.IsSpace((w + " " + t)[0])
  {
    assert (w + " " + t)[|w|] == ' ';
  }

  lemma LeadingSpaceSkipped(t: string)
    ensures Text.SplitWhitespace(" " + t) == Text.SplitWhitespace(t)
  {
    assert (" " + t)[1..] == t;
    assert Text.TrimStart(" " + t) == Text.TrimStart(t);
  }

  /** Space-separated positive ports hold no comma and split at whitespace into their decimal forms. */
  lemma {:induction false} SpacedWords(ports: seq<int>)
    requires |ports| > 0 && forall i :: 0 <= i < |ports| ==> ports[i] > 0
    ensures ',' !in SpacedText(ports)
    ensures Text.SplitWhitespace(SpacedText(ports)) == Shown(ports)
  {
    var d := Text.IntToString(ports[0]);
    assert d == Text.NatToString(ports[0]);
    DigitsHaveNoSeparator(d);
    if |ports| == 1 {
      OneWord(d);
    } else {
      var t := SpacedText(ports[1..]);
      SpacedWords(ports[1..]);
      WordThenSpace(d, t);
      NoCommaAround(d, t);
    }
  }

  lemma NoCommaAround(d: string, t: string)
    requires ',' !in d && ',' !in t
    ensures ',' !in d + " " + t
  {
  }

  /**
   * Ports typed with spaces read back as those ports: for positive port numbers,
   * `_parse_ports(" ".join(map(str, ports))) == ports`, through the whitespace fallback.
   */
  lemma SpacedPortsRoundTrip(ports: seq<int>)
    requires forall i :: 0 <= i < |ports| ==> ports[i] > 0
    ensures PortsOf(Parts(SpacedText(ports))) == ports
  {
    if ports == [] {
      BlankTextHasNoParts("");
    } else {
      SpacedWords(ports);
      var words := Text.SplitWhitespace(SpacedText(ports));
      var parts := Parts(SpacedText(ports));
      PartsSpec(SpacedText(ports));
      forall i | 0 <= i < |ports| ensures parts[i] == words[i] && Text.PyInt(parts[i]) == Some(ports[i]) {
        var d := Text.IntToString(ports[i]);
        assert d == Text.NatToString(ports[i]);
        DigitsHaveNoSeparator(d);
        OneWord(d);
        Text.PyIntOfIntToString(ports[i]);
      }
      ReadBack(Text.PyInt, parts, ports);
    }
  }

  /**
   * Reading back the ports a device shows gives its ports: for positive port numbers,
   * `_parse_ports(", ".join(map(str, ports))) == ports`.
   */
  lemma PortsTextRoundTrip(ports: seq<int>)
    requires forall i :: 0 <= i < |ports| ==> ports[i] > 0
    ensures PortsOf(Parts(PortsText(ports))) == ports
  {
    if ports == [] {
      BlankTextHasNoParts("");
    } else if |ports| == 1 {
      OnePortRoundTrip(ports[0]);
    } else {
      var parts := Parts(PortsText(ports));
      SeveralPortsParts(ports);
      forall i | 0 <= i < |ports| ensures Text.PyInt(parts[i]) == Some(ports[i]) {
        Text.PyIntOfIntToString(ports[i]);
      }
      ReadBack(Text.PyInt, parts, ports);
    }
  }

  /** A single port is shown without a comma, so it is read back as the one whitespace-separated word. */
  lemma OnePortRoundTrip(p: int)
    requires p > 0
    ensures PortsOf(Parts(PortsText([p]))) == [p]
  {
    OnePortParts(p);
    ReadOne(p);
  }

  lemma OnePortParts(p: int)
    requires p > 0
    ensures Parts(PortsText([p])) == [Text.IntToString(p)]
  {
    var d := Text.IntToString(p);
    assert PortsText([p]) == d;
    assert d == Text.NatToString(p);
    DigitsAreOnePart(d);
  }

  lemma ReadOne(p: int)
    requires p > 0
    ensures PortsOf([Text.IntToString(p)]) == [p]
  {
    var d := Text.IntToString(p);
    Text.PyIntOfIntToString(p);
    assert [d][..0] == [];
    assert Positives(Text.PyInt, [d]) == Positives(Text.PyInt, []) + [p];
  }

  /** A run of digits is a single part. */
  lemma DigitsAreOnePart(d: string)
    requires d != [] && forall i :: 0 <= i < |d| ==> Text.IsDigit(d[i])
    ensures Parts(d) == [d]
  {
    DigitsHaveNoSeparator(d);
    SplitOnWithoutSep(d, ',');
    OneWord(d);
    PartsOfOneWord(d);
  }

  lemma DigitsHaveNoSeparator(d: string)
    requires forall i :: 0 <= i < |d| ==> Text.IsDigit(d[i])
    ensures ',' !in d
    ensures forall i :: 0 <= i < |d| ==> !Text.IsSpace(d[i])
  {
    forall i | 0 <= i < |d| ensures !Text.IsSpace(d[i]) {
      Text.DigitIsNotSpace(d[i]);
    }
  }

  lemma PartsOfOneWord(d: string)
    requires Text.SplitOn(d, ',') == [d] && Text.SplitWhitespace(d) == [d] && Text.Strip(d) == d
    ensures Parts(d) == [d]
  {
    var one := Stripped([d]);
    assert one == [d];
    assert Stripped(Text.SplitOn(d, ',')) == one;
    assert Stripped(Text.SplitWhitespace(d)) == one;
  }

  /** Two or more ports are shown with commas, so their parts are their decimal forms. */
  lemma SeveralPortsParts(ports: seq<int>)
    requires |ports| >= 2 && forall i :: 0 <= i < |ports| ==> ports[i] > 0
    ensures var parts := Parts(PortsText(ports));
            |parts| == |ports| && forall i :: 0 <= i < |ports| ==> parts[i] == Text.IntToString(ports[i])
  {
    SplitShownPorts("", ports);
    assert "" + PortsText(ports) == PortsText(ports);
    var r := Text.SplitOn(PortsText(ports), ',');
    forall i | 0 <= i < |ports| ensures Text.Strip(r[i]) == Text.IntToString(ports[i]) {
      StripShownNumber(if i == 0 then "" else " ", ports[i]);
    }
  }

  /** Parts that `read` reads as positive numbers give those numbers, in order. */
  lemma {:induction false} ReadBack(read: Reader, parts: seq<string>, ports: seq<int>)
    requires |parts| == |ports| && forall i :: 0 <= i < |ports| ==> ports[i] > 0
    requires forall i :: 0 <= i < |ports| ==> read(parts[i]) == Some(ports[i])
    ensures Positives(read, parts) == ports
  {
    if parts != [] {
      var n := |parts| - 1;
      ReadBack(read, parts[..n], ports[..n]);
      assert ports[..n] + [ports[n]] == ports;
    }
  }

  // ---------------------------------------------------------------- saving

  /** What the form holds when Save is pressed. */
  datatype Form = Form(
    name: string,
    partNumber: string,
    description: string,
    operationalFreqMin: real,
    operationalFreqMax: real,
    widebandFreqMin: real,
    widebandFreqMax: real,
    multiGainMode: bool,
    inputPortsText: string,
    outputPortsText: string,
    testBoxes: seq<(string, bool)>)   // test type and whether its box is checked, in display order

  /** The test types whose boxes are checked, in display order. */
  function SelectedTests(boxes: seq<(string, bool)>): (r: seq<string>)
    ensures forall t :: t in r <==> exists i :: 0 <= i < |boxes| && boxes[i] == (t, true)
  {
    if boxes == [] then []
    else
      var init := SelectedTests(boxes[..|boxes| - 1]);
      var last := boxes[|boxes| - 1];
      assert forall i :: 0 <= i < |boxes| - 1 ==> boxes[..|boxes| - 1][i] == boxes[i];
      init + (if last.1 then [last.0] else [])
  }

  /**
   * What `_on_save` emits or reports. The checks run in the form's order and the first
   * that fails is reported: name, part number, then (in `BandsOutcome`) the two bands,
   * then (in `BuildOutcome`) the port lists and the tests.
   */
  function SaveOutcome(form: Form, currentId: Option<Id>, freshId: Id): (r: Result<Devices.Device>)
    ensures var id := if currentId.Some? then currentId.value else freshId;
            && (r.Ok? ==> Text.Strip(form.name) != [] && Text.Strip(form.partNumber) != []
                          && r.value.name == Text.Strip(form.name) && r.value.partNumber == Text.Strip(form.partNumber)
                          && r.value.id == id)
            && (Text.Strip(form.name) != [] && Text.Strip(form.partNumber) != [] ==>
                  r == BandsOutcome(form, Text.Strip(form.name), Text.Strip(form.partNumber), id))
  {
    BandsOutcomeSpec(form, Text.Strip(form.name), Text.Strip(form.partNumber), if currentId.Some? then currentId.value else freshId);
    var name := Text.Strip(form.name);
    var partNumber := Text.Strip(form.partNumber);
    if name == [] then Err(ValidationError("Device name is required"))
    else if partNumber == [] then Err(ValidationError("Part number is required"))
    else BandsOutcome(form, name, partNumber, if currentId.Some? then currentId.value else freshId)
  }

  /** The band checks of `_on_save`: each band's minimum must lie below its maximum, operational first. */
  function BandsOutcome(form: Form, name: string, partNumber: string, id: Id): Result<Devices.Device>
  {
    if form.operationalFreqMin >= form.operationalFreqMax then
      Err(ValidationError("Operational frequency min must be less than max"))
    else if form.widebandFreqMin >= form.widebandFreqMax then
      Err(ValidationError("Wideband frequency min must be less than max"))
    else BuildOutcome(form, name, partNumber, id)
  }

  /**
   * The rest of `_on_save` once the text fields and bands pass: both port lists must
   * give a port and a test must be checked; the device is then built, with the id of
   * the device being edited or a fresh one, and its own validation can still refuse it.
   */
  function BuildOutcome(form: Form, name: string, partNumber: string, id: Id): Result<Devices.Device>
  {
    var d := FormDevice(form, name, partNumber, id);
    if d.inputPorts == [] then Err(ValidationError("At least one input port is required"))
    else if d.outputPorts == [] then Err(ValidationError("At least one output port is required"))
    else if d.testsPerformed == [] then Err(ValidationError("At least one test type must be selected"))
    else Devices.NewDevice(d)
  }

  /** The device record `_on_save` assembles from the form. */
  function FormDevice(form: Form, name: string, partNumber: string, id: Id): Devices.Device
  {
    Devices.Device(id, name, Text.Strip(form.description), partNumber,
                   form.operationalFreqMin, form.operationalFreqMax,
                   form.widebandFreqMin, form.widebandFreqMax,
                   form.multiGainMode, SelectedTests(form.testBoxes),
                   PortsOf(Parts(form.inputPortsText)), PortsOf(Parts(form.outputPortsText)))
  }

  /** `_on_save`: reads the form step by step; on any error nothing is emitted. */
  method OnSave(form: Form, currentId: Option<Id>, freshId: Id) returns (r: Result<Devices.Device>)
    ensures r == SaveOutcome(form, currentId, freshId)
  {
    var name := Text.Strip(form.name);
    if name == [] {
      return Err(ValidationError("Device name is required"));
    }
    var partNumber := Text.Strip(form.partNumber);
    if partNumber == [] {
      return Err(ValidationError("Part number is required"));
    }
    var id := if currentId.Some? then currentId.value else freshId;
    r := CheckBands(form, name, partNumber, id);
  }

  /** The band steps of `_on_save`. */
  method CheckBands(form: Form, name: string, partNumber: string, id: Id) returns (r: Result<Devices.Device>)
    ensures r == BandsOutcome(form, name, partNumber, id)
  {
    if form.operationalFreqMin >= form.operationalFreqMax {
      return Err(ValidationError("Operational frequency min must be less than max"));
    }
    if form.widebandFreqMin >= form.widebandFreqMax {
      return Err(ValidationError("Wideband frequency min must be less than max"));
    }
    r := Build(form, name, partNumber, id);
  }

  /** The port, test and device steps of `_on_save`. */
  method Build(form: Form, name: string, partNumber: string, id: Id) returns (r: Result<Devices.Device>)
    ensures r == BuildOutcome(form, name, partNumber, id)
  {
    var description := Text.Strip(form.description);
    var inputs := ParsePorts(form.inputPortsText);
    if inputs == [] {
      return Err(ValidationError("At least one input port is required"));
    }
    var outputs := ParsePorts(form.outputPortsText);
    if outputs == [] {
      return Err(ValidationError("At least one output port is required"));
    }
    var tests := SelectedTests(form.testBoxes);
    if tests == [] {
      return Err(ValidationError("At least one test type must be selected"));
    }
    r := Devices.NewDevice(Devices.Device(id, name, description, partNumber,
                                          form.operationalFreqMin, form.operationalFreqMax,
                                          form.widebandFreqMin, form.widebandFreqMax,
                                          form.multiGainMode, tests, inputs, outputs));
  }

  /**
   * Once the text fields and bands pass, a device is emitted exactly when both port
   * lists give ports, a test is checked and the assembled device is valid, and what is
   * emitted is that device: the given name, part number and id, the stripped
   * description, the parsed ports and the checked tests.
   */
  lemma BuildOutcomeSpec(form: Form, name: string, partNumber: string, id: Id)
    ensures var r := BuildOutcome(form, name, partNumber, id);
            var d := FormDevice(form, name, partNumber, id);
            && (r.Ok? <==> d.inputPorts != [] && d.outputPorts != [] && d.testsPerformed != [] && Devices.Valid(d))
            && (r.Ok? ==> r.value == d)
  {
    Devices.NewDeviceIffValid(FormDevice(form, name, partNumber, id));
  }

  /** A device is emitted only when both bands increase; past the bands, the outcome is `BuildOutcome`'s. */
  lemma BandsOutcomeSpec(form: Form, name: string, partNumber: string, id: Id)
    ensures var r := BandsOutcome(form, name, partNumber, id);
            && (r.Ok? ==> form.operationalFreqMin < form.operationalFreqMax && form.widebandFreqMin < form.widebandFreqMax
                          && r.value.name == name && r.value.partNumber == partNumber && r.value.id == id)
            && (form.operationalFreqMin >= form.operationalFreqMax ==>
                  r == Err(ValidationError("Operational frequency min must be less than max")))
  {
  }

  /** A blank name is reported first, whatever else the form holds. */
  lemma BlankNameReportedFirst(form: Form, currentId: Option<Id>, freshId: Id)
    requires Text.Strip(form.name) == []
    ensures SaveOutcome(form, currentId, freshId) == Err(ValidationError("Device name is required"))
  {
  }

  /** Blank input-port text is reported once the fields before it pass, whatever follows. */
  lemma BlankInputPortsReported(form: Form, name: string, partNumber: string, id: Id)
    requires Text.Strip(form.inputPortsText) == []
    ensures BuildOutcome(form, name, partNumber, id) == Err(ValidationError("At least one input port is required"))
  {
    BlankTextHasNoParts(form.inputPortsText);
  }

  /** Editing a device whose ports are shown unchanged saves the same ports. */
  lemma ShownPortsSaveUnchanged(form: Form, d: Devices.Device, name: string, partNumber: string, id: Id)
    requires Devices.Valid(d)
    requires form.inputPortsText == PortsText(d.inputPorts) && form.outputPortsText == PortsText(d.outputPorts)
    ensures var r := BuildOutcome(form, name, partNumber, id);
            r.Ok? ==> r.value.inputPorts == d.inputPorts && r.value.outputPorts == d.outputPorts
  {
    assert forall i :: 0 <= i < |d.inputPorts| ==> d.inputPorts[i] in d.inputPorts;
    assert forall i :: 0 <= i < |d.outputPorts| ==> d.outputPorts[i] in d.outputPorts;
    PortsTextRoundTrip(d.inputPorts);
    PortsTextRoundTrip(d.outputPorts);
    BuildOutcomeSpec(form, name, partNumber, id);
  }
}
