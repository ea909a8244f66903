# Macallan RF Perf Tool — verified model of the compliance engine

This project is a Dafny model of the RF compliance engine of the Macallan RF
Perf Tool. It covers the small services and parsers that sit around the
engine, and it proves properties of the model.

The engine works in four steps:
1. It takes a swept multi-port S-parameter measurement (a Touchstone
   network) and a device's port-role configuration.
2. It derives RF metrics over frequency windows: gain range, flatness,
   lowest in-band gain, worst-case out-of-band (OOB) rejection, worst-case
   VSWR and return loss.
3. It fans each generically named requirement out over every S-parameter
   that the port roles make applicable. Gain labels are `S{out}{in}`;
   reflection labels are `S{p}{p}`.
4. It produces one pass/fail record for each (criterion, S-parameter) pair.

Modules, one per source file:

| module | file | models |
|---|---|---|
| `Exceptions` | `exceptions.dfy` | the error hierarchy, as one error datatype |
| `Text`, `Sorting` | `text.dfy`, `sorting.dfy` | Python string helpers (`strip`, `split`, `int()`, `str()`, `upper`/`lower`, `in`); `sorted` on strings, ints and reals; `set` |
| `TestStages` | `test_stages.dfy` | the standard test stages and their display names |
| `Criteria` | `test_criteria.dfy` | `TestCriteria`: construction-time validation and `evaluate` |
| `Measurements` | `measurement.dfy` | the `Measurement` record and its temperature / path-type validators |
| `Devices` | `device.dfy` | `Device` validation, `get_all_ports`, the gain and reflection label lists |
| `RfNetwork` | `network.dfy` | the network record, the numeric primitives as parameters, linear interpolation |
| `Calculator` | `calculator.dfy` | `SParameterCalculator`: window targets, label parsing and the metric reductions |
| `SParameters` | `sparameters.dfy` | `SParametersTestType`: `calculate_metrics`, dispatch, fan-out and the per-label evaluators |
| `Registry` | `registry.dfy` | the singleton `TestTypeRegistry` |
| `Compliance` | `compliance.dfy` | `ComplianceService`, over in-memory device, criteria, measurement and result tables |
| `FilenameParser` | `filename_parser.dfy` | the regex and keyword passes over measurement file names |
| `MeasurementService` | `measurement_service.dfy` | single-file loading and two/four-file batch validation |
| `Plotting` | `plotting.dfy` | `PlottingService`: filtering, serial narrowing, S-parameter selection, traces, pass regions |
| `DeviceForm` | `device_form.dfy` | the port-list parser and the save-time validation of the device form |
| `CriteriaEditor` | `criteria_editor.dfy` | the persist rules of the criteria editor over an in-memory criteria store, and its cell navigation |

## How the numerics are modelled

The floating-point primitives are fields of a `Numerics` value that is
passed in:
- `np.abs` of a complex entry;
- `np.log10`;
- scikit-rf's per-entry `s_vswr`.

Frequencies, gains and limits are `real`. The predicate `RfNetwork.Sound`
collects the facts the bound lemmas rely on:
- a magnitude is never negative;
- away from |Γ| = 1, `s_vswr` is (1 + |Γ|) / (1 − |Γ|);
- `log10` is monotone on positive numbers;
- `log10(1) = 0` and `log10(1e-10) = -10`.

No computation requires `Sound`. Only the lemmas that state bounds do.
VSWR is at least 1 only for a passive port (|Γ| < 1 at every frequency);
the lemmas that say so require it, and `Calculator.VswrOfActiveReflection`
shows that the formula turns negative beyond it.

Interpolation onto the window targets is piecewise-linear over the
frequency samples, which must be strictly increasing.

Everything built on these primitives is exact:
- `min`, `max` and subtraction;
- inclusive comparisons;
- set union, sort and de-duplication;
- dictionary updates;
- list appends.

## How the mutable parts are modelled

State that the source mutates is modelled as classes:
- `Registry.TestTypeRegistry` and `Registry.RegistryHolder` hold the class
  attribute `_instance`.
- `Compliance.ComplianceService` holds the repositories as sequences of
  records. A result row is `StoredResult(id, result, isStale)`.
- `CriteriaEditor.CriteriaStore` holds the criteria table, and
  `CriteriaEditor.TestCriteriaEditor` holds the editor.

Each method states its new state in terms of a specification function. The
lemmas about that function give the properties: uniqueness of ids, which
rows change, and what a save leaves in the store.

The loops of the source are methods with loop invariants, proved against
the same functions:
- `calculate_metrics`, `evaluate_compliance` and
  `_evaluate_criterion_for_all_s_params`;
- `get_gain_s_parameters`;
- `load_multiple_files` and the file-name passes;
- `_parse_ports`;
- `prepare_plot_data`;
- `_save_all_criteria`;
- `save_test_results` and `delete_stale_results`.

## Model

| member | source | states |
|---|---|---|
| TestStages.ValidateTestStage | src/core/test_stages.py:43-60 | a stage is valid exactly when it is one of the three standard stages, spelled exactly |
| TestStages.DisplayName | src/core/test_stages.py:62-83 | "SIT" is shown as "Select-In-Test", "Board-Bring-Up" as "Board Bring-Up" and "Test-Campaign" as "Test Campaign"; a non-standard stage is returned unchanged |
| TestStages.DisplayNamesMatchStages | src/core/test_stages.py:28-43 | exactly the standard stages have display names, each differs from its stage, and two stages with the same display name are the same stage |
| TestStages.StagesDistinct | src/core/test_stages.py:28-32 | `TEST_STAGES` holds three distinct stages |
| Criteria.ValidateCriteriaType | src/core/models/test_criteria.py:107-131 | accepts exactly the five allowed criteria types |
| Criteria.ValidateCriteriaValues | src/core/models/test_criteria.py:133-200 | fails with TestCriteriaError on the first violated rule, in the validator's order; on success returns the criterion unchanged |
| Criteria.NewTestCriteria | src/core/models/test_criteria.py:107-200 | construction returns the criterion unchanged or raises TestCriteriaError |
| Criteria.NewTestCriteriaIffValid | src/core/models/test_criteria.py:133-200 | construction succeeds exactly on the criteria that satisfy the declarative `Valid` rules (type, bounds for the type, both-or-neither frequency bounds with min < max) |
| Criteria.UnknownTypeRefused | src/core/models/test_criteria.py:125-130 | a type outside the allowed five is refused with the field validator's message |
| Criteria.Evaluate | src/core/models/test_criteria.py:202-238 | raises TestCriteriaError exactly for an unknown type; every other failure is the TypeError of comparing with a missing bound |
| Criteria.EvaluateTotal | src/core/models/test_criteria.py:222-238 | on a constructed criterion `evaluate` never raises |
| Criteria.RangeIsInclusive | src/core/models/test_criteria.py:225-228 | a range accepts exactly the closed interval [min, max], both ends included |
| Criteria.LowerBoundSemantics | src/core/models/test_criteria.py:229-232 | min and greater_than_equal accept exactly the values at or above min_value |
| Criteria.UpperBoundSemantics | src/core/models/test_criteria.py:233-236 | max and less_than_equal accept exactly the values at or below max_value |
| Measurements.ValidateTemperature | src/core/models/measurement.py:92-115 | accepts exactly AMB, HOT and COLD, unchanged; anything else is a ValueError |
| Measurements.ValidatePathType | src/core/models/measurement.py:117-141 | accepts exactly the six path types, unchanged; anything else is a ValueError |
| Measurements.NewMeasurement | src/core/models/measurement.py:56-141 | construction succeeds exactly when both validators accept, keeps the given fields, and defaults metadata to the empty map |
| Measurements.LeapDays | src/core/rf_data/filename_parser.py:252 | the calendar check `date(year, month, day)` applies: 29 February exists in 2024 and 2000 but not in 2023 or 1900 |
| RfNetwork.Column | src/core/rf_data/s_parameter_calculator.py:167 | `s[:, o, i]`: one value per frequency, the (o, i) entry of each S-matrix |
| RfNetwork.InterpAtSample | src/core/rf_data/s_parameter_calculator.py:121 | linear interpolation at a sampled frequency returns the sample |
| RfNetwork.Interpolate | src/core/rf_data/s_parameter_calculator.py:121 | the interpolated network is well formed, has the targets as its frequencies and the same port count |
| RfNetwork.InterpolateKeepsSamples | src/core/rf_data/s_parameter_calculator.py:117-121 | where a target is a measured frequency the interpolated network holds the measured value |
| RfNetwork.PyIndex | src/core/rf_data/s_parameter_calculator.py:163-167 | numpy's index reading: defined exactly for -n <= idx < n, negative indices counting from the end |
| Registry.TestTypeRegistry.constructor | src/core/test_types/registry.py:67-79 | a new registry holds exactly the S-Parameters test type |
| Registry.TestTypeRegistry.Register | src/core/test_types/registry.py:81-96 | stores the test type under its name, replacing an entry of that name in place; every other name is unaffected |
| Registry.TestTypeRegistry.Get | src/core/test_types/registry.py:98-111 | returns an entry exactly for registered names, and the entry carries that name |
| Registry.TestTypeRegistry.IsRegistered | src/core/test_types/registry.py:125-138 | a name is registered exactly when `list_all` lists it, and S-Parameters always is |
| Registry.TestTypeRegistry.ListAll | src/core/test_types/registry.py:113-123 | lists every registered name exactly once |
| Registry.RegistryHolder.Instance | src/core/test_types/registry.py:46-65 | the first construction creates and seeds the registry; later ones return the same object untouched |
| Registry.ConstructTwice | src/core/test_types/registry.py:51-65 | two constructions yield the same registry, with S-Parameters registered |
| Text.Upper | src/core/rf_data/filename_parser.py:240 | `upper()` keeps the length and maps each character through the ASCII upper-casing |
| Text.Lower | src/core/test_types/s_parameters.py:297 | `lower()` keeps the length and maps each character through the ASCII lower-casing |
| Text.ContainsIff | src/core/test_types/s_parameters.py:297-311 | `sub in s` holds exactly when some window of `s` equals `sub` |
| Text.MissingCharNotContained | src/core/test_types/s_parameters.py:297-311 | a string lacking one of the characters of `sub` does not contain `sub` |
| Text.DigitRunEnd | src/core/rf_data/filename_parser.py:159-172 | the greedy `\d+` run: every character before the end is a digit and the one at the end is not |
| Text.NatToString | src/core/models/device.py:236-240 | `str(n)`: at least one decimal digit, no leading zero |
| Text.DigitsValueOfNatToString | src/core/models/device.py:236-240 | reading back the digits `str(n)` writes gives `n` |
| Text.NatToStringInjective | src/core/models/device.py:236-240 | different numbers are written differently |
| Text.PyInt | src/gui/widgets/device_maintenance/device_form_widget.py:255 | `int()` returns a value only for text whose stripped form ends in a digit |
| Text.PyIntOfIntToString | src/gui/widgets/device_maintenance/device_form_widget.py:255 | `int(str(i)) == i` |
| Text.PyIntOfDigits | src/gui/widgets/device_maintenance/device_form_widget.py:255 | a plain run of digits reads as its value |
| Text.PyIntOfUnsigned | src/gui/widgets/device_maintenance/device_form_widget.py:255 | stripped digit groups separated by single underscores read as their digits' value |
| Text.PyIntOfNegatedDigits | src/gui/widgets/device_maintenance/device_form_widget.py:255 | a minus sign before digits reads as the negated value |
| Text.PyIntOfBlank | src/gui/widgets/device_maintenance/device_form_widget.py:255 | whitespace alone is not a number |
| Text.Strip | src/gui/widgets/device_maintenance/device_form_widget.py:243-275 | `strip()`: the infix left after removing leading and trailing whitespace, neither end being whitespace |
| Text.StripOfBlank | src/gui/widgets/device_maintenance/device_form_widget.py:243-244 | stripping leaves nothing exactly when the text is all whitespace |
| Text.StripLeadingSpace | src/gui/widgets/device_maintenance/device_form_widget.py:247 | stripping removes the space after a comma before a number |
| Text.SplitOn | src/gui/widgets/device_maintenance/device_form_widget.py:247 | `split(",")` gives at least one part and no part holds the separator |
| Text.JoinSplitOn | src/gui/widgets/device_maintenance/device_form_widget.py:247 | joining the parts with the separator gives the text back |
| Text.SplitWhitespace | src/gui/widgets/device_maintenance/device_form_widget.py:250 | `split()` gives non-empty runs free of whitespace |
| Splitting.SplitWhitespaceSpec | src/gui/widgets/device_maintenance/device_form_widget.py:250 | `split()` returns the maximal whitespace-free runs of the text, in order: the text is the words interleaved with whitespace gaps, the gaps between words are non-empty and a leading gap exists exactly when the text starts with whitespace |
| Text.StrLtIrreflexive | src/core/models/device.py:240 | Python's string `<` is irreflexive |
| Text.StrLtTransitive | src/core/models/device.py:240 | Python's string `<` is transitive |
| Text.StrLtTotal | src/core/models/device.py:240 | any two different strings are ordered one way or the other |
| Text.StrLtPrefix | src/core/models/device.py:240 | a shared prefix does not change the order of two strings |
| Devices.PartNumberPatternAdmitsNewline | src/core/models/device.py:110-117 | the pattern as written accepts "L123456\n", which is not a part number (see Findings) |
| Devices.PartNumberPatternDifference | src/core/models/device.py:110-117 | the as-written pattern accepts exactly the part numbers and the part numbers followed by one newline |
| Devices.ValidatePartNumber | src/core/models/device.py:90-117 | accepts exactly "L" followed by six digits, unchanged; anything else is InvalidPartNumberError |
| Devices.ValidateFieldBounds | src/core/models/device.py:62-69 | the `gt=0` constraints: accepted exactly when all four band edges are positive |
| Devices.ValidateFrequencies | src/core/models/device.py:119-147 | accepted exactly when both bands have min < max |
| Devices.ValidatePortConfiguration | src/core/models/device.py:150-194 | returns the device unchanged or raises ValueError |
| Devices.NewDevice | src/core/models/device.py:56-194 | construction returns the device unchanged, or InvalidPartNumberError, or ValueError |
| Devices.NewDeviceIffValid | src/core/models/device.py:56-194 | construction succeeds exactly on valid devices; a bad part number is reported before any other error |
| Devices.OverlappingPortsRefused | src/core/models/device.py:168-176 | a port that is both input and output is refused |
| Devices.SingleDigitLabel | src/core/models/device.py:237 | for single-digit ports the label is "S", the output digit, the input digit |
| Devices.LabelsAmbiguousBeyondNinePorts | src/core/models/device.py:237 | with ten or more ports two different port pairs share the label "S1111" |
| Devices.AllPorts | src/core/models/device.py:196-205 | strictly increasing, and holds exactly the input and output ports |
| Devices.GetGainSParameters | src/core/models/device.py:207-240 | the nested loops build the labels in loop order and the result is that list sorted |
| Devices.AppendRow | src/core/models/device.py:233-237 | the inner loop appends the row's labels for the outputs at most n |
| Devices.GainLabelsCount | src/core/models/device.py:207-240 | one label per (input, output) pair with both ports at most n, duplicates counted |
| Devices.GainLabelsMembership | src/core/models/device.py:207-240 | the gain labels are exactly S{out}{in} for an input and an output port both at most n |
| Devices.VswrSParameters | src/core/models/device.py:242-268 | sorted, and a permutation of the reflection labels of the ports at most n |
| Devices.ReflectionLabelInjective | src/core/models/device.py:266 | distinct non-negative ports have distinct reflection labels |
| Devices.ReflectionLabelInjectiveAnySign | src/core/models/device.py:266 | reflection labels are injective on all integers |
| Devices.VswrSParametersSpec | src/core/models/device.py:242-268 | the reflection labels are exactly S{p}{p} for the configured ports at most n, each once, in string order |
| Devices.GainLabelIsNotReflection | src/core/models/device.py:168-176 | for single-digit ports of a valid device, no gain label has the reflection form |
| Devices.GainLabelsExample | tests/unit/test_models/test_device.py:207-227 | inputs [1, 2], outputs [3, 4] on 4 ports give S31, S32, S41, S42 |
| Devices.ExampleAllPorts | tests/unit/test_models/test_device.py:207-227 | in that configuration the ports are 1..4 |
| Devices.VswrLabelsExample | tests/unit/test_models/test_device.py:229-248 | in that configuration the reflection labels are S11, S22, S33 and S44 |
| Sorting.Sort | src/core/models/device.py:240 | `sorted(s)`: ordered and a permutation of `s` |
| Sorting.SortedSet | src/core/models/device.py:205 | `sorted(set(s))`: strictly increasing, with exactly the elements of `s` |
| Sorting.StrictlySortedUnique | src/core/models/device.py:205 | two strictly increasing sequences with the same elements are equal, so `sorted(set(s))` is determined |
| Sorting.SortedUnique | src/core/models/device.py:240 | two ordered permutations of each other are equal, so `sorted(s)` is determined |
| Sorting.StrictlySortedDistinct | src/core/models/device.py:205 | a strictly increasing sequence repeats no element |
| Sorting.SortStrings | src/core/models/device.py:240 | `sorted` of strings: ordered by Python's string order and a permutation |
| Sorting.SortStringsCharacterized | src/core/models/device.py:240 | any ordered permutation of the input is what `sorted` returns |
| Sorting.SortedStringSet | src/core/services/plotting_service.py:160 | `sorted(set(...))` of strings: strictly increasing, same elements |
| Sorting.SortedIntSet | src/core/models/device.py:205 | `sorted(set(...))` of ports: strictly increasing, same elements |
| Sorting.SortedRealSet | src/core/rf_data/s_parameter_calculator.py:116 | `np.unique(np.sort(...))`: strictly increasing, same values |
| Sorting.IncreasingRealsUnique | src/core/rf_data/s_parameter_calculator.py:116 | two strictly increasing real sequences with the same values are equal |
| Sorting.StrLtIsStrictTotal | src/core/models/device.py:240 | Python's string order is a strict total order |
| Calculator.Min | src/core/rf_data/s_parameter_calculator.py:204 | `np.min` of a non-empty array is one of its elements and no larger than any |
| Calculator.Max | src/core/rf_data/s_parameter_calculator.py:205 | `np.max` of a non-empty array is one of its elements and no smaller than any |
| Calculator.Clip | src/core/rf_data/s_parameter_calculator.py:111-112 | `np.clip`: a value below the interval becomes lo, one above it becomes hi, and one inside is kept |
| Calculator.InRange | src/core/rf_data/s_parameter_calculator.py:115 | the boolean mask keeps exactly the samples within [lo, hi] |
| Calculator.Ordered | src/core/rf_data/s_parameter_calculator.py:105-106 | the swapped bounds are ordered and are the two given bounds |
| Calculator.WindowEdges | src/core/rf_data/s_parameter_calculator.py:108-112 | the clamped edges are ordered and lie between the sweep's minimum and maximum |
| Calculator.WindowTargetsSpec | src/core/rf_data/s_parameter_calculator.py:114-117 | the targets strictly increase, start and end at the clamped edges, and are exactly the in-window samples plus both edges |
| Calculator.EdgedSetSpec | src/core/rf_data/s_parameter_calculator.py:116-117 | `np.unique(np.sort(...))` of in-window values plus the two edges runs from one edge to the other, strictly increasing |
| Calculator.SweepEnds | src/core/rf_data/s_parameter_calculator.py:109-110 | for an increasing sweep, `f.min()` and `f.max()` are its first and last samples |
| Calculator.WindowTargetsInSweep | src/core/rf_data/s_parameter_calculator.py:114-120 | every target lies inside the sweep, so interpolation never extrapolates |
| Calculator.FilterFrequencyRange | src/core/rf_data/s_parameter_calculator.py:68-127 | an empty sweep is returned as is; otherwise the result keeps the port count and its frequencies are the window targets (GHz converted to Hz) |
| Calculator.WindowMaskKeepsAll | src/core/rf_data/s_parameter_calculator.py:123-125 | the final 1e-9 tolerance mask removes none of the targets |
| Calculator.WindowCoveringSweep | src/core/rf_data/s_parameter_calculator.py:68-127 | a window reaching past both ends of the sweep keeps exactly the sweep's frequencies |
| Calculator.WindowInsideSweep | src/core/rf_data/s_parameter_calculator.py:68-127 | a window inside the sweep starts and ends at the requested edges and keeps every sample between them |
| Calculator.ParseSParam | src/core/rf_data/s_parameter_calculator.py:157-165 | the label parses exactly when it starts with `S` and two digits; the indices are the digits minus one |
| Calculator.Gain | src/core/rf_data/s_parameter_calculator.py:129-172 | ValueError for a malformed label; success exactly when both indices are valid numpy indices; one value per frequency |
| Calculator.GainOfLabel | src/core/rf_data/s_parameter_calculator.py:157-170 | for ports 1-9, `S{o}{i}` selects entry (o-1, i-1) in dB, and succeeds exactly when both ports exist |
| Calculator.ParseReadsOneDigitPerPort | src/core/rf_data/s_parameter_calculator.py:159 | a two-digit port is misread: "S101" is taken as ports 1 and 0, not 10 and 1 |
| Calculator.GainRange | src/core/rf_data/s_parameter_calculator.py:173-207 | a successful range is ordered; failures are ValueError or IndexError |
| Calculator.GainRangeSpec | src/core/rf_data/s_parameter_calculator.py:173-207 | success exactly when the windowed gain exists and the sweep is non-empty; both bounds are attained and bound every windowed gain value |
| Calculator.GainRangeWithinLimits | src/core/rf_data/s_parameter_calculator.py:173-207 | limits contain the gain range exactly when they contain the windowed gain at every frequency |
| Calculator.Flatness | src/core/rf_data/s_parameter_calculator.py:209-241 | defined exactly when the gain range is; non-negative, and equal to max minus min |
| Calculator.LowestInBandGain | src/core/rf_data/s_parameter_calculator.py:243-267 | defined exactly when the gain range is, and equal to its lower end |
| Calculator.OobRejection | src/core/rf_data/s_parameter_calculator.py:269-345 | success requires the in-band gain to exist; failures are ValueError or IndexError |
| Calculator.MinOfMargins | src/core/rf_data/s_parameter_calculator.py:334-343 | the smallest margin L - g[k] is L minus the largest g[k] |
| Calculator.OobRejectionIsMarginOverPeak | src/core/rf_data/s_parameter_calculator.py:269-345 | the rejection is the lowest in-band gain minus the peak out-of-band gain |
| Calculator.ReflectionIndex | src/core/rf_data/s_parameter_calculator.py:396-407 | the diagonal index `port - 1` is accepted exactly as numpy accepts it; otherwise ValueError |
| Calculator.Vswr | src/core/rf_data/s_parameter_calculator.py:347-416 | errors are ValueError; the result is one number exactly when both band edges are given, else one value per point |
| Calculator.VswrSpec | src/core/rf_data/s_parameter_calculator.py:396-414 | with both band edges, the call succeeds exactly for a valid port index on a non-empty sweep, and the value is the largest per-point VSWR of the port over the window: attained at some target and at least every one |
| Calculator.VswrPerPointSpec | src/core/rf_data/s_parameter_calculator.py:415-416 | without a band, one value per frequency: the VSWR of the port's reflection entry at that frequency |
| Calculator.VswrOfReflection | src/core/rf_data/s_parameter_calculator.py:360 | (1 + |Γ|) / (1 − |Γ|) for |Γ| < 1 is at least 1, and exactly 1 for a perfect match |Γ| = 0 |
| Calculator.VswrOfActiveReflection | src/core/rf_data/s_parameter_calculator.py:360 | for |Γ| > 1 (an active port) the same formula is negative |
| Calculator.VswrAtLeastOne | src/core/rf_data/s_parameter_calculator.py:410-414 | for a passive port (every windowed reflection magnitude below 1), the worst VSWR in a band is at least 1 |
| Calculator.WorstVswrAtLeastOne | src/core/rf_data/s_parameter_calculator.py:414 | for a passive port, the maximum of the per-point VSWR over a non-empty window is at least 1 |
| Calculator.VswrPerPointAtLeastOne | src/core/rf_data/s_parameter_calculator.py:415-416 | for a passive port, every per-point VSWR is at least 1 |
| Calculator.VswrPortCheck | src/core/rf_data/s_parameter_calculator.py:396-407 | without a band, the call succeeds exactly for ports -n+1 .. n (numpy's negative indices included) |
| Calculator.ReturnLossDbBounds | src/core/rf_data/s_parameter_calculator.py:475-477 | clipping the magnitude to [1e-10, 1] keeps every return loss in [-200, 0] dB |
| Calculator.ReturnLoss | src/core/rf_data/s_parameter_calculator.py:418-492 | errors are ValueError; the result is one number exactly when both band edges are given, else one value per point |
| Calculator.ReturnLossSpec | src/core/rf_data/s_parameter_calculator.py:418-489 | with both band edges, the call succeeds exactly for a valid port index on a non-empty sweep, and the value is the smallest per-point return loss of the port over the window: attained at some target and at most every one |
| Calculator.ReturnLossBounds | src/core/rf_data/s_parameter_calculator.py:418-492 | every return loss the calculator returns, per point or worst case, is in [-200, 0] dB |
| Calculator.ReflectionMagnitude | src/core/rf_data/s_parameter_calculator.py:515 | the reflection magnitude (v-1)/(v+1) of a VSWR of at least 1 is in [0, 1) |
| Calculator.VswrToReturnLoss | src/core/rf_data/s_parameter_calculator.py:494-523 | ValueError exactly when the VSWR is below 1 |
| Calculator.VswrToReturnLossBounds | src/core/rf_data/s_parameter_calculator.py:494-523 | a valid VSWR converts to a return loss in [-200, 0] dB |
| Calculator.VswrOneAndAHalf | src/core/rf_data/s_parameter_calculator.py:494-523 | VSWR 1.5 converts through a reflection magnitude of 0.2 |
| Calculator.GetAvailableSParams | src/core/rf_data/s_parameter_calculator.py:525-564 | lists S21, S31 and S41, as many as the port count allows (none below 2 ports, all three from 4) |
| SParameters.KeyInjective | src/core/test_types/s_parameters.py:147-176 | the four metric-key suffixes cannot collide: equal keys have equal labels and equal suffixes |
| SParameters.SourceOfCoherent | src/core/test_types/s_parameters.py:137-176 | the flatness and lowest in-band gain the calculator gives for a label are max minus min and the min of its gain range |
| SParameters.SourceOfVswrAtLeastOne | src/core/test_types/s_parameters.py:170-176 | for a passive port, the VSWR stored in the metrics is at least 1 |
| SParameters.SourceOfVswrIsWorst | src/core/test_types/s_parameters.py:170-176 | the VSWR stored for port p is the largest per-point VSWR of entry (p, p) over the operational window, attained at some target |
| SParameters.CalculateMetrics | src/core/test_types/s_parameters.py:83-181 | no touchstone data raises ValueError; otherwise the metrics are those of the nested port loops over the network |
| SParameters.GainMetricsLoop | src/core/test_types/s_parameters.py:137-166 | the nested output/input port loops build the gain metrics of every port pair |
| SParameters.RowMetricsLoop | src/core/test_types/s_parameters.py:138-166 | the inner loop adds the gain metrics of output port o against input ports 1..n |
| SParameters.AddGainMetrics | src/core/test_types/s_parameters.py:139-166 | Gain Range, Flatness and Lowest In-Band Gain are written for one label, or nothing when the calculation raises |
| SParameters.VswrMetricsLoop | src/core/test_types/s_parameters.py:170-179 | the port loop adds one VSWR entry per port whose VSWR can be computed |
| SParameters.WithGainMetricsShape | src/core/test_types/s_parameters.py:139-166 | the three gain entries of a label are written all together from one gain range, or none at all |
| SParameters.WithGainMetricsEstablishes | src/core/test_types/s_parameters.py:139-166 | after writing, the label carries its three gain entries |
| SParameters.WithGainMetricsFrame | src/core/test_types/s_parameters.py:139-166 | writing one label's entries changes no key of another label and no VSWR key |
| SParameters.WithGainMetricsPreserves | src/core/test_types/s_parameters.py:139-166 | writing one label keeps every gain entry and every VSWR entry already present |
| SParameters.WithGainMetricsSettles | src/core/test_types/s_parameters.py:139-166 | writing one label keeps every label settled and adds no VSWR key |
| SParameters.RowMetricsSettles | src/core/test_types/s_parameters.py:138-166 | a row of the inner loop keeps every label settled and adds no VSWR key |
| SParameters.RowMetricsKeeps | src/core/test_types/s_parameters.py:138-166 | a row of the inner loop keeps every gain entry already in place |
| SParameters.RowMetricsSpec | src/core/test_types/s_parameters.py:138-166 | after input ports 1..i of row o, labels S{o}{1}..S{o}{i} carry their gain entries |
| SParameters.GainMetricsSpec | src/core/test_types/s_parameters.py:137-166 | after output ports 1..o, every pair (a, b) with a <= o and b <= n carries its gain entries and no VSWR key exists yet |
| SParameters.WithVswrMetricSpec | src/core/test_types/s_parameters.py:170-179 | adding a port's VSWR settles that port and keeps every other entry |
| SParameters.VswrMetricsSpec | src/core/test_types/s_parameters.py:170-179 | after ports 1..p, those ports carry their VSWR entries and the gain entries are kept |
| SParameters.MetricsOfSpec | src/core/test_types/s_parameters.py:83-181 | every port pair carries its gain entries (present exactly when the gain range exists) and every port its VSWR entry |
| SParameters.CalculatedMetricsSpec | src/core/test_types/s_parameters.py:83-181 | the calculated metrics cover every port pair and every port of the network |
| SParameters.FamilyOf | src/core/test_types/s_parameters.py:297-341 | the lower-cased name is dispatched first-match-wins: gain and range, then flatness, then vswr, then OOB if both band edges are set; otherwise nothing |
| SParameters.GainFlatnessIsFlatness | src/core/test_types/s_parameters.py:302-318 | "Gain Flatness" contains gain but not range, so it is evaluated as flatness |
| SParameters.GainRangeIsGainRange | src/core/test_types/s_parameters.py:302-308 | "Gain Range" is evaluated as a gain range |
| SParameters.VswrMaxIsVswr | src/core/test_types/s_parameters.py:322-328 | "VSWR Max" is evaluated as VSWR |
| SParameters.OobNameDispatch | src/core/test_types/s_parameters.py:332-341 | an "OOB" name is evaluated as OOB exactly when both band edges are set, and yields nothing otherwise |
| SParameters.EvaluateMetric | src/core/test_types/s_parameters.py:369-376 | a scalar metric is evaluated as the criterion's evaluate; a gain-range dict cannot be compared with a bound |
| SParameters.GainRangeResult | src/core/test_types/s_parameters.py:343-392 | no metric gives no result; otherwise it passes iff both ends pass, and the measured value is the maximum |
| SParameters.ScalarResult | src/core/test_types/s_parameters.py:394-468 | no metric gives no result; otherwise the flatness or VSWR value is evaluated and tagged with the label |
| SParameters.VswrMaxPassesIffWithinLimit | src/core/test_types/s_parameters.py:394-468 | read from the calculated metrics, a VSWR Max (upper-bound) criterion gives a result for S{p}{p} that passes exactly when every in-band per-point VSWR of port p is at most max_value |
| SParameters.OobResult | src/core/test_types/s_parameters.py:470-539 | a result needs both band edges and a successful rejection; it passes iff the requirement is truthy and the rejection reaches it |
| SParameters.OobFalsyRequirementFails | src/core/test_types/s_parameters.py:527 | a requirement of None or 0.0 never passes |
| SParameters.LabelResult | src/core/test_types/s_parameters.py:300-339 | every result is tagged with its label, the criterion and the measurement |
| SParameters.GatherAbort | src/core/test_types/s_parameters.py:246-252 | once an evaluation raises, the whole evaluation raises that error |
| SParameters.CollectResults | src/core/test_types/s_parameters.py:303-308 | the fan-out loop equals the specification of one criterion over a label list |
| SParameters.EvaluateCriterionForAllSParams | src/core/test_types/s_parameters.py:256-341 | the method equals the dispatch on the criterion's family over its label list |
| SParameters.AllResultsAbort | src/core/test_types/s_parameters.py:246-252 | once one criterion raises, the whole evaluation raises that error |
| SParameters.EvaluateCompliance | src/core/test_types/s_parameters.py:183-254 | the method equals the specification: metrics once, then each criterion's results appended in criterion order |
| SParameters.SParametersOf | src/core/test_types/s_parameters.py:385-392 | the tags of the results, one per result |
| SParameters.GatherOrder | src/core/test_types/s_parameters.py:303-308 | gathered results come in label order, as a subsequence of the labels |
| SParameters.GatherTags | src/core/test_types/s_parameters.py:303-308 | gathered results all carry the criterion and the measurement |
| SParameters.GatherComplete | src/core/test_types/s_parameters.py:303-308 | when every label yields a result, there is one per label in label order |
| SParameters.GatherSkip | src/core/test_types/s_parameters.py:307-308 | a label with no result drops out without affecting the others |
| SParameters.FamilyResultsOrder | src/core/test_types/s_parameters.py:300-341 | one criterion's results come in label order |
| SParameters.FamilyResultsCount | src/core/test_types/s_parameters.py:300-341 | one criterion yields at most one result per label |
| SParameters.FamilyResultsTags | src/core/test_types/s_parameters.py:300-341 | every result of one criterion carries that criterion and the measurement |
| SParameters.FamilyResultsComplete | src/core/test_types/s_parameters.py:300-341 | when every label yields a result, the fan-out has exactly one per label, in label order |
| SParameters.FamilyResultsSkip | src/core/test_types/s_parameters.py:300-341 | a label that yields no result drops out without changing the others |
| SParameters.OutcomesWithout | src/core/test_types/s_parameters.py:303-308 | dropping a label drops only its outcome |
| SParameters.CriteriaIds | src/core/test_types/s_parameters.py:246-252 | the ids of the criteria, in order |
| SParameters.AllResultsShape | src/core/test_types/s_parameters.py:246-254 | every result belongs to the measurement and to one of the criteria |
| SParameters.GainRangeFromEntries | src/core/test_types/s_parameters.py:343-392 | read from the calculated metrics, a gain-range result is none without a range, else the max with both ends evaluated |
| SParameters.FlatnessFromEntries | src/core/test_types/s_parameters.py:394-430 | read from the calculated metrics, a flatness result is max minus min, evaluated |
| SParameters.VswrFromEntry | src/core/test_types/s_parameters.py:432-468 | read from the calculated metrics, a VSWR result is the port's VSWR, evaluated |
| SParameters.GainRangePassesIffWithinLimits | src/core/test_types/s_parameters.py:373-378 | a range criterion passes exactly when [min_value, max_value] contains the whole gain range |
| SParameters.AllResultsLength | src/core/test_types/s_parameters.py:246-252 | k results per criterion give k times the criteria count, in criterion order |
| SParameters.ReferenceCriterionCount | src/core/test_types/s_parameters.py:217-225 | with inputs [1, 2] and outputs [3, 4], each recognised criterion fans out over four labels |
| SParameters.ReferenceEvaluationCount | src/core/test_types/s_parameters.py:217-225 | gain range, flatness, VSWR and OOB criteria on that configuration give 16 results |
| Compliance.DeviceById | src/core/repositories/device_repository.py:54-75 | a device found has the id; none found means no device has it |
| Compliance.CriterionById | src/core/repositories/test_criteria_repository.py:53-73 | a criterion found has the id; none found means no criterion has it |
| Compliance.CriterionByIdUnique | src/core/repositories/test_criteria_repository.py:53-73 | with unique ids, looking up a stored criterion's id finds that criterion |
| Compliance.CriteriaFor | src/core/repositories/test_criteria_repository.py:88-120 | exactly the criteria of the device, test type and stage |
| Compliance.MeasurementsOf | src/core/services/compliance_service.py:170-174 | exactly the device's measurements of the test type |
| Compliance.ByMeasurement | src/core/repositories/test_result_repository.py:83-105 | exactly the rows of the measurement |
| Compliance.Fresh | src/core/services/compliance_service.py:252 | exactly the rows that are not stale |
| Compliance.Stale | src/core/services/compliance_service.py:364-370 | exactly the stale rows |
| Compliance.WithStage | src/core/services/compliance_service.py:257-264 | exactly the rows whose criterion is found and belongs to the stage |
| Compliance.IdsOf | src/core/services/compliance_service.py:289-290 | the ids of the rows and nothing else |
| Compliance.WithoutIds | src/core/repositories/test_result_repository.py:235-251 | deleting by id keeps exactly the rows whose id was not deleted |
| Compliance.WithoutIdsStep | src/core/repositories/test_result_repository.py:235-251 | deleting one more id after a set is deleting the union |
| Compliance.WithoutNoIds | src/core/repositories/test_result_repository.py:235-251 | deleting no ids leaves the table unchanged |
| Compliance.ChosenByIds | src/core/services/compliance_service.py:268-290 | with unique ids, deleting the ids of chosen rows removes exactly those rows |
| Compliance.AllPassed | src/core/services/compliance_service.py:308-312 | true exactly when every row passed, so true for no rows |
| Compliance.MarkStale | src/core/repositories/test_result_repository.py:253-284 | the UPDATE marks stale exactly the rows of the criterion and changes nothing else |
| Compliance.CollectSpec | src/core/services/compliance_service.py:139-182 | the map succeeds iff every measurement evaluates, has one key per measurement, and with unique ids holds each one's results |
| Compliance.CollectOk | src/core/services/compliance_service.py:176-182 | the loop succeeds exactly when every measurement evaluates |
| Compliance.CollectKeys | src/core/services/compliance_service.py:176-182 | the map's keys are the measurements' ids |
| Compliance.CollectValues | src/core/services/compliance_service.py:176-182 | with unique ids, each key holds that measurement's results |
| Compliance.CollectAbort | src/core/services/compliance_service.py:176-182 | an error in an early measurement is the error of the whole call |
| Compliance.EvaluationIn | src/core/services/compliance_service.py:78-137 | DeviceNotFoundError for an unknown device; no results without criteria or without a registered test type |
| Compliance.EvaluationReferencesStage | src/core/services/compliance_service.py:78-137 | every result belongs to the evaluated measurement and to one of the criteria of that device, test type and stage |
| Compliance.Rows | src/core/services/compliance_service.py:184-204 | the saved rows are the records under their ids, fresh, in order |
| Compliance.SavedCount | src/core/services/compliance_service.py:200-204 | no more records are saved than given |
| Compliance.IdsOfRows | src/core/services/compliance_service.py:200-204 | saving rows adds exactly their ids |
| Compliance.SavedCountPrefix | src/core/services/compliance_service.py:200-204 | once a record is rejected, the later ones are never attempted |
| Compliance.SavedCountSpec | src/core/repositories/test_result_repository.py:159-195 | every record is saved exactly when the new ids are unused and distinct and every record refers to a stored measurement and criterion |
| Compliance.EvaluatedResultsSaveable | src/core/services/compliance_service.py:78-204 | results of an S-parameter evaluation of a stored measurement, under new distinct ids, are all saved |
| Compliance.ResultsOfStoredRowsSaveable | src/core/services/compliance_service.py:184-204 | results of a stored measurement against stored criteria, under new distinct ids, are all saved |
| Compliance.ComplianceResults | src/core/services/compliance_service.py:227-266 | exactly the measurement's rows that are not stale and, for a non-empty stage, whose criterion is of that stage |
| Compliance.ComplianceResultsSnoc | src/core/services/compliance_service.py:227-266 | one more stored row extends the results by that row exactly when it belongs to the measurement, is not stale and is of the stage |
| Compliance.ComplianceResultsOrder | src/core/services/compliance_service.py:227-266 | the results come in stored order: a subsequence of the stored rows |
| Compliance.WithoutIdsUnique | src/core/repositories/test_result_repository.py:235-251 | deleting rows keeps the remaining ids unique |
| Compliance.DeleteForStageSpec | src/core/services/compliance_service.py:268-290 | with unique ids, a row is removed exactly when it is a non-stale row of the measurement in the stage |
| Compliance.CountOfCriterionSpec | src/core/repositories/test_result_repository.py:253-284 | the count is at most the row count, and zero exactly when no row has the criterion |
| Compliance.MarkStaleKeepsIds | src/core/repositories/test_result_repository.py:253-284 | marking stale keeps every id and every result, so the keys are as they were |
| Compliance.TablesValidAfterInsert | src/core/repositories/test_result_repository.py:159-195 | an accepted INSERT keeps the keys valid |
| Compliance.TablesValidAfterDelete | src/core/repositories/test_result_repository.py:235-251 | deleting keeps the keys valid |
| Compliance.TablesValidAfterMark | src/core/repositories/test_result_repository.py:253-284 | marking stale keeps the keys valid |
| Compliance.ComplianceService.constructor | src/core/services/compliance_service.py:51-76 | the tables as given, and the given registry or the shared instance |
| Compliance.ComplianceService.EvaluateCompliance | src/core/services/compliance_service.py:78-137 | the result equals the evaluation over the service's tables |
| Compliance.ComplianceService.EvaluateAllMeasurements | src/core/services/compliance_service.py:139-182 | DeviceNotFoundError for an unknown device, else the device's measurements of the test type evaluated and keyed by id |
| Compliance.ComplianceService.CreateResult | src/core/repositories/test_result_repository.py:159-195 | the row is appended exactly when the keys allow it; nothing else changes |
| Compliance.ComplianceService.DeleteResult | src/core/repositories/test_result_repository.py:235-251 | the row with the id is removed; nothing else changes |
| Compliance.ComplianceService.SaveTestResults | src/core/services/compliance_service.py:184-204 | the records are saved in order up to the first rejected one; DatabaseError then, else all rows |
| Compliance.ComplianceService.GetComplianceResults | src/core/services/compliance_service.py:227-266 | equals the compliance results of the current table, which keep the table's stored order (a subsequence of it) |
| Compliance.ComplianceService.DeleteResultsForMeasurementAndStage | src/core/services/compliance_service.py:268-290 | exactly the rows get_compliance_results returns for the stage are deleted |
| Compliance.ComplianceService.DeleteRows | src/core/services/compliance_service.py:289-290 | the loop deletes exactly the given rows' ids |
| Compliance.ComplianceService.GetOverallPassStatus | src/core/services/compliance_service.py:292-312 | true exactly when every row of the measurement passed, stale rows included |
| Compliance.ComplianceService.MarkResultsStaleForCriteria | src/core/services/compliance_service.py:335-348 | the criterion's rows are marked stale, and their number is returned |
| Compliance.ComplianceService.DeleteStaleResults | src/core/services/compliance_service.py:350-373 | the measurement's stale rows are deleted and counted |
| Compliance.ComplianceService.DeleteStaleRows | src/core/services/compliance_service.py:368-373 | the loop deletes and counts exactly the stale rows among those given |
| MeasurementService.PartNumberWarning | src/core/services/measurement_service.py:115-121 | a warning exactly when the file name carries a non-empty part number that is not the device's |
| MeasurementService.LoadMeasurementFile | src/core/services/measurement_service.py:73-138 | DeviceNotFoundError for an unstored device; otherwise the loader's error, then the parser's error |
| MeasurementService.LoadMeasurementFileSpec | src/core/services/measurement_service.py:73-138 | once the device is stored and the file read and parsed, loading succeeds with the parsed fields, test type defaulting to "S-Parameters", and a warning exactly on a part-number mismatch |
| MeasurementService.ValidatePartNumberMatch | src/core/services/measurement_service.py:309-337 | matches exactly when equal; a warning exactly when they differ |
| MeasurementService.PartNumberChecksAgree | src/core/services/measurement_service.py:115-121 | for a non-empty part number, the loading check and validate_part_number_match give the same warning |
| MeasurementService.CountCheck | src/core/services/measurement_service.py:179-197 | the count passes exactly when it is 4 in multi-gain mode and 2 otherwise; else ValidationError |
| MeasurementService.Retagged | src/core/services/measurement_service.py:205-213 | one measurement per loaded file, with its temperature replaced by the selected one |
| MeasurementService.SerialsOf | src/core/services/measurement_service.py:215-219 | exactly the serial numbers seen |
| MeasurementService.TemperaturesOf | src/core/services/measurement_service.py:215-219 | exactly the temperatures seen |
| MeasurementService.SerialWarnings | src/core/services/measurement_service.py:222-227 | a single warning exactly when more than one serial number was seen |
| MeasurementService.TemperatureWarnings | src/core/services/measurement_service.py:230-241 | no warning exactly when no temperature or only the selected one was seen |
| MeasurementService.BatchOf | src/core/services/measurement_service.py:140-243 | a count that does not match the mode raises its ValidationError |
| MeasurementService.LoadMultipleFiles | src/core/services/measurement_service.py:140-243 | the loop returns or raises exactly what the batch specification gives |
| MeasurementService.BatchOfLoaded | src/core/services/measurement_service.py:140-243 | once every file loaded, the batch is the retagged measurements with part-number, serial and temperature warnings in that order |
| MeasurementService.ConsistencyWarnings | src/core/services/measurement_service.py:221-243 | the serial warning first, then the temperature warnings |
| MeasurementService.LoadedStep | src/core/services/measurement_service.py:205-219 | one more loaded file extends the measurements and the warnings by that file |
| MeasurementService.LoadAllAbort | src/core/services/measurement_service.py:205-213 | a failure among the first files is the failure of the whole batch |
| MeasurementService.SetsStep | src/core/services/measurement_service.py:215-219 | one more measurement adds its serial number and its temperature |
| MeasurementService.LoadAllSpec | src/core/services/measurement_service.py:205-213 | the loop succeeds exactly when every file loads, giving one result per file in order |
| MeasurementService.BatchSpec | src/core/services/measurement_service.py:140-243 | only 2 or 4 files, matching the mode, are accepted; one measurement per file in order, each loaded from its file and tagged with the selected temperature |
| MeasurementService.CheckedWarnings | src/core/services/measurement_service.py:205-243 | since every measurement is retagged first, no temperature warning can arise: the warnings are the part-number ones, then the serial one |
| MeasurementService.PartWarningsKinds | src/core/services/measurement_service.py:205-213 | the per-file warnings are all part-number mismatches |
| Plotting.YLabel | src/core/services/plotting_service.py:328-335 | return loss takes precedence over VSWR, VSWR over gain |
| Plotting.FilterMeasurements | src/core/services/plotting_service.py:337-352 | exactly the S-Parameters measurements of the device at a selected temperature and path, an empty selection admitting all |
| Plotting.Admitted | src/core/services/plotting_service.py:344-350 | with no temperature or path selected, exactly the S-Parameters measurements of the device are admitted; an admitted measurement always belongs to the device |
| Plotting.Band | src/core/services/plotting_service.py:123-129 | for a valid device the plotted band, wideband or operational, is positive and non-empty |
| Plotting.TraceLabel | src/core/services/plotting_service.py:243-246 | the label starts with the temperature and path type and ends with the S-parameter, in parentheses after the port for a per-port plot |
| Plotting.FilterMeasurementsAppend | src/core/services/plotting_service.py:337-352 | filtering keeps the order of the measurements |
| Plotting.SerialsOf | src/core/services/plotting_service.py:153 | exactly the serial numbers seen |
| Plotting.WithSerial | src/core/services/plotting_service.py:157 | exactly the measurements of the serial number |
| Plotting.WithSerialNonEmpty | src/core/services/plotting_service.py:153-157 | a serial number taken from the measurements keeps at least one of them |
| Plotting.ZeroPadded | src/core/services/plotting_service.py:160 | the decimal digits of n, left-padded with '0' to the width and never truncated |
| Plotting.ZeroPaddedValue | src/core/services/plotting_service.py:160 | the padded digits still spell n |
| Text.LeadingZeros | src/core/services/plotting_service.py:160 | leading zeros do not change the value of a digit string |
| Plotting.DatesOf | src/core/services/plotting_service.py:160 | the ISO date of each measurement, in order |
| Plotting.PortLabels | src/core/services/plotting_service.py:183 | one reflection label per port of the network, S11 to S{n}{n} |
| Plotting.AvailableSParameters | src/core/services/plotting_service.py:354-375 | every reflection label of the network for VSWR; the device's gain labels otherwise |
| Plotting.PortOfLabel | src/core/services/plotting_service.py:208-213 | a port read from a label is never negative |
| Plotting.PortOfReflectionLabel | src/core/services/plotting_service.py:208-213 | for ports 1 to 9 the port read back is the port itself |
| Plotting.PortOfTenthReflectionLabel | src/core/services/plotting_service.py:208-213 | from port 10 on, the greedy pattern misreads the port: "S1010" is read as port 101 |
| Plotting.InGHz | src/core/services/plotting_service.py:236 | frequencies divided by 1e9, one per sample |
| Plotting.FirstMatchIndex | src/core/services/plotting_service.py:272-273 | the index of the first criterion with the name and type, or the length when none |
| Plotting.PassRegionOf | src/core/services/plotting_service.py:264-313 | no region for wideband plots or without criteria; a region spans the operational band |
| Plotting.PreparePlotData | src/core/services/plotting_service.py:82-326 | equals the plot specification for some serial number of the filtered measurements (none when there are none) |
| Plotting.TracesOf | src/core/services/plotting_service.py:165-262 | the loop over the measurements equals the trace specification, carrying the selection along |
| Plotting.TracesOfMeasurement | src/core/services/plotting_service.py:166-262 | one measurement's try block equals its specification; an unreadable network gives nothing |
| Plotting.CollectTraces | src/core/services/plotting_service.py:199-262 | the label loop equals its specification: skipped labels give nothing, an error ends the loop |
| Plotting.TraceOfLabel | src/core/services/plotting_service.py:199-262 | one label's step equals its specification |
| Plotting.LabelTracesAbort | src/core/services/plotting_service.py:199-262 | an error in the first labels ends the measurement's traces there |
| Plotting.FindPassRegion | src/core/services/plotting_service.py:264-313 | the scan for the pass region equals its specification |
| Plotting.TraceForEmits | src/core/services/plotting_service.py:206-262 | a selected label whose values compute always yields a trace; the length check never fires |
| Plotting.LabelTracesShape | src/core/services/plotting_service.py:199-262 | each trace is a selected label of the measurement, labelled as the plot type demands, with one value per frequency |
| Plotting.MeasurementTracesShape | src/core/services/plotting_service.py:165-262 | every trace of a measurement has the trace shape |
| Plotting.AllTracesShape | src/core/services/plotting_service.py:165-262 | every trace of a plot comes from one of the measurements drawn |
| Plotting.SelectionKept | src/core/services/plotting_service.py:193-197 | a non-empty selection stays as it is from measurement to measurement |
| Plotting.EmptySelectionTakesFirstLabels | src/core/services/plotting_service.py:193-197 | an empty selection becomes every label of the first readable measurement, and stays so |
| Plotting.NothingReadableKeepsSelection | src/core/services/plotting_service.py:165-197 | with no readable measurement there are no traces and the selection stays empty |
| Plotting.AllTracesStep | src/core/services/plotting_service.py:165-262 | one more measurement adds its traces after the others and hands on its selection |
| Plotting.PassRegionSpec | src/core/services/plotting_service.py:264-313 | the region comes from the first criterion named "VSWR Max" of type max or "Gain Range" of type range; return-loss plots convert the VSWR limit, failing below 1 |
| Plotting.ReturnLossRegionBounds | src/core/services/plotting_service.py:267-283 | a return-loss region's limit lies in [-200, 0] dB |
| Plotting.PlotDataShape | src/core/services/plotting_service.py:120-150 | the band and y-axis label follow the plot type |
| Plotting.PlotDataError | src/core/services/plotting_service.py:264-283 | a plot fails only when a return-loss plot over the operational band cannot convert a VSWR limit |
| Plotting.PlotDataOf | src/core/services/plotting_service.py:82-160 | no admitted measurement gives an empty plot without serial number, dates, traces or pass region; otherwise the plot names the chosen serial number and lists the sorted distinct dates of its measurements |
| Plotting.PlotDataDates | src/core/services/plotting_service.py:153-160 | the plot names the chosen serial number and lists the sorted distinct dates of its measurements |
| Plotting.DatesSpec | src/core/services/plotting_service.py:160 | the sorted distinct dates are strictly sorted and are exactly the measurements' dates |
| Plotting.PlotDataTraces | src/core/services/plotting_service.py:153-262 | every trace comes from an admitted measurement of the chosen serial number |
| Plotting.PortLabelsSpec | src/core/services/plotting_service.py:183-213 | for up to 9 ports, the reflection labels are S11 .. S{n}{n} and each reads back as its own port |
| FilenameParser.MatchAt | src/core/rf_data/filename_parser.py:55-78 | a match of a pattern at a position has the shape its pattern's group describes |
| FilenameParser.SearchFrom | src/core/rf_data/filename_parser.py:163 | a hit lies at or after the start and has the group's shape |
| FilenameParser.SearchFromFound | src/core/rf_data/filename_parser.py:163 | the search's hit is a match, and nothing between the start and it matches |
| FilenameParser.SearchFromNone | src/core/rf_data/filename_parser.py:163 | no hit means nothing matches from the start on |
| FilenameParser.Search | src/core/rf_data/filename_parser.py:163-203 | a found group has its pattern's shape |
| FilenameParser.SearchSpec | src/core/rf_data/filename_parser.py:163-203 | a search succeeds exactly when the pattern matches somewhere, and returns the leftmost match |
| FilenameParser.TemperatureNotAfterUnderscore | src/core/rf_data/filename_parser.py:78 | `\b` counts `_` as a word character, so no temperature keyword matches right after an underscore, as in "..._HOT.s4p" |
| FilenameParser.CalendarDate | src/core/rf_data/filename_parser.py:164-175 | YYYYMMDD gives a date exactly when it is a real calendar date, and then that date |
| FilenameParser.KeywordDate | src/core/rf_data/filename_parser.py:243-255 | YYYYMMDD gives a date exactly when it is a real calendar date with a year in 1900..2100, and then that date |
| FilenameParser.FirstContained | src/core/rf_data/filename_parser.py:279-283 | the first keyword, in order, that occurs anywhere: the result occurs, and for every keyword that occurs the result is that keyword or one listed before it; none exactly when no keyword occurs |
| FilenameParser.MissingFields | src/core/rf_data/filename_parser.py:131-133 | no field is missing exactly when date, serial number, part number and path type are all found |
| FilenameParser.BaseName | src/core/rf_data/filename_parser.py:111-116 | `Path(filepath).name`: no separator and never "." |
| FilenameParser.BaseNameSpec | src/core/rf_data/filename_parser.py:111-116 | the name is the last component: the path is what precedes it (ending at a separator, or nothing), the name, then only separators and "." components; an empty name means only a root or "." is left |
| FilenameParser.BaseNameOfFile | src/core/rf_data/filename_parser.py:111-116 | `dir/name`, `dir/name/` and `dir/name/.` all have the name `name` |
| FilenameParser.RegexParse | src/core/rf_data/filename_parser.py:147-223 | the method fills exactly the fields the regular-expression specification gives |
| FilenameParser.KeywordParse | src/core/rf_data/filename_parser.py:225-285 | the method fills exactly the fields the keyword specification gives |
| FilenameParser.FindSerial | src/core/rf_data/filename_parser.py:257-264 | the prefixes are tried in order, stopping at the first followed by four digits |
| FilenameParser.FindTemperature | src/core/rf_data/filename_parser.py:279-283 | the loop finds the first keyword in order that occurs in the name |
| FilenameParser.Parse | src/core/rf_data/filename_parser.py:80-145 | the method returns or raises exactly what the parse specification gives |
| FilenameParser.DropEmHyphensWithoutHyphen | src/core/rf_data/filename_parser.py:183 | a serial without a hyphen is left as it is |
| FilenameParser.SerialNormalised | src/core/rf_data/filename_parser.py:179-188 | every serial match, upper-cased and de-hyphenated, passes the format check that follows, so that check never rejects |
| FilenameParser.EmSerialExample | src/core/rf_data/filename_parser.py:179-188 | "EM-0003" and "em-0003" are both stored as "EM0003" |
| FilenameParser.RegexFields | src/core/rf_data/filename_parser.py:147-223 | the regular-expression pass finds well-formed serial number (exactly when the serial pattern matches), part number, path type, temperature and run number |
| FilenameParser.KeywordFields | src/core/rf_data/filename_parser.py:225-285 | the keyword pass finds well-formed fields and never a test type or run number |
| FilenameParser.Merged | src/core/rf_data/filename_parser.py:112-129 | the checked dictionary keeps well-formed fields and always holds an allowed temperature, AMB when neither pass found one; the keyword pass changes nothing when the regular-expression pass found a date |
| FilenameParser.ParseOf | src/core/rf_data/filename_parser.py:80-145 | parsing succeeds exactly when the merged dictionary has no missing required field, and then returns that dictionary with the file name and path; otherwise it raises FileLoadError listing exactly the missing fields |
| FilenameParser.WellFormedNameParses | src/core/rf_data/filename_parser.py:80-145 | a path ending in 20250930_SN0001_L109908_PRI.s4p parses |
| FilenameParser.ExampleDate | src/core/rf_data/filename_parser.py:162-165 | the date pattern finds 20250930 at the start of that name |
| FilenameParser.ExampleSerial | src/core/rf_data/filename_parser.py:177-181 | the serial pattern matches SN0001 in that name |
| FilenameParser.ExamplePartNumber | src/core/rf_data/filename_parser.py:189-192 | the part-number pattern matches L109908 in that name |
| FilenameParser.ExamplePathType | src/core/rf_data/filename_parser.py:194-199 | the path-type pattern matches _PRI. in that name |
| FilenameParser.DateOfExample | src/core/rf_data/filename_parser.py:166-172 | 20250930 is a real calendar date |
| FilenameParser.KeywordFallbackNeverRescues | src/core/rf_data/filename_parser.py:118-129 | a successful parse always had the date from the regular-expression pass, so the keyword fallback never contributes |
| DeviceForm.ParsePorts | src/gui/widgets/device_maintenance/device_form_widget.py:231-261 | blank text gives no ports; otherwise the ports read from the comma parts, or the whitespace parts when there is no comma |
| DeviceForm.Parts | src/gui/widgets/device_maintenance/device_form_widget.py:243-250 | no part has surrounding whitespace |
| DeviceForm.PartsSpec | src/gui/widgets/device_maintenance/device_form_widget.py:243-250 | text containing a comma is split on commas; text without one is split on whitespace; each part is stripped |
| DeviceForm.SplitOnSingleIff | src/gui/widgets/device_maintenance/device_form_widget.py:246-247 | splitting on commas gives one part exactly when there is no comma |
| DeviceForm.SpacedPortsRoundTrip | src/gui/widgets/device_maintenance/device_form_widget.py:231-261 | positive ports typed with spaces between them, as the placeholder "1 2" shows, read back as those ports |
| DeviceForm.SpacedWords | src/gui/widgets/device_maintenance/device_form_widget.py:246-250 | space-separated ports hold no comma and split at whitespace into their decimal forms |
| DeviceForm.WordThenSpace | src/gui/widgets/device_maintenance/device_form_widget.py:250 | a word, then a space, then more text splits into that word and the words of the rest |
| DeviceForm.SplitWhitespaceAtWord | src/gui/widgets/device_maintenance/device_form_widget.py:250 | text that starts with a word splits into that word and the words after it |
| DeviceForm.WordEndAtSpace | src/gui/widgets/device_maintenance/device_form_widget.py:250 | a word ends at the space that follows it |
| DeviceForm.LeadingSpaceSkipped | src/gui/widgets/device_maintenance/device_form_widget.py:250 | a leading space does not change the whitespace split |
| DeviceForm.Shown | src/gui/widgets/device_maintenance/device_form_widget.py:213-218 | the decimal form of each port, in order |
| DeviceForm.ReadPorts | src/gui/widgets/device_maintenance/device_form_widget.py:253-261 | the loop keeps, in order, every part int() reads as a positive number |
| DeviceForm.PositivesSpec | src/gui/widgets/device_maintenance/device_form_widget.py:253-261 | a port is kept exactly when it is positive and read from some part |
| DeviceForm.PositivesAppend | src/gui/widgets/device_maintenance/device_form_widget.py:253-261 | parts are read independently and in order |
| DeviceForm.BlankTextHasNoParts | src/gui/widgets/device_maintenance/device_form_widget.py:243-250 | blank text has no parts |
| DeviceForm.OneWord | src/gui/widgets/device_maintenance/device_form_widget.py:250 | a word without whitespace is its own split and its own strip |
| DeviceForm.SplitShownPorts | src/gui/widgets/device_maintenance/device_form_widget.py:213-218 | splitting the shown ports at commas gives each number, the later ones after one space |
| DeviceForm.PortsTextRoundTrip | src/gui/widgets/device_maintenance/device_form_widget.py:212-261 | reading back the ports a device shows gives its ports: parse(", ".join(ports)) == ports for positive ports |
| DeviceForm.OnePortRoundTrip | src/gui/widgets/device_maintenance/device_form_widget.py:212-261 | a single shown port is read back as itself |
| DeviceForm.SeveralPortsParts | src/gui/widgets/device_maintenance/device_form_widget.py:213-250 | two or more shown ports split into their decimal forms |
| DeviceForm.ReadBack | src/gui/widgets/device_maintenance/device_form_widget.py:253-261 | parts read as positive numbers give those numbers in order |
| DeviceForm.SelectedTests | src/gui/widgets/device_maintenance/device_form_widget.py:296-300 | exactly the checked test types |
| DeviceForm.OnSave | src/gui/widgets/device_maintenance/device_form_widget.py:263-333 | the method returns exactly the save outcome of the form |
| DeviceForm.CheckBands | src/gui/widgets/device_maintenance/device_form_widget.py:277-285 | the band steps equal their specification |
| DeviceForm.Build | src/gui/widgets/device_maintenance/device_form_widget.py:287-328 | the port, test and device steps equal their specification |
| DeviceForm.BuildOutcomeSpec | src/gui/widgets/device_maintenance/device_form_widget.py:287-328 | a device is emitted exactly when both port lists give ports, a test is checked and the device is valid, and it is that device |
| DeviceForm.SaveOutcome | src/gui/widgets/device_maintenance/device_form_widget.py:263-328 | a device is emitted only with a non-blank name and part number, stripped, keeping the edited device's id |
| DeviceForm.BandsOutcomeSpec | src/gui/widgets/device_maintenance/device_form_widget.py:277-285 | a device is emitted only when both bands increase; a non-increasing operational band is reported |
| DeviceForm.BlankNameReportedFirst | src/gui/widgets/device_maintenance/device_form_widget.py:267-269 | a blank name is the first error, whatever else the form holds |
| DeviceForm.BlankInputPortsReported | src/gui/widgets/device_maintenance/device_form_widget.py:287-289 | blank input-port text is reported once the earlier fields pass |
| DeviceForm.ShownPortsSaveUnchanged | src/gui/widgets/device_maintenance/device_form_widget.py:173-328 | editing a device whose ports are shown unchanged saves the same ports |
| CriteriaEditor.MaxId | src/core/repositories/test_criteria_repository.py:122-163 | the largest id in use bounds every stored id |
| CriteriaEditor.FreshId | src/core/repositories/test_criteria_repository.py:122-163 | the new id is held by no stored criterion, as the primary key demands |
| CriteriaEditor.WithoutIdsIn | src/core/repositories/test_criteria_repository.py:221-244 | a row survives deletion exactly when its id is not deleted |
| CriteriaEditor.SnocUnique | src/core/repositories/test_criteria_repository.py:122-163 | appending a row under a new id keeps the ids unique |
| CriteriaEditor.AddedUnique | src/core/repositories/test_criteria_repository.py:122-163 | adding under a fresh id keeps the ids unique |
| CriteriaEditor.UpdatedUnique | src/core/repositories/test_criteria_repository.py:165-219 | updating keeps every id, so they stay unique |
| CriteriaEditor.WithoutIdsUnique | src/core/repositories/test_criteria_repository.py:221-244 | deleting keeps the ids unique |
| CriteriaEditor.WithoutIdsStep | src/core/repositories/test_criteria_repository.py:221-244 | deleting one more id after a set is deleting the union |
| CriteriaEditor.WithoutNoIds | src/core/repositories/test_criteria_repository.py:221-244 | deleting no ids changes nothing |
| CriteriaEditor.CriteriaStore.constructor | src/core/repositories/test_criteria_repository.py:44-51 | the store holds the given criteria |
| CriteriaEditor.CriteriaStore.Add | src/core/services/device_service.py:240-258 | the criterion is appended under a fresh id and returned |
| CriteriaEditor.CriteriaStore.Update | src/core/repositories/test_criteria_repository.py:165-219 | TestCriteriaError and no change for an unknown id; otherwise that row's columns are rewritten in place |
| CriteriaEditor.CriteriaStore.Delete | src/core/repositories/test_criteria_repository.py:221-244 | TestCriteriaError and no change for an unknown id; otherwise that row is removed |
| CriteriaEditor.FirstNamed | src/gui/widgets/device_maintenance/test_criteria_editor.py:470-520 | the index of the first criterion with the name, or none when there is none |
| CriteriaEditor.OobIn | src/gui/widgets/device_maintenance/test_criteria_editor.py:523-526 | exactly the criteria whose names contain "OOB", in order |
| CriteriaEditor.OobCriterion | src/gui/widgets/device_maintenance/test_criteria_editor.py:546-562 | a saved row's criterion is recognised as OOB by the next save's deletion, and an accepted row passes TestCriteria validation (the acceptance rule implies the band rule) |
| CriteriaEditor.FixedNamesNotOob | src/gui/widgets/device_maintenance/test_criteria_editor.py:470-532 | Gain Range and VSWR Max are never swept up by the OOB deletion |
| CriteriaEditor.OobNamesDistinct | src/gui/widgets/device_maintenance/test_criteria_editor.py:546-562 | different rows are saved under different names |
| CriteriaEditor.OobOfAdded | src/gui/widgets/device_maintenance/test_criteria_editor.py:534-562 | adding an in-stage OOB criterion appends it to the stage's OOB list |
| CriteriaEditor.OobOfWithoutOob | src/gui/widgets/device_maintenance/test_criteria_editor.py:523-532 | after the deletion step the stage has no OOB criterion |
| CriteriaEditor.OobOfWithOobRows | src/gui/widgets/device_maintenance/test_criteria_editor.py:534-562 | re-adding appends the accepted rows, in row order, to the stage's OOB list |
| CriteriaEditor.SaveStageOob | src/gui/widgets/device_maintenance/test_criteria_editor.py:523-562 | after a stage is saved, its OOB criteria are exactly its accepted rows, in row order |
| CriteriaEditor.SameIdSameRow | src/core/repositories/test_criteria_repository.py:53-73 | with unique ids, two rows with the same id are the same row |
| CriteriaEditor.SaveStageUnique | src/gui/widgets/device_maintenance/test_criteria_editor.py:470-562 | saving a stage keeps the store's ids unique |
| CriteriaEditor.UpdatedElsewhere | src/core/repositories/test_criteria_repository.py:165-219 | an update of a row outside a stage leaves that stage's criteria unchanged |
| CriteriaEditor.WithoutIdsElsewhere | src/core/repositories/test_criteria_repository.py:221-244 | deleting ids no row of a stage has leaves that stage's criteria unchanged |
| CriteriaEditor.SaveStageElsewhere | src/gui/widgets/device_maintenance/test_criteria_editor.py:470-562 | saving one stage leaves every other stage, test type and device unchanged |
| CriteriaEditor.UpdatedHolds | src/core/repositories/test_criteria_repository.py:165-219 | the updated row stays in the store under its id and stage |
| CriteriaEditor.UpdatedKeeps | src/core/repositories/test_criteria_repository.py:165-219 | a row the update does not target stays as it was |
| CriteriaEditor.GainRangeWritten | src/gui/widgets/device_maintenance/test_criteria_editor.py:470-497 | with min < max the stage holds a Gain Range with those bounds; an existing one is updated, not duplicated |
| CriteriaEditor.VswrMaxWritten | src/gui/widgets/device_maintenance/test_criteria_editor.py:500-520 | the stage holds a VSWR Max with the form's limit; an existing one is updated, not duplicated |
| CriteriaEditor.OobStepsKeep | src/gui/widgets/device_maintenance/test_criteria_editor.py:523-562 | a row whose name does not say OOB survives the OOB steps |
| CriteriaEditor.SaveStageVswr | src/gui/widgets/device_maintenance/test_criteria_editor.py:500-562 | after a stage is saved it holds a VSWR Max with the form's limit |
| CriteriaEditor.VswrStepKeeps | src/gui/widgets/device_maintenance/test_criteria_editor.py:500-520 | the VSWR step keeps every row not named VSWR Max |
| CriteriaEditor.SaveStageGain | src/gui/widgets/device_maintenance/test_criteria_editor.py:470-562 | after a stage is saved with min < max it holds a Gain Range with those bounds |
| CriteriaEditor.SaveStagesUnique | src/gui/widgets/device_maintenance/test_criteria_editor.py:465-565 | saving several stages keeps the ids unique |
| CriteriaEditor.SaveStagesElsewhere | src/gui/widgets/device_maintenance/test_criteria_editor.py:465-565 | a save touches only the editor's own device and test type, and only the stages it saves |
| CriteriaEditor.SaveStagesOob | src/gui/widgets/device_maintenance/test_criteria_editor.py:465-565 | each saved stage ends with its own accepted rows as OOB criteria; later stages do not disturb it |
| CriteriaEditor.SaveStagesLimits | src/gui/widgets/device_maintenance/test_criteria_editor.py:465-565 | each saved stage ends with its VSWR Max, and its Gain Range when min < max |
| CriteriaEditor.SaveAllStages | src/gui/widgets/device_maintenance/test_criteria_editor.py:465-565 | after a save over the three stages, ids are unique and each stage holds its VSWR Max, its Gain Range when min < max, and exactly its accepted OOB rows |
| CriteriaEditor.SaveAllElsewhere | src/gui/widgets/device_maintenance/test_criteria_editor.py:465-565 | a save leaves the criteria of every other device, test type and stage unchanged |
| CriteriaEditor.TestCriteriaEditor.SaveAllCriteria | src/gui/widgets/device_maintenance/test_criteria_editor.py:465-565 | the loop over the stages leaves the store as the save specification gives, ids unique |
| CriteriaEditor.TestCriteriaEditor.SaveStageCriteria | src/gui/widgets/device_maintenance/test_criteria_editor.py:470-562 | one stage's Gain Range, VSWR Max, OOB deletion and OOB rows, in that order |
| CriteriaEditor.TestCriteriaEditor.SaveGainRange | src/gui/widgets/device_maintenance/test_criteria_editor.py:470-497 | the Gain Range step: updated if present, created if not, skipped unless min < max |
| CriteriaEditor.TestCriteriaEditor.SaveVswrMax | src/gui/widgets/device_maintenance/test_criteria_editor.py:500-520 | the VSWR Max step: updated if present, created if not |
| CriteriaEditor.TestCriteriaEditor.DeleteOob | src/gui/widgets/device_maintenance/test_criteria_editor.py:523-532 | deletes the stage's OOB criteria one at a time; every deletion finds its row |
| CriteriaEditor.TestCriteriaEditor.AddOobRows | src/gui/widgets/device_maintenance/test_criteria_editor.py:534-562 | adds a criterion for every accepted row, in row order |
| CriteriaEditor.EventFilter | src/gui/widgets/device_maintenance/test_criteria_editor.py:355-383 | the event is let through exactly when it is not Tab, Shift-Tab or Enter; focus moves only to an in-table cell that has a widget |
| CriteriaEditor.CellAt | src/gui/widgets/device_maintenance/test_criteria_editor.py:355-383 | the cell at a reading-order position |
| CriteriaEditor.NextCellPosition | src/gui/widgets/device_maintenance/test_criteria_editor.py:355-383 | Tab and Enter move one position forward in reading order, Shift-Tab one back |
| CriteriaEditor.NextCell | src/gui/widgets/device_maintenance/test_criteria_editor.py:355-383 | the next cell is in a column 0..2 and one reading-order position after (Tab, Enter) or before (Shift-Tab) the current one |
| CriteriaEditor.CellPositionUnique | src/gui/widgets/device_maintenance/test_criteria_editor.py:355-383 | different cells have different reading-order positions |
| CriteriaEditor.NextCellRoundTrip | src/gui/widgets/device_maintenance/test_criteria_editor.py:355-383 | Shift-Tab undoes Tab and Tab undoes Shift-Tab |
| CriteriaEditor.EventFilterMoves | src/gui/widgets/device_maintenance/test_criteria_editor.py:355-383 | on a handled key, focus moves to the next position's cell exactly when it lies in the table and has a widget; otherwise to the table |
| CriteriaEditor.EventFilterLeavesAtEnds | src/gui/widgets/device_maintenance/test_criteria_editor.py:355-383 | Tab from the last cell and Shift-Tab from the first leave the cells for the table |
| CriteriaEditor.GainRangeCriterionValid | src/gui/widgets/device_maintenance/test_criteria_editor.py:470-497 | a Gain Range the editor creates passes TestCriteria validation, since the step runs only when min < max |
| CriteriaEditor.VswrCriterionValid | src/gui/widgets/device_maintenance/test_criteria_editor.py:500-520 | a VSWR Max the editor creates always passes TestCriteria validation |
| CriteriaEditor.TestCriteriaEditor.constructor | src/gui/widgets/device_maintenance/test_criteria_editor.py:75-96 | the editor edits the given store for its device and test type |
| Registry.RegistryHolder.constructor | src/core/test_types/registry.py:45-46 | no registry exists before the first construction |
| Devices.ReflectionLabelsStrictlySorted | src/core/models/device.py:260-268 | strictly increasing ports give pairwise distinct reflection labels |

## Left out

- Floating point: every quantity is an exact `real`. Rounding, NaN and infinity are not modelled. In particular the gain of a zero entry, which is −inf in dB, is not modelled, and neither is the 1e-9 Hz tolerance of the window mask.
- scikit-rf and numpy primitives: `np.abs`, `np.log10` and `s_vswr` are parameters (`RfNetwork.Numerics`). The bound lemmas assume only what `RfNetwork.Sound` states.
- Interpolation: it is linear between samples, as `network.interpolate` does by default. For a one-sample sweep the window is that sample. scipy's handling of a one-point interpolation is not modelled.
- Touchstone parsing, file I/O and pickling: reading a file's network is a parameter (`MeasurementService.NetworkLoader`). The loader's own failures arrive as FileLoadError.
- SQLite: the repositories are in-memory tables held by the services. The following are not modelled:
  - the SQL text and JSON columns;
  - the transaction boundaries;
  - the ON DELETE CASCADE from criteria to results.
- Query order: each repository's ORDER BY clause (created_at, measurement_date, requirement_name) is replaced by table order. So "the first Gain Range" of the editor and of the pass region is the first in table order.
- Ids: `uuid4()` is replaced as follows:
  - the result ids of a save are a parameter;
  - the measurement ids of a load are a parameter;
  - the criteria store takes one more than the largest id in use (`CriteriaEditor.FreshId`).
- Timestamps (`created_at`, `updated_at`) are not modelled, and neither is the current time.
- Logging, `print` and the wording of warnings and error messages are not modelled. Warnings are a datatype, and errors carry the source's exception class.
- Test types other than S-Parameters: their `evaluate_compliance` is a parameter (`Compliance.Evaluators.other`). Only the S-Parameters evaluation is modelled.
- Qt: widgets, dialogs, signals and focus handling are not modelled. For the device form, only `_parse_ports` and the validation sequence of `_on_save` are modelled. For the criteria editor, only the rows `_save_all_criteria` writes and the cell arithmetic of `OOBSpinboxFilter.eventFilter` are modelled.
- Criteria editor: these parts of `_save_all_criteria` are not modelled:
  - the missing-widget check;
  - the success message and the `criteria_saved` signal;
  - the partial writes left behind when `handle_exception` catches a failure midway.
- Criteria editor: `update_criteria` marks the criterion's results stale; the store does not model that side effect. The same marking is modelled on the compliance side, as `Compliance.ComplianceService.MarkResultsStaleForCriteria`.
- Criteria editor: the TestCriteria validation that a repository update would re-run is not modelled. Instead, the lemmas `CriteriaEditor.GainRangeCriterionValid` and `VswrCriterionValid` and the contract of `CriteriaEditor.OobCriterion` show that the rows the editor writes pass it.
- Worker threads (compliance evaluation, file loading, plotting) are not modelled, because their point is concurrency.
- Plot rendering is not modelled: the matplotlib figure, the axis limits and the hash marks. A trace keeps its frequency and value sequences.
- Plotting.PreparePlotData: the serial number kept is one of the filtered serials, chosen without saying which, because the source takes the first element of a Python `set`, whose order is unspecified.
- Ports from 10 up: labels are `"S" + str(out) + str(in)`, so they are ambiguous from port 10 on. They are modelled as written, and the ambiguity is stated as properties: `Devices.LabelsAmbiguousBeyondNinePorts`, `Calculator.ParseReadsOneDigitPerPort` and `Plotting.PortOfTenthReflectionLabel`.
- Regular expressions: they are hand-written matchers. `\d` and `\w` are ASCII, and `re.IGNORECASE` folds ASCII letters only. Python's Unicode digit and word classes are not modelled.
- Text.Upper and Text.Lower map ASCII letters only and keep the length. Python's `str.upper()` and `str.lower()` are Unicode: `"ß".upper()` is `"SS"` and `"İ".lower()` has two code points. They are used on file names (filename_parser.py:181, 199, 211 and 240), on plot types (plotting_service.py:118) and on requirement names (s_parameters.py:297); names outside ASCII are not modelled.
- `s_vswr` at |Γ| = 1 is left unconstrained: numpy divides by zero there and yields infinity, which a `real` cannot hold.
- `int()` in the port parser accepts surrounding whitespace, an optional sign and ASCII digits, which may be grouped by single underscores. Non-ASCII digits are not modelled.
- `save_all_results` and `get_overall_pass_status_for_all_measurements` of the compliance service are not modelled. They are loops over `save_test_results` and `get_overall_pass_status`, which are modelled.
- Pydantic: the machinery is not modelled. Construction of a model is a function returning `Result`.

## Findings

| source | as written | input that shows it | evidently intended | confidence | as-written member | corrected member |
|---|---|---|---|---|---|---|
| src/core/models/device.py:110-117 | `re.match(r"^L\d{6}$", v)` accepts a part number followed by one newline, because `$` also matches before a final newline | `"L123456\n"` | exactly "L" followed by six digits (`\Z` or `re.fullmatch`) | not executed | Devices.PartNumberPatternAdmitsNewline | Devices.ValidatePartNumber |
