/**
 * FilenameParser: the measurement metadata read from a file's name. A regular-
 * expression pass runs first; when it found no date a keyword pass runs and its
 * fields overwrite; the temperature defaults to AMB; and the date, serial number,
 * part number and path type are required.
 *
 * The regular expressions are written out by hand as matchers at a position
 * (`MatchAt`) and a leftmost search (`Search`), with `\d` the ASCII digits,
 * `\w` the ASCII word characters and `re.IGNORECASE` the ASCII letters.
 */
module FilenameParser {
  import opened Exceptions
  import opened Text
  import opened Measurements

  // ---------------------------------------------------------------- pattern pieces

  predicate AllDigits(s: string) { forall i :: 0 <= i < |s| ==> IsDigit(s[i]) }

  /** `\d{n}` at `i`. */
  predicate DigitsAt(s: string, i: nat, n: nat)
  {
    i + n <= |s| && forall j :: i <= j < i + n ==> IsDigit(s[j])
  }

  /** The upper-case word `w` at `i`, letters compared ignoring case. */
  predicate UpperAt(s: string, i: nat, w: string)
  {
    i + |w| <= |s| && forall j :: 0 <= j < |w| ==> UpperChar(s[i + j]) == w[j]
  }

  /** `[_.-]`. */
  predicate IsSeparator(c: char) { c == '_' || c == '.' || c == '-' }

  /** `$` without MULTILINE: the end of the string, or just before a final newline. */
  predicate AtEnd(s: string, j: nat)
  {
    j == |s| || (j + 1 == |s| && s[j] == '\n')
  }

  /** `(?:[_.]|$)`. */
  predicate Terminator(s: string, j: nat)
  {
    (j < |s| && (s[j] == '_' || s[j] == '.')) || AtEnd(s, j)
  }

  /** `\bw\b` at `i` for a word `w` that starts and ends with word characters. */
  predicate WordAt(s: string, i: nat, w: string)
  {
    && OccursAt(s, w, i)
    && (i == 0 || !IsWordChar(s[i - 1]))
    && (i + |w| == |s| || !IsWordChar(s[i + |w|]))
  }

  // ---------------------------------------------------------------- the patterns

  datatype Pattern =
    | DatePattern          // (\d{8})
    | SerialPattern        // ([SE]N\d{4}|EM-?\d{4}), ignoring case
    | PartNumberPattern    // (L\d{6})
    | PathTypePattern      // (?i)[_.-](PRI|RED)(?:[_.]|$)
    | TemperaturePattern   // \b(AMB|HOT|COLD)\b
    | RunPattern           // (?i)[_.-]Run(\d+)(?:[_.]|$)
    | DigitsAfter(prefix: string, n: nat)   // {prefix}(\d{n})
    | WholeWord(word: string)               // \b{word}\b

  /** What a match of each pattern captures, as far as the fields need it. */
  predicate GroupShape(p: Pattern, g: string)
  {
    match p
    case DatePattern => |g| == 8 && AllDigits(g)
    case SerialPattern => SerialMatch(g)
    case PartNumberPattern => |g| == 7 && g[0] == 'L' && AllDigits(g[1..])
    case PathTypePattern => |g| == 3 && (UpperAt(g, 0, "PRI") || UpperAt(g, 0, "RED"))
    case TemperaturePattern => g in AllowedTemperatures
    case RunPattern => |g| >= 1 && AllDigits(g)
    case DigitsAfter(_, n) => |g| == n && AllDigits(g)
    case WholeWord(w) => g == w
  }

  /**
   * What `re.match` of the pattern at index `i` captures in its group (the whole match
   * for the whole-word pattern), alternatives tried in the order written.
   */
  function MatchAt(p: Pattern, s: string, i: nat): (r: Option<string>)
    requires i <= |s|
    ensures r.Some? ==> GroupShape(p, r.value)
  {
    match p
    case DatePattern =>
      if DigitsAt(s, i, 8) then Some(s[i..i + 8]) else None
    case SerialPattern =>
      if i + 2 <= |s| && UpperChar(s[i]) in {'S', 'E'} && UpperChar(s[i + 1]) == 'N' && DigitsAt(s, i + 2, 4) then
        Some(s[i..i + 6])
      else if UpperAt(s, i, "EM") && i + 2 < |s| && s[i + 2] == '-' && DigitsAt(s, i + 3, 4) then Some(s[i..i + 7])
      else if UpperAt(s, i, "EM") && DigitsAt(s, i + 2, 4) then Some(s[i..i + 6])
      else None
    case PartNumberPattern =>
      if i < |s| && s[i] == 'L' && DigitsAt(s, i + 1, 6) then Some(s[i..i + 7]) else None
    case PathTypePattern =>
      if i < |s| && IsSeparator(s[i]) && (UpperAt(s, i + 1, "PRI") || UpperAt(s, i + 1, "RED")) && Terminator(s, i + 4) then
        Some(s[i + 1..i + 4])
      else None
    case TemperaturePattern =>
      if WordAt(s, i, "AMB") then Some("AMB")
      else if WordAt(s, i, "HOT") then Some("HOT")
      else if WordAt(s, i, "COLD") then Some("COLD")
      else None
    case RunPattern =>
      if i < |s| && IsSeparator(s[i]) && UpperAt(s, i + 1, "RUN") then
        var k := DigitRunEnd(s, i + 4);
        if k > i + 4 && Terminator(s, k) then Some(s[i + 4..k]) else None
      else None
    case DigitsAfter(prefix, n) =>
      if OccursAt(s, prefix, i) && DigitsAt(s, i + |prefix|, n) then Some(s[i + |prefix|..i + |prefix| + n]) else None
    case WholeWord(w) =>
      if w != [] && WordAt(s, i, w) then Some(w) else None
  }

  /** The three shapes a serial-number match can take: `SN1234`/`EN1234`, `EM-1234`, `EM1234`, letters in either case. */
  predicate SerialMatch(g: string)
  {
    || (|g| == 6 && UpperChar(g[0]) in {'S', 'E'} && UpperChar(g[1]) == 'N' && DigitsAt(g, 2, 4))
    || (|g| == 7 && UpperAt(g, 0, "EM") && g[2] == '-' && DigitsAt(g, 3, 4))
    || (|g| == 6 && UpperAt(g, 0, "EM") && DigitsAt(g, 2, 4))
  }

  datatype Found = Found(at: nat, group: string)

  /** `re.search` from index `k` on: the leftmost index at which the pattern matches. */
  function SearchFrom(p: Pattern, s: string, k: nat): (r: Option<Found>)
    requires k <= |s| + 1
    ensures r.Some? ==> k <= r.value.at <= |s| && GroupShape(p, r.value.group)
    decreases |s| + 1 - k
  {
    if k > |s| then None
    else if MatchAt(p, s, k).Some? then Some(Found(k, MatchAt(p, s, k).value))
    else SearchFrom(p, s, k + 1)
  }

  /** What the search from `k` finds is a match, and there is none between `k` and it. */
  lemma {:induction false} SearchFromFound(p: Pattern, s: string, k: nat)
    requires k <= |s| + 1 && SearchFrom(p, s, k).Some?
    ensures MatchAt(p, s, SearchFrom(p, s, k).value.at) == Some(SearchFrom(p, s, k).value.group)
    ensures forall j :: k <= j < SearchFrom(p, s, k).value.at ==> MatchAt(p, s, j).None?
    decreases |s| + 1 - k
  {
    if MatchAt(p, s, k).None? {
      SearchFromFound(p, s, k + 1);
    }
  }

  /** The search from `k` finds nothing only when nothing matches from `k` on. */
  lemma {:induction false} SearchFromNone(p: Pattern, s: string, k: nat)
    requires k <= |s| + 1 && SearchFrom(p, s, k).None?
    ensures forall j :: k <= j <= |s| ==> MatchAt(p, s, j).None?
    decreases |s| + 1 - k
  {
    if k <= |s| {
      SearchFromNone(p, s, k + 1);
    }
  }

  /** `re.search(pattern, s)`: the group of the leftmost match, or None. */
  function Search(p: Pattern, s: string): (r: Option<string>)
    ensures r.Some? ==> GroupShape(p, r.value)
  {
    var f := SearchFrom(p, s, 0);
    if f.Some? then Some(f.value.group) else None
  }

  /** A search succeeds exactly when the pattern matches somewhere, and then returns the leftmost match. */
  lemma SearchSpec(p: Pattern, s: string)
    ensures Search(p, s).Some? <==> exists i :: 0 <= i <= |s| && MatchAt(p, s, i).Some?
    ensures Search(p, s).Some? ==> exists i :: 0 <= i <= |s| && MatchAt(p, s, i) == Search(p, s)
                                     && forall j :: 0 <= j < i ==> MatchAt(p, s, j).None?
  {
    if SearchFrom(p, s, 0).Some? {
      SearchFromFound(p, s, 0);
    } else {
      SearchFromNone(p, s, 0);
    }
  }

  /**
   * `\b` treats `_` as a word character, so a temperature keyword right after an underscore,
   * as in "..._HOT.s4p", is not matched there.
   */
  lemma TemperatureNotAfterUnderscore(s: string, i: nat)
    requires 0 < i <= |s| && s[i - 1] == '_'
    ensures MatchAt(TemperaturePattern, s, i).None?
  {
    assert IsWordChar(s[i - 1]);
  }

  // ---------------------------------------------------------------- the fields

  /** The fields a pass extracts (a key absent from the dictionary is None). */
  datatype Metadata = Metadata(
    date: Option<Date>,
    serialNumber: Option<string>,
    partNumber: Option<string>,
    pathType: Option<string>,
    temperature: Option<string>,
    testType: Option<string>,
    runNumber: Option<string>)

  const NoFields: Metadata := Metadata(None, None, None, None, None, None, None)

  /** The year, month and day of eight digits `YYYYMMDD`. */
  function DateParts(d: string): (int, int, int)
    requires |d| == 8 && AllDigits(d)
  {
    (DigitsValue(d[..4]), DigitsValue(d[4..6]), DigitsValue(d[6..]))
  }

  /** `date(int(d[0:4]), int(d[4:6]), int(d[6:8]))`, None where the constructor raises ValueError. */
  function CalendarDate(d: string): (r: Option<Date>)
    requires |d| == 8 && AllDigits(d)
    ensures r.Some? <==> IsValidDate(DateParts(d).0, DateParts(d).1, DateParts(d).2)
    ensures r.Some? ==> r.value == Date(DateParts(d).0, DateParts(d).1, DateParts(d).2)
  {
    var (y, m, dd) := DateParts(d);
    if IsValidDate(y, m, dd) then Some(Date(y, m, dd)) else None
  }

  /** `serial.replace("EM-", "EM")`: every `EM-`, left to right, loses its hyphen. */
  function DropEmHyphens(s: string): (r: string)
    decreases |s|
  {
    if |s| >= 3 && s[..3] == "EM-" then "EM" + DropEmHyphens(s[3..])
    else if s == [] then []
    else [s[0]] + DropEmHyphens(s[1..])
  }

  /** `re.match(r"^[SE]N\d{4}$|^EM\d{4}$", serial, re.IGNORECASE)`. */
  predicate SerialFormat(s: string)
  {
    || (|s| == 6 && UpperChar(s[0]) in {'S', 'E'} && UpperChar(s[1]) == 'N' && DigitsAt(s, 2, 4))
    || (|s| == 7 && UpperChar(s[0]) in {'S', 'E'} && UpperChar(s[1]) == 'N' && DigitsAt(s, 2, 4) && s[6] == '\n')
    || (|s| == 6 && UpperAt(s, 0, "EM") && DigitsAt(s, 2, 4))
    || (|s| == 7 && UpperAt(s, 0, "EM") && DigitsAt(s, 2, 4) && s[6] == '\n')
  }

  /** The serial number as stored: upper-cased, `EM-` normalised to `EM`. */
  function NormalisedSerial(g: string): string
  {
    DropEmHyphens(Upper(g))
  }

  /** `".s" in filename.lower()`. */
  predicate NamesSParameters(f: string)
  {
    Contains(f, "S-Par") || Contains(Lower(f), ".s")
  }

  /** The test-type hint of the regular-expression pass. */
  function TestTypeHint(f: string): Option<string>
  {
    if NamesSParameters(f) then Some("S-Parameters")
    else if Contains(f, "NF") || Contains(f, "Noise") then Some("Noise Figure")
    else None
  }

  /**
   * What `_regex_parse` returns for a file name. The fields it finds are well formed: a serial
   * number is found exactly when the serial pattern matches somewhere.
   */
  function RegexFields(f: string): (r: Metadata)
    ensures r.serialNumber.Some? <==> Search(SerialPattern, f).Some?
    ensures r.serialNumber.Some? ==> IsSerial(r.serialNumber.value)
    ensures r.partNumber.Some? ==> IsPartNumber(r.partNumber.value)
    ensures r.pathType.Some? ==> r.pathType.value in {"PRI", "RED"}
    ensures r.temperature.Some? ==> r.temperature.value in AllowedTemperatures
    ensures r.runNumber.Some? ==>
              |r.runNumber.value| > 3 && r.runNumber.value[..3] == "Run" && AllDigits(r.runNumber.value[3..])
  {
    var date := Search(DatePattern, f);
    var serial := Search(SerialPattern, f);
    var part := Search(PartNumberPattern, f);
    var path := Search(PathTypePattern, f);
    var run := Search(RunPattern, f);
    Metadata(
      if date.Some? then CalendarDate(date.value) else None,
      if serial.Some? then
        SerialNormalised(serial.value);
        if SerialFormat(NormalisedSerial(serial.value)) then Some(NormalisedSerial(serial.value)) else None
      else None,
      part,
      if path.Some? then
        PathTypeUpper(path.value);
        Some(Upper(path.value))
      else None,
      Search(TemperaturePattern, f),
      TestTypeHint(f),
      if run.Some? then
        RunNumberShape(run.value);
        Some("Run" + run.value)
      else None)
  }

  /** A path-type match reads as "PRI" or "RED" once upper-cased. */
  lemma PathTypeUpper(g: string)
    requires GroupShape(PathTypePattern, g)
    ensures Upper(g) == "PRI" || Upper(g) == "RED"
  {
    var u := Upper(g);
    if UpperAt(g, 0, "PRI") {
      assert u == "PRI";
    } else {
      assert u == "RED";
    }
  }

  /** A run match, prefixed with "Run", is "Run" followed by digits. */
  lemma RunNumberShape(g: string)
    requires GroupShape(RunPattern, g)
    ensures var n := "Run" + g; |n| > 3 && n[..3] == "Run" && AllDigits(n[3..])
  {
    assert ("Run" + g)[3..] == g;
  }

  /** The keyword pass's date: the same eight digits, a year in 1900..2100 and a real calendar date. */
  function KeywordDate(d: string): (r: Option<Date>)
    requires |d| == 8 && AllDigits(d)
    ensures r.Some? <==> 1900 <= DateParts(d).0 <= 2100 && IsValidDate(DateParts(d).0, DateParts(d).1, DateParts(d).2)
    ensures r.Some? ==> r.value == Date(DateParts(d).0, DateParts(d).1, DateParts(d).2)
  {
    var (y, m, dd) := DateParts(d);
    if 1900 <= y <= 2100 && 1 <= m <= 12 && 1 <= dd <= 31 && IsValidDate(y, m, dd) then Some(Date(y, m, dd)) else None
  }

  const SerialPrefixes: seq<string> := ["SN", "EM"]
  const KeywordTemperatures: seq<string> := ["AMB", "HOT", "COLD"]

  /** The serial loop: the first prefix, in order, followed somewhere by four digits. */
  function FirstSerial(u: string, prefixes: seq<string>): Option<string>
  {
    if prefixes == [] then None
    else
      var m := Search(DigitsAfter(prefixes[0], 4), u);
      if m.Some? then Some(prefixes[0] + m.value) else FirstSerial(u, prefixes[1..])
  }

  /** The temperature loop: the first keyword, in order, that occurs anywhere. */
  function FirstContained(u: string, words: seq<string>): (r: Option<string>)
    ensures r.Some? ==> r.value in words && Contains(u, r.value)
    ensures forall j :: 0 <= j < |words| && Contains(u, words[j]) ==> r.Some? && r.value in words[..j + 1]
    ensures r.None? ==> forall w :: w in words ==> !Contains(u, w)
  {
    if words == [] then None
    else if Contains(u, words[0]) then Some(words[0])
    else FirstContained(u, words[1..])
  }

  /** What `_keyword_parse` returns for a file name (searched upper-cased): well-formed fields, never a test type or run number. */
  function KeywordFields(f: string): (r: Metadata)
    ensures r.serialNumber.Some? ==> IsSerial(r.serialNumber.value)
    ensures r.partNumber.Some? ==> IsPartNumber(r.partNumber.value)
    ensures r.pathType.Some? ==> r.pathType.value in {"PRI", "RED"}
    ensures r.temperature.Some? ==> r.temperature.value in AllowedTemperatures
    ensures r.testType.None? && r.runNumber.None?
  {
    var u := Upper(f);
    var date := Search(DatePattern, f);
    var part := Search(DigitsAfter("L", 6), u);
    FirstSerialShape(u, SerialPrefixes);
    Metadata(
      if date.Some? then KeywordDate(date.value) else None,
      FirstSerial(u, SerialPrefixes),
      if part.Some? then
        assert ("L" + part.value)[1..] == part.value;
        Some("L" + part.value)
      else None,
      if Search(WholeWord("PRI"), u).Some? then Some("PRI")
      else if Search(WholeWord("RED"), u).Some? then Some("RED")
      else None,
      FirstContained(u, KeywordTemperatures),
      None,
      None)
  }

  /** `metadata.update(other)`: each key the other pass found overwrites. */
  function Update(m: Metadata, other: Metadata): Metadata
  {
    Metadata(
      if other.date.Some? then other.date else m.date,
      if other.serialNumber.Some? then other.serialNumber else m.serialNumber,
      if other.partNumber.Some? then other.partNumber else m.partNumber,
      if other.pathType.Some? then other.pathType else m.pathType,
      if other.temperature.Some? then other.temperature else m.temperature,
      if other.testType.Some? then other.testType else m.testType,
      if other.runNumber.Some? then other.runNumber else m.runNumber)
  }

  const Required: seq<string> := ["date", "serial_number", "part_number", "path_type"]

  /** `[field for field in required if not metadata.get(field)]`, in that order. */
  function MissingFields(m: Metadata): (r: seq<string>)
    ensures r == [] <==> m.date.Some? && m.serialNumber.Some? && m.partNumber.Some? && m.pathType.Some?
    ensures forall n :: n in r ==> n in Required
  {
    (if m.date.None? then ["date"] else [])
    + (if m.serialNumber.None? then ["serial_number"] else [])
    + (if m.partNumber.None? then ["part_number"] else [])
    + (if m.pathType.None? then ["path_type"] else [])
  }

  /** The text after the last `/` of `path`, or all of it when there is none. */
  function LastSegment(path: string): (r: string)
    ensures |r| <= |path|
    ensures forall i :: 0 <= i < |r| ==> r[i] != '/'
    decreases |path|
  {
    if path == [] || path[|path| - 1] == '/' then []
    else LastSegment(path[..|path| - 1]) + [path[|path| - 1]]
  }

  /** The last segment is a suffix of the path, preceded by a separator unless it is the whole path. */
  lemma {:induction false} LastSegmentSuffix(path: string)
    ensures var r := LastSegment(path);
            && r == path[|path| - |r|..]
            && (|r| < |path| ==> path[|path| - |r| - 1] == '/')
    decreases |path|
  {
    if path != [] && path[|path| - 1] != '/' {
      var p := path[..|path| - 1];
      LastSegmentSuffix(p);
      assert path == p + [path[|path| - 1]];
    }
  }

  /** What `Path` ignores after the last component: separators and `.` components. */
  predicate Trailer(t: string)
    decreases |t|
  {
    || t == []
    || (t[0] == '/' && Trailer(t[1..]))
    || (|t| >= 2 && t[0] == '/' && t[1] == '.' && (|t| == 2 || t[2] == '/') && Trailer(t[2..]))
  }

  /** `Path(filepath).name`: the last component, after dropping trailing separators and `.` components. */
  function BaseName(path: string): (r: string)
    ensures forall i :: 0 <= i < |r| ==> r[i] != '/'
    ensures r != "."
    decreases |path|
  {
    var c := LastSegment(path);
    if c != [] && c != "." then c
    else if |c| == |path| then []
    else BaseName(path[..|path| - |c| - 1])
  }

  /** A separator followed by an empty or `.` component extends a trailer. */
  lemma {:induction false} TrailerExtend(t: string, c: string)
    requires Trailer(t) && (c == [] || c == ".")
    ensures Trailer(t + ['/'] + c)
    decreases |t|
  {
    var x := ['/'] + c;
    assert t + ['/'] + c == t + x;
    if t == [] {
      assert t + x == x;
      assert x[1..] == c;
      if c == "." {
        assert x[2..] == [];
      }
    } else if t[0] == '/' && Trailer(t[1..]) {
      TrailerExtend(t[1..], c);
      assert (t + x)[1..] == t[1..] + ['/'] + c;
    } else {
      TrailerExtend(t[2..], c);
      assert (t + x)[2..] == t[2..] + ['/'] + c;
    }
  }

  /**
   * The name is the last component of the path: what precedes it ends at a separator (or
   * is empty), and what follows it is only separators and `.` components. An empty name
   * means the path has no component other than the root or `.`.
   */
  lemma {:induction false} BaseNameSpec(path: string) returns (pre: string, post: string)
    ensures path == pre + BaseName(path) + post && Trailer(post)
    ensures BaseName(path) != [] ==> pre == [] || pre[|pre| - 1] == '/'
    ensures BaseName(path) == [] ==> pre == [] || pre == "."
    decreases |path|
  {
    var c := LastSegment(path);
    LastSegmentSuffix(path);
    if c != [] && c != "." {
      pre, post := path[..|path| - |c|], [];
      SegmentSplit(path, c);
      assert BaseName(path) == c;
      assert path == pre + BaseName(path) + post;
    } else if |c| == |path| {
      pre, post := c, [];
      SegmentSplit(path, c);
      assert BaseName(path) == [];
      assert path == pre + BaseName(path) + post;
    } else {
      var q := path[..|path| - |c| - 1];
      var pre', post' := BaseNameSpec(q);
      pre, post := pre', post' + ['/'] + c;
      BaseNameSkipsTrailer(path, c, pre', post');
    }
  }

  /** When the last segment is empty or `.`, the name is that of the path before it, which extends the trailer. */
  lemma BaseNameSkipsTrailer(path: string, c: string, pre: string, post: string)
    requires c == LastSegment(path) && (c == [] || c == ".") && |c| < |path|
    requires c == path[|path| - |c|..] && path[|path| - |c| - 1] == '/'
    requires var q := path[..|path| - |c| - 1]; q == pre + BaseName(q) + post && Trailer(post)
    ensures BaseName(path) == BaseName(path[..|path| - |c| - 1])
    ensures path == pre + BaseName(path) + (post + ['/'] + c) && Trailer(post + ['/'] + c)
  {
    var q := path[..|path| - |c| - 1];
    assert BaseName(path) == BaseName(q);
    TrailerExtend(post, c);
    SeparatorSplit(path, c);
    Regroup(pre, BaseName(q), post, c);
  }

  lemma SegmentSplit(path: string, c: string)
    requires |c| <= |path| && c == path[|path| - |c|..]
    ensures path == path[..|path| - |c|] + c
  {
  }

  lemma SeparatorSplit(path: string, c: string)
    requires |c| < |path| && c == path[|path| - |c|..] && path[|path| - |c| - 1] == '/'
    ensures path == path[..|path| - |c| - 1] + ['/'] + c
  {
    assert path[|path| - |c| - 1..] == ['/'] + c;
  }

  lemma Regroup(a: string, b: string, d: string, c: string)
    ensures a + b + d + ['/'] + c == a + b + (d + ['/'] + c)
  {
  }

  /** A segment without separators after a separator is the last segment. */
  lemma {:induction false} LastSegmentAfterSeparator(dir: string, name: string)
    requires forall i :: 0 <= i < |name| ==> name[i] != '/'
    ensures LastSegment(dir + "/" + name) == name
    decreases |name|
  {
    var p := dir + "/" + name;
    if name == [] {
      assert p[|p| - 1] == '/';
    } else {
      var init := name[..|name| - 1];
      LastSegmentAfterSeparator(dir, init);
      assert p[..|p| - 1] == dir + "/" + init;
      assert name == init + [name[|name| - 1]];
    }
  }

  /** `Path(dir + "/" + name).name` is `name`, also with a trailing separator or a trailing `.` component. */
  lemma BaseNameOfFile(dir: string, name: string)
    requires name != [] && name != "." && forall i :: 0 <= i < |name| ==> name[i] != '/'
    ensures BaseName(dir + "/" + name) == name
    ensures BaseName(dir + "/" + name + "/") == name
    ensures BaseName(dir + "/" + name + "/.") == name
  {
    var p := dir + "/" + name;
    LastSegmentAfterSeparator(dir, name);
    LastSegmentAfterSeparator(p, []);
    assert p + "/" == p + "/" + [];
    assert (p + "/")[..|p + "/"| - 1] == p;
    assert BaseName(p) == name;
    LastSegmentAfterSeparator(p, ".");
    assert p + "/." == p + "/" + ".";
    assert (p + "/.")[..|p + "/."| - 2] == p;
    assert BaseName(p + "/.") == BaseName(p);
  }

  /** A successful parse: the fields, the file's name and the path as given. */
  datatype ParsedName = ParsedName(metadata: Metadata, filename: string, filePath: string)

  /**
   * The dictionary `parse` checks: the regular-expression pass, overwritten by the keyword
   * pass when the former found no date, with the temperature defaulted to AMB.
   */
  function Merged(filepath: string): (m: Metadata)
    ensures m.serialNumber.Some? ==> IsSerial(m.serialNumber.value)
    ensures m.partNumber.Some? ==> IsPartNumber(m.partNumber.value)
    ensures m.pathType.Some? ==> m.pathType.value in {"PRI", "RED"}
    ensures m.temperature.Some? && m.temperature.value in AllowedTemperatures
    ensures RegexFields(BaseName(filepath)).date.Some? ==> m.serialNumber == RegexFields(BaseName(filepath)).serialNumber
    ensures RegexFields(BaseName(filepath)).temperature.None? && KeywordFields(BaseName(filepath)).temperature.None? ==>
              m.temperature == Some("AMB")
  {
    var name := BaseName(filepath);
    var regex := RegexFields(name);
    var merged := if regex.date.None? then Update(regex, KeywordFields(name)) else regex;
    if merged.temperature.None? then merged.(temperature := Some("AMB")) else merged
  }

  /**
   * What `parse` returns or raises. It succeeds exactly when the merged dictionary holds a
   * date, a serial number, a part number and a path type; it then returns that dictionary
   * (fields well formed, a temperature present), the file's name and the path as given.
   * Otherwise FileLoadError lists the missing required fields, in the order date,
   * serial_number, part_number, path_type.
   */
  function ParseOf(filepath: string): (r: Result<ParsedName>)
    ensures r.Ok? <==> MissingFields(Merged(filepath)) == []
    ensures r.Err? ==> r.error == FileLoadError(MissingFields(Merged(filepath)))
    ensures r.Ok? ==> r.value.metadata == Merged(filepath)
    ensures r.Ok? ==>
              && r.value.metadata.date.Some?
              && r.value.metadata.serialNumber.Some? && IsSerial(r.value.metadata.serialNumber.value)
              && r.value.metadata.partNumber.Some? && IsPartNumber(r.value.metadata.partNumber.value)
              && r.value.metadata.pathType.Some? && r.value.metadata.pathType.value in {"PRI", "RED"}
              && r.value.metadata.temperature.Some? && r.value.metadata.temperature.value in AllowedTemperatures
    ensures r.Ok? ==> r.value.filename == BaseName(filepath) && r.value.filePath == filepath
    ensures r.Err? ==> r.error.FileLoadError? && r.error.missing != [] && forall n :: n in r.error.missing ==> n in Required
  {
    var metadata := Merged(filepath);
    var missing := MissingFields(metadata);
    if missing != [] then Err(FileLoadError(missing)) else Ok(ParsedName(metadata, BaseName(filepath), filepath))
  }

  /** A file name of the usual form. */
  const ExampleName: string := "20250930_SN0001_L109908_PRI.s4p"

  /** A file named in the usual way, `20250930_SN0001_L109908_PRI.s4p` in a directory, parses. */
  lemma WellFormedNameParses()
    ensures ParseOf("measurements/" + ExampleName).Ok?
  {
    assert "measurements/" + ExampleName == "measurements" + "/" + ExampleName;
    BaseNameOfFile("measurements", ExampleName);
    ExampleDate();
    DateOfExample();
    ExampleSerial();
    ExamplePartNumber();
    ExamplePathType();
    assert RegexFields(ExampleName).date.Some?;
  }

  /** The date pattern matches the example at its start. */
  lemma ExampleDate()
    ensures Search(DatePattern, ExampleName) == Some("20250930")
  {
    assert DigitsAt(ExampleName, 0, 8);
    assert ExampleName[0..8] == "20250930";
  }

  /** The serial pattern matches the example at `SN0001`. */
  lemma ExampleSerial()
    ensures Search(SerialPattern, ExampleName).Some?
  {
    assert DigitsAt(ExampleName, 11, 4);
    assert MatchAt(SerialPattern, ExampleName, 9).Some?;
    SearchSpec(SerialPattern, ExampleName);
  }

  /** The part-number pattern matches the example at `L109908`. */
  lemma ExamplePartNumber()
    ensures Search(PartNumberPattern, ExampleName).Some?
  {
    assert DigitsAt(ExampleName, 17, 6);
    assert MatchAt(PartNumberPattern, ExampleName, 16).Some?;
    SearchSpec(PartNumberPattern, ExampleName);
  }

  /** The path-type pattern matches the example at `_PRI.`. */
  lemma ExamplePathType()
    ensures Search(PathTypePattern, ExampleName).Some?
  {
    assert UpperAt(ExampleName, 24, "PRI");
    assert MatchAt(PathTypePattern, ExampleName, 23).Some?;
    SearchSpec(PathTypePattern, ExampleName);
  }

  /** The eight digits 20250930 are a calendar date. */
  lemma DateOfExample()
    ensures CalendarDate("20250930").Some?
  {
    var d := "20250930";
    assert d[..4] == "2025" && d[4..6] == "09" && d[6..] == "30";
    assert DigitsValue("2025") == 2025 by {
      assert "2025"[..3] == "202" && "202"[..2] == "20" && "20"[..1] == "2" && "2"[..0] == "";
    }
    assert DigitsValue("09") == 9 by { assert "09"[..1] == "0" && "0"[..0] == ""; }
    assert DigitsValue("30") == 30 by { assert "30"[..1] == "3" && "3"[..0] == ""; }
  }

  // ---------------------------------------------------------------- the passes

  /** `_regex_parse`: the dictionary filled field by field. */
  method RegexParse(filename: string) returns (metadata: Metadata)
    ensures metadata == RegexFields(filename)
  {
    metadata := NoFields;
    var dateMatch := Search(DatePattern, filename);
    if dateMatch.Some? {
      var (y, m, d) := DateParts(dateMatch.value);
      if IsValidDate(y, m, d) {
        metadata := metadata.(date := Some(Date(y, m, d)));
      }
    }
    var serialMatch := Search(SerialPattern, filename);
    if serialMatch.Some? {
      var serial := Upper(serialMatch.value);
      serial := DropEmHyphens(serial);
      if SerialFormat(serial) {
        metadata := metadata.(serialNumber := Some(serial));
      }
    }
    var partMatch := Search(PartNumberPattern, filename);
    if partMatch.Some? {
      metadata := metadata.(partNumber := partMatch);
    }
    var pathMatch := Search(PathTypePattern, filename);
    if pathMatch.Some? {
      metadata := metadata.(pathType := Some(Upper(pathMatch.value)));
    }
    var tempMatch := Search(TemperaturePattern, filename);
    if tempMatch.Some? {
      metadata := metadata.(temperature := tempMatch);
    }
    if Contains(filename, "S-Par") || Contains(Lower(filename), ".s") {
      metadata := metadata.(testType := Some("S-Parameters"));
    } else if Contains(filename, "NF") || Contains(filename, "Noise") {
      metadata := metadata.(testType := Some("Noise Figure"));
    }
    var runMatch := Search(RunPattern, filename);
    if runMatch.Some? {
      metadata := metadata.(runNumber := Some("Run" + runMatch.value));
    }
  }

  /** `_keyword_parse`: the dictionary filled field by field, the prefix and temperature loops stopping at the first hit. */
  method KeywordParse(filename: string) returns (metadata: Metadata)
    ensures metadata == KeywordFields(filename)
  {
    metadata := NoFields;
    var upper := Upper(filename);
    var dateMatch := Search(DatePattern, filename);
    if dateMatch.Some? {
      var (year, month, day) := DateParts(dateMatch.value);
      if 1900 <= year <= 2100 && 1 <= month <= 12 && 1 <= day <= 31 && IsValidDate(year, month, day) {
        metadata := metadata.(date := Some(Date(year, month, day)));
      }
    }
    var serial := FindSerial(upper);
    metadata := metadata.(serialNumber := serial);
    var partMatch := Search(DigitsAfter("L", 6), upper);
    if partMatch.Some? {
      metadata := metadata.(partNumber := Some("L" + partMatch.value));
    }
    if Search(WholeWord("PRI"), upper).Some? && metadata.pathType.None? {
      metadata := metadata.(pathType := Some("PRI"));
    } else if Search(WholeWord("RED"), upper).Some? && metadata.pathType.None? {
      metadata := metadata.(pathType := Some("RED"));
    }
    var temperature := FindTemperature(upper);
    metadata := metadata.(temperature := temperature);
  }

  /** The serial loop of `_keyword_parse`: the prefixes in order, stopping at the first followed by four digits. */
  method FindSerial(upper: string) returns (serial: Option<string>)
    ensures serial == FirstSerial(upper, SerialPrefixes)
  {
    serial := None;
    var i := 0;
    while i < |SerialPrefixes|
      invariant 0 <= i <= |SerialPrefixes|
      invariant FirstSerial(upper, SerialPrefixes) == FirstSerial(upper, SerialPrefixes[i..])
    {
      var prefix := SerialPrefixes[i];
      var m := Search(DigitsAfter(prefix, 4), upper);
      if m.Some? {
        return Some(prefix + m.value);
      }
      assert SerialPrefixes[i..][1..] == SerialPrefixes[i + 1..];
      i := i + 1;
    }
  }

  /** The temperature loop of `_keyword_parse`: the first keyword, in order, that occurs in the name. */
  method FindTemperature(upper: string) returns (temperature: Option<string>)
    ensures temperature == FirstContained(upper, KeywordTemperatures)
  {
    temperature := None;
    var j := 0;
    while j < |KeywordTemperatures|
      invariant 0 <= j <= |KeywordTemperatures|
      invariant FirstContained(upper, KeywordTemperatures) == FirstContained(upper, KeywordTemperatures[j..])
    {
      var t := KeywordTemperatures[j];
      if Contains(upper, t) {
        return Some(t);
      }
      assert KeywordTemperatures[j..][1..] == KeywordTemperatures[j + 1..];
      j := j + 1;
    }
  }

  /** `parse`. */
  method Parse(filepath: string) returns (r: Result<ParsedName>)
    ensures r == ParseOf(filepath)
  {
    var filename := BaseName(filepath);
    var metadata := RegexParse(filename);
    if metadata.date.None? {
      var keywords := KeywordParse(filename);
      metadata := Update(metadata, keywords);
    }
    if metadata.temperature.None? {
      metadata := metadata.(temperature := Some("AMB"));
    }
    var missing := MissingFields(metadata);
    if missing != [] {
      return Err(FileLoadError(missing));
    }
    r := Ok(ParsedName(metadata, filename, filepath));
  }

  // ---------------------------------------------------------------- properties

  /** A stored serial number: `SN`, `EN` or `EM` and four digits. */
  predicate IsSerial(v: string)
  {
    |v| == 6 && v[..2] in {"SN", "EN", "EM"} && AllDigits(v[2..])
  }

  /** A part number as both passes produce it: `L` and six digits. */
  predicate IsPartNumber(v: string)
  {
    |v| == 7 && v[0] == 'L' && AllDigits(v[1..])
  }

  lemma {:induction false} DropEmHyphensWithoutHyphen(s: string)
    requires forall i :: 0 <= i < |s| ==> s[i] != '-'
    ensures DropEmHyphens(s) == s
    decreases |s|
  {
    if s != [] {
      if |s| >= 3 { assert s[..3][2] == s[2]; }
      DropEmHyphensWithoutHyphen(s[1..]);
    }
  }

  /**
   * Every serial-number match, upper-cased and normalised, is `SN`, `EN` or `EM` and four
   * digits, so the format check that follows it never rejects one.
   */
  lemma SerialNormalised(g: string)
    requires SerialMatch(g)
    ensures IsSerial(NormalisedSerial(g)) && SerialFormat(NormalisedSerial(g))
  {
    var u := Upper(g);
    if |g| == 7 {
      assert u[..3] == "EM-";
      DropEmHyphensWithoutHyphen(u[3..]);
      assert NormalisedSerial(g) == "EM" + u[3..];
    } else {
      if UpperAt(g, 0, "EM") {
        assert UpperChar(g[0 + 0]) == "EM"[0] && UpperChar(g[0 + 1]) == "EM"[1];
      }
      assert forall i :: 0 <= i < |u| ==> u[i] != '-' by {
        forall i | 0 <= i < |u| ensures u[i] != '-' {
          if i >= 2 { assert IsDigit(g[i]); } else { assert UpperChar(g[i]) != '-'; }
        }
      }
      DropEmHyphensWithoutHyphen(u);
      var head := u[..2];
      assert head == [UpperChar(g[0]), UpperChar(g[1])];
      assert head == "SN" || head == "EN" || head == "EM";
    }
  }

  /** `EM-0003` and `em-0003` are both stored as `EM0003`. */
  lemma EmSerialExample()
    ensures NormalisedSerial("EM-0003") == "EM0003"
    ensures NormalisedSerial("em-0003") == "EM0003"
  {
    UpperEmSerial("em-0003");
    UpperEmSerial("EM-0003");
    EmHyphenDropped();
  }

  lemma UpperEmSerial(g: string)
    requires g == "em-0003" || g == "EM-0003"
    ensures Upper(g) == "EM-0003"
  {
    var u := Upper(g);
    assert u[0] == 'E' && u[1] == 'M' && u[2] == '-' && u[3] == '0' && u[4] == '0' && u[5] == '0' && u[6] == '3';
  }

  lemma EmHyphenDropped()
    ensures DropEmHyphens("EM-0003") == "EM0003"
  {
    assert "EM-0003"[..3] == "EM-";
    DropEmHyphensWithoutHyphen("0003");
    assert "EM-0003"[3..] == "0003";
  }

  lemma {:induction false} FirstSerialShape(u: string, prefixes: seq<string>)
    requires forall p :: p in prefixes ==> p in {"SN", "EM"}
    ensures FirstSerial(u, prefixes).Some? ==> IsSerial(FirstSerial(u, prefixes).value)
  {
    if prefixes != [] {
      var m := Search(DigitsAfter(prefixes[0], 4), u);
      if m.Some? {
        assert prefixes[0] in prefixes;
        assert prefixes[0] == "SN" || prefixes[0] == "EM";
        assert (prefixes[0] + m.value)[..2] == prefixes[0] && (prefixes[0] + m.value)[2..] == m.value;
      } else {
        assert forall p :: p in prefixes[1..] ==> p in prefixes;
        FirstSerialShape(u, prefixes[1..]);
      }
    }
  }

  /**
   * The keyword fallback never turns a failure into a success: it runs only when the
   * regular-expression pass found no date, and it reads the same eight digits under
   * stricter rules, so the date is still missing. Every successful parse is the
   * regular-expression pass's result with the temperature defaulted.
   */
  lemma KeywordFallbackNeverRescues(filepath: string)
    requires ParseOf(filepath).Ok?
    ensures RegexFields(BaseName(filepath)).date.Some?
    ensures ParseOf(filepath).value.metadata ==
              var regex := RegexFields(BaseName(filepath));
              if regex.temperature.None? then regex.(temperature := Some("AMB")) else regex
  {
  }
}
