/**
 * The pieces of Python's string semantics the modelled code relies on:
 * decimal formatting and parsing of integers (`str(int)`, `int(str)`),
 * `str.strip`, `str.split`, ASCII case mapping, substring search, and the
 * code-point ordering that `sorted` uses on strings.
 */
module Text {
  import opened Exceptions

  // ---------------------------------------------------------------- characters

  predicate IsDigit(c: char) { '0' <= c <= '9' }

  function DigitValue(c: char): (d: nat)
    requires IsDigit(c)
    ensures d < 10
  {
    (c as int) - ('0' as int)
  }

  function DigitChar(d: nat): (c: char)
    requires d < 10
    ensures IsDigit(c) && DigitValue(c) == d
  {
    (('0' as int) + d) as char
  }

  predicate IsAsciiUpper(c: char) { 'A' <= c <= 'Z' }
  predicate IsAsciiLower(c: char) { 'a' <= c <= 'z' }

  /** Word characters of a regular expression (`\w`), restricted to ASCII. */
  predicate IsWordChar(c: char) { IsDigit(c) || IsAsciiUpper(c) || IsAsciiLower(c) || c == '_' }

  /** The characters Python's `str.isspace`, `str.strip()` and `str.split()` treat as whitespace. */
  predicate IsSpace(c: char)
  {
    || c == ' ' || ('\t' <= c <= '\r') || ('\U{1c}' <= c <= '\U{1f}')
    || c == '\U{85}' || c == '\U{a0}' || c == '\U{1680}'
    || ('\U{2000}' <= c <= '\U{200a}') || c == '\U{2028}' || c == '\U{2029}'
    || c == '\U{202f}' || c == '\U{205f}' || c == '\U{3000}'
  }

  function UpperChar(c: char): char
  {
    if IsAsciiLower(c) then ((c as int) - 32) as char else c
  }

  function LowerChar(c: char): char
  {
    if IsAsciiUpper(c) then ((c as int) + 32) as char else c
  }

  /** `s.upper()` on the ASCII letters. */
  function Upper(s: string): (r: string)
    ensures |r| == |s|
    ensures forall i :: 0 <= i < |s| ==> r[i] == UpperChar(s[i])
  {
    seq(|s|, i requires 0 <= i < |s| => UpperChar(s[i]))
  }

  /** `s.lower()` on the ASCII letters. */
  function Lower(s: string): (r: string)
    ensures |r| == |s|
    ensures forall i :: 0 <= i < |s| ==> r[i] == LowerChar(s[i])
  {
    seq(|s|, i requires 0 <= i < |s| => LowerChar(s[i]))
  }

  /** Case-insensitive equality of characters, as `re.IGNORECASE` applies it to ASCII. */
  predicate SameLetterIgnoringCase(a: char, b: char) { UpperChar(a) == UpperChar(b) }

  // ---------------------------------------------------------------- substrings

  predicate StartsWith(s: string, prefix: string)
  {
    |prefix| <= |s| && s[..|prefix|] == prefix
  }

  /** `sub` occurs in `s` starting at index `i`. */
  predicate OccursAt(s: string, sub: string, i: nat)
  {
    i + |sub| <= |s| && s[i..i + |sub|] == sub
  }

  /** `sub in s`. */
  predicate Contains(s: string, sub: string)
    decreases |s|
  {
    StartsWith(s, sub) || (s != [] && Contains(s[1..], sub))
  }

  lemma {:induction false} ContainsAt(s: string, sub: string, i: nat)
    requires OccursAt(s, sub, i)
    ensures Contains(s, sub)
    decreases i
  {
    if i > 0 {
      assert s[1..][i - 1..i - 1 + |sub|] == sub;
      ContainsAt(s[1..], sub, i - 1);
    }
  }

  lemma {:induction false} ContainsWitness(s: string, sub: string) returns (i: nat)
    requires Contains(s, sub)
    ensures OccursAt(s, sub, i)
    decreases |s|
  {
    if StartsWith(s, sub) {
      i := 0;
    } else {
      var j := ContainsWitness(s[1..], sub);
      i := j + 1;
      assert s[i..i + |sub|] == s[1..][j..j + |sub|];
    }
  }

  /** `Contains` is exactly Python's `sub in s`: some window of `s` equals `sub`. */
  lemma ContainsIff(s: string, sub: string)
    ensures Contains(s, sub) <==> exists i: nat :: OccursAt(s, sub, i)
  {
    if Contains(s, sub) {
      var i := ContainsWitness(s, sub);
    }
    if exists i: nat :: OccursAt(s, sub, i) {
      var i: nat :| OccursAt(s, sub, i);
      ContainsAt(s, sub, i);
    }
  }

  /** A string lacking one of the characters of `sub` does not contain `sub`. */
  lemma MissingCharNotContained(s: string, sub: string, j: nat)
    requires j < |sub| && sub[j] !in s
    ensures !Contains(s, sub)
  {
    ContainsIff(s, sub);
    forall i: nat ensures !OccursAt(s, sub, i) {
      if i + |sub| <= |s| {
        assert s[i..i + |sub|][j] == s[i + j] && s[i + j] in s;
      }
    }
  }

  // ---------------------------------------------------------------- decimal integers

  /** The end of the run of decimal digits that starts at `j` (`\d+` is greedy). */
  function DigitRunEnd(s: string, j: nat): (k: nat)
    requires j <= |s|
    ensures j <= k <= |s| && (forall m :: j <= m < k ==> IsDigit(s[m])) && (k == |s| || !IsDigit(s[k]))
    decreases |s| - j
  {
    if j < |s| && IsDigit(s[j]) then DigitRunEnd(s, j + 1) else j
  }

  /** `str(n)` for a natural number: its decimal digits, without leading zeros. */
  function NatToString(n: nat): (r: string)
    ensures |r| >= 1 && forall i :: 0 <= i < |r| ==> IsDigit(r[i])
    ensures |r| > 1 ==> r[0] != '0'
  {
    if n < 10 then [DigitChar(n)] else NatToString(n / 10) + [DigitChar(n % 10)]
  }

  /** `str(i)` for any Python int. */
  function IntToString(i: int): string
  {
    if i < 0 then "-" + NatToString(-i) else NatToString(i)
  }

  /** The value of a string of decimal digits. */
  function DigitsValue(s: string): nat
    requires forall i :: 0 <= i < |s| ==> IsDigit(s[i])
  {
    if s == [] then 0 else DigitsValue(s[..|s| - 1]) * 10 + DigitValue(s[|s| - 1])
  }

  /** Reading back what `NatToString` wrote gives the number back. */
  lemma {:induction false} DigitsValueOfNatToString(n: nat)
    ensures DigitsValue(NatToString(n)) == n
  {
    if n >= 10 {
      var s := NatToString(n);
      assert s[..|s| - 1] == NatToString(n / 10);
      DigitsValueOfNatToString(n / 10);
    }
  }

  /** Leading zeros do not change the value of a digit string. */
  lemma {:induction false} LeadingZeros(z: string, d: string)
    requires forall i :: 0 <= i < |z| ==> z[i] == '0'
    requires forall i :: 0 <= i < |d| ==> IsDigit(d[i])
    ensures forall i :: 0 <= i < |z + d| ==> IsDigit((z + d)[i])
    ensures DigitsValue(z + d) == DigitsValue(d)
  {
    if d == [] {
      assert z + d == z;
      AllZeros(z);
    } else {
      var d' := d[..|d| - 1];
      assert (z + d)[..|z + d| - 1] == z + d';
      LeadingZeros(z, d');
    }
  }

  lemma {:induction false} AllZeros(z: string)
    requires forall i :: 0 <= i < |z| ==> z[i] == '0'
    ensures DigitsValue(z) == 0
  {
    if z != [] {
      AllZeros(z[..|z| - 1]);
    }
  }

  /** Different numbers are written differently. */
  lemma NatToStringInjective(m: nat, n: nat)
    requires NatToString(m) == NatToString(n)
    ensures m == n
  {
    DigitsValueOfNatToString(m);
    DigitsValueOfNatToString(n);
  }

  /** Digits with single underscores between them, as Python's `int()` accepts. */
  predicate IsDigitGroupString(s: string)
  {
    && |s| >= 1 && IsDigit(s[0]) && IsDigit(s[|s| - 1])
    && (forall i :: 0 <= i < |s| ==> IsDigit(s[i]) || s[i] == '_')
    && (forall i :: 0 <= i < |s| - 1 && s[i] == '_' ==> s[i + 1] != '_')
  }

  function RemoveUnderscores(s: string): (r: string)
    requires forall i :: 0 <= i < |s| ==> IsDigit(s[i]) || s[i] == '_'
    ensures forall i :: 0 <= i < |r| ==> IsDigit(r[i])
    ensures (forall i :: 0 <= i < |s| ==> IsDigit(s[i])) ==> r == s
  {
    if s == [] then []
    else if s[0] == '_' then RemoveUnderscores(s[1..])
    else [s[0]] + RemoveUnderscores(s[1..])
  }

  /** `int(s)` in base 10 (ASCII digits): surrounding whitespace, an optional sign, underscore-grouped digits. */
  function PyInt(s: string): (r: Option<int>)
    ensures r.Some? ==> |Strip(s)| >= 1 && IsDigit(Strip(s)[|Strip(s)| - 1])
  {
    var t := Strip(s);
    if |t| >= 1 && (t[0] == '+' || t[0] == '-') then
      var body := t[1..];
      if IsDigitGroupString(body) then
        var v: int := DigitsValue(RemoveUnderscores(body));
        Some(if t[0] == '-' then -v else v)
      else None
    else if IsDigitGroupString(t) then Some(DigitsValue(RemoveUnderscores(t)))
    else None
  }

  /** `int(str(i)) == i`: the parser reads back what the formatter writes. */
  lemma PyIntOfIntToString(i: int)
    ensures PyInt(IntToString(i)) == Some(i)
  {
    var n: nat := if i < 0 then -i else i;
    DigitsValueOfNatToString(n);
    if i < 0 {
      PyIntOfNegatedDigits(IntToString(i), NatToString(n));
    } else {
      PyIntOfDigits(NatToString(n));
    }
  }

  /** A plain run of digits reads as its value. */
  lemma PyIntOfDigits(d: string)
    requires |d| >= 1 && forall i :: 0 <= i < |d| ==> IsDigit(d[i])
    ensures PyInt(d) == Some(DigitsValue(d))
  {
    DigitIsNotSpace(d[0]);
    DigitIsNotSpace(d[|d| - 1]);
    NoSpaceStrip(d);
    PyIntOfUnsigned(d);
  }

  /** Text that stripping leaves alone and that holds an unsigned digit group reads as that group. */
  lemma PyIntOfUnsigned(s: string)
    requires Strip(s) == s && IsDigitGroupString(s)
    ensures PyInt(s) == Some(DigitsValue(RemoveUnderscores(s)))
  {
  }

  /** A minus sign before a run of digits reads as the negated value. */
  lemma PyIntOfNegatedDigits(s: string, d: string)
    requires |d| >= 1 && forall i :: 0 <= i < |d| ==> IsDigit(d[i])
    requires |s| == |d| + 1 && s[0] == '-' && s[1..] == d
    ensures PyInt(s) == Some(-(DigitsValue(d) as int))
  {
    DigitIsNotSpace(d[|d| - 1]);
    assert s[|s| - 1] == d[|d| - 1];
    NoSpaceStrip(s);
    assert IsDigitGroupString(d);
  }

  /** A value that `int()` returns was written with at least one digit: whitespace alone is rejected. */
  lemma PyIntOfBlank(s: string)
    requires forall i :: 0 <= i < |s| ==> IsSpace(s[i])
    ensures PyInt(s) == None
  {
    StripOfBlank(s);
  }

  // ---------------------------------------------------------------- strip and split

  function TrimStart(s: string): (r: string)
    ensures |r| <= |s| && r == s[|s| - |r|..]
    ensures r == [] || !IsSpace(r[0])
    ensures forall i :: 0 <= i < |s| - |r| ==> IsSpace(s[i])
  {
    if s != [] && IsSpace(s[0]) then TrimStart(s[1..]) else s
  }

  function TrimEnd(s: string): (r: string)
    ensures |r| <= |s| && r == s[..|r|]
    ensures r == [] || !IsSpace(r[|r| - 1])
    ensures forall i :: |r| <= i < |s| ==> IsSpace(s[i])
  {
    if s != [] && IsSpace(s[|s| - 1]) then TrimEnd(s[..|s| - 1]) else s
  }

  /** Number of leading whitespace characters of `s`. */
  function LeadingSpace(s: string): (k: nat)
    ensures k <= |s|
  {
    |s| - |TrimStart(s)|
  }

  /** `s.strip()`: the longest infix of `s` that neither starts nor ends with whitespace. */
  function Strip(s: string): (r: string)
    ensures r == [] || (!IsSpace(r[0]) && !IsSpace(r[|r| - 1]))
    ensures LeadingSpace(s) + |r| <= |s| && r == s[LeadingSpace(s)..LeadingSpace(s) + |r|]
    ensures forall i :: 0 <= i < LeadingSpace(s) ==> IsSpace(s[i])
    ensures forall i :: LeadingSpace(s) + |r| <= i < |s| ==> IsSpace(s[i])
  {
    var t := TrimStart(s);
    var r := TrimEnd(t);
    var k := |s| - |t|;
    assert r == s[k..k + |r|];
    r
  }

  lemma DigitIsNotSpace(c: char)
    requires IsDigit(c)
    ensures !IsSpace(c)
  {
  }

  /** Stripping leaves nothing exactly when the text is all whitespace. */
  lemma StripOfBlank(s: string)
    ensures Strip(s) == [] <==> forall i :: 0 <= i < |s| ==> IsSpace(s[i])
  {
  }

  lemma NoSpaceStrip(s: string)
    requires s == [] || (!IsSpace(s[0]) && !IsSpace(s[|s| - 1]))
    ensures Strip(s) == s
  {
  }

  /** Stripping removes one leading space before a run of digits. */
  lemma StripLeadingSpace(d: string)
    requires d != [] && forall i :: 0 <= i < |d| ==> IsDigit(d[i])
    ensures Strip(" " + d) == d
  {
    DigitIsNotSpace(d[0]);
    DigitIsNotSpace(d[|d| - 1]);
    assert (" " + d)[1..] == d;
    assert TrimStart(" " + d) == TrimStart(d) == d;
  }

  /** `s.split(sep)` for a one-character separator. */
  function SplitOn(s: string, sep: char): (r: seq<string>)
    ensures |r| >= 1
    ensures forall p :: p in r ==> sep !in p
  {
    if s == [] then [""]
    else
      var rest := SplitOn(s[1..], sep);
      if s[0] == sep then [""] + rest else [[s[0]] + rest[0]] + rest[1..]
  }

  /** `sep.join(parts)`. */
  function JoinOn(parts: seq<string>, sep: char): string
  {
    if parts == [] then ""
    else if |parts| == 1 then parts[0]
    else parts[0] + [sep] + JoinOn(parts[1..], sep)
  }

  /** Splitting loses nothing: joining the parts back gives the text. */
  lemma {:induction false} JoinSplitOn(s: string, sep: char)
    ensures JoinOn(SplitOn(s, sep), sep) == s
  {
    if s != [] {
      var rest := SplitOn(s[1..], sep);
      JoinSplitOn(s[1..], sep);
      if s[0] != sep {
        if |rest| == 1 {
        } else {
          assert JoinOn(rest, sep) == rest[0] + [sep] + JoinOn(rest[1..], sep);
          var r := [[s[0]] + rest[0]] + rest[1..];
          assert r[1..] == rest[1..];
        }
      } else {
        assert [""] + rest == [""] + rest;
      }
    }
  }

  /** Index of the first whitespace character of `s`, or `|s|`. */
  function WordEnd(s: string): (k: nat)
    ensures k <= |s| && (k < |s| ==> IsSpace(s[k]))
    ensures forall i :: 0 <= i < k ==> !IsSpace(s[i])
  {
    if s == [] || IsSpace(s[0]) then 0 else 1 + WordEnd(s[1..])
  }

  /** `s.split()`: the maximal runs of non-whitespace characters, in order. */
  function SplitWhitespace(s: string): (r: seq<string>)
    ensures forall w :: w in r ==> w != [] && forall i :: 0 <= i < |w| ==> !IsSpace(w[i])
    decreases |s|
  {
    var t := TrimStart(s);
    if t == [] then []
    else
      var k := WordEnd(t);
      [t[..k]] + SplitWhitespace(t[k..])
  }

  predicate AllSpace(g: string)
  {
    forall i :: 0 <= i < |g| ==> IsSpace(g[i])
  }

  /** gaps[0] + words[0] + gaps[1] + ... + words[n-1] + gaps[n]. */
  function Interleave(gaps: seq<string>, words: seq<string>): string
    requires |gaps| == |words| + 1
    decreases |words|
  {
    if words == [] then gaps[0] else gaps[0] + words[0] + Interleave(gaps[1..], words[1..])
  }

  /** A suffix `t` of `s`, split at k, reassembles `s` after the prefix before it. */
  lemma Reassemble(s: string, t: string, k: nat)
    requires |t| <= |s| && t == s[|s| - |t|..] && k <= |t|
    ensures s == s[..|s| - |t|] + (t[..k] + t[k..])
  {
    assert t[..k] + t[k..] == t;
  }

  lemma InterleaveCons(lead: string, w: string, rest: string, g: seq<string>, ws: seq<string>)
    requires |g| == |ws| + 1 && Interleave(g, ws) == rest
    ensures Interleave([lead] + g, [w] + ws) == lead + (w + rest)
  {
    assert ([lead] + g)[1..] == g && ([w] + ws)[1..] == ws;
  }

  /** `s` is its leading whitespace followed by TrimStart(s). */
  lemma TrimStartSplit(s: string) returns (lead: string)
    ensures lead == s[..|s| - |TrimStart(s)|]
    ensures AllSpace(lead) && s == lead + TrimStart(s)
    ensures s != [] && IsSpace(s[0]) ==> lead != []
  {
    var t := TrimStart(s);
    lead := s[..|s| - |t|];
    assert s == lead + t;
  }

  /** The whitespace runs around the words of `s.split()`: before the first word, between words, after the last. */
  function Gaps(s: string): seq<string>
    decreases |s|
  {
    var t := TrimStart(s);
    if t == [] then [s]
    else [s[..|s| - |t|]] + Gaps(t[WordEnd(t)..])
  }

  lemma {:induction false} GapsLength(s: string)
    ensures |Gaps(s)| == |SplitWhitespace(s)| + 1
    decreases |s|
  {
    var t := TrimStart(s);
    if t != [] {
      GapsLength(t[WordEnd(t)..]);
    }
  }

  lemma {:induction false} GapsInterleave(s: string)
    ensures |Gaps(s)| == |SplitWhitespace(s)| + 1
    ensures Interleave(Gaps(s), SplitWhitespace(s)) == s
    decreases |s|
  {
    GapsLength(s);
    var t := TrimStart(s);
    var lead := s[..|s| - |t|];
    if t != [] {
      var k := WordEnd(t);
      var w, rest := t[..k], t[k..];
      var gr, wr := Gaps(rest), SplitWhitespace(rest);
      assert Gaps(s) == [lead] + gr;
      assert SplitWhitespace(s) == [w] + wr;
      GapsInterleave(rest);
      InterleaveCons(lead, w, rest, gr, wr);
      Reassemble(s, t, k);
    }
  }

  lemma {:induction false} GapsSpace(s: string)
    ensures forall j :: 0 <= j < |Gaps(s)| ==> AllSpace(Gaps(s)[j])
    decreases |s|
  {
    var lead := TrimStartSplit(s);
    var t := TrimStart(s);
    if t != [] {
      var rest := t[WordEnd(t)..];
      GapsSpace(rest);
      forall j | 0 < j < |Gaps(s)| ensures Gaps(s)[j] == Gaps(rest)[j - 1] { }
    }
  }

  lemma {:induction false} GapsInner(s: string)
    ensures forall j :: 0 < j < |Gaps(s)| - 1 ==> Gaps(s)[j] != []
    decreases |s|
  {
    var t := TrimStart(s);
    if t != [] {
      var rest := t[WordEnd(t)..];
      var g, gr := Gaps(s), Gaps(rest);
      assert g == [s[..|s| - |t|]] + gr;
      GapsInner(rest);
      GapsHead(rest);
      forall j | 0 < j < |g| - 1 ensures g[j] != [] {
        assert g[j] == gr[j - 1];
      }
    }
  }

  lemma GapsHead(s: string)
    ensures s != [] && IsSpace(s[0]) ==> Gaps(s)[0] != []
  {
    var lead := TrimStartSplit(s);
  }

  // ---------------------------------------------------------------- ordering

  /** Python's `<` on strings: lexicographic by code point. */
  predicate StrLt(a: string, b: string)
  {
    if a == [] then b != []
    else if b == [] then false
    else if a[0] == b[0] then StrLt(a[1..], b[1..])
    else a[0] < b[0]
  }

  lemma {:induction false} StrLtIrreflexive(a: string)
    ensures !StrLt(a, a)
  {
    if a != [] { StrLtIrreflexive(a[1..]); }
  }

  lemma {:induction false} StrLtTransitive(a: string, b: string, c: string)
    requires StrLt(a, b) && StrLt(b, c)
    ensures StrLt(a, c)
  {
    if a != [] && b != [] && c != [] && a[0] == b[0] && b[0] == c[0] {
      StrLtTransitive(a[1..], b[1..], c[1..]);
    }
  }

  lemma {:induction false} StrLtTotal(a: string, b: string)
    ensures a == b || StrLt(a, b) || StrLt(b, a)
  {
    if a != [] && b != [] && a[0] == b[0] {
      StrLtTotal(a[1..], b[1..]);
      if a[1..] == b[1..] {
        assert a == [a[0]] + a[1..] && b == [b[0]] + b[1..];
      }
    }
  }

  /** A shared prefix does not change the order of two strings. */
  lemma {:induction false} StrLtPrefix(p: string, a: string, b: string)
    ensures StrLt(p + a, p + b) == StrLt(a, b)
  {
    if p != [] {
      assert (p + a)[0] == p[0] == (p + b)[0];
      assert (p + a)[1..] == p[1..] + a && (p + b)[1..] == p[1..] + b;
      StrLtPrefix(p[1..], a, b);
    } else {
      assert p + a == a && p + b == b;
    }
  }
}

/** What `str.split()` computes, stated on its own: the maximal non-whitespace runs of a string. */
module Splitting {
  import opened Text

  /**
   * `split()` gives the maximal non-whitespace runs of `s`, in order: `s` is the words
   * interleaved with the whitespace runs `Gaps(s)`, only the runs at the two ends may be
   * empty (the first one is not when `s` starts with whitespace); `SplitWhitespace`'s own
   * contract adds that the words are non-empty and hold no whitespace.
   */
  lemma {:induction false} SplitWhitespaceSpec(s: string)
    ensures |Gaps(s)| == |SplitWhitespace(s)| + 1 && Interleave(Gaps(s), SplitWhitespace(s)) == s
    ensures forall j :: 0 <= j < |Gaps(s)| ==> AllSpace(Gaps(s)[j])
    ensures forall j :: 0 < j < |Gaps(s)| - 1 ==> Gaps(s)[j] != []
    ensures s != [] && IsSpace(s[0]) ==> Gaps(s)[0] != []
  {
    GapsInterleave(s);
    GapsSpace(s);
    GapsInner(s);
    GapsHead(s);
  }
}
