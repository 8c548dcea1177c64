/** The JavaScript string built-ins that the core relies on, stated over
    Dafny strings: character classes of regular expressions, `replace` with
    a global character-class pattern, `split`/`join`, `toLowerCase`,
    `String.prototype.length` (UTF-16 code units) and `parseFloat`. */
module JsText {

  predicate IsDigit(c: char) { '0' <= c <= '9' }

  predicate IsUpper(c: char) { 'A' <= c <= 'Z' }

  predicate IsLower(c: char) { 'a' <= c <= 'z' }

  predicate IsAsciiLetter(c: char) { IsUpper(c) || IsLower(c) }

  predicate IsAlphanumeric(c: char) { IsAsciiLetter(c) || IsDigit(c) }

  /** `\s` of a JavaScript regular expression (WhiteSpace and
      LineTerminator); `parseFloat` skips the same characters. */
  predicate IsJsSpace(c: char) {
    || c == '\t' || c == '\n' || c == '\U{000B}' || c == '\U{000C}' || c == '\r' || c == ' '
    || c == '\U{00A0}' || c == '\U{1680}' || ('\U{2000}' <= c <= '\U{200A}')
    || c == '\U{2028}' || c == '\U{2029}' || c == '\U{202F}' || c == '\U{205F}'
    || c == '\U{3000}' || c == '\U{FEFF}'
  }

  /** The characters kept by `replace(/[^0-9.]/g, '')`. */
  predicate IsNumericChar(c: char) { IsDigit(c) || c == '.' }

  predicate AllChars(s: string, p: char -> bool) {
    forall i :: 0 <= i < |s| ==> p(s[i])
  }

  predicate HasChar(s: string, p: char -> bool) {
    exists i :: 0 <= i < |s| && p(s[i])
  }

  // ---------------------------------------------------------------------
  // String length as JavaScript counts it

  /** Number of UTF-16 code units of one character. */
  function CodeUnits(c: char): nat { if c as int > 0xFFFF then 2 else 1 }

  /** `s.length`: characters outside the Basic Multilingual Plane count twice. */
  function JsLength(s: string): (n: nat)
    ensures |s| <= n <= 2 * |s|
    ensures AllChars(s, c => c as int <= 0xFFFF) ==> n == |s|
  {
    if s == [] then 0 else CodeUnits(s[0]) + JsLength(s[1..])
  }

  // ---------------------------------------------------------------------
  // replace(/[^...]/g, '') and replace(/[...]/g, '')

  /** The characters of `s` that satisfy `keep`, in order: what a global
      `replace` of the complementary character class by '' leaves. */
  function Filter(keep: char -> bool, s: string): (r: string)
    ensures |r| <= |s|
    ensures AllChars(r, keep)
  {
    if s == [] then "" else (if keep(s[0]) then [s[0]] else "") + Filter(keep, s[1..])
  }

  /** `s.replace(/[^0-9.]/g, '')`. */
  function KeepNumeric(s: string): (r: string)
  {
    Filter(IsNumericChar, s)
  }

  lemma {:induction false} FilterKeepsAll(keep: char -> bool, s: string)
    requires AllChars(s, keep)
    ensures Filter(keep, s) == s
  {
    if s != [] {
      FilterKeepsAll(keep, s[1..]);
    }
  }

  lemma {:induction false} FilterAppend(keep: char -> bool, a: string, b: string)
    ensures Filter(keep, a + b) == Filter(keep, a) + Filter(keep, b)
  {
    if a == [] {
      assert a + b == b;
    } else {
      var head := if keep(a[0]) then [a[0]] else "";
      assert (a + b)[0] == a[0];
      assert (a + b)[1..] == a[1..] + b;
      calc {
        Filter(keep, a + b);
        head + Filter(keep, a[1..] + b);
        { FilterAppend(keep, a[1..], b); }
        head + (Filter(keep, a[1..]) + Filter(keep, b));
        (head + Filter(keep, a[1..])) + Filter(keep, b);
        Filter(keep, a) + Filter(keep, b);
      }
    }
  }

  /** A character survives the filter iff it was in the input and is kept. */
  lemma {:induction false} FilterMembership(keep: char -> bool, s: string, c: char)
    ensures c in Filter(keep, s) <==> c in s && keep(c)
  {
    if s != [] {
      FilterMembership(keep, s[1..], c);
      assert s == [s[0]] + s[1..];
    }
  }

  /** The filter keeps a character of a class it keeps iff the input had one. */
  lemma FilterHasChar(keep: char -> bool, p: char -> bool, s: string)
    requires forall c :: p(c) ==> keep(c)
    ensures HasChar(Filter(keep, s), p) <==> HasChar(s, p)
  {
    if HasChar(s, p) {
      var i :| 0 <= i < |s| && p(s[i]);
      FilterMembership(keep, s, s[i]);
      var j :| 0 <= j < |Filter(keep, s)| && Filter(keep, s)[j] == s[i];
    }
    if HasChar(Filter(keep, s), p) {
      var j :| 0 <= j < |Filter(keep, s)| && p(Filter(keep, s)[j]);
      FilterMembership(keep, s, Filter(keep, s)[j]);
    }
  }

  /** Filtering twice is filtering once. */
  lemma FilterIdempotent(keep: char -> bool, s: string)
    ensures Filter(keep, Filter(keep, s)) == Filter(keep, s)
  {
    FilterKeepsAll(keep, Filter(keep, s));
  }

  // ---------------------------------------------------------------------
  // toLowerCase (ASCII letters)

  function LowerChar(c: char): char {
    if IsUpper(c) then (c as int + 32) as char else c
  }

  /** `s.toLowerCase()` for the ASCII letters. */
  function ToLower(s: string): (r: string)
    ensures |r| == |s|
    ensures forall i :: 0 <= i < |s| ==> r[i] == LowerChar(s[i])
  {
    if s == [] then "" else [LowerChar(s[0])] + ToLower(s[1..])
  }

  lemma ToLowerIdempotent(s: string)
    ensures ToLower(ToLower(s)) == ToLower(s)
  {
  }

  /** Two strings are equal ignoring case. */
  predicate SameIgnoringCase(a: string, b: string) {
    ToLower(a) == ToLower(b)
  }

  // ---------------------------------------------------------------------
  // split(sep) and join(sep) with a one-character separator

  /** `s.split(sep)`: the maximal separator-free pieces, at least one. */
  function Split(s: string, sep: char): (parts: seq<string>)
    ensures |parts| >= 1
    ensures forall k :: 0 <= k < |parts| ==> sep !in parts[k]
  {
    if s == [] then [""]
    else
      var rest := Split(s[1..], sep);
      if s[0] == sep then [""] + rest
      else [[s[0]] + rest[0]] + rest[1..]
  }

  /** `parts.join(sep)`. */
  function Join(parts: seq<string>, sep: char): string {
    if |parts| == 0 then ""
    else if |parts| == 1 then parts[0]
    else parts[0] + [sep] + Join(parts[1..], sep)
  }

  /** Joining the pieces of a split gives back the string. */
  lemma {:induction false} JoinSplit(s: string, sep: char)
    ensures Join(Split(s, sep), sep) == s
  {
    if s != [] {
      var rest := Split(s[1..], sep);
      JoinSplit(s[1..], sep);
      if s[0] == sep {
        assert Split(s, sep)[1..] == rest;
      } else {
        var parts := Split(s, sep);
        assert parts[0] == [s[0]] + rest[0];
        assert parts[1..] == rest[1..];
        if |rest| == 1 {
          assert Join(rest, sep) == rest[0];
        } else {
          assert Join(rest, sep) == rest[0] + [sep] + Join(rest[1..], sep);
        }
      }
    }
  }

  lemma {:induction false} SplitNoSeparator(a: string, t: string, sep: char)
    requires sep !in a
    ensures Split(a + t, sep) == [a + Split(t, sep)[0]] + Split(t, sep)[1..]
  {
    if a == [] {
      assert a + t == t;
      assert a + Split(t, sep)[0] == Split(t, sep)[0];
    } else {
      var st := Split(t, sep);
      assert (a + t)[0] == a[0] && a[0] != sep;
      assert (a + t)[1..] == a[1..] + t;
      SplitNoSeparator(a[1..], t, sep);
      var rest := Split(a[1..] + t, sep);
      assert rest[0] == a[1..] + st[0];
      assert rest[1..] == st[1..];
      assert [a[0]] + (a[1..] + st[0]) == a + st[0];
    }
  }

  /** Splitting separator-free pieces joined by the separator gives back the pieces. */
  lemma {:induction false} SplitJoin(parts: seq<string>, sep: char)
    requires |parts| >= 1
    requires forall k :: 0 <= k < |parts| ==> sep !in parts[k]
    ensures Split(Join(parts, sep), sep) == parts
  {
    if |parts| == 1 {
      SplitNoSeparator(parts[0], "", sep);
      assert parts[0] + "" == parts[0];
    } else {
      var tail := Join(parts[1..], sep);
      SplitJoin(parts[1..], sep);
      assert Join(parts, sep) == parts[0] + ([sep] + tail);
      assert ([sep] + tail)[0] == sep;
      assert ([sep] + tail)[1..] == tail;
      assert Split([sep] + tail, sep) == [""] + parts[1..];
      SplitNoSeparator(parts[0], [sep] + tail, sep);
      assert parts[0] + "" == parts[0];
      assert parts == [parts[0]] + parts[1..];
    }
  }

  /** The first piece of a split is the prefix before the first separator. */
  lemma {:induction false} SplitHead(s: string, sep: char)
    ensures |Split(s, sep)[0]| <= |s|
    ensures s[..|Split(s, sep)[0]|] == Split(s, sep)[0]
    ensures |Split(s, sep)[0]| < |s| ==> s[|Split(s, sep)[0]|] == sep
  {
    if s != [] {
      SplitHead(s[1..], sep);
    }
  }

  /** Joining after replacing the first piece swaps the prefix before the first separator. */
  lemma JoinReplaceHead(parts: seq<string>, x: string, sep: char)
    requires |parts| >= 1
    ensures |parts[0]| <= |Join(parts, sep)|
    ensures Join([x] + parts[1..], sep) == x + Join(parts, sep)[|parts[0]|..]
  {
    var ys := [x] + parts[1..];
    assert ys[1..] == parts[1..];
    if |parts| > 1 {
      var tail := [sep] + Join(parts[1..], sep);
      assert Join(parts, sep) == parts[0] + tail;
      assert Join(parts, sep)[|parts[0]|..] == tail;
    }
  }

  // ---------------------------------------------------------------------
  // parseFloat

  /** A parsed JavaScript number, without the IEEE-754 rounding. */
  datatype Number = NaN | Finite(value: real) | Infinite(negative: bool)

  function Pow10(n: nat): (p: nat)
    ensures p >= 1
  {
    if n == 0 then 1 else 10 * Pow10(n - 1)
  }

  function SkipSpace(s: string): (r: string)
    ensures |r| <= |s| && r == s[|s| - |r|..]
    ensures r != [] ==> !IsJsSpace(r[0])
  {
    if s != [] && IsJsSpace(s[0]) then SkipSpace(s[1..]) else s
  }

  /** Length of the run of decimal digits at the front of `s`. */
  function DigitRun(s: string): (n: nat)
    ensures n <= |s|
    ensures forall i :: 0 <= i < n ==> IsDigit(s[i])
    ensures n < |s| ==> !IsDigit(s[n])
  {
    if s != [] && IsDigit(s[0]) then 1 + DigitRun(s[1..]) else 0
  }

  /** The value of a string of decimal digits. */
  function DigitsValue(ds: string): nat
    requires AllChars(ds, IsDigit)
  {
    if ds == [] then 0
    else
      var last := ds[|ds| - 1];
      assert IsDigit(last);
      DigitsValue(ds[..|ds| - 1]) * 10 + (last as int - '0' as int)
  }

  /** The value of the digits `whole` '.' `fraction`. */
  function MantissaValue(whole: string, fraction: string): (v: real)
    requires AllChars(whole, IsDigit) && AllChars(fraction, IsDigit)
    ensures v >= 0.0
  {
    DigitsValue(whole) as real + DigitsValue(fraction) as real / Pow10(|fraction|) as real
  }

  /** Scales `v` by the ExponentPart at the front of `s`, if there is a well-formed one. */
  function ApplyExponent(v: real, s: string): (r: real)
    ensures v >= 0.0 ==> r >= 0.0
    ensures v == 0.0 ==> r == 0.0
  {
    if |s| >= 2 && (s[0] == 'e' || s[0] == 'E') then
      var signed := s[1] == '+' || s[1] == '-';
      var digits := if signed then s[2..] else s[1..];
      var m := DigitRun(digits);
      if m == 0 then v
      else
        var e := Pow10(DigitsValue(digits[..m])) as real;
        if s[1] == '-' then v / e else v * e
    else v
  }

  /** The longest prefix of `s` that is a StrUnsignedDecimalLiteral other
      than Infinity: digits, an optional '.' and digits (at least one digit
      in all), and an optional exponent. */
  function ParseUnsignedDecimal(s: string): (r: Number)
    ensures !r.Infinite?
    ensures r.Finite? ==> r.value >= 0.0
    ensures r.Finite? ==> HasChar(s, IsDigit)
  {
    var n := DigitRun(s);
    if n < |s| && s[n] == '.' then
      var rest := s[n + 1..];
      var m := DigitRun(rest);
      if n == 0 && m == 0 then NaN
      else
        assert IsDigit(s[if n > 0 then 0 else 1]);
        Finite(ApplyExponent(MantissaValue(s[..n], rest[..m]), rest[m..]))
    else if n == 0 then NaN
    else
      assert IsDigit(s[0]);
      Finite(ApplyExponent(MantissaValue(s[..n], ""), s[n..]))
  }

  /** `parseFloat(s)`: leading blanks skipped, an optional sign, then
      "Infinity" or the longest decimal prefix; NaN when there is none. */
  function ParseFloat(s: string): (r: Number)
  {
    var t := SkipSpace(s);
    var signed := |t| > 0 && (t[0] == '+' || t[0] == '-');
    var negative := signed && t[0] == '-';
    var body := if signed then t[1..] else t;
    if |body| >= 8 && body[..8] == "Infinity" then Infinite(negative)
    else
      match ParseUnsignedDecimal(body)
      case Finite(v) => Finite(if negative then -v else v)
      case other => other
  }

  /** On a string of digits and dots, `parseFloat` yields NaN or a
      non-negative number, and a number only when there is a digit. */
  lemma ParseFloatNumeric(s: string)
    requires AllChars(s, IsNumericChar)
    ensures ParseFloat(s).NaN? || (ParseFloat(s).Finite? && ParseFloat(s).value >= 0.0)
    ensures ParseFloat(s).Finite? <==> |s| > 0 && (IsDigit(s[0]) || (|s| > 1 && IsDigit(s[1])))
  {
    if s != [] {
      assert !IsJsSpace(s[0]);
    }
    assert SkipSpace(s) == s;
    var n := DigitRun(s);
    if n == 0 && |s| > 0 && s[0] == '.' && |s| > 1 && IsDigit(s[1]) {
      assert DigitRun(s[1..]) >= 1;
    }
  }

  /** `parseFloat("")` is NaN. */
  lemma ParseFloatEmpty()
    ensures ParseFloat("") == NaN
  {
    assert SkipSpace("") == "";
    assert DigitRun("") == 0;
    assert ParseUnsignedDecimal("") == NaN;
  }

  /** A run of digits ended by the string's end or by a character that
      cannot continue a number, read on its own, is the run's decimal value. */
  lemma UnsignedDecimalLeading(s: string, n: nat)
    requires 0 < n <= |s| && AllChars(s[..n], IsDigit)
    requires n < |s| ==> !IsDigit(s[n]) && s[n] != '.' && s[n] != 'e' && s[n] != 'E'
    ensures ParseUnsignedDecimal(s) == Finite(DigitsValue(s[..n]) as real)
  {
    DigitRunOfPrefix(s, n);
    assert MantissaValue(s[..n], "") == DigitsValue(s[..n]) as real;
  }

  lemma {:induction false} DigitRunOfPrefix(s: string, n: nat)
    requires n <= |s| && AllChars(s[..n], IsDigit)
    requires n < |s| ==> !IsDigit(s[n])
    ensures DigitRun(s) == n
  {
    if n > 0 {
      assert s[1..][..n - 1] == s[..n][1..];
      assert IsDigit(s[..n][0]);
      DigitRunOfPrefix(s[1..], n - 1);
    }
  }

  /** A string that starts with a digit is parsed as an unsigned decimal. */
  lemma ParseFloatFromDigit(s: string)
    requires |s| > 0 && IsDigit(s[0])
    ensures ParseFloat(s) == ParseUnsignedDecimal(s)
  {
    assert !IsJsSpace(s[0]) && s[0] != '+' && s[0] != '-';
    assert SkipSpace(s) == s;
    assert |s| >= 8 ==> s[..8] != "Infinity" by {
      if |s| >= 8 {
        assert s[..8][0] == s[0];
      }
    }
  }

  /** On a non-empty string of decimal digits, `parseFloat` gives its decimal value. */
  lemma ParseFloatDigits(s: string)
    requires |s| > 0 && AllChars(s, IsDigit)
    ensures ParseFloat(s) == Finite(DigitsValue(s) as real)
  {
    assert s[..|s|] == s;
    ParseFloatFromDigit(s);
    UnsignedDecimalLeading(s, |s|);
    assert ParseUnsignedDecimal(s) == Finite(DigitsValue(s) as real);
  }

  /** `parseFloat` reads the leading run of digits and ignores what follows
      a character that cannot continue a number. */
  lemma ParseFloatLeadingDigits(s: string, n: nat)
    requires 0 < n < |s| && AllChars(s[..n], IsDigit)
    requires !IsDigit(s[n]) && s[n] != '.' && s[n] != 'e' && s[n] != 'E'
    ensures ParseFloat(s) == Finite(DigitsValue(s[..n]) as real)
  {
    assert s[..n][0] == s[0];
    ParseFloatFromDigit(s);
    UnsignedDecimalLeading(s, n);
  }
}
