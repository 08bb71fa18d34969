/** String helpers: the character classes of the configuration checks, the
    decimal rendering and parsing Python's `str(int)`, `int(str)` and
    `float(str)` perform, and the small `str` methods the image archiver uses. */
module Text {
  import opened Wrappers

  predicate IsAsciiLetter(c: char) { 'a' <= c <= 'z' || 'A' <= c <= 'Z' }

  predicate IsDigit(c: char) { '0' <= c <= '9' }

  /** The class `[a-zA-Z0-9\-_]` of benchmark names and workload arguments. */
  predicate IsNameChar(c: char) { IsAsciiLetter(c) || IsDigit(c) || c == '-' || c == '_' }

  /** The class `[a-zA-Z0-9:/\-_\.~]` of registries and result-file names. */
  predicate IsRegChar(c: char) { IsNameChar(c) || c == ':' || c == '/' || c == '.' || c == '~' }

  predicate AllNameChars(s: string) { forall i | 0 <= i < |s| :: IsNameChar(s[i]) }

  predicate AllRegChars(s: string) { forall i | 0 <= i < |s| :: IsRegChar(s[i]) }

  predicate AllDigits(s: string) { forall i | 0 <= i < |s| :: IsDigit(s[i]) }

  // ---------------------------------------------------------------------------
  // The two regular-expression checks, as written and as intended.
  // `re.match(r'^[...]*$', s)` succeeds on the whole string, but Python's `$`
  // also matches just before a final newline, so one trailing "\n" gets through.
  // ---------------------------------------------------------------------------

  /** `check_chars` as the source evaluates it. */
  predicate CheckCharsAsWritten(s: string) {
    AllNameChars(s) || (|s| > 0 && s[|s| - 1] == '\n' && AllNameChars(s[..|s| - 1]))
  }

  /** `check_reg_chars` as the source evaluates it. */
  predicate CheckRegCharsAsWritten(s: string) {
    AllRegChars(s) || (|s| > 0 && s[|s| - 1] == '\n' && AllRegChars(s[..|s| - 1]))
  }

  /** `check_chars` as intended: every character is in the class. */
  predicate CheckChars(s: string) { AllNameChars(s) }

  /** `check_reg_chars` as intended. */
  predicate CheckRegChars(s: string) { AllRegChars(s) }

  /** The as-written checks accept exactly the intended strings plus those
      strings followed by one newline. */
  lemma AsWrittenAcceptsTrailingNewline(s: string)
    ensures CheckCharsAsWritten(s) <==> (CheckChars(s) || (|s| > 0 && s[|s| - 1] == '\n' && CheckChars(s[..|s| - 1])))
    ensures CheckCharsAsWritten(s + "\n") == CheckChars(s)
    ensures CheckRegCharsAsWritten(s + "\n") == CheckRegChars(s)
  {
    var t := s + "\n";
    assert t[..|t| - 1] == s;
    assert !IsNameChar(t[|t| - 1]) && !IsRegChar(t[|t| - 1]);
  }

  /** A concrete benchmark name the source lets through although it carries a
      character outside the class. */
  lemma NewlineNameSlipsThrough()
    ensures CheckCharsAsWritten("bmk\n") && !CheckChars("bmk\n")
  {
    assert "bmk" + "\n" == "bmk\n";
    assert CheckChars("bmk") by {
      assert IsNameChar("bmk"[0]) && IsNameChar("bmk"[1]) && IsNameChar("bmk"[2]);
    }
    AsWrittenAcceptsTrailingNewline("bmk");
    assert !IsNameChar("bmk\n"[3]);
  }

  /** What the corrected check guarantees: a name or argument that passes it
      carries no whitespace and no shell metacharacter. */
  lemma CheckCharsExcludesShellText(s: string, i: nat)
    requires CheckChars(s) && i < |s|
    ensures s[i] !in {' ', '\t', '\n', ';', '|', '&', '$', '`', '\'', '"', '<', '>', '(', ')', '*', '?', '/', '.'}
  {
  }

  predicate StartsWith(s: string, prefix: string) {
    |prefix| <= |s| && s[..|prefix|] == prefix
  }

  // ---------------------------------------------------------------------------
  // What `int()` and `float()` do to a string before reading the number:
  // surrounding whitespace is stripped, and an underscore is allowed only
  // between two digits and then dropped.
  // ---------------------------------------------------------------------------

  /** The characters Python's `str.isspace()` holds for. */
  predicate IsPyWhitespace(c: char) {
    || c == ' ' || '\t' <= c <= '\r' || '\U{1C}' <= c <= '\U{1F}'
    || c == '\U{85}' || c == '\U{A0}' || c == '\U{1680}' || '\U{2000}' <= c <= '\U{200A}'
    || c == '\U{2028}' || c == '\U{2029}' || c == '\U{202F}' || c == '\U{205F}' || c == '\U{3000}'
  }

  /** `s.lstrip()`. */
  function LStrip(s: string): (r: string)
    ensures |r| <= |s| && r == s[|s| - |r|..]
    ensures |r| > 0 ==> !IsPyWhitespace(r[0])
    ensures forall i | 0 <= i < |s| - |r| :: IsPyWhitespace(s[i])
  {
    if |s| > 0 && IsPyWhitespace(s[0]) then LStrip(s[1..]) else s
  }

  /** `s.rstrip()`. */
  function RStripSpace(s: string): (r: string)
    ensures |r| <= |s| && r == s[..|r|]
    ensures |r| > 0 ==> !IsPyWhitespace(r[|r| - 1])
    ensures forall i | |r| <= i < |s| :: IsPyWhitespace(s[i])
  {
    if |s| > 0 && IsPyWhitespace(s[|s| - 1]) then RStripSpace(s[..|s| - 1]) else s
  }

  /** `s.strip()`: what is left between the leading and the trailing
      whitespace. */
  function Strip(s: string): (r: string)
    ensures |r| <= |s|
    ensures |r| > 0 ==> !IsPyWhitespace(r[0]) && !IsPyWhitespace(r[|r| - 1])
    ensures |r| <= |LStrip(s)| && r == LStrip(s)[..|r|]
  {
    RStripSpace(LStrip(s))
  }

  /** A string that neither starts nor ends with whitespace is its own strip. */
  lemma StripUnpadded(s: string)
    requires |s| > 0 ==> !IsPyWhitespace(s[0]) && !IsPyWhitespace(s[|s| - 1])
    ensures Strip(s) == s
  {
  }

  /** Every underscore sits between two digits. */
  predicate UnderscoresOk(s: string) {
    forall i | 0 <= i < |s| && s[i] == '_' :: 0 < i < |s| - 1 && IsDigit(s[i - 1]) && IsDigit(s[i + 1])
  }

  /** The string with its underscores dropped. */
  function RemoveUnderscores(s: string): (r: string)
    ensures '_' !in r
    ensures |r| <= |s|
    ensures '_' !in s ==> r == s
  {
    if |s| == 0 then ""
    else
      assert s == [s[0]] + s[1..];
      (if s[0] == '_' then "" else [s[0]]) + RemoveUnderscores(s[1..])
  }

  // ---------------------------------------------------------------------------
  // Decimal integers: `str(n)` and `int(s)`.
  // ---------------------------------------------------------------------------

  function DigitChar(d: nat): (c: char)
    requires d < 10
    ensures IsDigit(c) && (c as int) - ('0' as int) == d
  {
    (('0' as int) + d) as char
  }

  function DigitValue(c: char): (d: nat)
    requires IsDigit(c)
    ensures d < 10 && DigitChar(d) == c
  {
    (c as int) - ('0' as int)
  }

  /** `str(n)` for a non-negative integer. */
  function NatToString(n: nat): (r: string)
    ensures |r| > 0 && AllDigits(r)
    ensures n < 10 <==> |r| == 1
    decreases n
  {
    if n < 10 then [DigitChar(n)] else NatToString(n / 10) + [DigitChar(n % 10)]
  }

  /** `str(i)` for any integer. */
  function IntToString(i: int): (r: string)
    ensures |r| > 0 && CheckChars(r)
    ensures forall k | 0 <= k < |r| :: r[k] == '-' || IsDigit(r[k])
    ensures (i < 0) <==> r[0] == '-'
  {
    if i < 0 then "-" + NatToString(-i) else NatToString(i)
  }

  /** The value of a string of decimal digits. */
  function DigitsValue(s: string): nat
    requires AllDigits(s)
  {
    if |s| == 0 then 0 else DigitsValue(s[..|s| - 1]) * 10 + DigitValue(s[|s| - 1])
  }

  /** An optional sign followed by decimal digits, as `int()` reads what is
      left once whitespace and underscores are dealt with. */
  function ParseDecimal(s: string): (r: Option<int>)
    ensures r.Some? ==> |s| > 0
  {
    if |s| > 0 && (s[0] == '-' || s[0] == '+') then
      var body := s[1..];
      if |body| > 0 && AllDigits(body) then
        var v: int := DigitsValue(body);
        Some(if s[0] == '-' then -v else v)
      else None
    else if |s| > 0 && AllDigits(s) then Some(DigitsValue(s))
    else None
  }

  /** `int(s)` on a string: surrounding whitespace is ignored, and single
      underscores between digits are dropped; `None` where Python raises
      ValueError. */
  function ParseInt(s: string): (r: Option<int>)
    ensures r.Some? ==> |Strip(s)| > 0 && UnderscoresOk(Strip(s))
  {
    var t := Strip(s);
    if UnderscoresOk(t) then ParseDecimal(RemoveUnderscores(t)) else None
  }

  lemma {:induction false} DigitsValueOfNatToString(n: nat)
    ensures DigitsValue(NatToString(n)) == n
    decreases n
  {
    var r := NatToString(n);
    if n >= 10 {
      DigitsValueOfNatToString(n / 10);
      assert r[..|r| - 1] == NatToString(n / 10);
    }
  }

  /** `int(str(i)) == i`: the decimal rendering reads back as the same integer. */
  lemma ParseIntOfIntToString(i: int)
    ensures ParseInt(IntToString(i)) == Some(i)
  {
    var r := IntToString(i);
    assert !IsPyWhitespace(r[0]) && !IsPyWhitespace(r[|r| - 1]);
    StripUnpadded(r);
    assert Strip(r) == r;
    assert '_' !in r;
    assert UnderscoresOk(r);
    assert RemoveUnderscores(r) == r;
    ParseDecimalOfIntToString(i);
    assert ParseDecimal(r) == Some(i);
  }

  lemma ParseDecimalOfIntToString(i: int)
    ensures ParseDecimal(IntToString(i)) == Some(i)
  {
    var r := IntToString(i);
    if i < 0 {
      var d := NatToString(-i);
      DigitsValueOfNatToString(-i);
      assert r == "-" + d && r[1..] == d;
      assert AllDigits(d) && |d| > 0;
    } else {
      DigitsValueOfNatToString(i);
      assert r == NatToString(i) && IsDigit(r[0]);
    }
  }

  // ---------------------------------------------------------------------------
  // `float(s)` on a string: which strings Python accepts.
  // ---------------------------------------------------------------------------

  function DropSign(s: string): (r: string)
    ensures |r| <= |s|
  {
    if |s| > 0 && (s[0] == '+' || s[0] == '-') then s[1..] else s
  }

  function LowerAscii(s: string): (r: string)
    ensures |r| == |s|
    ensures forall i | 0 <= i < |s| :: r[i] == (if 'A' <= s[i] <= 'Z' then (s[i] as int + 32) as char else s[i])
  {
    if |s| == 0 then []
    else [if 'A' <= s[0] <= 'Z' then (s[0] as int + 32) as char else s[0]] + LowerAscii(s[1..])
  }

  /** The first index of `c` in `s`, or `|s|` when it does not occur. */
  function IndexOf(s: string, c: char): (k: nat)
    ensures k <= |s|
    ensures k < |s| ==> s[k] == c
    ensures forall j | 0 <= j < k :: s[j] != c
  {
    if |s| == 0 then 0
    else if s[0] == c then 0
    else 1 + IndexOf(s[1..], c)
  }

  /** Digits with at most one decimal point, and at least one digit. */
  predicate IsMantissa(m: string) {
    var k := IndexOf(m, '.');
    if k == |m| then |m| > 0 && AllDigits(m)
    else |m| > 1 && AllDigits(m[..k]) && AllDigits(m[k + 1..])
  }

  /** The strings `float()` accepts: after stripping whitespace and dropping
      underscores that sit between digits, `inf`, `infinity`, `nan` in any
      case, or a decimal with an optional exponent, each after an optional
      sign. */
  predicate IsFloatLiteral(s: string) {
    var t := Strip(s);
    UnderscoresOk(t) && IsFloatText(RemoveUnderscores(t))
  }

  /** The float syntax itself, with no whitespace and no underscores. */
  predicate IsFloatText(s: string) {
    var t := LowerAscii(DropSign(s));
    t == "inf" || t == "infinity" || t == "nan" ||
    var e := IndexOf(t, 'e');
    IsMantissa(t[..e]) && (e == |t| || (|DropSign(t[e + 1..])| > 0 && AllDigits(DropSign(t[e + 1..]))))
  }

  /** Leading whitespace changes neither what `int()` nor what `float()`
      makes of a string. */
  lemma LeadingSpaceIgnored(s: string, c: char)
    requires IsPyWhitespace(c)
    ensures Strip([c] + s) == Strip(s)
    ensures ParseInt([c] + s) == ParseInt(s)
    ensures IsFloatLiteral([c] + s) == IsFloatLiteral(s)
  {
    assert ([c] + s)[1..] == s;
  }

  /** `LStrip` of a string with one more whitespace character at its end. */
  lemma {:induction false} LStripSnoc(s: string, c: char)
    requires IsPyWhitespace(c)
    ensures LStrip(s + [c]) == if |LStrip(s)| == 0 then [] else LStrip(s) + [c]
  {
    var t := s + [c];
    if |s| == 0 {
      assert t[1..] == [];
    } else if IsPyWhitespace(s[0]) {
      assert t[1..] == s[1..] + [c];
      LStripSnoc(s[1..], c);
    }
  }

  /** Trailing whitespace changes neither what `int()` nor what `float()`
      makes of a string. */
  lemma TrailingSpaceIgnored(s: string, c: char)
    requires IsPyWhitespace(c)
    ensures Strip(s + [c]) == Strip(s)
    ensures ParseInt(s + [c]) == ParseInt(s)
    ensures IsFloatLiteral(s + [c]) == IsFloatLiteral(s)
  {
    var l := LStrip(s);
    LStripSnoc(s, c);
    if |l| > 0 {
      assert (l + [c])[..|l|] == l;
    }
  }

  /** `RemoveUnderscores` distributes over concatenation. */
  lemma {:induction false} RemoveUnderscoresConcat(x: string, y: string)
    ensures RemoveUnderscores(x + y) == RemoveUnderscores(x) + RemoveUnderscores(y)
  {
    if |x| > 0 {
      assert (x + y)[0] == x[0] && (x + y)[1..] == x[1..] + y;
      RemoveUnderscoresConcat(x[1..], y);
    } else {
      assert x + y == y;
    }
  }

  /** Two digit runs joined by one underscore: `int()` and `float()` accept
      the underscore and read the digits as if it were not there. */
  lemma UnderscoreBetweenDigits(a: string, b: string)
    requires |a| > 0 && |b| > 0 && AllDigits(a) && AllDigits(b)
    ensures ParseInt(a + "_" + b) == ParseDecimal(a + b)
    ensures IsFloatLiteral(a + "_" + b) == IsFloatText(a + b)
  {
    var s := a + "_" + b;
    JoinedUnderscoreOk(a, b);
    JoinedUnderscoreDropped(a, b);
    assert s[0] == a[0] && s[|s| - 1] == b[|b| - 1];
    StripUnpadded(s);
  }

  lemma JoinedUnderscoreOk(a: string, b: string)
    requires |a| > 0 && |b| > 0 && AllDigits(a) && AllDigits(b)
    ensures UnderscoresOk(a + "_" + b)
  {
    var s := a + "_" + b;
    assert forall j | 0 <= j < |a| :: s[j] == a[j];
    assert forall j | |a| < j < |s| :: s[j] == b[j - |a| - 1];
    forall i | 0 <= i < |s| && s[i] == '_'
      ensures 0 < i < |s| - 1 && IsDigit(s[i - 1]) && IsDigit(s[i + 1])
    {
      assert i == |a|;
    }
  }

  lemma DigitsKeepUnderscoreFree(a: string)
    requires AllDigits(a)
    ensures RemoveUnderscores(a) == a
  {
    assert forall i | 0 <= i < |a| :: IsDigit(a[i]);
  }

  lemma JoinedUnderscoreDropped(a: string, b: string)
    requires AllDigits(a) && AllDigits(b)
    ensures RemoveUnderscores(a + "_" + b) == a + b
  {
    RemoveUnderscoresConcat(a + "_", b);
    RemoveUnderscoresConcat(a, "_");
    DigitsKeepUnderscoreFree(a);
    DigitsKeepUnderscoreFree(b);
    assert RemoveUnderscores("_") == "" by { assert "_"[1..] == ""; }
    assert a + "" == a;
  }

  /** An underscore at either end of the stripped text, or next to a
      character that is not a digit, makes `int()` and `float()` raise. */
  lemma MisplacedUnderscore(s: string, i: nat)
    requires i < |Strip(s)| && Strip(s)[i] == '_'
    requires i == 0 || i == |Strip(s)| - 1 || !IsDigit(Strip(s)[i - 1]) || !IsDigit(Strip(s)[i + 1])
    ensures ParseInt(s) == None
    ensures !IsFloatLiteral(s)
  {
  }

  // ---------------------------------------------------------------------------
  // Small `str` methods.
  // ---------------------------------------------------------------------------

  /** `s.split(sep)[-1]`: what follows the last `sep`, or all of `s`. */
  function LastSegment(s: string, sep: char): (r: string)
    ensures |r| <= |s| && r == s[|s| - |r|..]
    ensures sep !in r
    ensures |r| < |s| ==> s[|s| - |r| - 1] == sep
  {
    if |s| == 0 then ""
    else if s[|s| - 1] == sep then ""
    else LastSegment(s[..|s| - 1], sep) + [s[|s| - 1]]
  }

  /** `s.replace(a, b)` for single characters. */
  function ReplaceChar(s: string, a: char, b: char): (r: string)
    ensures |r| == |s|
    ensures forall i | 0 <= i < |s| :: r[i] == (if s[i] == a then b else s[i])
  {
    if |s| == 0 then "" else [if s[0] == a then b else s[0]] + ReplaceChar(s[1..], a, b)
  }

  /** `s.rstrip(c)`. */
  function RStrip(s: string, c: char): (r: string)
    ensures |r| <= |s| && r == s[..|r|]
    ensures |r| > 0 ==> r[|r| - 1] != c
    ensures forall i | |r| <= i < |s| :: s[i] == c
  {
    if |s| == 0 then ""
    else if s[|s| - 1] == c then RStrip(s[..|s| - 1], c)
    else s
  }

  /** Python's `p in s` on strings. */
  predicate IsSubstring(p: string, s: string)
    decreases |s|
  {
    StartsWith(s, p) || (|s| > 0 && IsSubstring(p, s[1..]))
  }
}
