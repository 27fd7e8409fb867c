/** The input checks of data_validator.py: the email and domain patterns (as
    hand-written matchers over the regular expressions' structure, with Python's `$`),
    positive-integer parsing of strings, the ensure_* guards and the filename sanitiser. */
module DataValidator {
  import opened PyRuntime

  // ---------------------------------------------------------------- email

  /** [^@\s] */
  predicate EmailChar(c: char) {
    c != '@' && !IsSpace(c)
  }

  /** [^@\s]+ */
  predicate EmailRun(w: string) {
    |w| > 0 && forall k :: 0 <= k < |w| ==> EmailChar(w[k])
  }

  /** [^@\s]+@[^@\s]+\.[^@\s]+ matching the whole of b: the pattern's three runs, split
      at the '@' and at a later '.'. */
  predicate EmailBody(b: string) {
    exists i, j :: 0 <= i < j < |b| && b[i] == '@' && b[j] == '.' &&
      EmailRun(b[..i]) && EmailRun(b[i + 1..j]) && EmailRun(b[j + 1..])
  }

  /** An address as a reader would describe it: exactly one '@', which is not the first
      character, no whitespace, and a '.' after the '@' with at least one character on
      each side of it. */
  predicate EmailShape(b: string) {
    exists i :: 0 < i < |b| && b[i] == '@' &&
      (forall k :: 0 <= k < |b| ==> !IsSpace(b[k]) && (b[k] == '@' ==> k == i)) &&
      (exists j :: i + 1 < j < |b| - 1 && b[j] == '.')
  }

  lemma EmailBodyIsShape(b: string)
    ensures EmailBody(b) <==> EmailShape(b)
  {
    if EmailBody(b) {
      EmailBodyToShape(b);
    }
    if EmailShape(b) {
      EmailShapeToBody(b);
    }
  }

  lemma EmailBodyToShape(b: string)
    requires EmailBody(b)
    ensures EmailShape(b)
  {
    var i, j :| 0 <= i < j < |b| && b[i] == '@' && b[j] == '.' &&
      EmailRun(b[..i]) && EmailRun(b[i + 1..j]) && EmailRun(b[j + 1..]);
    forall k | 0 <= k < |b| ensures !IsSpace(b[k]) && (b[k] == '@' ==> k == i) {
      if k < i {
        assert b[..i][k] == b[k];
      } else if i < k < j {
        assert b[i + 1..j][k - i - 1] == b[k];
      } else if j < k {
        assert b[j + 1..][k - j - 1] == b[k];
      }
    }
    assert i + 1 < j < |b| - 1;
  }

  lemma EmailShapeToBody(b: string)
    requires EmailShape(b)
    ensures EmailBody(b)
  {
    var i :| 0 < i < |b| && b[i] == '@' &&
      (forall k :: 0 <= k < |b| ==> !IsSpace(b[k]) && (b[k] == '@' ==> k == i)) &&
      (exists j :: i + 1 < j < |b| - 1 && b[j] == '.');
    var j :| i + 1 < j < |b| - 1 && b[j] == '.';
    assert EmailRun(b[..i]) && EmailRun(b[i + 1..j]) && EmailRun(b[j + 1..]);
  }

  /** validate_email: EMAIL_PATTERN.match, where `$` also accepts one final "\n". */
  function ValidateEmail(value: string): (r: bool)
    ensures r <==> EmailShape(value) || (|value| > 0 && value[|value| - 1] == '\n' && EmailShape(value[..|value| - 1]))
  {
    EmailBodyIsShape(value);
    if |value| > 0 then
      EmailBodyIsShape(value[..|value| - 1]);
      EmailBody(value) || (value[|value| - 1] == '\n' && EmailBody(value[..|value| - 1]))
    else
      EmailBody(value)
  }

  // ---------------------------------------------------------------- domain

  /** [a-zA-Z0-9-] */
  predicate LabelChar(c: char) {
    'a' <= c <= 'z' || 'A' <= c <= 'Z' || '0' <= c <= '9' || c == '-'
  }

  /** [a-zA-Z0-9-]+ */
  predicate Label(w: string) {
    |w| > 0 && forall k :: 0 <= k < |w| ==> LabelChar(w[k])
  }

  /** [a-zA-Z]{2,} */
  predicate TopLevel(w: string) {
    |w| >= 2 && forall k :: 0 <= k < |w| ==> 'a' <= w[k] <= 'z' || 'A' <= w[k] <= 'Z'
  }

  /** (?:[a-zA-Z0-9-]+\.)+[a-zA-Z]{2,} matching the whole of b: a label and a dot, then
      either the final letters or another repetition of the group. */
  predicate DomainBody(b: string)
    decreases |b|
  {
    exists i :: 0 < i < |b| && b[i] == '.' && Label(b[..i]) &&
      (TopLevel(b[i + 1..]) || DomainBody(b[i + 1..]))
  }

  /** Before position d: only label characters and dots. */
  predicate LabelsAndDots(b: string, d: int) {
    forall k :: 0 <= k < d && k < |b| ==> LabelChar(b[k]) || b[k] == '.'
  }

  /** Up to position d: every dot follows a character that is not a dot. */
  predicate SingleDots(b: string, d: int) {
    forall k :: 0 <= k <= d && k < |b| && b[k] == '.' ==> 0 < k && b[k - 1] != '.'
  }

  /** b is a domain whose last dot is at position d. */
  predicate DomainShapeAt(b: string, d: int) {
    0 < d < |b| && b[d] == '.' && TopLevel(b[d + 1..]) && LabelsAndDots(b, d) && SingleDots(b, d)
  }

  /** A domain as a reader would describe it: label characters and dots, not starting with
      a dot and with no two dots in a row, up to a last dot followed by two or more letters. */
  predicate DomainShape(b: string) {
    exists d :: 0 < d < |b| && DomainShapeAt(b, d)
  }

  /** The position of the first '.' in b. */
  function FirstDot(b: string): (i: nat)
    requires exists k :: 0 <= k < |b| && b[k] == '.'
    ensures i < |b| && b[i] == '.'
    ensures forall k :: 0 <= k < i ==> b[k] != '.'
  {
    if b[0] == '.' then 0
    else
      assert exists k :: 0 <= k < |b[1..]| && b[1..][k] == '.' by {
        var k :| 0 <= k < |b| && b[k] == '.';
        assert b[1..][k - 1] == '.';
      }
      1 + FirstDot(b[1..])
  }

  /** A label, a dot and a domain whose last dot is at d' form a domain. */
  lemma DomainShapeCons(b: string, i: nat, d': int)
    requires 0 < i < |b| && b[i] == '.' && Label(b[..i]) && DomainShapeAt(b[i + 1..], d')
    ensures DomainShapeAt(b, i + 1 + d')
  {
    var rest := b[i + 1..];
    var d := i + 1 + d';
    assert b[d + 1..] == rest[d' + 1..];
    assert LabelsAndDots(b, d) by {
      forall k | 0 <= k < d ensures LabelChar(b[k]) || b[k] == '.' {
        if k < i {
          assert b[k] == b[..i][k];
        } else if k > i {
          assert b[k] == rest[k - i - 1];
        }
      }
    }
    assert SingleDots(b, d) by {
      forall k | 0 <= k <= d && b[k] == '.' ensures 0 < k && b[k - 1] != '.' {
        if k == i {
          assert b[i - 1] == b[..i][i - 1];
        } else if k > i {
          assert b[k] == rest[k - i - 1] && b[k - 1] == rest[k - i - 2];
        }
      }
    }
  }

  lemma {:induction false} DomainBodyToShape(b: string)
    requires DomainBody(b)
    ensures DomainShape(b)
    decreases |b|
  {
    var i :| 0 < i < |b| && b[i] == '.' && Label(b[..i]) &&
      (TopLevel(b[i + 1..]) || DomainBody(b[i + 1..]));
    if TopLevel(b[i + 1..]) {
      assert forall k :: 0 <= k < i ==> b[k] == b[..i][k];
      assert b[i - 1] == b[..i][i - 1];
      assert DomainShapeAt(b, i);
    } else {
      DomainBodyToShape(b[i + 1..]);
      var d' :| DomainShapeAt(b[i + 1..], d');
      DomainShapeCons(b, i, d');
    }
  }

  /** Dropping a first label and its dot from a domain with more than one dot leaves a domain. */
  lemma DomainShapeTail(b: string, d: int) returns (i: nat)
    requires DomainShapeAt(b, d)
    ensures i == FirstDot(b) && 0 < i <= d && Label(b[..i])
    ensures i < d ==> DomainShapeAt(b[i + 1..], d - i - 1)
  {
    i := FirstDot(b);
    var rest := b[i + 1..];
    assert Label(b[..i]);
    if i < d {
      var d' := d - i - 1;
      assert b[i + 1] != '.';
      assert rest[d' + 1..] == b[d + 1..];
      assert LabelsAndDots(rest, d') by {
        forall k | 0 <= k < d' ensures LabelChar(rest[k]) || rest[k] == '.' {
          assert rest[k] == b[k + i + 1];
        }
      }
      assert SingleDots(rest, d') by {
        forall k | 0 <= k <= d' && rest[k] == '.' ensures 0 < k && rest[k - 1] != '.' {
          assert rest[k] == b[k + i + 1];
        }
      }
    }
  }

  lemma {:induction false} DomainShapeToBody(b: string)
    requires DomainShape(b)
    ensures DomainBody(b)
    decreases |b|
  {
    var d :| DomainShapeAt(b, d);
    var i := DomainShapeTail(b, d);
    if i < d {
      DomainShapeToBody(b[i + 1..]);
    }
  }

  lemma DomainBodyIsShape(b: string)
    ensures DomainBody(b) <==> DomainShape(b)
  {
    if DomainBody(b) { DomainBodyToShape(b); }
    if DomainShape(b) { DomainShapeToBody(b); }
  }

  /** validate_domain: DOMAIN_PATTERN.match, where `$` also accepts one final "\n". */
  function ValidateDomain(value: string): (r: bool)
    ensures r <==> DomainShape(value) || (|value| > 0 && value[|value| - 1] == '\n' && DomainShape(value[..|value| - 1]))
  {
    DomainBodyIsShape(value);
    if |value| > 0 then
      DomainBodyIsShape(value[..|value| - 1]);
      DomainBody(value) || (value[|value| - 1] == '\n' && DomainBody(value[..|value| - 1]))
    else
      DomainBody(value)
  }

  // ---------------------------------------------------------------- positive integers

  /** The digit value of a decimal character (Unicode category Nd): what int() accepts
      in a numeral. The blocks recognised are ASCII, Arabic-Indic, Extended Arabic-Indic,
      NKo, the Brahmic scripts from Devanagari to Sinhala, Thai, Lao, Tibetan, Myanmar,
      Myanmar Shan, Khmer, Mongolian and the fullwidth forms. */
  function DecimalDigit(c: char): (r: Option<nat>)
    ensures r.Some? ==> r.value < 10
    ensures '0' <= c <= '9' ==> r == Some(c as int - '0' as int)
    ensures c as int < 0x30 ==> r == None
  {
    var n := c as int;
    if 0x30 <= n <= 0x39 then Some(n - 0x30)
    else if 0x660 <= n <= 0x669 then Some(n - 0x660)
    else if 0x6F0 <= n <= 0x6F9 then Some(n - 0x6F0)
    else if 0x7C0 <= n <= 0x7C9 then Some(n - 0x7C0)
    else if 0x966 <= n <= 0x96F then Some(n - 0x966)
    else if 0x9E6 <= n <= 0x9EF then Some(n - 0x9E6)
    else if 0xA66 <= n <= 0xA6F then Some(n - 0xA66)
    else if 0xAE6 <= n <= 0xAEF then Some(n - 0xAE6)
    else if 0xB66 <= n <= 0xB6F then Some(n - 0xB66)
    else if 0xBE6 <= n <= 0xBEF then Some(n - 0xBE6)
    else if 0xC66 <= n <= 0xC6F then Some(n - 0xC66)
    else if 0xCE6 <= n <= 0xCEF then Some(n - 0xCE6)
    else if 0xD66 <= n <= 0xD6F then Some(n - 0xD66)
    else if 0xDE6 <= n <= 0xDEF then Some(n - 0xDE6)
    else if 0xE50 <= n <= 0xE59 then Some(n - 0xE50)
    else if 0xED0 <= n <= 0xED9 then Some(n - 0xED0)
    else if 0xF20 <= n <= 0xF29 then Some(n - 0xF20)
    else if 0x1040 <= n <= 0x1049 then Some(n - 0x1040)
    else if 0x1090 <= n <= 0x1099 then Some(n - 0x1090)
    else if 0x17E0 <= n <= 0x17E9 then Some(n - 0x17E0)
    else if 0x1810 <= n <= 0x1819 then Some(n - 0x1810)
    else if 0xFF10 <= n <= 0xFF19 then Some(n - 0xFF10)
    else None
  }

  /** Characters str.isdigit accepts although they are not decimal: superscripts,
      subscripts and circled digits. */
  predicate IsDigitOnly(c: char) {
    var n := c as int;
    n == 0xB2 || n == 0xB3 || n == 0xB9 || n == 0x2070 || (0x2074 <= n <= 0x2079) ||
    (0x2080 <= n <= 0x2089) || (0x2460 <= n <= 0x2468) || n == 0x24EA
  }

  /** str.isdigit */
  predicate IsDigitStr(s: string) {
    |s| > 0 && forall k :: 0 <= k < |s| ==> DecimalDigit(s[k]).Some? || IsDigitOnly(s[k])
  }

  /** str.isdecimal: the strings made only of characters int() takes as digits. */
  predicate IsDecimalStr(s: string) {
    |s| > 0 && forall k :: 0 <= k < |s| ==> DecimalDigit(s[k]).Some?
  }

  /** int(s) for a string of decimal digits. */
  function DecimalValue(s: string): nat
    requires forall k :: 0 <= k < |s| ==> DecimalDigit(s[k]).Some?
  {
    if s == [] then 0
    else DecimalValue(s[..|s| - 1]) * 10 + DecimalDigit(s[|s| - 1]).value
  }

  /** A numeral is above zero exactly when one of its digits is not zero. */
  lemma {:induction false} DecimalValuePositive(s: string)
    requires forall k :: 0 <= k < |s| ==> DecimalDigit(s[k]).Some?
    ensures DecimalValue(s) > 0 <==> exists k :: 0 <= k < |s| && DecimalDigit(s[k]) != Some(0)
  {
    if s != [] {
      var init := s[..|s| - 1];
      DecimalValuePositive(init);
      assert forall k :: 0 <= k < |init| ==> init[k] == s[k];
      if DecimalValue(init) > 0 {
        var k :| 0 <= k < |init| && DecimalDigit(init[k]) != Some(0);
        assert DecimalDigit(s[k]) != Some(0);
      }
    }
  }

  /** is_positive_int as its name and docstring promise: true exactly for a non-empty
      string of decimal digits that are not all zero; false for everything else. */
  function IsPositiveInt(value: string): (r: bool)
    ensures r <==> IsDecimalStr(value) && exists k :: 0 <= k < |value| && DecimalDigit(value[k]) != Some(0)
  {
    if IsDecimalStr(value) then
      DecimalValuePositive(value);
      DecimalValue(value) > 0
    else false
  }

  /** `%.200R` of a string of digits: its repr, which is the string in single quotes since
      digits need no escaping, cut off after 200 characters. */
  function DigitsReprCut(value: string): (r: string)
    ensures |r| == if |value| + 2 <= 200 then |value| + 2 else 200
    ensures r == ("'" + value + "'")[..|r|]
  {
    var repr := "'" + value + "'";
    if |repr| <= 200 then repr else repr[..200]
  }

  /** is_positive_int as written: `value.isdigit() and int(value) > 0`. For a string that
      isdigit accepts but that holds a non-decimal digit, int() raises ValueError. */
  function IsPositiveIntAsWritten(value: string): (r: Result<bool>)
    ensures r.Err? <==> IsDigitStr(value) && !IsDecimalStr(value)
    ensures r.Err? ==> r.error == ValueError("invalid literal for int() with base 10: " + DigitsReprCut(value))
    ensures r.Ok? ==> r.value == IsPositiveInt(value)
  {
    if !IsDigitStr(value) then Ok(false)
    else if !IsDecimalStr(value) then Err(ValueError("invalid literal for int() with base 10: " + DigitsReprCut(value)))
    else
      DecimalValuePositive(value);
      Ok(DecimalValue(value) > 0)
  }

  /** The code raises on "²" (SUPERSCRIPT TWO), where the intended answer is false. */
  lemma IsPositiveIntRaisesOnSuperscript()
    ensures IsPositiveIntAsWritten("²").Err?
    ensures !IsPositiveInt("²")
  {
    assert IsDigitOnly('²') && DecimalDigit('²').None?;
  }

  /** The cases of the unit test: "5" is accepted; "0", "-3" and "abc" are not. */
  lemma IsPositiveIntExamples()
    ensures IsPositiveIntAsWritten("5") == Ok(true) && IsPositiveInt("5")
    ensures IsPositiveIntAsWritten("0") == Ok(false) && IsPositiveIntAsWritten("-3") == Ok(false)
    ensures IsPositiveIntAsWritten("abc") == Ok(false)
  {
    assert DecimalDigit('5') == Some(5);
    assert DecimalDigit('-').None?;
    assert DecimalDigit('a').None?;
  }

  // ---------------------------------------------------------------- ensure_* guards

  /** ensure_positive_int: the value itself when it is an int (bool included) above zero. */
  function EnsurePositiveInt(value: PyValue, name: string := "value"): (r: Result<PyValue>)
    ensures r.Ok? <==> (value.PyInt? && value.i > 0) || value == PyBool(true)
    ensures r.Ok? ==> r.value == value
    ensures r.Err? ==> r.error == ValueError(name + " must be a positive integer")
  {
    if !value.IsInt() || value.IntValue() <= 0 then Err(ValueError(name + " must be a positive integer"))
    else Ok(value)
  }

  /** ensure_non_empty_str: the value itself when it is a str with a non-whitespace character. */
  function EnsureNonEmptyStr(value: PyValue, name: string := "value"): (r: Result<PyValue>)
    ensures r.Ok? <==> value.PyStr? && exists k :: 0 <= k < |value.s| && !IsSpace(value.s[k])
    ensures r.Ok? ==> r.value == value
    ensures r.Err? ==> r.error == ValueError(name + " must be a non-empty string")
  {
    if !value.PyStr? || Strip(value.s) == [] then Err(ValueError(name + " must be a non-empty string"))
    else Ok(value)
  }

  // ---------------------------------------------------------------- sanitize_filename

  /** safe_chars: "-_. " followed by the ASCII letters and digits. */
  predicate IsSafe(c: char) {
    c == '-' || c == '_' || c == '.' || c == ' ' || 'a' <= c <= 'z' || 'A' <= c <= 'Z' || '0' <= c <= '9'
  }

  predicate AllSafe(s: string) {
    forall k :: 0 <= k < |s| ==> IsSafe(s[k])
  }

  /** "".join(c if c in safe_chars else replacement for c in name) */
  function MapUnsafe(name: string, replacement: string): (r: string)
    ensures AllSafe(replacement) ==> AllSafe(r)
    ensures |replacement| == 1 ==> (|r| == |name| &&
      forall k :: 0 <= k < |name| ==> r[k] == if IsSafe(name[k]) then name[k] else replacement[0])
    ensures '/' !in replacement ==> '/' !in r
    ensures '\\' !in replacement ==> '\\' !in r
  {
    if name == [] then []
    else (if IsSafe(name[0]) then [name[0]] else replacement) + MapUnsafe(name[1..], replacement)
  }

  /** s.replace(c, replacement) for a one-character c. */
  function ReplaceChar(s: string, c: char, replacement: string): (r: string)
    ensures c !in s ==> r == s
    ensures |replacement| == 1 ==> (|r| == |s| &&
      forall k :: 0 <= k < |s| ==> r[k] == if s[k] == c then replacement[0] else s[k])
  {
    if s == [] then []
    else (if s[0] == c then replacement else [s[0]]) + ReplaceChar(s[1..], c, replacement)
  }

  /** sanitize_filename */
  function SanitizeFilename(name: string, replacement: string := "_"): (r: string)
    ensures '/' !in replacement && '\\' !in replacement ==> r == MapUnsafe(name, replacement)
  {
    ReplaceChar(ReplaceChar(MapUnsafe(name, replacement), '/', replacement), '\\', replacement)
  }

  /** With a one-character replacement every safe character stays in place and every other
      character becomes the replacement, so the length is kept. */
  lemma SanitizeKeepsSafeCharacters(name: string, replacement: string)
    requires |replacement| == 1
    ensures var r := SanitizeFilename(name, replacement);
      |r| == |name| && forall k :: 0 <= k < |name| ==> r[k] == if IsSafe(name[k]) then name[k] else replacement[0]
  {
  }

  /** A replacement without path separators leaves none in the result. */
  lemma SanitizeRemovesSeparators(name: string, replacement: string)
    requires '/' !in replacement && '\\' !in replacement
    ensures '/' !in SanitizeFilename(name, replacement) && '\\' !in SanitizeFilename(name, replacement)
  {
  }

  /** A replacement made of safe characters gives a result made of safe characters, and
      sanitising that result again changes nothing. */
  lemma {:induction false} SanitizeIdempotent(name: string, replacement: string)
    requires AllSafe(replacement)
    ensures AllSafe(SanitizeFilename(name, replacement))
    ensures SanitizeFilename(SanitizeFilename(name, replacement), replacement) == SanitizeFilename(name, replacement)
  {
    var r := MapUnsafe(name, replacement);
    assert '/' !in replacement && '\\' !in replacement by {
      assert !IsSafe('/') && !IsSafe('\\');
    }
    MapUnsafeOfSafe(r, replacement);
  }

  /** Safe characters pass through the mapping unchanged. */
  lemma {:induction false} MapUnsafeOfSafe(s: string, replacement: string)
    requires AllSafe(s)
    ensures MapUnsafe(s, replacement) == s
  {
    if s != [] {
      MapUnsafeOfSafe(s[1..], replacement);
    }
  }

  /** The default replacement "_": only safe characters, no separators, and a second
      pass changes nothing. */
  lemma SanitizeDefault(name: string)
    ensures AllSafe(SanitizeFilename(name))
    ensures '/' !in SanitizeFilename(name) && '\\' !in SanitizeFilename(name)
    ensures SanitizeFilename(SanitizeFilename(name)) == SanitizeFilename(name)
  {
    SanitizeIdempotent(name, "_");
    SanitizeRemovesSeparators(name, "_");
  }

  // ---------------------------------------------------------------- unit-test cases

  lemma ValidateEmailAccepts()
    ensures ValidateEmail("user@example.com")
  {
    var s := "user@example.com";
    assert s[4] == '@' && s[12] == '.';
    assert forall k :: 0 <= k < |s| ==> !IsSpace(s[k]) && (s[k] == '@' ==> k == 4);
  }

  lemma ValidateEmailRejects()
    ensures !ValidateEmail("invalid")
  {
    var s := "invalid";
    assert forall k :: 0 <= k < |s| ==> s[k] != '@';
  }

  lemma ValidateDomainAccepts()
    ensures ValidateDomain("example.com")
  {
    var s := "example.com";
    assert s[7] == '.' && TopLevel(s[8..]);
    assert forall k :: 0 <= k < 7 ==> LabelChar(s[k]);
    assert DomainShapeAt(s, 7);
  }

  lemma ValidateDomainRejects()
    ensures !ValidateDomain("no spaces")
  {
    var t := "no spaces";
    assert !LabelChar(t[2]) && t[2] != '.';
    assert t[|t| - 1] != '\n';
  }
}
