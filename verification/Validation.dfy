/**
 * The validation and input-formatting library of the front end: an e-mail
 * shape check, the Ecuadorian cédula check-digit validator, the password
 * strength scorer, the live formatters that filter what the user types into
 * a field, and the optional phone and URL checks.
 */
module Validation {
  import opened Wrappers

  // ---------------------------------------------------------------------------
  // Character classes
  // ---------------------------------------------------------------------------

  /** ECMAScript's `\s`: white space and line terminators. */
  predicate IsWhitespace(c: char) {
    c == '\t' || c == '\n' || c == '\U{B}' || c == '\U{C}' || c == '\r' || c == ' '
    || c == '\U{A0}' || c == '\U{1680}' || ('\U{2000}' <= c <= '\U{200A}')
    || c == '\U{2028}' || c == '\U{2029}' || c == '\U{202F}' || c == '\U{205F}'
    || c == '\U{3000}' || c == '\U{FEFF}'
  }

  predicate IsDigit(c: char) { '0' <= c <= '9' }
  predicate IsLower(c: char) { 'a' <= c <= 'z' }
  predicate IsUpper(c: char) { 'A' <= c <= 'Z' }
  predicate IsAsciiAlnum(c: char) { IsLower(c) || IsUpper(c) || IsDigit(c) }

  predicate AllDigits(s: string) { forall i | 0 <= i < |s| :: IsDigit(s[i]) }

  function DigitValue(c: char): (d: nat)
    requires IsDigit(c)
    ensures d < 10
  {
    c as int - '0' as int
  }

  function Min(a: int, b: int): int { if a < b then a else b }

  // ---------------------------------------------------------------------------
  // Generic string helpers
  // ---------------------------------------------------------------------------

  /** The position of the first `c` in `s`, if any. */
  function IndexOf(s: string, c: char): (r: Option<nat>)
    ensures r.Some? ==> r.value < |s| && s[r.value] == c && c !in s[..r.value]
    ensures r.None? ==> c !in s
  {
    if |s| == 0 then None
    else if s[0] == c then Some(0)
    else
      match IndexOf(s[1..], c)
      case None => None
      case Some(i) =>
        assert s[..i + 1] == [s[0]] + s[1..][..i];
        Some(i + 1)
  }

  /** The position of the last `c` in `s`, if any. */
  function LastIndexOf(s: string, c: char): (r: Option<nat>)
    ensures r.Some? ==> r.value < |s| && s[r.value] == c && c !in s[r.value + 1..]
    ensures r.None? ==> c !in s
  {
    if |s| == 0 then None
    else if s[|s| - 1] == c then Some(|s| - 1)
    else
      var r := LastIndexOf(s[..|s| - 1], c);
      assert r.Some? ==> s[r.value + 1..] == s[..|s| - 1][r.value + 1..] + [s[|s| - 1]];
      assert r.None? ==> s == s[..|s| - 1] + [s[|s| - 1]];
      r
  }

  /** How many characters of `s` satisfy `p`. */
  function CountWhere(s: string, p: char -> bool): nat
  {
    if s == [] then 0 else (if p(s[0]) then 1 else 0) + CountWhere(s[1..], p)
  }

  /** How many times `c` occurs in `s`. */
  function Count(s: string, c: char): nat
  {
    if s == [] then 0 else (if s[0] == c then 1 else 0) + Count(s[1..], c)
  }

  /** `s.replace(/[^...]/g, '')`: the characters of `s` that `keep` admits, in order. */
  function Filter(s: string, keep: char -> bool): (r: string)
    ensures |r| <= |s|
    ensures forall i | 0 <= i < |r| :: keep(r[i])
  {
    if s == [] then [] else (if keep(s[0]) then [s[0]] else []) + Filter(s[1..], keep)
  }

  /** `if (value.length > max) value = value.substring(0, max)`; a bound at or
      below zero gives the empty string, as `substring` clamps it to 0. */
  function Truncate(s: string, maxLength: int): (r: string)
    ensures |r| == if |s| <= maxLength then |s| else if maxLength <= 0 then 0 else maxLength
    ensures r == s[..|r|]
  {
    if |s| > maxLength then (if maxLength <= 0 then [] else s[..maxLength]) else s
  }

  lemma {:induction false} FilterKeepsAll(s: string, keep: char -> bool)
    requires forall i | 0 <= i < |s| :: keep(s[i])
    ensures Filter(s, keep) == s
  {
    if s != [] {
      FilterKeepsAll(s[1..], keep);
    }
  }

  lemma {:induction false} FilterLengthIsCount(s: string, keep: char -> bool)
    ensures |Filter(s, keep)| == CountWhere(s, keep)
  {
    if s != [] {
      FilterLengthIsCount(s[1..], keep);
    }
  }

  lemma {:induction false} FilterSplits(a: string, b: string, keep: char -> bool)
    ensures Filter(a + b, keep) == Filter(a, keep) + Filter(b, keep)
  {
    if a == [] {
      assert a + b == b;
    } else {
      assert (a + b)[1..] == a[1..] + b;
      FilterSplits(a[1..], b, keep);
    }
  }

  // ---------------------------------------------------------------------------
  // E-mail (useEmailValidation)
  // ---------------------------------------------------------------------------

  /** `[^\s@]`: a character allowed in each part of an address. */
  predicate IsEmailChar(c: char) { !IsWhitespace(c) && c != '@' }

  /** The pattern `^[^\s@]+@[^\s@]+\.[^\s@]+$` read literally: a non-empty run
      of address characters, '@', a non-empty run, '.', a non-empty run. */
  ghost predicate MatchesEmailPattern(s: string) {
    exists at, dot ::
      && 0 < at && at + 1 < dot && dot + 1 < |s|
      && s[at] == '@' && s[dot] == '.'
      && (forall k | 0 <= k < |s| && k != at :: IsEmailChar(s[k]))
  }

  /** `isValid` of useEmailValidation: empty input is invalid; otherwise the
      address is split at its first '@' and checked piece by piece. */
  function IsValidEmail(email: string): (valid: bool)
    ensures email == "" ==> !valid
    ensures valid ==> |email| >= 5 && forall i | 0 <= i < |email| :: !IsWhitespace(email[i])
  {
    if email == "" then false
    else
      match IndexOf(email, '@')
      case None => false
      case Some(at) =>
        var domain := email[at + 1..];
        && at > 0
        && '@' !in domain
        && (forall i | 0 <= i < |email| :: !IsWhitespace(email[i]))
        && |domain| >= 3
        && '.' in domain[1..|domain| - 1]
  }

  /** The address check accepts exactly the strings the pattern matches. */
  lemma EmailValidIffPattern(email: string)
    ensures IsValidEmail(email) <==> MatchesEmailPattern(email)
  {
    if IsValidEmail(email) {
      var at := IndexOf(email, '@').value;
      var domain := email[at + 1..];
      var inner := domain[1..|domain| - 1];
      var j :| 0 <= j < |inner| && inner[j] == '.';
      var dot := at + 2 + j;
      assert email[dot] == '.';
      forall k | 0 <= k < |email| && k != at
        ensures IsEmailChar(email[k])
      {
        if k < at {
          assert email[k] in email[..at];
        } else {
          assert email[k] == domain[k - at - 1];
        }
      }
    }
    if MatchesEmailPattern(email) {
      var at, dot :| && 0 < at && at + 1 < dot && dot + 1 < |email|
                     && email[at] == '@' && email[dot] == '.'
                     && (forall k | 0 <= k < |email| && k != at :: IsEmailChar(email[k]));
      var found := IndexOf(email, '@');
      assert found.Some? by { assert email[at] in email; }
      assert found.value == at;
      var domain := email[at + 1..];
      assert '@' !in domain by {
        forall i | 0 <= i < |domain| ensures domain[i] != '@' {
          assert domain[i] == email[at + 1 + i];
        }
      }
      assert domain[1..|domain| - 1][dot - at - 2] == '.';
    }
  }

  // ---------------------------------------------------------------------------
  // Ecuadorian cédula (useEcuadorianCedulaValidation)
  // ---------------------------------------------------------------------------

  /** The coefficients applied to the first nine digits. */
  const Coefficients: seq<nat> := [2, 1, 2, 1, 2, 1, 2, 1, 2]

  /** A product of ten or more has 9 subtracted from it. */
  function Adjusted(product: nat): nat { if product >= 10 then product - 9 else product }

  /** The sum of the adjusted coefficient products of the first `n` digits. */
  function WeightedSum(s: string, n: nat): nat
    requires n <= 9 && n <= |s| && AllDigits(s)
  {
    if n == 0 then 0
    else WeightedSum(s, n - 1) + Adjusted(DigitValue(s[n - 1]) * Coefficients[n - 1])
  }

  /** The expected tenth digit: the digit that brings the sum to a multiple of ten. */
  function CheckDigit(sum: nat): (d: nat)
    ensures d < 10
    ensures (sum + d) % 10 == 0
  {
    var remainder := sum % 10;
    if remainder == 0 then 0 else 10 - remainder
  }

  /** The province code: the number formed by the first two digits. */
  function Province(s: string): nat
    requires |s| >= 2 && IsDigit(s[0]) && IsDigit(s[1])
  {
    10 * DigitValue(s[0]) + DigitValue(s[1])
  }

  /** What the validator accepts: ten ASCII digits, a province code in 1..24,
      a third digit of at most 5, and a tenth digit equal to the check digit. */
  ghost predicate IsValidCedula(s: string) {
    && |s| == 10
    && AllDigits(s)
    && 1 <= Province(s) <= 24
    && DigitValue(s[2]) <= 5
    && CheckDigit(WeightedSum(s, 9)) == DigitValue(s[9])
  }

  /** `isValid` of useEcuadorianCedulaValidation, accumulating the sum in a loop
      as the source does. */
  method ValidateCedula(value: string) returns (isValid: bool)
    ensures isValid <==> IsValidCedula(value)
  {
    if value == "" || |value| != 10 || !AllDigits(value) {
      return false;
    }
    var province := 10 * DigitValue(value[0]) + DigitValue(value[1]);
    if province < 1 || province > 24 {
      return false;
    }
    var thirdDigit := DigitValue(value[2]);
    if thirdDigit > 5 {
      return false;
    }
    var sum := 0;
    for i := 0 to 9
      invariant sum == WeightedSum(value, i)
    {
      var product := DigitValue(value[i]) * Coefficients[i];
      sum := sum + (if product >= 10 then product - 9 else product);
    }
    var remainder := sum % 10;
    var expected := if remainder == 0 then 0 else 10 - remainder;
    isValid := expected == DigitValue(value[9]);
  }

  /** A number used in worked examples of the scheme: the adjusted products
      of 171003406 sum to 25, so the check digit is 5. */
  lemma CedulaAccepted()
    ensures IsValidCedula("1710034065")
  {
    var s := "1710034065";
    assert AllDigits(s);
    assert WeightedSum(s, 3) == 11;
    assert WeightedSum(s, 6) == 14;
    assert WeightedSum(s, 9) == 25;
  }

  /** The same number with another tenth digit, an eleventh digit, or a letter
      is rejected; so are a province code above 24 and a third digit above 5. */
  lemma CedulaRejected()
    ensures !IsValidCedula("1710034066")
    ensures !IsValidCedula("17100340651")
    ensures !IsValidCedula("171003406a")
    ensures !IsValidCedula("2510034065")
    ensures !IsValidCedula("1770034065")
  {
    var t := "1710034066";
    CedulaAccepted();
    SingleDigitErrorDetected("1710034065", t, 9);
    assert !IsDigit("171003406a"[9]);
    assert Province("2510034065") == 25;
    assert DigitValue("1770034065"[2]) == 7;
  }

  /** Adjusting a one-digit product by 2 or 1 loses no information. */
  lemma AdjustedInjective(a: nat, b: nat, coefficient: nat)
    requires a < 10 && b < 10 && coefficient in {1, 2} && a != b
    ensures Adjusted(a * coefficient) != Adjusted(b * coefficient)
    ensures Adjusted(a * coefficient) < 10 && Adjusted(b * coefficient) < 10
  {
  }

  /** Changing one digit among the first nine moves the sum by the difference
      of that digit's adjusted products. */
  lemma {:induction false} WeightedSumOneChange(s: string, t: string, p: nat, n: nat)
    requires |s| == |t| && AllDigits(s) && AllDigits(t) && p < 10 && n <= 9 && n <= |s|
    requires forall i | 0 <= i < |s| && i != p :: s[i] == t[i]
    ensures n <= p ==> WeightedSum(s, n) == WeightedSum(t, n)
    ensures p < n && p < |s| ==>
      WeightedSum(t, n) - WeightedSum(s, n)
        == Adjusted(DigitValue(t[p]) * Coefficients[p]) - Adjusted(DigitValue(s[p]) * Coefficients[p])
  {
    if n > 0 {
      WeightedSumOneChange(s, t, p, n - 1);
    }
  }

  /** The check digit catches every single-digit error: a valid number with
      one digit changed is never valid. */
  lemma SingleDigitErrorDetected(s: string, t: string, p: nat)
    requires IsValidCedula(s) && |t| == 10 && p < 10 && s[p] != t[p]
    requires forall i | 0 <= i < 10 && i != p :: s[i] == t[i]
    ensures !IsValidCedula(t)
  {
    if IsValidCedula(t) && p == 9 {
      WeightedSumOneChange(s, t, p, 9);
    } else if IsValidCedula(t) {
      WeightedSumOneChange(s, t, p, 9);
      var c := Coefficients[p];
      assert c in {1, 2};
      AdjustedInjective(DigitValue(s[p]), DigitValue(t[p]), c);
      var ss := WeightedSum(s, 9);
      var st := WeightedSum(t, 9);
      CheckDigitDeterminesRemainder(ss, st);
      ShiftChangesRemainder(ss, Adjusted(DigitValue(s[p]) * c), Adjusted(DigitValue(t[p]) * c));
    }
  }

  /** Two sums with the same check digit agree modulo 10. */
  lemma CheckDigitDeterminesRemainder(a: nat, b: nat)
    requires CheckDigit(a) == CheckDigit(b)
    ensures a % 10 == b % 10
  {
  }

  lemma ShiftChangesRemainder(x: int, old_: int, new_: int)
    requires 0 <= old_ < 10 && 0 <= new_ < 10 && old_ != new_
    ensures (x + new_ - old_) % 10 != x % 10
  {
  }

  /** Any nine-digit prefix with an admissible province and third digit has
      exactly one accepted tenth digit: the check digit. */
  lemma CedulaCompletion(prefix: string, last: char)
    requires |prefix| == 9 && AllDigits(prefix) && IsDigit(last)
    requires 1 <= Province(prefix) <= 24 && DigitValue(prefix[2]) <= 5
    ensures IsValidCedula(prefix + [last]) <==> DigitValue(last) == CheckDigit(WeightedSum(prefix, 9))
  {
    var s := prefix + [last];
    assert AllDigits(s);
    WeightedSumPrefix(prefix, s, 9);
  }

  lemma {:induction false} WeightedSumPrefix(prefix: string, s: string, n: nat)
    requires AllDigits(prefix) && AllDigits(s) && n <= 9 && n <= |prefix| && prefix <= s
    ensures WeightedSum(prefix, n) == WeightedSum(s, n)
  {
    if n > 0 {
      WeightedSumPrefix(prefix, s, n - 1);
    }
  }

  // ---------------------------------------------------------------------------
  // Password strength (usePasswordStrength)
  // ---------------------------------------------------------------------------

  /** What the scorer returns; `isSecure` is missing for an empty password. */
  datatype Strength = Strength(score: nat, labelText: string, color: string, isSecure: Option<bool>)

  predicate HasLower(v: string) { exists i | 0 <= i < |v| :: IsLower(v[i]) }
  predicate HasUpper(v: string) { exists i | 0 <= i < |v| :: IsUpper(v[i]) }
  predicate HasDigit(v: string) { exists i | 0 <= i < |v| :: IsDigit(v[i]) }
  /** `/[^a-zA-Z0-9]/`: a character that is not an ASCII letter or digit. */
  predicate HasSpecial(v: string) { exists i | 0 <= i < |v| :: !IsAsciiAlnum(v[i]) }

  function Point(b: bool): nat { if b then 1 else 0 }

  /** The number of criteria met: length of at least 6, a lower-case letter,
      an upper-case letter, a digit, a special character. */
  function CriteriaMet(v: string): nat {
    Point(|v| >= 6) + Point(HasLower(v)) + Point(HasUpper(v)) + Point(HasDigit(v)) + Point(HasSpecial(v))
  }

  /** The score: the criteria met, capped at 2 for passwords shorter than 6. */
  function Score(v: string): nat {
    if |v| < 6 then Min(CriteriaMet(v), 2) else CriteriaMet(v)
  }

  /** The label and Bootstrap colour shown for a score. */
  function Grade(score: nat): (string, string) {
    if score == 1 || score == 2 then ("Débil", "warning")
    else if score == 3 then ("Media", "info")
    else if score == 4 || score == 5 then ("Fuerte", "success")
    else ("Muy Débil", "danger")
  }

  /** The business rule for storing a password: score of 3 or more and a
      length from 6 to 8. */
  predicate IsSecure(v: string) { Score(v) >= 3 && 6 <= |v| <= 8 }

  /** `strength` of usePasswordStrength, incrementing the score one criterion
      at a time. */
  method PasswordStrength(value: string) returns (strength: Strength)
    ensures value == "" ==> strength == Strength(0, "", "danger", None)
    ensures value != "" ==>
      && strength.score == Score(value)
      && (strength.labelText, strength.color) == Grade(strength.score)
      && strength.isSecure == Some(IsSecure(value))
  {
    var score := 0;
    if value == "" {
      return Strength(0, "", "danger", None);
    }
    if |value| >= 6 { score := score + 1; }
    if HasLower(value) { score := score + 1; }
    if HasUpper(value) { score := score + 1; }
    if HasDigit(value) { score := score + 1; }
    if HasSpecial(value) { score := score + 1; }
    if |value| < 6 { score := Min(score, 2); }

    var labelText := "Muy Débil";
    var color := "danger";
    if score == 1 || score == 2 {
      labelText, color := "Débil", "warning";
    } else if score == 3 {
      labelText, color := "Media", "info";
    } else if score == 4 || score == 5 {
      labelText, color := "Fuerte", "success";
    }
    var isSecure := score >= 3 && |value| >= 6 && |value| <= 8;
    strength := Strength(score, labelText, color, Some(isSecure));
  }

  /** The score lies in 0..5, is at most 2 below length 6, and is at least 1
      for any non-empty password, since every character falls in one class. */
  lemma ScoreBounds(v: string)
    ensures Score(v) <= 5
    ensures |v| < 6 ==> Score(v) <= 2
    ensures v == "" <==> Score(v) == 0
  {
    if v != "" {
      var c := v[0];
      if IsLower(c) { assert HasLower(v); }
      else if IsUpper(c) { assert HasUpper(v); }
      else if IsDigit(c) { assert HasDigit(v); }
      else { assert HasSpecial(v); }
    }
  }

  /** A storable password has length 6..8 and at least two of the four
      character classes; a longer one never is, whatever its score. */
  lemma SecureMeansTwoClasses(v: string)
    ensures IsSecure(v) ==>
      (6 <= |v| <= 8 && Point(HasLower(v)) + Point(HasUpper(v)) + Point(HasDigit(v)) + Point(HasSpecial(v)) >= 2)
    ensures |v| > 8 ==> !IsSecure(v)
  {
  }

  /** The label follows the score band. */
  lemma GradeBands(score: nat)
    requires score <= 5
    ensures Grade(score).1 == "danger" <==> score == 0
    ensures Grade(score).1 == "warning" <==> 1 <= score <= 2
    ensures Grade(score).1 == "info" <==> score == 3
    ensures Grade(score).1 == "success" <==> 4 <= score
  {
  }

  lemma PasswordExamples()
    ensures Score("abc") == 1 && Grade(Score("abc")).0 == "Débil"
    ensures Score("Abc123") == 4 && IsSecure("Abc123")
    ensures Score("Abc123!!") == 5 && IsSecure("Abc123!!")
    ensures Score("Abc123!!!") == 5 && !IsSecure("Abc123!!!")
  {
    var a := "abc";
    assert IsLower(a[0]) && !HasUpper(a) && !HasDigit(a) && !HasSpecial(a);
    var b := "Abc123";
    assert IsUpper(b[0]) && IsLower(b[1]) && IsDigit(b[3]) && !HasSpecial(b);
    var c := "Abc123!!";
    assert IsUpper(c[0]) && IsLower(c[1]) && IsDigit(c[3]) && !IsAsciiAlnum(c[6]);
    var d := "Abc123!!!";
    assert IsUpper(d[0]) && IsLower(d[1]) && IsDigit(d[3]) && !IsAsciiAlnum(d[6]);
  }

  // ---------------------------------------------------------------------------
  // Live formatters
  // ---------------------------------------------------------------------------

  /** `event.target`: the input field whose value a formatter rewrites. */
  class InputField {
    var value: string

    constructor (value: string)
      ensures this.value == value
    {
      this.value := value;
    }
  }

  /** Every character filter followed by a length cap. */
  function Format(s: string, keep: char -> bool, maxLength: int): string {
    Truncate(Filter(s, keep), maxLength)
  }

  /** The laws every filtering formatter obeys: only admitted characters, at
      most the cap, a prefix of the filtered input, and a second application
      changes nothing. */
  lemma {:induction false} FormatLaws(s: string, keep: char -> bool, maxLength: int)
    ensures var r := Format(s, keep, maxLength);
      && (forall i | 0 <= i < |r| :: keep(r[i]))
      && |r| <= (if maxLength <= 0 then 0 else maxLength)
      && r == Filter(s, keep)[..|r|]
      && Format(r, keep, maxLength) == r
  {
    var r := Format(s, keep, maxLength);
    assert forall i | 0 <= i < |r| :: keep(r[i]) by {
      var f := Filter(s, keep);
      forall i | 0 <= i < |r| ensures keep(r[i]) {
        assert r[i] == f[i];
      }
    }
    FilterKeepsAll(r, keep);
  }

  /** `/[^a-zA-Z\sñÑáéíóúÁÉÍÓÚ]/`: ASCII letters, every `\s` character, and
      the Spanish letters listed. */
  predicate IsLetterChar(c: char) {
    IsLower(c) || IsUpper(c) || IsWhitespace(c) || c in "ñÑáéíóúÁÉÍÓÚ"
  }

  /** `/[^0-9()-. ]/`: inside the class, `)-.` is the range from ')' to '.',
      which also admits '*', '+' and ','. */
  predicate IsFaxChar(c: char) {
    IsDigit(c) || c == '(' || (')' <= c <= '.') || c == ' '
  }

  /** The fax class spelled out. */
  lemma FaxCharsSpelledOut(c: char)
    ensures IsFaxChar(c) <==> IsDigit(c) || c in "()*+,-. "
  {
  }

  method FormatOnlyLetters(field: InputField, maxLength: int := 25) returns (cleaned: string)
    modifies field
    ensures cleaned == Format(old(field.value), IsLetterChar, maxLength)
    ensures field.value == cleaned
  {
    var value := field.value;
    value := Filter(value, IsLetterChar);
    if |value| > maxLength {
      value := if maxLength <= 0 then "" else value[..maxLength];
    }
    field.value := value;
    cleaned := value;
  }

  method FormatOnlyInteger(field: InputField, maxLength: int := 6) returns (cleaned: string)
    modifies field
    ensures cleaned == Format(old(field.value), IsDigit, maxLength)
    ensures field.value == cleaned
  {
    var value := field.value;
    value := Filter(value, IsDigit);
    if |value| > maxLength {
      value := if maxLength <= 0 then "" else value[..maxLength];
    }
    field.value := value;
    cleaned := value;
  }

  method FormatPostalCode(field: InputField) returns (cleaned: string)
    modifies field
    ensures cleaned == Format(old(field.value), IsAsciiAlnum, 10)
    ensures field.value == cleaned
  {
    var value := field.value;
    value := Filter(value, IsAsciiAlnum);
    if |value| > 10 {
      value := value[..10];
    }
    field.value := value;
    cleaned := value;
  }

  method FormatFax(field: InputField) returns (cleaned: string)
    modifies field
    ensures cleaned == Format(old(field.value), IsFaxChar, 15)
    ensures field.value == cleaned
  {
    var value := field.value;
    value := Filter(value, IsFaxChar);
    if |value| > 15 {
      value := value[..15];
    }
    field.value := value;
    cleaned := value;
  }

  /** The range admits '*', '+' and ','; letters go. */
  lemma FaxExample()
    ensures Format("a*b,c", IsFaxChar, 15) == "*,"
  {
    assert Filter("c", IsFaxChar) == [];
    assert Filter(",c", IsFaxChar) == ",";
    assert Filter("b,c", IsFaxChar) == ",";
    assert Filter("*b,c", IsFaxChar) == "*,";
  }

  // ---------------------------------------------------------------------------
  // Decimal formatter
  // ---------------------------------------------------------------------------

  predicate IsDecimalChar(c: char) { IsDigit(c) || c == '.' }

  /** `.replace(/(\..*)\./g, '$1')` on a string of digits and dots. The greedy
      `.*` makes the one match run from the first '.' to the last '.', and the
      replacement keeps all of it but that last '.'; the search then resumes
      after the last '.', where no match remains. So with two or more dots,
      exactly the last one goes. */
  function DropLastExtraDot(s: string): (r: string)
    ensures Count(s, '.') >= 2 ==> |r| == |s| - 1 && Count(r, '.') == Count(s, '.') - 1
    ensures Count(s, '.') < 2 ==> r == s
  {
    if Count(s, '.') >= 2 then
      CountAbsent(s, '.');
      var q := LastIndexOf(s, '.').value;
      var tail := s[q..];
      assert s == s[..q] + tail;
      assert tail == [s[q]] + s[q + 1..];
      CountSplits(s[..q], tail, '.');
      CountSplits([s[q]], s[q + 1..], '.');
      CountSplits(s[..q], s[q + 1..], '.');
      CountAbsent(s[q + 1..], '.');
      s[..q] + s[q + 1..]
    else s
  }

  lemma {:induction false} CountSplits(a: string, b: string, c: char)
    ensures Count(a + b, c) == Count(a, c) + Count(b, c)
  {
    if a == [] {
      assert a + b == b;
    } else {
      assert (a + b)[1..] == a[1..] + b;
      CountSplits(a[1..], b, c);
    }
  }

  lemma {:induction false} CountAbsent(s: string, c: char)
    ensures c !in s <==> Count(s, c) == 0
  {
    if s != [] {
      CountAbsent(s[1..], c);
      assert s == [s[0]] + s[1..];
    }
  }

  /** `s.split(sep)`: the pieces between separators, always at least one. */
  function Split(s: string, sep: char): (parts: seq<string>)
    ensures |parts| == Count(s, sep) + 1
    ensures forall i | 0 <= i < |parts| :: sep !in parts[i]
  {
    if s == [] then [[]]
    else
      var rest := Split(s[1..], sep);
      if s[0] == sep then [[]] + rest
      else [[s[0]] + rest[0]] + rest[1..]
  }

  /** `parts.join(sep)`. */
  function Join(parts: seq<string>, sep: char): string
  {
    if |parts| == 0 then []
    else if |parts| == 1 then parts[0]
    else parts[0] + [sep] + Join(parts[1..], sep)
  }

  /** Splitting and joining again gives back the string. */
  lemma {:induction false} JoinSplit(s: string, sep: char)
    ensures Join(Split(s, sep), sep) == s
  {
    if s != [] {
      var rest := Split(s[1..], sep);
      JoinSplit(s[1..], sep);
      if s[0] == sep {
        assert Split(s, sep) == [[]] + rest;
        assert Join(Split(s, sep), sep) == [] + [sep] + Join(rest, sep);
      } else {
        if |rest| > 1 {
          assert Join(Split(s, sep), sep) == [s[0]] + rest[0] + [sep] + Join(rest[1..], sep);
        }
      }
      assert s == [s[0]] + s[1..];
    }
  }

  /** Joining separator-free pieces and splitting again gives back the pieces. */
  lemma {:induction false} SplitJoin(parts: seq<string>, sep: char)
    requires |parts| >= 1
    requires forall i | 0 <= i < |parts| :: sep !in parts[i]
    ensures Split(Join(parts, sep), sep) == parts
  {
    if |parts| == 1 {
      SplitPlain(parts[0], sep);
    } else {
      SplitJoin(parts[1..], sep);
      var tail := [sep] + Join(parts[1..], sep);
      SplitAfterPlain(parts[0], tail, sep);
      assert Join(parts, sep) == parts[0] + tail;
      assert tail[0] == sep && tail[1..] == Join(parts[1..], sep);
      assert Split(tail, sep) == [[]] + parts[1..];
      assert Split(tail, sep)[0] == [] && Split(tail, sep)[1..] == parts[1..];
      assert parts[0] + [] == parts[0];
      assert [parts[0]] + parts[1..] == parts;
    }
  }

  lemma {:induction false} SplitPlain(a: string, sep: char)
    requires sep !in a
    ensures Split(a, sep) == [a]
  {
    if a != [] {
      SplitPlain(a[1..], sep);
      assert a == [a[0]] + a[1..];
    }
  }

  lemma {:induction false} SplitAfterPlain(a: string, t: string, sep: char)
    requires sep !in a
    ensures Split(a + t, sep) == [a + Split(t, sep)[0]] + Split(t, sep)[1..]
  {
    if a == [] {
      assert a + t == t;
      var st := Split(t, sep);
      assert a + st[0] == st[0];
      assert [st[0]] + st[1..] == st;
    } else {
      assert a[0] in a;
      assert (a + t)[0] == a[0] != sep;
      assert (a + t)[1..] == a[1..] + t;
      SplitAfterPlain(a[1..], t, sep);
      var rest := Split(a[1..] + t, sep);
      assert Split(a + t, sep) == [[a[0]] + rest[0]] + rest[1..];
      assert [a[0]] + (a[1..] + Split(t, sep)[0]) == a + Split(t, sep)[0];
    }
  }

  /** The integer part keeps at most 6 characters and a non-empty second part
      at most 2; any further parts are left as they are. */
  function LimitParts(parts: seq<string>): (limited: seq<string>)
    requires |parts| >= 1
    ensures |limited| == |parts|
    ensures forall i | 0 <= i < |parts| :: |limited[i]| <= |parts[i]| && limited[i] == parts[i][..|limited[i]|]
    ensures |limited[0]| <= 6 && (|parts| > 1 ==> |limited[1]| <= 2)
    ensures limited[0] == Truncate(parts[0], 6)
    ensures |parts| > 1 ==> limited[1] == Truncate(parts[1], 2)
    ensures forall i | 2 <= i < |parts| :: limited[i] == parts[i]
  {
    var first := if |parts[0]| > 6 then parts[0][..6] else parts[0];
    var withFirst := [first] + parts[1..];
    if |parts| > 1 && parts[1] != "" && |parts[1]| > 2 then withFirst[1 := parts[1][..2]]
    else withFirst
  }

  /** The value formatDecimal computes. */
  function DecimalValue(s: string): string {
    Join(LimitParts(Split(DropLastExtraDot(Filter(s, IsDecimalChar)), '.')), '.')
  }

  method FormatDecimal(field: InputField) returns (cleaned: string)
    modifies field
    ensures cleaned == DecimalValue(old(field.value))
    ensures field.value == cleaned
  {
    var value := field.value;
    value := DropLastExtraDot(Filter(value, IsDecimalChar));
    var parts := Split(value, '.');
    if |parts[0]| > 6 {
      parts := parts[0 := parts[0][..6]];
    }
    if |parts| > 1 && parts[1] != "" && |parts[1]| > 2 {
      parts := parts[1 := parts[1][..2]];
    }
    value := Join(parts, '.');
    field.value := value;
    cleaned := value;
  }

  /** Every character of `s` satisfies `p`. */
  ghost predicate AllChars(s: string, p: char -> bool) {
    forall k | 0 <= k < |s| :: p(s[k])
  }

  lemma {:induction false} JoinChars(parts: seq<string>, sep: char, p: char -> bool)
    requires p(sep)
    requires forall i | 0 <= i < |parts| :: AllChars(parts[i], p)
    ensures AllChars(Join(parts, sep), p)
  {
    if |parts| > 1 {
      JoinChars(parts[1..], sep, p);
      var rest := Join(parts[1..], sep);
      var j := Join(parts, sep);
      assert j == parts[0] + [sep] + rest;
      assert AllChars(parts[0], p);
      forall k | 0 <= k < |j| ensures p(j[k]) {
        if k < |parts[0]| {
          assert j[k] == parts[0][k];
        } else if k == |parts[0]| {
          assert j[k] == sep;
        } else {
          assert j[k] == rest[k - |parts[0]| - 1];
        }
      }
    } else if |parts| == 1 {
      assert AllChars(parts[0], p);
    }
  }

  lemma {:induction false} SplitChars(s: string, sep: char, p: char -> bool)
    requires AllChars(s, p)
    ensures forall i | 0 <= i < |Split(s, sep)| :: AllChars(Split(s, sep)[i], p)
  {
    if s != [] {
      assert AllChars(s[1..], p) by {
        forall k | 0 <= k < |s[1..]| ensures p(s[1..][k]) {
          assert s[1..][k] == s[k + 1];
        }
      }
      SplitChars(s[1..], sep, p);
      var rest := Split(s[1..], sep);
      var parts := Split(s, sep);
      if s[0] == sep {
        assert parts == [[]] + rest;
        forall i | 0 <= i < |parts| ensures AllChars(parts[i], p) {
          if i > 0 {
            assert parts[i] == rest[i - 1];
          }
        }
      } else {
        var first := [s[0]] + rest[0];
        assert parts == [first] + rest[1..];
        assert AllChars(rest[0], p);
        assert AllChars(first, p) by {
          forall j | 0 <= j < |first| ensures p(first[j]) {
            if j == 0 {
              assert first[j] == s[0];
            } else {
              assert first[j] == rest[0][j - 1];
            }
          }
        }
        forall i | 0 <= i < |parts| ensures AllChars(parts[i], p) {
          if i > 0 {
            assert parts[i] == rest[i];
          }
        }
      }
    }
  }

  /** The decimal formatter yields only digits and dots, an integer part of at
      most 6 characters and a next part of at most 2. */
  lemma DecimalLaws(s: string)
    ensures var r := DecimalValue(s);
      && (forall k | 0 <= k < |r| :: IsDecimalChar(r[k]))
      && |Split(r, '.')[0]| <= 6
      && (|Split(r, '.')| > 1 ==> |Split(r, '.')[1]| <= 2)
  {
    var f := Filter(s, IsDecimalChar);
    var cleaned := DropLastExtraDot(f);
    assert AllChars(cleaned, IsDecimalChar) by {
      if Count(f, '.') >= 2 {
        CountAbsent(f, '.');
        var q := LastIndexOf(f, '.').value;
        forall k | 0 <= k < |cleaned| ensures IsDecimalChar(cleaned[k]) {
          if k < q { assert cleaned[k] == f[k]; } else { assert cleaned[k] == f[k + 1]; }
        }
      }
    }
    var parts := Split(cleaned, '.');
    SplitChars(cleaned, '.', IsDecimalChar);
    var limited := LimitParts(parts);
    forall i | 0 <= i < |limited|
      ensures AllChars(limited[i], IsDecimalChar) && '.' !in limited[i]
    {
      assert AllChars(parts[i], IsDecimalChar);
      forall j | 0 <= j < |limited[i]| ensures IsDecimalChar(limited[i][j]) && limited[i][j] != '.' {
        assert limited[i][j] == parts[i][j];
        assert parts[i][j] in parts[i];
      }
    }
    JoinChars(limited, '.', IsDecimalChar);
    SplitJoin(limited, '.');
  }

  /** LimitParts computed piece by piece. */
  lemma LimitPartsOf(parts: seq<string>, limited: seq<string>)
    requires |parts| >= 1 && |limited| == |parts|
    requires limited[0] == (if |parts[0]| > 6 then parts[0][..6] else parts[0])
    requires |parts| > 1 ==>
      limited[1] == (if parts[1] != "" && |parts[1]| > 2 then parts[1][..2] else parts[1])
    requires forall i | 2 <= i < |parts| :: limited[i] == parts[i]
    ensures LimitParts(parts) == limited
  {
  }

  /** With two or more dots, the dot that goes is the last one. */
  lemma DropLastExtraDotAt(s: string, before: string, after: string)
    requires s == before + "." + after && '.' !in after && Count(s, '.') >= 2
    ensures DropLastExtraDot(s) == before + after
  {
    CountAbsent(s, '.');
    var q := LastIndexOf(s, '.').value;
    assert s[|before|] == '.';
    assert q == |before|;
    assert s[..q] == before && s[q + 1..] == after;
  }

  /** A string of digits and dots that is `parts` joined by dots. */
  lemma DotsOfJoin(parts: seq<string>)
    requires |parts| >= 1 && forall i | 0 <= i < |parts| :: '.' !in parts[i]
    ensures Count(Join(parts, '.'), '.') == |parts| - 1
  {
    SplitJoin(parts, '.');
  }

  /** formatDecimal on a clean input whose extra dot is dropped to give `parts`. */
  lemma DecimalValueFromParts(s: string, parts: seq<string>)
    requires AllChars(s, IsDecimalChar)
    requires |parts| >= 1 && forall i | 0 <= i < |parts| :: '.' !in parts[i]
    requires DropLastExtraDot(s) == Join(parts, '.')
    ensures DecimalValue(s) == Join(LimitParts(parts), '.')
  {
    FilterKeepsAll(s, IsDecimalChar);
    SplitJoin(parts, '.');
  }

  /** formatDecimal on a clean input with two or more dots, the last of which
      sits between `before` and `after`. */
  lemma DecimalValueAfterDrop(s: string, before: string, after: string, parts: seq<string>)
    requires AllChars(s, IsDecimalChar) && Count(s, '.') >= 2
    requires s == before + "." + after && '.' !in after
    requires |parts| >= 1 && forall i | 0 <= i < |parts| :: '.' !in parts[i]
    requires before + after == Join(parts, '.')
    ensures DecimalValue(s) == Join(LimitParts(parts), '.')
  {
    DropLastExtraDotAt(s, before, after);
    DecimalValueFromParts(s, parts);
  }

  // The worked examples below take their input as a parameter fixed by the
  // precondition: with a literal argument the verifier evaluates DecimalValue
  // in full at every mention, which costs far more than the stepwise proof.

  /** A second dot goes, then the fractional part is cut to two digits. */
  lemma DecimalSecondDotDropped(s: string)
    requires s == "12.345.6"
    ensures DecimalValue(s) == "12.34"
  {
    assert AllChars(s, IsDecimalChar);
    DecimalTwoDotsParts(s, "12", "345", "6");
    assert "345" + "6" == "3456";
    LimitPartsOf(["12", "3456"], ["12", "34"]);
  }

  /** formatDecimal on any clean input with exactly two dots: the second dot
      goes, joining the pieces either side of it into the fractional part. */
  lemma DecimalTwoDotsParts(s: string, a: string, b: string, c: string)
    requires s == a + "." + b + "." + c && AllChars(s, IsDecimalChar)
    requires '.' !in a && '.' !in b && '.' !in c
    ensures DecimalValue(s) == Join(LimitParts([a, b + c]), '.')
  {
    assert Count(s, '.') == 2 by {
      assert [a, b, c][1..] == [b, c] && [b, c][1..] == [c];
      assert Join([b, c], '.') == b + "." + c;
      assert s == Join([a, b, c], '.');
      DotsOfJoin([a, b, c]);
    }
    assert '.' !in b + c;
    assert [a, b + c][1..] == [b + c];
    assert (a + "." + b) + c == Join([a, b + c], '.');
    DecimalValueAfterDrop(s, a + "." + b, c, [a, b + c]);
  }

  /** The integer part is cut to six digits. */
  lemma DecimalIntegerPartCut(s: string)
    requires s == "1234567.89"
    ensures DecimalValue(s) == "123456.89"
  {
    DecimalOneDot(s, ["1234567", "89"]);
    LimitPartsOf(["1234567", "89"], ["123456", "89"]);
  }

  lemma DecimalOneDot(s: string, parts: seq<string>)
    requires s == "1234567.89" && parts == ["1234567", "89"]
    ensures DecimalValue(s) == Join(LimitParts(parts), '.')
  {
    assert AllChars(s, IsDecimalChar);
    assert s == Join(parts, '.');
    DotsOfJoin(parts);
    assert DropLastExtraDot(s) == s;
    DecimalValueFromParts(s, parts);
  }

  /** With three dots only the last goes, so a dot remains after the second
      part, and formatting the result again changes it: the formatter is not
      idempotent. */
  lemma DecimalThreeDotsKeepExtraDot(s: string)
    requires s == "1.2.3.4"
    ensures DecimalValue(s) == "1.2.34"
    ensures DecimalValue(DecimalValue(s)) == "1.23"
  {
    DecimalThreeDotsOnce(s);
    var t := DecimalValue(s);
    assert AllChars(t, IsDecimalChar);
    DecimalTwoDotsParts(t, "1", "2", "34");
    assert "2" + "34" == "234";
    LimitPartsOf(["1", "234"], ["1", "23"]);
  }

  lemma DecimalThreeDotsOnce(s: string)
    requires s == "1.2.3.4"
    ensures DecimalValue(s) == "1.2.34"
  {
    DecimalThreeDotsParts(s, ["1", "2", "34"]);
    LimitPartsOf(["1", "2", "34"], ["1", "2", "34"]);
  }

  lemma DecimalThreeDotsParts(s: string, parts: seq<string>)
    requires s == "1.2.3.4" && parts == ["1", "2", "34"]
    ensures DecimalValue(s) == Join(LimitParts(parts), '.')
  {
    assert Count(s, '.') == 3 by {
      assert s == Join(["1", "2", "3", "4"], '.');
      DotsOfJoin(["1", "2", "3", "4"]);
    }
    assert AllChars(s, IsDecimalChar);
    assert Join(parts[1..], '.') == "2.34";
    assert "1.2.3" + "4" == Join(parts, '.');
    DecimalValueAfterDrop(s, "1.2.3", "4", parts);
  }

  // ---------------------------------------------------------------------------
  // Optional phone and URL fields
  // ---------------------------------------------------------------------------

  /** isValidPhone: an empty field is accepted; otherwise the input must hold
      exactly ten digits, whatever formatting surrounds them. */
  function IsValidPhone(phone: string): (valid: bool)
    ensures valid <==> phone == "" || CountWhere(phone, IsDigit) == 10
  {
    FilterLengthIsCount(phone, IsDigit);
    phone == "" || |Filter(phone, IsDigit)| == 10
  }

  /** isValidUrl: an empty field is accepted; a non-empty one takes the
      verdict of the URL parser, passed in as `parserAccepts`. */
  function IsValidUrl(url: string, parserAccepts: bool): (valid: bool)
    ensures url == "" ==> valid
    ensures url != "" ==> valid == parserAccepts
  {
    if url == "" then true else parserAccepts
  }
}
