/** The validator.js checks the rule lists use, on the string that
    express-validator's `toString` produced. */
module Validators {
  import opened JsStrings

  predicate IsAsciiLetter(c: char)
  {
    'A' <= c <= 'Z' || 'a' <= c <= 'z'
  }

  predicate IsAsciiAlphanumeric(c: char)
  {
    IsAsciiLetter(c) || IsDigit(c)
  }

  /** `s` without any character listed in `ignore`. */
  function Without(s: string, ignore: string): (r: string)
    ensures |r| <= |s|
    ensures forall c :: c in r <==> c in s && c !in ignore
  {
    if s == [] then []
    else
      assert s == [s[0]] + s[1..];
      (if s[0] in ignore then [] else [s[0]]) + Without(s[1..], ignore)
  }

  /** `isAlpha(str, "en-US", {ignore})`: once the ignored characters are
      removed, what is left is a non-empty run of ASCII letters. */
  predicate IsAlpha(s: string, ignore: string)
  {
    var rest := Without(s, ignore);
    |rest| > 0 && forall i :: 0 <= i < |rest| ==> IsAsciiLetter(rest[i])
  }

  /** `isAlpha` ignoring spaces and hyphens accepts exactly the strings made of
      letters, spaces and hyphens that hold at least one letter. */
  lemma IsAlphaLettersSpacesHyphens(s: string)
    ensures IsAlpha(s, " -") <==>
      (forall i :: 0 <= i < |s| ==> IsAsciiLetter(s[i]) || s[i] == ' ' || s[i] == '-')
      && (exists i :: 0 <= i < |s| && IsAsciiLetter(s[i]))
  {
    var rest := Without(s, " -");
    if IsAlpha(s, " -") {
      forall i | 0 <= i < |s| ensures IsAsciiLetter(s[i]) || s[i] == ' ' || s[i] == '-' {
        if s[i] !in " -" {
          assert s[i] in rest;
        }
      }
      assert rest[0] in s;
    }
    if (forall i :: 0 <= i < |s| ==> IsAsciiLetter(s[i]) || s[i] == ' ' || s[i] == '-')
      && (exists i :: 0 <= i < |s| && IsAsciiLetter(s[i])) {
      var i :| 0 <= i < |s| && IsAsciiLetter(s[i]);
      assert s[i] in rest;
      forall k | 0 <= k < |rest| ensures IsAsciiLetter(rest[k]) {
        assert rest[k] in s;
      }
    }
  }

  /** `isAlphanumeric(str)` with the default "en-US" locale. */
  predicate IsAlphanumeric(s: string)
  {
    |s| > 0 && forall i :: 0 <= i < |s| ==> IsAsciiAlphanumeric(s[i])
  }

  /** The text `isInt` accepts: `^[-+]?[0-9]+$` (leading zeros allowed). */
  predicate IsIntText(s: string)
  {
    |s| > 0 &&
    if s[0] == '-' || s[0] == '+' then |s| > 1 && AllDigits(s[1..]) else AllDigits(s)
  }

  /** The number JavaScript reads from an `IsIntText` string. */
  function IntTextValue(s: string): int
    requires IsIntText(s)
  {
    if s[0] == '-' then -(DigitsValue(s[1..]) as int)
    else if s[0] == '+' then DigitsValue(s[1..])
    else DigitsValue(s)
  }

  /** `isInt(str, {min, max})`. */
  predicate IsInt(s: string, min: int, max: int)
  {
    IsIntText(s) && min <= IntTextValue(s) <= max
  }

  /** The decimal text of an integer is integer text denoting that integer. */
  lemma IntToStringIsIntText(n: int)
    ensures IsIntText(IntToString(n)) && IntTextValue(IntToString(n)) == n
  {
    if n < 0 {
      var s := IntToString(n);
      assert s[1..] == NatToString(-n);
      NatToStringValue(-n);
    } else {
      NatToStringValue(n);
    }
  }

  /** `isInt(String(n), {min, max})` holds exactly when `n` is in range. */
  lemma IsIntOfNumber(n: int, min: int, max: int)
    ensures IsInt(IntToString(n), min, max) <==> min <= n <= max
  {
    IntToStringIsIntText(n);
  }
}
