/** The client-side form validators of the social clone and the constants
    they use: minimum password and username lengths, the e-mail pattern
    `^[^\s@]+@[^\s@]+\.[^\s@]+$`, and the "every field filled" check. */
module Validation {
  import opened JsText

  const MinPasswordLength := 6
  const MinUsernameLength := 3

  /** `validatePassword` */
  predicate ValidatePassword(p: string) {
    |p| >= MinPasswordLength
  }

  /** `validateUsername` */
  predicate ValidateUsername(u: string) {
    |u| >= MinUsernameLength
  }

  /** Extending an accepted password or username keeps it accepted. */
  lemma LengthValidatorsMonotone(s: string, t: string)
    ensures ValidatePassword(s) ==> ValidatePassword(s + t)
    ensures ValidateUsername(s) ==> ValidateUsername(s + t)
  {
  }

  /** The string holds a character `\s` does not match. */
  predicate HasVisible(f: string) {
    exists i :: 0 <= i < |f| && !IsWhitespace(f[i])
  }

  /** One field passes `field && field.trim().length > 0` exactly when it
      holds a non-whitespace character. */
  lemma FieldFilled(f: string)
    ensures (f != "" && |Trim(f)| > 0) <==> HasVisible(f)
  {
    TrimEmptyIffBlank(f);
  }

  /** `fields.every(field => field && field.trim().length > 0)`: true exactly
      when every field holds a non-whitespace character, and vacuously true
      for no fields. */
  function ValidateRequiredFields(fields: seq<string>): (r: bool)
    ensures r <==> forall k :: 0 <= k < |fields| ==> HasVisible(fields[k])
  {
    if |fields| == 0 then true
    else
      FieldFilled(fields[0]);
      var rest := ValidateRequiredFields(fields[1..]);
      assert forall k :: 1 <= k < |fields| ==> fields[k] == fields[1..][k - 1];
      fields[0] != "" && |Trim(fields[0])| > 0 && rest
  }

  /** `[^\s@]` */
  predicate Plain(c: char) {
    !IsWhitespace(c) && c != '@'
  }

  predicate AllPlain(t: string) {
    forall k :: 0 <= k < |t| ==> Plain(t[k])
  }

  /** The e-mail regular expression read as a pattern: an '@' at `i` and a
      '.' at `j` cut the string into three non-empty runs of `[^\s@]`. */
  ghost predicate EmailPattern(s: string) {
    exists i, j :: 0 < i && i + 1 < j && j + 1 < |s| && s[i] == '@' && s[j] == '.'
      && AllPlain(s[..i]) && AllPlain(s[i + 1..j]) && AllPlain(s[j + 1..])
  }

  /** The position of the first `c` in `s`, or `|s|`. */
  function FirstIndex(s: string, c: char): (r: nat)
    ensures r <= |s|
    ensures forall k :: 0 <= k < r ==> s[k] != c
    ensures r < |s| ==> s[r] == c
  {
    if |s| == 0 || s[0] == c then 0 else 1 + FirstIndex(s[1..], c)
  }

  /** `validateEmail`: exactly one '@', after a non-empty local part; no
      whitespace; and a domain holding a '.' that is neither its first nor
      its last character. */
  predicate ValidateEmail(s: string) {
    var i := FirstIndex(s, '@');
    && 0 < i < |s|
    && (forall k :: 0 <= k < |s| && k != i ==> Plain(s[k]))
    && var d := s[i + 1..];
       |d| >= 3 && '.' in d[1..|d| - 1]
  }

  /** The operational reading above accepts exactly the strings the regular
      expression matches. */
  lemma EmailPatternAgrees(s: string)
    ensures ValidateEmail(s) <==> EmailPattern(s)
  {
    if ValidateEmail(s) {
      ValidMatchesPattern(s);
    }
    if EmailPattern(s) {
      var i, j :| 0 < i && i + 1 < j && j + 1 < |s| && s[i] == '@' && s[j] == '.'
        && AllPlain(s[..i]) && AllPlain(s[i + 1..j]) && AllPlain(s[j + 1..]);
      PatternIsValid(s, i, j);
    }
  }

  /** A string of plain characters, cut out of `s`, says so of each of
      those characters of `s`. */
  lemma PlainInSlice(s: string, lo: nat, hi: nat, k: nat)
    requires lo <= k < hi <= |s| && AllPlain(s[lo..hi])
    ensures Plain(s[k])
  {
    assert s[k] == s[lo..hi][k - lo];
  }

  lemma ValidMatchesPattern(s: string)
    requires ValidateEmail(s)
    ensures EmailPattern(s)
  {
    var i := FirstIndex(s, '@');
    var d := s[i + 1..];
    var m :| 0 <= m < |d[1..|d| - 1]| && d[1..|d| - 1][m] == '.';
    var j := i + 2 + m;
    assert s[j] == '.';
    assert Plain('.');
    assert AllPlain(s[..i]);
    assert AllPlain(s[i + 1..j]);
    assert AllPlain(s[j + 1..]);
  }

  lemma PatternIsValid(s: string, i: nat, j: nat)
    requires 0 < i && i + 1 < j && j + 1 < |s| && s[i] == '@' && s[j] == '.'
    requires AllPlain(s[..i]) && AllPlain(s[i + 1..j]) && AllPlain(s[j + 1..])
    ensures ValidateEmail(s)
  {
    forall k | 0 <= k < |s| && k != i
      ensures Plain(s[k])
    {
      if k < i {
        PlainInSlice(s, 0, i, k);
      } else if k < j {
        PlainInSlice(s, i + 1, j, k);
      } else if k > j {
        PlainInSlice(s, j + 1, |s|, k);
      }
    }
    assert FirstIndex(s, '@') == i;
    var d := s[i + 1..];
    assert d[1..|d| - 1][j - i - 2] == '.';
  }

  /** Every accepted address contains '@', so it also passes the weaker
      "includes '@'" check of the registration route. */
  lemma ValidEmailHasAt(s: string)
    requires ValidateEmail(s)
    ensures '@' in s
  {
    assert s[FirstIndex(s, '@')] == '@';
  }
}
