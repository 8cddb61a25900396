/** The few pieces of JavaScript string semantics the handlers rely on:
    the `\s` character class, `trim()`, `split(sep).pop()` and `parseInt`. */
module JsText {
  import opened Common

  /** ECMAScript WhiteSpace and LineTerminator code points: the set matched by
      `\s`, removed by `trim()`, and skipped by `parseInt` before the number. */
  predicate IsWhitespace(c: char) {
    || c == '\t' || c == '\n' || c == '\U{000B}' || c == '\U{000C}' || c == '\r' || c == ' '
    || c == '\U{00A0}' || c == '\U{1680}' || ('\U{2000}' <= c <= '\U{200A}')
    || c == '\U{2028}' || c == '\U{2029}' || c == '\U{202F}' || c == '\U{205F}'
    || c == '\U{3000}' || c == '\U{FEFF}'
  }

  /** `s.trimStart()`: the longest suffix of `s` that does not start with whitespace. */
  function TrimStart(s: string): (r: string)
    ensures |r| <= |s| && r == s[|s| - |r|..]
    ensures forall i :: 0 <= i < |s| - |r| ==> IsWhitespace(s[i])
    ensures r == [] || !IsWhitespace(r[0])
  {
    if |s| > 0 && IsWhitespace(s[0]) then TrimStart(s[1..]) else s
  }

  /** `s.trimEnd()`: the longest prefix of `s` that does not end with whitespace. */
  function TrimEnd(s: string): (r: string)
    ensures |r| <= |s| && r == s[..|r|]
    ensures forall i :: |r| <= i < |s| ==> IsWhitespace(s[i])
    ensures r == [] || !IsWhitespace(r[|r| - 1])
  {
    if |s| > 0 && IsWhitespace(s[|s| - 1]) then TrimEnd(s[..|s| - 1]) else s
  }

  /** `s.trim()` */
  function Trim(s: string): (r: string)
    ensures |r| <= |s|
    ensures r == [] || (!IsWhitespace(r[0]) && !IsWhitespace(r[|r| - 1]))
  {
    TrimEnd(TrimStart(s))
  }

  /** `s.trim()` is empty exactly when every character of `s` is whitespace. */
  lemma TrimEmptyIffBlank(s: string)
    ensures |Trim(s)| == 0 <==> forall i :: 0 <= i < |s| ==> IsWhitespace(s[i])
  {
  }

  /** `s.split(sep).pop()`: the text after the last `sep`, or all of `s` when
      it holds no `sep`. */
  function AfterLast(s: string, sep: char): (r: string)
    ensures sep !in r
    ensures |r| <= |s| && r == s[|s| - |r|..]
    ensures |r| < |s| ==> s[|s| - |r| - 1] == sep
  {
    if |s| == 0 then s
    else if s[|s| - 1] == sep then []
    else AfterLast(s[..|s| - 1], sep) + [s[|s| - 1]]
  }

  predicate IsLowerAscii(c: char) {
    'a' <= c <= 'z'
  }

  /** `s.toUpperCase()` on the ASCII letters: each lower-case letter becomes
      its capital, every other character is kept. */
  function ToUpperAscii(s: string): (r: string)
    ensures |r| == |s|
    ensures forall i :: 0 <= i < |s| ==> !IsLowerAscii(r[i])
    ensures forall i :: 0 <= i < |s| && !IsLowerAscii(s[i]) ==> r[i] == s[i]
    ensures forall i :: 0 <= i < |s| && IsLowerAscii(s[i]) ==> r[i] == (s[i] as int - 32) as char
  {
    if |s| == 0 then []
    else
      var c := s[0];
      [if IsLowerAscii(c) then (c as int - 32) as char else c] + ToUpperAscii(s[1..])
  }

  /** The value of a hexadecimal digit, and 16 for any other character. */
  function HexValue(c: char): (v: nat)
    ensures v <= 16
  {
    if '0' <= c <= '9' then (c as int) - ('0' as int)
    else if 'a' <= c <= 'f' then (c as int) - ('a' as int) + 10
    else if 'A' <= c <= 'F' then (c as int) - ('A' as int) + 10
    else 16
  }

  predicate IsRadixDigit(c: char, radix: nat) {
    HexValue(c) < radix
  }

  /** Length of the longest prefix of `s` made of digits in `radix`. */
  function DigitRun(s: string, radix: nat): (n: nat)
    ensures n <= |s|
    ensures forall i :: 0 <= i < n ==> IsRadixDigit(s[i], radix)
    ensures n < |s| ==> !IsRadixDigit(s[n], radix)
  {
    if |s| > 0 && IsRadixDigit(s[0], radix) then 1 + DigitRun(s[1..], radix) else 0
  }

  /** The value of a string of digits in `radix`, most significant first. */
  function DigitsValue(s: string, radix: nat): nat
    requires forall i :: 0 <= i < |s| ==> IsRadixDigit(s[i], radix)
  {
    if |s| == 0 then 0
    else
      var init := s[..|s| - 1];
      assert forall i :: 0 <= i < |init| ==> init[i] == s[i];
      var high: nat := DigitsValue(init, radix);
      var shifted: nat := high * radix;
      shifted + HexValue(s[|s| - 1])
  }

  /** The unsigned part of `parseInt`: base 16 after a `0x`/`0X` prefix,
      base 10 otherwise, then the longest run of digits; `None` when there is
      no digit at all. */
  function ParseUnsigned(u: string): Option<nat> {
    var hex := |u| >= 2 && u[0] == '0' && (u[1] == 'x' || u[1] == 'X');
    var radix := if hex then 16 else 10;
    var v := if hex then u[2..] else u;
    var n := DigitRun(v, radix);
    if n == 0 then None else Some(DigitsValue(v[..n], radix))
  }

  /** `parseInt(s)` with no radix: skip leading whitespace, read an optional
      sign, then the unsigned part. `None` stands for `NaN`. */
  function ParseInt(s: string): Option<int> {
    var t := TrimStart(s);
    var negative := |t| > 0 && t[0] == '-';
    var u := if |t| > 0 && (t[0] == '-' || t[0] == '+') then t[1..] else t;
    match ParseUnsigned(u)
    case None => None
    case Some(m) =>
      var value: int := m;
      if negative then Some(-value) else Some(value)
  }

  lemma {:induction false} DigitsValueOfNat(n: nat)
    ensures forall i :: 0 <= i < |NatToString(n)| ==> IsRadixDigit(NatToString(n)[i], 10)
    ensures DigitsValue(NatToString(n), 10) == n
    decreases n
  {
    var s := NatToString(n);
    if n >= 10 {
      DigitsValueOfNat(n / 10);
      assert s[..|s| - 1] == NatToString(n / 10);
    }
  }

  lemma {:induction false} DigitRunOfDigits(s: string, radix: nat)
    requires forall i :: 0 <= i < |s| ==> IsRadixDigit(s[i], radix)
    ensures DigitRun(s, radix) == |s|
    decreases |s|
  {
    if |s| > 0 {
      DigitRunOfDigits(s[1..], radix);
    }
  }

  lemma ParseUnsignedOfNat(n: nat)
    ensures ParseUnsigned(NatToString(n)) == Some(n)
  {
    var d := NatToString(n);
    DigitsValueOfNat(n);
    DigitRunOfDigits(d, 10);
    assert |d| >= 2 ==> IsDigit(d[1]);
    assert d[..|d|] == d;
  }

  /** The digit run of digits followed by a non-digit stops at the non-digit. */
  lemma {:induction false} DigitRunBeforeNonDigit(s: string, rest: string, radix: nat)
    requires forall i :: 0 <= i < |s| ==> IsRadixDigit(s[i], radix)
    requires |rest| > 0 && !IsRadixDigit(rest[0], radix)
    ensures DigitRun(s + rest, radix) == |s|
    decreases |s|
  {
    if |s| > 0 {
      assert (s + rest)[1..] == s[1..] + rest;
      DigitRunBeforeNonDigit(s[1..], rest, radix);
    } else {
      assert s + rest == rest;
    }
  }

  /** The unsigned reader stops at the space after a decimal numeral. */
  lemma ParseUnsignedOfNatThenSpace(n: nat, rest: string)
    ensures ParseUnsigned(NatToString(n) + (" " + rest)) == Some(n)
  {
    var d := NatToString(n);
    var t := d + (" " + rest);
    assert t[1] == if |d| >= 2 then d[1] else ' ';
    assert !(t[0] == '0' && (t[1] == 'x' || t[1] == 'X'));
    DigitsValueOfNat(n);
    DigitRunBeforeNonDigit(d, " " + rest, 10);
    assert t[..|d|] == d;
  }

  /** `parseInt` of a decimal numeral followed by a space and any text reads
      the numeral's value: the text after the space is ignored. */
  lemma ParseIntOfNatThenSpace(n: nat, rest: string)
    ensures ParseInt(NatToString(n) + " " + rest) == Some(n)
  {
    var t := NatToString(n) + " " + rest;
    assert t == NatToString(n) + (" " + rest);
    ParseUnsignedOfNatThenSpace(n, rest);
    ParseIntOfDigitLead(t);
  }

  /** A string that starts with a digit is read without skipping or sign. */
  lemma ParseIntOfDigitLead(t: string)
    requires |t| > 0 && IsDigit(t[0])
    ensures ParseInt(t) == match ParseUnsigned(t) case None => None case Some(m) => Some(m as int)
  {
    assert !IsWhitespace(t[0]);
    assert TrimStart(t) == t;
  }

  /** A string that starts with '-' and then a digit is read as a negative number. */
  lemma ParseIntOfMinusLead(t: string)
    requires |t| > 1 && t[0] == '-' && IsDigit(t[1])
    ensures ParseInt(t) == match ParseUnsigned(t[1..]) case None => None case Some(m) => Some(-(m as int))
  {
    assert !IsWhitespace(t[0]);
    assert TrimStart(t) == t;
  }

  /** A string that starts with a lower-case letter is not a number. */
  lemma ParseIntOfLetterLead(t: string)
    requires |t| > 0 && 'a' <= t[0] <= 'z'
    ensures ParseInt(t) == None
  {
    assert !IsWhitespace(t[0]);
    assert TrimStart(t) == t;
    assert !IsRadixDigit(t[0], 10);
  }

  /** Reading back the decimal text of a natural number. */
  lemma ParseIntOfNatToString(n: nat)
    ensures ParseInt(NatToString(n)) == Some(n)
  {
    ParseIntOfDigitLead(NatToString(n));
    ParseUnsignedOfNat(n);
  }

  /** A '-' before a digit string negates what the digits read as. */
  lemma ParseIntOfNegated(u: string, m: nat)
    requires |u| > 0 && IsDigit(u[0]) && ParseUnsigned(u) == Some(m)
    ensures ParseInt(['-'] + u) == Some(-(m as int))
  {
    var t := ['-'] + u;
    assert t[0] == '-' && !IsWhitespace(t[0]);
    assert TrimStart(t) == t;
    assert t[1..] == u;
  }

  /** Reading back the decimal text of a negative number. */
  lemma ParseIntOfNegative(n: nat)
    ensures ParseInt(['-'] + NatToString(n)) == Some(-(n as int))
  {
    ParseUnsignedOfNat(n);
    ParseIntOfNegated(NatToString(n), n);
  }

  /** Printing a number and reading it back with `parseInt` gives the number. */
  lemma ParseIntOfIntToString(i: int)
    ensures ParseInt(IntToString(i)) == Some(i)
  {
    if i < 0 {
      var n: nat := -i;
      assert IntToString(i) == ['-'] + NatToString(n);
      ParseIntOfNegative(n);
    } else {
      ParseIntOfNatToString(i);
    }
  }

  /** The text after the last separator never reaches back before it: appending
      a separator and a tail makes the tail the result. */
  lemma {:induction false} AfterLastOfAppended(s: string, sep: char, tail: string)
    requires sep !in tail
    ensures AfterLast(s + [sep] + tail, sep) == tail
    decreases |tail|
  {
    var x := s + [sep] + tail;
    if |tail| > 0 {
      var init := tail[..|tail| - 1];
      var last := tail[|tail| - 1];
      AfterLastOfAppended(s, sep, init);
      assert x[..|x| - 1] == s + [sep] + init;
      assert x[|x| - 1] == last;
      assert AfterLast(x, sep) == AfterLast(s + [sep] + init, sep) + [last];
      assert tail == init + [last];
    } else {
      assert x[|x| - 1] == sep;
    }
  }
}
