/**
 * Python's int() applied to a string in base 10, as add_income and add_spend (database.py) use it to
 * read the amount typed by the user: surrounding whitespace is stripped, an optional sign is read,
 * then one or more decimal digits, with single underscores allowed between digits. Anything else makes
 * int() raise ValueError, which is `None` here.
 */
module IntParse {
  import opened Wrappers

  /** An ASCII decimal digit. */
  predicate IsDigit(c: char)
  {
    '0' <= c <= '9'
  }

  /**
   * The characters int() strips around a number: below U+007F only the C-locale blanks (tab, line
   * feed, vertical tab, form feed, carriage return, space); above it every Unicode whitespace
   * character, which int() first maps to a space. U+001C..U+001F are whitespace to str.isspace() but
   * not to int().
   */
  predicate IsSpace(c: char)
  {
    var n := c as int;
    (9 <= n <= 13) || n == 32 || n == 0x85 || n == 0xA0 || n == 0x1680 ||
    (0x2000 <= n <= 0x200A) || n == 0x2028 || n == 0x2029 || n == 0x202F || n == 0x205F || n == 0x3000
  }

  /** `s` without its leading whitespace. */
  function TrimStart(s: string): (r: string)
    ensures |r| <= |s| && r == s[|s| - |r|..]
    ensures r == [] || !IsSpace(r[0])
    ensures forall i :: 0 <= i < |s| - |r| ==> IsSpace(s[i])
  {
    if s != [] && IsSpace(s[0]) then TrimStart(s[1..]) else s
  }

  /** `s` without its trailing whitespace. */
  function TrimEnd(s: string): (r: string)
    ensures |r| <= |s| && r == s[..|r|]
    ensures r == [] || !IsSpace(r[|r| - 1])
    ensures forall i :: |r| <= i < |s| ==> IsSpace(s[i])
  {
    if s != [] && IsSpace(s[|s| - 1]) then TrimEnd(s[..|s| - 1]) else s
  }

  /** `s` without surrounding whitespace. */
  function Strip(s: string): string
  {
    TrimEnd(TrimStart(s))
  }

  /** The digits part of an integer literal: digits, with single underscores only between two digits. */
  predicate WellFormedDigits(b: string)
  {
    |b| > 0 && IsDigit(b[0]) && IsDigit(b[|b| - 1]) &&
    (forall i :: 0 <= i < |b| ==> IsDigit(b[i]) || b[i] == '_') &&
    (forall i :: 0 <= i < |b| - 1 ==> b[i] == '_' ==> b[i + 1] != '_')
  }

  /** A non-empty run of plain digits, with no sign and no underscore. */
  predicate AllDigits(b: string)
  {
    |b| > 0 && forall i :: 0 <= i < |b| ==> IsDigit(b[i])
  }

  /** The value of a digit character. */
  function DigitValue(c: char): nat
    requires IsDigit(c)
  {
    c as int - '0' as int
  }

  /** The value of a run of digits and underscores; underscores are skipped. */
  function DigitsValue(b: string): nat
    requires forall i :: 0 <= i < |b| ==> IsDigit(b[i]) || b[i] == '_'
  {
    if b == [] then 0
    else
      var k := |b| - 1;
      if b[k] == '_' then DigitsValue(b[..k]) else 10 * DigitsValue(b[..k]) + DigitValue(b[k])
  }

  /** int() of a string whose surrounding whitespace is already gone: an optional sign, then digits. */
  function ParseLiteral(t: string): Option<int>
  {
    if |t| > 0 && (t[0] == '+' || t[0] == '-') then
      var body := t[1..];
      if WellFormedDigits(body) then
        var magnitude: int := DigitsValue(body);
        Some(if t[0] == '-' then -magnitude else magnitude)
      else None
    else if WellFormedDigits(t) then Some(DigitsValue(t))
    else None
  }

  /**
   * int(s): the integer that `s` denotes, or None where Python raises ValueError. A string it accepts
   * is, once stripped, non-empty and ends in a digit, and a negative result comes from a leading minus.
   */
  function ParseInt(s: string): (r: Option<int>)
    ensures r.Some? ==> Strip(s) != [] && IsDigit(Strip(s)[|Strip(s)| - 1])
    ensures r.Some? && r.value < 0 ==> Strip(s)[0] == '-'
  {
    ParseLiteral(Strip(s))
  }

  /** The decimal digits of a natural number, most significant first. */
  function NatToString(n: nat): (r: string)
    ensures AllDigits(r)
  {
    var d := (n % 10 + '0' as int) as char;
    if n < 10 then [d] else NatToString(n / 10) + [d]
  }

  /** str(n): the decimal rendering of an integer, with a leading minus sign when it is negative. */
  function Show(n: int): string
  {
    if n < 0 then "-" + NatToString(-n) else NatToString(n)
  }

  /** Reading back the digits of a natural number gives the number. */
  lemma {:induction false} NatToStringValue(n: nat)
    ensures DigitsValue(NatToString(n)) == n
  {
    var r := NatToString(n);
    var k := |r| - 1;
    if n >= 10 {
      NatToStringValue(n / 10);
      assert r[..k] == NatToString(n / 10);
    } else {
      assert r[..k] == [];
    }
  }

  /** Stripping leaves a string alone when neither end is whitespace. */
  lemma StripNoop(s: string)
    requires s != [] && !IsSpace(s[0]) && !IsSpace(s[|s| - 1])
    ensures Strip(s) == s
  {
    assert TrimStart(s) == s;
  }

  /** A non-empty run of plain digits is a well-formed integer body worth its digits. */
  lemma DigitsWellFormed(b: string)
    requires AllDigits(b)
    ensures WellFormedDigits(b)
  {
  }

  /** A run of plain digits reads as its value. */
  lemma ParseDigits(d: string)
    requires AllDigits(d)
    ensures ParseInt(d) == Some(DigitsValue(d))
  {
    StripNoop(d);
    DigitsWellFormed(d);
    assert ParseLiteral(d) == Some(DigitsValue(d));
  }

  /** A stripped literal made of a minus sign and a well-formed body reads as the negated body. */
  lemma ParseNegativeLiteral(t: string)
    requires |t| > 1 && t[0] == '-' && WellFormedDigits(t[1..])
    ensures ParseLiteral(t) == Some(-(DigitsValue(t[1..]) as int))
  {
  }

  /** A minus sign followed by plain digits reads as the negated value of the digits. */
  lemma ParseNegatedDigits(s: string)
    requires |s| > 1 && s[0] == '-' && AllDigits(s[1..])
    ensures ParseInt(s) == Some(-(DigitsValue(s[1..]) as int))
  {
    StripNoop(s);
    DigitsWellFormed(s[1..]);
    ParseNegativeLiteral(s);
  }

  /** The rendering of a negative number is a minus sign followed by digits worth its magnitude. */
  lemma ShowNegative(n: int)
    requires n < 0
    ensures |Show(n)| > 1 && Show(n)[0] == '-' && AllDigits(Show(n)[1..])
    ensures DigitsValue(Show(n)[1..]) == -n
  {
    var d := NatToString(-n);
    NatToStringValue(-n);
    assert Show(n)[1..] == d;
  }

  /** int(str(n)) == n for a negative n. */
  lemma ParseShowNegative(n: int)
    requires n < 0
    ensures ParseInt(Show(n)) == Some(n)
  {
    ShowNegative(n);
    ParseNegatedDigits(Show(n));
  }

  /** int(str(n)) == n: every integer the ledger renders is read back unchanged. */
  lemma ParseShow(n: int)
    ensures ParseInt(Show(n)) == Some(n)
  {
    if n < 0 {
      ParseShowNegative(n);
    } else {
      NatToStringValue(n);
      ParseDigits(NatToString(n));
    }
  }

  /** An underscore inside the digits does not change the value read. */
  lemma {:induction false} UnderscoreIgnored(a: string, b: string)
    requires forall i :: 0 <= i < |a| ==> IsDigit(a[i]) || a[i] == '_'
    requires forall i :: 0 <= i < |b| ==> IsDigit(b[i]) || b[i] == '_'
    ensures DigitsValue(a + "_" + b) == DigitsValue(a + b)
    decreases |b|
  {
    var w := a + "_" + b;
    if b == [] {
      assert w[..|a|] == a;
      assert a + b == a;
    } else {
      var k := |b| - 1;
      UnderscoreIgnored(a, b[..k]);
      assert w[..|w| - 1] == a + "_" + b[..k];
      assert (a + b)[..|a| + k] == a + b[..k];
    }
  }

  /** In a stripped literal, a character other than a digit or an underscore makes int() raise,
      unless it is a sign in the first position. */
  lemma ParseLiteralRejects(t: string, i: int)
    requires 0 <= i < |t| && !IsDigit(t[i]) && t[i] != '_'
    requires i == 0 ==> t[0] != '+' && t[0] != '-'
    ensures ParseLiteral(t) == None
  {
    if |t| > 0 && (t[0] == '+' || t[0] == '-') {
      assert t[1..][i - 1] == t[i];
    }
  }

  /**
   * int() raises when the amount, once stripped of surrounding whitespace, holds a character other
   * than a digit or an underscore anywhere except at a leading sign.
   */
  lemma ParseIntRejects(s: string, i: int)
    requires 0 <= i < |Strip(s)| && !IsDigit(Strip(s)[i]) && Strip(s)[i] != '_'
    requires i == 0 ==> Strip(s)[0] != '+' && Strip(s)[0] != '-'
    ensures ParseInt(s) == None
  {
    ParseLiteralRejects(Strip(s), i);
  }

  /** An information separator (U+001C) is whitespace to str.isspace() but not to int(): placed in
      front of a run of digits, it makes int() raise. */
  lemma SeparatorRejected(d: string)
    requires AllDigits(d)
    ensures ParseInt("\U{1C}" + d) == None
  {
    var s := "\U{1C}" + d;
    assert s[|s| - 1] == d[|d| - 1];
    StripNoop(s);
    ParseLiteralRejects(s, 0);
  }

  /** A string of nothing but whitespace makes int() raise. */
  lemma ParseBlank(s: string)
    requires forall i :: 0 <= i < |s| ==> IsSpace(s[i])
    ensures ParseInt(s) == None
  {
    assert TrimStart(s) == [];
  }
}
