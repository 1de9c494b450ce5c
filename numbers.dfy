/**
 * The two conversions between a cent amount and the text of a budget input:
 * `amount.toString()` when the inputs are filled from fetched budgets, and
 * `Number(text)` when a budget row reads an input back.  `Parse` covers the
 * plain decimal forms of `Number`; None stands for NaN.
 */
module Numbers {
  import opened Wrappers

  predicate IsDigit(ch: char) {
    '0' <= ch <= '9'
  }

  predicate AllDigits(s: string) {
    forall i :: 0 <= i < |s| ==> IsDigit(s[i])
  }

  function DigitChar(d: nat): (ch: char)
    requires d < 10
    ensures IsDigit(ch) && ch as int - '0' as int == d
  {
    ('0' as int + d) as char
  }

  function DigitValue(ch: char): nat
    requires IsDigit(ch)
  {
    ch as int - '0' as int
  }

  /** The decimal digits of `n`, without leading zeros. */
  function NatToString(n: nat): (s: string)
    ensures |s| > 0 && AllDigits(s)
  {
    if n < 10 then [DigitChar(n)] else NatToString(n / 10) + [DigitChar(n % 10)]
  }

  /** The value of a string of decimal digits (leading zeros allowed; "" is 0). */
  function DigitsValue(s: string): nat
    requires AllDigits(s)
  {
    if s == [] then 0 else 10 * DigitsValue(s[..|s| - 1]) + DigitValue(s[|s| - 1])
  }

  lemma {:induction false} DigitsRoundTrip(n: nat)
    ensures DigitsValue(NatToString(n)) == n
  {
    if n >= 10 {
      var s := NatToString(n);
      assert s[..|s| - 1] == NatToString(n / 10);
      DigitsRoundTrip(n / 10);
    }
  }

  /** The fraction part `toString` writes for `cents` hundredths: none, one digit, or two. */
  function FracText(cents: nat): (f: string)
    requires cents < 100
    ensures f != [] ==> |f| <= 3 && f[0] == '.' && AllDigits(f[1..]) && FracCents(f[1..]) == cents
  {
    if cents == 0 then ""
    else if cents % 10 == 0 then "." + [DigitChar(cents / 10)]
    else "." + [DigitChar(cents / 10), DigitChar(cents % 10)]
  }

  /** `x.toString()` for a non-negative amount of `a` cents. */
  function ShowUnsigned(a: nat): (s: string)
    ensures |s| > 0 && IsDigit(s[0]) && IsDigit(s[|s| - 1])
  {
    var d, f := NatToString(a / 100), FracText(a % 100);
    assert f != [] ==> f[|f| - 1] == f[1..][|f| - 2];
    d + f
  }

  /** `x.toString()` for the amount of `c` cents: sign, whole units, and up to two digits of fraction without trailing zeros. */
  function Show(c: int): (s: string)
    ensures |s| > 0
    ensures c >= 0 ==> IsDigit(s[0])
    ensures c < 0 ==> s[0] == '-' && |s| > 1 && IsDigit(s[1])
  {
    if c < 0 then "-" + ShowUnsigned(-c) else ShowUnsigned(c)
  }

  /** The white space and line terminators `Number` strips from both ends. */
  predicate IsJsSpace(ch: char) {
    ch == ' ' || ch == '\t' || ch == '\n' || ch == '\r' || ch == '\U{000B}' || ch == '\U{000C}'
    || ch == '\U{00A0}' || ch == '\U{1680}' || ('\U{2000}' <= ch <= '\U{200A}')
    || ch == '\U{2028}' || ch == '\U{2029}' || ch == '\U{202F}' || ch == '\U{205F}'
    || ch == '\U{3000}' || ch == '\U{FEFF}'
  }

  function TrimStart(s: string): (r: string)
    ensures r == [] || !IsJsSpace(r[0])
  {
    if s != [] && IsJsSpace(s[0]) then TrimStart(s[1..]) else s
  }

  function TrimEnd(s: string): (r: string)
    ensures r == [] || !IsJsSpace(r[|r| - 1])
  {
    if s != [] && IsJsSpace(s[|s| - 1]) then TrimEnd(s[..|s| - 1]) else s
  }

  function Trim(s: string): string {
    TrimEnd(TrimStart(s))
  }

  /** The cents of one or two fraction digits: ".5" is 50, ".05" is 5. */
  function FracCents(f: string): (c: nat)
    requires AllDigits(f) && |f| <= 2
    ensures c < 100
  {
    if |f| == 0 then 0
    else if |f| == 1 then 10 * DigitValue(f[0])
    else 10 * DigitValue(f[0]) + DigitValue(f[1])
  }

  /** The index of the first '.' of `s`, if any. */
  function DotIndex(s: string): (r: Option<nat>)
    ensures r.None? <==> '.' !in s
    ensures r.Some? ==> r.value < |s| && s[r.value] == '.' && '.' !in s[..r.value]
  {
    if s == [] then None
    else if s[0] == '.' then Some(0)
    else
      match DotIndex(s[1..])
      case None => None
      case Some(i) =>
        assert s[..i + 1] == [s[0]] + s[1..][..i];
        Some(i + 1)
  }

  /** An unsigned decimal: digits, optionally a '.' and at most two more digits, at least one digit in all. */
  function ParseUnsigned(b: string): Option<nat> {
    match DotIndex(b)
    case None =>
      if b != [] && AllDigits(b) then Some(100 * DigitsValue(b)) else None
    case Some(i) =>
      var w, f := b[..i], b[i + 1..];
      if AllDigits(w) && AllDigits(f) && |f| <= 2 && |w| + |f| > 0
      then Some(100 * DigitsValue(w) + FracCents(f))
      else None
  }

  /**
   * `Number(s)` in cents: blank text is 0; otherwise an optional sign and an
   * unsigned decimal between JavaScript white space; anything else is NaN.
   */
  function Parse(s: string): (r: Option<int>)
    ensures Trim(s) == "" ==> r == Some(0)
  {
    var t := Trim(s);
    if t == "" then Some(0)
    else if t[0] == '-' then
      match ParseUnsigned(t[1..])
      case None => None
      case Some(v) => Some(-(v as int))
    else if t[0] == '+' then
      match ParseUnsigned(t[1..])
      case None => None
      case Some(v) => Some(v)
    else
      match ParseUnsigned(t)
      case None => None
      case Some(v) => Some(v)
  }

  /** `Number(s) || 0`: NaN, like zero, reads as 0. */
  function NumberOrZero(s: string): (r: int)
    ensures Trim(s) == "" ==> r == 0
    ensures r == 0 || Parse(s) == Some(r)
  {
    Parse(s).GetOr(0)
  }

  /** Text that starts and ends with a visible character is not trimmed. */
  lemma TrimVisible(s: string)
    requires s != [] && !IsJsSpace(s[0]) && !IsJsSpace(s[|s| - 1])
    ensures Trim(s) == s
  {
  }

  lemma ParseShowUnsigned(a: nat)
    ensures ParseUnsigned(ShowUnsigned(a)) == Some(a)
  {
    var digits, frac := NatToString(a / 100), FracText(a % 100);
    var body := digits + frac;
    DigitsRoundTrip(a / 100);
    assert '.' !in digits;
    if frac == [] {
      assert body == digits;
    } else {
      assert body[|digits|] == '.' && body[..|digits|] == digits;
      assert DotIndex(body) == Some(|digits|);
      assert body[|digits| + 1..] == frac[1..];
    }
  }

  /** A visible unsigned text reads as its unsigned value. */
  lemma ParseUnsignedText(u: string)
    requires u != [] && IsDigit(u[0]) && IsDigit(u[|u| - 1])
    ensures Parse(u) == match ParseUnsigned(u) case None => None case Some(v) => Some(v as int)
  {
    TrimVisible(u);
  }

  /** A visible unsigned text after a minus sign reads as the negated value. */
  lemma ParseNegativeText(u: string)
    requires u != [] && IsDigit(u[0]) && IsDigit(u[|u| - 1])
    ensures Parse("-" + u) == match ParseUnsigned(u) case None => None case Some(v) => Some(-(v as int))
  {
    var s := "-" + u;
    assert s[|s| - 1] == u[|u| - 1];
    TrimVisible(s);
    assert s[1..] == u;
  }

  /** Reading back what `Show` wrote gives the amount again. */
  lemma ParseShow(c: int)
    ensures Parse(Show(c)) == Some(c)
  {
    if c < 0 {
      ParseShowNegative(-c);
    } else {
      var u := ShowUnsigned(c);
      assert Show(c) == u;
      ParseShowUnsigned(c);
      ParseUnsignedText(u);
    }
  }

  /** A budget input filled with `toString` reads back, through `Number(..) || 0`, as the same amount. */
  lemma NumberOrZeroShow(c: int)
    ensures NumberOrZero(Show(c)) == c
  {
    ParseShow(c);
  }

  lemma ParseShowNegative(a: nat)
    requires a > 0
    ensures Parse(Show(-(a as int))) == Some(-(a as int))
  {
    var u := ShowUnsigned(a);
    assert Show(-(a as int)) == "-" + u;
    ParseShowUnsigned(a);
    ParseNegativeText(u);
  }

  /** A typed "800" is 800.00, and "12.5" is 12.50. */
  lemma ParseWholeAndFraction()
    ensures Parse("800") == Some(80000)
    ensures Parse("12.5") == Some(1250)
  {
    ParseWhole();
    ParseFraction();
  }

  lemma ParseWhole()
    ensures Parse("800") == Some(80000)
  {
    assert NatToString(800) == "800" by {
      assert NatToString(8) == "8";
      assert NatToString(80) == "80";
    }
    assert Show(80000) == "800";
    ParseShow(80000);
  }

  lemma ParseFraction()
    ensures Parse("12.5") == Some(1250)
  {
    assert NatToString(12) == "12" by {
      assert NatToString(1) == "1";
    }
    assert Show(1250) == "12.5";
    ParseShow(1250);
  }

  /** Blank input is 0; text that is not a number is NaN, which `|| 0` turns into 0. */
  lemma ParseBlankAndInvalid()
    ensures Parse("") == Some(0)
    ensures Parse("abc") == None
    ensures NumberOrZero("abc") == 0
  {
    ParseLetters();
  }

  lemma ParseLetters()
    ensures Parse("abc") == None
  {
    var s := "abc";
    TrimVisible(s);
    assert DotIndex(s) == None;
    assert !AllDigits(s) by {
      assert !IsDigit(s[0]);
    }
  }
}
