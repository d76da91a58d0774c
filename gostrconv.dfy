/** The conversions of Go's `strconv` and `fmt` packages that the
    configuration and the service manager use: `Atoi`, the decimal
    formatting of `%d`, and `ParseBool`. Go's `int` is taken to be 64 bits
    wide, as on the 64-bit platforms the program is built for. */
module GoStrconv {
  import opened Wrappers

  const MinInt: int := -0x8000_0000_0000_0000
  const MaxInt: int := 0x7FFF_FFFF_FFFF_FFFF

  /** `n` fits in Go's 64-bit `int`. */
  predicate IsGoInt(n: int)
  {
    MinInt <= n <= MaxInt
  }

  predicate IsDigit(c: char)
  {
    '0' <= c <= '9'
  }

  predicate AllDigits(s: string)
  {
    forall k :: 0 <= k < |s| ==> IsDigit(s[k])
  }

  function DigitValue(c: char): (d: nat)
    requires IsDigit(c)
    ensures d < 10
  {
    c as int - '0' as int
  }

  function DigitChar(d: nat): (c: char)
    requires d < 10
    ensures IsDigit(c) && DigitValue(c) == d
  {
    ('0' as int + d) as char
  }

  /** The number a string of decimal digits denotes, most significant digit
      first; leading zeros do not change it. */
  function DecimalValue(s: string): nat
    requires AllDigits(s)
    decreases |s|
  {
    if |s| == 0 then 0 else DecimalValue(s[..|s| - 1]) * 10 + DigitValue(s[|s| - 1])
  }

  /** The decimal digits of `n` as `%d` prints them: no leading zero except
      for zero itself. */
  function FormatNat(n: nat): (s: string)
    ensures |s| >= 1 && AllDigits(s)
    ensures |s| > 1 ==> s[0] != '0'
    decreases n
  {
    if n < 10 then [DigitChar(n)] else FormatNat(n / 10) + [DigitChar(n % 10)]
  }

  /** `strconv.Itoa(n)`, equally `fmt.Sprintf("%d", n)`. */
  function FormatInt(n: int): (s: string)
    ensures |s| >= 1
    ensures n < 0 ==> s[0] == '-' && AllDigits(s[1..])
    ensures n >= 0 ==> AllDigits(s)
  {
    if n < 0 then "-" + FormatNat(-n) else FormatNat(n)
  }

  /** `%d` output is digits and a sign only, so it never holds a colon. */
  lemma FormatIntHasNoColon(n: int)
    ensures ':' !in FormatInt(n)
  {
    var s := FormatInt(n);
    if n < 0 {
      assert s == [s[0]] + s[1..];
    }
  }

  /** `strconv.Atoi(s)`: an optional `+` or `-` followed by one or more
      decimal digits, whose value must fit in a 64-bit `int`; anything else,
      the empty string and a lone sign included, is an error (None). */
  function Atoi(s: string): (r: Option<int>)
    ensures r.Some? ==> IsGoInt(r.value)
    ensures r.Some? ==> |s| >= 1 && IsDigit(s[|s| - 1])
    ensures r.Some? ==> IsDigit(s[0]) || s[0] == '+' || s[0] == '-'
    ensures r.Some? ==> forall k :: 0 < k < |s| ==> IsDigit(s[k])
    ensures r.Some? && r.value < 0 ==> s[0] == '-'
  {
    var signed := |s| > 0 && (s[0] == '+' || s[0] == '-');
    var digits := if signed then s[1..] else s;
    if |digits| == 0 || !AllDigits(digits) then None
    else
      var magnitude: int := DecimalValue(digits);
      var n := if signed && s[0] == '-' then -magnitude else magnitude;
      if IsGoInt(n) then Some(n) else None
  }

  /** Reading back the digits `FormatNat` prints gives the number. */
  lemma {:induction false} DecimalValueFormatNat(n: nat)
    ensures DecimalValue(FormatNat(n)) == n
    decreases n
  {
    var s := FormatNat(n);
    if n >= 10 {
      DecimalValueFormatNat(n / 10);
      assert s[..|s| - 1] == FormatNat(n / 10);
    }
  }

  /** `Atoi` undoes `Itoa` for every 64-bit `int`. */
  lemma AtoiFormatInt(n: int)
    requires IsGoInt(n)
    ensures Atoi(FormatInt(n)) == Some(n)
  {
    var s := FormatInt(n);
    if n < 0 {
      var d := FormatNat(-n);
      DecimalValueFormatNat(-n);
      assert s[0] == '-' && s[1..] == d;
      assert |d| >= 1 && AllDigits(d) && DecimalValue(d) == -n;
    } else {
      DecimalValueFormatNat(n);
      assert IsDigit(s[0]) && s[0] != '+' && s[0] != '-';
      assert |s| >= 1 && AllDigits(s) && DecimalValue(s) == n;
    }
  }

  /** `Atoi` rejects the decimal form of every number outside the 64-bit
      range, as Go's reports a range error for it. */
  lemma AtoiOutOfRange(n: int)
    requires !IsGoInt(n)
    ensures Atoi(FormatInt(n)) == None
  {
    var s := FormatInt(n);
    if n < 0 {
      var d := FormatNat(-n);
      DecimalValueFormatNat(-n);
      assert s[0] == '-' && s[1..] == d;
      assert |d| >= 1 && AllDigits(d) && DecimalValue(d) == -n;
    } else {
      DecimalValueFormatNat(n);
      assert IsDigit(s[0]) && s[0] != '+' && s[0] != '-';
      assert |s| >= 1 && AllDigits(s) && DecimalValue(s) == n;
    }
  }

  /** Leading zeros do not change the value of a digit string. */
  lemma {:induction false} DecimalValueLeadingZeros(z: string, d: string)
    requires forall k :: 0 <= k < |z| ==> z[k] == '0'
    requires AllDigits(d)
    ensures AllDigits(z + d) && DecimalValue(z + d) == DecimalValue(d)
    decreases |d|
  {
    var s := z + d;
    if |d| == 0 {
      assert s == z;
      ZerosValue(z);
    } else {
      var d' := d[..|d| - 1];
      assert s[..|s| - 1] == z + d';
      assert s[|s| - 1] == d[|d| - 1];
      DecimalValueLeadingZeros(z, d');
    }
  }

  /** A string of zeros denotes zero. */
  lemma {:induction false} ZerosValue(z: string)
    requires forall k :: 0 <= k < |z| ==> z[k] == '0'
    ensures AllDigits(z) && DecimalValue(z) == 0
    decreases |z|
  {
    if |z| > 0 {
      ZerosValue(z[..|z| - 1]);
    }
  }

  /** A non-empty digit string whose value fits, with or without a `+` in
      front, is read as that value. */
  lemma AtoiDigits(u: string)
    requires |u| >= 1 && AllDigits(u) && DecimalValue(u) <= MaxInt
    ensures Atoi(u) == Some(DecimalValue(u))
    ensures Atoi("+" + u) == Some(DecimalValue(u))
  {
    assert IsDigit(u[0]);
    var p := "+" + u;
    assert p[0] == '+' && p[1..] == u;
  }

  /** A `-` followed by a non-empty digit string, leading zeros allowed,
      is read as the negated value when that fits. */
  lemma AtoiNegative(u: string)
    requires |u| >= 1 && AllDigits(u) && DecimalValue(u) <= -MinInt
    ensures Atoi("-" + u) == Some(0 - DecimalValue(u))
  {
    var p := "-" + u;
    assert p[0] == '-' && p[1..] == u;
  }

  /** A digit string whose value does not fit is rejected, with a `+`, with
      a `-` or with no sign, whatever zeros it starts with. */
  lemma AtoiDigitsOutOfRange(u: string)
    requires |u| >= 1 && AllDigits(u)
    ensures DecimalValue(u) > MaxInt ==> Atoi(u) == None && Atoi("+" + u) == None
    ensures DecimalValue(u) > -MinInt ==> Atoi("-" + u) == None
  {
    assert IsDigit(u[0]);
    var p := "+" + u;
    assert p[0] == '+' && p[1..] == u;
    var m := "-" + u;
    assert m[0] == '-' && m[1..] == u;
  }

  /** `Atoi` also accepts the `%d` digits of a number with a `+` sign, or
      with leading zeros, in front, and reads the same number. */
  lemma AtoiSignAndZeros(z: string, n: nat)
    requires forall k :: 0 <= k < |z| ==> z[k] == '0'
    requires n <= MaxInt
    ensures Atoi("+" + z + FormatNat(n)) == Some(n)
    ensures Atoi(z + FormatNat(n)) == Some(n)
  {
    var d := FormatNat(n);
    var u := z + d;
    DecimalValueFormatNat(n);
    DecimalValueLeadingZeros(z, d);
    assert |u| >= 1 && AllDigits(u) && DecimalValue(u) == n;
    AtoiDigits(u);
    assert "+" + z + d == "+" + u;
  }

  /** Strings `Atoi` rejects: nothing, a lone sign, letters, a sign in the
      middle; and a leading `+` that it accepts. */
  lemma AtoiExamples()
    ensures Atoi("") == None && Atoi("+") == None && Atoi("-") == None
    ensures Atoi("abc") == None && Atoi("1-2") == None
    ensures Atoi("+7") == Some(7) && Atoi("-7") == Some(-7) && Atoi("007") == Some(7)
  {
    assert !IsDigit("abc"[0]);
    assert !IsDigit("1-2"[1]);
    assert "+7"[1..] == "7" && "-7"[1..] == "7";
    assert DecimalValue("007") == 7 by {
      assert "007"[..2] == "00" && "00"[..1] == "0";
    }
  }

  /** The spellings `strconv.ParseBool` accepts for each value. */
  const TrueSpellings: set<string> := {"1", "t", "T", "TRUE", "true", "True"}
  const FalseSpellings: set<string> := {"0", "f", "F", "FALSE", "false", "False"}

  /** `strconv.ParseBool(s)`: one of twelve fixed spellings, otherwise an
      error (None). */
  function ParseBool(s: string): (r: Option<bool>)
    ensures r == Some(true) <==> s in TrueSpellings
    ensures r == Some(false) <==> s in FalseSpellings
    ensures r == None <==> s !in TrueSpellings + FalseSpellings
  {
    if s == "1" || s == "t" || s == "T" || s == "TRUE" || s == "true" || s == "True" then Some(true)
    else if s == "0" || s == "f" || s == "F" || s == "FALSE" || s == "false" || s == "False" then Some(false)
    else None
  }

  /** `strconv.FormatBool(b)`. */
  function FormatBool(b: bool): string
  {
    if b then "true" else "false"
  }

  /** `ParseBool` undoes `FormatBool`. */
  lemma ParseBoolFormatBool(b: bool)
    ensures ParseBool(FormatBool(b)) == Some(b)
  {
  }
}
