/** The part of Go's `strconv` package the decoder relies on: ParseInt and
    ParseUint with base 0 and bit size 0 (64 bits), restricted to decimal
    numerals, and ParseBool. Formatting functions are the inverses used to
    state round trips. */
module Strconv {
  import opened Wrappers

  /** strconv.ErrSyntax and strconv.ErrRange. */
  datatype NumReason = Syntax | Range

  const MinInt64: int := -0x8000_0000_0000_0000
  const MaxInt64: int := 0x7fff_ffff_ffff_ffff
  const MaxUint64: int := 0xffff_ffff_ffff_ffff

  predicate IsDigit(c: char)
  {
    '0' <= c <= '9'
  }

  predicate AllDigits(s: string)
  {
    forall i :: 0 <= i < |s| ==> IsDigit(s[i])
  }

  /** A decimal numeral as base 0 reads it: a leading zero would select
      octal (or, with a letter, hexadecimal or binary), so only "0" itself
      may start with '0'. */
  predicate Decimal(s: string)
  {
    |s| >= 1 && AllDigits(s) && (|s| == 1 || s[0] != '0')
  }

  /** The value of a string of decimal digits, most significant first. */
  function DigitsValue(s: string): nat
    requires AllDigits(s)
  {
    if |s| == 0 then 0
    else DigitsValue(s[..|s| - 1]) * 10 + (s[|s| - 1] as int - '0' as int)
  }

  /** The run of digits that `s` starts with. */
  function LeadingDigits(s: string): (d: string)
    ensures |d| <= |s| && d == s[..|d|] && AllDigits(d)
    ensures |d| < |s| ==> !IsDigit(s[|d|])
  {
    if |s| == 0 || !IsDigit(s[0]) then ""
    else
      var rest := LeadingDigits(s[1..]);
      assert s[..1 + |rest|] == [s[0]] + s[1..][..|rest|];
      [s[0]] + rest
  }

  /** Go's left-to-right scan meets a digit at which the number read so far
      exceeds `bound`, before it meets any character that is not a digit. */
  ghost predicate DigitsExceed(s: string, bound: nat)
  {
    exists j :: 0 < j <= |s| && AllDigits(s[..j]) && DigitsValue(s[..j]) > bound
  }

  /** strconv.ParseInt(s, 0, 0): an optional sign, then the unsigned numeral
      as ParseUint reads it; a numeral outside the 64-bit range is a range
      error. */
  function ParseInt(s: string): (r: Result<int, NumReason>)
    ensures r.Ok? ==> MinInt64 <= r.value <= MaxInt64
    ensures r.Ok? <==> (Decimal(Unsigned(s)) && MinInt64 <= SignedValue(s) <= MaxInt64)
    ensures r.Ok? ==> r.value == SignedValue(s)
    ensures r == Err(Range) <==>
      (var u := Unsigned(s); |u| > 0 && u[0] != '0' && DigitsExceed(u, MaxUint64)) ||
      (Decimal(Unsigned(s)) && !(MinInt64 <= SignedValue(s) <= MaxInt64))
  {
    match ParseUint(Unsigned(s))
    case Err(reason) => Err(reason)
    case Ok(_) =>
      if SignedValue(s) < MinInt64 || MaxInt64 < SignedValue(s) then Err(Range)
      else Ok(SignedValue(s))
  }

  /** `s` without its sign character, if it has one. */
  function Unsigned(s: string): string
  {
    if |s| > 0 && (s[0] == '+' || s[0] == '-') then s[1..] else s
  }

  function SignedValue(s: string): int
    requires Decimal(Unsigned(s))
  {
    if |s| > 0 && s[0] == '-' then -(DigitsValue(Unsigned(s)) as int) else DigitsValue(Unsigned(s))
  }

  /** strconv.ParseUint(s, 0, 0): no sign is accepted. Go scans the digits
      from the left and reports a range error as soon as the number read so
      far overflows, even when a character that is not a digit follows. A
      longer numeral starting with '0' selects another radix in Go and is
      outside the model: it is a syntax error here. */
  function ParseUint(s: string): (r: Result<nat, NumReason>)
    ensures r.Ok? <==> (Decimal(s) && DigitsValue(s) <= MaxUint64)
    ensures r.Ok? ==> r.value == DigitsValue(s) && r.value <= MaxUint64
    ensures r == Err(Range) <==> |s| > 0 && s[0] != '0' && DigitsExceed(s, MaxUint64)
  {
    ExceedIffLeading(s, MaxUint64);
    var d := LeadingDigits(s);
    if |s| == 0 || (s[0] == '0' && |s| > 1) then Err(Syntax)
    else if DigitsValue(d) > MaxUint64 then
      assert Decimal(s) ==> d == s;
      Err(Range)
    else if |d| < |s| then Err(Syntax)
    else
      assert d == s;
      Ok(DigitsValue(s))
  }

  /** The strings strconv.ParseBool accepts for true and for false. */
  const TrueStrings: set<string> := {"1", "t", "T", "TRUE", "true", "True"}
  const FalseStrings: set<string> := {"0", "f", "F", "FALSE", "false", "False"}

  /** strconv.ParseBool: any other string is a syntax error. */
  function ParseBool(s: string): (r: Result<bool, NumReason>)
    ensures r.Ok? <==> s in TrueStrings || s in FalseStrings
    ensures r.Ok? ==> (r.value <==> s in TrueStrings)
    ensures r.Err? ==> r.error == Syntax
  {
    if s in TrueStrings then Ok(true)
    else if s in FalseStrings then Ok(false)
    else Err(Syntax)
  }

  /** strconv.FormatBool */
  function FormatBool(b: bool): string
  {
    if b then "true" else "false"
  }

  function DigitChar(d: nat): char
    requires d < 10
  {
    ('0' as int + d) as char
  }

  /** The shortest decimal numeral of `n`. */
  function Digits(n: nat): (s: string)
    ensures Decimal(s)
  {
    if n < 10 then [DigitChar(n)]
    else
      var s := Digits(n / 10) + [DigitChar(n % 10)];
      assert s[0] == Digits(n / 10)[0];
      s
  }

  /** strconv.FormatUint(n, 10) */
  function FormatUint(n: nat): string
  {
    Digits(n)
  }

  /** strconv.FormatInt(n, 10), also what fmt's %v prints for an integer. */
  function FormatInt(n: int): string
  {
    if n < 0 then "-" + Digits(-n) else Digits(n)
  }

  lemma {:induction false} DigitsValueOfDigits(n: nat)
    ensures DigitsValue(Digits(n)) == n
  {
    if n >= 10 {
      DigitsValueOfDigits(n / 10);
      var s := Digits(n);
      assert s[..|s| - 1] == Digits(n / 10);
    }
  }

  lemma {:induction false} LeadingDigitPositive(s: string)
    requires AllDigits(s) && |s| >= 1 && s[0] != '0'
    ensures DigitsValue(s) >= 1
  {
    if |s| > 1 {
      LeadingDigitPositive(s[..|s| - 1]);
    }
  }

  lemma {:induction false} DigitsOfDigitsValue(s: string)
    requires Decimal(s)
    ensures Digits(DigitsValue(s)) == s
  {
    if |s| > 1 {
      var init := s[..|s| - 1];
      LeadingDigitPositive(init);
      DigitsOfDigitsValue(init);
      assert s == init + [s[|s| - 1]];
    }
  }

  /** A prefix of a digit string is worth no more than the whole. */
  lemma {:induction false} DigitsValuePrefix(d: string, j: nat)
    requires AllDigits(d) && j <= |d|
    ensures DigitsValue(d[..j]) <= DigitsValue(d)
  {
    if j < |d| {
      var init := d[..|d| - 1];
      assert init[..j] == d[..j];
      DigitsValuePrefix(init, j);
    } else {
      assert d[..j] == d;
    }
  }

  /** The scan overflows exactly when the leading run of digits does. */
  lemma ExceedIffLeading(s: string, bound: nat)
    ensures DigitsExceed(s, bound) <==> DigitsValue(LeadingDigits(s)) > bound
  {
    var d := LeadingDigits(s);
    if DigitsValue(d) > bound {
      assert s[..|d|] == d;
    }
    if DigitsExceed(s, bound) {
      var j :| 0 < j <= |s| && AllDigits(s[..j]) && DigitsValue(s[..j]) > bound;
      assert s[..j] == d[..j];
      DigitsValuePrefix(d, j);
    }
  }

  /** An overflowing scan is a range error for ParseUint and, with or
      without a minus sign, for ParseInt. */
  lemma ScanOverflow(s: string)
    requires |s| > 0 && s[0] != '0' && DigitsExceed(s, MaxUint64)
    ensures ParseUint(s) == Err(Range)
    ensures ParseInt(s) == Err(Range) && ParseInt("-" + s) == Err(Range)
  {
    var t := "-" + s;
    assert t[0] == '-' && t[1..] == s;
    assert Unsigned(t) == s;
    assert Unsigned(s) == s;
  }

  /** Digits that overflow 64 bits give a range error, whatever follows
      them. */
  lemma OverflowBeforeSyntax(d: string, rest: string)
    requires Decimal(d) && DigitsValue(d) > MaxUint64
    ensures ParseUint(d + rest) == Err(Range)
    ensures ParseInt(d + rest) == Err(Range) && ParseInt("-" + (d + rest)) == Err(Range)
  {
    var s := d + rest;
    assert s[..|d|] == d;
    assert DigitsExceed(s, MaxUint64);
    ScanOverflow(s);
  }

  /** Parsing a formatted 64-bit integer gives it back. */
  lemma ParseFormatInt(n: int)
    requires MinInt64 <= n <= MaxInt64
    ensures ParseInt(FormatInt(n)) == Ok(n)
  {
    var m := if n < 0 then -n else n;
    var d := Digits(m);
    DigitsValueOfDigits(m);
    var s := FormatInt(n);
    if n < 0 {
      assert s == "-" + d;
      assert s[0] == '-' && s[1..] == d;
      assert Unsigned(s) == d;
      assert SignedValue(s) == -m;
    } else {
      assert s == d;
      assert IsDigit(s[0]);
      assert Unsigned(s) == d;
      assert SignedValue(s) == m;
    }
  }

  /** An unsigned decimal numeral in range is printed back unchanged once
      parsed. */
  lemma FormatParseInt(s: string)
    requires Decimal(s) && DigitsValue(s) <= MaxInt64
    ensures ParseInt(s) == Ok(DigitsValue(s)) && FormatInt(DigitsValue(s)) == s
  {
    DigitsOfDigitsValue(s);
  }

  /** Parsing a formatted 64-bit unsigned integer gives it back. */
  lemma ParseFormatUint(n: nat)
    requires n <= MaxUint64
    ensures ParseUint(FormatUint(n)) == Ok(n)
  {
    DigitsValueOfDigits(n);
  }

  lemma ParseFormatBool(b: bool)
    ensures ParseBool(FormatBool(b)) == Ok(b)
  {
  }
}
