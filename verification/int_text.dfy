/** Base-10 integer text: the strict reading of `std::stol` used when a
    VARCHAR literal is coerced to an integer type, and the canonical
    rendering it inverts. */
module IntText {
  import opened Wrappers
  import opened Types

  predicate IsDigit(c: char) {
    '0' <= c <= '9'
  }

  /** A non-empty run of decimal digits. */
  predicate IsDigits(s: string) {
    |s| > 0 && forall i :: 0 <= i < |s| ==> IsDigit(s[i])
  }

  /** Optional sign followed by a non-empty run of decimal digits. */
  predicate IsNumeral(s: string) {
    IsDigits(s) || (|s| >= 2 && (s[0] == '+' || s[0] == '-') && IsDigits(s[1..]))
  }

  function DigitValue(c: char): (d: nat)
    requires IsDigit(c)
    ensures d < 10
  {
    (c - '0') as nat
  }

  function DigitChar(d: nat): (c: char)
    requires d < 10
    ensures IsDigit(c) && DigitValue(c) == d
  {
    ('0' as int + d) as char
  }

  /** The value of a digit run, most significant digit first. */
  function DigitsValue(s: string): nat
    requires IsDigits(s)
  {
    if |s| == 1 then DigitValue(s[0])
    else DigitsValue(s[..|s| - 1]) * 10 + DigitValue(s[|s| - 1])
  }

  /** The canonical digit run of `n`: no sign and no leading zero. */
  function ShowNat(n: nat): (s: string)
    ensures IsDigits(s)
    ensures |s| == 1 || s[0] != '0'
  {
    if n < 10 then [DigitChar(n)]
    else ShowNat(n / 10) + [DigitChar(n % 10)]
  }

  /** The canonical base-10 text of `v`, with a leading '-' when negative. */
  function Show(v: int): (s: string)
    ensures IsNumeral(s)
  {
    if v < 0 then "-" + ShowNat(-v) else ShowNat(v)
  }

  /** Strict base-10 parse: the whole text must be a numeral. */
  function ParseInteger(s: string): (r: Option<int>)
    ensures r.Some? <==> IsNumeral(s)
    ensures r.Some? && IsDigits(s) ==> r.value >= 0
  {
    if IsDigits(s) then Some(DigitsValue(s))
    else if |s| >= 2 && s[0] == '-' && IsDigits(s[1..]) then Some(-(DigitsValue(s[1..]) as int))
    else if |s| >= 2 && s[0] == '+' && IsDigits(s[1..]) then Some(DigitsValue(s[1..]))
    else None
  }

  /** `std::stol`: text that is not a numeral is `Unparsable` (its
      `std::invalid_argument`), and a numeral beyond the 64-bit `long` range
      is `OutOfRange` (its `std::out_of_range`). */
  function StoL(s: string): (r: Result<int, Failure>)
    ensures r.Ok? <==> IsNumeral(s) && LongMin <= ParseInteger(s).value <= LongMax
    ensures r.Ok? ==> Some(r.value) == ParseInteger(s)
    ensures !IsNumeral(s) ==> r == Err(Unparsable)
    ensures IsNumeral(s) && !(LongMin <= ParseInteger(s).value <= LongMax) ==> r == Err(OutOfRange)
  {
    match ParseInteger(s)
    case None => Err(Unparsable)
    case Some(v) => if LongMin <= v <= LongMax then Ok(v) else Err(OutOfRange)
  }

  lemma {:induction false} DigitsValueOfShowNat(n: nat)
    ensures DigitsValue(ShowNat(n)) == n
    decreases n
  {
    if n >= 10 {
      var s := ShowNat(n);
      assert s[..|s| - 1] == ShowNat(n / 10);
      DigitsValueOfShowNat(n / 10);
    }
  }

  /** Parsing the canonical text of any integer gives that integer back. */
  lemma ParseShow(v: int)
    ensures ParseInteger(Show(v)) == Some(v)
  {
    var digits := if v < 0 then -v else v;
    DigitsValueOfShowNat(digits);
    if v < 0 {
      assert Show(v)[1..] == ShowNat(-v);
      assert !IsDigit(Show(v)[0]);
    }
  }

  /** `StoL` accepts the canonical text of `v` exactly when `v` fits a `long`. */
  lemma StoLShow(v: int)
    ensures StoL(Show(v)) == if LongMin <= v <= LongMax then Ok(v) else Err(OutOfRange)
  {
    ParseShow(v);
  }

  /** A leading '+' does not change the value of a digit run. */
  lemma ParsePlusSign(d: string)
    requires IsDigits(d)
    ensures ParseInteger("+" + d) == ParseInteger(d)
  {
    assert ("+" + d)[1..] == d;
    assert !IsDigit(("+" + d)[0]);
  }

  /** A leading '-' negates the value of a digit run. */
  lemma ParseMinusSign(d: string)
    requires IsDigits(d)
    ensures ParseInteger("-" + d) == Some(-ParseInteger(d).value)
  {
    assert ("-" + d)[1..] == d;
    assert !IsDigit(("-" + d)[0]);
  }

  /** A leading zero does not change the value of a digit run. */
  lemma {:induction false} DigitsValueLeadingZero(d: string)
    requires IsDigits(d)
    ensures IsDigits("0" + d) && DigitsValue("0" + d) == DigitsValue(d)
    decreases |d|
  {
    var z := "0" + d;
    assert forall i :: 0 < i < |z| ==> z[i] == d[i - 1];
    if |d| > 1 {
      var init := d[..|d| - 1];
      assert z[..|z| - 1] == "0" + init;
      DigitsValueLeadingZero(init);
    } else {
      assert z[..|z| - 1] == "0";
    }
  }

  /** Leading zeros are ignored by the parse. */
  lemma ParseLeadingZero(d: string)
    requires IsDigits(d)
    ensures ParseInteger("0" + d) == ParseInteger(d)
  {
    DigitsValueLeadingZero(d);
  }
}
