/**
 Decimal integers as the version code reads and writes them: Go's
 `strconv.Atoi` and the `%d` verb of `fmt.Sprintf`.

 Integers are unbounded here; Go's range error for values outside `int`
 is not modelled.
 */
module GoStrconv {
  import opened Outcomes
  import opened GoStrings

  predicate IsDigit(c: char) {
    '0' <= c <= '9'
  }

  predicate AllDigits(s: string) {
    forall i :: 0 <= i < |s| ==> IsDigit(s[i])
  }

  /** The value of a run of decimal digits, most significant first. */
  function DigitsValue(s: string): nat
    requires AllDigits(s)
  {
    if |s| == 0 then 0
    else DigitsValue(s[..|s| - 1]) * 10 + (s[|s| - 1] as int - '0' as int)
  }

  /** The grammar strconv.Atoi accepts in base 10: an optional sign, then one or more digits. */
  predicate IsDecimal(s: string) {
    |s| > 0 &&
    if s[0] == '+' || s[0] == '-' then |s| > 1 && AllDigits(s[1..]) else AllDigits(s)
  }

  /** strconv.Atoi: a signed decimal integer, leading zeros allowed. */
  function Atoi(s: string): (r: Result<int>)
    ensures r.Ok? <==> IsDecimal(s)
    ensures !r.Ok? ==> r == Err(SyntaxError(s))
    ensures r.Ok? && AllDigits(s) ==> r.value == DigitsValue(s)
    ensures r.Ok? && s[0] == '+' ==> r.value == DigitsValue(s[1..])
    ensures r.Ok? && s[0] == '-' ==> r.value == -(DigitsValue(s[1..]) as int)
  {
    if |s| == 0 then Err(SyntaxError(s))
    else
      var digits := if s[0] == '-' || s[0] == '+' then s[1..] else s;
      if |digits| == 0 || !AllDigits(digits) then Err(SyntaxError(s))
      else if s[0] == '-' then Ok(-(DigitsValue(digits) as int))
      else Ok(DigitsValue(digits))
  }

  function DigitChar(d: nat): (c: char)
    requires d < 10
    ensures IsDigit(c) && c as int - '0' as int == d
  {
    ('0' as int + d) as char
  }

  /** `%d` of a non-negative integer: its shortest decimal numeral. */
  function FormatNat(n: nat): (r: string)
    ensures |r| > 0 && AllDigits(r)
    ensures DigitsValue(r) == n
    ensures r[0] == '0' ==> |r| == 1
    decreases n
  {
    if n < 10 then [DigitChar(n)]
    else
      var r := FormatNat(n / 10) + [DigitChar(n % 10)];
      assert r[..|r| - 1] == FormatNat(n / 10);
      r
  }

  /** `%d` of any integer: a minus sign for negatives, never a plus sign or padding. */
  function FormatInt(n: int): (r: string)
    ensures Atoi(r) == Ok(n)
    ensures |r| > 0 && !IsSpace(r[0]) && !IsSpace(r[|r| - 1])
    ensures forall i :: 0 <= i < |r| ==> r[i] == '-' || IsDigit(r[i])
    ensures r[0] == '-' <==> n < 0
    ensures var digits := if n < 0 then r[1..] else r;
      |digits| > 0 && AllDigits(digits) && (digits[0] == '0' ==> |digits| == 1)
  {
    if n < 0 then
      var d := FormatNat(-n);
      var r := "-" + d;
      assert r[0] == '-' && r[1..] == d && r[|r| - 1] == d[|d| - 1];
      assert IsDecimal(r);
      r
    else
      var d := FormatNat(n);
      assert IsDecimal(d);
      d
  }

  /** A leading zero never changes the value of a run of digits. */
  lemma {:induction false} LeadingZero(s: string)
    requires AllDigits(s)
    ensures AllDigits("0" + s) && DigitsValue("0" + s) == DigitsValue(s)
    decreases |s|
  {
    if |s| > 0 {
      var s' := s[..|s| - 1];
      assert ("0" + s)[..|"0" + s| - 1] == "0" + s';
      LeadingZero(s');
    }
  }
}
