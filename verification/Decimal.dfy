// strconv.FormatInt and strconv.ParseInt in base 10, as the key and topic code uses them.
module Decimal {
  import opened Base
  import opened Text

  predicate IsDigit(c: char) {
    '0' <= c <= '9'
  }

  function Digits(n: nat): (s: string)
    ensures |s| > 0 && All(s, IsDigit)
  {
    if n < 10 then ['0' + n as char] else Digits(n / 10) + ['0' + (n % 10) as char]
  }

  // The value of a run of decimal digits.
  function Value(s: string): nat
    requires All(s, IsDigit)
  {
    if s == "" then 0 else 10 * Value(Front(s)) + (Last(s) - '0') as int
  }

  function FormatInt(n: int): (s: string)
    ensures |s| > 0
    ensures forall i :: 0 <= i < |s| ==> IsDigit(s[i]) || s[i] == '-'
  {
    if n < 0 then "-" + Digits(-n) else Digits(n)
  }

  // An optional sign, at least one digit, nothing else, and a value inside int64.
  function ParseInt(s: string): Option<int64> {
    var signed := |s| > 0 && (s[0] == '-' || s[0] == '+');
    var digits := if signed then s[1..] else s;
    if digits == "" || !All(digits, IsDigit) then
      None
    else
      var n: int := if signed && s[0] == '-' then 0 - Value(digits) else Value(digits);
      if MIN_INT64 <= n <= MAX_INT64 then Some(n) else None
  }

  lemma {:induction false} ValueOfDigits(n: nat)
    ensures Value(Digits(n)) == n
  {
    if n >= 10 {
      var s := Digits(n);
      ValueOfDigits(n / 10);
      assert Front(s) == Digits(n / 10);
    }
  }

  // Every id is read back as it was written, negative ids and both extremes included.
  lemma ParseFormat(n: int64)
    ensures ParseInt(FormatInt(n)) == Some(n)
  {
    if n < 0 {
      var m: int := n;
      ValueOfDigits(-m);
      assert FormatInt(n)[1..] == Digits(-m);
    } else {
      ValueOfDigits(n);
      assert IsDigit(FormatInt(n)[0]);
    }
  }

  lemma FormatInjective(m: int64, n: int64)
    requires FormatInt(m) == FormatInt(n)
    ensures m == n
  {
    ParseFormat(m);
    ParseFormat(n);
  }
}
