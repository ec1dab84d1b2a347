/**
  * The string-to-Int32 conversion `Convert.ToInt32(string)` that the
  * original filter's threshold goes through, restricted to its invariant
  * core: an optional sign followed by decimal digits whose value fits in a
  * signed 32-bit integer. Every other input is a conversion failure (the
  * library throws a format or overflow exception), modelled as None.
  */
module Conversion {
  import opened Outcomes

  const MinInt32: int := -0x8000_0000
  const MaxInt32: int := 0x7fff_ffff

  predicate IsDigit(c: char)
  {
    '0' <= c <= '9'
  }

  predicate AllDigits(s: string)
  {
    forall i :: 0 <= i < |s| ==> IsDigit(s[i])
  }

  /** The value of a string of decimal digits, most significant first. */
  function DigitsValue(ds: string): (v: nat)
    requires AllDigits(ds)
  {
    if ds == [] then 0
    else DigitsValue(ds[..|ds| - 1]) * 10 + (ds[|ds| - 1] as int - '0' as int)
  }

  /** Parses an optionally signed decimal Int32; None when the text is not
      one or its value is out of range. */
  function ParseInt32(s: string): (r: Option<int>)
    ensures r.Some? ==> MinInt32 <= r.value <= MaxInt32
    ensures r.Some? ==> exists i :: 0 <= i < |s| && IsDigit(s[i])
  {
    var negative := |s| > 0 && s[0] == '-';
    var digits := if |s| > 0 && (s[0] == '-' || s[0] == '+') then s[1..] else s;
    if digits == [] || !AllDigits(digits) then None
    else
      assert IsDigit(s[|s| - 1]);
      var magnitude: int := DigitsValue(digits);
      var v := if negative then -magnitude else magnitude;
      if MinInt32 <= v <= MaxInt32 then Some(v) else None
  }

  /** The shortest decimal digits of a natural number. */
  function DecimalDigits(n: nat): (r: string)
    ensures |r| > 0 && AllDigits(r)
  {
    if n < 10 then [('0' as int + n) as char]
    else DecimalDigits(n / 10) + [('0' as int + n % 10) as char]
  }

  /** The canonical text of an integer: a minus sign for negative values,
      then its decimal digits. */
  function FormatInt32(v: int): (s: string)
  {
    if v < 0 then "-" + DecimalDigits(-v) else DecimalDigits(v)
  }

  lemma {:induction false} DigitsValueOfDecimalDigits(n: nat)
    ensures DigitsValue(DecimalDigits(n)) == n
  {
    if n >= 10 {
      var ds := DecimalDigits(n);
      assert ds[..|ds| - 1] == DecimalDigits(n / 10);
      DigitsValueOfDecimalDigits(n / 10);
    }
  }

  /** Every Int32 converts back from its canonical text. */
  lemma ParseFormatRoundTrip(v: int)
    requires MinInt32 <= v <= MaxInt32
    ensures ParseInt32(FormatInt32(v)) == Some(v)
  {
    if v < 0 {
      var s := FormatInt32(v);
      assert s[1..] == DecimalDigits(-v);
      DigitsValueOfDecimalDigits(-v);
    } else {
      DigitsValueOfDecimalDigits(v);
    }
  }
}
