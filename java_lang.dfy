/** The few pieces of java.lang the phone-book code leans on: nullable values,
    calls that may throw, the boxed integer types, and decimal text of numbers. */
module JavaLang {

  /** A Java reference to an immutable value (String, Long, Boolean, List) that may be null. */
  datatype Option<+T> = None | Some(value: T)

  /** What a call into a collaborator does: it returns a value, or it throws. */
  datatype Outcome<+T> = Returned(value: T) | Threw

  /** java.lang.Long: 64-bit two's complement. */
  type Long = x: int | -0x8000_0000_0000_0000 <= x < 0x8000_0000_0000_0000

  /** java.lang.Integer: 32-bit two's complement. */
  type Integer = x: int | -0x8000_0000 <= x < 0x8000_0000

  predicate IsDigit(c: char) { '0' <= c <= '9' }

  predicate AllDigits(s: string) { forall i :: 0 <= i < |s| ==> IsDigit(s[i]) }

  function DigitChar(d: nat): (c: char)
    requires d < 10
    ensures IsDigit(c) && c as int - '0' as int == d
  {
    ('0' as int + d) as char
  }

  /** Decimal digits of a natural number, most significant first, no leading zeros. */
  function NaturalText(n: nat): (s: string)
    ensures |s| >= 1 && AllDigits(s)
    ensures |s| > 1 ==> s[0] != '0'
  {
    if n < 10 then [DigitChar(n)] else NaturalText(n / 10) + [DigitChar(n % 10)]
  }

  /** Long.toString / Integer.toString (and the %d conversion): an optional minus sign, then the digits. */
  function DecimalText(n: int): (s: string)
    ensures |s| >= 1 && (s[0] == '-' <==> n < 0)
    ensures AllDigits(if n < 0 then s[1..] else s)
  {
    if n < 0 then "-" + NaturalText(-n) else NaturalText(n)
  }

  /** The value of a string of decimal digits. */
  function DigitsValue(s: string): nat
    requires AllDigits(s)
  {
    if s == [] then 0 else DigitsValue(s[..|s| - 1]) * 10 + (s[|s| - 1] as int - '0' as int)
  }

  /** Long.parseLong with radix 10: an optional sign, at least one digit, and a value that fits
      in a long; anything else throws NumberFormatException. */
  function ParseLong(s: string): (r: Outcome<Long>)
    ensures r.Returned? ==> |s| >= 1 && (s[0] == '-' || s[0] == '+' || IsDigit(s[0]))
    ensures r.Returned? && r.value < 0 ==> s[0] == '-'
  {
    if s == [] then Threw
    else
      var digits := if s[0] == '-' || s[0] == '+' then s[1..] else s;
      if digits == [] || !AllDigits(digits) then Threw
      else
        var magnitude: int := DigitsValue(digits);
        var v := if s[0] == '-' then -magnitude else magnitude;
        if -0x8000_0000_0000_0000 <= v < 0x8000_0000_0000_0000 then Returned(v) else Threw
  }

  lemma {:induction false} NaturalTextRoundTrip(n: nat)
    ensures DigitsValue(NaturalText(n)) == n
  {
    if n >= 10 {
      NaturalTextRoundTrip(n / 10);
      var s := NaturalText(n);
      assert s[..|s| - 1] == NaturalText(n / 10);
    }
  }

  /** Parsing the decimal text of any long gives the long back. */
  lemma ParseLongRoundTrip(n: Long)
    ensures ParseLong(DecimalText(n)) == Returned(n)
  {
    if n < 0 {
      var m: nat := -(n as int);
      NaturalTextRoundTrip(m);
      assert DecimalText(n)[1..] == NaturalText(m);
    } else {
      NaturalTextRoundTrip(n);
    }
  }
}
