/**
 * `toFormatedTimestamp`: a millisecond timestamp rendered as the platform's
 * `<t:SECONDS:f>` markup, the seconds being `Math.round(ms / 1000)`.
 */
module FormatedTimestamp {

  /**
   * `Math.round(ms / 1000)` in exact arithmetic: the nearest whole second,
   * halves rounded up (towards positive infinity, as `Math.round` does).
   */
  function RoundToSeconds(ms: int): (n: int)
    ensures n * 1000 - 500 <= ms < n * 1000 + 500
  {
    (ms + 500) / 1000
  }

  function DigitChar(d: nat): (c: char)
    requires d < 10
    ensures '0' <= c <= '9'
  {
    ('0' as int + d) as char
  }

  function DigitValue(c: char): (d: nat)
    requires '0' <= c <= '9'
    ensures d < 10 && DigitChar(d) == c
  {
    c as int - '0' as int
  }

  predicate AllDigits(s: string) { forall i :: 0 <= i < |s| ==> '0' <= s[i] <= '9' }

  /** Decimal notation of a natural number, as template literals print it: no leading zeros. */
  function NatToDecimal(n: nat): (s: string)
    ensures |s| >= 1 && AllDigits(s)
    ensures |s| > 1 ==> s[0] != '0'
  {
    if n < 10 then [DigitChar(n)] else NatToDecimal(n / 10) + [DigitChar(n % 10)]
  }

  /** Decimal notation of an integer, with a leading `-` when negative. */
  function IntToDecimal(i: int): (s: string)
    ensures i < 0 ==> |s| >= 2 && s[0] == '-' && AllDigits(s[1..])
    ensures i >= 0 ==> AllDigits(s)
  {
    if i < 0 then "-" + NatToDecimal(-i) else NatToDecimal(i)
  }

  /** The value of a string of decimal digits: the reading that `NatToDecimal` writes. */
  function DecimalValue(s: string): nat
    requires AllDigits(s)
  {
    if s == [] then 0 else DecimalValue(s[..|s| - 1]) * 10 + DigitValue(s[|s| - 1])
  }

  /** `toFormatedTimestamp` */
  function ToFormatedTimestamp(ms: int): (r: string)
    ensures |r| >= 7 && r[..3] == "<t:" && r[|r| - 3..] == ":f>"
  {
    "<t:" + IntToDecimal(RoundToSeconds(ms)) + ":f>"
  }

  /** Reading back the decimal notation gives the number: the rendering loses nothing. */
  lemma {:induction false} DecimalRoundTrip(n: nat)
    ensures DecimalValue(NatToDecimal(n)) == n
  {
    if n >= 10 {
      var s := NatToDecimal(n);
      assert s[..|s| - 1] == NatToDecimal(n / 10);
      DecimalRoundTrip(n / 10);
    }
  }

  /** The seconds inside the markup are `RoundToSeconds(ms)`, read back from the output string. */
  lemma TimestampReadsBack(ms: int)
    ensures var r := ToFormatedTimestamp(ms);
            var body := r[3..|r| - 3];
            if RoundToSeconds(ms) >= 0 then AllDigits(body) && DecimalValue(body) == RoundToSeconds(ms)
            else body[0] == '-' && AllDigits(body[1..]) && DecimalValue(body[1..]) == -RoundToSeconds(ms)
  {
    var n := RoundToSeconds(ms);
    var r := ToFormatedTimestamp(ms);
    assert r[3..|r| - 3] == IntToDecimal(n);
    if n >= 0 {
      DecimalRoundTrip(n);
    } else {
      assert IntToDecimal(n)[1..] == NatToDecimal(-n);
      DecimalRoundTrip(-n);
    }
  }

  /** Rounding is monotone and never off by more than half a second. */
  lemma RoundMonotone(a: int, b: int)
    requires a <= b
    ensures RoundToSeconds(a) <= RoundToSeconds(b)
    ensures -500 <= RoundToSeconds(a) * 1000 - a <= 500
  {
  }

  /** Whole seconds are exact, and a half second rounds up. */
  lemma RoundExamples(k: int)
    ensures RoundToSeconds(k * 1000) == k
    ensures RoundToSeconds(1500) == 2 && RoundToSeconds(1499) == 1 && RoundToSeconds(-1500) == -1
  {
  }
}
