/**
 The time label drawn above the plot: "t = " followed by the frame number
 written in decimal, as string formatting renders a non-negative integer.
 */
module Title {

  predicate IsDigit(c: char) { '0' <= c <= '9' }

  predicate IsDigits(s: string) { forall k :: 0 <= k < |s| ==> IsDigit(s[k]) }

  function DigitChar(d: nat): char
    requires d < 10
  {
    ('0' as int + d) as char
  }

  function DigitValue(c: char): nat
    requires IsDigit(c)
  {
    c as int - '0' as int
  }

  /** The decimal rendering of n: digits only, never empty, and without a
      leading zero; zero itself is the single digit "0". */
  function Decimal(n: nat): (s: string)
    ensures |s| > 0 && IsDigits(s)
    ensures s[0] == '0' ==> n == 0 && s == "0"
    decreases n
  {
    if n < 10 then [DigitChar(n)] else Decimal(n / 10) + [DigitChar(n % 10)]
  }

  /** The number a string of decimal digits denotes. */
  function DigitsValue(s: string): nat
    requires IsDigits(s)
    decreases |s|
  {
    if s == [] then 0 else 10 * DigitsValue(s[..|s| - 1]) + DigitValue(s[|s| - 1])
  }

  /** Reading back the decimal rendering gives the number. */
  lemma {:induction false} DecimalRoundTrip(n: nat)
    ensures DigitsValue(Decimal(n)) == n
    decreases n
  {
    if n >= 10 {
      DecimalRoundTrip(n / 10);
      var s := Decimal(n);
      assert s[..|s| - 1] == Decimal(n / 10);
    }
  }

  const Prefix: string := "t = "

  /** The label for a frame: the prefix, then the frame's digits, with no
      leading zero; frame 0 is labelled "t = 0". */
  function FrameTitle(frame: nat): (t: string)
    ensures |t| > |Prefix| && t[..|Prefix|] == Prefix && IsDigits(t[|Prefix|..])
    ensures t[|Prefix|] == '0' ==> frame == 0 && t == "t = 0"
  {
    Prefix + Decimal(frame)
  }

  /** The label names its frame: different frames get different labels,
      and the frame can be read back from the label. */
  lemma FrameTitleNamesFrame(a: nat, b: nat)
    ensures DigitsValue(FrameTitle(a)[|Prefix|..]) == a
    ensures FrameTitle(a) == FrameTitle(b) <==> a == b
  {
    assert FrameTitle(a)[|Prefix|..] == Decimal(a);
    assert FrameTitle(b)[|Prefix|..] == Decimal(b);
    DecimalRoundTrip(a);
    DecimalRoundTrip(b);
  }
}
