/** Decimal rendering of natural numbers as Python's `str(int)` and
    `str.zfill` produce it, and the digit parsing that inverts them. */
module Text {

  predicate IsDigit(c: char) { '0' <= c <= '9' }

  predicate AllDigits(s: string) { forall i :: 0 <= i < |s| ==> IsDigit(s[i]) }

  function DigitChar(d: nat): (c: char)
    requires d < 10
    ensures IsDigit(c) && DigitValue(c) == d
  {
    ('0' as int + d) as char
  }

  function DigitValue(c: char): nat
    requires IsDigit(c)
  {
    c as int - '0' as int
  }

  function Pow10(k: nat): (p: nat)
    ensures p >= 1
  {
    if k == 0 then 1 else 10 * Pow10(k - 1)
  }

  /** `str(n)` for a non-negative integer: decimal digits, most significant
      first, with no leading zero except for zero itself. */
  function DecimalString(n: nat): (s: string)
    ensures |s| >= 1 && AllDigits(s)
    ensures (s[0] == '0') == (n == 0)
    decreases n
  {
    if n < 10 then [DigitChar(n)] else DecimalString(n / 10) + [DigitChar(n % 10)]
  }

  /** The value of a string of decimal digits, leading zeros allowed. */
  function ParseDigits(s: string): (n: nat)
    requires AllDigits(s)
    ensures n < Pow10(|s|)
  {
    if s == [] then 0 else ParseDigits(s[..|s| - 1]) * 10 + DigitValue(s[|s| - 1])
  }

  function Zeros(k: nat): (z: string)
    ensures |z| == k && forall i :: 0 <= i < k ==> z[i] == '0'
  {
    if k == 0 then [] else Zeros(k - 1) + ['0']
  }

  /** `s.zfill(width)` for a string without a sign: left-padded with '0' up
      to `width` characters, unchanged when already that long. */
  function ZFill(s: string, width: nat): string
  {
    if |s| >= width then s else Zeros(width - |s|) + s
  }

  /** `str(n).zfill(width)`, which is also what `strftime` writes for its
      fixed-width numeric fields. */
  function ZeroPad(n: nat, width: nat): (s: string)
    ensures |s| >= 1 && |s| >= width && AllDigits(s)
  {
    var d := DecimalString(n);
    LeadingZeros(if |d| < width then width - |d| else 0, d);
    ZFill(d, width)
  }

  predicate IsPrefix(p: string, s: string) { |p| <= |s| && s[..|p|] == p }

  predicate IsSuffix(p: string, s: string) { |p| <= |s| && s[|s| - |p|..] == p }

  /** Parsing undoes `str(n)`. */
  lemma {:induction false} DecimalRoundTrip(n: nat)
    ensures ParseDigits(DecimalString(n)) == n
    decreases n
  {
    if n >= 10 {
      var s := DecimalString(n);
      assert s[..|s| - 1] == DecimalString(n / 10);
      DecimalRoundTrip(n / 10);
    }
  }

  /** `str(n)` has no more digits than a width whose power of ten exceeds n. */
  lemma {:induction false} DecimalLength(n: nat, w: nat)
    requires w >= 1 && n < Pow10(w)
    ensures |DecimalString(n)| <= w
    decreases n
  {
    if n >= 10 {
      assert w >= 2;
      assert n / 10 < Pow10(w - 1);
      DecimalLength(n / 10, w - 1);
    }
  }

  /** A number at least 10^(w-1) already prints with w digits or more. */
  lemma {:induction false} DecimalLengthAtLeast(n: nat, w: nat)
    requires w >= 1 && Pow10(w - 1) <= n
    ensures |DecimalString(n)| >= w
    decreases n
  {
    if w > 1 {
      assert n >= 10;
      assert Pow10(w - 2) <= n / 10;
      DecimalLengthAtLeast(n / 10, w - 1);
    }
  }

  lemma {:induction false} ZerosValue(k: nat)
    ensures AllDigits(Zeros(k)) && ParseDigits(Zeros(k)) == 0
  {
    if k > 0 {
      ZerosValue(k - 1);
      assert Zeros(k)[..k - 1] == Zeros(k - 1);
    }
  }

  /** Leading zeros do not change the value of a digit string. */
  lemma {:induction false} LeadingZeros(k: nat, s: string)
    requires AllDigits(s)
    ensures AllDigits(Zeros(k) + s) && ParseDigits(Zeros(k) + s) == ParseDigits(s)
    decreases |s|
  {
    ZerosValue(k);
    var t := Zeros(k) + s;
    assert AllDigits(t) by {
      forall i | 0 <= i < |t| ensures IsDigit(t[i]) {
        if i >= k { assert t[i] == s[i - k]; }
      }
    }
    if s == [] {
      assert t == Zeros(k);
    } else {
      var s' := s[..|s| - 1];
      assert t[..|t| - 1] == Zeros(k) + s';
      assert t[|t| - 1] == s[|s| - 1];
      LeadingZeros(k, s');
    }
  }

  /** A zero-padded field: exactly `width` digits that read back as n,
      provided n fits in that width (a
      width of zero still prints the one digit of `str(0)`). */
  lemma ZeroPadField(n: nat, width: nat)
    requires width >= 1 && n < Pow10(width)
    ensures |ZeroPad(n, width)| == width && AllDigits(ZeroPad(n, width))
    ensures ParseDigits(ZeroPad(n, width)) == n
  {
    var s := DecimalString(n);
    DecimalLength(n, width);
    DecimalRoundTrip(n);
    if |s| < width {
      LeadingZeros(width - |s|, s);
    }
  }

  /** `str(n).zfill(2)` is "0" followed by the digit for n below 10, and is
      `str(n)` itself from 10 on. */
  lemma ZeroPadTwo(n: nat)
    ensures n < 10 ==> ZeroPad(n, 2) == ['0', DigitChar(n)]
    ensures n >= 10 ==> ZeroPad(n, 2) == DecimalString(n)
  {
    if n >= 10 {
      DecimalLengthAtLeast(n, 2);
    } else {
      assert Zeros(1) == ['0'];
    }
  }
}
