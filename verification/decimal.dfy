/** Decimal digit strings of natural numbers: the conversion Python's integer
    formatting performs, its inverse, and zero padding to a minimum width. */
module Decimal {

  predicate IsDigit(c: char) {
    '0' <= c <= '9'
  }

  predicate AllDigits(s: string) {
    forall i :: 0 <= i < |s| ==> IsDigit(s[i])
  }

  function DigitChar(d: nat): (c: char)
    requires d < 10
    ensures IsDigit(c)
  {
    ('0' as int + d) as char
  }

  function DigitValue(c: char): (d: nat)
    requires IsDigit(c)
    ensures d < 10
  {
    c as int - '0' as int
  }

  function Pow10(k: nat): (p: nat)
    ensures p >= 1
  {
    if k == 0 then 1 else 10 * Pow10(k - 1)
  }

  /** The shortest decimal representation of `n`: digits only, and no leading
      zero except for the number zero itself. */
  function ToDecimal(n: nat): (s: string)
    ensures |s| >= 1 && AllDigits(s)
    ensures s[0] == '0' <==> n == 0
    decreases n
  {
    if n < 10 then [DigitChar(n)] else ToDecimal(n / 10) + [DigitChar(n % 10)]
  }

  /** The number a string of decimal digits denotes (leading zeros allowed). */
  function Value(s: string): nat
    requires AllDigits(s)
  {
    if s == [] then 0 else 10 * Value(s[..|s| - 1]) + DigitValue(s[|s| - 1])
  }

  function Zeros(k: nat): (z: string)
    ensures |z| == k
  {
    seq(k, _ => '0')
  }

  /** Left-pads `s` with '0' up to `width` characters; never truncates. */
  function ZeroPad(s: string, width: nat): (r: string)
    ensures |r| == if |s| < width then width else |s|
    ensures r[|r| - |s|..] == s
    ensures forall i :: 0 <= i < |r| - |s| ==> r[i] == '0'
  {
    if |s| < width then Zeros(width - |s|) + s else s
  }

  /** Reading back the decimal representation gives the number. */
  lemma {:induction false} ValueOfDecimal(n: nat)
    ensures Value(ToDecimal(n)) == n
    decreases n
  {
    var s := ToDecimal(n);
    if n < 10 {
      assert s[..0] == [];
    } else {
      ValueOfDecimal(n / 10);
      assert s[..|s| - 1] == ToDecimal(n / 10);
    }
  }

  lemma {:induction false} ValueOfZeros(k: nat)
    ensures AllDigits(Zeros(k)) && Value(Zeros(k)) == 0
  {
    if k > 0 {
      assert Zeros(k)[..k - 1] == Zeros(k - 1);
      ValueOfZeros(k - 1);
    }
  }

  /** Leading zeros do not change the value of a digit string. */
  lemma {:induction false} ValueIgnoresLeadingZeros(k: nat, s: string)
    requires AllDigits(s)
    ensures AllDigits(Zeros(k) + s)
    ensures Value(Zeros(k) + s) == Value(s)
    decreases |s|
  {
    var z := Zeros(k) + s;
    if s == [] {
      assert z == Zeros(k);
      ValueOfZeros(k);
    } else {
      ValueIgnoresLeadingZeros(k, s[..|s| - 1]);
      assert z[..|z| - 1] == Zeros(k) + s[..|s| - 1];
    }
  }

  /** Zero padding keeps a digit string's value. */
  lemma PadKeepsValue(s: string, width: nat)
    requires AllDigits(s)
    ensures AllDigits(ZeroPad(s, width)) && Value(ZeroPad(s, width)) == Value(s)
  {
    if |s| < width {
      ValueIgnoresLeadingZeros(width - |s|, s);
    }
  }

  /** A zero-padded decimal still denotes the number it was made from. */
  lemma ValueOfPadded(n: nat, width: nat)
    ensures AllDigits(ZeroPad(ToDecimal(n), width))
    ensures Value(ZeroPad(ToDecimal(n), width)) == n
  {
    ValueOfDecimal(n);
    PadKeepsValue(ToDecimal(n), width);
  }

  /** The representation of `n` has at most `k` digits exactly when `n < 10^k`. */
  lemma {:induction false} DecimalLength(n: nat, k: nat)
    requires k >= 1
    ensures |ToDecimal(n)| <= k <==> n < Pow10(k)
    decreases n
  {
    if n >= 10 {
      if k == 1 {
        assert |ToDecimal(n / 10)| >= 1;
      } else {
        DecimalLength(n / 10, k - 1);
      }
    }
  }

  /** Appending a digit multiplies the value by ten and adds the digit. */
  lemma ValueSnoc(s: string, c: char)
    requires AllDigits(s) && IsDigit(c)
    ensures AllDigits(s + [c]) && Value(s + [c]) == 10 * Value(s) + DigitValue(c)
  {
    assert (s + [c])[..|s|] == s;
  }

  lemma CharRoundTrip(c: char)
    requires IsDigit(c)
    ensures DigitChar(DigitValue(c)) == c
  {
  }

  /** A digit string without a leading zero (or the single digit "0") is
      the decimal representation of its value. */
  lemma {:induction false} DecimalOfValue(s: string)
    requires |s| >= 1 && AllDigits(s) && (s[0] != '0' || |s| == 1)
    ensures ToDecimal(Value(s)) == s
    decreases |s|
  {
    var init := s[..|s| - 1];
    var last := s[|s| - 1];
    CharRoundTrip(last);
    if |s| == 1 {
      assert init == [];
    } else {
      DecimalOfValue(init);
      var m := Value(init);
      assert m != 0;
      assert Value(s) / 10 == m && Value(s) % 10 == DigitValue(last);
      assert s == init + [last];
    }
  }

  lemma ZerosSucc(k: nat)
    ensures Zeros(k + 1) == Zeros(1) + Zeros(k)
  {
  }

  /** One more leading zero in the text is one more column of padding. */
  lemma PadOneMore(x: string, tail: string, d: string)
    requires ZeroPad(x, |tail|) == tail
    requires |d| >= 1 && d[0] == '0' && d[1..] == tail
    ensures ZeroPad(x, |d|) == d
  {
    assert d == Zeros(1) + tail;
    assert |x| <= |tail|;
    ZerosSucc(|tail| - |x|);
    assert ZeroPad(x, |d|) == Zeros(|tail| - |x| + 1) + x;
    assert tail == Zeros(|tail| - |x|) + x;
  }

  /** Any digit string, leading zeros included, is the zero-padded decimal
      representation of its value at its own width. */
  lemma {:induction false} PaddedOfValue(d: string)
    requires |d| >= 1 && AllDigits(d)
    ensures ZeroPad(ToDecimal(Value(d)), |d|) == d
    decreases |d|
  {
    if d[0] != '0' || |d| == 1 {
      DecimalOfValue(d);
    } else {
      var tail := d[1..];
      assert Value(d) == Value(tail) by {
        assert d == Zeros(1) + tail;
        ValueIgnoresLeadingZeros(1, tail);
      }
      PaddedOfValue(tail);
      PadOneMore(ToDecimal(Value(tail)), tail, d);
    }
  }
}
