/** The label template: a literal prefix, one integer placeholder with the
    format spec `0<width>` (zero fill, sign-aware, minimum width), and a literal
    suffix. The command's default template `<ASN:{:09}>` is `AsnTemplate`.
    `Parse` is the reading side: it recovers the number from a label, as the
    extraction pattern `<ASN:([0-9]{9})>` does for the default template. */
module LabelFormat {
  import opened Decimal
  import opened Outcomes

  datatype Template = Template(prefix: string, width: nat, suffix: string)

  /** `<ASN:{:09}>` */
  const AsnTemplate := Template("<ASN:", 9, ">")

  /** Python's rendering of integer `n` under the format spec `0<width>`: the
      sign comes first, then zeros, then the digits, padded to at least `width`
      characters in total and never truncated. */
  function Body(width: nat, n: int): (b: string)
    ensures n >= 0 ==> AllDigits(b)
    ensures n < 0 ==> |b| >= 2 && b[0] == '-' && AllDigits(b[1..])
  {
    if n < 0 then
      "-" + ZeroPad(ToDecimal(-n), if width > 0 then width - 1 else 0)
    else
      ZeroPad(ToDecimal(n), width)
  }

  /** `template.format(n)` */
  function Format(t: Template, n: int): string {
    t.prefix + Body(t.width, n) + t.suffix
  }

  /** Reads an optionally signed run of decimal digits. */
  function ParseBody(b: string): Option<int> {
    if |b| >= 2 && b[0] == '-' && AllDigits(b[1..]) then
      var magnitude: int := Value(b[1..]);
      Some(-magnitude)
    else if |b| >= 1 && AllDigits(b) then Some(Value(b))
    else None
  }

  /** Recovers the number from a label made with template `t`, or None when
      the text does not have the template's shape. */
  function Parse(t: Template, s: string): Option<int> {
    if |s| >= |t.prefix| + |t.suffix|
       && s[..|t.prefix|] == t.prefix
       && s[|s| - |t.suffix|..] == t.suffix
    then ParseBody(s[|t.prefix|..|s| - |t.suffix|])
    else None
  }

  lemma ParseDigitsBody(digits: string)
    requires |digits| >= 1 && AllDigits(digits)
    ensures ParseBody(digits) == Some(Value(digits))
  {
    assert IsDigit(digits[0]);
  }

  lemma ParseSignedBody(b: string, digits: string, m: int)
    requires b == "-" + digits && |digits| >= 1 && AllDigits(digits) && Value(digits) == m
    ensures ParseBody(b) == Some(-m)
  {
    assert b[1..] == digits;
  }

  lemma NegativeBodyRoundTrip(width: nat, n: int)
    requires n < 0
    ensures ParseBody(Body(width, n)) == Some(n)
  {
    var w: nat := if width > 0 then width - 1 else 0;
    var digits := ZeroPad(ToDecimal(-n), w);
    assert AllDigits(digits) && Value(digits) == -n by {
      ValueOfPadded(-n, w);
    }
    assert Body(width, n) == "-" + digits;
    ParseSignedBody(Body(width, n), digits, -n);
  }

  lemma BodyRoundTrip(width: nat, n: int)
    ensures ParseBody(Body(width, n)) == Some(n)
  {
    if n < 0 {
      NegativeBodyRoundTrip(width, n);
    } else {
      var digits := ZeroPad(ToDecimal(n), width);
      assert Body(width, n) == digits;
      ValueOfPadded(n, width);
      ParseDigitsBody(digits);
    }
  }

  /** Every label reads back as the number it was made from. */
  lemma ParseFormat(t: Template, n: int)
    ensures Parse(t, Format(t, n)) == Some(n)
  {
    var s := Format(t, n);
    var b := Body(t.width, n);
    assert s[..|t.prefix|] == t.prefix;
    assert s[|s| - |t.suffix|..] == t.suffix;
    assert s[|t.prefix|..|s| - |t.suffix|] == b;
    BodyRoundTrip(t.width, n);
  }

  /** Distinct numbers get distinct labels, and equal numbers equal ones. */
  lemma FormatInjective(t: Template, n: int, m: int)
    ensures Format(t, n) == Format(t, m) <==> n == m
  {
    if Format(t, n) == Format(t, m) {
      ParseFormat(t, n);
      ParseFormat(t, m);
    }
  }

  /** The label's length: the field grows past `width` rather than truncating
      when the number needs more characters. */
  lemma FormatLength(t: Template, n: int)
    ensures n >= 0 ==> |Format(t, n)| == |t.prefix| + |t.suffix| + (if |ToDecimal(n)| < t.width then t.width else |ToDecimal(n)|)
    ensures n < 0 ==> |Format(t, n)| == |t.prefix| + |t.suffix| + (if 1 + |ToDecimal(-n)| < t.width then t.width else 1 + |ToDecimal(-n)|)
  {
  }

  /** The shape the default extraction pattern `<ASN:([0-9]{9})>` accepts. */
  predicate MatchesAsnPattern(s: string) {
    && |s| == 15
    && s[..5] == "<ASN:"
    && AllDigits(s[5..14])
    && s[14] == '>'
  }

  /** A default label matches the nine-digit extraction pattern exactly when
      the number lies in 0 .. 999999999. */
  lemma AsnLabelMatchesPattern(n: int)
    ensures MatchesAsnPattern(Format(AsnTemplate, n)) <==> 0 <= n < Pow10(9)
  {
    var s := Format(AsnTemplate, n);
    var b := Body(9, n);
    assert s == "<ASN:" + b + ">";
    if n < 0 {
      if |s| == 15 {
        assert s[5..14] == b;
        assert !IsDigit(b[0]);
      }
    } else {
      DecimalLength(n, 9);
      if |s| == 15 {
        assert s[..5] == "<ASN:";
        assert s[5..14] == b;
        assert s[14] == '>';
      }
    }
  }

  /** A nine-digit string is the field of the number it denotes. */
  lemma AsnLabelOfDigits(digits: string, n: int)
    requires |digits| == 9 && AllDigits(digits) && Value(digits) == n
    ensures Format(AsnTemplate, n) == "<ASN:" + digits + ">"
  {
    PaddedOfValue(digits);
    assert Body(9, n) == digits;
  }

  /** Conversely, every text the pattern accepts is the default label of the
      nine-digit number it spells, and reads back as that number. */
  lemma AsnPatternIsLabel(s: string)
    requires MatchesAsnPattern(s)
    ensures Value(s[5..14]) < Pow10(9)
    ensures Format(AsnTemplate, Value(s[5..14])) == s
    ensures Parse(AsnTemplate, s) == Some(Value(s[5..14]))
  {
    var digits := s[5..14];
    var n := Value(digits);
    PaddedOfValue(digits);
    assert Body(9, n) == digits;
    assert s == "<ASN:" + digits + ">";
    AsnLabelMatchesPattern(n);
    ParseFormat(AsnTemplate, n);
  }
}
