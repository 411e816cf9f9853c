/**
 * The identifier prompt of the console shell: `int.TryParse` with the default
 * integer style (leading and trailing white space, one leading sign, decimal
 * digits, 32-bit range) and the five-character validator built on it.
 */
module IdInput {
  import opened Wrappers

  const MinInt32: int := -0x8000_0000
  const MaxInt32: int := 0x7FFF_FFFF

  /** The prompt asks for an identifier of exactly this many characters. */
  const IdLength: nat := 5

  /** White space as the integer parser skips it: U+0009..U+000D and U+0020. */
  predicate IsWhite(c: char) { c == ' ' || '\t' <= c <= '\r' }

  predicate IsDigit(c: char) { '0' <= c <= '9' }

  predicate IsSign(c: char) { c == '+' || c == '-' }

  predicate AllWhite(s: string) { forall i | 0 <= i < |s| :: IsWhite(s[i]) }

  predicate AllDigits(s: string) { forall i | 0 <= i < |s| :: IsDigit(s[i]) }

  function DigitValue(c: char): (d: nat)
    requires IsDigit(c)
    ensures d <= 9
  {
    c as int - '0' as int
  }

  function Pow10(n: nat): nat
  {
    if n == 0 then 1 else 10 * Pow10(n - 1)
  }

  /** The value of a run of decimal digits, most significant digit first. */
  function DecimalValue(ds: string): nat
    requires AllDigits(ds)
  {
    if ds == [] then 0 else 10 * DecimalValue(ds[..|ds| - 1]) + DigitValue(ds[|ds| - 1])
  }

  /** A run of n digits denotes a value below 10^n. */
  lemma {:induction false} DecimalValueBound(ds: string)
    requires AllDigits(ds)
    ensures DecimalValue(ds) < Pow10(|ds|)
  {
    if ds != [] {
      DecimalValueBound(ds[..|ds| - 1]);
    }
  }

  /** The first index at or after i that does not hold white space. */
  function SkipWhite(s: string, i: nat): (j: nat)
    requires i <= |s|
    ensures i <= j <= |s|
    ensures AllWhite(s[i..j])
    ensures j < |s| ==> !IsWhite(s[j])
    decreases |s| - i
  {
    if i < |s| && IsWhite(s[i]) then SkipWhite(s, i + 1) else i
  }

  /** The first index at or after i that does not hold a decimal digit. */
  function SkipDigits(s: string, i: nat): (j: nat)
    requires i <= |s|
    ensures i <= j <= |s|
    ensures AllDigits(s[i..j])
    ensures j < |s| ==> !IsDigit(s[j])
    decreases |s| - i
  {
    if i < |s| && IsDigit(s[i]) then SkipDigits(s, i + 1) else i
  }

  /**
   * `int.TryParse(s, out v)`: Some(v) on success, None when the text is not an
   * integer or lies outside the 32-bit range.
   */
  function TryParseInt32(s: string): (r: Option<int>)
    ensures r.Some? ==> MinInt32 <= r.value <= MaxInt32
  {
    var a := SkipWhite(s, 0);
    var b := if a < |s| && IsSign(s[a]) then a + 1 else a;
    var c := SkipDigits(s, b);
    if b == c || SkipWhite(s, c) != |s| then None
    else
      var v := if b > a && s[a] == '-' then -(DecimalValue(s[b..c]) as int) else DecimalValue(s[b..c]);
      if MinInt32 <= v <= MaxInt32 then Some(v) else None
  }

  /**
   * The text s splits at a <= b < c as white space s[..a], an optional sign
   * s[a..b], a non-empty run of digits s[b..c] and white space s[c..].
   */
  predicate IntegerShape(s: string, a: nat, b: nat, c: nat)
  {
    && a <= b < c <= |s|
    && AllWhite(s[..a])
    && (b == a || (b == a + 1 && IsSign(s[a])))
    && AllDigits(s[b..c])
    && AllWhite(s[c..])
  }

  /** The integer that a text of shape (a, b, c) denotes. */
  function ShapeValue(s: string, a: nat, b: nat, c: nat): int
    requires IntegerShape(s, a, b, c)
  {
    if b > a && s[a] == '-' then -(DecimalValue(s[b..c]) as int) else DecimalValue(s[b..c])
  }

  lemma {:induction false} SkipWhiteStopsAt(s: string, i: nat, j: nat)
    requires i <= j <= |s|
    requires AllWhite(s[i..j])
    requires j < |s| ==> !IsWhite(s[j])
    ensures SkipWhite(s, i) == j
    decreases j - i
  {
    if i < j {
      assert IsWhite(s[i..j][0]);
      assert s[i + 1..j] == s[i..j][1..];
      SkipWhiteStopsAt(s, i + 1, j);
    }
  }

  lemma {:induction false} SkipDigitsStopsAt(s: string, i: nat, j: nat)
    requires i <= j <= |s|
    requires AllDigits(s[i..j])
    requires j < |s| ==> !IsDigit(s[j])
    ensures SkipDigits(s, i) == j
    decreases j - i
  {
    if i < j {
      assert IsDigit(s[i..j][0]);
      assert s[i + 1..j] == s[i..j][1..];
      SkipDigitsStopsAt(s, i + 1, j);
    }
  }

  /** Every text of integer shape is accepted exactly when its value is a 32-bit integer. */
  lemma ParseComplete(s: string, a: nat, b: nat, c: nat)
    requires IntegerShape(s, a, b, c)
    ensures TryParseInt32(s) ==
      (if MinInt32 <= ShapeValue(s, a, b, c) <= MaxInt32 then Some(ShapeValue(s, a, b, c)) else None)
  {
    assert s[0..a] == s[..a];
    if b == a {
      assert IsDigit(s[b..c][0]);
    }
    SkipWhiteStopsAt(s, 0, a);
    if c < |s| {
      assert IsWhite(s[c..][0]);
    }
    SkipDigitsStopsAt(s, b, c);
    assert s[c..|s|] == s[c..];
    SkipWhiteStopsAt(s, c, |s|);
  }

  /** Every accepted text has integer shape, and the parsed value is the one the shape denotes. */
  lemma ParseSound(s: string)
    requires TryParseInt32(s).Some?
    ensures exists a: nat, b: nat, c: nat ::
      IntegerShape(s, a, b, c) && TryParseInt32(s).value == ShapeValue(s, a, b, c)
  {
    var a := SkipWhite(s, 0);
    var b := if a < |s| && IsSign(s[a]) then a + 1 else a;
    var c := SkipDigits(s, b);
    assert s[..a] == s[0..a];
    var d := SkipWhite(s, c);
    assert s[c..] == s[c..d];
    assert IntegerShape(s, a, b, c);
  }

  /**
   * The check applied to the line read at the prompt: non-empty, exactly five
   * characters, and an integer as `int.TryParse` reads it.
   */
  function ValidateId(input: string): (r: Option<int>)
    ensures |input| != IdLength ==> r.None?
    ensures r.Some? ==> MinInt32 <= r.value <= MaxInt32
  {
    if input != "" && |input| == IdLength then TryParseInt32(input) else None
  }

  /** Five characters leave room for one sign and four digits, or for five digits. */
  lemma AcceptedIdRange(input: string)
    requires ValidateId(input).Some?
    ensures -9999 <= ValidateId(input).value <= 99999
  {
    ParseSound(input);
    var a: nat, b: nat, c: nat :| IntegerShape(input, a, b, c)
      && TryParseInt32(input).value == ShapeValue(input, a, b, c);
    DecimalValueBound(input[b..c]);
    if b > a {
      assert Pow10(c - b) <= Pow10(4) by { PowMonotone(c - b, 4); }
    } else {
      assert Pow10(c - b) <= Pow10(5) by { PowMonotone(c - b, 5); }
    }
  }

  lemma {:induction false} PowMonotone(m: nat, n: nat)
    requires m <= n
    ensures Pow10(m) <= Pow10(n)
  {
    if m < n {
      PowMonotone(m, n - 1);
    }
  }

  /** Any five decimal digits are accepted and give their decimal value, leading zeros included. */
  lemma FiveDigitsAccepted(input: string)
    requires |input| == IdLength && AllDigits(input)
    ensures ValidateId(input) == Some(DecimalValue(input))
  {
    assert input[..0] == [] && input[5..] == [] && input[0..5] == input;
    ParseComplete(input, 0, 0, 5);
    DecimalValueBound(input);
  }

  /** The prompt's own example: "00042" is the identifier 42. */
  lemma LeadingZerosExample()
    ensures ValidateId("00042") == Some(42)
  {
    FiveDigitsAccepted("00042");
    assert "00042"[..4] == "0004";
    assert "0004"[..3] == "000";
    assert "000"[..2] == "00";
    assert "00"[..1] == "0";
    assert "0"[..0] == "";
  }
}
