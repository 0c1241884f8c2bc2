/** The percentage helpers of the dashboard (DashboardView.jsx): completion
    values are clamped into [0, 100] and shown as a rounded whole number
    followed by `%`. A JavaScript value is either a finite number or
    anything `Number.isFinite` rejects (NaN, the infinities and
    non-numbers). */
module Dashboard {
  import opened Strings

  datatype NumberValue = Finite(x: real) | NotFinite

  /** clampPercent: 0 for a value that is not a finite number, otherwise
      the value pulled into [0, 100]. */
  function ClampPercent(value: NumberValue): (r: real)
    ensures 0.0 <= r <= 100.0
    ensures value.NotFinite? ==> r == 0.0
    ensures value.Finite? ==> (r == value.x <==> 0.0 <= value.x <= 100.0)
    ensures value.Finite? && value.x < 0.0 ==> r == 0.0
    ensures value.Finite? && value.x > 100.0 ==> r == 100.0
  {
    match value
    case NotFinite => 0.0
    case Finite(x) =>
      var capped := if x < 100.0 then x else 100.0;
      if capped > 0.0 then capped else 0.0
  }

  /** Clamping twice is clamping once. */
  lemma ClampIdempotent(value: NumberValue)
    ensures ClampPercent(Finite(ClampPercent(value))) == ClampPercent(value)
  {
  }

  /** Clamping keeps the order of finite values. */
  lemma ClampMonotone(x: real, y: real)
    requires x <= y
    ensures ClampPercent(Finite(x)) <= ClampPercent(Finite(y))
  {
  }

  /** `Math.round`: the nearest integer, halves rounded up. */
  function Round(x: real): (n: int)
    ensures n as real - 0.5 <= x < n as real + 0.5
  {
    (x + 0.5).Floor
  }

  /** percentLabel. */
  function PercentLabel(value: NumberValue): (text: string)
  {
    IntToString(Round(ClampPercent(value))) + "%"
  }

  /** A label is a whole number from 0 to 100, written in decimal without
      leading zeros, that is the clamped value rounded, followed by `%`. */
  lemma PercentLabelShape(value: NumberValue)
    ensures var text := PercentLabel(value);
      var digits := text[..|text| - 1];
      2 <= |text| <= 4 && text[|text| - 1] == '%'
      && AllDigits(digits) && (digits[0] != '0' || digits == "0")
      && DigitsValue(digits) == Round(ClampPercent(value))
      && 0 <= DigitsValue(digits) <= 100
  {
    var c := ClampPercent(value);
    assert 0.0 <= c <= 100.0;
    var n := Round(c);
    assert 0 <= n <= 100;
    assert PercentLabel(value) == NatToString(n) + "%";
    NumberLabel(n);
  }

  /** A whole number from 0 to 100 followed by `%`. */
  lemma NumberLabel(n: nat)
    requires n <= 100
    ensures var text := NatToString(n) + "%";
      var digits := text[..|text| - 1];
      2 <= |text| <= 4 && text[|text| - 1] == '%'
      && AllDigits(digits) && (digits[0] != '0' || digits == "0") && DigitsValue(digits) == n
  {
    var digits := NatToString(n);
    assert (digits + "%")[..|digits|] == digits;
    assert |digits| <= 3 by {
      NatToStringLength(n, 3);
      assert Pow10(3) == 1000;
    }
    assert n == 0 ==> digits == "0";
  }

  /** A whole percentage from 0 to 100 is shown as itself. */
  lemma PercentLabelOfWhole(n: nat)
    requires n <= 100
    ensures PercentLabel(Finite(n as real)) == NatToString(n) + "%"
  {
    assert Round(n as real) == n;
  }

  /** Every input that is not a finite number reads 0%. */
  lemma PercentLabelNotFinite()
    ensures PercentLabel(NotFinite) == "0%"
  {
    assert Round(0.0) == 0;
    assert NatToString(0) == "0";
  }
}
