/**
 * The presentation of a byte count: the unit it is shown in, the label
 * (rounded value and unit) and the one- or two-character magnitude badge.
 * Values are exact reals; the text rendering of the rounded number is
 * represented by the number of decimals chosen for it.
 */
module SizeCalc {

  /** "log2": binary units, base 1024; "log10": decimal units, base 1000. */
  datatype Scale = Log2 | Log10

  /** The label `"<value rounded to decimals> <unit>"`. */
  datatype Label = Label(value: real, decimals: nat, unit: string)

  datatype Presentation = Presentation(badge: string, sizeLabel: Label)

  function Base(scale: Scale): nat
  {
    if scale == Log2 then 1024 else 1000
  }

  function Units(scale: Scale): seq<string>
  {
    if scale == Log2 then ["B", "KiB", "MiB", "GiB", "TiB"] else ["B", "KB", "MB", "GB", "TB"]
  }

  /** The base of the logarithm behind the badge's digit. */
  function LogBase(scale: Scale): nat
  {
    if scale == Log2 then 2 else 10
  }

  function Pow(b: nat, e: nat): nat
  {
    if e == 0 then 1 else b * Pow(b, e - 1)
  }

  lemma {:induction false} PowPositive(b: nat, e: nat)
    requires b >= 1
    ensures Pow(b, e) >= 1
  {
    if e > 0 {
      PowPositive(b, e - 1);
    }
  }

  /** Powers of a base of at least 2 grow strictly. */
  lemma {:induction false} PowStrictlyIncreasing(b: nat, i: nat, j: nat)
    requires b >= 2 && i < j
    ensures Pow(b, i) < Pow(b, j)
    decreases j
  {
    PowPositive(b, j - 1);
    if i < j - 1 {
      PowStrictlyIncreasing(b, i, j - 1);
    }
  }

  function UnitIndexFrom(bytes: nat, base: nat, e: nat): (exp: nat)
    requires base >= 2 && e <= 4
    requires forall j :: 1 <= j <= e ==> bytes >= Pow(base, j)
    ensures e <= exp <= 4
    ensures exp < 4 ==> bytes < Pow(base, exp + 1)
    ensures forall j :: 1 <= j <= exp ==> bytes >= Pow(base, j)
    decreases 4 - e
  {
    if e == 4 || bytes < Pow(base, e + 1) then e else UnitIndexFrom(bytes, base, e + 1)
  }

  /**
   * The index of the unit a byte count is shown in: the least `exp` with
   * `bytes < base^(exp + 1)`, or 4 (the largest unit) when there is none.
   */
  function UnitIndex(bytes: nat, base: nat): (exp: nat)
    requires base >= 2
    ensures exp <= 4
    ensures exp < 4 ==> bytes < Pow(base, exp + 1)
    ensures forall j :: 1 <= j <= exp ==> bytes >= Pow(base, j)
  {
    UnitIndexFrom(bytes, base, 0)
  }

  /** The two properties of UnitIndex determine it. */
  lemma UnitIndexUnique(bytes: nat, base: nat, exp: nat)
    requires base >= 2 && exp <= 4
    requires exp < 4 ==> bytes < Pow(base, exp + 1)
    requires forall j :: 1 <= j <= exp ==> bytes >= Pow(base, j)
    ensures exp == UnitIndex(bytes, base)
  {
  }

  /** The byte count expressed in the unit of index `exp`: `bytes / base^exp`. */
  function Scaled(bytes: nat, base: nat, exp: nat): real
    requires base >= 2
  {
    PowPositive(base, exp);
    bytes as real / Pow(base, exp) as real
  }

  /** Scaling is undone by multiplying back: no byte is lost by the unit change. */
  lemma ScaledRoundTrip(bytes: nat, base: nat, exp: nat)
    requires base >= 2
    ensures Scaled(bytes, base, exp) * Pow(base, exp) as real == bytes as real
  {
    PowPositive(base, exp);
  }

  /** Dividing the scaled value by the base moves it to the next unit. */
  lemma ScaledStep(bytes: nat, base: nat, exp: nat)
    requires base >= 2
    ensures Scaled(bytes, base, exp) / base as real == Scaled(bytes, base, exp + 1)
  {
    PowPositive(base, exp);
    var p := Pow(base, exp) as real;
    var b := base as real;
    var n := bytes as real;
    assert Pow(base, exp + 1) as real == b * p;
    var lhs := (n / p) / b;
    var rhs := n / (b * p);
    assert lhs * b == n / p;
    assert (n / p) * p == n;
    assert lhs * (b * p) == (lhs * b) * p;
    assert rhs * (b * p) == n;
    assert (lhs - rhs) * (b * p) == 0.0;
  }

  /** Dividing by a positive number preserves a comparison with a bound scaled by it. */
  lemma DivCompare(n: real, p: real, c: real)
    requires p > 0.0
    ensures n / p >= c <==> n >= c * p
  {
    var v := n / p;
    assert v * p == n;
    if v >= c {
      assert (v - c) * p >= 0.0;
    } else {
      assert (c - v) * p > 0.0;
    }
  }

  /** The scaled value compares with a bound exactly as the byte count compares with the bound times the power. */
  lemma ScaledCompare(bytes: nat, base: nat, exp: nat, bound: nat)
    requires base >= 2
    ensures Scaled(bytes, base, exp) >= bound as real <==> bytes >= bound * Pow(base, exp)
  {
    PowPositive(base, exp);
    DivCompare(bytes as real, Pow(base, exp) as real, bound as real);
    assert (bound * Pow(base, exp)) as real == bound as real * Pow(base, exp) as real;
  }

  /**
   * `toUnit`: divides by the base while the value is at least the base and
   * a larger unit remains.
   */
  method ToUnit(bytes: nat, scale: Scale) returns (value: real, unit: string, exp: nat, units: seq<string>, base: nat)
    ensures base == Base(scale) && units == Units(scale)
    ensures exp == UnitIndex(bytes, base) && unit == units[exp]
    ensures value == Scaled(bytes, base, exp)
  {
    base := if scale == Log2 then 1024 else 1000;
    units := if scale == Log2 then ["B", "KiB", "MiB", "GiB", "TiB"] else ["B", "KB", "MB", "GB", "TB"];
    exp := 0;
    value := bytes as real;
    assert base >= 2 && |units| == 5;
    while value >= base as real && exp < |units| - 1
      invariant exp <= 4
      invariant value == Scaled(bytes, base, exp)
      invariant forall j :: 1 <= j <= exp ==> bytes >= Pow(base, j)
      decreases 4 - exp
    {
      ScaledCompare(bytes, base, exp, base);
      assert bytes >= Pow(base, exp + 1);
      ScaledStep(bytes, base, exp);
      value := value / base as real;
      exp := exp + 1;
    }
    ScaledCompare(bytes, base, exp, base);
    UnitIndexUnique(bytes, base, exp);
    unit := units[exp];
  }

  /** The largest `r >= e` with `b^r <= n`, searching upwards from `e`. */
  function FloorLogFrom(b: nat, n: nat, e: nat): (r: nat)
    requires b >= 2 && Pow(b, e) <= n
    ensures e <= r && Pow(b, r) <= n < Pow(b, r + 1)
    decreases n - Pow(b, e)
  {
    if n < Pow(b, e + 1) then e
    else
      PowStrictlyIncreasing(b, e, e + 1);
      FloorLogFrom(b, n, e + 1)
  }

  /** The largest `e` with `b^e <= n`: the integer floor of the base-`b` logarithm. */
  function FloorLog(b: nat, n: nat): (e: nat)
    requires b >= 2 && n >= 1
    ensures Pow(b, e) <= n < Pow(b, e + 1)
  {
    FloorLogFrom(b, n, 0)
  }

  /**
   * `withinUnitExponent`: 0 for a value that is not positive or below 1
   * (where the floored logarithm is negative), otherwise the largest `e`
   * with `base^e <= value`, the base being 2 or 10.
   */
  function WithinUnitExponent(value: real, scale: Scale): (e: nat)
    ensures value < 1.0 ==> e == 0
    ensures value >= 1.0 ==> Pow(LogBase(scale), e) as real <= value < Pow(LogBase(scale), e + 1) as real
  {
    if value <= 0.0 then 0
    else if value < 1.0 then 0
    else FloorLog(LogBase(scale), value.Floor)
  }

  /** `formatLabel`'s choice of decimals: 0 from 100 up, 1 from 10 up, 2 below. */
  function Decimals(value: real): (d: nat)
    ensures d <= 2
    ensures d == 0 <==> value >= 100.0
    ensures d == 2 <==> value < 10.0
  {
    if value >= 100.0 then 0 else if value >= 10.0 then 1 else 2
  }

  /**
   * `formatLabel`: the value rounded to the chosen decimals, a space, the
   * unit. For a value in [1, 1000) the decimals are those that put the
   * unrounded value, shifted by them, in [100, 1000).
   */
  function FormatLabel(value: real, unit: string): (l: Label)
    ensures l.value == value && l.unit == unit && l.decimals == Decimals(value)
    ensures 1.0 <= value < 1000.0 ==> 100.0 <= value * Pow(10, l.decimals) as real < 1000.0
  {
    if 1.0 <= value < 1000.0 then
      LabelShowsThreeDigits(value);
      Label(value, Decimals(value), unit)
    else
      Label(value, Decimals(value), unit)
  }

  /**
   * For a value in [1, 1000), the value shifted by the chosen number of
   * decimals lies in [100, 1000): three digits before rounding, which the
   * rounding of `toFixed` can carry to four (9.999 is shown as "10.00").
   */
  lemma LabelShowsThreeDigits(value: real)
    requires 1.0 <= value < 1000.0
    ensures 100.0 <= value * Pow(10, Decimals(value)) as real < 1000.0
  {
    assert Pow(10, 1) == 10;
    assert Pow(10, 2) == 100;
  }

  /** `toUpperCase` on ASCII: a lower-case letter becomes its capital, any other character stays. */
  function ToUpper(c: char): (r: char)
    ensures 'a' <= c <= 'z' ==> 'A' <= r <= 'Z' && r as int == c as int - 32
    ensures !('a' <= c <= 'z') ==> r == c
  {
    if 'a' <= c <= 'z' then (c as int - 32) as char else c
  }

  /** `(unit[0] || "").toUpperCase()`. */
  function UnitLetter(unit: string): (r: string)
    ensures unit == "" ==> r == ""
    ensures unit != "" ==> |r| == 1 && r[0] == ToUpper(unit[0])
  {
    if unit == "" then "" else [ToUpper(unit[0])]
  }

  /** The decimal digit of `d`, for `d <= 9`. */
  function Digit(d: nat): (c: char)
    requires d <= 9
    ensures '0' <= c <= '9' && c as int - '0' as int == d
  {
    ('0' as int + d) as char
  }

  /** The badge: the exponent digit and the unit letter, or the letter alone when the exponent exceeds 9. */
  function Badge(e: nat, unit: string): (b: string)
    ensures |b| <= 2
    ensures e <= 9 ==> |b| >= 1 && '0' <= b[0] <= '9' && b[0] as int - '0' as int == e && b[1..] == UnitLetter(unit)
    ensures e > 9 ==> b == UnitLetter(unit)
  {
    if e <= 9 then [Digit(e)] + UnitLetter(unit) else UnitLetter(unit)
  }

  /**
   * `calcPresentation`: the label is in the unit `toUnit` picks, holds the
   * byte count scaled to it (`ScaledRoundTrip` multiplies it back) and uses
   * the decimals `formatLabel` chooses for it; the badge is the within-unit
   * exponent and the unit's letter, one or two characters ending in that letter.
   */
  function CalcPresentation(bytes: nat, scale: Scale): (p: Presentation)
    ensures p.sizeLabel.unit == Units(scale)[UnitIndex(bytes, Base(scale))]
    ensures p.sizeLabel.value == Scaled(bytes, Base(scale), UnitIndex(bytes, Base(scale)))
    ensures p.sizeLabel.decimals == Decimals(p.sizeLabel.value)
    ensures p.badge == Badge(WithinUnitExponent(p.sizeLabel.value, scale), p.sizeLabel.unit)
    ensures 1 <= |p.badge| <= 2 && p.badge[|p.badge| - 1] == p.sizeLabel.unit[0]
  {
    var base := Base(scale);
    var exp := UnitIndex(bytes, base);
    var value := Scaled(bytes, base, exp);
    var unit := Units(scale)[exp];
    UnitLetterIsFirst(scale, exp);
    var badge := Badge(WithinUnitExponent(value, scale), unit);
    assert badge[|badge| - 1] == unit[0];
    Presentation(badge, FormatLabel(value, unit))
  }

  /** Every unit name starts with a capital, so its badge letter is its first character. */
  lemma UnitLetterIsFirst(scale: Scale, i: nat)
    requires i < |Units(scale)|
    ensures Units(scale)[i] != "" && UnitLetter(Units(scale)[i]) == [Units(scale)[i][0]]
  {
  }

  /**
   * The unit `toUnit` settles on: the value is below the base unless the
   * unit is the largest; at least 1 once a
   * unit above bytes is used; bytes below the base stay in "B".
   */
  lemma UnitChoice(bytes: nat, scale: Scale)
    ensures var base := Base(scale);
      var exp := UnitIndex(bytes, base);
      var value := Scaled(bytes, base, exp);
      && (exp < 4 ==> value < base as real)
      && (exp > 0 ==> value >= 1.0)
      && (bytes < base ==> exp == 0 && Units(scale)[exp] == "B")
  {
    var base := Base(scale);
    var exp := UnitIndex(bytes, base);
    var value := Scaled(bytes, base, exp);
    assert Pow(base, exp + 1) == base * Pow(base, exp);
    if exp < 4 {
      ScaledCompare(bytes, base, exp, base);
      assert value < base as real;
    }
    if exp > 0 {
      ScaledCompare(bytes, base, exp, 1);
      assert value >= 1.0;
    }
    if bytes < base {
      assert Pow(base, 1) == base;
      assert exp == 0;
    }
  }

  /** Below the largest unit the badge exponent is at most 9 (binary) or 2 (decimal). */
  lemma ExponentBound(bytes: nat, scale: Scale)
    requires UnitIndex(bytes, Base(scale)) < 4
    ensures var value := Scaled(bytes, Base(scale), UnitIndex(bytes, Base(scale)));
      WithinUnitExponent(value, scale) <= if scale == Log2 then 9 else 2
  {
    var value := Scaled(bytes, Base(scale), UnitIndex(bytes, Base(scale)));
    UnitChoice(bytes, scale);
    var e := WithinUnitExponent(value, scale);
    var b := LogBase(scale);
    var top := if scale == Log2 then 10 else 3;
    assert Pow(b, top) == Base(scale) by {
      if scale == Log2 {
        assert Pow(2, 5) == 32;
        assert Pow(2, 10) == 32 * 32;
      } else {
        assert Pow(10, 3) == 1000;
      }
    }
    if value >= 1.0 && e >= top {
      if e > top {
        PowStrictlyIncreasing(b, top, e);
      }
      assert false;
    }
  }

  /**
   * The badge is one or two characters and ends in the unit's letter; below
   * the largest unit it is the digit of the within-unit exponent followed by that letter.
   */
  lemma BadgeShape(bytes: nat, scale: Scale)
    ensures var p := CalcPresentation(bytes, scale);
      var unit := Units(scale)[UnitIndex(bytes, Base(scale))];
      && 1 <= |p.badge| <= 2
      && p.badge[|p.badge| - 1] == unit[0]
      && (UnitIndex(bytes, Base(scale)) < 4 ==>
            |p.badge| == 2 && '0' <= p.badge[0] <= '9' &&
            p.badge[0] as int - '0' as int == WithinUnitExponent(p.sizeLabel.value, scale))
  {
    if UnitIndex(bytes, Base(scale)) < 4 {
      ExponentBound(bytes, scale);
    }
  }

  /** Zero bytes: "0 B" with two decimals, badge "0B". */
  lemma PresentZero()
    ensures CalcPresentation(0, Log2) == Presentation("0B", Label(0.0, 2, "B"))
  {
    assert Pow(1024, 1) == 1024;
    assert UnitIndex(0, 1024) == 0 by { UnitIndexUnique(0, 1024, 0); }
    assert Scaled(0, 1024, 0) == 0.0;
    assert WithinUnitExponent(0.0, Log2) == 0;
    assert Badge(0, "B") == "0B";
  }

  /** 1536 bytes in binary units: "1.50 KiB", badge "0K". */
  lemma Present1536()
    ensures CalcPresentation(1536, Log2) == Presentation("0K", Label(1.5, 2, "KiB"))
  {
    assert Pow(1024, 1) == 1024 && Pow(1024, 2) == 1024 * 1024;
    assert UnitIndex(1536, 1024) == 1 by { UnitIndexUnique(1536, 1024, 1); }
    assert Scaled(1536, 1024, 1) == 1.5;
  }

  /** One million bytes in decimal units: "1.00 MB", badge "0M". */
  lemma PresentMillion()
    ensures CalcPresentation(1000000, Log10) == Presentation("0M", Label(1.0, 2, "MB"))
  {
    assert Pow(1000, 1) == 1000 && Pow(1000, 2) == 1000000 && Pow(1000, 3) == 1000000000;
    assert UnitIndex(1000000, 1000) == 2 by { UnitIndexUnique(1000000, 1000, 2); }
    assert Scaled(1000000, 1000, 2) == 1.0;
  }

  /** 2^30 bytes in binary units: "1.00 GiB", badge "0G". */
  lemma PresentGibibyte()
    ensures CalcPresentation(1073741824, Log2) == Presentation("0G", Label(1.0, 2, "GiB"))
  {
    assert Pow(1024, 1) == 1024 && Pow(1024, 2) == 1048576;
    assert Pow(1024, 3) == 1073741824 && Pow(1024, 4) == 1099511627776;
    assert UnitIndex(1073741824, 1024) == 3 by { UnitIndexUnique(1073741824, 1024, 3); }
    assert Scaled(1073741824, 1024, 3) == 1.0;
  }
}
