/** A duration as text: "1h0m2.5s", "300ms", "0s". */
module Durations {

  import opened Decimals
  import opened Text
  import opened Times

  const MICROSECOND := 1_000
  const MILLISECOND := 1_000_000
  const MINUTE := 60 * SECOND

  function Pow10(n: nat): nat
    ensures Pow10(n) > 0
  {
    if n == 0 then 1 else 10 * Pow10(n - 1)
  }

  /** The digits of a fraction of `digits` places, without its trailing zeros. */
  function Fraction(f: nat, digits: nat): (s: string)
    requires 0 < f < Pow10(digits)
    ensures s != "" && forall c :: c in s ==> IsDigit(c)
  {
    if f % 10 == 0 then Fraction(f / 10, digits - 1) else Padded(f, digits)
  }

  function Whole(v: nat, scale: nat): nat
    requires scale > 0
  {
    v / scale
  }

  function Part(v: nat, scale: nat): (f: nat)
    requires scale > 0
    ensures f < scale
  {
    v % scale
  }

  lemma WholeAndPart(v: nat, w: nat, scale: nat)
    requires scale > 0 && Whole(v, scale) == Whole(w, scale) && Part(v, scale) == Part(w, scale)
    ensures v == w
  {
    var q := v / scale;
    assert v == q * scale + v % scale;
    assert w == q * scale + w % scale;
  }

  function FractionText(f: nat, digits: nat): string
    requires f < Pow10(digits)
  {
    if f == 0 then "" else "." + Fraction(f, digits)
  }

  /** `v` over ten to the power `digits`; the point is left out of a whole number. */
  function Scaled(v: nat, digits: nat): string {
    Digits(Whole(v, Pow10(digits))) + FractionText(Part(v, Pow10(digits)), digits)
  }

  lemma {:induction false} PaddedLength(n: nat, width: nat)
    requires width > 0 && n < Pow10(width)
    ensures |Padded(n, width)| == width
  {
    if width > 1 {
      PaddedLength(n / 10, width - 1);
    }
  }

  lemma {:induction false} FractionReads(f: nat, digits: nat)
    requires 0 < f < Pow10(digits)
    ensures |Fraction(f, digits)| <= digits
    ensures f == Value(Fraction(f, digits)) * Pow10(digits - |Fraction(f, digits)|)
  {
    if f % 10 == 0 {
      FractionReads(f / 10, digits - 1);
      var text := Fraction(f / 10, digits - 1);
      assert Pow10(digits - |text|) == 10 * Pow10(digits - 1 - |text|);
      TenTimes(Value(text), Pow10(digits - 1 - |text|));
    } else {
      PaddedLength(f, digits);
      PaddedReads(f, digits);
      assert Pow10(0) == 1;
    }
  }

  lemma TenTimes(a: int, b: int)
    ensures a * (10 * b) == 10 * (a * b)
  {
  }

  lemma FractionInjective(f: nat, g: nat, digits: nat)
    requires 0 < f < Pow10(digits) && 0 < g < Pow10(digits) && Fraction(f, digits) == Fraction(g, digits)
    ensures f == g
  {
    FractionReads(f, digits);
    FractionReads(g, digits);
  }

  lemma MixedInjective(n: nat, f: nat, m: nat, g: nat, digits: nat)
    requires f < Pow10(digits) && g < Pow10(digits)
    requires Digits(n) + FractionText(f, digits) == Digits(m) + FractionText(g, digits)
    ensures n == m && f == g
  {
    hide Digits, Pow10, Fraction;
    assert '.' !in Digits(n) && '.' !in Digits(m);
    assert '.' in Digits(n) + FractionText(f, digits) <==> f != 0;
    assert '.' in Digits(m) + FractionText(g, digits) <==> g != 0;
    if f != 0 {
      assert Digits(n) + FractionText(f, digits) == Digits(n) + "." + Fraction(f, digits);
      assert Digits(m) + FractionText(g, digits) == Digits(m) + "." + Fraction(g, digits);
      CutUnique(Digits(n), Fraction(f, digits), Digits(m), Fraction(g, digits), '.');
      FractionInjective(f, g, digits);
    } else {
      assert Digits(n) + "" == Digits(n) && Digits(m) + "" == Digits(m);
    }
    DigitsInjective(n, m);
  }

  lemma ScaledInjective(v: nat, w: nat, digits: nat)
    requires Scaled(v, digits) == Scaled(w, digits)
    ensures v == w
  {
    hide Whole, Part, Pow10, FractionText, Digits;
    var scale := Pow10(digits);
    MixedInjective(Whole(v, scale), Part(v, scale), Whole(w, scale), Part(w, scale), digits);
    WholeAndPart(v, w, scale);
  }

  lemma ScaledCharacters(v: nat, digits: nat)
    ensures Scaled(v, digits) != "" && IsDigit(Scaled(v, digits)[0]) && IsDigit(Scaled(v, digits)[|Scaled(v, digits)| - 1])
    ensures forall c :: c in Scaled(v, digits) ==> IsDigit(c) || c == '.'
  {
  }

  // ---------------------------------------------------------------------------
  // time.Duration's String
  // ---------------------------------------------------------------------------

  function SecondsText(u: nat): string { Scaled(u % MINUTE, 9) + "s" }

  function MinutesText(u: nat): string { Digits(u / MINUTE % 60) + "m" + SecondsText(u) }

  /** Which of six forms shows a duration: less than a second takes a smaller unit. */
  function FormOf(u: nat): nat {
    if u != 0 && u < MICROSECOND then 0
    else if u != 0 && u < MILLISECOND then 1
    else if u != 0 && u < SECOND then 2
    else if u < MINUTE then 3
    else if u < HOUR then 4
    else 5
  }

  function Spelled(form: nat, u: nat): string {
    match form
    case 0 => Scaled(u, 0) + "ns"
    case 1 => Scaled(u, 3) + "µs"
    case 2 => Scaled(u, 6) + "ms"
    case 3 => SecondsText(u)
    case 4 => MinutesText(u)
    case _ => Digits(u / HOUR) + "h" + MinutesText(u)
  }

  function Unsigned(u: nat): string { Spelled(FormOf(u), u) }

  function DurationText(d: int): string {
    if d < 0 then "-" + Unsigned(-d) else Unsigned(d)
  }

  /** The character before the final "s": a digit when the text counts in seconds. */
  function UnitOf(s: string): char
    requires |s| >= 2
  {
    s[|s| - 2]
  }

  lemma SecondsTextShape(u: nat)
    ensures |SecondsText(u)| >= 2 && IsDigit(SecondsText(u)[0]) && IsDigit(UnitOf(SecondsText(u)))
    ensures 'm' !in SecondsText(u) && 'h' !in SecondsText(u) && '|' !in SecondsText(u)
  {
    hide Scaled;
    ScaledCharacters(u % MINUTE, 9);
  }

  lemma MinutesTextShape(u: nat)
    ensures |MinutesText(u)| >= 2 && IsDigit(MinutesText(u)[0]) && IsDigit(UnitOf(MinutesText(u)))
    ensures 'm' in MinutesText(u) && 'h' !in MinutesText(u) && '|' !in MinutesText(u)
  {
    hide Digits, SecondsText;
    SecondsTextShape(u);
  }

  /** The form a text has. */
  function Form(s: string): nat
    requires |s| >= 2
  {
    if UnitOf(s) == 'n' then 0
    else if UnitOf(s) == 'µ' then 1
    else if UnitOf(s) == 'm' then 2
    else if 'h' in s then 5
    else if 'm' in s then 4
    else 3
  }

  lemma SpelledShape(form: nat, u: nat)
    requires form <= 5
    ensures |Spelled(form, u)| >= 2 && IsDigit(Spelled(form, u)[0]) && Form(Spelled(form, u)) == form
    ensures '|' !in Spelled(form, u)
  {
    hide Scaled, Digits, SecondsText, MinutesText;
    ScaledCharacters(u, 0);
    ScaledCharacters(u, 3);
    ScaledCharacters(u, 6);
    SecondsTextShape(u);
    MinutesTextShape(u);
  }

  lemma SecondsTextInjective(u: nat, v: nat)
    requires SecondsText(u) == SecondsText(v)
    ensures u % MINUTE == v % MINUTE
  {
    hide Scaled;
    var s := SecondsText(u);
    assert s[..|s| - 1] == Scaled(u % MINUTE, 9) && s[..|s| - 1] == Scaled(v % MINUTE, 9);
    ScaledInjective(u % MINUTE, v % MINUTE, 9);
  }

  lemma MinutesTextInjective(u: nat, v: nat)
    requires MinutesText(u) == MinutesText(v)
    ensures u % HOUR == v % HOUR
  {
    hide SecondsText, Digits;
    CutUnique(Digits(u / MINUTE % 60), SecondsText(u), Digits(v / MINUTE % 60), SecondsText(v), 'm');
    DigitsInjective(u / MINUTE % 60, v / MINUTE % 60);
    SecondsTextInjective(u, v);
    MinutesAndSeconds(u);
    MinutesAndSeconds(v);
  }

  lemma MinutesAndSeconds(u: nat)
    ensures u % HOUR == u / MINUTE % 60 * MINUTE + u % MINUTE
  {
    assert u / MINUTE / 60 == u / HOUR;
  }

  lemma SmallUnitInjective(u: nat, v: nat, digits: nat, unit: string)
    requires Scaled(u, digits) + unit == Scaled(v, digits) + unit
    ensures u == v
  {
    hide Scaled;
    var s := Scaled(u, digits) + unit;
    assert s[..|s| - |unit|] == Scaled(u, digits) && s[..|s| - |unit|] == Scaled(v, digits);
    ScaledInjective(u, v, digits);
  }

  lemma HoursInjective(u: nat, v: nat)
    requires Digits(u / HOUR) + "h" + MinutesText(u) == Digits(v / HOUR) + "h" + MinutesText(v)
    ensures u == v
  {
    hide Digits, MinutesText;
    CutUnique(Digits(u / HOUR), MinutesText(u), Digits(v / HOUR), MinutesText(v), 'h');
    DigitsInjective(u / HOUR, v / HOUR);
    MinutesTextInjective(u, v);
  }

  lemma SpelledInjective(form: nat, u: nat, v: nat)
    requires FormOf(u) == form && FormOf(v) == form && Spelled(form, u) == Spelled(form, v)
    ensures u == v
  {
    hide Scaled, Digits, SecondsText, MinutesText;
    match form
    case 0 => SmallUnitInjective(u, v, 0, "ns");
    case 1 => SmallUnitInjective(u, v, 3, "µs");
    case 2 => SmallUnitInjective(u, v, 6, "ms");
    case 3 => SecondsTextInjective(u, v);
    case 4 => MinutesTextInjective(u, v);
    case _ => HoursInjective(u, v);
  }

  lemma UnsignedInjective(u: nat, v: nat)
    requires Unsigned(u) == Unsigned(v)
    ensures u == v
  {
    FormsAreFew(u);
    FormsAreFew(v);
    hide FormOf, Spelled, Form;
    SpelledShape(FormOf(u), u);
    SpelledShape(FormOf(v), v);
    SpelledInjective(FormOf(u), u, v);
  }

  lemma FormsAreFew(u: nat)
    ensures FormOf(u) <= 5
  {
  }

  /** Different durations have different texts. */
  lemma DurationTextInjective(d: int, e: int)
    requires DurationText(d) == DurationText(e)
    ensures d == e
  {
    var u, v := if d < 0 then -d else d, if e < 0 then -e else e;
    SpelledShape(FormOf(u), u);
    SpelledShape(FormOf(v), v);
    hide Spelled, Form, FormOf;
    assert d < 0 <==> DurationText(d)[0] == '-';
    assert e < 0 <==> DurationText(e)[0] == '-';
    assert Unsigned(u) == if d < 0 then DurationText(d)[1..] else DurationText(d);
    assert Unsigned(v) == if e < 0 then DurationText(e)[1..] else DurationText(e);
    UnsignedInjective(u, v);
  }

  lemma DurationTextHasNoBar(d: int)
    ensures '|' !in DurationText(d)
  {
    var u := if d < 0 then -d else d;
    SpelledShape(FormOf(u), u);
    hide Spelled;
  }
}
