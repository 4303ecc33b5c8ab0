/** Values as text: `%t`, `%d`, zero padding, and `%f` with its six decimals. */
module Decimals {

  import opened Text

  function BoolText(b: bool): string { if b then "true" else "false" }

  lemma BoolTextInjective(b: bool, c: bool)
    requires BoolText(b) == BoolText(c)
    ensures b == c
  {
    assert BoolText(true)[0] == 't' && BoolText(false)[0] == 'f';
  }

  function Digit(n: nat): char
    requires n < 10
  {
    '0' + n as char
  }

  predicate IsDigit(c: char) { '0' <= c <= '9' }

  function Digits(n: nat): (s: string)
    ensures s != "" && forall c :: c in s ==> IsDigit(c)
  {
    if n < 10 then [Digit(n)] else Digits(n / 10) + [Digit(n % 10)]
  }

  /** `n` with leading zeros up to `width` digits. */
  function Padded(n: nat, width: nat): (s: string)
    ensures s != "" && forall c :: c in s ==> IsDigit(c)
  {
    if width <= 1 then Digits(n) else Padded(n / 10, width - 1) + [Digit(n % 10)]
  }

  /** A whole number with its sign, padded like Go pads a year. */
  function Signed(n: int, width: nat): string {
    if n < 0 then "-" + Padded(-n, width) else Padded(n, width)
  }

  /** What a reader makes of digits. */
  function Value(s: string): int {
    if s == "" then 0 else Value(s[..|s| - 1]) * 10 + (s[|s| - 1] as int - '0' as int)
  }

  lemma {:induction false} DigitsRead(n: nat)
    ensures Value(Digits(n)) == n
  {
    if n < 10 {
      assert [Digit(n)][..0] == "";
    } else {
      DigitsRead(n / 10);
      assert Digits(n)[..|Digits(n)| - 1] == Digits(n / 10);
    }
  }

  lemma {:induction false} PaddedReads(n: nat, width: nat)
    ensures Value(Padded(n, width)) == n
  {
    if width <= 1 {
      DigitsRead(n);
    } else {
      PaddedReads(n / 10, width - 1);
      assert Padded(n, width)[..|Padded(n, width)| - 1] == Padded(n / 10, width - 1);
    }
  }

  /** Numbers below a hundred take two characters. */
  lemma TwoDigits(n: nat)
    requires n < 100
    ensures |Padded(n, 2)| == 2
  {
  }

  lemma DigitsInjective(m: nat, n: nat)
    requires Digits(m) == Digits(n)
    ensures m == n
  {
    DigitsRead(m);
    DigitsRead(n);
  }

  lemma PaddedInjective(m: nat, n: nat, width: nat)
    requires Padded(m, width) == Padded(n, width)
    ensures m == n
  {
    PaddedReads(m, width);
    PaddedReads(n, width);
  }

  lemma SignedInjective(m: int, n: int, width: nat)
    requires Signed(m, width) == Signed(n, width)
    ensures m == n
  {
    var pm, pn := Padded(if m < 0 then -m else m, width), Padded(if n < 0 then -n else n, width);
    assert IsDigit(pm[0]) && IsDigit(pn[0]);
    if m < 0 && n < 0 {
      assert pm == Signed(m, width)[1..] && pn == Signed(n, width)[1..];
    }
    PaddedReads(if m < 0 then -m else m, width);
    PaddedReads(if n < 0 then -n else n, width);
  }

  // ---------------------------------------------------------------------------
  // Six decimals
  // ---------------------------------------------------------------------------

  const MILLION := 1_000_000

  /** A number to six decimals. A negative one keeps its sign even where nothing else is left of it. */
  datatype Decimal = Decimal(negative: bool, micros: nat)

  /** The nearest whole number; the even one of two. */
  function RoundHalfEven(x: real): (n: int)
    requires x >= 0.0
    ensures n >= 0
    ensures -0.5 <= n as real - x <= 0.5
  {
    var rest := x - x.Floor as real;
    if rest > 0.5 || (rest == 0.5 && x.Floor % 2 == 1) then x.Floor + 1 else x.Floor
  }

  function Rounded(x: real): Decimal {
    Decimal(x < 0.0, RoundHalfEven((if x < 0.0 then -x else x) * MILLION as real))
  }

  function DecimalText(d: Decimal): string {
    (if d.negative then "-" else "") + Digits(d.micros / MILLION) + "." + Padded(d.micros % MILLION, 6)
  }

  function Fixed6(x: real): string { DecimalText(Rounded(x)) }

  lemma DecimalInjective(d: Decimal, e: Decimal)
    requires DecimalText(d) == DecimalText(e)
    ensures d == e
  {
    var whole, whole' := Digits(d.micros / MILLION), Digits(e.micros / MILLION);
    var rest, rest' := Padded(d.micros % MILLION, 6), Padded(e.micros % MILLION, 6);
    assert IsDigit(whole[0]) && IsDigit(whole'[0]);
    var unsigned, unsigned' := whole + "." + rest, whole' + "." + rest';
    assert DecimalText(d) == if d.negative then "-" + unsigned else unsigned;
    assert DecimalText(e) == if e.negative then "-" + unsigned' else unsigned';
    assert unsigned[0] == whole[0] && unsigned'[0] == whole'[0];
    assert d.negative <==> DecimalText(d)[0] == '-';
    assert e.negative <==> DecimalText(e)[0] == '-';
    if d.negative {
      assert ("-" + unsigned)[1..] == unsigned && ("-" + unsigned')[1..] == unsigned';
    }
    assert unsigned == unsigned';
    CutUnique(whole, rest, whole', rest', '.');
    DigitsInjective(d.micros / MILLION, e.micros / MILLION);
    PaddedInjective(d.micros % MILLION, e.micros % MILLION, 6);
  }

  lemma DecimalCharacters(d: Decimal)
    ensures forall c :: c in DecimalText(d) ==> IsDigit(c) || c == '-' || c == '.'
  {
  }

  /** Numbers that look alike are at most a millionth apart. */
  lemma SameTextIsClose(x: real, y: real)
    requires Fixed6(x) == Fixed6(y)
    ensures -0.000001 <= x - y <= 0.000001
  {
    DecimalInjective(Rounded(x), Rounded(y));
  }
}
