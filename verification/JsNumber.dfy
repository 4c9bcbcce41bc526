/** Whole numbers as JavaScript holds and prints them: doubles of IEEE 754 with 53 significant bits,
    printed with the fewest digits that read back (ECMA-262, section 6.1.6.1.20, Number::toString). */
module JsNumber {
  import opened Common
  import opened Decimal

  /** Two to the power 53: below it every whole number is a double. */
  const EXACT_BELOW: nat := 9007199254740992

  const EXACT_DIGITS: nat := 21
  const LARGEST_EXPONENT: nat := 1024

  function Bits(n: nat): nat { if n == 0 then 0 else 1 + Bits(n / 2) }

  /** The distance between neighbouring doubles from `n` on, up to the next power of two. */
  function Spacing(n: nat): (u: nat)
    ensures u >= 1
  {
    if n < EXACT_BELOW then 1 else 2 * Spacing(n / 2)
  }

  /** The double nearest to `n`, the even one of two as near. */
  function Rounded(n: nat): nat {
    var u := Spacing(n);
    var below, rest := n / u, n % u;
    if 2 * rest > u || (2 * rest == u && below % 2 == 1) then (below + 1) * u else below * u
  }

  /** `candidate` reads back as the double `x`. */
  predicate ReadsBack(candidate: nat, x: nat) { Rounded(candidate) == x }

  function Nearer(low: nat, high: nat, x: nat): nat {
    if ReadsBack(low, x) && (!ReadsBack(high, x) || x - low <= high - x) then low else high
  }

  /** The multiple of ten to the highest power, at most `zeros`, that reads back as `x`. */
  function Shortest(x: nat, zeros: nat): (r: nat)
    ensures r == x || ReadsBack(r, x)
  {
    if zeros == 0 then x
    else
      var unit := Pow10(zeros);
      var low := WithoutLast(x, zeros) * unit;
      var r := Nearer(low, low + unit, x);
      if ReadsBack(r, x) then r else Shortest(x, zeros - 1)
  }

  /** The whole number a double prints as, its digits after the shortest ones being zeros. */
  function Printed(n: nat): nat { Shortest(Rounded(n), |Show(Rounded(n))| - 1) }

  function WithoutZeros(s: string): (r: string)
    ensures s != "" ==> r != ""
  {
    if |s| > 1 && s[|s| - 1] == '0' then WithoutZeros(s[..|s| - 1]) else s
  }

  /** `1.5e+21`. */
  function Exponential(n: nat): string {
    var digits := WithoutZeros(Show(n));
    digits[..1] + (if |digits| > 1 then "." + digits[1..] else "") + "e+" + Show(|Show(n)| - 1)
  }

  predicate PrintsAsDigits(n: nat) {
    Bits(Rounded(n)) <= LARGEST_EXPONENT && |Show(Printed(n))| <= EXACT_DIGITS
  }

  /** `String(Number(text))` for the digit string of `n`. */
  function NumberText(n: nat): (s: string)
    ensures s != ""
  {
    if Bits(Rounded(n)) > LARGEST_EXPONENT then "Infinity"
    else if PrintsAsDigits(n) then Show(Printed(n))
    else Exponential(Printed(n))
  }

  // ----- which numbers print as themselves

  lemma {:induction false} SpacingLeavesBits(n: nat)
    requires n >= EXACT_BELOW
    ensures EXACT_BELOW / 2 <= n / Spacing(n)
    ensures Spacing(n) >= 2
  {
    var u := Spacing(n / 2);
    assert Spacing(n) == 2 * u;
    if n / 2 >= EXACT_BELOW {
      SpacingLeavesBits(n / 2);
    } else {
      assert u == 1;
    }
    HalfThenDivide(n, u);
  }

  lemma HalfThenDivide(n: nat, u: nat)
    requires u > 0
    ensures (n / 2) / u == n / (2 * u)
  {
    var q, r := (n / 2) / u, (n / 2) % u;
    assert n / 2 == u * q + r;
    assert n == (2 * u) * q + (2 * r + n % 2);
    DivUnique(n, 2 * u, q, 2 * r + n % 2);
  }

  lemma TimesAtLeast(a: nat, b: nat, u: nat)
    requires a >= b
    ensures a * u >= b * u
  {
  }

  /** Rounding leaves the numbers below two to the 53 alone and keeps all others there. */
  lemma RoundedBelowOrNot(n: nat)
    ensures n < EXACT_BELOW ==> Rounded(n) == n
    ensures n >= EXACT_BELOW ==> Rounded(n) >= EXACT_BELOW
  {
    var u := Spacing(n);
    if n < EXACT_BELOW {
      assert u == 1;
    } else {
      SpacingLeavesBits(n);
      TimesAtLeast(n / u, EXACT_BELOW / 2, u);
      TimesAtLeast(n / u + 1, EXACT_BELOW / 2, u);
      TimesAtLeast(u, 2, EXACT_BELOW / 2);
    }
  }

  /** A number below two to the 53 prints as itself, any other as one that is not below. */
  lemma PrintedBelowOrNot(n: nat)
    ensures n < EXACT_BELOW ==> Printed(n) == n
    ensures n >= EXACT_BELOW ==> Printed(n) >= EXACT_BELOW
  {
    RoundedBelowOrNot(n);
    RoundedBelowOrNot(Printed(n));
  }

  lemma {:induction false} BitsGrow(a: nat, b: nat)
    requires a <= b
    ensures Bits(a) <= Bits(b)
    decreases b
  {
    if a > 0 { BitsGrow(a / 2, b / 2); }
  }

  lemma BitsHalved(n: nat)
    ensures Bits(n) <= 1 + Bits(n / 2)
  {
  }

  /** A decimal digit takes at most four bits. */
  lemma {:induction false} BitsOfDigits(n: nat)
    ensures Bits(n) <= 4 * |Show(n)|
  {
    BitsHalved(n);
    BitsHalved(n / 2);
    BitsHalved(n / 2 / 2);
    BitsHalved(n / 2 / 2 / 2);
    if n >= 10 {
      BitsGrow(n / 2 / 2 / 2 / 2, n / 10);
      BitsOfDigits(n / 10);
    }
  }

  /** `n` prints as the digits of `n` itself. */
  predicate PrintsBack(n: nat) { PrintsAsDigits(n) && Printed(n) == n }

  lemma SmallPrintsBack(n: nat)
    requires n < EXACT_BELOW
    ensures PrintsBack(n)
  {
    PrintedBelowOrNot(n);
    RoundedBelowOrNot(n);
    PowersOfTen();
    ShowLength(n, 16);
    BitsOfDigits(n);
  }

  lemma ExponentialHasALetter(n: nat)
    ensures !AllDigits(Exponential(n))
  {
    var digits := WithoutZeros(Show(n));
    var front := digits[..1] + (if |digits| > 1 then "." + digits[1..] else "");
    var s := Exponential(n);
    assert s == front + "e+" + Show(|Show(n)| - 1);
    assert s[|front|] == 'e';
  }

  /** Printing back is a fact about the text. */
  lemma PrintsBackIsAboutText(n: nat)
    ensures PrintsBack(n) <==> NumberText(n) == Show(n)
    ensures AllDigits(NumberText(n)) <==> PrintsAsDigits(n)
  {
    ExponentialHasALetter(Printed(n));
    assert "Infinity"[0] == 'I';
    ParseShow(n);
    ParseShow(Printed(n));
  }

  lemma SpacingTimesEight(n: nat)
    requires 2 * n >= EXACT_BELOW
    ensures Spacing(8 * n) == 8 * Spacing(n)
  {
    assert Spacing(2 * n) == 2 * Spacing(n);
    assert Spacing(4 * n) == 2 * Spacing(2 * n);
    assert Spacing(8 * n) == 2 * Spacing(4 * n);
  }

  lemma PowersOfTen()
    ensures Pow10(16) == 10000000000000000 && Pow10(21) == 1000000000000000000000
  {
    assert Pow10(3) == 1000;
    assert Pow10(6) == 1000000;
    assert Pow10(9) == 1000000000;
    assert Pow10(12) == 1000000000000;
    assert Pow10(15) == 1000000000000000;
    assert Pow10(18) == 1000000000000000000;
  }

  /** A multiple of its spacing is a double. */
  lemma MultipleIsADouble(n: nat, u: nat, q: nat)
    requires u == Spacing(n) && n == q * u
    ensures Rounded(n) == n
  {
    DivUnique(n, u, q, 0);
    assert n == u * (n / u) + n % u;
  }

  lemma TenToThe21IsADouble(n: nat)
    requires n == 1000000000000000000000
    ensures Rounded(n) == n
  {
    SpacingOfTenToThe21();
    MultipleIsADouble(n, 131072, 7629394531250000);
  }

  lemma SpacingOfTenToThe21()
    ensures Spacing(1000000000000000000000) == 131072
  {
    SpacingTimesEight(7629394531250000);
    SpacingTimesEight(61035156250000000);
    SpacingTimesEight(488281250000000000);
    SpacingTimesEight(3906250000000000000);
    SpacingTimesEight(31250000000000000000);
    assert Spacing(500000000000000000000) == 2 * Spacing(250000000000000000000);
    assert Spacing(1000000000000000000000) == 131072;
  }

  lemma {:induction false} ShowPower(k: nat)
    ensures Show(Pow10(k)) == "1" + Zeros(k)
    ensures WithoutLast(Pow10(k), k) == 1
  {
    Pow10IsPositive(k);
    if k > 0 {
      ShowPower(k - 1);
      Pow10IsPositive(k - 1);
      assert Show(Pow10(k)) == Show(Pow10(k - 1)) + [DigitChar(0)];
      assert Zeros(k - 1) + [DigitChar(0)] == Zeros(k);
    } else {
      assert Show(1) == [DigitChar(1)];
      assert DigitChar(1) == '1';
    }
  }

  lemma {:induction false} ZerosGo(k: nat)
    ensures WithoutZeros("1" + Zeros(k)) == "1"
  {
    if k > 0 {
      ZerosGo(k - 1);
      assert ("1" + Zeros(k))[..k] == "1" + Zeros(k - 1);
    }
  }

  /** A power of ten that is a double prints as itself, in exponent form from ten to the 21 on. */
  lemma PowerPrints(n: nat, k: nat)
    requires n == Pow10(k) && Rounded(n) == n
    ensures Printed(n) == n && Exponential(n) == "1e+" + Show(k)
  {
    ShowPower(k);
    ZerosGo(k);
    assert |Show(n)| == k + 1;
    assert 1 * Pow10(k) == n;
    if k > 0 { assert Nearer(n, n + n, n) == n; }
    assert "1"[..1] == "1";
  }

  lemma LongPower(n: nat, k: nat)
    requires n == Pow10(k) && Rounded(n) == n && EXACT_DIGITS <= k < 200
    ensures !PrintsAsDigits(n) && NumberText(n) == "1e+" + Show(k)
  {
    ShowPower(k);
    PowerPrints(n, k);
    BitsOfDigits(n);
  }

  lemma TwentyOne()
    ensures Show(21) == "21"
  {
  }

  /** Ten to the 21 prints in exponent form. */
  lemma ExponentForm(n: nat)
    requires n == 1000000000000000000000
    ensures !PrintsAsDigits(n) && NumberText(n) == "1e+21"
  {
    PowersOfTen();
    TenToThe21IsADouble(n);
    TwentyOne();
    LongPower(n, 21);
  }
}
