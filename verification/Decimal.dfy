/** Decimal text, zero padding, and the order of strings by code point. */
module Decimal {
  const DIGITS: string := "0123456789"

  predicate IsDigit(c: char) { '0' <= c <= '9' }

  function DigitValue(c: char): (d: nat)
    requires IsDigit(c)
    ensures d < 10
  {
    (c as int) - ('0' as int)
  }

  function DigitChar(d: nat): (c: char)
    requires d < 10
    ensures IsDigit(c) && DigitValue(c) == d
  {
    assert forall i :: 0 <= i < 10 ==> DIGITS[i] as int == '0' as int + i;
    DIGITS[d]
  }

  predicate AllDigits(s: string) { forall i :: 0 <= i < |s| ==> IsDigit(s[i]) }

  /** `str(n)`. */
  function Show(n: nat): (s: string)
    ensures |s| > 0 && AllDigits(s)
  {
    if n < 10 then [DigitChar(n)] else Show(n / 10) + [DigitChar(n % 10)]
  }

  /** `int(s)` on a digit string. */
  function Parse(s: string): nat
    requires AllDigits(s)
  {
    if s == [] then 0 else Parse(s[..|s| - 1]) * 10 + DigitValue(s[|s| - 1])
  }

  function Zeros(k: nat): (s: string)
    ensures |s| == k && AllDigits(s)
  {
    seq(k, _ => '0')
  }

  /** `f"{n:0{width}d}"`. */
  function Padded(n: nat, width: nat): (s: string)
    ensures AllDigits(s)
  {
    var s := Show(n);
    if |s| < width then Zeros(width - |s|) + s else s
  }

  function Pow10(k: nat): nat { if k == 0 then 1 else 10 * Pow10(k - 1) }

  /** Exactly `k` digits, most significant first. */
  function Fixed(n: nat, k: nat): (s: string)
    ensures |s| == k && AllDigits(s)
  {
    if k == 0 then "" else Fixed(n / 10, k - 1) + [DigitChar(n % 10)]
  }

  /** Comparison by code point, as Python compares strings. */
  predicate Before(a: string, b: string) {
    if b == "" then false
    else if a == "" then true
    else a[0] < b[0] || (a[0] == b[0] && Before(a[1..], b[1..]))
  }

  // ----- round trip

  lemma {:induction false} ParseShow(n: nat)
    ensures Parse(Show(n)) == n
  {
    if n < 10 {
      assert [DigitChar(n)][..0] == "";
    } else {
      ParseShow(n / 10);
      var s := Show(n / 10);
      assert (s + [DigitChar(n % 10)])[..|s|] == s;
    }
  }

  lemma {:induction false} ParseZeros(k: nat, s: string)
    requires AllDigits(s)
    ensures Parse(Zeros(k) + s) == Parse(s)
    decreases k, |s|
  {
    if s != "" {
      var n := |s| - 1;
      ParseZeros(k, s[..n]);
      assert (Zeros(k) + s)[..k + n] == Zeros(k) + s[..n];
    } else if k > 0 {
      ParseZeros(k - 1, "");
      assert (Zeros(k) + "")[..k - 1] == Zeros(k - 1) + "";
    }
  }

  lemma ParsePadded(n: nat, width: nat)
    ensures Parse(Padded(n, width)) == n
  {
    ParseShow(n);
    if |Show(n)| < width {
      ParseZeros(width - |Show(n)|, Show(n));
    }
  }

  // ----- order

  lemma {:induction false} FixedZero(k: nat)
    ensures Fixed(0, k) == Zeros(k)
  {
    if k > 0 {
      FixedZero(k - 1);
      assert DigitChar(0) == '0';
    }
  }

  lemma PaddedDigit(n: nat, k: nat)
    requires n < 10 && k > 0
    ensures Padded(n, k) == Fixed(n, k)
  {
    FixedZero(k - 1);
    assert n / 10 == 0 && n % 10 == n;
    assert Fixed(n, k) == Zeros(k - 1) + [DigitChar(n)];
    assert Zeros(0) + [DigitChar(n)] == [DigitChar(n)];
  }

  lemma PaddedStep(n: nat, k: nat)
    requires n >= 10 && k > 0
    ensures Padded(n, k + 1) == Padded(n / 10, k) + [DigitChar(n % 10)]
  {
    var s := Show(n / 10);
    if |s| < k {
      assert (Zeros(k - |s|) + s) + [DigitChar(n % 10)] == Zeros(k - |s|) + (s + [DigitChar(n % 10)]);
    }
  }

  /** A number that fits is padded to exactly the width. */
  lemma {:induction false} PaddedIsFixed(n: nat, k: nat)
    requires k > 0 && n < Pow10(k)
    ensures Padded(n, k) == Fixed(n, k)
    decreases k
  {
    if n < 10 {
      PaddedDigit(n, k);
    } else {
      assert Pow10(k) == 10 * Pow10(k - 1) && Pow10(0) == 1;
      PaddedIsFixed(n / 10, k - 1);
      PaddedStep(n, k - 1);
    }
  }

  lemma {:induction false} BeforeExtends(a: string, b: string, x: string, y: string)
    requires Before(a, b) && |a| == |b|
    ensures Before(a + x, b + y)
    decreases |a|
  {
    if a[0] == b[0] {
      BeforeExtends(a[1..], b[1..], x, y);
      assert (a + x)[1..] == a[1..] + x && (b + y)[1..] == b[1..] + y;
    }
  }

  lemma {:induction false} BeforePrefix(p: string, x: string, y: string)
    requires Before(x, y)
    ensures Before(p + x, p + y)
    decreases |p|
  {
    if p == "" {
      assert p + x == x && p + y == y;
    } else {
      BeforePrefix(p[1..], x, y);
      assert (p + x)[1..] == p[1..] + x && (p + y)[1..] == p[1..] + y;
    }
  }

  lemma {:induction false} FixedOrder(a: nat, b: nat, k: nat)
    requires a < b < Pow10(k)
    ensures Before(Fixed(a, k), Fixed(b, k))
    decreases k
  {
    if k == 0 {
      assert false;
    } else if a / 10 == b / 10 {
      BeforePrefix(Fixed(a / 10, k - 1), [DigitChar(a % 10)], [DigitChar(b % 10)]);
    } else {
      assert a / 10 < b / 10 < Pow10(k - 1);
      FixedOrder(a / 10, b / 10, k - 1);
      BeforeExtends(Fixed(a / 10, k - 1), Fixed(b / 10, k - 1), [DigitChar(a % 10)], [DigitChar(b % 10)]);
    }
  }

  lemma {:induction false} BeforeIsAsymmetric(a: string, b: string)
    requires Before(a, b)
    ensures !Before(b, a)
    decreases |a|
  {
    if a != "" && b != "" && a[0] == b[0] {
      BeforeIsAsymmetric(a[1..], b[1..]);
    }
  }

  lemma {:induction false} BeforeIsTotal(a: string, b: string)
    requires a != b
    ensures Before(a, b) || Before(b, a)
    decreases |a|
  {
    if a != "" && b != "" && a[0] == b[0] {
      assert a == [a[0]] + a[1..] && b == [b[0]] + b[1..];
      BeforeIsTotal(a[1..], b[1..]);
    }
  }

  lemma {:induction false} BeforeIsTransitive(a: string, b: string, c: string)
    requires Before(a, b) && Before(b, c)
    ensures Before(a, c)
    decreases |a|
  {
    if a != "" && a[0] == b[0] == c[0] {
      BeforeIsTransitive(a[1..], b[1..], c[1..]);
    }
  }

  // ----- lengths

  lemma MulAtLeast(p: nat, x: int)
    ensures x >= 1 ==> p * x >= p
    ensures x <= -1 ==> p * x + p <= 0
  {
    assert p * x - p == p * (x - 1);
    assert p * x + p == p * (x + 1);
  }

  lemma DivUnique(n: nat, p: nat, q: nat, r: nat)
    requires r < p && n == p * q + r
    ensures n / p == q
  {
    var d := n / p;
    assert n == p * d + n % p;
    assert p * d == p * q + p * (d - q);
    MulAtLeast(p, d - q);
  }

  lemma DivTwice(n: nat, p: nat)
    requires p > 0
    ensures (n / 10) / p == n / (10 * p)
  {
    var q, r := (n / 10) / p, (n / 10) % p;
    assert n / 10 == p * q + r;
    assert n == (10 * p) * q + (10 * r + n % 10);
    DivUnique(n, 10 * p, q, 10 * r + n % 10);
  }

  lemma {:induction false} Pow10IsPositive(k: nat)
    ensures Pow10(k) > 0
  {
    if k > 0 { Pow10IsPositive(k - 1); }
  }

  /** A number has at most `k` digits exactly when it is below ten to the `k`. */
  lemma {:induction false} ShowLength(n: nat, k: nat)
    requires k > 0
    ensures |Show(n)| <= k <==> n < Pow10(k)
    decreases k
  {
    assert Pow10(k) == 10 * Pow10(k - 1);
    if k == 1 {
      assert Pow10(0) == 1;
    } else {
      Pow10IsPositive(k - 1);
      if n >= 10 { ShowLength(n / 10, k - 1); }
    }
  }

  /** Whatever its length, a padded number is its digits at that length. */
  lemma PaddedIsItsDigits(n: nat, width: nat)
    requires width > 0
    ensures var k := if |Show(n)| < width then width else |Show(n)|;
      |Padded(n, width)| == k && n < Pow10(k) && Padded(n, width) == Fixed(n, k)
  {
    var k := if |Show(n)| < width then width else |Show(n)|;
    ShowLength(n, k);
    PaddedIsFixed(n, k);
  }

  /** A number without its last `m` digits. */
  function WithoutLast(n: nat, m: nat): nat
    decreases m
  {
    if m == 0 then n else WithoutLast(n / 10, m - 1)
  }

  lemma {:induction false} WithoutLastIsTheQuotient(n: nat, m: nat)
    ensures Pow10(m) > 0 && WithoutLast(n, m) == n / Pow10(m)
    decreases m
  {
    Pow10IsPositive(m);
    if m == 0 {
      assert n / 1 == n;
    } else {
      Pow10IsPositive(m - 1);
      WithoutLastIsTheQuotient(n / 10, m - 1);
      DivTwice(n, Pow10(m - 1));
    }
  }

  lemma FrontOf(s: string, c: char, k: nat)
    requires k <= |s|
    ensures (s + [c])[..k] == s[..k]
  {
  }

  /** The front of a digit string is the number without its last digits. */
  lemma {:induction false} LeadingDigits(n: nat, k: nat, m: nat)
    ensures Fixed(n, k + m)[..k] == Fixed(WithoutLast(n, m), k)
    decreases m
  {
    if m == 0 {
      assert Fixed(n, k)[..k] == Fixed(n, k);
    } else {
      LeadingDigits(n / 10, k, m - 1);
      FrontOf(Fixed(n / 10, k + m - 1), DigitChar(n % 10), k);
    }
  }

  lemma {:induction false} WithoutLastFits(n: nat, k: nat, m: nat)
    requires n < Pow10(k + m)
    ensures WithoutLast(n, m) < Pow10(k)
    decreases m
  {
    if m > 0 {
      assert Pow10(k + m) == 10 * Pow10(k + m - 1);
      WithoutLastFits(n / 10, k, m - 1);
    }
  }

  /** Digit strings of one length compare as their numbers. */
  lemma FixedOrderIs(a: nat, b: nat, k: nat)
    requires a < Pow10(k) && b < Pow10(k)
    ensures Fixed(a, k) == Fixed(b, k) || Before(Fixed(a, k), Fixed(b, k)) <==> a <= b
  {
    if a < b {
      FixedOrder(a, b, k);
    } else if b < a {
      FixedOrder(b, a, k);
      BeforeIsAsymmetric(Fixed(b, k), Fixed(a, k));
    }
  }

  /** Two strings that part after fronts of one length, the first with the smaller character. */
  lemma {:induction false} PartingOrder(a: string, b: string, x: string, y: string)
    requires |a| == |b| && x != "" && y != "" && x[0] < y[0]
    ensures Before(a + x, b + y) <==> a == b || Before(a, b)
    decreases |a|
  {
    if a == "" {
      assert a + x == x && b + y == y;
    } else {
      assert (a + x)[1..] == a[1..] + x && (b + y)[1..] == b[1..] + y;
      PartingOrder(a[1..], b[1..], x, y);
      assert a == [a[0]] + a[1..] && b == [b[0]] + b[1..];
    }
  }
}
