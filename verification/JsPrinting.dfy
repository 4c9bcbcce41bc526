/** That rounding gives the nearest double and printing the shortest digits that read back. */
module JsPrinting {
  import opened Common
  import opened Decimal
  import opened JsNumber

  /** A whole number with at most 53 significant bits. */
  predicate Double(y: nat) { y < 0x20_0000_0000_0000 || (y % 2 == 0 && Double(y / 2)) }

  function Distance(a: int, b: int): nat { if a < b then b - a else a - b }

  // ----- rounding

  /** In units of the spacing a number has 53 bits. */
  lemma {:induction false} Significand(n: nat)
    ensures n / Spacing(n) < EXACT_BELOW
    ensures n >= EXACT_BELOW ==> EXACT_BELOW / 2 <= n / Spacing(n)
  {
    if n >= EXACT_BELOW {
      SpacingLeavesBits(n);
      HalfThenDivide(n, Spacing(n / 2));
      Significand(n / 2);
    }
  }

  /** Few units of a spacing make a double. */
  lemma {:induction false} UnitsAreADouble(m: nat, n: nat)
    requires m <= EXACT_BELOW
    ensures Double(m * Spacing(n))
  {
    if n < EXACT_BELOW {
      assert m < EXACT_BELOW || m / 2 < EXACT_BELOW;
    } else {
      var u := Spacing(n / 2);
      UnitsAreADouble(m, n / 2);
      TwiceHalved(m, u);
    }
  }

  lemma TwiceHalved(m: nat, u: nat)
    ensures (m * (2 * u)) % 2 == 0 && (m * (2 * u)) / 2 == m * u
  {
    assert m * (2 * u) == 2 * (m * u);
  }

  /** A double that is not small beside the spacing is a multiple of it. */
  lemma {:induction false} DoublesAlign(y: nat, n: nat) returns (q: nat)
    requires Double(y) && (n >= EXACT_BELOW ==> y >= EXACT_BELOW / 2 * Spacing(n))
    ensures y == q * Spacing(n)
  {
    if n < EXACT_BELOW {
      q := y;
    } else {
      var u := Spacing(n / 2);
      assert EXACT_BELOW / 2 * (2 * u) == EXACT_BELOW * u;
      TimesAtLeast(u, 1, EXACT_BELOW);
      assert y >= EXACT_BELOW;
      q := DoublesAlign(y / 2, n / 2);
      assert y == 2 * (q * u) == q * (2 * u);
    }
  }

  lemma RoundedTo(n: nat) returns (m: nat, u: nat)
    ensures u == Spacing(n) && n / u == m && Rounded(n) in {m * u, (m + 1) * u} && m * u <= n < (m + 1) * u
    ensures Distance(n, Rounded(n)) <= n - m * u && Distance(n, Rounded(n)) <= (m + 1) * u - n
    ensures 2 * n == m * u + (m + 1) * u ==> Rounded(n) == (if m % 2 == 0 then m else m + 1) * u
  {
    u := Spacing(n);
    m := n / u;
    assert n == m * u + n % u;
    assert (m + 1) * u == m * u + u;
  }

  lemma RoundedIsADouble(n: nat)
    ensures Double(Rounded(n))
  {
    var m, u := RoundedTo(n);
    Significand(n);
    UnitsAreADouble(m, n);
    UnitsAreADouble(m + 1, n);
  }

  lemma OutsideIsFurther(y: nat, q: nat, m: nat, u: nat)
    requires y == q * u
    ensures y <= m * u || y >= (m + 1) * u
  {
    if q <= m { TimesAtLeast(m, q, u); } else { TimesAtLeast(q, m + 1, u); }
  }

  /** A double lies on one side or the other of the two next to a number. */
  lemma DoublesAround(n: nat, y: nat, m: nat, u: nat)
    requires Double(y) && u == Spacing(n) && m == n / u
    ensures y <= m * u || y >= (m + 1) * u
  {
    Significand(n);
    if n >= EXACT_BELOW && y < EXACT_BELOW / 2 * u {
      TimesAtLeast(m, EXACT_BELOW / 2, u);
    } else {
      var q := DoublesAlign(y, n);
      OutsideIsFurther(y, q, m, u);
    }
  }

  /** Rounding gives the nearest double, and of two as near the one with an even significand. */
  lemma RoundedIsNearest(n: nat, y: nat)
    requires Double(y)
    ensures Double(Rounded(n)) && Distance(n, Rounded(n)) <= Distance(n, y)
    ensures y != Rounded(n) && Distance(n, Rounded(n)) == Distance(n, y) ==>
      exists m: nat :: m % 2 == 0 && Rounded(n) == m * Distance(Rounded(n), y)
  {
    RoundedIsADouble(n);
    var m, u := RoundedTo(n);
    DoublesAround(n, y, m, u);
    if y != Rounded(n) && Distance(n, Rounded(n)) == Distance(n, y) {
      TiedAreNeighbours(n, y, m, u);
      EvenNeighbour(Rounded(n), y, m, u);
    }
  }

  lemma EvenNeighbour(r: nat, y: nat, m: nat, u: nat)
    requires r == (if m % 2 == 0 then m else m + 1) * u
    requires y != r && (y == m * u || y == (m + 1) * u)
    ensures exists even: nat :: even % 2 == 0 && r == even * Distance(r, y)
  {
    assert (m + 1) * u - m * u == u;
    assert Distance(r, y) == u;
  }

  lemma TiedAreNeighbours(n: nat, y: nat, m: nat, u: nat)
    requires Rounded(n) in {m * u, (m + 1) * u} && m * u <= n < (m + 1) * u
    requires Distance(n, Rounded(n)) <= n - m * u && Distance(n, Rounded(n)) <= (m + 1) * u - n
    requires y <= m * u || y >= (m + 1) * u
    requires y != Rounded(n) && Distance(n, Rounded(n)) == Distance(n, y)
    ensures 2 * n == m * u + (m + 1) * u && (y == m * u || y == (m + 1) * u)
  {
  }

  lemma DoublesStay(x: nat)
    requires Double(x)
    ensures Rounded(x) == x
  {
    RoundedIsNearest(x, x);
  }

  lemma RoundedIsMonotone(a: nat, b: nat)
    requires a <= b
    ensures Rounded(a) <= Rounded(b)
  {
    RoundedIsADouble(a);
    RoundedIsADouble(b);
    RoundedIsNearest(a, Rounded(b));
    RoundedIsNearest(b, Rounded(a));
  }

  // ----- printing

  /** A whole number of units. */
  ghost predicate Multiple(c: nat, unit: nat) { exists k: nat :: c == k * unit }

  /** The two multiples of a unit next to a double: one of them reads back when any multiple does, and none that
      does is nearer than the one chosen. */
  lemma NearerIsBest(x: nat, m: nat, unit: nat, c: nat, k: nat)
    requires unit > 0 && m == x / unit && c == k * unit && Rounded(c) == x && Double(x)
    ensures var r := Nearer(m * unit, m * unit + unit, x);
      Rounded(r) == x && Distance(x, r) <= Distance(x, c)
  {
    assert x == m * unit + x % unit;
    DoublesStay(x);
    OutsideIsFurther(c, k, m, unit);
    assert (m + 1) * unit == m * unit + unit;
    if c <= m * unit {
      RoundedIsMonotone(c, m * unit);
      RoundedIsMonotone(m * unit, x);
    } else {
      RoundedIsMonotone(x, m * unit + unit);
      RoundedIsMonotone(m * unit + unit, c);
    }
  }

  lemma NearerOfMultiples(x: nat, m: nat, unit: nat, c: nat)
    requires unit > 0 && m == x / unit && Multiple(c, unit) && Rounded(c) == x && Double(x)
    ensures var r := Nearer(m * unit, m * unit + unit, x);
      Rounded(r) == x && Distance(x, r) <= Distance(x, c)
  {
    var k: nat :| c == k * unit;
    NearerIsBest(x, m, unit, c, k);
  }

  lemma MultiplesOfLess(c: nat, z: nat, zeros: nat)
    requires z <= zeros && Multiple(c, Pow10(zeros))
    ensures Multiple(c, Pow10(z))
    decreases zeros
  {
    if z < zeros {
      var k: nat :| c == k * Pow10(zeros);
      assert c == (10 * k) * Pow10(zeros - 1);
      MultiplesOfLess(c, z, zeros - 1);
    }
  }

  lemma EndsInMore(r: nat, z: nat, zeros: nat)
    requires z < zeros && Multiple(r, Pow10(zeros))
    ensures Multiple(r, Pow10(z)) && Multiple(r, Pow10(z + 1))
  {
    MultiplesOfLess(r, z, zeros);
    MultiplesOfLess(r, z + 1, zeros);
  }

  lemma NearerIsAMultiple(x: nat, m: nat, unit: nat)
    ensures Multiple(Nearer(m * unit, m * unit + unit, x), unit)
  {
    assert m * unit + unit == (m + 1) * unit;
  }

  /** One turn of the search. */
  lemma ShortestTurn(x: nat, zeros: nat) returns (m: nat, unit: nat, r: nat)
    requires zeros > 0
    ensures unit == Pow10(zeros) && unit > 0 && m == x / unit && r == Nearer(m * unit, m * unit + unit, x)
    ensures Multiple(r, unit)
    ensures Shortest(x, zeros) == if ReadsBack(r, x) then r else Shortest(x, zeros - 1)
  {
    unit := Pow10(zeros);
    WithoutLastIsTheQuotient(x, zeros);
    m := WithoutLast(x, zeros);
    r := Nearer(m * unit, m * unit + unit, x);
    NearerIsAMultiple(x, m, unit);
  }

  lemma {:induction false} ShortestIs(x: nat, zeros: nat, c: nat, z: nat)
    requires Double(x) && z <= zeros && Multiple(c, Pow10(z)) && Rounded(c) == x
    ensures var r := Shortest(x, zeros);
      && Rounded(r) == x && Multiple(r, Pow10(z))
      && (Distance(x, r) <= Distance(x, c) || (z < zeros && Multiple(r, Pow10(z + 1))))
    decreases zeros
  {
    if zeros == 0 {
      DoublesStay(x);
      assert x == x * Pow10(0);
    } else {
      var m, unit, r := ShortestTurn(x, zeros);
      if z == zeros {
        NearerOfMultiples(x, m, unit, c);
      } else if ReadsBack(r, x) {
        EndsInMore(r, z, zeros);
      } else {
        ShortestIs(x, zeros - 1, c, z);
      }
    }
  }

  /** What a number prints as: it reads back as the number's double; whatever reads back as that double and ends
      in some number of zeros, short of all its digits, it ends in as many; and it is as near or ends in
      more. */
  lemma PrintedIsShortest(n: nat, c: nat, z: nat)
    requires Rounded(c) == Rounded(n) && Multiple(c, Pow10(z)) && z < |Show(Rounded(n))|
    ensures Rounded(Printed(n)) == Rounded(n)
    ensures Multiple(Printed(n), Pow10(z))
    ensures Distance(Rounded(n), Printed(n)) <= Distance(Rounded(n), c)
            || (z + 1 < |Show(Rounded(n))| && Multiple(Printed(n), Pow10(z + 1)))
  {
    RoundedIsADouble(n);
    ShortestIs(Rounded(n), |Show(Rounded(n))| - 1, c, z);
  }

  lemma FirstRounded(n: nat)
    requires n == 9007199254740993
    ensures Rounded(n) == 9007199254740992 && Rounded(9007199254740992) == 9007199254740992
  {
    assert Spacing(n / 2) == 1;
    assert Spacing(n) == 2;
    assert n / 2 == 4503599627370496 && n % 2 == 1;
    DoublesStay(9007199254740992);
  }

  lemma PrintedReadsBack(n: nat)
    ensures Rounded(Printed(n)) == Rounded(n)
  {
    RoundedIsADouble(n);
    DoublesStay(Rounded(n));
    assert Rounded(n) == Rounded(n) * Pow10(0);
    PrintedIsShortest(n, Rounded(n), 0);
  }

  /** Numbers print as digits exactly when what they print as is below ten to the 21. */
  lemma DigitsBelowTenToThe21(n: nat, bound: nat)
    requires bound == 1_000_000_000_000_000_000_000
    ensures PrintsAsDigits(n) <==> Printed(n) < bound
  {
    PowersOfTen();
    ShowLength(Printed(n), 21);
    if Printed(n) < bound {
      PrintedReadsBack(n);
      TenToThe21IsADouble(bound);
      RoundedIsMonotone(Printed(n), bound);
      PowersOfTen();
      ShowLength(Rounded(n), 22);
      BitsOfDigits(Rounded(n));
    }
  }

  /** A number that is no double and does not end in a zero never prints as itself. */
  lemma AlteredUnlessADouble(n: nat)
    requires Rounded(n) != n && n % 10 != 0
    ensures !PrintsBack(n)
  {
    RoundedIsADouble(n);
    DoublesStay(Rounded(n));
    assert Rounded(n) == Rounded(n) * Pow10(0);
    PrintedIsShortest(n, Rounded(n), 0);
    NotATen(n);
  }

  lemma NotATen(n: nat)
    requires n % 10 != 0
    ensures !Multiple(n, Pow10(1))
  {
    assert Pow10(1) == 10;
  }

  /** The first such number. */
  lemma FirstAltered(n: nat)
    requires n == 9007199254740993
    ensures Rounded(n) == 9007199254740992 && !PrintsBack(n)
  {
    FirstRounded(n);
    AlteredUnlessADouble(n);
  }
}
