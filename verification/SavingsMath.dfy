/** Fixed-point savings arithmetic: a third-order compound-interest polynomial over a 27-decimal base. */
module SavingsMath {
  import opened Wrappers

  const BASE_27: nat := 1_000_000_000_000_000_000_000_000_000
  const HALF_BASE_27: nat := BASE_27 / 2

  datatype MathError = NegativePendingYield | NegativeNativeYpo

  /** Big-integer division truncates toward zero. */
  function TruncDiv(a: int, b: int): int
    requires b > 0
  {
    if a >= 0 then a / b else -((-a) / b)
  }

  function BasePowerTwo(rate: int): int { TruncDiv(rate * rate + HALF_BASE_27, BASE_27) }

  function BasePowerThree(rate: int): int { TruncDiv(BasePowerTwo(rate) * rate + HALF_BASE_27, BASE_27) }

  function ComputeUpdatedAssets(currentBalance: int, ratePerSecond: int, elapsedSeconds: int): int {
    if elapsedSeconds == 0 || ratePerSecond == 0 then currentBalance else
      var expMinusOne := elapsedSeconds - 1;
      var expMinusTwo := if elapsedSeconds > 2 then elapsedSeconds - 2 else 0;
      var secondTerm := TruncDiv(elapsedSeconds * expMinusOne * BasePowerTwo(ratePerSecond), 2);
      var thirdTerm := TruncDiv(elapsedSeconds * expMinusOne * expMinusTwo * BasePowerThree(ratePerSecond), 6);
      TruncDiv(currentBalance * (BASE_27 + ratePerSecond * elapsedSeconds + secondTerm + thirdTerm), BASE_27)
  }

  function CalculatePendingYield(totalAssets: int, actualAssetBalance: int): Result<int, MathError> {
    if totalAssets < actualAssetBalance then Failure(NegativePendingYield)
    else Success(totalAssets - actualAssetBalance)
  }

  function CalculateNativeYpo(accruedInterest: int, pendingAtStart: int, pendingAtEnd: int): Result<int, MathError> {
    var value := accruedInterest + pendingAtEnd - pendingAtStart;
    if value < 0 then Failure(NegativeNativeYpo) else Success(value)
  }

  // The reference: binomial coefficients by Pascal's rule, and the polynomial they weight.

  function Choose2(t: nat): nat { if t == 0 then 0 else Choose2(t - 1) + (t - 1) }

  function Choose3(t: nat): nat { if t == 0 then 0 else Choose3(t - 1) + Choose2(t - 1) }

  function Growth(rate: nat, t: nat): int {
    BASE_27 + rate * t + Choose2(t) * BasePowerTwo(rate) + Choose3(t) * BasePowerThree(rate)
  }

  lemma {:induction false} Choose2Closed(t: nat)
    ensures 2 * Choose2(t) == t * (t - 1)
  {
    if t > 0 {
      Choose2Closed(t - 1);
    }
  }

  lemma {:induction false} Choose3Closed(t: nat)
    ensures 6 * Choose3(t) == t * (t - 1) * (t - 2)
  {
    if t > 0 {
      Choose3Closed(t - 1);
      Choose2Closed(t - 1);
      assert (t - 1) * (t - 2) * (t - 3) + 3 * ((t - 1) * (t - 2)) == t * (t - 1) * (t - 2);
    }
  }

  lemma PowersAreNatural(rate: nat)
    ensures BasePowerTwo(rate) >= 0 && BasePowerThree(rate) >= 0
    ensures rate == 0 ==> BasePowerTwo(rate) == 0 && BasePowerThree(rate) == 0
  {
    assert rate * rate >= 0;
    var two := BasePowerTwo(rate);
    assert two * rate >= 0;
  }

  lemma SecondTermExact(t: nat, two: nat)
    ensures TruncDiv(t * (t - 1) * two, 2) == Choose2(t) * two
  {
    Choose2Closed(t);
    var q := Choose2(t) * two;
    assert t * (t - 1) * two == 2 * q;
    assert q >= 0;
  }

  lemma SixthOfProduct(c: nat, choose: nat, three: nat)
    requires c == 6 * choose
    ensures TruncDiv(c * three, 6) == choose * three
  {
    var q := choose * three;
    assert c * three == 6 * q;
  }

  lemma ThirdTermExact(t: nat, three: nat)
    ensures TruncDiv(t * (t - 1) * (if t > 2 then t - 2 else 0) * three, 6) == Choose3(t) * three
  {
    Choose3Closed(t);
    SixthOfProduct(t * (t - 1) * (if t > 2 then t - 2 else 0), Choose3(t), three);
  }

  lemma GrowthAtLeastBase(rate: nat, t: nat)
    ensures Growth(rate, t) >= BASE_27
    ensures t == 0 || rate == 0 ==> Growth(rate, t) == BASE_27
  {
    PowersAreNatural(rate);
    assert rate * t >= 0 && Choose2(t) * BasePowerTwo(rate) >= 0 && Choose3(t) * BasePowerThree(rate) >= 0;
  }

  /** The two halvings and the division by six lose nothing: only the final division by the base rounds. */
  lemma ClosedForm(balance: nat, rate: nat, t: nat)
    ensures ComputeUpdatedAssets(balance, rate, t) == balance * Growth(rate, t) / BASE_27
  {
    GrowthAtLeastBase(rate, t);
    if t != 0 && rate != 0 {
      PowersAreNatural(rate);
      SecondTermExact(t, BasePowerTwo(rate));
      ThirdTermExact(t, BasePowerThree(rate));
      MulMonotone(0, Growth(rate, t), balance);
    }
  }

  /** The polynomial in full: one, the linear term, and the second and third binomial terms, over ten to the 27th. */
  lemma GrowthMeans(rate: nat, t: nat)
    ensures BASE_27 == 1_000_000_000 * 1_000_000_000 * 1_000_000_000
    ensures 6 * Growth(rate, t)
         == 6 * BASE_27 + 6 * (rate * t)
            + 3 * ((t * (t - 1)) * BasePowerTwo(rate)) + (t * (t - 1) * (t - 2)) * BasePowerThree(rate)
  {
    Choose2Closed(t);
    Choose3Closed(t);
    ScaledProduct(2, Choose2(t), t * (t - 1), BasePowerTwo(rate));
    ScaledProduct(6, Choose3(t), t * (t - 1) * (t - 2), BasePowerThree(rate));
  }

  lemma ScaledProduct(k: int, x: int, y: int, z: int)
    requires k * x == y
    ensures k * (x * z) == y * z
  {
  }

  /** The quotient is the exact one without its fraction, on either side of zero. */
  lemma TruncDivTruncates(a: int, b: int)
    requires b > 0
    ensures a >= 0 ==> TruncDiv(a, b) >= 0 && 0 <= a - b * TruncDiv(a, b) < b
    ensures a <= 0 ==> TruncDiv(a, b) <= 0 && -b < a - b * TruncDiv(a, b) <= 0
  {
  }

  lemma {:induction false} ChooseMonotone(s: nat, t: nat)
    requires s <= t
    ensures Choose2(s) <= Choose2(t) && Choose3(s) <= Choose3(t)
    decreases t
  {
    if s < t {
      ChooseMonotone(s, t - 1);
    }
  }

  lemma MulMonotone(a: int, b: int, c: int)
    requires a <= b && c >= 0
    ensures a * c <= b * c && c * a <= c * b
  {
  }

  lemma DivMonotone(a: int, b: int, d: int)
    requires a <= b && d > 0
    ensures a / d <= b / d
  {
    if a / d > b / d {
      MulMonotone(b / d + 1, a / d, d);
    }
  }

  /** Assets never fall with elapsed time, and start from the balance itself. */
  lemma UpdatedAssetsMonotone(balance: nat, rate: nat, s: nat, t: nat)
    requires s <= t
    ensures balance <= ComputeUpdatedAssets(balance, rate, s) <= ComputeUpdatedAssets(balance, rate, t)
    ensures ComputeUpdatedAssets(balance, rate, 0) == balance
  {
    PowersAreNatural(rate);
    ChooseMonotone(s, t);
    MulMonotone(s, t, rate);
    MulMonotone(Choose2(s), Choose2(t), BasePowerTwo(rate));
    MulMonotone(Choose3(s), Choose3(t), BasePowerThree(rate));
    ClosedForm(balance, rate, s);
    ClosedForm(balance, rate, t);
    GrowthAtLeastBase(rate, s);
    MulMonotone(Growth(rate, s), Growth(rate, t), balance);
    MulMonotone(BASE_27, Growth(rate, s), balance);
    DivMonotone(balance * Growth(rate, s), balance * Growth(rate, t), BASE_27);
    DivMonotone(balance * BASE_27, balance * Growth(rate, s), BASE_27);
  }

  /** A deposit adds at least itself to the updated assets, so pending yield does not fall. */
  lemma DepositGrowsPending(balance: nat, deposit: nat, rate: nat, t: nat)
    ensures ComputeUpdatedAssets(balance + deposit, rate, t) >= ComputeUpdatedAssets(balance, rate, t) + deposit
  {
    var g := Growth(rate, t);
    ClosedForm(balance, rate, t);
    ClosedForm(balance + deposit, rate, t);
    GrowthAtLeastBase(rate, t);
    MulMonotone(BASE_27, g, deposit);
    assert (balance + deposit) * g == balance * g + deposit * g;
    DivMonotone(balance * g + deposit * BASE_27, (balance + deposit) * g, BASE_27);
    DivPlusMultiple(balance * g, deposit, BASE_27);
  }

  lemma DivPlusMultiple(n: int, m: int, d: nat)
    requires d > 0
    ensures (n + m * d) / d == n / d + m
  {
    var q := (n + m * d) / d - n / d;
    assert n == d * (n / d) + n % d;
    assert n + m * d == d * ((n + m * d) / d) + (n + m * d) % d;
    assert d * (q - m) == n % d - (n + m * d) % d;
    if q > m {
      MulMonotone(1, q - m, d);
    } else if q < m {
      MulMonotone(q - m, -1, d);
    }
  }

  /** At one per second the balance doubles in a second. */
  lemma DoublesInASecond()
    ensures ComputeUpdatedAssets(BASE_27, BASE_27, 1) == 2 * BASE_27
  {
    ClosedForm(BASE_27, BASE_27, 1);
    assert Choose2(1) == 0 && Choose3(1) == 0;
  }

  // Accruing in one step against accruing in two.

  /** The mixed terms by which one long step exceeds the product of two short ones. */
  function MixedTerms(t1: nat, t2: nat): nat { t1 * t2 + (t1 * Choose2(t2) + Choose2(t1) * t2) }

  lemma {:induction false} Choose2OfSum(s: nat, t: nat)
    ensures Choose2(s + t) == Choose2(s) + Choose2(t) + s * t
    decreases t
  {
    if t > 0 {
      Choose2OfSum(s, t - 1);
      assert s * t == s * (t - 1) + s;
    }
  }

  lemma {:induction false} Choose3OfSum(s: nat, t: nat)
    ensures Choose3(s + t) == Choose3(s) + Choose3(t) + (s * Choose2(t) + Choose2(s) * t)
    decreases t
  {
    if t > 0 {
      Choose3OfSum(s, t - 1);
      Choose2OfSum(s, t - 1);
      assert Choose3(s + t) == Choose3(s + (t - 1)) + Choose2(s + (t - 1));
      assert Choose2(t) == Choose2(t - 1) + (t - 1);
      CrossTermStep(s, t, Choose2(s), Choose2(t - 1));
    }
  }

  lemma CrossTermStep(s: nat, t: nat, a: nat, b: nat)
    ensures s * (b + (t - 1)) + a * t == s * b + a * (t - 1) + s * (t - 1) + a
  {
  }

  lemma NearestQuotient(n: nat)
    ensures var q := TruncDiv(n + HALF_BASE_27, BASE_27); 2 * n - BASE_27 < 2 * BASE_27 * q <= 2 * n + BASE_27
  {
  }

  /** Both powers of the rate are rounded to the nearest, ties upward. */
  lemma PowerRounding(rate: nat)
    ensures 2 * (rate * rate) - BASE_27 < 2 * BASE_27 * BasePowerTwo(rate) <= 2 * (rate * rate) + BASE_27
    ensures 2 * (BasePowerTwo(rate) * rate) - BASE_27 < 2 * BASE_27 * BasePowerThree(rate)
         <= 2 * (BasePowerTwo(rate) * rate) + BASE_27
  {
    PowersAreNatural(rate);
    NearestQuotient(rate * rate);
    var cube := BasePowerTwo(rate) * rate;
    assert cube >= 0;
    NearestQuotient(cube);
  }

  lemma RegroupedProduct(w: int, x: int, y: int, z: int)
    ensures (w * x) * (y * z) == (w * y) * (x * z)
  {
    assert (w * x) * (y * z) == w * (x * (y * z)) == w * (y * (x * z));
  }

  lemma DropNaturalTerms(a1: nat, b1: nat, z1: nat, a2: nat, b2: nat, z2: nat)
    ensures (a1 + b1 + z1) * (a2 + b2 + z2) >= a1 * a2 + a1 * b2 + b1 * a2
  {
    assert (a1 + b1 + z1) * (a2 + b2 + z2)
        == a1 * a2 + a1 * b2 + b1 * a2 + b1 * b2 + z1 * (a2 + b2 + z2) + (a1 + b1) * z2;
  }

  lemma ProductOfSums(r: nat, t1: nat, t2: nat, c1: nat, c2: nat, p: nat, z1: nat, z2: nat)
    ensures (r * t1 + c1 * p + z1) * (r * t2 + c2 * p + z2) >= (r * r) * (t1 * t2) + (p * r) * (t1 * c2 + c1 * t2)
  {
    DropNaturalTerms(r * t1, c1 * p, z1, r * t2, c2 * p, z2);
    RegroupedProduct(r, t1, r, t2);
    RegroupedProduct(r, t1, p, c2);
    RegroupedProduct(p, c1, r, t2);
    Distributes(p * r, t1 * c2, c1 * t2);
  }

  lemma Distributes(k: int, x: int, y: int)
    ensures k * (x + y) == k * x + k * y
  {
  }

  lemma MixedTermsBound(base: nat, p2: nat, p3: nat, r: nat, tt: nat, mm: nat, xx: nat)
    requires 2 * base * p2 <= 2 * (r * r) + base
    requires 2 * base * p3 <= 2 * (p2 * r) + base
    requires xx >= (r * r) * tt + (p2 * r) * mm
    ensures 2 * base * (tt * p2 + mm * p3) <= 2 * xx + base * (tt + mm)
  {
    ScaledRounding(base, p2, r * r, tt);
    ScaledRounding(base, p3, p2 * r, mm);
    Distributes(2 * base, tt * p2, mm * p3);
    Distributes(base, tt, mm);
  }

  lemma ScaledRounding(base: nat, p: nat, square: nat, n: nat)
    requires 2 * base * p <= 2 * square + base
    ensures 2 * base * (n * p) <= 2 * (square * n) + base * n
  {
    MulMonotone(2 * base * p, 2 * square + base, n);
    assert 2 * base * (n * p) == (2 * base * p) * n;
    assert (2 * square + base) * n == 2 * (square * n) + base * n;
  }

  lemma PolynomialSplits(r: int, p2: int, p3: int, t1: int, t2: int, c1: int, c2: int, d1: int, d2: int, tt: int,
                         mm: int)
    ensures r * (t1 + t2) + (c1 + c2 + tt) * p2 + (d1 + d2 + mm) * p3
         == (r * t1 + c1 * p2 + d1 * p3) + (r * t2 + c2 * p2 + d2 * p3) + (tt * p2 + mm * p3)
  {
  }

  lemma GrowthSplits(rate: nat, t1: nat, t2: nat)
    ensures Growth(rate, t1 + t2) == Growth(rate, t1) + Growth(rate, t2) - BASE_27
      + ((t1 * t2) * BasePowerTwo(rate) + (t1 * Choose2(t2) + Choose2(t1) * t2) * BasePowerThree(rate))
  {
    var p2, p3 := BasePowerTwo(rate), BasePowerThree(rate);
    var tt, mm := t1 * t2, t1 * Choose2(t2) + Choose2(t1) * t2;
    Choose2OfSum(t1, t2);
    Choose3OfSum(t1, t2);
    PolynomialSplits(rate, p2, p3, t1, t2, Choose2(t1), Choose2(t2), Choose3(t1), Choose3(t2), tt, mm);
  }

  lemma ShiftedProduct(base: int, g1: int, g2: int, g12: int, extra: int, e: int)
    requires g12 == g1 + g2 - base + extra
    requires 2 * base * extra <= 2 * ((g1 - base) * (g2 - base)) + base * e
    ensures 2 * base * g12 <= 2 * (g1 * g2) + base * e
  {
    assert (g1 - base) * (g2 - base) == g1 * g2 - base * g1 - base * g2 + base * base;
    assert 2 * base * g12 == 2 * (base * g1) + 2 * (base * g2) - 2 * (base * base) + 2 * base * extra;
  }

  lemma GrowthOfSum(rate: nat, t1: nat, t2: nat)
    ensures 2 * BASE_27 * Growth(rate, t1 + t2)
         <= 2 * (Growth(rate, t1) * Growth(rate, t2)) + BASE_27 * MixedTerms(t1, t2)
  {
    var p2, p3 := BasePowerTwo(rate), BasePowerThree(rate);
    PowersAreNatural(rate);
    PowerRounding(rate);
    GrowthSplits(rate, t1, t2);
    SumAgainstProduct(BASE_27, rate, p2, p3, t1, t2, Choose2(t1), Choose2(t2), Choose3(t1), Choose3(t2),
                      Growth(rate, t1), Growth(rate, t2), Growth(rate, t1 + t2));
  }

  lemma SumAgainstProduct(base: nat, r: nat, p2: nat, p3: nat, t1: nat, t2: nat, c1: nat, c2: nat, d1: nat, d2: nat,
                          g1: int, g2: int, g12: int)
    requires 2 * base * p2 <= 2 * (r * r) + base && 2 * base * p3 <= 2 * (p2 * r) + base
    requires g1 == base + r * t1 + c1 * p2 + d1 * p3 && g2 == base + r * t2 + c2 * p2 + d2 * p3
    requires g12 == g1 + g2 - base + ((t1 * t2) * p2 + (t1 * c2 + c1 * t2) * p3)
    ensures 2 * base * g12 <= 2 * (g1 * g2) + base * (t1 * t2 + (t1 * c2 + c1 * t2))
  {
    var tt, mm := t1 * t2, t1 * c2 + c1 * t2;
    ProductOfSums(r, t1, t2, c1, c2, p2, d1 * p3, d2 * p3);
    MixedTermsBound(base, p2, p3, r, tt, mm, (g1 - base) * (g2 - base));
    ShiftedProduct(base, g1, g2, g12, tt * p2 + mm * p3, tt + mm);
  }

  lemma FloorsLoseLittle(base: nat, b: nat, p1: nat, p2: nat, p12: nat, e: nat, u1: nat, u2: nat, u12: nat)
    requires base > 0 && 2 * base * p12 <= 2 * (p1 * p2) + base * e
    requires base * u1 > b * p1 - base && base * u2 > u1 * p2 - base && base * u12 <= b * p12
    ensures 2 * base * (u12 - u2) < b * e + 2 * p2 + 2 * base
  {
    var x, r, y, z, w, v :=
      base * (base * u12), base * (base * u2), base * (b * p12), (b * p1) * p2, base * (b * e), base * (u1 * p2);
    assert x <= y by { MulMonotone(base * u12, b * p12, base); }
    assert 2 * y <= 2 * z + w by { ScaledByBalance(base, b, p1, p2, p12, e); }
    assert z - base * p2 <= v by { ScaledByGrowth(base, b, p1, p2, u1); }
    assert v - base * base < r by { ScaledByBase(base, u1 * p2, base * u2); }
    FloorsChain(x, r, y, z, w, v, base * p2, base * base);
    var lhs, rhs := 2 * base * (u12 - u2), b * e + 2 * p2 + 2 * base;
    assert base * lhs == 2 * x - 2 * r;
    assert base * rhs == w + 2 * (base * p2) + 2 * (base * base);
    if lhs >= rhs {
      MulMonotone(rhs, lhs, base);
    }
  }

  lemma ScaledByBalance(base: int, b: nat, p1: int, p2: int, p12: int, e: int)
    requires 2 * base * p12 <= 2 * (p1 * p2) + base * e
    ensures 2 * (base * (b * p12)) <= 2 * ((b * p1) * p2) + base * (b * e)
  {
    MulMonotone(2 * base * p12, 2 * (p1 * p2) + base * e, b);
    assert (2 * base * p12) * b == 2 * (base * (b * p12));
    assert (2 * (p1 * p2) + base * e) * b == 2 * ((b * p1) * p2) + base * (b * e);
  }

  lemma ScaledByGrowth(base: int, b: int, p1: int, p2: nat, u1: int)
    requires b * p1 - base <= base * u1
    ensures (b * p1) * p2 - base * p2 <= base * (u1 * p2)
  {
    MulMonotone(b * p1 - base, base * u1, p2);
    assert (base * u1) * p2 == base * (u1 * p2);
  }

  lemma ScaledByBase(base: nat, x: int, y: int)
    requires base > 0 && x - base < y
    ensures base * x - base * base < base * y
  {
    MulMonotone(x - base + 1, y, base);
  }

  lemma FloorsChain(x: int, r: int, y: int, z: int, w: int, v: int, q: int, s: int)
    requires x <= y && 2 * y <= 2 * z + w && z - q <= v && v - s < r
    ensures 2 * x - 2 * r < w + 2 * q + 2 * s
  {
  }

  /** Accruing `t1 + t2` at once exceeds accruing `t1` and then `t2` by less than
      `b*E/(2B) + P(t2)/B + 1`; both sides are multiplied by `2B`. */
  lemma SplitAccrualBound(balance: nat, rate: nat, t1: nat, t2: nat)
    ensures var whole := ComputeUpdatedAssets(balance, rate, t1 + t2);
            var split := ComputeUpdatedAssets(ComputeUpdatedAssets(balance, rate, t1), rate, t2);
            2 * BASE_27 * (whole - split) < balance * MixedTerms(t1, t2) + 2 * Growth(rate, t2) + 2 * BASE_27
  {
    UpdatedAssetsMonotone(balance, rate, 0, t1);
    var u1 := ComputeUpdatedAssets(balance, rate, t1);
    FlooredGrowth(balance, rate, t1);
    FlooredGrowth(u1, rate, t2);
    FlooredGrowth(balance, rate, t1 + t2);
    GrowthOfSum(rate, t1, t2);
    GrowthAtLeastBase(rate, t1);
    GrowthAtLeastBase(rate, t2);
    GrowthAtLeastBase(rate, t1 + t2);
    FloorsLoseLittle(BASE_27, balance, Growth(rate, t1), Growth(rate, t2), Growth(rate, t1 + t2), MixedTerms(t1, t2),
                     u1, ComputeUpdatedAssets(u1, rate, t2), ComputeUpdatedAssets(balance, rate, t1 + t2));
  }

  lemma FlooredGrowth(balance: nat, rate: nat, t: nat)
    ensures var u := ComputeUpdatedAssets(balance, rate, t);
            u >= 0 && balance * Growth(rate, t) - BASE_27 < BASE_27 * u <= balance * Growth(rate, t)
  {
    ClosedForm(balance, rate, t);
    UpdatedAssetsMonotone(balance, rate, 0, t);
    FloorBounds(balance * Growth(rate, t), BASE_27);
  }

  lemma FloorBounds(n: int, d: nat)
    requires d > 0
    ensures n - d < d * (n / d) <= n
  {
  }
}
