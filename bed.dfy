/**
 * The linear-quadratic dose-response model: biologically effective dose
 * (BED) of a physical dose, its matrix form over sparing factors and
 * actions, and the closed-form dose that spends a given BED budget.
 */
module Bed {

  /**
   * `sqrt` is a square root on the nonnegative reals. The square root is
   * passed to the formulas that use it, as numpy's `np.sqrt`.
   */
  ghost predicate IsSqrt(sqrt: real -> real) {
    forall x :: 0.0 <= x ==> 0.0 <= sqrt(x) && sqrt(x) * sqrt(x) == x
  }

  /** BED of `dose` for a tissue with alpha/beta ratio `ab` and sparing factor `sparing`. */
  function BedCalc0(dose: real, ab: real, sparing: real): real
    requires ab != 0.0
  {
    sparing * dose * (1.0 + (sparing * dose) / ab)
  }

  /**
   * The vectorised form: row i, column j holds the BED of action j at
   * sparing factor i. It is computed from the outer product, as numpy does,
   * and agrees entry by entry with the scalar form.
   */
  function BedCalcMatrix(actionspace: seq<real>, ab: real, sf: seq<real>): (m: seq<seq<real>>)
    requires ab != 0.0
    ensures |m| == |sf|
    ensures forall i :: 0 <= i < |sf| ==> |m[i]| == |actionspace|
    ensures forall i, j :: 0 <= i < |sf| && 0 <= j < |actionspace| ==>
      m[i][j] == BedCalc0(actionspace[j], ab, sf[i])
  {
    var outer := seq(|sf|, i requires 0 <= i < |sf| =>
      seq(|actionspace|, j requires 0 <= j < |actionspace| => sf[i] * actionspace[j]));
    seq(|sf|, i requires 0 <= i < |sf| =>
      seq(|actionspace|, j requires 0 <= j < |actionspace| => outer[i][j] * (1.0 + outer[i][j] / ab)))
  }

  lemma MulMonotone(a: real, b: real, c: real, d: real)
    requires 0.0 <= a <= b && 0.0 <= c <= d
    ensures a * c <= b * d
  {
    assert a * c <= b * c;
    assert b * c <= b * d;
  }

  lemma MulStrict(a: real, b: real, c: real)
    requires a < b && c > 0.0
    ensures a * c < b * c
  {
  }

  lemma MulLt(a: real, b: real, c: real, d: real)
    requires 0.0 <= a < b && 0.0 <= c <= d && d > 0.0
    ensures a * c < b * d
  {
    assert a * c <= a * d;
    assert a * d < b * d;
  }

  lemma CancelPositive(a: real, b: real, k: real)
    requires k > 0.0 && k * a == k * b
    ensures a == b
  {
  }

  lemma DivMonotone(x1: real, x2: real, ab: real)
    requires ab > 0.0 && 0.0 <= x1 <= x2
    ensures 0.0 <= x1 / ab <= x2 / ab
  {
    assert (x1 / ab) * ab == x1 && (x2 / ab) * ab == x2;
    if x2 / ab < x1 / ab { MulStrict(x2 / ab, x1 / ab, ab); }
  }

  /** The denominator 2 s^2 / ab of the closed-form root is positive. */
  lemma DenominatorPositive(s: real, ab: real)
    requires s > 0.0 && ab > 0.0
    ensures 2.0 * s * s > 0.0 && 2.0 * s * s / ab > 0.0
  {
    var a := 2.0 * s;
    assert a * s > 0.0;
    assert a * s / ab > 0.0;
  }

  /** Multiplying by 4 s^2 keeps the sign. */
  lemma FourSquaresSign(s: real, r: real)
    requires s > 0.0
    ensures 4.0 * s * s * r >= 0.0 <==> r >= 0.0
  {
    var a := 4.0 * s;
    assert a * s > 0.0;
    if r < 0.0 { MulStrict(r, 0.0, a * s); }
    else { MulMonotone(0.0, r, 0.0, a * s); }
  }

  /** Cancelling the factor 4 s^2 from both sides. */
  lemma CancelFourSquares(s: real, x: real, ab: real, r: real)
    requires s > 0.0
    requires 4.0 * s * s * (x * x + x * ab) == 4.0 * s * s * r * ab
    ensures x * x + x * ab == r * ab
  {
    var y, z := x * x + x * ab, r * ab;
    assert 4.0 * s * s * y == 4.0 * s * s * z;
    var a := 4.0 * s;
    assert a * s > 0.0;
    assert (a * s) * y == (a * s) * z;
  }

  /** For nonnegative q and positive s, q >= s exactly when q^2 >= s^2. */
  lemma SquareOrder(q: real, s: real)
    requires q >= 0.0 && s > 0.0
    ensures q >= s <==> q * q >= s * s
  {
    if q >= s {
      MulMonotone(s, q, s, q);
    } else {
      MulLt(q, s, q, s);
    }
  }

  /** The linear-quadratic shape x(1 + x/ab) that BED applies to the effective dose x. */
  function Lq(x: real, ab: real): real
    requires ab != 0.0
  {
    x * (1.0 + x / ab)
  }

  /** Lq is increasing, strictly, on the nonnegative reals. */
  lemma LqMonotone(x1: real, x2: real, ab: real)
    requires ab > 0.0 && 0.0 <= x1 <= x2
    ensures 0.0 <= Lq(x1, ab) <= Lq(x2, ab)
    ensures x1 < x2 ==> Lq(x1, ab) < Lq(x2, ab)
  {
    DivMonotone(x1, x2, ab);
    MulMonotone(0.0, x1, 0.0, 1.0 + x1 / ab);
    MulMonotone(x1, x2, 1.0 + x1 / ab, 1.0 + x2 / ab);
    if x1 < x2 {
      MulLt(x1, x2, 1.0 + x1 / ab, 1.0 + x2 / ab);
    }
  }

  /** BED is Lq of the effective dose sparing * dose. */
  lemma BedIsLq(d: real, ab: real, s: real)
    requires ab != 0.0
    ensures BedCalc0(d, ab, s) == Lq(s * d, ab)
  {
  }

  /**
   * BED is zero at dose zero, never negative for a nonnegative dose, and
   * nondecreasing in the dose and in the sparing factor.
   */
  lemma BedMonotone(d1: real, d2: real, ab: real, s1: real, s2: real)
    requires ab > 0.0 && 0.0 <= d1 <= d2 && 0.0 <= s1 <= s2
    ensures BedCalc0(0.0, ab, s1) == 0.0
    ensures 0.0 <= BedCalc0(d1, ab, s1) <= BedCalc0(d2, ab, s2)
  {
    BedIsLq(d1, ab, s1);
    BedIsLq(d2, ab, s2);
    MulMonotone(s1, s2, d1, d2);
    MulMonotone(0.0, s1, 0.0, d1);
    LqMonotone(s1 * d1, s2 * d2, ab);
  }

  /** At a positive sparing factor, BED grows strictly with the dose. */
  lemma BedStrictInDose(d1: real, d2: real, ab: real, s: real)
    requires ab > 0.0 && 0.0 <= d1 < d2 && s > 0.0
    ensures BedCalc0(d1, ab, s) < BedCalc0(d2, ab, s)
  {
    BedIsLq(d1, ab, s);
    BedIsLq(d2, ab, s);
    MulMonotone(0.0, s, 0.0, d1);
    MulLt(d1, d2, s, s);
    assert s * d1 < s * d2;
    LqMonotone(s * d1, s * d2, ab);
  }

  /** At a positive dose, BED grows strictly with the sparing factor. */
  lemma BedStrictInSparing(d: real, ab: real, s1: real, s2: real)
    requires ab > 0.0 && d > 0.0 && 0.0 <= s1 < s2
    ensures BedCalc0(d, ab, s1) < BedCalc0(d, ab, s2)
  {
    BedIsLq(d, ab, s1);
    BedIsLq(d, ab, s2);
    MulMonotone(0.0, s1, 0.0, d);
    MulLt(s1, s2, d, d);
    LqMonotone(s1 * d, s2 * d, ab);
  }

  /**
   * The physical dose whose BED at sparing factor `s` equals `remaining`:
   * the positive root (-s + sqrt(s^2 + 4 s^2 remaining / ab)) / (2 s^2 / ab).
   */
  function BudgetDose(sqrt: real -> real, s: real, ab: real, remaining: real): real
    requires s > 0.0 && ab > 0.0
  {
    DenominatorPositive(s, ab);
    (-s + sqrt(s * s + 4.0 * s * s * remaining / ab)) / (2.0 * s * s / ab)
  }

  /** `afx.convert_to_physical(bed, ab)`: the tumour dose (sparing 1) whose BED is `bed`. */
  function ConvertToPhysical(sqrt: real -> real, bed: real, ab: real): real
    requires ab > 0.0
  {
    BudgetDose(sqrt, 1.0, ab, bed)
  }

  /** The radicand of the closed form is nonnegative when the budget is at least -ab/4. */
  lemma RadicandNonNegative(s: real, ab: real, remaining: real)
    requires s > 0.0 && ab > 0.0 && remaining >= -ab / 4.0
    ensures s * s + 4.0 * s * s * remaining / ab >= 0.0
  {
    var k := 4.0 * remaining / ab;
    assert k >= -1.0 by {
      assert k * ab == 4.0 * remaining;
      if k < -1.0 { MulStrict(k, -1.0, ab); }
    }
    var t := 4.0 * s * s * remaining;
    assert t / ab == s * s * k by {
      assert (t / ab) * ab == t;
      assert (s * s * k) * ab == s * s * (k * ab);
      CancelPositive(t / ab, s * s * k, ab);
    }
    MulMonotone(0.0, s * s, 0.0, 1.0 + k);
  }

  /** The root in terms of a plain number `q` standing for the square root. */
  function RootOf(s: real, ab: real, q: real): real
    requires s > 0.0 && ab > 0.0
  {
    DenominatorPositive(s, ab);
    (-s + q) / (2.0 * s * s / ab)
  }

  /** Dividing by c/ab and multiplying back by c scales by ab. */
  lemma DivByQuotient(n: real, c: real, ab: real)
    requires c > 0.0 && ab > 0.0
    ensures c / ab > 0.0 && (n / (c / ab)) * c == n * ab
  {
    var den := c / ab;
    assert den * ab == c;
    assert (n / den) * den == n;
    assert (n / den) * c == ((n / den) * den) * ab;
  }

  /** A quotient by a positive number has the sign of its numerator. */
  lemma QuotientSign(n: real, den: real)
    requires den > 0.0
    ensures n / den >= 0.0 <==> n >= 0.0
  {
    assert (n / den) * den == n;
    if n / den < 0.0 { MulStrict(n / den, 0.0, den); }
    else { MulMonotone(0.0, n / den, 0.0, den); }
  }

  /** The effective dose x = s * root satisfies 2 s x == (q - s) ab. */
  lemma RootLinear(s: real, ab: real, q: real)
    requires s > 0.0 && ab > 0.0
    ensures 2.0 * s * (s * RootOf(s, ab, q)) == (q - s) * ab
  {
    DenominatorPositive(s, ab);
    DivByQuotient(q - s, 2.0 * s * s, ab);
    assert RootOf(s, ab, q) * (2.0 * s * s) == (q - s) * ab;
  }

  /**
   * Squaring 2 s x + s ab == q ab and substituting the radicand turns the
   * root equation into x^2 + x ab == remaining ab for the effective dose x.
   */
  lemma RootQuadratic(s: real, ab: real, remaining: real, q: real, x: real)
    requires s > 0.0 && ab > 0.0
    requires q * q == s * s + 4.0 * s * s * remaining / ab
    requires 2.0 * s * x == (q - s) * ab
    ensures x * x + x * ab == remaining * ab
  {
    calc {
      4.0 * s * s * (x * x + x * ab);
      (2.0 * s * x + s * ab) * (2.0 * s * x + s * ab) - s * s * (ab * ab);
      { assert 2.0 * s * x + s * ab == q * ab; }
      (q * ab) * (q * ab) - s * s * (ab * ab);
      q * q * (ab * ab) - s * s * (ab * ab);
      (s * s + 4.0 * s * s * remaining / ab) * (ab * ab) - s * s * (ab * ab);
      (4.0 * s * s * remaining / ab) * ab * ab;
      { assert (4.0 * s * s * remaining / ab) * ab == 4.0 * s * s * remaining; }
      4.0 * s * s * remaining * ab;
    }
    CancelFourSquares(s, x, ab, remaining);
  }

  /** x^2 + x ab == remaining ab says exactly that Lq(x) == remaining. */
  lemma LqOfQuadratic(x: real, ab: real, remaining: real)
    requires ab > 0.0 && x * x + x * ab == remaining * ab
    ensures Lq(x, ab) == remaining
  {
    assert x * (1.0 + x / ab) == x + (x * x) / ab;
    assert ((x * x) / ab) * ab == x * x;
    assert (x + (x * x) / ab) * ab == x * ab + x * x;
    CancelPositive(x + (x * x) / ab, remaining, ab);
  }

  /** Whether the root is nonnegative depends only on the sign of the budget. */
  lemma RootSign(s: real, ab: real, remaining: real, q: real)
    requires s > 0.0 && ab > 0.0 && q >= 0.0
    requires q * q == s * s + 4.0 * s * s * remaining / ab
    ensures RootOf(s, ab, q) >= 0.0 <==> remaining >= 0.0
  {
    FourSquaresSign(s, remaining);
    QuotientSign(4.0 * s * s * remaining, ab);
    SquareOrder(q, s);
    DenominatorPositive(s, ab);
    QuotientSign(-s + q, 2.0 * s * s / ab);
  }

  /**
   * The closed-form dose spends the budget exactly: its BED equals
   * `remaining`, and it is nonnegative exactly when the budget is.
   */
  lemma BudgetDoseSolves(sqrt: real -> real, s: real, ab: real, remaining: real)
    requires IsSqrt(sqrt)
    requires s > 0.0 && ab > 0.0 && remaining >= -ab / 4.0
    ensures BedCalc0(BudgetDose(sqrt, s, ab, remaining), ab, s) == remaining
    ensures BudgetDose(sqrt, s, ab, remaining) >= 0.0 <==> remaining >= 0.0
  {
    var arg := s * s + 4.0 * s * s * remaining / ab;
    RadicandNonNegative(s, ab, remaining);
    var q := sqrt(arg);
    assert q >= 0.0 && q * q == arg;
    var d := BudgetDose(sqrt, s, ab, remaining);
    assert d == RootOf(s, ab, q);
    RootLinear(s, ab, q);
    RootQuadratic(s, ab, remaining, q, s * d);
    LqOfQuadratic(s * d, ab, remaining);
    assert BedCalc0(d, ab, s) == Lq(s * d, ab);
    RootSign(s, ab, remaining, q);
  }

  /**
   * For a nonnegative dose, staying within the budget is the same as not
   * exceeding the closed-form dose: the root is the largest admissible dose.
   */
  lemma BudgetDoseIsLargestAdmissible(sqrt: real -> real, s: real, ab: real, remaining: real, d: real)
    requires IsSqrt(sqrt)
    requires s > 0.0 && ab > 0.0 && remaining >= 0.0 && d >= 0.0
    ensures BedCalc0(d, ab, s) <= remaining <==> d <= BudgetDose(sqrt, s, ab, remaining)
  {
    var root := BudgetDose(sqrt, s, ab, remaining);
    BudgetDoseSolves(sqrt, s, ab, remaining);
    if d <= root {
      BedMonotone(d, root, ab, s, s);
    } else {
      BedStrictInDose(root, d, ab, s);
    }
  }
}
