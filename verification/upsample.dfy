/** `upsample_filt`: the size x size bilinear interpolation kernel used to
    initialise a transposed convolution, computed in exact real arithmetic. */
module Upsample {

  /** A square kernel, row by row. */
  type Kernel = seq<seq<real>>

  predicate IsSquare(k: Kernel, size: nat)
  {
    |k| == size && forall i :: 0 <= i < size ==> |k[i]| == size
  }

  /** The upsampling factor, (size + 1) // 2. */
  function Factor(size: nat): nat
  {
    (size + 1) / 2
  }

  /** The kernel centre: an integer for odd sizes, a half-integer for even. */
  function Center(size: nat): real
  {
    if size % 2 == 1 then (Factor(size) - 1) as real
    else Factor(size) as real - 0.5
  }

  function Abs(x: real): real
  {
    if x < 0.0 then -x else x
  }

  /** Distance of tap i from the centre. */
  function Dist(size: nat, i: int): real
  {
    Abs(i as real - Center(size))
  }

  /** The 1-D triangle weight of tap i. */
  function Tap(size: nat, i: int): real
    requires size > 0
  {
    1.0 - Dist(size, i) / Factor(size) as real
  }

  /** The triangle weights of a kernel of the given size, in tap order. */
  function Taps(size: nat): (t: seq<real>)
    ensures |t| == size
  {
    seq(size, i requires 0 <= i < size => Tap(size, i))
  }

  /** The outer product of a weight vector with itself. */
  function Outer(t: seq<real>): (k: Kernel)
    ensures IsSquare(k, |t|)
  {
    seq(|t|, i requires 0 <= i < |t| =>
      seq(|t|, j requires 0 <= j < |t| => t[i] * t[j]))
  }

  /** `upsample_filt(size)`: entry [i][j] is the product of the triangle
      weights of taps i and j. */
  function UpsampleFilt(size: nat): (k: Kernel)
    ensures IsSquare(k, size)
    ensures forall i, j {:trigger k[i][j]} :: 0 <= i < size && 0 <= j < size ==>
      k[j][i] == k[i][j]
    ensures forall i, j {:trigger k[i][j]} :: 0 <= i < size && 0 <= j < size ==>
      k[size - 1 - i][j] == k[i][j]
    ensures forall i, j :: 0 <= i < size && 0 <= j < size ==>
      0.0 < k[i][j] <= 1.0
    ensures size % 2 == 1 ==> k[Factor(size) - 1][Factor(size) - 1] == 1.0
    ensures size == 2 ==> k == [[0.25, 0.25], [0.25, 0.25]]
  {
    KernelFacts(size);
    Outer(Taps(size))
  }

  /** The facts `UpsampleFilt` promises, gathered for the outer product of
      the taps. */
  lemma KernelFacts(size: nat)
    ensures var k := Outer(Taps(size));
      && (forall i, j {:trigger k[i][j]} :: 0 <= i < size && 0 <= j < size ==> k[j][i] == k[i][j])
      && (forall i, j {:trigger k[i][j]} :: 0 <= i < size && 0 <= j < size ==>
            k[size - 1 - i][j] == k[i][j])
      && (forall i, j :: 0 <= i < size && 0 <= j < size ==> 0.0 < k[i][j] <= 1.0)
      && (size % 2 == 1 ==> k[Factor(size) - 1][Factor(size) - 1] == 1.0)
      && (size == 2 ==> k == [[0.25, 0.25], [0.25, 0.25]])
  {
    TapsFacts(size);
    OuterFacts(Taps(size));
    OuterCentre(Taps(size), Factor(size) - 1);
    OuterOfHalves(Taps(size));
  }

  /** The weights read the same from either end. */
  predicate Palindrome(t: seq<real>)
  {
    forall i :: 0 <= i < |t| ==> t[|t| - 1 - i] == t[i]
  }

  /** Every weight lies in (0, 1]. */
  predicate InUnit(t: seq<real>)
  {
    forall i :: 0 <= i < |t| ==> 0.0 < t[i] <= 1.0
  }

  lemma TapsFacts(size: nat)
    ensures Palindrome(Taps(size)) && InUnit(Taps(size))
    ensures size % 2 == 1 ==> Taps(size)[Factor(size) - 1] == 1.0
    ensures size == 2 ==> Taps(size) == [0.5, 0.5]
  {
    var t := Taps(size);
    forall i | 0 <= i < size
      ensures 0.0 < t[i] <= 1.0 && t[size - 1 - i] == t[i]
    {
      TapRange(size, i);
      TapReflection(size, i);
    }
    if size % 2 == 1 {
      CenterTap(size);
    }
    if size == 2 {
      assert Tap(2, 0) == 0.5 && Tap(2, 1) == 0.5;
    }
  }

  /** The outer product of a weight vector is symmetric; it is mirror
      symmetric when the vector is a palindrome, and its entries lie in
      (0, 1] when the weights do. */
  lemma OuterFacts(t: seq<real>)
    ensures forall i, j {:trigger Outer(t)[i][j]} :: 0 <= i < |t| && 0 <= j < |t| ==>
      Outer(t)[j][i] == Outer(t)[i][j]
    ensures Palindrome(t) ==> forall i, j {:trigger Outer(t)[i][j]} ::
      0 <= i < |t| && 0 <= j < |t| ==> Outer(t)[|t| - 1 - i][j] == Outer(t)[i][j]
    ensures InUnit(t) ==> forall i, j :: 0 <= i < |t| && 0 <= j < |t| ==>
      0.0 < Outer(t)[i][j] <= 1.0
  {
    if InUnit(t) {
      forall i, j | 0 <= i < |t| && 0 <= j < |t|
        ensures 0.0 < Outer(t)[i][j] <= 1.0
      {
        ProductInUnit(t[i], t[j]);
      }
    }
  }

  lemma OuterCentre(t: seq<real>, c: int)
    ensures 0 <= c < |t| && t[c] == 1.0 ==> Outer(t)[c][c] == 1.0
  {
  }

  lemma OuterOfHalves(t: seq<real>)
    ensures t == [0.5, 0.5] ==> Outer(t) == [[0.25, 0.25], [0.25, 0.25]]
  {
    if t == [0.5, 0.5] {
      assert Outer(t)[0] == [0.25, 0.25] && Outer(t)[1] == [0.25, 0.25];
    }
  }

  lemma CenterTap(size: nat)
    requires size % 2 == 1
    ensures Tap(size, Factor(size) - 1) == 1.0
  {
    assert Dist(size, Factor(size) - 1) == 0.0;
  }

  /** The centre is the midpoint of the taps, whatever the parity. */
  lemma CenterIsMidpoint(size: nat)
    ensures Center(size) == (size as real - 1.0) / 2.0
  {
  }

  /** Every tap lies strictly closer to the centre than the factor. */
  lemma DistBelowFactor(size: nat, i: int)
    requires 0 <= i < size
    ensures 0.0 <= Dist(size, i) < Factor(size) as real
  {
    CenterIsMidpoint(size);
    assert 2 * Factor(size) >= size;
  }

  lemma QuotientInUnit(a: real, f: real)
    requires 0.0 <= a < f
    ensures 0.0 <= a / f < 1.0
  {
  }

  lemma TapRange(size: nat, i: int)
    requires 0 <= i < size
    ensures 0.0 < Tap(size, i) <= 1.0
  {
    DistBelowFactor(size, i);
    QuotientInUnit(Dist(size, i), Factor(size) as real);
  }

  lemma TapReflection(size: nat, i: int)
    requires size > 0
    ensures Tap(size, size - 1 - i) == Tap(size, i)
  {
    CenterIsMidpoint(size);
    assert Dist(size, size - 1 - i) == Dist(size, i);
  }

  lemma ProductInUnit(a: real, b: real)
    requires 0.0 < a <= 1.0 && 0.0 < b <= 1.0
    ensures 0.0 < a * b <= 1.0
  {
    assert a * b <= a * 1.0;
  }

  // ---------------------------------------------------------------------
  // Normalisation: the taps sum to the factor and the kernel to the factor
  // squared. Every tap is an integer numerator over the common denominator
  // 2 * factor, so the sums are taken over the numerators, in integers.

  function IntAbs(x: int): nat
  {
    if x < 0 then -x else x
  }

  /** Numerator of tap i over the denominator 2 * factor. */
  function TapNum(size: nat, i: int): int
  {
    2 * Factor(size) - IntAbs(2 * i - (size - 1))
  }

  function Nums(size: nat): (n: seq<int>)
    ensures |n| == size
  {
    seq(size, i requires 0 <= i < size => TapNum(size, i))
  }

  function Sum(s: seq<real>): real
  {
    if |s| == 0 then 0.0 else Sum(s[..|s| - 1]) + s[|s| - 1]
  }

  /** Sum of all entries of a kernel, row by row. */
  function KernelSum(k: Kernel): real
  {
    if |k| == 0 then 0.0 else KernelSum(k[..|k| - 1]) + Sum(k[|k| - 1])
  }

  function IntSum(s: seq<int>): int
  {
    if |s| == 0 then 0 else IntSum(s[..|s| - 1]) + s[|s| - 1]
  }

  function IntKernelSum(k: seq<seq<int>>): int
  {
    if |k| == 0 then 0 else IntKernelSum(k[..|k| - 1]) + IntSum(k[|k| - 1])
  }

  function IntOuter(u: seq<int>, v: seq<int>): seq<seq<int>>
  {
    seq(|u|, i requires 0 <= i < |u| =>
      seq(|v|, j requires 0 <= j < |v| => u[i] * v[j]))
  }

  lemma HalveOffset(f: real, a: real)
    requires f > 0.0
    ensures 1.0 - (a / 2.0) / f == (2.0 * f - a) / (2.0 * f)
  {
    var g := 2.0 * f;
    assert (a / 2.0) / f == a / g;
    assert (g - a) / g == g / g - a / g;
    assert g / g == 1.0;
  }

  lemma TapAsFraction(size: nat, i: int)
    requires size > 0
    ensures Tap(size, i) == TapNum(size, i) as real / (2 * Factor(size)) as real
  {
    CenterIsMidpoint(size);
    var a := IntAbs(2 * i - (size - 1));
    assert Dist(size, i) == a as real / 2.0;
    HalveOffset(Factor(size) as real, a as real);
  }

  /** Sum of the first n offsets |2i - (size - 1)|. */
  function AbsSum(size: nat, n: nat): nat
  {
    if n == 0 then 0 else AbsSum(size, n - 1) + IntAbs(2 * (n - 1) - (size - 1))
  }

  /** Dropping the first tap of a kernel two larger leaves the offsets of
      the smaller kernel. */
  lemma {:induction false} AbsSumShift(size: nat, n: nat)
    requires size >= 2
    ensures AbsSum(size, n + 1) == (size - 1) + AbsSum(size - 2, n)
  {
    if n > 0 {
      AbsSumShift(size, n - 1);
    }
  }

  lemma ClosedFormStep(size: nat)
    requires size >= 2
    ensures Factor(size) * (size - Factor(size))
         == Factor(size - 2) * (size - 2 - Factor(size - 2)) + size - 1
  {
    var f := Factor(size);
    var g := size - f;
    assert Factor(size - 2) == f - 1;
    assert f * g == (f - 1) * (g - 1) + f + g - 1;
  }

  lemma {:induction false} AbsSumTotal(size: nat)
    ensures AbsSum(size, size) == 2 * (Factor(size) * (size - Factor(size)))
    decreases size
  {
    if size >= 2 {
      AbsSumTotal(size - 2);
      AbsSumShift(size, size - 2);
      ClosedFormStep(size);
    }
  }

  lemma MulSucc(c: int, n: int)
    ensures c * n + c == c * (n + 1)
  {
  }

  lemma {:induction false} NumPrefixSum(size: nat, n: nat)
    requires n <= size
    ensures IntSum(Nums(size)[..n]) == (2 * Factor(size)) * n - AbsSum(size, n)
  {
    if n > 0 {
      NumPrefixSum(size, n - 1);
      assert Nums(size)[..n][..n - 1] == Nums(size)[..n - 1];
      MulSucc(2 * Factor(size), n - 1);
    }
  }

  /** The numerators sum to 2 * factor * factor. */
  lemma NumTotal(size: nat)
    ensures IntSum(Nums(size)) == Factor(size) * (2 * Factor(size))
  {
    NumPrefixSum(size, size);
    assert Nums(size)[..size] == Nums(size);
    AbsSumTotal(size);
    var f := Factor(size);
    SplitProduct(f, size);
  }

  lemma SplitProduct(f: int, size: int)
    ensures (2 * f) * size - 2 * (f * (size - f)) == f * (2 * f)
  {
  }

  lemma DivAdd(a: real, b: real, d: real)
    requires d != 0.0
    ensures a / d + b / d == (a + b) / d
  {
  }

  /** A sequence of fractions over one denominator sums to the sum of the
      numerators over that denominator. */
  lemma {:induction false} SumOfFractions(t: seq<real>, n: seq<int>, d: real)
    requires |t| == |n| && d != 0.0
    requires forall i :: 0 <= i < |t| ==> t[i] == n[i] as real / d
    ensures Sum(t) == IntSum(n) as real / d
  {
    if |t| > 0 {
      var m := |t| - 1;
      SumOfFractions(t[..m], n[..m], d);
      DivAdd(IntSum(n[..m]) as real, n[m] as real, d);
    }
  }

  lemma {:induction false} KernelSumOfFractions(k: Kernel, n: seq<seq<int>>, d: real)
    requires |k| == |n| && d != 0.0
    requires forall i :: 0 <= i < |k| ==> Sum(k[i]) == IntSum(n[i]) as real / d
    ensures KernelSum(k) == IntKernelSum(n) as real / d
  {
    if |k| > 0 {
      var m := |k| - 1;
      KernelSumOfFractions(k[..m], n[..m], d);
      DivAdd(IntKernelSum(n[..m]) as real, IntSum(n[m]) as real, d);
    }
  }

  lemma Cancel(x: int, d: int)
    requires d > 0
    ensures (x * d) as real / d as real == x as real
  {
    assert (x * d) as real == x as real * d as real;
  }

  /** The 1-D taps sum to the factor. */
  lemma TapTotal(size: nat)
    requires size > 0
    ensures Sum(Taps(size)) == Factor(size) as real
  {
    var d := 2 * Factor(size);
    TapsAreFractions(size);
    SumOfFractions(Taps(size), Nums(size), d as real);
    NumTotal(size);
    Cancel(Factor(size), d);
  }

  lemma {:induction false} IntScaledSum(row: seq<int>, s: int, t: seq<int>)
    requires |row| == |t|
    requires forall j :: 0 <= j < |t| ==> row[j] == s * t[j]
    ensures IntSum(row) == s * IntSum(t)
  {
    if |t| > 0 {
      var m := |t| - 1;
      IntScaledSum(row[..m], s, t[..m]);
    }
  }

  lemma {:induction false} IntScaledKernelSum(k: seq<seq<int>>, s: int, t: seq<int>)
    requires |k| == |t|
    requires forall i :: 0 <= i < |t| ==> IntSum(k[i]) == t[i] * s
    ensures IntKernelSum(k) == IntSum(t) * s
  {
    if |t| > 0 {
      var m := |t| - 1;
      IntScaledKernelSum(k[..m], s, t[..m]);
    }
  }

  /** The entries of an outer product sum to the product of the sums. */
  lemma IntOuterSum(u: seq<int>, v: seq<int>)
    ensures IntKernelSum(IntOuter(u, v)) == IntSum(u) * IntSum(v)
  {
    var k := IntOuter(u, v);
    forall i | 0 <= i < |u|
      ensures IntSum(k[i]) == u[i] * IntSum(v)
    {
      IntScaledSum(k[i], u[i], v);
    }
    IntScaledKernelSum(k, IntSum(v), u);
  }

  lemma FractionProduct(a: int, b: int, d: int)
    requires d > 0
    ensures (a as real / d as real) * (b as real / d as real) == (a * b) as real / (d * d) as real
  {
    assert (a * b) as real == a as real * b as real;
    assert (d * d) as real == d as real * d as real;
  }

  /** The outer product of fractions over d is the outer product of the
      numerators over d * d, row by row. */
  lemma RowOfFractions(t: seq<real>, n: seq<int>, d: int, i: nat)
    requires |t| == |n| && d > 0 && i < |t|
    requires forall j :: 0 <= j < |t| ==> t[j] == n[j] as real / d as real
    ensures Sum(Outer(t)[i]) == IntSum(IntOuter(n, n)[i]) as real / (d * d) as real
  {
    var row := Outer(t)[i];
    var nrow := IntOuter(n, n)[i];
    forall j | 0 <= j < |t|
      ensures row[j] == nrow[j] as real / (d * d) as real
    {
      assert row[j] == t[i] * t[j] && nrow[j] == n[i] * n[j];
      FractionProduct(n[i], n[j], d);
    }
    SumOfFractions(row, nrow, (d * d) as real);
  }

  lemma OuterOfFractions(t: seq<real>, n: seq<int>, d: int)
    requires |t| == |n| && d > 0
    requires forall j :: 0 <= j < |t| ==> t[j] == n[j] as real / d as real
    ensures KernelSum(Outer(t)) == IntKernelSum(IntOuter(n, n)) as real / (d * d) as real
  {
    forall i | 0 <= i < |t|
      ensures Sum(Outer(t)[i]) == IntSum(IntOuter(n, n)[i]) as real / (d * d) as real
    {
      RowOfFractions(t, n, d, i);
    }
    KernelSumOfFractions(Outer(t), IntOuter(n, n), (d * d) as real);
  }

  lemma TapsAreFractions(size: nat)
    requires size > 0
    ensures forall i :: 0 <= i < size ==>
      Taps(size)[i] == Nums(size)[i] as real / (2 * Factor(size)) as real
  {
    forall i | 0 <= i < size
      ensures Taps(size)[i] == Nums(size)[i] as real / (2 * Factor(size)) as real
    {
      TapAsFraction(size, i);
    }
  }

  lemma FourthOverSquare(f: int)
    requires f > 0
    ensures ((f * (2 * f)) * (f * (2 * f))) as real / ((2 * f) * (2 * f)) as real == (f * f) as real
  {
    assert (f * (2 * f)) * (f * (2 * f)) == (f * f) * ((2 * f) * (2 * f));
    Cancel(f * f, (2 * f) * (2 * f));
  }

  /** The kernel, the outer product of the taps, sums to factor squared. */
  lemma KernelTotal(size: nat)
    ensures KernelSum(Outer(Taps(size))) == (Factor(size) * Factor(size)) as real
    ensures KernelSum(UpsampleFilt(size)) == (Factor(size) * Factor(size)) as real
  {
    if size > 0 {
      var d := 2 * Factor(size);
      TapsAreFractions(size);
      OuterOfFractions(Taps(size), Nums(size), d);
      IntOuterSum(Nums(size), Nums(size));
      NumTotal(size);
      FourthOverSquare(Factor(size));
    }
  }
}
