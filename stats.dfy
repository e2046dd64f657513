/** Numeric building blocks of the analysis, stated over the reals:
    sums and means, population variance and standard deviation, sorting,
    linear-interpolation percentiles, minimum and maximum, and the
    ordinary-least-squares slope against the indices 0..n-1. */
module Stats {

  /** A square root: never negative, zero exactly at zero, monotone, and
      squaring back to its argument on the non-negative reals. Every
      standard deviation of the model is computed through a function
      satisfying this. */
  ghost predicate IsSqrt(sqrt: real -> real) {
    && (forall x :: 0.0 <= sqrt(x))
    && (forall x :: 0.0 <= x ==> (sqrt(x) == 0.0 <==> x == 0.0))
    && (forall x, y :: 0.0 <= x <= y ==> sqrt(x) <= sqrt(y))
    && (forall x :: 0.0 <= x ==> sqrt(x) * sqrt(x) == x)
  }

  lemma MulNonNegative(a: real, b: real)
    requires 0.0 <= a && 0.0 <= b
    ensures 0.0 <= a * b
  {
  }

  lemma MulPositive(a: real, b: real)
    requires 0.0 < a && 0.0 < b
    ensures 0.0 < a * b
  {
  }

  lemma SquareNonNegative(a: real)
    ensures 0.0 <= a * a
  {
    if a < 0.0 {
      MulNonNegative(-a, -a);
      assert (-a) * (-a) == a * a;
    } else {
      MulNonNegative(a, a);
    }
  }

  /** A product with a positive factor that is not negative has a
      non-negative other factor. */
  lemma NonNegativeFactor(a: real, b: real)
    requires 0.0 <= a * b && 0.0 < b
    ensures 0.0 <= a
  {
    if a < 0.0 {
      MulPositive(-a, b);
    }
  }

  /** sqrt(x) is at least c whenever c*c <= x. */
  lemma SqrtAtLeast(sqrt: real -> real, c: real, x: real)
    requires IsSqrt(sqrt) && 0.0 <= c && c * c <= x
    ensures c <= sqrt(x)
  {
    var y := sqrt(x);
    assert (y - c) * (y + c) == y * y - c * c;
    if y + c > 0.0 {
      NonNegativeFactor(y - c, y + c);
    }
  }

  /** sqrt(x) is at most c whenever x <= c*c. */
  lemma SqrtAtMost(sqrt: real -> real, c: real, x: real)
    requires IsSqrt(sqrt) && 0.0 <= c && 0.0 <= x <= c * c
    ensures sqrt(x) <= c
  {
    var y := sqrt(x);
    assert y * y == x;
    if y > c {
      MulNonNegative(c, y - c);
      MulPositive(y - c, y);
    }
  }

  /** a / b for a positive b; never negative when a is not. */
  function Ratio(a: real, b: real): (r: real)
    requires 0.0 < b
    ensures 0.0 <= a ==> 0.0 <= r
    ensures r * b == a
  {
    a / b
  }

  function Max(a: real, b: real): real { if a >= b then a else b }

  function Min(a: real, b: real): real { if a <= b then a else b }

  function Abs(a: real): real { if a < 0.0 then -a else a }

  // ---------------------------------------------------------------------
  // Sums and means

  function Sum(xs: seq<real>): real
  {
    if xs == [] then 0.0 else xs[0] + Sum(xs[1..])
  }

  /** np.mean */
  function Mean(xs: seq<real>): real
    requires |xs| > 0
  {
    Sum(xs) / |xs| as real
  }

  /** The mean times the sample size is the sum. */
  lemma MeanTimesCount(xs: seq<real>, mean: real, total: real, count: nat)
    requires |xs| > 0 && mean == Mean(xs) && total == Sum(xs) && count == |xs|
    ensures total == mean * (count as real)
  {
    var n := |xs| as real;
    assert Mean(xs) == Ratio(Sum(xs), n);
  }

  lemma {:induction false} SumAppend(a: seq<real>, b: seq<real>)
    ensures Sum(a + b) == Sum(a) + Sum(b)
  {
    if a == [] {
      assert a + b == b;
    } else {
      assert (a + b)[1..] == a[1..] + b;
      SumAppend(a[1..], b);
    }
  }

  lemma {:induction false} SumBounds(xs: seq<real>, lo: real, hi: real)
    requires forall i :: 0 <= i < |xs| ==> lo <= xs[i] <= hi
    ensures |xs| as real * lo <= Sum(xs) <= |xs| as real * hi
  {
    if xs != [] {
      SumBounds(xs[1..], lo, hi);
    }
  }

  lemma {:induction false} SumConstant(xs: seq<real>, c: real)
    requires forall i :: 0 <= i < |xs| ==> xs[i] == c
    ensures Sum(xs) == |xs| as real * c
  {
    if xs != [] {
      SumConstant(xs[1..], c);
    }
  }

  lemma {:induction false} SumNonNegative(xs: seq<real>)
    requires forall i :: 0 <= i < |xs| ==> 0.0 <= xs[i]
    ensures 0.0 <= Sum(xs)
  {
    if xs != [] {
      SumNonNegative(xs[1..]);
    }
  }

  /** For non-negative samples every element is at most the sum. */
  lemma {:induction false} SumAtLeastElement(xs: seq<real>, k: nat)
    requires k < |xs|
    requires forall i :: 0 <= i < |xs| ==> 0.0 <= xs[i]
    ensures xs[k] <= Sum(xs)
  {
    SumNonNegative(xs[1..]);
    if k > 0 {
      SumAtLeastElement(xs[1..], k - 1);
    }
  }

  lemma MeanConstant(xs: seq<real>, c: real)
    requires |xs| > 0
    requires forall i :: 0 <= i < |xs| ==> xs[i] == c
    ensures Mean(xs) == c
  {
    SumConstant(xs, c);
  }

  /** mean(xs) lies between any lower and upper bound of the sample. */
  lemma MeanBounds(xs: seq<real>, lo: real, hi: real)
    requires |xs| > 0
    requires forall i :: 0 <= i < |xs| ==> lo <= xs[i] <= hi
    ensures lo <= Mean(xs) <= hi
  {
    SumBounds(xs, lo, hi);
    DivBounds(Sum(xs), |xs| as real, lo, hi);
  }

  lemma PositiveQuotient(x: real, n: real)
    requires 0.0 < x && 0.0 < n
    ensures 0.0 < x / n
  {
  }

  lemma DivBounds(x: real, n: real, lo: real, hi: real)
    requires 0.0 < n && n * lo <= x <= n * hi
    ensures lo <= x / n <= hi
  {
  }

  /** A sample whose elements are an affine image of another's has the
      affine image of its sum. */
  lemma {:induction false} SumAffine(xs: seq<real>, ys: seq<real>, a: real, b: real)
    requires |xs| == |ys|
    requires forall i :: 0 <= i < |xs| ==> ys[i] == a + b * xs[i]
    ensures Sum(ys) == |xs| as real * a + b * Sum(xs)
  {
    if xs != [] {
      SumAffine(xs[1..], ys[1..], a, b);
    }
  }

  // ---------------------------------------------------------------------
  // Co-moments, variance and standard deviation

  /** One term (x - mx) * (y - my) of a co-moment. */
  function Term(x: real, y: real, mx: real, my: real): real
  {
    (x - mx) * (y - my)
  }

  /** The sum of (xs[i] - mx) * (ys[i] - my): the co-moment of two samples
      about the given centres. */
  function CoMoment(xs: seq<real>, ys: seq<real>, mx: real, my: real): real
    requires |xs| == |ys|
  {
    if xs == [] then 0.0
    else Term(xs[0], ys[0], mx, my) + CoMoment(xs[1..], ys[1..], mx, my)
  }

  lemma {:induction false} SquareMomentNonNegative(xs: seq<real>, m: real)
    ensures 0.0 <= CoMoment(xs, xs, m, m)
  {
    if xs != [] {
      SquareMomentNonNegative(xs[1..], m);
      SquareNonNegative(xs[0] - m);
    }
  }

  lemma {:induction false} SquareMomentZero(xs: seq<real>, m: real)
    requires forall i :: 0 <= i < |xs| ==> xs[i] == m
    ensures CoMoment(xs, xs, m, m) == 0.0
  {
    if xs != [] {
      SquareMomentZero(xs[1..], m);
    }
  }

  /** The terms of a co-moment, one per index. */
  function Products(xs: seq<real>, ys: seq<real>, mx: real, my: real): (ps: seq<real>)
    requires |xs| == |ys|
    ensures |ps| == |xs|
    ensures forall i :: 0 <= i < |xs| ==> ps[i] == Term(xs[i], ys[i], mx, my)
  {
    seq(|xs|, i requires 0 <= i < |xs| => Term(xs[i], ys[i], mx, my))
  }

  lemma {:induction false} CoMomentIsSum(xs: seq<real>, ys: seq<real>, mx: real, my: real)
    requires |xs| == |ys|
    ensures CoMoment(xs, ys, mx, my) == Sum(Products(xs, ys, mx, my))
  {
    if xs != [] {
      CoMomentIsSum(xs[1..], ys[1..], mx, my);
      assert Products(xs, ys, mx, my)[1..] == Products(xs[1..], ys[1..], mx, my);
    }
  }

  /** ys moves in lockstep with xs: ys[i] - my == b * (xs[i] - mx). */
  predicate Lockstep(xs: seq<real>, ys: seq<real>, mx: real, my: real, b: real)
    requires |xs| == |ys|
  {
    forall i :: 0 <= i < |xs| ==> ys[i] - my == b * (xs[i] - mx)
  }

  lemma TermScale(x: real, y: real, mx: real, my: real, b: real)
    requires y - my == b * (x - mx)
    ensures Term(x, y, mx, my) == b * Term(x, x, mx, mx)
  {
  }

  /** Every element multiplied by b. */
  function ScaleSeq(b: real, ws: seq<real>): (zs: seq<real>)
    ensures |zs| == |ws|
    ensures forall i :: 0 <= i < |ws| ==> zs[i] == b * ws[i]
  {
    seq(|ws|, i requires 0 <= i < |ws| => b * ws[i])
  }

  /** In lockstep, the terms of the co-moment are b times the squared
      deviations of xs. */
  lemma ProductsScale(xs: seq<real>, ys: seq<real>, mx: real, my: real, b: real)
    requires |xs| == |ys| && Lockstep(xs, ys, mx, my, b)
    ensures Products(xs, ys, mx, my) == ScaleSeq(b, Products(xs, xs, mx, mx))
  {
    forall i | 0 <= i < |xs|
      ensures Products(xs, ys, mx, my)[i] == ScaleSeq(b, Products(xs, xs, mx, mx))[i]
    {
      TermScale(xs[i], ys[i], mx, my, b);
    }
  }

  /** Scaling every element scales the sum: t == b * s. */
  lemma {:induction false} SumScale(b: real, ws: seq<real>, s: real, t: real)
    requires s == Sum(ws) && t == Sum(ScaleSeq(b, ws))
    ensures t == b * s
  {
    if ws != [] {
      var zs := ScaleSeq(b, ws);
      ScaleSeqTail(b, ws);
      var s', t' := Sum(ws[1..]), Sum(zs[1..]);
      SumScale(b, ws[1..], s', t');
      assert s == ws[0] + s' && t == zs[0] + t';
      Distribute(b, ws[0], s', s);
    }
  }

  lemma ScaleSeqTail(b: real, ws: seq<real>)
    requires ws != []
    ensures ScaleSeq(b, ws)[1..] == ScaleSeq(b, ws[1..])
  {
    var zs := ScaleSeq(b, ws);
    forall i | 0 <= i < |ws| - 1 ensures zs[1..][i] == ScaleSeq(b, ws[1..])[i] {
      MulCongruence(b, ws[1..][i], ws[i + 1]);
    }
  }

  lemma Distribute(b: real, p: real, r: real, total: real)
    requires total == p + r
    ensures b * total == b * p + b * r
  {
  }

  /** Co-moments whose terms are b times those of the second moment. */
  lemma ScaledMoments(xs: seq<real>, ys: seq<real>, mx: real, my: real, b: real, w: real, z: real)
    requires |xs| == |ys| && w == CoMoment(xs, xs, mx, mx) && z == CoMoment(xs, ys, mx, my)
    requires Products(xs, ys, mx, my) == ScaleSeq(b, Products(xs, xs, mx, mx))
    ensures z == b * w
  {
    CoMomentIsSum(xs, ys, mx, my);
    CoMomentIsSum(xs, xs, mx, mx);
    SumScale(b, Products(xs, xs, mx, mx), w, z);
  }

  lemma MulCongruence(b: real, u: real, v: real)
    requires u == v
    ensures b * u == b * v
  {
  }

  /** When ys moves in lockstep with xs, the co-moment z is b times the
      second moment w of xs. */
  lemma CoMomentScale(xs: seq<real>, ys: seq<real>, mx: real, my: real, b: real, w: real, z: real)
    requires |xs| == |ys| && Lockstep(xs, ys, mx, my, b)
    requires w == CoMoment(xs, xs, mx, mx) && z == CoMoment(xs, ys, mx, my)
    ensures z == b * w
  {
    ProductsScale(xs, ys, mx, my, b);
    ScaledMoments(xs, ys, mx, my, b, w, z);
  }

  /** np.var: the population variance (divides by n). */
  function Variance(xs: seq<real>): (v: real)
    requires |xs| > 0
    ensures 0.0 <= v
  {
    SquareMomentNonNegative(xs, Mean(xs));
    CoMoment(xs, xs, Mean(xs), Mean(xs)) / |xs| as real
  }

  /** np.std: the population standard deviation. */
  function Std(xs: seq<real>, sqrt: real -> real): real
    requires |xs| > 0
  {
    sqrt(Variance(xs))
  }

  lemma StdNonNegative(xs: seq<real>, sqrt: real -> real)
    requires |xs| > 0 && IsSqrt(sqrt)
    ensures 0.0 <= Std(xs, sqrt)
  {
  }

  /** A constant sample has mean c and standard deviation 0. */
  lemma StdConstant(xs: seq<real>, c: real, sqrt: real -> real)
    requires |xs| > 0 && IsSqrt(sqrt)
    requires forall i :: 0 <= i < |xs| ==> xs[i] == c
    ensures Mean(xs) == c && Variance(xs) == 0.0 && Std(xs, sqrt) == 0.0
  {
    MeanConstant(xs, c);
    SquareMomentZero(xs, c);
  }

  // ---------------------------------------------------------------------
  // Minimum and maximum

  /** np.min */
  function MinOf(xs: seq<real>): (m: real)
    requires |xs| > 0
    ensures m in xs
    ensures forall i :: 0 <= i < |xs| ==> m <= xs[i]
  {
    if |xs| == 1 then xs[0] else Min(xs[0], MinOf(xs[1..]))
  }

  /** np.max */
  function MaxOf(xs: seq<real>): (m: real)
    requires |xs| > 0
    ensures m in xs
    ensures forall i :: 0 <= i < |xs| ==> xs[i] <= m
  {
    if |xs| == 1 then xs[0] else Max(xs[0], MaxOf(xs[1..]))
  }

  lemma MeanBetweenMinAndMax(xs: seq<real>)
    requires |xs| > 0
    ensures MinOf(xs) <= Mean(xs) <= MaxOf(xs)
  {
    MeanBounds(xs, MinOf(xs), MaxOf(xs));
  }

  // ---------------------------------------------------------------------
  // Sorting

  predicate IsSorted(s: seq<real>) {
    forall i, j :: 0 <= i < j < |s| ==> s[i] <= s[j]
  }

  function Insert(x: real, s: seq<real>): (r: seq<real>)
    ensures |r| == |s| + 1
    ensures multiset(r) == multiset(s) + multiset{x}
  {
    if s == [] || x <= s[0] then [x] + s
    else
      assert s == [s[0]] + s[1..];
      [s[0]] + Insert(x, s[1..])
  }

  lemma {:induction false} InsertSorted(x: real, s: seq<real>)
    requires IsSorted(s)
    ensures IsSorted(Insert(x, s))
  {
    if s != [] && x > s[0] {
      InsertSorted(x, s[1..]);
      InsertAbove(x, s[1..], s[0]);
    }
  }

  /** Inserting a value above a bound into a sequence above it keeps every
      element above it. */
  lemma {:induction false} InsertAbove(x: real, s: seq<real>, lo: real)
    requires lo <= x && forall k :: 0 <= k < |s| ==> lo <= s[k]
    ensures forall k :: 0 <= k < |Insert(x, s)| ==> lo <= Insert(x, s)[k]
  {
    if s != [] && x > s[0] {
      InsertAbove(x, s[1..], lo);
    }
  }

  /** The ascending rearrangement of a sample (insertion sort). */
  function Sort(xs: seq<real>): (r: seq<real>)
    ensures |r| == |xs|
    ensures IsSorted(r)
    ensures multiset(r) == multiset(xs)
  {
    if xs == [] then []
    else
      assert xs == [xs[0]] + xs[1..];
      InsertSorted(xs[0], Sort(xs[1..]));
      Insert(xs[0], Sort(xs[1..]))
  }

  lemma SortedAdjacent(s: seq<real>, i: int)
    requires IsSorted(s) && 0 <= i < |s| - 1
    ensures s[i] <= s[i + 1]
  {
  }

  /** Ascending neighbours make an ascending sequence. */
  lemma AdjacentSorted(s: seq<real>)
    requires forall i :: 0 <= i < |s| - 1 ==> s[i] <= s[i + 1]
    ensures IsSorted(s)
  {
    forall i, j | 0 <= i < j < |s| ensures s[i] <= s[j] {
      AdjacentSortedFrom(s, i, j);
    }
  }

  lemma {:induction false} AdjacentSortedFrom(s: seq<real>, i: int, j: int)
    requires forall k :: 0 <= k < |s| - 1 ==> s[k] <= s[k + 1]
    requires 0 <= i <= j < |s|
    ensures s[i] <= s[j]
    decreases j - i
  {
    if i < j {
      AdjacentSortedFrom(s, i + 1, j);
    }
  }

  /** Sorting an already ascending sequence changes nothing. */
  lemma {:induction false} SortOfSorted(xs: seq<real>)
    requires IsSorted(xs)
    ensures Sort(xs) == xs
  {
    if xs != [] {
      var t := xs[1..];
      SortedTail(xs);
      SortOfSorted(t);
      SortStep(xs);
      InsertAtFront(xs[0], t);
      assert xs == [xs[0]] + t;
    }
  }

  lemma SortStep(xs: seq<real>)
    requires xs != []
    ensures Sort(xs) == Insert(xs[0], Sort(xs[1..]))
  {
  }

  lemma InsertAtFront(x: real, s: seq<real>)
    requires s == [] || x <= s[0]
    ensures Insert(x, s) == [x] + s
  {
  }

  lemma SortedTail(xs: seq<real>)
    requires IsSorted(xs) && xs != []
    ensures IsSorted(xs[1..]) && (|xs| == 1 || xs[0] <= xs[1..][0])
  {
    var t := xs[1..];
    forall i, j | 0 <= i < j < |t| ensures t[i] <= t[j] {
      assert t[i] == xs[i + 1] && t[j] == xs[j + 1];
    }
  }

  /** Every element of the sorted sample is one of the sample's elements. */
  lemma SortedElement(xs: seq<real>, k: nat)
    requires k < |xs|
    ensures Sort(xs)[k] in xs
  {
    var s := Sort(xs);
    assert s[k] in multiset(s);
  }

  /** Every order statistic lies between the minimum and the maximum. */
  lemma SortedWithinRange(xs: seq<real>, k: nat)
    requires k < |xs|
    ensures MinOf(xs) <= Sort(xs)[k] <= MaxOf(xs)
  {
    SortedElement(xs, k);
    var j :| 0 <= j < |xs| && xs[j] == Sort(xs)[k];
  }

  // ---------------------------------------------------------------------
  // Percentiles (numpy's default 'linear' method)

  /** The virtual index p/100*(n-1) of numpy's linear method. */
  function VirtualIndex(n: nat, p: real): real
  {
    p / 100.0 * (n - 1) as real
  }

  lemma VirtualIndexBounds(n: nat, p: real)
    requires n > 0 && 0.0 <= p <= 100.0
    ensures 0.0 <= VirtualIndex(n, p) <= (n - 1) as real
    ensures 0 <= VirtualIndex(n, p).Floor <= n - 1
  {
    var f := p / 100.0;
    assert 0.0 <= f <= 1.0;
    var m := (n - 1) as real;
    MulNonNegative(f, m);
    MulNonNegative(1.0 - f, m);
    assert m - f * m == (1.0 - f) * m;
  }

  /** Linear interpolation between the two order statistics around the
      virtual index of an ascending sample. */
  function Interpolate(s: seq<real>, p: real): real
    requires |s| > 0 && 0.0 <= p <= 100.0
  {
    VirtualIndexBounds(|s|, p);
    var h := VirtualIndex(|s|, p);
    var lo := h.Floor;
    if lo + 1 < |s| then s[lo] + (h - lo as real) * (s[lo + 1] - s[lo]) else s[lo]
  }

  /** np.percentile(xs, p) */
  function Percentile(xs: seq<real>, p: real): real
    requires |xs| > 0 && 0.0 <= p <= 100.0
  {
    Interpolate(Sort(xs), p)
  }

  /** np.median: the 50th percentile. */
  function Median(xs: seq<real>): real
    requires |xs| > 0
  {
    Percentile(xs, 50.0)
  }

  /** The interpolated value lies between the two order statistics it
      interpolates. */
  lemma InterpolateBracket(s: seq<real>, p: real)
    requires |s| > 0 && 0.0 <= p <= 100.0 && IsSorted(s)
    ensures 0 <= VirtualIndex(|s|, p).Floor < |s|
    ensures s[VirtualIndex(|s|, p).Floor] <= Interpolate(s, p)
    ensures VirtualIndex(|s|, p).Floor + 1 < |s| ==>
              Interpolate(s, p) <= s[VirtualIndex(|s|, p).Floor + 1]
    ensures VirtualIndex(|s|, p).Floor + 1 >= |s| ==>
              Interpolate(s, p) == s[VirtualIndex(|s|, p).Floor]
  {
    VirtualIndexBounds(|s|, p);
    var h := VirtualIndex(|s|, p);
    var lo := h.Floor;
    if lo + 1 < |s| {
      var f := h - lo as real;
      assert 0.0 <= f < 1.0;
      var d := s[lo + 1] - s[lo];
      assert 0.0 <= d;
      MulNonNegative(f, d);
      MulNonNegative(1.0 - f, d);
      assert d - f * d == (1.0 - f) * d;
    }
  }

  /** Interpolation never leaves the bounds of an ascending sample. */
  lemma InterpolateWithin(s: seq<real>, p: real, lo: real, hi: real)
    requires |s| > 0 && 0.0 <= p <= 100.0 && IsSorted(s)
    requires forall k :: 0 <= k < |s| ==> lo <= s[k] <= hi
    ensures lo <= Interpolate(s, p) <= hi
  {
    InterpolateBracket(s, p);
  }

  /** Percentiles never leave the range of the sample. */
  lemma PercentileBounds(xs: seq<real>, p: real)
    requires |xs| > 0 && 0.0 <= p <= 100.0
    ensures MinOf(xs) <= Percentile(xs, p) <= MaxOf(xs)
  {
    var s := Sort(xs);
    forall k | 0 <= k < |s| ensures MinOf(xs) <= s[k] <= MaxOf(xs) {
      SortedWithinRange(xs, k);
    }
    InterpolateWithin(s, p, MinOf(xs), MaxOf(xs));
  }

  /** For an ascending sample, interpolation is monotone in p. */
  lemma InterpolateMonotone(s: seq<real>, p: real, q: real)
    requires |s| > 0 && 0.0 <= p <= q <= 100.0 && IsSorted(s)
    ensures Interpolate(s, p) <= Interpolate(s, q)
  {
    VirtualIndexBounds(|s|, p);
    VirtualIndexBounds(|s|, q);
    var n := |s|;
    var hp, hq := VirtualIndex(n, p), VirtualIndex(n, q);
    assert hp <= hq by {
      MulNonNegative(q / 100.0 - p / 100.0, (n - 1) as real);
      assert hq - hp == (q / 100.0 - p / 100.0) * (n - 1) as real;
    }
    var lp, lq := hp.Floor, hq.Floor;
    assert lp <= lq;
    InterpolateBracket(s, p);
    InterpolateBracket(s, q);
    if lp < lq {
      assert lp + 1 < n;
      assert Interpolate(s, p) <= s[lp + 1] <= s[lq];
    } else if lp + 1 < n {
      var d := s[lp + 1] - s[lp];
      assert 0.0 <= d;
      MulNonNegative(hq - hp, d);
      assert (hq - lp as real) * d - (hp - lp as real) * d == (hq - hp) * d;
    }
  }

  /** Percentiles are monotone in p: for example the first quartile never
      exceeds the third, so an inter-quartile range is never negative. */
  lemma PercentileMonotone(xs: seq<real>, p: real, q: real)
    requires |xs| > 0 && 0.0 <= p <= q <= 100.0
    ensures Percentile(xs, p) <= Percentile(xs, q)
  {
    InterpolateMonotone(Sort(xs), p, q);
  }

  /** Every percentile of a constant sample is that constant. */
  lemma PercentileConstant(xs: seq<real>, c: real, p: real)
    requires |xs| > 0 && 0.0 <= p <= 100.0
    requires forall i :: 0 <= i < |xs| ==> xs[i] == c
    ensures Percentile(xs, p) == c
  {
    var s := Sort(xs);
    forall k | 0 <= k < |s| ensures s[k] == c {
      SortedElement(xs, k);
    }
    InterpolateBracket(s, p);
  }

  lemma MedianBetweenMinAndMax(xs: seq<real>)
    requires |xs| > 0
    ensures MinOf(xs) <= Median(xs) <= MaxOf(xs)
  {
    PercentileBounds(xs, 50.0);
  }

  // ---------------------------------------------------------------------
  // Ordinary least squares against the indices 0..n-1

  /** The regressor of scipy.stats.linregress(np.arange(n), ys). */
  function Indices(n: nat): (r: seq<real>)
    ensures |r| == n
    ensures forall i :: 0 <= i < n ==> r[i] == i as real
  {
    seq(n, i => i as real)
  }

  /** The second moment of a sample whose first two points are one apart
      is positive, whatever the centre. */
  lemma IndexMomentPositive(xs: seq<real>, m: real)
    requires |xs| >= 2 && xs[1] == xs[0] + 1.0
    ensures 0.0 < CoMoment(xs, xs, m, m)
  {
    var rest := xs[1..][1..];
    SquareMomentNonNegative(rest, m);
    var a, b := xs[0] - m, xs[1] - m;
    assert CoMoment(xs, xs, m, m) == a * a + (b * b + CoMoment(rest, rest, m, m));
    ConsecutiveSquares(a, b);
  }

  /** a^2 + (a+1)^2 == ((2a+1)^2 + 1) / 2 is at least one half. */
  lemma ConsecutiveSquares(a: real, b: real)
    requires b == a + 1.0
    ensures 0.5 <= a * a + b * b
  {
    SquareNonNegative(2.0 * a + 1.0);
    assert (2.0 * a + 1.0) * (2.0 * a + 1.0) == 4.0 * (a * a) + 4.0 * a + 1.0;
    assert b * b == a * a + 2.0 * a + 1.0;
  }

  /** The closed-form OLS slope: co-moment of (index, volume) over the
      second moment of the index. */
  function OlsSlope(ys: seq<real>): real
    requires |ys| >= 2
  {
    var xs := Indices(|ys|);
    IndexMomentPositive(xs, Mean(xs));
    CoMoment(xs, ys, Mean(xs), Mean(ys)) / CoMoment(xs, xs, Mean(xs), Mean(xs))
  }

  /** A perfectly linear series ys[i] == a + b*i has OLS slope b. */
  lemma OlsSlopeOfLine(ys: seq<real>, a: real, b: real)
    requires |ys| >= 2
    requires forall i :: 0 <= i < |ys| ==> ys[i] == a + b * i as real
    ensures OlsSlope(ys) == b
  {
    var xs := Indices(|ys|);
    var mx, my := Mean(xs), Mean(ys);
    LineIsLockstep(xs, ys, a, b);
    var w, z := CoMoment(xs, xs, mx, mx), CoMoment(xs, ys, mx, my);
    CoMomentScale(xs, ys, mx, my, b, w, z);
    IndexMomentPositive(xs, mx);
    OlsSlopeIs(ys, w, z);
    ScaledRatio(b, w, z);
  }

  /** A line over the indices moves in lockstep with them about the means. */
  lemma LineIsLockstep(xs: seq<real>, ys: seq<real>, a: real, b: real)
    requires |ys| >= 2 && xs == Indices(|ys|)
    requires forall i :: 0 <= i < |ys| ==> ys[i] == a + b * i as real
    ensures Lockstep(xs, ys, Mean(xs), Mean(ys), b)
  {
    assert forall i :: 0 <= i < |ys| ==> ys[i] == a + b * xs[i];
    MeanAffine(xs, ys, a, b);
  }

  lemma OlsSlopeIs(ys: seq<real>, w: real, z: real)
    requires |ys| >= 2 && 0.0 < w
    requires w == CoMoment(Indices(|ys|), Indices(|ys|), Mean(Indices(|ys|)), Mean(Indices(|ys|)))
    requires z == CoMoment(Indices(|ys|), ys, Mean(Indices(|ys|)), Mean(ys))
    ensures OlsSlope(ys) == z / w
  {
  }

  /** The mean of an affine image is the affine image of the mean. */
  lemma MeanAffine(xs: seq<real>, ys: seq<real>, a: real, b: real)
    requires |xs| == |ys| > 0
    requires forall i :: 0 <= i < |ys| ==> ys[i] == a + b * xs[i]
    ensures Mean(ys) == a + b * Mean(xs)
  {
    SumAffine(xs, ys, a, b);
    DivAffine(Sum(ys), Sum(xs), |ys| as real, a, b, Mean(ys), Mean(xs));
  }

  lemma DivAffine(s: real, t: real, n: real, a: real, b: real, ms: real, mt: real)
    requires 0.0 < n && s == n * a + b * t && ms == s / n && mt == t / n
    ensures ms == a + b * mt
  {
    assert ms * n == s;
    assert mt * n == t;
  }

  lemma ScaledRatio(b: real, w: real, z: real)
    requires w > 0.0 && z == b * w
    ensures z / w == b
  {
  }

  /** A constant series has OLS slope 0. */
  lemma OlsSlopeOfConstant(ys: seq<real>, c: real)
    requires |ys| >= 2
    requires forall i :: 0 <= i < |ys| ==> ys[i] == c
    ensures OlsSlope(ys) == 0.0
  {
    OlsSlopeOfLine(ys, c, 0.0);
  }
}
