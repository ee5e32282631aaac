/**
 What the consistency factor measures: the mean of the rates is the centre with the least squared
 distances, and the factor is one exactly when all rates are equal.
 */
module RateSpread {
  import opened Reputation

  lemma {:induction false} SumAdds(a: map<string, real>, b: map<string, real>, c: map<string, real>)
    requires a.Keys == b.Keys && b.Keys == c.Keys && forall k :: k in a ==> c[k] == a[k] + b[k]
    ensures Sum(c) == Sum(a) + Sum(b)
    decreases |a|
  {
    if a == map[] {
      assert b == map[] && c == map[];
    } else {
      var k :| k in a;
      SmallerWithout(a, k);
      SumPick(a, k);
      SumPick(b, k);
      SumPick(c, k);
      SumAdds(a - {k}, b - {k}, c - {k});
    }
  }

  /** A squared distance from another centre, expanded around the mean. */
  lemma ShiftedSquare(x: real, u: real, c: real)
    ensures Deviation(x, c) == Deviation(x, u) + Line(2.0 * (u - c), c * c - u * u, x)
  {
    var p, q := x * u, x * c;
    assert Deviation(x, c) == x * x - 2.0 * q + c * c;
    assert Deviation(x, u) == x * x - 2.0 * p + u * u;
    assert 2.0 * (u - c) * x == 2.0 * p - 2.0 * q;
  }

  lemma ShiftedTotal(n: real, u: real, c: real)
    ensures Affine(2.0 * (u - c), c * c - u * u, n * u, n) == n * ((u - c) * (u - c))
  {
    var p, q, r := n * (u * u), n * (u * c), n * (c * c);
    assert 2.0 * (u - c) * (n * u) == 2.0 * p - 2.0 * q;
    assert n * (c * c - u * u) == r - p;
    assert (u - c) * (u - c) == u * u - 2.0 * (u * c) + c * c;
    assert n * (u * u - 2.0 * (u * c) + c * c) == p - 2.0 * q + r;
  }

  lemma SquaresSplit(m: map<string, real>, u: real, c: real)
    ensures Sum(Squared(m, c))
         == Sum(Squared(m, u)) + Affine(2.0 * (u - c), c * c - u * u, Sum(m), |m| as real)
  {
    var a, d := 2.0 * (u - c), c * c - u * u;
    forall k | k in m ensures Squared(m, c)[k] == Squared(m, u)[k] + Lines(m, a, d)[k] {
      ShiftedSquare(m[k], u, c);
    }
    SumAdds(Squared(m, u), Lines(m, a, d), Squared(m, c));
    SumOfLines(m, a, d);
  }

  /** Measured from any centre, squared distances exceed those from the mean by n times its own squared distance. */
  lemma SquaresAround(m: map<string, real>, n: real, u: real, c: real, e: real)
    requires n == |m| as real && Sum(m) == n * u && e == n * ((u - c) * (u - c))
    ensures Sum(Squared(m, c)) == Sum(Squared(m, u)) + e
  {
    SquaresSplit(m, u, c);
    ShiftedTotal(n, u, c);
  }

  lemma ProductPositive(x: real, y: real, p: real)
    requires x > 0.0 && y > 0.0 && p == x * y
    ensures p > 0.0
  {
  }

  lemma SquarePositive(x: real, p: real)
    requires (x < 0.0 || x > 0.0) && p == x * x
    ensures p > 0.0
  {
    if x > 0.0 {
      ProductPositive(x, x, p);
    } else {
      assert (-x) * (-x) == x * x;
      ProductPositive(-x, -x, p);
    }
  }

  lemma Excess(n: real, u: real, c: real) returns (e: real)
    requires n > 0.0 && (c < u || u < c)
    ensures e == n * ((u - c) * (u - c)) && e > 0.0
  {
    var p := (u - c) * (u - c);
    SquarePositive(u - c, p);
    e := n * p;
    ProductPositive(n, p, e);
  }

  lemma FurtherOff(m: map<string, real>, n: real, u: real, c: real)
    requires n == |m| as real && n > 0.0 && Sum(m) == n * u && (c < u || u < c)
    ensures Sum(Squared(m, u)) < Sum(Squared(m, c))
  {
    var e := Excess(n, u, c);
    SquaresAround(m, n, u, c, e);
  }

  lemma MeanTotal(m: map<string, real>)
    requires m != map[]
    ensures |m| as real > 0.0 && Sum(m) == |m| as real * Mean(m)
  {
    assert |m| > 0;
    MeanTimesCount(Sum(m), |m| as real);
  }

  /** The mean is the one centre with the least sum of squares. */
  lemma MeanIsCentre(m: map<string, real>, c: real)
    requires m != map[]
    ensures c == Mean(m) || Sum(Squared(m, Mean(m))) < Sum(Squared(m, c))
  {
    if c < Mean(m) || Mean(m) < c {
      MeanTotal(m);
      FurtherOff(m, |m| as real, Mean(m), c);
    }
  }

  lemma ZeroSlope(r: real, v: real)
    ensures Line(0.0, v, r) == v
  {
  }

  lemma ZeroSlopes(total: real, n: real, v: real)
    ensures Affine(0.0, v, total, n) == n * v
  {
  }

  lemma SumOfEqual(m: map<string, real>, v: real)
    requires forall k :: k in m ==> m[k] == v
    ensures Sum(m) == |m| as real * v
  {
    forall k | k in m ensures Lines(m, 0.0, v)[k] == m[k] {
      ZeroSlope(m[k], v);
    }
    assert m == Lines(m, 0.0, v);
    SumOfLines(m, 0.0, v);
    ZeroSlopes(Sum(m), |m| as real, v);
  }

  lemma {:induction false} ZeroSum(m: map<string, real>, k: string)
    requires k in m && (forall o :: o in m ==> m[o] >= 0.0) && Sum(m) == 0.0
    ensures m[k] == 0.0
  {
    SumPick(m, k);
    var rest := m - {k};
    SumMonotone(rest, rest);
  }

  ghost predicate AllEqual(m: map<string, real>) {
    forall j, k :: j in m && k in m ==> m[j] == m[k]
  }

  lemma EqualMean(m: map<string, real>, k: string)
    requires AllEqual(m) && k in m
    ensures Mean(m) == m[k] && Sum(Squared(m, Mean(m))) == 0.0
  {
    SumOfEqual(m, m[k]);
    assert |m| > 0;
    SumOfEqual(Squared(m, m[k]), 0.0);
  }

  /** Without any spread every rate is the mean. */
  lemma NoSpread(m: map<string, real>, u: real, k: string)
    requires k in m && Sum(Squared(m, u)) == 0.0
    ensures m[k] == u
  {
    forall o | o in m ensures Squared(m, u)[o] >= 0.0 {
      SquareNonNegative(m[o] - u);
    }
    ZeroSum(Squared(m, u), k);
    if m[k] < u || u < m[k] {
      SquarePositive(m[k] - u, Squared(m, u)[k]);
    }
  }

  lemma ZeroQuotient(a: real, n: real)
    requires n > 0.0
    ensures a / n == 0.0 <==> a == 0.0
  {
    MeanTimesCount(a, n);
  }

  /** The variance is zero exactly for equal rates. */
  lemma VarianceZeroIff(m: map<string, real>)
    requires m != map[]
    ensures Variance(m) == 0.0 <==> AllEqual(m)
  {
    ZeroQuotient(Sum(Squared(m, Mean(m))), |m| as real);
    if AllEqual(m) {
      var k :| k in m;
      EqualMean(m, k);
    } else if Variance(m) == 0.0 {
      var j, k :| j in m && k in m && m[j] != m[k];
      NoSpread(m, Mean(m), j);
      NoSpread(m, Mean(m), k);
    }
  }

  lemma RootZeroIff(x: real, r: real)
    requires IsRoot(x, r)
    ensures r == 0.0 <==> x == 0.0
  {
    if r > 0.0 {
      ProductPositive(r, r, x);
    }
  }

  /** The consistency is one exactly for equal rates. */
  lemma ConsistencyOneIff(m: map<string, real>, root: real -> real)
    requires m != map[] && AreRates(m) && ExactRoot(root)
    ensures Consistency(m, root) == 1.0 <==> AllEqual(m)
  {
    ConsistencyRange(m, root);
    VarianceOfRates(m);
    VarianceZeroIff(m);
    assert ExactAt(root, Variance(m));
    RootZeroIff(Variance(m), root(Variance(m)));
  }
}
