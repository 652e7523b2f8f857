/** The two numbers the reported Sharpe ratio is formed from. */
module Statistics {
  import opened Wrappers
  import opened Curve
  import opened Equity

  function SumOf(xs: seq<real>): real {
    if xs == [] then 0.0 else xs[0] + SumOf(xs[1..])
  }

  /** The sum of the squared distances from `m`. */
  function SquaresOf(xs: seq<real>, m: real): real {
    if xs == [] then 0.0 else (xs[0] - m) * (xs[0] - m) + SquaresOf(xs[1..], m)
  }

  lemma {:induction false} SumCons(x: real, xs: seq<real>)
    ensures Sum([x] + xs) == x + Sum(xs)
  {
    if xs == [] {
      assert [x] + xs == [x] && [x][..0] == [];
    } else {
      var n := |xs| - 1;
      assert ([x] + xs)[..n + 1] == [x] + xs[..n];
      SumCons(x, xs[..n]);
    }
  }

  lemma {:induction false} SumIs(xs: seq<real>)
    ensures Sum(xs) == SumOf(xs)
  {
    if xs != [] {
      assert xs == [xs[0]] + xs[1..];
      SumCons(xs[0], xs[1..]);
      SumIs(xs[1..]);
    }
  }

  lemma {:induction false} SquaresCons(x: real, xs: seq<real>, m: real)
    ensures SquaredDeviations([x] + xs, m) == Sq(x - m) + SquaredDeviations(xs, m)
  {
    if xs == [] {
      assert [x] + xs == [x] && [x][..0] == [];
    } else {
      var n := |xs| - 1;
      assert ([x] + xs)[..n + 1] == [x] + xs[..n];
      SquaresCons(x, xs[..n], m);
    }
  }

  lemma {:induction false} SquaresIs(xs: seq<real>, m: real)
    ensures SquaredDeviations(xs, m) == SquaresOf(xs, m)
  {
    if xs != [] {
      assert xs == [xs[0]] + xs[1..];
      SquaresCons(xs[0], xs[1..], m);
      SquaresIs(xs[1..], m);
    }
  }

  /** They are the mean of the returns and their sample variance: divided by one less than their number. */
  lemma {:induction false} MeanAndVariance(rs: seq<real>)
    requires Sharpe(rs).Some?
    ensures |rs| >= 2
    ensures Sharpe(rs).value.mean * |rs| as real == SumOf(rs)
    ensures Sharpe(rs).value.variance * (|rs| - 1) as real == SquaresOf(rs, Sharpe(rs).value.mean)
    ensures Sharpe(rs).value.variance > 0.0
  {
    var d := Sharpe(rs).value;
    SharpeParts(rs, d);
    SumIs(rs);
    SquaresIs(rs, d.mean);
    QuotientTimes(Sum(rs), |rs| as real, d.mean);
    QuotientTimes(SquaredDeviations(rs, d.mean), (|rs| - 1) as real, d.variance);
  }

  lemma {:induction false} SharpeParts(rs: seq<real>, d: Dispersion)
    requires Sharpe(rs) == Some(d)
    ensures |rs| >= 2 && d.mean == Sum(rs) / |rs| as real
    ensures d.variance == SquaredDeviations(rs, d.mean) / (|rs| - 1) as real && d.variance > 0.0
  {
  }

  lemma {:induction false} QuotientTimes(x: real, n: real, q: real)
    requires n > 0.0 && q == x / n
    ensures q * n == x
  {
  }
}
