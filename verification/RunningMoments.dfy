/** `RunningMeanStd`: the running mean and variance of a data stream, merged batch by batch.
    Numbers are reals; one component of the stream is modelled, the others behave alike. */
module RunningMoments {
  import opened Basics

  /** The state of a `RunningMeanStd` */
  datatype Moments = Moments(mean: real, variance: real, count: real)
  {
    /** The weighted sum of the samples seen so far */
    function Total(): real { count * mean }

    /** The weighted sum of their squares */
    function TotalSquares(): real { count * (variance + mean * mean) }
  }

  function Sum(xs: seq<real>): real {
    if xs == [] then 0.0 else xs[0] + Sum(xs[1..])
  }

  function SumSquares(xs: seq<real>): real {
    if xs == [] then 0.0 else xs[0] * xs[0] + SumSquares(xs[1..])
  }

  /** The summed squared deviation of the samples from `m` */
  function Spread(xs: seq<real>, m: real): real {
    if xs == [] then 0.0 else (xs[0] - m) * (xs[0] - m) + Spread(xs[1..], m)
  }

  /** `np.mean` */
  function Mean(xs: seq<real>): real
    requires xs != []
  {
    Sum(xs) / |xs| as real
  }

  /** `np.var` */
  function Variance(xs: seq<real>): real
    requires xs != []
  {
    Spread(xs, Mean(xs)) / |xs| as real
  }

  /** What two means that are `delta` apart add to the squared deviations */
  function BetweenMeans(delta: real, c: real, n: real): real
    requires c + n != 0.0
  {
    delta * delta * c * n / (c + n)
  }

  function NewMean(m1: real, c: real, m: real, n: real): real
    requires c + n != 0.0
  {
    m1 + (m - m1) * n / (c + n)
  }

  function SquaredDeviations(a: Moments, mean: real, variance: real, n: real): real
    requires a.count + n != 0.0
  {
    a.variance * a.count + variance * n + BetweenMeans(mean - a.mean, a.count, n)
  }

  /** `update_from_moments` */
  function Merge(a: Moments, mean: real, variance: real, n: real): Moments
    requires a.count + n != 0.0
  {
    Moments(NewMean(a.mean, a.count, mean, n), SquaredDeviations(a, mean, variance, n) / (a.count + n), n + a.count)
  }

  /** `update` */
  function Updated(a: Moments, xs: seq<real>): Moments
    requires a.count >= 0.0 && xs != []
  {
    Merge(a, Mean(xs), Variance(xs), |xs| as real)
  }

  // ------------------------------------------------------- sums add up

  lemma Quotient(x: real, y: real, d: real)
    requires d != 0.0
    ensures x * y / d == x * (y / d)
  {
    assert d * (x * (y / d)) == x * (d * (y / d));
  }

  lemma MergeMean(m1: real, m2: real, c: real, n: real)
    requires c + n != 0.0
    ensures var q := (m2 - m1) * n / (c + n);
      (c + n) * (m1 + q) == c * m1 + n * m2
  {
    var q := (m2 - m1) * n / (c + n);
    assert (c + n) * q == (m2 - m1) * n;
  }

  lemma MergeSquares(m1: real, v1: real, m2: real, v2: real, c: real, n: real, q: real)
    requires (c + n) * q == (m2 - m1) * n
    ensures v1 * c + v2 * n + (m2 - m1) * c * q + (c + n) * ((m1 + q) * (m1 + q)) ==
            c * (v1 + m1 * m1) + n * (v2 + m2 * m2)
  {
    var t, d := c + n, m2 - m1;
    assert t * ((m1 + q) * (m1 + q)) == t * m1 * m1 + 2.0 * m1 * (t * q) + q * (t * q);
    assert q * (d * n) + d * c * q == d * (t * q);
    assert d * (d * n) + 2.0 * m1 * (d * n) + n * m1 * m1 == n * m2 * m2;
  }

  /** Merging adds up counts, sums and sums of squares. */
  lemma MergeAdds(a: Moments, mean: real, variance: real, n: real)
    requires a.count + n != 0.0
    ensures var r := Merge(a, mean, variance, n);
      r.count == a.count + n && r.Total() == a.Total() + n * mean &&
      r.TotalSquares() == a.TotalSquares() + n * (variance + mean * mean)
  {
    hide NewMean, SquaredDeviations;
    MergedMean(a.mean, a.count, mean, n);
    MergedSquares(a, mean, variance, n);
  }

  lemma MergedMean(m1: real, c: real, m: real, n: real)
    requires c + n != 0.0
    ensures (c + n) * NewMean(m1, c, m, n) == c * m1 + n * m
  {
    MergeMean(m1, m, c, n);
  }

  lemma MergedSquares(a: Moments, mean: real, variance: real, n: real)
    requires a.count + n != 0.0
    ensures var t, m := a.count + n, NewMean(a.mean, a.count, mean, n);
      t * (SquaredDeviations(a, mean, variance, n) / t + m * m) ==
        a.count * (a.variance + a.mean * a.mean) + n * (variance + mean * mean)
  {
    hide BetweenMeans;
    BetweenMeansIs(mean - a.mean, a.count, n);
    MergeSquares(a.mean, a.variance, mean, variance, a.count, n, (mean - a.mean) * n / (a.count + n));
    Recombine(a.count + n, SquaredDeviations(a, mean, variance, n), NewMean(a.mean, a.count, mean, n));
  }

  lemma BetweenMeansIs(d: real, c: real, n: real)
    requires c + n != 0.0
    ensures var q := d * n / (c + n);
      BetweenMeans(d, c, n) == d * c * q && (c + n) * q == d * n
  {
    assert d * d * c * n == (d * c) * (d * n);
    Quotient(d * c, d * n, c + n);
  }

  lemma Recombine(t: real, m2: real, m: real)
    requires t != 0.0
    ensures t * (m2 / t + m * m) == m2 + t * (m * m)
  {
  }

  lemma {:induction false} SpreadExpands(xs: seq<real>, m: real)
    ensures Spread(xs, m) == SumSquares(xs) - 2.0 * m * Sum(xs) + |xs| as real * (m * m)
  {
    hide Spread, Sum, SumSquares;
    SumsOf(xs, m);
    if xs != [] {
      SpreadExpands(xs[1..], m);
      ExpandOne(xs[0], m, Sum(xs[1..]), SumSquares(xs[1..]), |xs[1..]| as real);
    }
  }

  lemma SumsOf(xs: seq<real>, m: real)
    ensures xs == [] ==> Spread(xs, m) == 0.0 && Sum(xs) == 0.0 && SumSquares(xs) == 0.0
    ensures xs != [] ==> Spread(xs, m) == (xs[0] - m) * (xs[0] - m) + Spread(xs[1..], m)
    ensures xs != [] ==> Sum(xs) == xs[0] + Sum(xs[1..]) && SumSquares(xs) == xs[0] * xs[0] + SumSquares(xs[1..])
  {
  }

  lemma ExpandOne(x: real, m: real, s: real, q: real, k: real)
    ensures (x - m) * (x - m) + (q - 2.0 * m * s + k * (m * m)) ==
            (x * x + q) - 2.0 * m * (x + s) + (k + 1.0) * (m * m)
  {
    assert (x - m) * (x - m) == x * x - 2.0 * m * x + m * m;
    assert 2.0 * m * (x + s) == 2.0 * m * x + 2.0 * m * s;
    assert (k + 1.0) * (m * m) == k * (m * m) + m * m;
  }

  /** The mean and variance of a batch carry its sum and its sum of squares. */
  lemma BatchSums(xs: seq<real>)
    requires xs != []
    ensures |xs| as real * Mean(xs) == Sum(xs)
    ensures |xs| as real * (Variance(xs) + Mean(xs) * Mean(xs)) == SumSquares(xs)
  {
    hide Sum, Spread, SumSquares;
    SpreadExpands(xs, Mean(xs));
    FromMean(|xs| as real, Sum(xs), Spread(xs, Mean(xs)), SumSquares(xs));
  }

  lemma FromMean(n: real, sum: real, spread: real, squares: real)
    requires n != 0.0 && spread == squares - 2.0 * (sum / n) * sum + n * ((sum / n) * (sum / n))
    ensures n * (sum / n) == sum && n * (spread / n + (sum / n) * (sum / n)) == squares
  {
    var m := sum / n;
    assert n * m == sum;
    assert m * sum == n * (m * m);
    Recombine(n, spread, m);
  }

  lemma UpdateAdds(a: Moments, xs: seq<real>)
    requires a.count >= 0.0 && xs != []
    ensures var r := Updated(a, xs);
      r.count == a.count + |xs| as real && r.count > 0.0 && r.Total() == a.Total() + Sum(xs) &&
      r.TotalSquares() == a.TotalSquares() + SumSquares(xs)
  {
    hide Merge, Mean, Variance, Sum, SumSquares, Moments.Total, Moments.TotalSquares;
    MergeAdds(a, Mean(xs), Variance(xs), |xs| as real);
    BatchSums(xs);
  }

  /** The three sums determine the state. */
  lemma SumsDetermine(a: Moments, b: Moments)
    requires a.count == b.count != 0.0 && a.Total() == b.Total() && a.TotalSquares() == b.TotalSquares()
    ensures a == b
  {
    CancelFactor(a.count, a.mean, b.mean);
    CancelFactor(a.count, a.variance + a.mean * a.mean, b.variance + b.mean * b.mean);
  }

  lemma CancelFactor(c: real, x: real, y: real)
    requires c != 0.0 && c * x == c * y
    ensures x == y
  {
    assert x == c * x / c;
  }

  // --------------------------------------------------- runs of batches

  ghost predicate AllNonEmpty<T>(batches: seq<seq<T>>) {
    forall b :: 0 <= b < |batches| ==> batches[b] != []
  }

  ghost function Run(a: Moments, batches: seq<seq<real>>): (r: Moments)
    requires a.count >= 0.0 && AllNonEmpty(batches)
    ensures r.count >= 0.0
    decreases |batches|
  {
    if batches == [] then a else
      UpdateAdds(a, batches[0]);
      Run(Updated(a, batches[0]), batches[1..])
  }

  lemma {:induction false} SumAppends(xs: seq<real>, ys: seq<real>)
    ensures Sum(xs + ys) == Sum(xs) + Sum(ys)
    ensures SumSquares(xs + ys) == SumSquares(xs) + SumSquares(ys)
  {
    if xs == [] {
      assert xs + ys == ys;
    } else {
      SumAppends(xs[1..], ys);
      assert (xs + ys)[1..] == xs[1..] + ys;
    }
  }

  lemma {:induction false} RunAdds(a: Moments, batches: seq<seq<real>>)
    requires a.count >= 0.0 && AllNonEmpty(batches)
    ensures var r, xs := Run(a, batches), Concat(batches);
      r.count == a.count + |xs| as real && r.Total() == a.Total() + Sum(xs) &&
      r.TotalSquares() == a.TotalSquares() + SumSquares(xs)
    decreases |batches|
  {
    hide Updated, Moments.Total, Moments.TotalSquares;
    if batches != [] {
      var first, rest := batches[0], Concat(batches[1..]);
      UpdateAdds(a, first);
      RunAdds(Updated(a, first), batches[1..]);
      SumAppends(first, rest);
    }
  }

  /** Merging batches one by one is merging their concatenation. */
  lemma BatchesMergeAsOne(a: Moments, batches: seq<seq<real>>)
    requires a.count >= 0.0 && batches != [] && AllNonEmpty(batches)
    ensures Concat(batches) != [] && Run(a, batches) == Updated(a, Concat(batches))
  {
    hide Run, Updated, Moments.Total, Moments.TotalSquares, Sum, SumSquares;
    RunAdds(a, batches);
    assert batches[0] != [];
    UpdateAdds(a, Concat(batches));
    SumsDetermine(Run(a, batches), Updated(a, Concat(batches)));
  }

  lemma {:induction false} SumOfPermutation(xs: seq<real>, ys: seq<real>)
    requires multiset(xs) == multiset(ys)
    ensures Sum(xs) == Sum(ys) && SumSquares(xs) == SumSquares(ys) && |xs| == |ys|
    decreases |xs|
  {
    if xs == [] {
      assert |multiset(xs)| == |multiset(ys)|;
    } else {
      var i := FindFirst(xs, ys);
      SumOfPermutation(xs[1..], ys[..i] + ys[i + 1..]);
      MoveFirst(ys, i);
    }
  }

  lemma FindFirst(xs: seq<real>, ys: seq<real>) returns (i: nat)
    requires xs != [] && multiset(xs) == multiset(ys)
    ensures i < |ys| && ys[i] == xs[0] && multiset(ys[..i] + ys[i + 1..]) == multiset(xs[1..])
  {
    assert xs[0] in multiset(ys);
    i :| 0 <= i < |ys| && ys[i] == xs[0];
    assert ys == ys[..i] + ([ys[i]] + ys[i + 1..]);
    assert xs == [xs[0]] + xs[1..];
    assert multiset(ys[..i] + ys[i + 1..]) == multiset(ys) - multiset{xs[0]} == multiset(xs[1..]);
  }

  lemma MoveFirst(ys: seq<real>, i: nat)
    requires i < |ys|
    ensures var rest := ys[..i] + ys[i + 1..];
      Sum(ys) == ys[i] + Sum(rest) && SumSquares(ys) == ys[i] * ys[i] + SumSquares(rest)
  {
    assert ys == ys[..i] + ys[i..];
    SumAppends(ys[..i], ys[i..]);
    SumAppends(ys[..i], ys[i + 1..]);
    assert ys[i..][1..] == ys[i + 1..];
  }

  /** Neither the order of the samples nor the way they are cut into batches matters. */
  lemma OrderIsIrrelevant(a: Moments, these: seq<seq<real>>, those: seq<seq<real>>)
    requires a.count >= 0.0 && these != [] && AllNonEmpty(these) && AllNonEmpty(those)
    requires multiset(Concat(these)) == multiset(Concat(those))
    ensures Run(a, these) == Run(a, those)
  {
    hide Run, Moments.Total, Moments.TotalSquares, Sum, SumSquares;
    RunAdds(a, these);
    RunAdds(a, those);
    SumOfPermutation(Concat(these), Concat(those));
    assert these[0] != [];
    SumsDetermine(Run(a, these), Run(a, those));
  }

  // ------------------------------------------- what the statistics are

  function Initial(epsilon: real): Moments {
    Moments(0.0, 1.0, epsilon)
  }

  lemma SquareIsNonNegative(x: real)
    ensures x * x >= 0.0
  {
  }

  lemma {:induction false} SpreadIsNonNegative(xs: seq<real>, m: real)
    ensures Spread(xs, m) >= 0.0
  {
    if xs != [] {
      SpreadIsNonNegative(xs[1..], m);
      SquareIsNonNegative(xs[0] - m);
    }
  }

  /** The squared deviations of the samples from `m`, and of a pseudo-sample of weight epsilon,
      mean 0 and variance 1 */
  function PooledSpread(epsilon: real, xs: seq<real>, m: real): real {
    epsilon * (1.0 + m * m) + Spread(xs, m)
  }

  /** After any run the mean and the variance are those of all samples seen, together with a
      pseudo-sample of weight epsilon, mean 0 and variance 1. */
  lemma StatisticsOfRun(epsilon: real, batches: seq<seq<real>>)
    requires epsilon >= 0.0 && AllNonEmpty(batches)
    ensures var r, xs := Run(Initial(epsilon), batches), Concat(batches);
      r.count == epsilon + |xs| as real &&
      r.count * r.mean == Sum(xs) &&
      r.count * r.variance == PooledSpread(epsilon, xs, r.mean)
    ensures Run(Initial(epsilon), batches).variance >= 0.0
  {
    hide Run, Sum, SumSquares, PooledSpread, Moments.Total, Moments.TotalSquares;
    InitialSums(epsilon);
    RunAdds(Initial(epsilon), batches);
    AroundMean(epsilon, Run(Initial(epsilon), batches), Concat(batches));
    if batches == [] {
      NoBatches(Initial(epsilon));
    } else {
      assert batches[0] != [];
    }
  }

  lemma NoBatches(a: Moments)
    requires a.count >= 0.0
    ensures Run(a, []) == a
  {
  }

  lemma InitialSums(epsilon: real)
    ensures var a := Initial(epsilon);
      a.count == epsilon && a.Total() == 0.0 && a.TotalSquares() == epsilon
  {
  }

  lemma AroundMean(epsilon: real, r: Moments, xs: seq<real>)
    requires epsilon >= 0.0 && r.count == epsilon + |xs| as real
    requires r.Total() == Sum(xs) && r.TotalSquares() == epsilon + SumSquares(xs)
    ensures r.count * r.mean == Sum(xs) && r.count * r.variance == PooledSpread(epsilon, xs, r.mean)
    ensures r.count > 0.0 ==> r.variance >= 0.0
  {
    hide Sum, SumSquares, Spread;
    var t, m, n := r.count, r.mean, |xs| as real;
    SpreadExpands(xs, m);
    SpreadIsNonNegative(xs, m);
    assert m * Sum(xs) == t * (m * m);
    assert t * (r.variance + m * m) == t * r.variance + t * (m * m);
    assert t * (m * m) == epsilon * (m * m) + n * (m * m);
    SquareIsNonNegative(m);
    assert epsilon * (1.0 + m * m) >= 0.0;
  }

  // ----------------------------------------------------------- the class

  class RunningMeanStd {
    var mean: real
    var variance: real
    var count: real

    function State(): Moments
      reads this
    {
      Moments(mean, variance, count)
    }

    constructor (epsilon: real)
      ensures State() == Initial(epsilon)
    {
      mean, variance, count := 0.0, 1.0, epsilon;
    }

    method Update(arr: seq<real>)
      requires count >= 0.0 && arr != []
      modifies this
      ensures State() == Updated(old(State()), arr)
      ensures count == old(count) + |arr| as real && State().Total() == old(State().Total()) + Sum(arr)
      ensures State().TotalSquares() == old(State().TotalSquares()) + SumSquares(arr)
    {
      hide Merge, Moments.Total, Moments.TotalSquares;
      UpdateAdds(State(), arr);
      UpdateFromMoments(Mean(arr), Variance(arr), |arr| as real);
    }

    method UpdateFromMoments(batchMean: real, batchVar: real, batchCount: real)
      requires count + batchCount != 0.0
      modifies this
      ensures State() == Merge(old(State()), batchMean, batchVar, batchCount)
      ensures count == old(count) + batchCount && State().Total() == old(State().Total()) + batchCount * batchMean
      ensures State().TotalSquares() == old(State().TotalSquares()) + batchCount * (batchVar + batchMean * batchMean)
    {
      hide BetweenMeans, Moments.Total, Moments.TotalSquares;
      var delta := batchMean - mean;
      var totCount := count + batchCount;
      var newMean := mean + delta * batchCount / totCount;
      var mA := variance * count;
      var mB := batchVar * batchCount;
      var m2 := mA + mB + BetweenMeans(delta, count, batchCount);
      var newVar := m2 / (count + batchCount);
      var newCount := batchCount + count;
      ghost var merged := Merge(State(), batchMean, batchVar, batchCount);
      assert newMean == merged.mean;
      assert newVar == merged.variance;
      assert newCount == merged.count;
      MergeAdds(State(), batchMean, batchVar, batchCount);
      mean := newMean;
      variance := newVar;
      count := newCount;
    }
  }

  /** How the environment wrapper uses the statistics: `obs_rms` scales the observations,
      `obs_rms_new` collects them. */
  class ObservationNormalizer {
    const training: bool
    var obsRms: RunningMeanStd
    var obsRmsNew: RunningMeanStd

    constructor (training: bool, epsilon: real)
      ensures this.training == training && fresh(obsRms) && fresh(obsRmsNew) && obsRms != obsRmsNew
      ensures obsRms.State() == obsRmsNew.State() == Initial(epsilon)
    {
      this.training := training;
      obsRms := new RunningMeanStd(epsilon);
      obsRmsNew := new RunningMeanStd(epsilon);
    }

    /** `update_rms`: from here on both names stand for the same object. */
    method UpdateRms()
      modifies this`obsRms
      ensures obsRms == obsRmsNew
    {
      obsRms := obsRmsNew;
    }

    /** `normalize_obs`, as far as the statistics go: returns the deviations from the mean and the
        variance (before the 1e-8 is added) that scale them. Without aliasing the scaling
        statistics do not move; after `UpdateRms` the batch is merged into them first. */
    method NormalizeObs(obs: seq<real>) returns (centred: seq<real>, variance: real)
      requires obs != [] && obsRmsNew.count >= 0.0
      modifies obsRmsNew
      ensures obsRmsNew.State() == if training then Updated(old(obsRmsNew.State()), obs) else old(obsRmsNew.State())
      ensures obsRms.State() == if training && obsRms == obsRmsNew then Updated(old(obsRms.State()), obs) else old(obsRms.State())
      ensures obsRms.State() == old(obsRms.State()) <==> !(training && obsRms == obsRmsNew)
      ensures |centred| == |obs| && forall i :: 0 <= i < |obs| ==> centred[i] == obs[i] - obsRms.mean
      ensures variance == obsRms.variance
    {
      UpdateMoves(obsRmsNew.State(), obs);
      if training {
        obsRmsNew.Update(obs);
      }
      var mean := obsRms.mean;
      centred := seq(|obs|, i requires 0 <= i < |obs| => obs[i] - mean);
      variance := obsRms.variance;
    }
  }

  /** An update always moves the statistics, since it moves the count. */
  lemma UpdateMoves(a: Moments, xs: seq<real>)
    requires a.count >= 0.0 && xs != []
    ensures Updated(a, xs) != a
  {
    UpdateAdds(a, xs);
  }
}
