/**
 The running encoding statistics per codec, resolution and preset: an incremental mean and a
 Welford update of the standard deviation, over exact reals.
 */
module EncodingStats {
  import opened Basics

  datatype Key = Key(codec: string, resolution: string, preset: string)
  datatype Sample = Sample(fps: real, sizePerMin: real)
  datatype Row = Row(avgFps: real, avgSizePerMin: real, count: nat, stddev: real)

  predicate IsSqrt(root: real, v: real) { root >= 0.0 && root * root == v }

  ghost predicate IsSqrtFunction(sqrt: real -> real) {
    forall v: real :: v >= 0.0 ==> IsSqrt(sqrt(v), v)
  }

  // ----- what a row should say -----

  function SumOf(f: Sample -> real, xs: seq<Sample>): real {
    if xs == [] then 0.0 else SumOf(f, xs[..|xs| - 1]) + f(xs[|xs| - 1])
  }

  function Fps(): Sample -> real { (s: Sample) => s.fps }
  function SizePerMin(): Sample -> real { (s: Sample) => s.sizePerMin }
  function SquareFrom(c: real): Sample -> real { (s: Sample) => (s.fps - c) * (s.fps - c) }

  function Mean(f: Sample -> real, xs: seq<Sample>): real
    requires xs != []
  {
    SumOf(f, xs) / |xs| as real
  }

  /** The sum of the squared deviations of the frame rates from their mean. */
  function Deviations(xs: seq<Sample>): real
    requires xs != []
  {
    SumOf(SquareFrom(Mean(Fps(), xs)), xs)
  }

  /** Population variance of the frame rates. */
  function Variance(xs: seq<Sample>): real
    requires xs != []
  {
    Deviations(xs) / |xs| as real
  }

  /** The row holds the sample count, the two arithmetic means and the population standard deviation. */
  ghost predicate Summarizes(row: Row, xs: seq<Sample>) {
    forall k :: Look(k) ==>
      && xs != [] && row.count == |xs|
      && row.avgFps == Mean(Fps(), xs) && row.avgSizePerMin == Mean(SizePerMin(), xs)
      && IsSqrt(row.stddev, Variance(xs))
  }

  // ----- the update -----

  function NewMean(mean: real, x: real, count: nat): real {
    mean + (x - mean) / (count + 1) as real
  }

  /** The argument of GREATEST(0, ..) in the update statement. */
  function NewVariance(row: Row, x: real): real {
    (row.stddev * row.stddev * row.count as real + (x - row.avgFps) * (x - NewMean(row.avgFps, x, row.count)))
    / (row.count + 1) as real
  }

  lemma NewMeanScaled(mean: real, x: real, count: nat, n: real)
    requires n == count as real
    ensures NewMean(mean, x, count) * (n + 1.0) == mean * n + x
  {
    var q := (x - mean) / (n + 1.0);
    assert q * (n + 1.0) == x - mean;
  }

  lemma QuotientOf(mean: real, sum: real, n: real)
    requires n > 0.0
    ensures mean * n == sum <==> mean == sum / n
  {
  }

  lemma SumAppend(f: Sample -> real, xs: seq<Sample>, x: Sample)
    ensures SumOf(f, xs + [x]) == SumOf(f, xs) + f(x)
  {
    assert (xs + [x])[..|xs|] == xs;
  }

  lemma NewMeanIsMean(f: Sample -> real, xs: seq<Sample>, x: Sample)
    requires xs != []
    ensures NewMean(Mean(f, xs), f(x), |xs|) == Mean(f, xs + [x])
  {
    var n := |xs| as real;
    QuotientOf(Mean(f, xs), SumOf(f, xs), n);
    NewMeanScaled(Mean(f, xs), f(x), |xs|, n);
    SumAppend(f, xs, x);
    QuotientOf(NewMean(Mean(f, xs), f(x), |xs|), SumOf(f, xs + [x]), n + 1.0);
  }

  /** The deviations from b in terms of those from a, the sum and the count. */
  ghost predicate Shifted(toB: real, toA: real, sum: real, n: real, a: real, b: real) {
    forall k :: Look(k) ==> toB == toA + 2.0 * (a - b) * sum - n * ((a - b) * (a + b))
  }

  lemma ShiftStep(toB: real, toA: real, sum: real, n: real, a: real, b: real, x: Sample)
    requires Shifted(toB, toA, sum, n, a, b)
    ensures Shifted(toB + SquareFrom(b)(x), toA + SquareFrom(a)(x), sum + x.fps, n + 1.0, a, b)
  {
    assert Look(0);
  }

  lemma {:induction false} Recentre(xs: seq<Sample>, a: real, b: real)
    ensures Shifted(SumOf(SquareFrom(b), xs), SumOf(SquareFrom(a), xs), SumOf(Fps(), xs), |xs| as real, a, b)
  {
    if xs != [] {
      var n := |xs| - 1;
      Recentre(xs[..n], a, b);
      ShiftStep(SumOf(SquareFrom(b), xs[..n]), SumOf(SquareFrom(a), xs[..n]), SumOf(Fps(), xs[..n]), n as real, a, b, xs[n]);
    }
  }

  /** Welford's step: new is old + (x - m)(x - m'). */
  ghost predicate Stepped(new_: real, old_: real, x: real, m: real, m': real) {
    forall k :: Look(k) ==> new_ == old_ + (x - m) * (x - m')
  }

  lemma ShiftToMean(toM': real, old_: real, n: real, m: real, m': real)
    requires Shifted(toM', old_, m * n, n, m, m')
    ensures toM' == old_ + n * ((m - m') * (m - m'))
  {
    assert Look(0);
  }

  lemma WelfordAlgebra(n: real, m: real, m': real, x: real)
    requires m' * (n + 1.0) == m * n + x
    ensures n * ((m - m') * (m - m')) + (x - m') * (x - m') == (x - m) * (x - m')
  {
    var d := m' - m;
    assert x - m' == n * d;
    assert n * (d * d) == (x - m') * d;
  }

  lemma WelfordStep(toM': real, old_: real, n: real, m: real, m': real, x: Sample)
    requires Shifted(toM', old_, m * n, n, m, m')
    requires m' * (n + 1.0) == m * n + x.fps
    ensures Stepped(toM' + SquareFrom(m')(x), old_, x.fps, m, m')
  {
    ShiftToMean(toM', old_, n, m, m');
    WelfordAlgebra(n, m, m', x.fps);
  }

  lemma NewDeviations(xs: seq<Sample>, x: Sample)
    requires xs != []
    ensures Stepped(Deviations(xs + [x]), Deviations(xs), x.fps, Mean(Fps(), xs), Mean(Fps(), xs + [x]))
  {
    var m, m' := Mean(Fps(), xs), Mean(Fps(), xs + [x]);
    NewMeanIsMean(Fps(), xs, x);
    NewMeanScaled(m, x.fps, |xs|, |xs| as real);
    QuotientOf(m, SumOf(Fps(), xs), |xs| as real);
    Recentre(xs, m, m');
    WelfordStep(SumOf(SquareFrom(m'), xs), Deviations(xs), |xs| as real, m, m', x);
    SumAppend(SquareFrom(m'), xs, x);
  }

  lemma {:induction false} SumNonNegative(f: Sample -> real, xs: seq<Sample>)
    requires forall s :: f(s) >= 0.0
    ensures SumOf(f, xs) >= 0.0
  {
    if xs != [] { SumNonNegative(f, xs[..|xs| - 1]); }
  }

  lemma NonNegativeQuotient(a: real, b: real)
    requires a >= 0.0 && b > 0.0
    ensures a / b >= 0.0
  {
  }

  lemma SquareNonNegative(y: real)
    ensures y * y >= 0.0
  {
  }

  lemma SquaresNonNegative(c: real)
    ensures forall s :: SquareFrom(c)(s) >= 0.0
  {
    forall s: Sample ensures SquareFrom(c)(s) >= 0.0 {
      SquareNonNegative(s.fps - c);
      assert SquareFrom(c)(s) == (s.fps - c) * (s.fps - c);
    }
  }

  lemma VarianceNonNegative(xs: seq<Sample>)
    requires xs != []
    ensures Variance(xs) >= 0.0
  {
    SquaresNonNegative(Mean(Fps(), xs));
    SumNonNegative(SquareFrom(Mean(Fps(), xs)), xs);
    NonNegativeQuotient(Deviations(xs), |xs| as real);
  }

  lemma NewVarianceAlgebra(row: Row, x: real, m': real, old_: real, new_: real)
    requires row.stddev * row.stddev * row.count as real == old_
    requires m' == NewMean(row.avgFps, x, row.count)
    requires Stepped(new_, old_, x, row.avgFps, m')
    ensures NewVariance(row, x) == new_ / (row.count + 1) as real
  {
    assert Look(0);
  }

  /** The update's variance is the population variance of all samples, so it is never negative and
      the GREATEST(0, ..) guard never cuts. */
  lemma NewVarianceIsVariance(row: Row, xs: seq<Sample>, x: Sample)
    requires Summarizes(row, xs)
    ensures NewVariance(row, x.fps) == Variance(xs + [x]) >= 0.0
  {
    assert xs != [] && row.count == |xs| && row.avgFps == Mean(Fps(), xs) && IsSqrt(row.stddev, Variance(xs)) by {
      assert Look(0);
    }
    QuotientOf(Variance(xs), Deviations(xs), |xs| as real);
    NewMeanIsMean(Fps(), xs, x);
    NewDeviations(xs, x);
    NewVarianceAlgebra(row, x.fps, Mean(Fps(), xs + [x]), Deviations(xs), Deviations(xs + [x]));
    VarianceNonNegative(xs + [x]);
  }

  // ----- the table -----

  /** The row the update statement stores when it finds a row. */
  function UpdatedRow(sqrt: real -> real, row: Row, s: Sample): Row {
    var v := NewVariance(row, s.fps);
    Row(NewMean(row.avgFps, s.fps, row.count), NewMean(row.avgSizePerMin, s.sizePerMin, row.count), row.count + 1,
        sqrt(if v > 0.0 then v else 0.0))
  }

  lemma UpdateSummarizes(sqrt: real -> real, row: Row, xs: seq<Sample>, s: Sample)
    requires IsSqrtFunction(sqrt) && Summarizes(row, xs)
    ensures Summarizes(UpdatedRow(sqrt, row, s), xs + [s])
  {
    NewVarianceIsVariance(row, xs, s);
    assert Look(0);
    NewMeanIsMean(Fps(), xs, s);
    NewMeanIsMean(SizePerMin(), xs, s);
  }

  lemma SumOfOne(f: Sample -> real, s: Sample)
    ensures SumOf(f, [s]) == f(s) == Mean(f, [s])
  {
    assert [s] == [] + [s];
    SumAppend(f, [], s);
    QuotientOf(f(s), SumOf(f, [s]), 1.0);
  }

  lemma FirstSample(s: Sample)
    ensures Summarizes(Row(s.fps, s.sizePerMin, 1, 0.0), [s])
  {
    SumOfOne(Fps(), s);
    SumOfOne(SizePerMin(), s);
    SumOfOne(SquareFrom(s.fps), s);
    assert Deviations([s]) == 0.0;
    assert Variance([s]) == 0.0;
  }

  /** The encoding_stats table; `log` records every sample a key has received. */
  class StatsTable {
    var rows: map<Key, Row>
    ghost var log: map<Key, seq<Sample>>

    ghost predicate Valid()
      reads this
    {
      rows.Keys == log.Keys && forall k :: k in rows ==> Summarizes(rows[k], log[k])
    }

    constructor ()
      ensures Valid() && rows == map[] && log == map[]
    {
      rows, log := map[], map[];
    }

    /** UpsertEncodingStats.  Whatever the samples, every row summarizes all samples of its key. */
    method Upsert(sqrt: real -> real, key: Key, s: Sample)
      requires IsSqrtFunction(sqrt) && Valid()
      modifies this
      ensures Valid()
      ensures log == old(log)[key := (if key in old(log) then old(log)[key] else []) + [s]]
      ensures forall k :: k in old(rows) && k != key ==> k in rows && rows[k] == old(rows)[k]
    {
      if key !in rows {
        FirstSample(s);
        rows := rows[key := Row(s.fps, s.sizePerMin, 1, 0.0)];
        assert [s] == [] + [s];
        log := log[key := [s]];
      } else {
        UpdateSummarizes(sqrt, rows[key], log[key], s);
        rows := rows[key := UpdatedRow(sqrt, rows[key], s)];
        log := log[key := log[key] + [s]];
      }
    }
  }

  // ----- order does not matter -----

  /** Without the sample at position i. */
  function Without(xs: seq<Sample>, i: nat): seq<Sample>
    requires i < |xs|
  {
    xs[..i] + xs[i + 1..]
  }

  lemma {:induction false} SumWithout(f: Sample -> real, xs: seq<Sample>, i: nat)
    requires i < |xs|
    ensures SumOf(f, xs) == SumOf(f, Without(xs, i)) + f(xs[i])
  {
    var n := |xs| - 1;
    if i < n {
      SumWithout(f, xs[..n], i);
      var w := Without(xs, i);
      assert w[..|w| - 1] == Without(xs[..n], i) && w[|w| - 1] == xs[n];
    } else {
      assert Without(xs, i) == xs[..n];
    }
  }

  lemma MultisetSplits(xs: seq<Sample>, i: nat)
    requires i < |xs|
    ensures multiset(xs) == multiset(Without(xs, i)) + multiset([xs[i]])
  {
    var a, b, c := xs[..i], [xs[i]], xs[i + 1..];
    assert xs == (a + b) + c;
    assert multiset(xs) == (multiset(a) + multiset(b)) + multiset(c);
    assert multiset(a + c) == multiset(a) + multiset(c);
  }

  lemma MultisetCancels(a: multiset<Sample>, b: multiset<Sample>, one: multiset<Sample>)
    requires a + one == b + one
    ensures a == b
  {
    assert a == (a + one) - one;
    assert b == (b + one) - one;
  }

  /** The position in ys of the last sample of xs. */
  lemma FindLast(xs: seq<Sample>, ys: seq<Sample>) returns (i: nat)
    requires multiset(xs) == multiset(ys) && xs != []
    ensures i < |ys| && ys[i] == xs[|xs| - 1] && multiset(xs[..|xs| - 1]) == multiset(Without(ys, i))
  {
    var n := |xs| - 1;
    assert xs[n] in multiset(xs);
    assert xs[n] in multiset(ys);
    i :| 0 <= i < |ys| && ys[i] == xs[n];
    MultisetSplits(xs, n);
    MultisetSplits(ys, i);
    assert Without(xs, n) == xs[..n];
    MultisetCancels(multiset(xs[..n]), multiset(Without(ys, i)), multiset([xs[n]]));
  }

  lemma {:induction false} SumPermuted(f: Sample -> real, xs: seq<Sample>, ys: seq<Sample>)
    requires multiset(xs) == multiset(ys)
    ensures |xs| == |ys| && SumOf(f, xs) == SumOf(f, ys)
    decreases |xs|
  {
    assert |multiset(xs)| == |xs| && |multiset(ys)| == |ys|;
    if xs != [] {
      var i := FindLast(xs, ys);
      SumPermuted(f, xs[..|xs| - 1], Without(ys, i));
      SumWithout(f, ys, i);
    }
  }

  lemma SqrtUnique(a: real, b: real, v: real)
    requires IsSqrt(a, v) && IsSqrt(b, v)
    ensures a == b
  {
    var d := b - a;
    assert d * (a + b) == b * b - a * a;
    ZeroProduct(d, a + b);
  }

  lemma ZeroProduct(x: real, y: real)
    requires x * y == 0.0
    ensures x == 0.0 || y == 0.0
  {
  }

  /** The row that a number of samples leaves behind does not depend on the order they came in. */
  lemma OrderDoesNotMatter(row: Row, xs: seq<Sample>, row': Row, ys: seq<Sample>)
    requires Summarizes(row, xs) && Summarizes(row', ys) && multiset(xs) == multiset(ys)
    ensures row == row'
  {
    SumPermuted(Fps(), xs, ys);
    SumPermuted(SizePerMin(), xs, ys);
    assert Look(0);
    SumPermuted(SquareFrom(row.avgFps), xs, ys);
    SqrtUnique(row.stddev, row'.stddev, Variance(xs));
  }
}
