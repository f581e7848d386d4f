/** The exponential running average of the combustion-chamber pressure, over the reals. */
module RunningAverage {
  /** The value the average starts from. */
  const INITIAL_AVERAGE: real := 700.0

  /** One update of the average with a converted reading. */
  function Update(avg: real, x: real): real {
    avg * 0.95 + x * 0.05
  }

  /** The average after the converted readings xs, oldest first. */
  function After(avg: real, xs: seq<real>): real {
    if xs == [] then avg else Update(After(avg, xs[..|xs| - 1]), xs[|xs| - 1])
  }

  /** 0.95 to the power n. */
  function Decay(n: nat): (r: real)
    ensures 0.0 < r <= 1.0
  {
    if n == 0 then 1.0 else 0.95 * Decay(n - 1)
  }

  /** The i-th newest reading weighs 0.05 * 0.95^i. */
  function Weighted(xs: seq<real>): real {
    if xs == [] then 0.0 else 0.05 * Decay(|xs| - 1) * xs[0] + Weighted(xs[1..])
  }

  ghost predicate AllIn(xs: seq<real>, lo: real, hi: real) {
    forall i :: 0 <= i < |xs| ==> lo <= xs[i] <= hi
  }

  ghost predicate AllAtMost(xs: seq<real>, hi: real) {
    forall i :: 0 <= i < |xs| ==> xs[i] <= hi
  }

  ghost predicate AllAtLeast(xs: seq<real>, lo: real) {
    forall i :: 0 <= i < |xs| ==> lo <= xs[i]
  }

  /** A new reading counts for a twentieth, and everything older decays by as much. */
  lemma {:induction false} Recurrence(avg: real, xs: seq<real>, x: real)
    ensures After(avg, []) == avg && After(avg, xs + [x]) == 0.95 * After(avg, xs) + 0.05 * x
    ensures Decay(0) == 1.0 && Decay(|xs| + 1) == 0.95 * Decay(|xs|)
  {
    assert (xs + [x])[..|xs|] == xs;
  }

  lemma {:induction false} WeightedSnoc(xs: seq<real>, x: real)
    ensures Weighted(xs + [x]) == 0.95 * Weighted(xs) + 0.05 * x
  {
    if xs == [] {
      assert Weighted([x]) == 0.05 * 1.0 * x + Weighted([]);
    } else {
      assert (xs + [x])[1..] == xs[1..] + [x];
      WeightedSnoc(xs[1..], x);
      var d := Decay(|xs| - 1);
      assert Decay(|xs|) == 0.95 * d;
      assert 0.05 * (0.95 * d) * xs[0] == 0.95 * (0.05 * d * xs[0]);
    }
  }

  /** The average is the decayed start plus the weighted sum of the readings. */
  lemma {:induction false} ClosedForm(avg: real, xs: seq<real>)
    ensures After(avg, xs) == Decay(|xs|) * avg + Weighted(xs)
  {
    if xs != [] {
      var ys, x := xs[..|xs| - 1], xs[|xs| - 1];
      ClosedForm(avg, ys);
      assert Weighted(xs) == 0.95 * Weighted(ys) + 0.05 * x by {
        assert xs == ys + [x];
        WeightedSnoc(ys, x);
      }
      assert After(avg, xs) == 0.95 * After(avg, ys) + 0.05 * x;
      DecayTimes(|ys|, avg);
    }
  }

  lemma {:induction false} DecayTimes(n: nat, v: real)
    ensures Decay(n + 1) * v == 0.95 * (Decay(n) * v)
  {
    var d := Decay(n);
    assert (0.95 * d) * v == 0.95 * (d * v);
  }

  function Reals(raws: seq<nat>): (xs: seq<real>)
    ensures |xs| == |raws| && forall i :: 0 <= i < |raws| ==> xs[i] == raws[i] as real
  {
    seq(|raws|, i requires 0 <= i < |raws| => raws[i] as real)
  }

  lemma {:induction false} WeightedLast(xs: seq<real>)
    requires xs != []
    ensures var n := |xs| - 1; Weighted(xs) == 0.95 * Weighted(xs[..n]) + 0.05 * xs[n]
  {
    var n := |xs| - 1;
    assert xs == xs[..n] + [xs[n]];
    WeightedSnoc(xs[..n], xs[n]);
  }

  /** Each reading is a linear function of its count. */
  ghost predicate Linear(raws: seq<real>, xs: seq<real>, slope: real, yint: real) {
    |xs| == |raws| && forall i :: 0 <= i < |raws| ==> xs[i] == slope * raws[i] + yint
  }

  /** The weights of n readings and of the start add up to one. */
  lemma {:induction false} WeightedLinear(raws: seq<real>, xs: seq<real>, slope: real, yint: real)
    requires Linear(raws, xs, slope, yint)
    ensures Weighted(xs) == slope * Weighted(raws) + yint * (1.0 - Decay(|raws|))
  {
    if raws != [] {
      var n := |raws| - 1;
      assert Linear(raws[..n], xs[..n], slope, yint) && xs[n] == slope * raws[n] + yint;
      WeightedLinear(raws[..n], xs[..n], slope, yint);
      WeightedLast(raws);
      WeightedLast(xs);
      LinearStep(slope, yint, Weighted(raws[..n]), Decay(n), raws[n]);
    }
  }

  lemma {:induction false} LinearStep(slope: real, yint: real, w: real, d: real, raw: real)
    ensures 0.95 * (slope * w + yint * (1.0 - d)) + 0.05 * (slope * raw + yint)
            == slope * (0.95 * w + 0.05 * raw) + yint * (1.0 - 0.95 * d)
  {
    assert slope * (0.95 * w + 0.05 * raw) == 0.95 * (slope * w) + 0.05 * (slope * raw);
    assert yint * (1.0 - 0.95 * d) == yint - 0.95 * (yint * d) && yint * (1.0 - d) == yint - yint * d;
  }

  /** The running average of the calibrated values of raw counts. */
  function AverageOfCounts(start: real, slope: real, yint: real, raws: seq<nat>): real {
    var d := Decay(|raws|);
    d * start + (slope * Weighted(Reals(raws)) + yint * (1.0 - d))
  }

  /** The average in terms of the raw counts behind the readings. */
  lemma {:induction false} AfterRawCounts(avg: real, raws: seq<nat>, xs: seq<real>, slope: real, yint: real)
    requires Linear(Reals(raws), xs, slope, yint)
    ensures After(avg, xs) == AverageOfCounts(avg, slope, yint, raws)
  {
    ClosedForm(avg, xs);
    WeightedLinear(Reals(raws), xs, slope, yint);
  }

  /** Bernoulli: 0.95^n is at most 19 / (19 + n). */
  lemma {:induction false} DecayBound(n: nat)
    ensures Decay(n) * (19.0 + n as real) <= 19.0
  {
    if n > 0 {
      DecayBound(n - 1);
      var m := (n - 1) as real;
      var d := Decay(n - 1);
      assert (19.0 + n as real) == 19.0 + m + 1.0;
      assert 0.95 * (19.0 + m + 1.0) <= 19.0 + m;
      assert d * (0.95 * (19.0 + m + 1.0)) <= d * (19.0 + m);
    }
  }

  /** Readings at most hi pull the average towards hi from above at the decay rate. */
  lemma {:induction false} PulledDown(avg: real, xs: seq<real>, hi: real)
    requires AllAtMost(xs, hi)
    ensures After(avg, xs) - hi <= Decay(|xs|) * (avg - hi)
  {
    if xs != [] {
      var ys := xs[..|xs| - 1];
      PulledDown(avg, ys, hi);
      assert 0.95 * (After(avg, ys) - hi) <= 0.95 * (Decay(|ys|) * (avg - hi));
    }
  }

  /** The mirror image: every average, reading and bound negated. */
  lemma {:induction false} Mirror(avg: real, xs: seq<real>, negated: seq<real>)
    requires |negated| == |xs| && forall i :: 0 <= i < |xs| ==> negated[i] == -xs[i]
    ensures After(-avg, negated) == -After(avg, xs)
  {
    if xs != [] {
      Mirror(avg, xs[..|xs| - 1], negated[..|xs| - 1]);
    }
  }

  lemma {:induction false} Scale(p: real, x: real, y: real)
    requires p > 0.0
    ensures x <= y ==> p * x <= p * y
    ensures x < y ==> p * x < p * y
  {
    if x < y {
      assert p * (y - x) > 0.0;
    }
  }

  lemma {:induction false} DecayedBelow(p: real, e: real, m: real, d: real)
    requires p > 0.0 && d > 0.0 && p * m <= 19.0 && 19.0 * e < m * d
    ensures p * e < d
  {
    Scale(p, 19.0 * e, m * d);
    Scale(d, p * m, 19.0);
    calc {
      19.0 * (p * e);
      p * (19.0 * e);
    <
      p * (m * d);
      d * (p * m);
    <=
      d * 19.0;
    }
  }

  /** Readings at least d below pMin bring the average below pMin after more than 19 (avg - pMin) / d of them. */
  lemma {:induction false} TripsLow(avg: real, xs: seq<real>, pMin: real, d: real)
    requires d > 0.0 && AllAtMost(xs, pMin - d)
    requires |xs| as real * d > 19.0 * (avg - pMin)
    ensures After(avg, xs) < pMin
  {
    PulledDown(avg, xs, pMin - d);
    DecayBound(|xs|);
    DecayedBelow(Decay(|xs|), avg - pMin + d, 19.0 + |xs| as real, d);
  }

  /** The same above pMax. */
  lemma {:induction false} TripsHigh(avg: real, xs: seq<real>, pMax: real, d: real)
    requires d > 0.0 && AllAtLeast(xs, pMax + d)
    requires |xs| as real * d > 19.0 * (pMax - avg)
    ensures After(avg, xs) > pMax
  {
    var negated := seq(|xs|, i requires 0 <= i < |xs| => -xs[i]);
    Mirror(avg, xs, negated);
    TripsLow(-avg, negated, -pMax, d);
  }

  /** Readings inside a band keep the average inside the band. */
  lemma {:induction false} StaysInBand(avg: real, xs: seq<real>, lo: real, hi: real)
    requires lo <= avg <= hi && AllIn(xs, lo, hi)
    ensures lo <= After(avg, xs) <= hi
  {
    if xs != [] {
      StaysInBand(avg, xs[..|xs| - 1], lo, hi);
    }
  }

  /** Once below pMin the average stays there while readings do not exceed pMin. */
  lemma {:induction false} StaysBelow(avg: real, xs: seq<real>, pMin: real)
    requires avg < pMin && AllAtMost(xs, pMin)
    ensures After(avg, xs) < pMin
  {
    if xs != [] {
      StaysBelow(avg, xs[..|xs| - 1], pMin);
    }
  }
}
