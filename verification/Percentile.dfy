/**
 * Percentiles read off the histogram (src/runtime_profile.rs): what the answer says
 * about the recorded samples.
 */
module Percentile {
  import opened Profile

  /** The rank that is looked for; the product wraps, the addition saturates. */
  function Target(count: nat, p: nat): (t: nat)
    ensures t >= 1
  {
    TargetOf(count * p % U64)
  }

  function TargetOf(product: nat): (t: nat)
    ensures t >= 1
  {
    var t := (if product + 99 < U64 then product + 99 else U64 - 1) / 100;
    if t < 1 then 1 else t
  }

  /** The rank of the `p`-th percentile among `count` samples. */
  function Rank(count: nat, p: nat): (t: nat)
    ensures t >= 1
  {
    var t := (count * p + 99) / 100;
    if t < 1 then 1 else t
  }

  /** First bucket at which the counters, added up from `k`, reach the target. */
  function Reaches(buckets: seq<nat>, target: nat, k: nat, seen: nat): (r: nat)
    requires k <= |buckets| == |BUCKETS|
    ensures r < |BUCKETS|
    decreases |BUCKETS| - k
  {
    if k == |BUCKETS| then |BUCKETS| - 1
    else if (seen + buckets[k]) % U64 >= target then k
    else Reaches(buckets, target, k + 1, (seen + buckets[k]) % U64)
  }

  function PercentileOf(buckets: seq<nat>, count: nat, p: nat): nat
    requires |buckets| == |BUCKETS|
  {
    if count == 0 then 0 else BUCKETS[Reaches(buckets, Target(count, p), 0, 0)]
  }

  method PercentileFrom(buckets: seq<nat>, count: nat, p: nat) returns (r: nat)
    requires |buckets| == |BUCKETS|
    ensures r == PercentileOf(buckets, count, p)
  {
    if count == 0 {
      return 0;
    }
    var target := Target(count, p);
    var seen: nat := 0;
    var k: nat := 0;
    while k < |BUCKETS|
      invariant 0 <= k <= |BUCKETS|
      invariant Reaches(buckets, target, k, seen) == Reaches(buckets, target, 0, 0)
    {
      seen := (seen + buckets[k]) % U64;
      if seen >= target {
        return BUCKETS[k];
      }
      k := k + 1;
    }
    r := BUCKETS[|BUCKETS| - 1];
  }

  /** The rank is exact up to where the addition saturates, and never beyond it. */
  lemma TargetExact(count: nat, p: nat)
    ensures Target(count, p) == Rank(count, p) <==> count * p <= U64 - 16
  {
    if count * p < U64 {
      Fits(count * p);
    } else {
      TargetOfMonotone(count * p % U64, U64 - 1);
    }
  }

  lemma TargetOfMonotone(x: nat, y: nat)
    requires x <= y
    ensures TargetOf(x) <= TargetOf(y)
  {
  }

  lemma TargetMonotone(count: nat, p: nat, q: nat)
    requires p <= q && count * q < U64
    ensures Target(count, p) <= Target(count, q)
  {
    ProductMonotone(count, p, q);
    Fits(count * p);
    Fits(count * q);
    TargetOfMonotone(count * p, count * q);
  }

  lemma ProductMonotone(count: nat, p: nat, q: nat)
    requires p <= q
    ensures count * p <= count * q
  {
    assert count * q == count * p + count * (q - p);
  }

  lemma {:induction false} BelowMonotone(buckets: seq<nat>, j: nat, k: nat)
    requires j <= k <= |buckets|
    ensures Below(buckets, j) <= Below(buckets, k)
  {
    if j < k {
      BelowMonotone(buckets, j, k - 1);
    }
  }

  /** The bucket found is the least one up to which the counters reach the target. */
  lemma {:induction false} ReachesIsLeast(buckets: seq<nat>, target: nat, k: nat)
    requires k <= |buckets| == |BUCKETS| && Below(buckets, |BUCKETS|) < U64
    requires forall j :: 1 <= j <= k ==> Below(buckets, j) < target
    ensures var r := Reaches(buckets, target, k, Below(buckets, k));
            && (forall j :: 1 <= j <= r ==> Below(buckets, j) < target)
            && (target <= Below(buckets, |BUCKETS|) ==> Below(buckets, r + 1) >= target)
    decreases |BUCKETS| - k
  {
    if k < |BUCKETS| {
      ReachesNext(buckets, target, k);
      if Below(buckets, k + 1) < target {
        ReachesIsLeast(buckets, target, k + 1);
      }
    }
  }

  lemma ReachesNext(buckets: seq<nat>, target: nat, k: nat)
    requires k < |buckets| == |BUCKETS| && Below(buckets, |BUCKETS|) < U64
    ensures Reaches(buckets, target, k, Below(buckets, k)) ==
            if Below(buckets, k + 1) < target then Reaches(buckets, target, k + 1, Below(buckets, k + 1)) else k
  {
    BelowMonotone(buckets, k + 1, |BUCKETS|);
    Fits(Below(buckets, k + 1));
    assert Below(buckets, k) + buckets[k] == Below(buckets, k + 1);
  }

  /** A higher target is reached no earlier. */
  lemma ReachesMonotone(buckets: seq<nat>, t: nat, u: nat)
    requires |buckets| == |BUCKETS| && Below(buckets, |BUCKETS|) < U64 && t <= u
    ensures Reaches(buckets, t, 0, 0) <= Reaches(buckets, u, 0, 0)
  {
    ReachesIsLeast(buckets, t, 0);
    ReachesIsLeast(buckets, u, 0);
    var r, q := Reaches(buckets, t, 0, 0), Reaches(buckets, u, 0, 0);
    if q < r {
      assert Below(buckets, q + 1) < t;
      if u <= Below(buckets, |BUCKETS|) {
        assert false;
      } else {
        NeverReached(buckets, u, 0);
      }
    }
  }

  lemma {:induction false} NeverReached(buckets: seq<nat>, target: nat, k: nat)
    requires k <= |buckets| == |BUCKETS| && Below(buckets, |BUCKETS|) < U64
    requires target > Below(buckets, |BUCKETS|)
    ensures Reaches(buckets, target, k, Below(buckets, k)) == |BUCKETS| - 1
    decreases |BUCKETS| - k
  {
    if k < |BUCKETS| {
      BelowMonotone(buckets, k + 1, |BUCKETS|);
      ReachesNext(buckets, target, k);
      NeverReached(buckets, target, k + 1);
    }
  }

  lemma BelowIsAtMost(samples: seq<nat>, buckets: seq<nat>, k: nat)
    requires Tallies(samples, buckets) && k < |BUCKETS|
    ensures Below(buckets, k + 1) == AtMost(samples, BUCKETS[k])
  {
    BelowIsTallyBelow(samples, buckets, k + 1);
    TallyBelowIsAtMost(samples, k);
  }

  /** `b` is the least bucket bound that at least `t` samples do not exceed. */
  predicate IsLeastBound(samples: seq<nat>, t: nat, b: nat) {
    && b in BUCKETS && AtMost(samples, b) >= t
    && forall k :: 0 <= k < |BUCKETS| && BUCKETS[k] < b ==> AtMost(samples, BUCKETS[k]) < t
  }

  lemma LeastBound(samples: seq<nat>, buckets: seq<nat>, t: nat)
    requires Tallies(samples, buckets) && |samples| < U64 && t <= |samples|
    ensures IsLeastBound(samples, t, BUCKETS[Reaches(buckets, t, 0, 0)])
  {
    BucketsSumToCount(samples, buckets);
    ReachesIsLeast(buckets, t, 0);
    var r := Reaches(buckets, t, 0, 0);
    BelowIsAtMost(samples, buckets, r);
    forall k | 0 <= k < |BUCKETS| && BUCKETS[k] < BUCKETS[r] ensures AtMost(samples, BUCKETS[k]) < t {
      if r < k {
        BucketsRise(r, k);
      }
      BelowIsAtMost(samples, buckets, k);
    }
  }

  lemma RankBounded(count: nat, p: nat)
    requires count > 0 && p <= 100
    ensures Rank(count, p) <= count
  {
    assert count * p <= count * 100;
  }

  /** The percentile is the least bucket bound that enough samples do not exceed. */
  lemma PercentileCorrect(samples: seq<nat>, buckets: seq<nat>, p: nat)
    requires Tallies(samples, buckets) && 0 < |samples| < U64 && p <= 100
    requires |samples| * p <= U64 - 16
    ensures IsLeastBound(samples, Rank(|samples|, p), PercentileOf(buckets, |samples|, p))
  {
    TargetExact(|samples|, p);
    RankBounded(|samples|, p);
    LeastBound(samples, buckets, Rank(|samples|, p));
  }

  /** Is `x` the sample at rank `t` in ascending order? */
  predicate HasRank(samples: seq<nat>, x: nat, t: nat) {
    x in samples && t <= AtMost(samples, x) && (x > 0 ==> AtMost(samples, x - 1) < t)
  }

  lemma {:induction false} AtMostMonotone(samples: seq<nat>, x: nat, y: nat)
    requires x <= y
    ensures AtMost(samples, x) <= AtMost(samples, y)
  {
    if samples != [] {
      AtMostMonotone(samples[..|samples| - 1], x, y);
    }
  }

  /** The bound that is answered is that of the bucket of the sample at that rank. */
  lemma RankSampleInBucket(samples: seq<nat>, t: nat, b: nat, x: nat)
    requires IsLeastBound(samples, t, b) && HasRank(samples, x, t) && x < U64
    ensures b == BUCKETS[BucketIndex(x)]
  {
    BucketLeast(x);
    var k := BucketIndex(x);
    AtMostMonotone(samples, x, BUCKETS[k]);
    var j :| 0 <= j < |BUCKETS| && BUCKETS[j] == b;
    if j < k {
      AtMostMonotone(samples, b, x - 1);
      assert false;
    }
    if k < j {
      BucketsRise(k, j);
      assert false;
    }
  }

  /** A higher percentile is never a smaller answer. */
  lemma PercentileMonotone(samples: seq<nat>, buckets: seq<nat>, p: nat, q: nat)
    requires Tallies(samples, buckets) && |samples| < U64 && p <= q && |samples| * q < U64
    ensures PercentileOf(buckets, |samples|, p) <= PercentileOf(buckets, |samples|, q)
  {
    if |samples| > 0 {
      TargetMonotone(|samples|, p, q);
      BucketsSumToCount(samples, buckets);
      BoundMonotone(buckets, Target(|samples|, p), Target(|samples|, q));
    }
  }

  lemma BoundMonotone(buckets: seq<nat>, t: nat, u: nat)
    requires |buckets| == |BUCKETS| && Below(buckets, |BUCKETS|) < U64 && t <= u
    ensures BUCKETS[Reaches(buckets, t, 0, 0)] <= BUCKETS[Reaches(buckets, u, 0, 0)]
  {
    ReachesMonotone(buckets, t, u);
    BoundsRise(Reaches(buckets, t, 0, 0), Reaches(buckets, u, 0, 0));
  }

  lemma BoundsRise(j: nat, k: nat)
    requires j <= k < |BUCKETS|
    ensures BUCKETS[j] <= BUCKETS[k]
  {
    if j < k {
      BucketsRise(j, k);
    }
  }

  /** What a summary taken after any interleaving of recorders says. */
  lemma PercentileAtRest(steps: seq<Step>, p: nat)
    requires Run(Empty(), steps).Quiescent() && 0 < |Run(Empty(), steps).recorders| < U64
    requires p <= 100 && |Run(Empty(), steps).recorders| * p <= U64 - 16
    ensures var t := Run(Empty(), steps);
            IsLeastBound(t.Samples(), Rank(|t.Samples()|, p), PercentileOf(t.buckets, t.count, p))
  {
    ConservedAtRest(steps);
    var t := Run(Empty(), steps);
    PercentileCorrect(t.Samples(), t.buckets, p);
  }
}
