/**
 * The lock-free latency histogram (src/runtime_profile.rs). Every atomic access of
 * every recorder is one step of a state machine, so a list of steps is one interleaving.
 */
module Profile {
  /** The number of values of a 64-bit counter; additions wrap around at it. */
  const U64: nat := 0x1_0000_0000_0000_0000

  /** Upper bounds of the buckets, in microseconds. */
  const BUCKETS: seq<nat> := [
    10, 25, 50, 75, 100, 150, 200, 300, 500, 750, 1_000, 1_500, 2_000, 3_000, 5_000, 10_000, 25_000, U64 - 1]

  /** Where a recorder is: the atomic accesses of `record`, in order. */
  datatype Phase =
    | Entered
    | Counted
    | Totalled
    /** In the compare-exchange loop, having last read the maximum's `seen`-th value. */
    | Comparing(seen: nat)
    | Raised
    | Recorded

  datatype Recorder = Recorder(sample: nat, at: Phase)

  /**
   * `history` lists every value the maximum has held, the present one last. Relaxed
   * reads may return an old value, but never one older than the thread has seen.
   */
  datatype Stats = Stats(
    count: nat, total: nat, history: seq<nat>, buckets: seq<nat>, recorders: seq<Recorder>)
  {
    predicate Sized() { |history| > 0 && |buckets| == |BUCKETS| }

    function Max(): nat
      requires Sized()
    {
      history[|history| - 1]
    }

    predicate Quiescent() { forall i :: 0 <= i < |recorders| ==> recorders[i].at.Recorded? }

    function Samples(): (r: seq<nat>)
      ensures |r| == |recorders| && forall i :: 0 <= i < |r| ==> r[i] == recorders[i].sample
    {
      seq(|recorders|, i requires 0 <= i < |recorders| => recorders[i].sample)
    }

    function At(i: nat, phase: Phase): Stats
      requires i < |recorders|
    {
      this.(recorders := recorders[i := recorders[i].(at := phase)])
    }
  }

  /** The counters before anything is recorded. */
  function Empty(): (s: Stats)
    ensures Inv(s) && s.recorders == [] && s.Max() == 0
  {
    Stats(0, 0, [0], seq(|BUCKETS|, _ => 0), [])
  }

  /** A new call of `record`, or one atomic access by recorder `i`. */
  datatype Step =
    | Enter(micros: nat)
    | Advance(i: nat, read: nat, spurious: bool)

  /** The value a relaxed read returns: any one not older than `since`. */
  function ReadIndex(history: seq<nat>, since: nat, read: nat): (k: nat)
    requires since < |history|
    ensures since <= k < |history|
  {
    if since <= read < |history| then read else |history| - 1
  }

  /** The least bucket that admits `micros`; the last one admits every 64-bit value. */
  function BucketIndex(micros: nat): (k: nat)
    ensures k < |BUCKETS|
  {
    FirstBucket(micros, BUCKETS)
  }

  function FirstBucket(micros: nat, bounds: seq<nat>): (k: nat)
    requires bounds != []
    ensures k < |bounds|
  {
    if micros <= bounds[0] || |bounds| == 1 then 0 else 1 + FirstBucket(micros, bounds[1..])
  }

  lemma {:induction false} FirstBucketLeast(micros: nat, bounds: seq<nat>)
    requires bounds != []
    ensures var k := FirstBucket(micros, bounds);
            && (micros <= bounds[|bounds| - 1] ==> micros <= bounds[k])
            && forall j :: 0 <= j < k ==> bounds[j] < micros
  {
    if micros > bounds[0] && |bounds| > 1 {
      FirstBucketLeast(micros, bounds[1..]);
      assert forall j :: 1 <= j < |bounds| ==> bounds[j] == bounds[1..][j - 1];
    }
  }

  lemma BucketLeast(micros: nat)
    ensures var k := BucketIndex(micros);
            && (micros < U64 ==> micros <= BUCKETS[k])
            && forall j :: 0 <= j < k ==> BUCKETS[j] < micros
  {
    FirstBucketLeast(micros, BUCKETS);
  }

  function Next(s: Stats, step: Step): (r: Stats)
    requires Inv(s)
  {
    match step
    case Enter(micros) =>
      s.(recorders := s.recorders + [Recorder(if micros < U64 then micros else U64 - 1, Entered)])
    case Advance(i, read, spurious) =>
      if i < |s.recorders| then Access(s, i, read, spurious) else s
  }

  function Access(s: Stats, i: nat, read: nat, spurious: bool): Stats
    requires Inv(s) && i < |s.recorders|
  {
    var sample := s.recorders[i].sample;
    match s.recorders[i].at
    case Entered => s.(count := (s.count + 1) % U64).At(i, Counted)
    case Counted => s.(total := (s.total + sample) % U64).At(i, Totalled)
    case Totalled => s.At(i, Comparing(ReadIndex(s.history, 0, read)))
    case Comparing(seen) =>
      if sample <= s.history[seen] then s.At(i, Raised)
      else if seen == |s.history| - 1 && !spurious then s.(history := s.history + [sample]).At(i, Raised)
      else s.At(i, Comparing(ReadIndex(s.history, seen, read)))
    case Raised =>
      var k := BucketIndex(sample);
      s.(buckets := s.buckets[k := (s.buckets[k] + 1) % U64]).At(i, Recorded)
    case Recorded => s
  }

  // ---- sums over recorders ----

  function Sum(rs: seq<Recorder>, f: Recorder -> nat): nat {
    if rs == [] then 0 else Sum(rs[..|rs| - 1], f) + f(rs[|rs| - 1])
  }

  lemma {:induction false} SumAfterUpdate(rs: seq<Recorder>, f: Recorder -> nat, i: nat, r: Recorder)
    requires i < |rs|
    ensures Sum(rs[i := r], f) + f(rs[i]) == Sum(rs, f) + f(r)
  {
    var last := |rs| - 1;
    if i < last {
      SumAfterUpdate(rs[..last], f, i, r);
      assert rs[i := r][..last] == rs[..last][i := r];
    } else {
      assert rs[i := r][..last] == rs[..last];
    }
  }

  lemma SumAfterPush(rs: seq<Recorder>, f: Recorder -> nat, r: Recorder)
    ensures Sum(rs + [r], f) == Sum(rs, f) + f(r)
  {
    assert (rs + [r])[..|rs|] == rs;
  }

  function Arrivals(): Recorder -> nat { (r: Recorder) => if r.at.Entered? then 0 else 1 }

  function Times(): Recorder -> nat {
    (r: Recorder) => if r.at.Entered? || r.at.Counted? then 0 else r.sample
  }

  function Hits(k: nat): Recorder -> nat {
    (r: Recorder) => if r.at.Recorded? && BucketIndex(r.sample) == k then 1 else 0
  }

  // ---- the invariant of every interleaving ----

  predicate Inv(s: Stats) {
    && s.Sized() && s.history[0] == 0
    && (forall j, k :: 0 <= j < k < |s.history| ==> s.history[j] < s.history[k])
    && (forall i :: 0 <= i < |s.recorders| ==> RecorderInv(s, s.recorders[i]))
    && (forall k :: 1 <= k < |s.history| ==> Held(s.recorders, s.history[k]))
    && CountersInv(s)
  }

  predicate RecorderInv(s: Stats, r: Recorder)
    requires s.Sized()
  {
    && r.sample < U64
    && (r.at.Comparing? ==> r.at.seen < |s.history|)
    && (r.at.Raised? || r.at.Recorded? ==> r.sample <= s.Max())
  }

  predicate Held(rs: seq<Recorder>, v: nat) { exists i :: 0 <= i < |rs| && rs[i].sample == v }

  predicate CountersInv(s: Stats)
    requires s.Sized()
  {
    && s.count == Sum(s.recorders, Arrivals()) % U64
    && s.total == Sum(s.recorders, Times()) % U64
    && forall k :: 0 <= k < |BUCKETS| ==> s.buckets[k] == Sum(s.recorders, Hits(k)) % U64
  }

  lemma HeldAfterMove(rs: seq<Recorder>, i: nat, phase: Phase, v: nat)
    requires i < |rs| && Held(rs, v)
    ensures Held(rs[i := rs[i].(at := phase)], v)
  {
    var j :| 0 <= j < |rs| && rs[j].sample == v;
    assert rs[i := rs[i].(at := phase)][j].sample == v;
  }

  /** Moving recorder `i` to `phase` keeps everything but the counters. */
  lemma MoveKeeps(s: Stats, i: nat, phase: Phase)
    requires Inv(s) && i < |s.recorders| && RecorderInv(s, s.recorders[i].(at := phase))
    ensures forall j :: 0 <= j < |s.recorders| ==> RecorderInv(s.At(i, phase), s.At(i, phase).recorders[j])
    ensures forall k :: 1 <= k < |s.history| ==> Held(s.At(i, phase).recorders, s.history[k])
  {
    forall k | 1 <= k < |s.history| ensures Held(s.At(i, phase).recorders, s.history[k]) {
      HeldAfterMove(s.recorders, i, phase, s.history[k]);
    }
  }

  /** What a move does to the three kinds of sums. */
  lemma MoveCounts(s: Stats, i: nat, phase: Phase)
    requires Inv(s) && i < |s.recorders|
    ensures var r, q := s.recorders[i], s.recorders[i].(at := phase);
            && Sum(s.At(i, phase).recorders, Arrivals()) + Arrivals()(r) == Sum(s.recorders, Arrivals()) + Arrivals()(q)
            && Sum(s.At(i, phase).recorders, Times()) + Times()(r) == Sum(s.recorders, Times()) + Times()(q)
            && forall k :: 0 <= k < |BUCKETS| ==>
                 Sum(s.At(i, phase).recorders, Hits(k)) + Hits(k)(r) == Sum(s.recorders, Hits(k)) + Hits(k)(q)
  {
    var r, q := s.recorders[i], s.recorders[i].(at := phase);
    SumAfterUpdate(s.recorders, Arrivals(), i, q);
    SumAfterUpdate(s.recorders, Times(), i, q);
    forall k | 0 <= k < |BUCKETS|
      ensures Sum(s.At(i, phase).recorders, Hits(k)) + Hits(k)(r) == Sum(s.recorders, Hits(k)) + Hits(k)(q)
    {
      SumAfterUpdate(s.recorders, Hits(k), i, q);
    }
  }

  lemma Fits(n: nat)
    requires n < U64
    ensures n % U64 == n
  {
  }

  lemma WrapAdd(a: nat, b: nat)
    ensures (a % U64 + b) % U64 == (a + b) % U64
  {
    assert a + b == a % U64 + b + (a / U64) * U64;
    ModShift(a % U64 + b, a / U64);
  }

  lemma {:induction false} ModShift(x: nat, k: nat)
    ensures (x + k * U64) % U64 == x % U64
  {
    if k > 0 {
      ModShift(x, k - 1);
      assert x + k * U64 == (x + (k - 1) * U64) + U64;
    }
  }

  lemma EnterKeepsInv(s: Stats, micros: nat)
    requires Inv(s)
    ensures Inv(Next(s, Enter(micros)))
  {
    var r := Recorder(if micros < U64 then micros else U64 - 1, Entered);
    var t := Next(s, Enter(micros));
    SumAfterPush(s.recorders, Arrivals(), r);
    SumAfterPush(s.recorders, Times(), r);
    forall k | 0 <= k < |BUCKETS| ensures t.buckets[k] == Sum(t.recorders, Hits(k)) % U64 {
      SumAfterPush(s.recorders, Hits(k), r);
    }
    forall k | 1 <= k < |t.history| ensures Held(t.recorders, t.history[k]) {
      assert Held(s.recorders, s.history[k]);
      var i :| 0 <= i < |s.recorders| && s.recorders[i].sample == s.history[k];
      assert t.recorders[i].sample == t.history[k];
    }
  }

  /** A step of the maximum's compare-exchange loop that leaves the maximum alone. */
  lemma QuietKeepsInv(s: Stats, i: nat, phase: Phase)
    requires Inv(s) && i < |s.recorders| && RecorderInv(s, s.recorders[i].(at := phase))
    requires s.recorders[i].at.Totalled? || s.recorders[i].at.Comparing?
    requires phase.Comparing? || phase.Raised?
    ensures Inv(s.At(i, phase))
  {
    MoveKeeps(s, i, phase);
    MoveCounts(s, i, phase);
  }

  /** A successful compare-exchange. */
  lemma RaiseKeepsInv(s: Stats, i: nat)
    requires Inv(s) && i < |s.recorders| && s.recorders[i].at.Comparing? && s.Max() < s.recorders[i].sample
    ensures Inv(s.(history := s.history + [s.recorders[i].sample]).At(i, Raised))
  {
    var t := s.(history := s.history + [s.recorders[i].sample]).At(i, Raised);
    MoveCounts(s, i, Raised);
    forall k | 1 <= k < |t.history| ensures Held(t.recorders, t.history[k]) {
      if k < |s.history| {
        HeldAfterMove(s.recorders, i, Raised, s.history[k]);
      } else {
        assert t.recorders[i].sample == t.history[k];
      }
    }
    forall j | 0 <= j < |t.recorders| ensures RecorderInv(t, t.recorders[j]) {
      assert RecorderInv(s, s.recorders[j]);
    }
  }

  lemma CountKeepsInv(s: Stats, i: nat)
    requires Inv(s) && i < |s.recorders| && s.recorders[i].at.Entered?
    ensures Inv(s.(count := (s.count + 1) % U64).At(i, Counted))
  {
    MoveCounts(s, i, Counted);
    WrapAdd(Sum(s.recorders, Arrivals()), 1);
    MoveInv(s, s.(count := (s.count + 1) % U64), i, Counted);
  }

  lemma TotalKeepsInv(s: Stats, i: nat)
    requires Inv(s) && i < |s.recorders| && s.recorders[i].at.Counted?
    ensures Inv(s.(total := (s.total + s.recorders[i].sample) % U64).At(i, Totalled))
  {
    MoveCounts(s, i, Totalled);
    WrapAdd(Sum(s.recorders, Times()), s.recorders[i].sample);
    MoveInv(s, s.(total := (s.total + s.recorders[i].sample) % U64), i, Totalled);
  }

  lemma BucketKeepsInv(s: Stats, i: nat)
    requires Inv(s) && i < |s.recorders| && s.recorders[i].at.Raised?
    ensures var k := BucketIndex(s.recorders[i].sample);
            Inv(s.(buckets := s.buckets[k := (s.buckets[k] + 1) % U64]).At(i, Recorded))
  {
    var k := BucketIndex(s.recorders[i].sample);
    BucketCounters(s, i);
    MoveInv(s, s.(buckets := s.buckets[k := (s.buckets[k] + 1) % U64]), i, Recorded);
  }

  lemma BucketCounters(s: Stats, i: nat)
    requires Inv(s) && i < |s.recorders| && s.recorders[i].at.Raised?
    ensures var k := BucketIndex(s.recorders[i].sample);
            CountersInv(s.(buckets := s.buckets[k := (s.buckets[k] + 1) % U64]).At(i, Recorded))
  {
    var k := BucketIndex(s.recorders[i].sample);
    var t := s.(buckets := s.buckets[k := (s.buckets[k] + 1) % U64]).At(i, Recorded);
    MoveCounts(s, i, Recorded);
    WrapAdd(Sum(s.recorders, Hits(k)), 1);
    forall j | 0 <= j < |BUCKETS| ensures t.buckets[j] == Sum(t.recorders, Hits(j)) % U64 {
      assert Hits(j)(s.recorders[i]) == 0;
      assert Hits(j)(s.recorders[i].(at := Recorded)) == if j == k then 1 else 0;
      assert t.buckets[j] == if j == k then (s.buckets[k] + 1) % U64 else s.buckets[j];
    }
  }

  /** The invariant after a move that may also have changed a counter. */
  lemma MoveInv(s: Stats, t: Stats, i: nat, phase: Phase)
    requires Inv(s) && i < |s.recorders| && RecorderInv(s, s.recorders[i].(at := phase))
    requires t.Sized() && t.history == s.history && t.recorders == s.recorders
    requires CountersInv(t.At(i, phase))
    ensures Inv(t.At(i, phase))
  {
    MoveKeeps(s, i, phase);
  }

  lemma StepKeepsInv(s: Stats, step: Step)
    requires Inv(s)
    ensures Inv(Next(s, step)) && s.history <= Next(s, step).history
  {
    match step
    case Enter(micros) => EnterKeepsInv(s, micros);
    case Advance(i, read, spurious) =>
      if i < |s.recorders| {
        AccessKeepsInv(s, i, read, spurious);
      }
  }

  lemma AccessKeepsInv(s: Stats, i: nat, read: nat, spurious: bool)
    requires Inv(s) && i < |s.recorders|
    ensures Inv(Access(s, i, read, spurious)) && s.history <= Access(s, i, read, spurious).history
  {
    var r := s.recorders[i];
    assert RecorderInv(s, r);
    match r.at
    case Entered => CountKeepsInv(s, i);
    case Counted => TotalKeepsInv(s, i);
    case Totalled => QuietKeepsInv(s, i, Comparing(ReadIndex(s.history, 0, read)));
    case Comparing(_) => CompareKeepsInv(s, i, read, spurious);
    case Raised => BucketKeepsInv(s, i);
    case Recorded =>
  }

  lemma CompareKeepsInv(s: Stats, i: nat, read: nat, spurious: bool)
    requires Inv(s) && i < |s.recorders| && s.recorders[i].at.Comparing?
    ensures Inv(Access(s, i, read, spurious)) && s.history <= Access(s, i, read, spurious).history
  {
    var r := s.recorders[i];
    assert RecorderInv(s, r);
    var seen := r.at.seen;
    assert s.history[seen] <= s.Max();
    if r.sample <= s.history[seen] {
      QuietKeepsInv(s, i, Raised);
    } else if seen == |s.history| - 1 && !spurious {
      RaiseKeepsInv(s, i);
    } else {
      QuietKeepsInv(s, i, Comparing(ReadIndex(s.history, seen, read)));
    }
  }

  // ---- whole runs ----

  /** The states a run goes through are all reached by `Next`; here is the last one. */
  ghost function Run(s: Stats, steps: seq<Step>): (r: Stats)
    requires Inv(s)
    ensures Inv(r) && s.history <= r.history
    decreases |steps|
  {
    if steps == [] then s else
      StepKeepsInv(s, steps[0]);
      Run(Next(s, steps[0]), steps[1..])
  }

  /** However recorders interleave, the recorded maximum never falls. */
  lemma MaxNeverFalls(s: Stats, steps: seq<Step>)
    requires Inv(s)
    ensures s.Max() <= Run(s, steps).Max()
  {
    var t := Run(s, steps);
    assert t.history[|s.history| - 1] == s.Max();
  }

  /** Number of samples that belong to bucket `k`. */
  function Tally(samples: seq<nat>, k: nat): nat {
    if samples == [] then 0
    else Tally(samples[..|samples| - 1], k) + if BucketIndex(samples[|samples| - 1]) == k then 1 else 0
  }

  function Total(samples: seq<nat>): nat {
    if samples == [] then 0 else Total(samples[..|samples| - 1]) + samples[|samples| - 1]
  }

  predicate IsMaximum(samples: seq<nat>, m: nat) {
    (forall x :: x in samples ==> x <= m) && (if samples == [] then m == 0 else m in samples)
  }

  lemma {:induction false} SumsAtRest(rs: seq<Recorder>, samples: seq<nat>, k: nat)
    requires |samples| == |rs|
    requires forall i :: 0 <= i < |rs| ==> rs[i].at.Recorded? && rs[i].sample == samples[i]
    ensures Sum(rs, Arrivals()) == |samples| && Sum(rs, Times()) == Total(samples)
    ensures Sum(rs, Hits(k)) == Tally(samples, k)
  {
    if rs != [] {
      SumsAtRest(rs[..|rs| - 1], samples[..|rs| - 1], k);
    }
  }

  /**
   * Once every recorder is done, whatever the interleaving: the maximum is the greatest
   * sample, and every counter holds its exact value, reduced to 64 bits.
   */
  lemma ExactAtRest(steps: seq<Step>)
    requires Run(Empty(), steps).Quiescent()
    ensures var t := Run(Empty(), steps);
            && IsMaximum(t.Samples(), t.Max())
            && t.count == |t.Samples()| % U64
            && t.total == Total(t.Samples()) % U64
            && forall k :: 0 <= k < |BUCKETS| ==> t.buckets[k] == Tally(t.Samples(), k) % U64
  {
    var t := Run(Empty(), steps);
    SumsAtRest(t.recorders, t.Samples(), 0);
    forall k | 0 <= k < |BUCKETS| ensures t.buckets[k] == Tally(t.Samples(), k) % U64 {
      SumsAtRest(t.recorders, t.Samples(), k);
    }
    MaximumAtRest(t);
  }

  lemma MaximumAtRest(t: Stats)
    requires Inv(t) && t.Quiescent()
    ensures IsMaximum(t.Samples(), t.Max())
  {
    var samples := t.Samples();
    forall x | x in samples ensures x <= t.Max() {
      var i :| 0 <= i < |samples| && samples[i] == x;
      assert RecorderInv(t, t.recorders[i]);
    }
    if |t.history| > 1 {
      assert Held(t.recorders, t.Max());
      var i :| 0 <= i < |t.recorders| && t.recorders[i].sample == t.Max();
      assert samples[i] == t.Max();
    } else if samples != [] {
      assert samples[0] in samples;
    }
  }

  /** Sum of the first `n` counters. */
  function Below(buckets: seq<nat>, n: nat): nat
    requires n <= |buckets|
  {
    if n == 0 then 0 else Below(buckets, n - 1) + buckets[n - 1]
  }

  /** Number of samples not above `x`. */
  function AtMost(samples: seq<nat>, x: nat): (r: nat)
    ensures r <= |samples|
  {
    if samples == [] then 0
    else AtMost(samples[..|samples| - 1], x) + if samples[|samples| - 1] <= x then 1 else 0
  }

  /** The exact counters of `samples`. */
  predicate Tallies(samples: seq<nat>, buckets: seq<nat>) {
    && |buckets| == |BUCKETS| && (forall x :: x in samples ==> x < U64)
    && forall k :: 0 <= k < |BUCKETS| ==> buckets[k] == Tally(samples, k)
  }

  lemma BucketsRise(j: nat, k: nat)
    requires j < k < |BUCKETS|
    ensures BUCKETS[j] < BUCKETS[k]
  {
  }

  lemma InBucket(x: nat, k: nat)
    requires x < U64 && k < |BUCKETS|
    ensures BucketIndex(x) <= k <==> x <= BUCKETS[k]
  {
    BucketLeast(x);
    var b := BucketIndex(x);
    if b < k {
      BucketsRise(b, k);
    }
  }

  function TallyBelow(samples: seq<nat>, n: nat): nat {
    if n == 0 then 0 else TallyBelow(samples, n - 1) + Tally(samples, n - 1)
  }

  lemma {:induction false} TallyBelowPush(samples: seq<nat>, n: nat)
    requires samples != []
    ensures TallyBelow(samples, n) == TallyBelow(samples[..|samples| - 1], n)
                                      + if BucketIndex(samples[|samples| - 1]) < n then 1 else 0
  {
    if n > 0 {
      TallyBelowPush(samples, n - 1);
      TallyPush(samples, n - 1);
    }
  }

  lemma TallyPush(samples: seq<nat>, k: nat)
    requires samples != []
    ensures Tally(samples, k) == Tally(samples[..|samples| - 1], k)
                                 + if BucketIndex(samples[|samples| - 1]) == k then 1 else 0
  {
  }

  /** The first `k + 1` buckets hold exactly the samples up to bound `k`. */
  lemma {:induction false} TallyBelowIsAtMost(samples: seq<nat>, k: nat)
    requires k < |BUCKETS| && forall x :: x in samples ==> x < U64
    ensures TallyBelow(samples, k + 1) == AtMost(samples, BUCKETS[k])
  {
    if samples == [] {
      NothingBelow(k + 1);
    } else {
      var last := |samples| - 1;
      assert samples[last] in samples;
      forall x | x in samples[..last] ensures x < U64 {
        assert x in samples;
      }
      TallyBelowIsAtMost(samples[..last], k);
      TallyBelowPush(samples, k + 1);
      InBucket(samples[last], k);
    }
  }

  lemma {:induction false} NothingBelow(n: nat)
    ensures TallyBelow([], n) == 0
  {
    if n > 0 {
      NothingBelow(n - 1);
    }
  }

  lemma {:induction false} BelowIsTallyBelow(samples: seq<nat>, buckets: seq<nat>, n: nat)
    requires Tallies(samples, buckets) && n <= |BUCKETS|
    ensures Below(buckets, n) == TallyBelow(samples, n)
  {
    if n > 0 {
      BelowIsTallyBelow(samples, buckets, n - 1);
    }
  }

  lemma {:induction false} AllAtMost(samples: seq<nat>, x: nat)
    requires forall y :: y in samples ==> y <= x
    ensures AtMost(samples, x) == |samples|
  {
    if samples != [] {
      var last := |samples| - 1;
      assert samples[last] in samples;
      forall y | y in samples[..last] ensures y <= x {
        assert y in samples;
      }
      AllAtMost(samples[..last], x);
    }
  }

  /** The bucket counters together count every sample once. */
  lemma BucketsSumToCount(samples: seq<nat>, buckets: seq<nat>)
    requires Tallies(samples, buckets)
    ensures Below(buckets, |BUCKETS|) == |samples|
  {
    BelowIsTallyBelow(samples, buckets, |BUCKETS|);
    TallyBelowIsAtMost(samples, |BUCKETS| - 1);
    AllAtMost(samples, BUCKETS[|BUCKETS| - 1]);
  }

  /** A bucket never counts more than there are samples. */
  lemma {:induction false} TallyBounded(samples: seq<nat>, k: nat)
    ensures Tally(samples, k) <= |samples|
  {
    if samples != [] {
      TallyBounded(samples[..|samples| - 1], k);
    }
  }

  lemma NotWrapped(samples: seq<nat>, k: nat)
    requires |samples| < U64
    ensures Tally(samples, k) % U64 == Tally(samples, k)
  {
    TallyBounded(samples, k);
    Fits(Tally(samples, k));
  }

  lemma SamplesFit(t: Stats)
    requires Inv(t)
    ensures forall x :: x in t.Samples() ==> x < U64
  {
    var samples := t.Samples();
    forall x | x in samples ensures x < U64 {
      var i :| 0 <= i < |samples| && samples[i] == x;
      assert RecorderInv(t, t.recorders[i]);
    }
  }

  /** At rest the buckets sum to the count, unless the count itself has wrapped. */
  lemma ConservedAtRest(steps: seq<Step>)
    requires Run(Empty(), steps).Quiescent() && |Run(Empty(), steps).recorders| < U64
    ensures var t := Run(Empty(), steps);
            && Tallies(t.Samples(), t.buckets) && t.count == |t.Samples()|
            && Below(t.buckets, |BUCKETS|) == t.count
  {
    var t := Run(Empty(), steps);
    var samples, buckets := t.Samples(), t.buckets;
    ExactAtRest(steps);
    Fits(|samples|);
    SamplesFit(t);
    Conserved(samples, buckets);
  }

  lemma Conserved(samples: seq<nat>, buckets: seq<nat>)
    requires |samples| < U64 && |buckets| == |BUCKETS| && forall x :: x in samples ==> x < U64
    requires forall k :: 0 <= k < |BUCKETS| ==> buckets[k] == Tally(samples, k) % U64
    ensures Tallies(samples, buckets) && Below(buckets, |BUCKETS|) == |samples|
  {
    forall k | 0 <= k < |BUCKETS| ensures buckets[k] == Tally(samples, k) {
      NotWrapped(samples, k);
    }
    BucketsSumToCount(samples, buckets);
  }
}
