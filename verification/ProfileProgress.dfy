/**
 * The recorders are lock-free: apart from reads that bring nothing new (a spurious
 * failure of the weak compare-exchange, or a stale value), the work of `n` recorders is
 * bounded, whatever the interleaving.
 */
module ProfileProgress {
  import opened Profile

  /** Number of samples above `v`. */
  function Above(samples: seq<nat>, v: nat): (r: nat)
    ensures r <= |samples|
  {
    if samples == [] then 0
    else Above(samples[..|samples| - 1], v) + if samples[|samples| - 1] > v then 1 else 0
  }

  /** A failed compare-exchange that brings a later value leaves fewer samples to lose against. */
  lemma {:induction false} AboveFalls(samples: seq<nat>, v: nat, w: nat)
    requires v <= w
    ensures Above(samples, w) <= Above(samples, v)
    ensures v < w && w in samples ==> Above(samples, w) < Above(samples, v)
  {
    if samples != [] {
      AboveFalls(samples[..|samples| - 1], v, w);
      assert samples == samples[..|samples| - 1] + [samples[|samples| - 1]];
    }
  }

  /** The most steps that bring something new which a recorder may still take. */
  function Cost(history: seq<nat>, samples: seq<nat>): Recorder -> nat {
    (r: Recorder) =>
      match r.at
      case Entered => |samples| + 5
      case Counted => |samples| + 4
      case Totalled => |samples| + 3
      case Comparing(seen) => if seen < |history| then 2 + Above(samples, history[seen]) else 0
      case Raised => 1
      case Recorded => 0
  }

  function Left(s: Stats): nat { Sum(s.recorders, Cost(s.history, s.Samples())) }

  /** Does this access move its recorder, or bring it a newer value of the maximum? */
  predicate Busy(s: Stats, step: Step)
    requires Inv(s)
  {
    && step.Advance? && step.i < |s.recorders|
    && Next(s, step).recorders[step.i] != s.recorders[step.i]
  }

  lemma {:induction false} SumSame(rs: seq<Recorder>, f: Recorder -> nat, g: Recorder -> nat)
    requires forall i :: 0 <= i < |rs| ==> f(rs[i]) == g(rs[i])
    ensures Sum(rs, f) == Sum(rs, g)
  {
    if rs != [] {
      SumSame(rs[..|rs| - 1], f, g);
    }
  }

  /** A later history leaves the cost of the recorders as it was. */
  lemma HistoryGrows(s: Stats, history: seq<nat>)
    requires Inv(s) && s.history <= history
    ensures Sum(s.recorders, Cost(history, s.Samples())) == Sum(s.recorders, Cost(s.history, s.Samples()))
  {
    var f, g := Cost(history, s.Samples()), Cost(s.history, s.Samples());
    forall i | 0 <= i < |s.recorders| ensures f(s.recorders[i]) == g(s.recorders[i]) {
      assert RecorderInv(s, s.recorders[i]);
    }
    SumSame(s.recorders, f, g);
  }

  /** A move to a cheaper phase, perhaps with a longer history, pays for itself. */
  lemma MovePays(s: Stats, i: nat, phase: Phase, history: seq<nat>)
    requires Inv(s) && i < |s.recorders| && s.history <= history
    requires var f := Cost(s.history, s.Samples()); f(s.recorders[i].(at := phase)) <= f(s.recorders[i])
    requires phase.Comparing? ==> phase.seen < |s.history|
    ensures var f, t := Cost(s.history, s.Samples()), s.(history := history).At(i, phase);
            Left(t) + f(s.recorders[i]) == Left(s) + f(s.recorders[i].(at := phase))
  {
    var t := s.(history := history).At(i, phase);
    assert t.Samples() == s.Samples();
    var f := Cost(s.history, s.Samples());
    var g := Cost(history, s.Samples());
    HistoryGrows(s, history);
    SumAfterUpdate(s.recorders, g, i, s.recorders[i].(at := phase));
    assert g(s.recorders[i].(at := phase)) == f(s.recorders[i].(at := phase));
    assert RecorderInv(s, s.recorders[i]);
    assert g(s.recorders[i]) == f(s.recorders[i]);
  }

  /** The counters do not enter into the cost. */
  lemma LeftIgnoresCounters(s: Stats, t: Stats)
    requires t.history == s.history && t.recorders == s.recorders
    ensures Left(t) == Left(s)
  {
    assert t.Samples() == s.Samples();
  }

  lemma ReadingPays(s: Stats, i: nat, read: nat)
    requires Inv(s) && i < |s.recorders| && s.recorders[i].at.Comparing?
    ensures var seen := s.recorders[i].at.seen;
            && seen < |s.history|
            && (ReadIndex(s.history, seen, read) > seen ==>
                  Above(s.Samples(), s.history[ReadIndex(s.history, seen, read)])
                    < Above(s.Samples(), s.history[seen]))
  {
    assert RecorderInv(s, s.recorders[i]);
    var seen := s.recorders[i].at.seen;
    var k := ReadIndex(s.history, seen, read);
    if k > seen {
      assert Held(s.recorders, s.history[k]);
      var j :| 0 <= j < |s.recorders| && s.recorders[j].sample == s.history[k];
      assert s.Samples()[j] == s.history[k];
      AboveFalls(s.Samples(), s.history[seen], s.history[k]);
    }
  }

  lemma ComparePays(s: Stats, i: nat, read: nat, spurious: bool)
    requires Inv(s) && i < |s.recorders| && s.recorders[i].at.Comparing?
    ensures Left(Next(s, Advance(i, read, spurious)))
            + (if Busy(s, Advance(i, read, spurious)) then 1 else 0) <= Left(s)
  {
    ReadingPays(s, i, read);
    var r := s.recorders[i];
    var seen := r.at.seen;
    if r.sample <= s.history[seen] {
      MovePays(s, i, Raised, s.history);
    } else if seen == |s.history| - 1 && !spurious {
      MovePays(s, i, Raised, s.history + [r.sample]);
    } else {
      MovePays(s, i, Comparing(ReadIndex(s.history, seen, read)), s.history);
    }
  }

  lemma AccessPays(s: Stats, i: nat, read: nat, spurious: bool)
    requires Inv(s) && i < |s.recorders|
    ensures Left(Next(s, Advance(i, read, spurious)))
            + (if Busy(s, Advance(i, read, spurious)) then 1 else 0) <= Left(s)
  {
    var t := Next(s, Advance(i, read, spurious));
    match s.recorders[i].at
    case Entered =>
      MovePays(s, i, Counted, s.history);
      LeftIgnoresCounters(s.At(i, Counted), t);
    case Counted =>
      MovePays(s, i, Totalled, s.history);
      LeftIgnoresCounters(s.At(i, Totalled), t);
    case Totalled => MovePays(s, i, Comparing(ReadIndex(s.history, 0, read)), s.history);
    case Comparing(_) => ComparePays(s, i, read, spurious);
    case Raised =>
      MovePays(s, i, Recorded, s.history);
      LeftIgnoresCounters(s.At(i, Recorded), t);
    case Recorded =>
  }

  ghost function BusySteps(s: Stats, steps: seq<Step>): nat
    requires Inv(s)
    decreases |steps|
  {
    if steps == [] then 0 else
      StepKeepsInv(s, steps[0]);
      (if Busy(s, steps[0]) then 1 else 0) + BusySteps(Next(s, steps[0]), steps[1..])
  }

  lemma {:induction false} BusyStepsBounded(s: Stats, steps: seq<Step>)
    requires Inv(s) && forall k :: 0 <= k < |steps| ==> steps[k].Advance?
    ensures BusySteps(s, steps) <= Left(s)
    decreases |steps|
  {
    if steps != [] {
      var step := steps[0];
      StepKeepsInv(s, step);
      if step.i < |s.recorders| {
        AccessPays(s, step.i, step.read, step.spurious);
      }
      BusyStepsBounded(Next(s, step), steps[1..]);
    }
  }

  lemma {:induction false} SumBounded(rs: seq<Recorder>, f: Recorder -> nat, c: nat)
    requires forall r :: f(r) <= c
    ensures Sum(rs, f) <= |rs| * c
  {
    if rs != [] {
      SumBounded(rs[..|rs| - 1], f, c);
      assert |rs| * c == (|rs| - 1) * c + c;
    }
  }

  /** With `n` recorders at most `n * (n + 5)` accesses bring something new. */
  lemma LockFree(s: Stats, steps: seq<Step>)
    requires Inv(s) && forall k :: 0 <= k < |steps| ==> steps[k].Advance?
    ensures BusySteps(s, steps) <= |s.recorders| * (|s.recorders| + 5)
  {
    BusyStepsBounded(s, steps);
    SumBounded(s.recorders, Cost(s.history, s.Samples()), |s.recorders| + 5);
  }

  /** An access by an unfinished recorder that reads the latest value and does not fail spuriously is busy. */
  lemma FreshAccessIsBusy(s: Stats, i: nat)
    requires Inv(s) && i < |s.recorders| && !s.recorders[i].at.Recorded?
    ensures Busy(s, Advance(i, |s.history| - 1, false))
  {
    assert RecorderInv(s, s.recorders[i]);
  }
}
