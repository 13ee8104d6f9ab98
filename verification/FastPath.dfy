/**
 * The fast path of broadcast (src/interpreter.rs): branches that a syntactic check calls
 * pure run one after the other instead of in parallel. When that is one of the parallel
 * runs, and which branches the check lets through.
 */
module FastPath {
  import opened Environment
  import opened Options
  import opened Ast
  import opened Semantics
  import opened Parts
  import opened Worlds
  import opened Routes

  // --- What can be observed ---

  /** The acts behind events: those of parallel branches one branch after the other. */
  function Flat(es: seq<Event>): seq<Event>
    decreases es, 1
  {
    if es == [] then [] else Flat(es[..|es| - 1]) + FlatOf(es[|es| - 1])
  }

  function FlatOf(e: Event): seq<Event>
    decreases e, 0
  {
    match e
    case Forked(_) => []
    case Joined(bs, _) => FlatAll(bs)
    case _ => [e]
  }

  function FlatBranch(b: Branch): seq<Event>
    decreases b, 1
  {
    Flat(b.events)
  }

  function FlatAll(bs: seq<Branch>): seq<Event>
    decreases bs, 0
  {
    if bs == [] then [] else FlatBranch(bs[0]) + FlatAll(bs[1..])
  }

  /** All of an interpreter but the history and the ghosts of lost responses. */
  predicate SameState(a: State, b: State) {
    b == a.(world := b.world, dropped := b.dropped)
  }

  /** Nobody can tell the two apart: neither by the result nor by the state, the database or the acts. */
  predicate Indistinguishable(a: Res, b: Res) {
    && b.out == a.out && SameState(a.s, b.s)
    && b.s.world.db == a.s.world.db && Flat(b.s.world.log) == Flat(a.s.world.log)
  }

  lemma {:induction false} FlatConcat(a: seq<Event>, b: seq<Event>)
    ensures Flat(a + b) == Flat(a) + Flat(b)
    decreases |b|
  {
    if b == [] {
      assert a + b == a && Flat(a) + [] == Flat(a);
    } else {
      assert (a + b)[..|a + b| - 1] == a + b[..|b| - 1];
      FlatConcat(a, b[..|b| - 1]);
    }
  }

  /** Real events leave acts. */
  lemma {:induction false} RealShows(es: seq<Event>)
    requires es != [] && AllReal(es)
    ensures Flat(es) != []
    decreases es
  {
    var e := es[|es| - 1];
    assert Real(e);
    if e.Joined? {
      var k :| 0 <= k < |e.branches| && e.branches[k].events != [];
      RealShows(e.branches[k].events);
      PartShows(e.branches, k);
    }
  }

  lemma {:induction false} PartShows(bs: seq<Branch>, k: nat)
    requires k < |bs| && FlatBranch(bs[k]) != []
    ensures FlatAll(bs) != []
    decreases k
  {
    if k > 0 {
      PartShows(bs[1..], k - 1);
    }
  }

  // --- One branch after the other ---

  /** A branch that waits for those before it, whether they fail or not. */
  datatype Turn = Turn(start: State, done: Res)

  function Turns(h: Host, v: Value, targets: seq<Expr>, u: State): (ts: seq<Turn>)
    requires Valid(h, u) && !u.insideTx
    ensures |ts| == |targets|
    decreases |targets|
  {
    if targets == [] then []
    else
      var a := ApplyTarget(h, v, targets[0], u);
      [Turn(u, a)] + Turns(h, v, targets[1..], u.(world := a.s.world))
  }

  function DeedsOf(t: Turn): seq<Event> {
    Deeds(t.start, t.done)
  }

  function TurnOuts(ts: seq<Turn>): (outs: seq<Outcome>)
    ensures |outs| == |ts| && forall k :: 0 <= k < |outs| ==> outs[k] == ts[k].done.out
  {
    seq(|ts|, k requires 0 <= k < |ts| => ts[k].done.out)
  }

  /** How many branches run until one fails. */
  function Reached(ts: seq<Turn>): (n: nat)
    ensures n <= |ts|
  {
    if ts == [] then 0 else if ts[0].done.out.Err? then 1 else 1 + Reached(ts[1..])
  }

  function AllDeeds(ts: seq<Turn>): seq<Event> {
    if ts == [] then [] else DeedsOf(ts[0]) + AllDeeds(ts[1..])
  }

  lemma {:induction false} DeedsSplit(ts: seq<Turn>, n: nat)
    requires n <= |ts|
    ensures AllDeeds(ts) == AllDeeds(ts[..n]) + AllDeeds(ts[n..])
    decreases n
  {
    if n == 0 {
      assert ts[..0] == [] && ts[0..] == ts;
    } else {
      DeedsSplit(ts[1..], n - 1);
      assert ts[..n][1..] == ts[1..][..n - 1] && ts[1..][n - 1..] == ts[n..];
    }
  }

  lemma {:induction false} NoDeeds(ts: seq<Turn>)
    ensures AllDeeds(ts) == [] <==> forall k :: 0 <= k < |ts| ==> DeedsOf(ts[k]) == []
    decreases |ts|
  {
    if ts != [] {
      NoDeeds(ts[1..]);
      assert forall k :: 1 <= k < |ts| ==> ts[k] == ts[1..][k - 1];
      assert forall k :: 0 <= k < |ts| - 1 ==> ts[1..][k] == ts[k + 1];
    }
  }

  /** Every turn starts where the one before it ended, and otherwise as the first. */
  lemma {:induction false} TurnStarts(h: Host, v: Value, targets: seq<Expr>, u: State, k: nat)
    requires Valid(h, u) && !u.insideTx && k < |targets|
    ensures var t := Turns(h, v, targets, u)[k];
            && Valid(h, t.start) && t.start == u.(world := t.start.world)
            && t.done == ApplyTarget(h, v, targets[k], t.start)
    decreases |targets|
  {
    if k > 0 {
      var a := ApplyTarget(h, v, targets[0], u);
      TurnStarts(h, v, targets[1..], u.(world := a.s.world), k - 1);
    }
  }

  // --- The sequence in turns ---

  /** A step does the same whatever responses were lost before it. */
  lemma LossIgnored(h: Host, v: Value, e: Expr, u: State, w: State)
    requires Valid(h, u) && w == u.(dropped := w.dropped)
    ensures Moves(Route(h, h, [], []), u, ApplyTarget(h, v, e, u), w, ApplyTarget(h, v, e, w))
  {
    TargetMoves(Route(h, h, [], []), v, e, u, w);
  }

  /** What the fast path comes to: the turns up to the first that fails. */
  predicate RunsTurns(u: State, ts: seq<Turn>, a: Res) {
    && a.out == Collect(TurnOuts(ts))
    && a.s.world.log == u.world.log + AllDeeds(ts[..Reached(ts)])
    && SameState(a.s, u.(replies := Heard(u.replies, a.out)))
  }

  function Heard(replies: seq<Response>, out: Outcome): seq<Response> {
    if IsHttp(out) then replies + [out.error.response] else replies
  }

  lemma {:induction false} SequenceRunsTurns(h: Host, v: Value, targets: seq<Expr>, u: State, w: State)
    requires Valid(h, u) && !u.insideTx && w == u.(dropped := w.dropped)
    ensures RunsTurns(u, Turns(h, v, targets, u), InSequence(h, v, targets, w))
    decreases |targets|
  {
    if targets != [] {
      var a, b := ApplyTarget(h, v, targets[0], u), ApplyTarget(h, v, targets[0], w);
      LossIgnored(h, v, targets[0], u, w);
      SequenceInParts(h, v, targets, w);
      var j, next := Join(w, b), u.(world := a.s.world);
      SameWorlds(h, u, a, w, b);
      var rest := InSequence(h, v, targets[1..], j.s);
      if a.out.Ok? {
        SequenceRunsTurns(h, v, targets[1..], next, j.s);
      }
      FirstTurn(u, Turns(h, v, targets, u), j, rest);
    } else {
      assert u.world.log + [] == u.world.log;
    }
  }

  /** Moving alike from the same world ends in the same world. */
  lemma SameWorlds(h: Host, u: State, a: Res, w: State, b: Res)
    requires Valid(h, u) && w == u.(dropped := w.dropped) && Good(h, u, a) && Good(h, w, b)
    requires Moves(Route(h, h, [], []), u, a, w, b)
    ensures b.s.world == a.s.world && b.s.replies == a.s.replies
  {
    assert a.s.world.log == u.world.log + Deeds(u, a);
    assert b.s.world.log == w.world.log + Deeds(w, b);
  }

  lemma FirstTurn(u: State, ts: seq<Turn>, j: Res, rest: Res)
    requires ts != [] && ts[0].start == u && u.world.log <= ts[0].done.s.world.log
    requires j.out == ts[0].done.out && j.s.world == ts[0].done.s.world
    requires SameState(j.s, u.(replies := Heard(u.replies, j.out)))
    requires j.out.Ok? ==> RunsTurns(u.(world := j.s.world), ts[1..], rest)
    ensures RunsTurns(u, ts, InFront(j, rest))
  {
    var more := ts[1..];
    assert u.world.log + DeedsOf(ts[0]) == j.s.world.log;
    assert TurnOuts(ts)[1..] == TurnOuts(more);
    CollectList(TurnOuts(more));
    if j.out.Ok? {
      assert ts[..Reached(ts)][1..] == more[..Reached(more)];
      assert u.world.log + (DeedsOf(ts[0]) + AllDeeds(more[..Reached(more)]))
          == j.s.world.log + AllDeeds(more[..Reached(more)]);
    } else {
      assert ts[..1] == [ts[0]] && [ts[0]][1..] == [];
      assert AllDeeds([ts[0]]) == DeedsOf(ts[0]) + [];
    }
  }

  // --- The parallel run in turns ---

  /** Host `g` answers every branch of a broadcast behind `base` as `h` answers it in its turn. */
  ghost predicate InTurn(h: Host, g: Host, base: seq<Event>, ts: seq<Turn>) {
    forall k :: 0 <= k < |ts| ==> SameAnswers(TurnRoute(h, g, base, ts, k))
  }

  function TurnRoute(h: Host, g: Host, base: seq<Event>, ts: seq<Turn>, k: nat): Route
    requires k < |ts|
  {
    Route(h, g, ts[k].start.world.log, base + [Forked(k)])
  }

  lemma {:induction false} SameEffects(h: Host, g: Host, db: Db, requests: seq<Request>)
    requires g.effect == h.effect
    ensures ApplyAll(g, db, requests) == ApplyAll(h, db, requests)
    decreases |requests|
  {
    if requests != [] {
      SameEffects(h, g, db, requests[..|requests| - 1]);
    }
  }

  lemma {:induction false} SameBatches(h: Host, g: Host, db: Db, batches: seq<Batch>)
    requires g.effect == h.effect
    ensures ApplyBatches(g, db, batches) == ApplyBatches(h, db, batches)
    decreases |batches|
  {
    if batches != [] {
      SameBatches(h, g, db, batches[..|batches| - 1]);
      SameEffects(h, g, ApplyBatches(h, db, batches[..|batches| - 1]), batches[|batches| - 1]);
    }
  }

  lemma SameValid(h: Host, g: Host, s: State)
    requires g.effect == h.effect && g.maxDepth == h.maxDepth && Valid(h, s)
    ensures Valid(g, s)
  {
    SameBatches(h, g, s.world.start, Book(s.world.log).kept);
  }

  /** A branch starts, on its own connection, as it does in its turn. */
  lemma TurnOnRoute(h: Host, g: Host, s: State, ts: seq<Turn>, k: nat)
    requires k < |ts| && !s.insideTx && Valid(g, s) && Valid(h, ts[k].start)
    requires ts[k].start == s.(world := ts[k].start.world)
    ensures OnRoute(TurnRoute(h, g, s.world.log, ts, k), ts[k].start, Fork(s, k))
  {
    ForkValid(g, s, k);
  }

  /** The result of a branch, seen from its parent, is that of its turn. */
  predicate IsTurn(n: nat, t: Turn, q: Res) {
    q.out == t.done.out && Own(n, q).events == DeedsOf(t) && AllReal(DeedsOf(t))
  }

  predicate AreTurns(n: nat, ts: seq<Turn>, qs: seq<Res>) {
    |ts| == |qs| && forall k :: 0 <= k < |ts| ==> IsTurn(n, ts[k], qs[k])
  }

  /** A branch does under `g`, on its own connection, what it does under `h` in its turn. */
  lemma BranchIsTurn(h: Host, g: Host, v: Value, target: Expr, s: State, ts: seq<Turn>, k: nat)
    requires k < |ts| && !s.insideTx && Valid(g, s) && Valid(h, ts[k].start)
    requires ts[k].start == s.(world := ts[k].start.world) && ts[k].done == ApplyTarget(h, v, target, ts[k].start)
    requires SameAnswers(TurnRoute(h, g, s.world.log, ts, k)) && Valid(g, Fork(s, k))
    ensures IsTurn(|s.world.log|, ts[k], ApplyTarget(g, v, target, Fork(s, k)))
  {
    TurnOnRoute(h, g, s, ts, k);
    TargetMoves(TurnRoute(h, g, s.world.log, ts, k), v, target, ts[k].start, Fork(s, k));
  }

  lemma {:induction false} BranchesAreTurns(
      h: Host, g: Host, v: Value, targets: seq<Expr>, i: nat, s: State, u: State, ts: seq<Turn>)
    requires Valid(h, u) && Valid(g, s) && !s.insideTx && u == s.(world := u.world)
    requires InTurn(h, g, s.world.log, ts) && i <= |ts| && ts[i..] == Turns(h, v, targets, u)
    ensures AreTurns(|s.world.log|, Turns(h, v, targets, u), RunBranches(g, v, targets, i, s))
    decreases |targets|
  {
    if targets != [] {
      var a := ApplyTarget(h, v, targets[0], u);
      assert ts[i] == Turn(u, a);
      BranchesInParts(g, v, targets, i, s);
      BranchIsTurn(h, g, v, targets[0], s, ts, i);
      assert ts[i + 1..] == ts[i..][1..];
      BranchesAreTurns(h, g, v, targets[1..], i + 1, s, u.(world := a.s.world), ts);
    }
  }

  function TurnBranches(ts: seq<Turn>): (bs: seq<Branch>)
    ensures |bs| == |ts| && forall k :: 0 <= k < |bs| ==> bs[k] == Branch(DeedsOf(ts[k]))
  {
    seq(|ts|, k requires 0 <= k < |ts| => Branch(DeedsOf(ts[k])))
  }

  predicate RealTurns(ts: seq<Turn>) {
    forall k :: 0 <= k < |ts| ==> AllReal(DeedsOf(ts[k]))
  }

  /** What the parallel run comes to: all turns, in one event. */
  lemma ParallelRunsTurns(h: Host, g: Host, v: Value, targets: seq<Expr>, s: State)
    requires Valid(h, s) && Valid(g, s) && !s.insideTx
    requires InTurn(h, g, s.world.log, Turns(h, v, targets, s))
    ensures var ts, b := Turns(h, v, targets, s), InParallel(g, v, targets, s);
            var bs := TurnBranches(ts);
            && RealTurns(ts) && b.out == Collect(TurnOuts(ts))
            && SameState(b.s, s.(replies := Heard(s.replies, b.out)))
            && b.s.world.log == if AllSilent(bs) then s.world.log
                                else s.world.log + [Joined(bs, g.schedule(s.world.log, bs))]
  {
    ParallelInParts(g, v, targets, s);
    AllAreTurns(h, g, v, targets, 0, s);
    GatherTurns(g, s, RunBranches(g, v, targets, 0, s), Turns(h, v, targets, s));
  }

  lemma AllAreTurns(h: Host, g: Host, v: Value, targets: seq<Expr>, i: nat, s: State)
    requires Valid(h, s) && Valid(g, s) && !s.insideTx && i == 0
    requires InTurn(h, g, s.world.log, Turns(h, v, targets, s))
    ensures AreTurns(|s.world.log|, Turns(h, v, targets, s), RunBranches(g, v, targets, i, s))
  {
    var ts := Turns(h, v, targets, s);
    assert ts[i..] == ts;
    BranchesAreTurns(h, g, v, targets, i, s, s, ts);
  }

  lemma GatherTurns(g: Host, s: State, rs: seq<Res>, ts: seq<Turn>)
    requires AreTurns(|s.world.log|, ts, rs)
    ensures var b, bs := Gather(g, s, rs), TurnBranches(ts);
            && RealTurns(ts) && b.out == Collect(TurnOuts(ts)) && SameState(b.s, s.(replies := Heard(s.replies, b.out)))
            && b.s.world.log == if AllSilent(bs) then s.world.log
                                else s.world.log + [Joined(bs, g.schedule(s.world.log, bs))]
  {
    assert forall k :: 0 <= k < |ts| ==> IsTurn(|s.world.log|, ts[k], rs[k]);
    assert Outs(rs) == TurnOuts(ts);
    assert OwnAll(|s.world.log|, rs) == TurnBranches(ts);
  }

  lemma {:induction false} FlatTurns(ts: seq<Turn>)
    ensures FlatAll(TurnBranches(ts)) == Flat(AllDeeds(ts))
    decreases |ts|
  {
    if ts != [] {
      assert TurnBranches(ts)[1..] == TurnBranches(ts[1..]);
      FlatTurns(ts[1..]);
      FlatConcat(DeedsOf(ts[0]), AllDeeds(ts[1..]));
    }
  }

  lemma SilentTurns(ts: seq<Turn>)
    ensures AllSilent(TurnBranches(ts)) <==> AllDeeds(ts) == []
  {
    NoDeeds(ts);
    assert forall k :: 0 <= k < |ts| ==> TurnBranches(ts)[k].events == DeedsOf(ts[k]);
  }

  lemma {:induction false} RealDeeds(ts: seq<Turn>)
    requires RealTurns(ts)
    ensures AllReal(AllDeeds(ts))
    decreases |ts|
  {
    if ts != [] {
      assert AllReal(DeedsOf(ts[0]));
      assert RealTurns(ts[1..]);
      RealDeeds(ts[1..]);
    }
  }

  /** The acts of the parallel run. */
  lemma FlatParallel(ts: seq<Turn>, pre: seq<Event>, order: seq<nat>)
    ensures var bs := TurnBranches(ts);
            Flat(if AllSilent(bs) then pre else pre + [Joined(bs, order)]) == Flat(pre) + Flat(AllDeeds(ts))
  {
    SilentTurns(ts);
    if AllDeeds(ts) == [] {
      assert Flat(pre) + [] == Flat(pre);
    } else {
      FlatJoined(ts, pre, order);
    }
  }

  lemma FlatJoined(ts: seq<Turn>, pre: seq<Event>, order: seq<nat>)
    ensures Flat(pre + [Joined(TurnBranches(ts), order)]) == Flat(pre) + Flat(AllDeeds(ts))
  {
    var e := Joined(TurnBranches(ts), order);
    FlatTurns(ts);
    FlatConcat(pre, [e]);
    OneFlat(e);
  }

  /** Acts behind the first failure, if there are any, are missing from the sequence. */
  lemma FlatSequence(ts: seq<Turn>, pre: seq<Event>)
    requires RealTurns(ts)
    ensures var n := Reached(ts);
            Flat(pre) + Flat(AllDeeds(ts)) == Flat(pre + AllDeeds(ts[..n])) <==> AllDeeds(ts[n..]) == []
  {
    var n := Reached(ts);
    var before, behind := AllDeeds(ts[..n]), AllDeeds(ts[n..]);
    DeedsSplit(ts, n);
    FlatConcat(pre, before);
    FlatConcat(before, behind);
    BehindShows(ts, n);
    Longer(Flat(pre), Flat(before), Flat(behind));
  }

  lemma BehindShows(ts: seq<Turn>, n: nat)
    requires RealTurns(ts) && n <= |ts|
    ensures Flat(AllDeeds(ts[n..])) == [] <==> AllDeeds(ts[n..]) == []
  {
    assert RealTurns(ts[n..]);
    RealDeeds(ts[n..]);
    if AllDeeds(ts[n..]) != [] {
      RealShows(AllDeeds(ts[n..]));
    }
  }

  lemma Longer(a: seq<Event>, b: seq<Event>, c: seq<Event>)
    ensures a + (b + c) == a + b <==> c == []
  {
    assert |a + (b + c)| == |a + b| + |c|;
    assert c == [] ==> b + c == b;
  }

  lemma OneFlat(e: Event)
    ensures Flat([e]) == FlatOf(e)
  {
    assert [e][..0] == [];
  }

  // --- The database ---

  lemma {:induction false} BookTurns(pre: seq<Event>, ts: seq<Turn>)
    requires Book(pre).Ledger? && Book(pre).open.None? && BookAll(TurnBranches(ts)).Some?
    ensures Book(pre + AllDeeds(ts)) == Ledger(Book(pre).kept + Concat(BookAll(TurnBranches(ts)).value), None)
    decreases |ts|
  {
    var kept := Book(pre).kept;
    if ts == [] {
      assert pre + [] == pre && kept + [] == kept;
    } else {
      var first := DeedsOf(ts[0]);
      FirstBooked(ts);
      BookShift(pre, first);
      BookTurns(pre + first, ts[1..]);
      assert pre + (first + AllDeeds(ts[1..])) == pre + first + AllDeeds(ts[1..]);
      KeptInOrder(kept, Book(first).kept, Concat(BookAll(TurnBranches(ts[1..])).value));
    }
  }

  lemma KeptInOrder(a: seq<Batch>, b: seq<Batch>, c: seq<Batch>)
    ensures a + b + c == a + (b + c)
  {
  }

  lemma FirstBooked(ts: seq<Turn>)
    requires ts != [] && BookAll(TurnBranches(ts)).Some?
    ensures var l, rest := Book(DeedsOf(ts[0])), BookAll(TurnBranches(ts[1..]));
            && l.Ledger? && l.open.None? && rest.Some?
            && Concat(BookAll(TurnBranches(ts)).value) == l.kept + Concat(rest.value)
  {
    var bs := TurnBranches(ts);
    assert bs[1..] == TurnBranches(ts[1..]);
    assert BookBranch(bs[0]) == Book(DeedsOf(ts[0]));
    var kepts := BookAll(bs).value;
    assert kepts == [BookBranch(bs[0]).kept] + BookAll(bs[1..]).value;
    assert kepts[1..] == BookAll(bs[1..]).value;
  }

  /** In turn, the kept batches take effect in the same order. */
  lemma SameDb(h: Host, g: Host, ts: seq<Turn>, w: World, a: World, b: World)
    requires Honest(h, None, w) && Honest(h, None, a) && Honest(g, None, b) && g.effect == h.effect
    requires a.start == w.start == b.start && a.log == w.log + AllDeeds(ts)
    requires b.log == if AllSilent(TurnBranches(ts)) then w.log else w.log + [Joined(TurnBranches(ts), [])]
    ensures b.db == a.db
  {
    SilentTurns(ts);
    SameBatches(h, g, w.start, Book(b.log).kept);
    if AllSilent(TurnBranches(ts)) {
      assert w.log + [] == w.log;
    } else {
      JoinedBooks(w.log, ts);
    }
  }

  lemma JoinedBooks(log: seq<Event>, ts: seq<Turn>)
    requires Book(log).Ledger? && Book(log).open.None? && Book(log + [Joined(TurnBranches(ts), [])]).Ledger?
    ensures Book(log + AllDeeds(ts)) == Book(log + [Joined(TurnBranches(ts), [])])
  {
    var bs := TurnBranches(ts);
    BookPush(log, Joined(bs, []));
    BookTurns(log, ts);
    assert Merge(BookAll(bs).value, []) == Concat(BookAll(bs).value);
  }

  // --- A driver that takes the branches in turn ---

  /** The history a branch would have in its turn, in place of the one on its own connection. */
  function Back(base: seq<Event>, starts: seq<seq<Event>>, log: seq<Event>): seq<Event> {
    var n := |base|;
    if n < |log| && base <= log && log[n].Forked? && log[n].branch < |starts|
    then starts[log[n].branch] + log[n + 1..]
    else log
  }

  /** The driver `h`, asked by each branch behind `base` only when the branches before it are done. */
  function InTurnHost(h: Host, base: seq<Event>, starts: seq<seq<Event>>): Host {
    h.(beginSucceeds := (log: seq<Event>) => h.beginSucceeds(Back(base, starts, log)),
       commitSucceeds := (log: seq<Event>) => h.commitSucceeds(Back(base, starts, log)),
       answers := (log: seq<Event>, q: Request) => h.answers(Back(base, starts, log), q),
       namespaceAnswers := (log: seq<Event>, ns: string, sel: string, args: seq<Value>) =>
         h.namespaceAnswers(Back(base, starts, log), ns, sel, args),
       schedule := (log: seq<Event>, bs: seq<Branch>) =>
         if log == base then [] else h.schedule(Back(base, starts, log), bs))
  }

  function Starts(ts: seq<Turn>): (starts: seq<seq<Event>>)
    ensures |starts| == |ts| && forall k :: 0 <= k < |starts| ==> starts[k] == ts[k].start.world.log
  {
    seq(|ts|, k requires 0 <= k < |ts| => ts[k].start.world.log)
  }

  /** The driver of the parallel run whose branches are taken in declaration order. */
  function Orderly(h: Host, v: Value, targets: seq<Expr>, s: State): Host
    requires Valid(h, s) && !s.insideTx
  {
    InTurnHost(h, s.world.log, Starts(Turns(h, v, targets, s)))
  }

  /** The parallel run under that driver. */
  function InOrder(h: Host, v: Value, targets: seq<Expr>, s: State): (r: Res)
    requires Valid(h, s) && !s.insideTx
    ensures Good(Orderly(h, v, targets, s), s, r)
  {
    SameValid(h, Orderly(h, v, targets, s), s);
    InParallel(Orderly(h, v, targets, s), v, targets, s)
  }

  lemma BackFrom(base: seq<Event>, starts: seq<seq<Event>>, k: nat, x: seq<Event>)
    requires k < |starts|
    ensures Back(base, starts, base + [Forked(k)] + x) == starts[k] + x
    ensures base + [Forked(k)] + x != base
  {
    var log := base + [Forked(k)] + x;
    assert log[|base|] == Forked(k) && log[|base| + 1..] == x;
    assert |log| > |base|;
  }

  /** The history goes through branch `k` of the broadcast behind `base`. */
  predicate Through(base: seq<Event>, k: nat, log: seq<Event>) {
    base + [Forked(k)] <= log
  }

  /** Behind the history `log` the two drivers answer every question alike. */
  predicate AnswersAlike(h: Host, g: Host, log: seq<Event>, q: Request, ns: string, sel: string, args: seq<Value>) {
    && g.answers(log, q) == h.answers(log, q) && g.beginSucceeds(log) == h.beginSucceeds(log)
    && g.commitSucceeds(log) == h.commitSucceeds(log)
    && g.namespaceAnswers(log, ns, sel, args) == h.namespaceAnswers(log, ns, sel, args)
  }

  /** Away from the branches it is the driver `h`, and elsewhere than at `base` it keeps its schedules. */
  lemma OrderlyElsewhere(h: Host, base: seq<Event>, starts: seq<seq<Event>>, log: seq<Event>,
                         q: Request, ns: string, sel: string, args: seq<Value>, bs: seq<Branch>)
    ensures (exists k :: 0 <= k < |starts| && Through(base, k, log))
            || AnswersAlike(h, InTurnHost(h, base, starts), log, q, ns, sel, args)
    ensures (exists k :: 0 <= k < |starts| && Through(base, k, log)) || log == base
            || InTurnHost(h, base, starts).schedule(log, bs) == h.schedule(log, bs)
  {
    var n := |base|;
    if n < |log| && base <= log && log[n].Forked? && log[n].branch < |starts| {
      var k := log[n].branch;
      assert log[..n + 1] == base + [Forked(k)];
      assert Through(base, k, log);
    } else {
      assert Back(base, starts, log) == log;
      var g := InTurnHost(h, base, starts);
      assert g.answers(log, q) == h.answers(log, q);
      assert g.beginSucceeds(log) == h.beginSucceeds(log);
      assert g.commitSucceeds(log) == h.commitSucceeds(log);
      assert g.namespaceAnswers(log, ns, sel, args) == h.namespaceAnswers(log, ns, sel, args);
      assert log == base || g.schedule(log, bs) == h.schedule(log, bs);
    }
  }

  lemma OrderlyInTurn(h: Host, base: seq<Event>, ts: seq<Turn>)
    ensures InTurn(h, InTurnHost(h, base, Starts(ts)), base, ts)
  {
    var starts := Starts(ts);
    forall k | 0 <= k < |ts| ensures SameAnswers(TurnRoute(h, InTurnHost(h, base, starts), base, ts, k)) {
      forall x: seq<Event> ensures Back(base, starts, base + [Forked(k)] + x) == starts[k] + x {
        BackFrom(base, starts, k, x);
      }
      forall x: seq<Event> ensures base + [Forked(k)] + x != base {
        BackFrom(base, starts, k, x);
      }
    }
  }

  // --- The fast path is one of the parallel runs ---

  /** Branch `k`, run on its own, does nothing to the outside. */
  predicate QuietAlone(h: Host, v: Value, target: Expr, s: State, k: nat)
    requires Valid(h, s) && !s.insideTx
  {
    Valid(h, Fork(s, k)) && Quiet(Fork(s, k), ApplyTarget(h, v, target, Fork(s, k)))
  }

  /** Whether a branch is quiet does not depend on what the branches before it have done. */
  lemma QuietInTurn(h: Host, v: Value, targets: seq<Expr>, s: State, k: nat)
    requires Valid(h, s) && !s.insideTx && k < |targets|
    ensures DeedsOf(Turns(h, v, targets, s)[k]) == [] <==> QuietAlone(h, v, targets[k], s, k)
  {
    var t := Turns(h, v, targets, s)[k];
    TurnStarts(h, v, targets, s, k);
    ForkValid(h, s, k);
    TargetAgrees(h, v, targets[k], t.start, Fork(s, k));
    assert Follows(t.start, t.done.s);
  }

  /** No branch behind the first one that fails does anything to the outside. */
  predicate QuietBehindError(h: Host, v: Value, targets: seq<Expr>, s: State)
    requires Valid(h, s) && !s.insideTx
  {
    forall k :: Reached(Turns(h, v, targets, s)) <= k < |targets| ==> QuietAlone(h, v, targets[k], s, k)
  }

  lemma NoDeedsFrom(ts: seq<Turn>, n: nat)
    requires n <= |ts|
    ensures AllDeeds(ts[n..]) == [] <==> forall k :: n <= k < |ts| ==> DeedsOf(ts[k]) == []
  {
    NoDeeds(ts[n..]);
    assert forall k :: n <= k < |ts| ==> ts[n..][k - n] == ts[k];
    assert forall k :: 0 <= k < |ts[n..]| ==> ts[n..][k] == ts[k + n];
  }

  lemma QuietBehind(h: Host, v: Value, targets: seq<Expr>, s: State)
    requires Valid(h, s) && !s.insideTx
    ensures var ts := Turns(h, v, targets, s);
            AllDeeds(ts[Reached(ts)..]) == [] <==> QuietBehindError(h, v, targets, s)
  {
    var ts := Turns(h, v, targets, s);
    NoDeedsFrom(ts, Reached(ts));
    forall k | 0 <= k < |targets|
      ensures DeedsOf(ts[k]) == [] <==> QuietAlone(h, v, targets[k], s, k)
    {
      QuietInTurn(h, v, targets, s, k);
    }
  }

  /**
   * For all branches and all drivers: the parallel run whose branches are taken in
   * declaration order has the result and the state of the fast path. Nobody can tell the
   * two apart if and only if no branch behind the first one that fails touches the outside.
   */
  lemma SequenceIsParallel(h: Host, v: Value, targets: seq<Expr>, s: State)
    requires Valid(h, s) && !s.insideTx
    ensures var a, b := InSequence(h, v, targets, s), InOrder(h, v, targets, s);
            && b.out == a.out && SameState(a.s, b.s)
            && (Indistinguishable(a, b) <==> QuietBehindError(h, v, targets, s))
  {
    var g, ts := Orderly(h, v, targets, s), Turns(h, v, targets, s);
    SameValid(h, g, s);
    OrderlyInTurn(h, s.world.log, ts);
    SequenceRunsTurns(h, v, targets, s, s);
    ParallelRunsTurns(h, g, v, targets, s);
    QuietBehind(h, v, targets, s);
    TurnsCompared(h, g, s, ts, InSequence(h, v, targets, s), InParallel(g, v, targets, s));
  }

  lemma ActsCompared(s: State, ts: seq<Turn>, a: Res, b: Res, order: seq<nat>)
    requires RealTurns(ts) && RunsTurns(s, ts, a) && b.out == a.out
    requires SameState(b.s, s.(replies := Heard(s.replies, b.out)))
    requires var bs := TurnBranches(ts);
             b.s.world.log == if AllSilent(bs) then s.world.log else s.world.log + [Joined(bs, order)]
    ensures SameState(a.s, b.s)
    ensures Flat(b.s.world.log) == Flat(a.s.world.log) <==> AllDeeds(ts[Reached(ts)..]) == []
  {
    FlatParallel(ts, s.world.log, order);
    FlatSequence(ts, s.world.log);
  }

  lemma TurnsCompared(h: Host, g: Host, s: State, ts: seq<Turn>, a: Res, b: Res)
    requires Valid(h, s) && !s.insideTx && Good(h, s, a) && Good(g, s, b) && g.effect == h.effect
    requires RealTurns(ts) && RunsTurns(s, ts, a) && b.out == a.out
    requires SameState(b.s, s.(replies := Heard(s.replies, b.out)))
    requires var bs := TurnBranches(ts);
             b.s.world.log == if AllSilent(bs) then s.world.log else s.world.log + [Joined(bs, [])]
    ensures SameState(a.s, b.s)
    ensures Indistinguishable(a, b) <==> AllDeeds(ts[Reached(ts)..]) == []
  {
    var n := Reached(ts);
    ActsCompared(s, ts, a, b, []);
    if AllDeeds(ts[n..]) == [] {
      DeedsSplit(ts, n);
      assert AllDeeds(ts[..n]) + [] == AllDeeds(ts[..n]);
      SameDb(h, g, ts, s.world, a.s.world, b.s.world);
    }
  }

  /** If every branch ends in a value, nobody can tell the two apart. */
  lemma NoFailureUnseen(h: Host, v: Value, targets: seq<Expr>, s: State)
    requires Valid(h, s) && !s.insideTx && InSequence(h, v, targets, s).out.Ok?
    ensures Indistinguishable(InSequence(h, v, targets, s), InOrder(h, v, targets, s))
  {
    SequenceIsParallel(h, v, targets, s);
    SequenceRunsTurns(h, v, targets, s, s);
    AllReached(Turns(h, v, targets, s));
  }

  lemma {:induction false} AllReached(ts: seq<Turn>)
    requires Collect(TurnOuts(ts)).Ok?
    ensures Reached(ts) == |ts|
    decreases |ts|
  {
    if ts != [] {
      assert TurnOuts(ts)[1..] == TurnOuts(ts[1..]);
      CollectList(TurnOuts(ts[1..]));
      AllReached(ts[1..]);
    }
  }

  // --- Quiet branches, under every driver and schedule ---

  /** A branch that is quiet run on its own ends in its turn as it ends on its own, and is quiet there. */
  lemma QuietIsTurn(h: Host, v: Value, target: Expr, i: nat, s: State, u: State)
    requires Valid(h, s) && Valid(h, u) && !s.insideTx && u == s.(world := u.world)
    requires QuietAlone(h, v, target, s, i)
    ensures var t := Turn(u, ApplyTarget(h, v, target, u));
            IsTurn(|s.world.log|, t, ApplyTarget(h, v, target, Fork(s, i))) && DeedsOf(t) == []
  {
    TargetAgrees(h, v, target, Fork(s, i), u);
    QuietTurn(s, i, u, ApplyTarget(h, v, target, Fork(s, i)), ApplyTarget(h, v, target, u));
  }

  lemma QuietTurn(s: State, i: nat, u: State, b: Res, a: Res)
    requires Quiet(Fork(s, i), b) && SameButWorld(Fork(s, i), b, u, a)
    ensures IsTurn(|s.world.log|, Turn(u, a), b) && DeedsOf(Turn(u, a)) == []
  {
  }

  /** The branches, numbered from `i` on, are quiet when each is run on its own. */
  predicate QuietFrom(h: Host, v: Value, targets: seq<Expr>, i: nat, s: State)
    requires Valid(h, s) && !s.insideTx
    decreases |targets|
  {
    targets != [] ==> QuietAlone(h, v, targets[0], s, i) && QuietFrom(h, v, targets[1..], i + 1, s)
  }

  lemma {:induction false} AllQuiet(h: Host, v: Value, targets: seq<Expr>, i: nat, s: State)
    requires Valid(h, s) && !s.insideTx && i <= |targets|
    requires forall k :: 0 <= k < |targets| ==> QuietAlone(h, v, targets[k], s, k)
    ensures QuietFrom(h, v, targets[i..], i, s)
    decreases |targets| - i
  {
    if i < |targets| {
      AllQuiet(h, v, targets, i + 1, s);
      assert targets[i..][1..] == targets[i + 1..] && targets[i..][0] == targets[i];
    }
  }

  lemma FirstOfTurns(n: nat, t: Turn, ts: seq<Turn>, q: Res, qs: seq<Res>)
    requires IsTurn(n, t, q) && AreTurns(n, ts, qs)
    ensures AreTurns(n, [t] + ts, [q] + qs) && AllDeeds([t] + ts) == DeedsOf(t) + AllDeeds(ts)
  {
    assert ([t] + ts)[1..] == ts;
    forall k | 0 <= k < |ts| + 1 ensures IsTurn(n, ([t] + ts)[k], ([q] + qs)[k]) {
      assert k > 0 ==> IsTurn(n, ts[k - 1], qs[k - 1]);
    }
  }

  lemma {:induction false} QuietAreTurns(h: Host, v: Value, targets: seq<Expr>, i: nat, s: State, u: State)
    requires Valid(h, s) && Valid(h, u) && !s.insideTx && u == s.(world := u.world) && QuietFrom(h, v, targets, i, s)
    ensures AreTurns(|s.world.log|, Turns(h, v, targets, u), RunBranches(h, v, targets, i, s))
    ensures AllDeeds(Turns(h, v, targets, u)) == []
    decreases |targets|
  {
    if targets != [] {
      var a := ApplyTarget(h, v, targets[0], u);
      QuietIsTurn(h, v, targets[0], i, s, u);
      BranchesInParts(h, v, targets, i, s);
      var next := u.(world := a.s.world);
      QuietAreTurns(h, v, targets[1..], i + 1, s, next);
      FirstOfTurns(|s.world.log|, Turn(u, a), Turns(h, v, targets[1..], next),
                   ApplyTarget(h, v, targets[0], Fork(s, i)), RunBranches(h, v, targets[1..], i + 1, s));
    }
  }

  /** The parallel run of quiet branches, in turns. */
  lemma QuietRunsTurns(h: Host, v: Value, targets: seq<Expr>, i: nat, s: State)
    requires Valid(h, s) && !s.insideTx && i == 0 && QuietFrom(h, v, targets[i..], i, s)
    ensures var ts, b := Turns(h, v, targets, s), Gather(h, s, RunBranches(h, v, targets, i, s));
            && RealTurns(ts) && b.out == Collect(TurnOuts(ts)) && b.s.world.log == s.world.log && AllDeeds(ts) == []
            && SameState(b.s, s.(replies := Heard(s.replies, b.out)))
  {
    assert targets[i..] == targets;
    QuietAreTurns(h, v, targets, i, s, s);
    GatherTurns(h, s, RunBranches(h, v, targets, i, s), Turns(h, v, targets, s));
    SilentTurns(Turns(h, v, targets, s));
  }

  /**
   * If every branch, run on its own, leaves the outside alone, nobody can tell the fast path
   * from the parallel run: whatever the driver answers, and whatever schedule it takes.
   */
  lemma QuietBranchesUnseen(h: Host, v: Value, targets: seq<Expr>, s: State)
    requires Valid(h, s) && !s.insideTx
    requires forall k :: 0 <= k < |targets| ==> QuietAlone(h, v, targets[k], s, k)
    ensures Indistinguishable(InSequence(h, v, targets, s), InParallel(h, v, targets, s))
  {
    var ts := Turns(h, v, targets, s);
    ParallelInParts(h, v, targets, s);
    AllQuiet(h, v, targets, 0, s);
    QuietRunsTurns(h, v, targets, 0, s);
    SequenceRunsTurns(h, v, targets, s, s);
    SilentTurns(ts);
    DeedsSplit(ts, Reached(ts));
    TurnsCompared(h, h, s, ts, InSequence(h, v, targets, s), InParallel(h, v, targets, s));
  }

  /** Drivers whose answers do not depend on what was done before. */
  ghost predicate Heedless(h: Host) {
    && (forall x, y :: h.beginSucceeds(x) == h.beginSucceeds(y) && h.commitSucceeds(x) == h.commitSucceeds(y))
    && (forall x, y, q :: h.answers(x, q) == h.answers(y, q))
    && (forall x, y, ns, sel, args :: h.namespaceAnswers(x, ns, sel, args) == h.namespaceAnswers(y, ns, sel, args))
    && (forall x, y, bs :: h.schedule(x, bs) == h.schedule(y, bs))
  }

  lemma HeedlessInTurn(h: Host, base: seq<Event>, ts: seq<Turn>)
    requires Heedless(h)
    ensures InTurn(h, h, base, ts)
  {
    forall k | 0 <= k < |ts| ensures SameAnswers(TurnRoute(h, h, base, ts, k)) {
    }
  }

  /**
   * Under such a driver every parallel run, whatever the schedule, has the result, the state
   * and, with the same exceptions, the acts of the fast path. The database is the same too
   * if the schedule is that of the declaration order; under another one the batches of the
   * branches take effect in another order.
   */
  lemma HeedlessParallel(h: Host, v: Value, targets: seq<Expr>, s: State)
    requires Valid(h, s) && !s.insideTx && Heedless(h)
    ensures var a, b := InSequence(h, v, targets, s), InParallel(h, v, targets, s);
            && b.out == a.out && SameState(a.s, b.s)
            && (Flat(b.s.world.log) == Flat(a.s.world.log) <==> QuietBehindError(h, v, targets, s))
            && (h.schedule(s.world.log, TurnBranches(Turns(h, v, targets, s))) == [] ==>
                  (Indistinguishable(a, b) <==> QuietBehindError(h, v, targets, s)))
  {
    var ts := Turns(h, v, targets, s);
    HeedlessInTurn(h, s.world.log, ts);
    SequenceRunsTurns(h, v, targets, s, s);
    ParallelRunsTurns(h, h, v, targets, s);
    QuietBehind(h, v, targets, s);
    var a, b := InSequence(h, v, targets, s), InParallel(h, v, targets, s);
    ActsCompared(s, ts, a, b, h.schedule(s.world.log, TurnBranches(ts)));
    if h.schedule(s.world.log, TurnBranches(ts)) == [] {
      TurnsCompared(h, h, s, ts, a, b);
    }
  }

  /** A broadcast is its parallel run, or looks like the orderly one with exactly these exceptions. */
  lemma BroadcastIsParallel(h: Host, e: Expr, s: State)
    requires Valid(h, s) && e.Broadcast? && !s.insideTx && Eval(h, e.input, s).out.Ok?
    ensures var v, a := Eval(h, e.input, s), EvalBroadcast(h, e, s);
            if !BranchesArePure(h, v.s.env, e.targets) then a == InParallel(h, v.out.value, e.targets, v.s)
            else (Indistinguishable(a, InOrder(h, v.out.value, e.targets, v.s))
                  <==> QuietBehindError(h, v.out.value, e.targets, v.s))
  {
    var v := Eval(h, e.input, s);
    if BranchesArePure(h, v.s.env, e.targets) {
      SequenceIsParallel(h, v.out.value, e.targets, v.s);
    }
  }

  // --- What the purity check accepts ---

  lemma {:induction false} AnyExactly(es: seq<Expr>)
    ensures AnyHasSideEffects(es) <==> exists i :: 0 <= i < |es| && HasSideEffects(es[i])
    decreases |es|
  {
    if es != [] {
      AnyExactly(es[1..]);
      if AnyHasSideEffects(es[1..]) {
        var i :| 0 <= i < |es| - 1 && HasSideEffects(es[1..][i]);
        assert es[i + 1] == es[1..][i];
      }
      if exists i :: 1 <= i < |es| && HasSideEffects(es[i]) {
        var i :| 1 <= i < |es| && HasSideEffects(es[i]);
        assert es[1..][i - 1] == es[i];
      }
    }
  }

  /** Forms made of parts are pure if and only if all their parts are; five names never are, and no other form. */
  lemma PureForms(e: Expr)
    ensures e.IntLit? || e.BoolLit? || e.StrLit? || e.NullLit? ==> !HasSideEffects(e)
    ensures e.Ident? ==> (HasSideEffects(e) <==> e.name in {"db", "doc", "cache", "queue", "http_client"})
    ensures e.And? || e.Or? ==> (HasSideEffects(e) <==> HasSideEffects(e.left) || HasSideEffects(e.right))
    ensures e.ListLit? ==> (HasSideEffects(e) <==> exists i :: 0 <= i < |e.items| && HasSideEffects(e.items[i]))
    ensures e.Apply? ==> (HasSideEffects(e) <==> exists i :: 0 <= i < |e.operands| && HasSideEffects(e.operands[i]))
    ensures e.MethodCall? ==>
              (HasSideEffects(e) <==>
                 HasSideEffects(e.receiver) || exists i :: 0 <= i < |e.args| && HasSideEffects(e.args[i]))
    ensures e.Call? || e.If? || e.Match? || e.Pipeline? || e.Rescue? || e.Broadcast? ==> HasSideEffects(e)
  {
    match e
    case ListLit(items) => AnyExactly(items);
    case Apply(_, operands) => AnyExactly(operands);
    case MethodCall(_, _, args) => AnyExactly(args);
    case _ =>
  }

  // --- What the purity check is good for ---

  /** No method call in `e` reaches a task of another file. */
  predicate Detached(h: Host, e: Expr) {
    match e
    case ListLit(items) => AllDetached(h, items)
    case And(l, r) => Detached(h, l) && Detached(h, r)
    case Or(l, r) => Detached(h, l) && Detached(h, r)
    case Apply(_, operands) => AllDetached(h, operands)
    case MethodCall(recv, sel, args) =>
      && (recv.Ident? && h.hasRuntime ==> h.moduleTask(recv.name, sel).None?)
      && Detached(h, recv) && AllDetached(h, args)
    case _ => true
  }

  predicate AllDetached(h: Host, es: seq<Expr>) {
    es == [] || (Detached(h, es[0]) && AllDetached(h, es[1..]))
  }

  /** There is no method call in `e`. */
  predicate NoMethods(e: Expr) {
    match e
    case ListLit(items) => NoMethodsIn(items)
    case And(l, r) => NoMethods(l) && NoMethods(r)
    case Or(l, r) => NoMethods(l) && NoMethods(r)
    case Apply(_, operands) => NoMethodsIn(operands)
    case MethodCall(_, _, _) => false
    case _ => true
  }

  predicate NoMethodsIn(es: seq<Expr>) {
    es == [] || (NoMethods(es[0]) && NoMethodsIn(es[1..]))
  }

  function Result(b: Body): Expr {
    match b
    case Inline(e) => e
    case Block(_, ret) => ret
  }

  /** Nothing but the outside has changed, and that by requests and namespace calls only. */
  predicate Calm(s: State, r: Res) {
    r.s == s.(world := r.s.world) && OnlyRequests(r.s.world.log, |s.world.log|)
  }

  lemma CalmThen(s: State, a: Res, b: Res)
    requires Calm(s, a) && Calm(a.s, b) && Follows(s, a.s) && Follows(a.s, b.s)
    ensures Calm(s, b)
  {
    var from, mid := |s.world.log|, |a.s.world.log|;
    forall i | from <= i < |b.s.world.log| ensures b.s.world.log[i].Did? || b.s.world.log[i].Called? {
      assert i < mid ==> b.s.world.log[i] == a.s.world.log[i];
    }
  }

  /**
   * An expression judged pure changes nothing of the interpreter, and makes no response; it
   * can only make requests and call namespaces, and that only by method calls.
   */
  lemma {:induction false} PureEval(h: Host, e: Expr, s: State)
    requires Valid(h, s) && !s.insideTx && !HasSideEffects(e) && Detached(h, e)
    ensures Calm(s, Eval(h, e, s)) && (NoMethods(e) ==> Eval(h, e, s).s == s)
    decreases e, 1
  {
    match e
    case ListLit(items) => PureAll(h, items, s);
    case And(_, _) => PureLogical(h, e, s);
    case Or(_, _) => PureLogical(h, e, s);
    case Apply(_, operands) =>
      PureAll(h, operands, s);
      OperationInParts(h, e, s);
    case MethodCall(_, _, _) =>
      PureMethod(h, e, s);
      OperationInParts(h, e, s);
    case _ =>
  }

  lemma PureLogical(h: Host, e: Expr, s: State)
    requires Valid(h, s) && !s.insideTx && !HasSideEffects(e) && Detached(h, e) && (e.And? || e.Or?)
    ensures Calm(s, Eval(h, e, s)) && (NoMethods(e) ==> Eval(h, e, s).s == s)
    decreases e, 0
  {
    PureEval(h, e.left, s);
    var a := Eval(h, e.left, s);
    PureEval(h, e.right, a.s);
    CalmThen(s, a, Eval(h, e.right, a.s));
    assert Eval(h, e, s) == EvalLogical(h, e, s);
  }

  lemma PureMethod(h: Host, e: Expr, s: State)
    requires Valid(h, s) && !s.insideTx && !HasSideEffects(e) && Detached(h, e) && e.MethodCall?
    ensures Calm(s, EvalMethod(h, e, s))
    decreases e, 0
  {
    MethodInParts(h, e, s);
    PureEval(h, e.receiver, s);
    var o := Eval(h, e.receiver, s);
    if NamespaceTask(h, s.env, e.receiver, e.selector).None? && o.out.Ok? {
      PureAll(h, e.args, o.s);
      PureOnReceiver(h, o.out.value, e.selector, e.args, o.s);
      CalmThen(s, o, OnReceiver(h, o.out.value, e.selector, e.args, o.s));
    }
  }

  lemma PureOnReceiver(h: Host, receiver: Value, selector: string, args: seq<Expr>, s: State)
    requires Valid(h, s) && !s.insideTx && Calm(s, EvalAll(h, args, s))
    ensures Calm(s, OnReceiver(h, receiver, selector, args, s))
  {
    var a := EvalAll(h, args, s);
    assert InvokeOn(h, receiver, selector, args, s) ==
      if a.out.Err? then a else Invoke(h, receiver, selector, a.out.value.items, a.s);
    if a.out.Ok? {
      CalmInvoke(h, receiver, selector, a.out.value.items, a.s);
      CalmThen(s, a, Invoke(h, receiver, selector, a.out.value.items, a.s));
    }
  }

  lemma CalmInvoke(h: Host, receiver: Value, selector: string, args: seq<Value>, s: State)
    requires Valid(h, s) && !s.insideTx
    ensures Calm(s, Invoke(h, receiver, selector, args, s))
  {
  }

  lemma {:induction false} PureAll(h: Host, es: seq<Expr>, s: State)
    requires Valid(h, s) && !s.insideTx && !AnyHasSideEffects(es) && AllDetached(h, es)
    ensures Calm(s, EvalAll(h, es, s)) && (NoMethodsIn(es) ==> EvalAll(h, es, s).s == s)
    decreases es, 0
  {
    if es != [] {
      PureEval(h, es[0], s);
      var a := Eval(h, es[0], s);
      PureAll(h, es[1..], a.s);
      CalmThen(s, a, EvalAll(h, es[1..], a.s));
      AllInParts(h, es, s);
    }
  }

  lemma PureBody(h: Host, b: Body, s: State)
    requires Valid(h, s) && !s.insideTx && BodyIsPure(b) && Detached(h, Result(b))
    ensures Calm(s, RunBody(h, b, s)) && (NoMethods(Result(b)) ==> RunBody(h, b, s).s == s)
  {
    PureEval(h, Result(b), s);
    if b.Block? {
      assert ExecBlock(h, b.stmts, s) == Res(Ok(Null), s);
    }
  }

  /** What a call of a pure task leaves: a failure keeps its frame besides. */
  predicate CalmCall(s: State, r: Res) {
    r.s.replies == s.replies && r.s.dropped == s.dropped
  }

  lemma PureCall(h: Host, task: Value, args: seq<Value>, name: string, s: State)
    requires Valid(h, s) && !s.insideTx
    requires task.Task? && BodyIsPure(task.body) && Detached(h, Result(task.body))
    ensures CalmCall(s, CallTask(h, task, args, name, s))
    ensures NoMethods(Result(task.body)) ==> CallTask(h, task, args, name, s).s.world == s.world
  {
    if |task.params| == |args| && s.depth < h.maxDepth {
      var coerced := CoerceAll(h, if task.owner.Some? then task.owner else s.module_, task.params, args);
      if coerced.Some? {
        if task.owner.Some? && s.module_ != task.owner {
          PureForked(h, task, coerced.value, s);
        } else {
          PureLocal(h, task, coerced.value, s);
        }
      }
    }
  }

  lemma PureLocal(h: Host, task: Value, args: seq<Value>, s: State)
    requires Valid(h, s) && !s.insideTx && s.depth < h.maxDepth && task.Task? && |task.params| == |args|
    requires BodyIsPure(task.body) && Detached(h, Result(task.body))
    ensures CalmCall(s, CallLocal(h, task, args, s))
    ensures NoMethods(Result(task.body)) ==> CallLocal(h, task, args, s).s.world == s.world
  {
    PureBody(h, task.body, CalleeState(task, args, s));
  }

  lemma PureForked(h: Host, task: Value, args: seq<Value>, s: State)
    requires Valid(h, s) && !s.insideTx && s.depth < h.maxDepth && task.Task? && |task.params| == |args|
    requires BodyIsPure(task.body) && Detached(h, Result(task.body))
    ensures CalmCall(s, CallForked(h, task, args, s))
    ensures NoMethods(Result(task.body)) ==> CallForked(h, task, args, s).s.world == s.world
  {
    PureBody(h, task.body, ForkState(h, task, args, s));
  }

  /** What a pure branch calls. */
  function BranchTask(h: Host, env: Env<Value>, target: Expr): Option<Value> {
    match target
    case Ident(name) => Get(env, name)
    case Apply(Property(name), operands) =>
      if |operands| == 1 then NamespaceTask(h, env, operands[0], name) else None
    case _ => None
  }

  predicate BranchesWithoutMethods(h: Host, env: Env<Value>, targets: seq<Expr>) {
    forall i :: 0 <= i < |targets| ==>
      var t := BranchTask(h, env, targets[i]); t.Some? && t.value.Task? ==> NoMethods(Result(t.value.body))
  }

  lemma {:induction false} NoMethodsDetached(h: Host, e: Expr)
    requires NoMethods(e)
    ensures Detached(h, e)
    decreases e, 1
  {
    match e
    case ListLit(items) => NoMethodsInDetached(h, items);
    case And(l, r) =>
      NoMethodsDetached(h, l);
      NoMethodsDetached(h, r);
    case Or(l, r) =>
      NoMethodsDetached(h, l);
      NoMethodsDetached(h, r);
    case Apply(_, operands) => NoMethodsInDetached(h, operands);
    case _ =>
  }

  lemma {:induction false} NoMethodsInDetached(h: Host, es: seq<Expr>)
    requires NoMethodsIn(es)
    ensures AllDetached(h, es)
    decreases es, 0
  {
    if es != [] {
      NoMethodsDetached(h, es[0]);
      NoMethodsInDetached(h, es[1..]);
    }
  }

  lemma PureBranch(h: Host, v: Value, target: Expr, s: State)
    requires Valid(h, s) && !s.insideTx && BranchIsPure(h, s.env, target)
    requires Detached(h, Result(BranchTask(h, s.env, target).value.body))
    ensures CalmCall(s, ApplyTarget(h, v, target, s))
    ensures NoMethods(Result(BranchTask(h, s.env, target).value.body)) ==>
              Quiet(s, ApplyTarget(h, v, target, s))
  {
    var name := if target.Ident? then target.name else target.op.name;
    PureCall(h, BranchTask(h, s.env, target).value, [v], name, s);
  }

  lemma PureQuietAlone(h: Host, v: Value, targets: seq<Expr>, s: State, k: nat)
    requires Valid(h, s) && !s.insideTx && k < |targets|
    requires BranchesArePure(h, s.env, targets) && BranchesWithoutMethods(h, s.env, targets)
    ensures QuietAlone(h, v, targets[k], s, k)
  {
    ForkValid(h, s, k);
    assert BranchIsPure(h, s.env, targets[k]);
    NoMethodsDetached(h, Result(BranchTask(h, s.env, targets[k]).value.body));
    PureBranch(h, v, targets[k], Fork(s, k));
  }

  /**
   * For branches judged pure whose bodies hold no method call, nobody can tell the fast path
   * from the parallel run, whatever driver answers and in whatever order the branches are
   * taken: every host is covered, and a host stands for one interleaving.
   */
  lemma FastPathUnseen(h: Host, v: Value, targets: seq<Expr>, s: State)
    requires Valid(h, s) && !s.insideTx
    requires BranchesArePure(h, s.env, targets) && BranchesWithoutMethods(h, s.env, targets)
    ensures Indistinguishable(InSequence(h, v, targets, s), InParallel(h, v, targets, s))
    ensures Indistinguishable(InSequence(h, v, targets, s), InOrder(h, v, targets, s))
  {
    forall k | 0 <= k < |targets| ensures QuietAlone(h, v, targets[k], s, k) {
      PureQuietAlone(h, v, targets, s, k);
    }
    QuietBranchesUnseen(h, v, targets, s);
    SequenceIsParallel(h, v, targets, s);
  }

  // --- Where the purity check is too trusting ---

  /** A method call on a file namespace counts as pure, yet it calls a task. */
  lemma NamespaceCallCountsAsPure(h: Host, ns: string, sel: string, task: Value, s: State)
    requires Valid(h, s) && h.hasRuntime && Get(s.env, ns).None? && h.moduleTask(ns, sel) == Some(task)
    requires ns != "db" && ns != "doc" && ns != "cache" && ns != "queue" && ns != "http_client"
    ensures BodyIsPure(Inline(MethodCall(Ident(ns), sel, [])))
    ensures Eval(h, MethodCall(Ident(ns), sel, []), s) == CallTask(h, task, [], sel, s)
  {
    var e := MethodCall(Ident(ns), sel, []);
    assert !AnyHasSideEffects([]);
    assert Eval(h, e, s) == EvalMethod(h, e, s);
    assert EvalAll(h, [], s) == Res(Ok(List([])), s);
  }

  /** `name(x) => body`. */
  function TaskOf(name: string, x: string, body: Expr): Value {
    Task(name, [Param(x, None)], Inline(body), None)
  }

  lemma OneArgument(h: Host, m: Option<string>, x: string, v: Value, env: Env<Value>)
    ensures CoerceAll(h, m, [Param(x, None)], [v]) == Some([v])
    ensures Bind(env, [Param(x, None)], [v]) == Set(env, x, v)
  {
    assert [Param(x, None)][1..] == [] && [v][1..] == [];
    assert CoerceAll(h, m, [], []) == Some([]);
    assert [v] + [] == [v];
  }

  /** The state in which the body of `name(x) => body` starts. */
  function Inside(name: string, x: string, v: Value, s: State): State {
    s.(depth := s.depth + 1, frames := s.frames + [name], env := Set(Push(s.env), x, v))
  }

  lemma TaskOfRuns(h: Host, name: string, x: string, body: Expr, v: Value, s: State)
    requires Valid(h, s) && s.depth < h.maxDepth && !IsFetch(name)
    requires Get(s.env, name) == Some(TaskOf(name, x, body))
    ensures Valid(h, Inside(name, x, v, s))
    ensures var a, r := Eval(h, body, Inside(name, x, v, s)), ApplyTarget(h, v, Ident(name), s);
            r.out == a.out && r.s.world == a.s.world
  {
    var task := TaskOf(name, x, body);
    TaskOfCalls(h, name, x, body, v, s);
    OneArgument(h, s.module_, x, v, Push(s.env));
    assert CalleeState(task, [v], s) == Inside(name, x, v, s);
  }

  lemma TaskOfCalls(h: Host, name: string, x: string, body: Expr, v: Value, s: State)
    requires Valid(h, s) && s.depth < h.maxDepth && !IsFetch(name)
    requires Get(s.env, name) == Some(TaskOf(name, x, body))
    ensures ApplyTarget(h, v, Ident(name), s) == CallLocal(h, TaskOf(name, x, body), [v], s)
  {
    OneArgument(h, s.module_, x, v, Push(s.env));
    assert ApplyTarget(h, v, Ident(name), s) == CallTask(h, TaskOf(name, x, body), [v], name, s);
  }

  lemma TaskOfPure(h: Host, name: string, x: string, body: Expr, s: State)
    requires Get(s.env, name) == Some(TaskOf(name, x, body)) && !IsFetch(name) && !HasSideEffects(body)
    ensures BranchIsPure(h, s.env, Ident(name))
  {
  }

  /** A method call on a name that stands for a value. */
  lemma MethodOnName(h: Host, x: string, receiver: Value, sel: string, args: seq<Expr>, s: State)
    requires Valid(h, s) && EvalIdent(h, x, s).out == Ok(receiver) && NamespaceTask(h, s.env, Ident(x), sel).None?
    requires !IsUnboundNamespace(h, s.env, Ident(x)) && (IsRequest(receiver, sel) ==> h.hasDb)
    requires EvalAll(h, args, s).out.Ok?
    ensures var a := EvalAll(h, args, s);
            Eval(h, MethodCall(Ident(x), sel, args), s) == Invoke(h, receiver, sel, a.out.value.items, a.s)
  {
    var e := MethodCall(Ident(x), sel, args);
    OperationInParts(h, e, s);
    MethodInParts(h, e, s);
    assert Eval(h, Ident(x), s) == EvalIdent(h, x, s);
    assert Eval(h, e, s) == OnReceiver(h, receiver, sel, args, s) == InvokeOn(h, receiver, sel, args, s);
  }

  lemma SetThenGet(env: Env<Value>, x: string, v: Value)
    requires env.scopes != []
    ensures Get(Set(env, x, v), x) == Some(v)
  {
  }

  /**
   * Broadcasting a table into `name(x) => x.sel()` makes a request, though the branch is
   * judged pure; `find_all` is a selector that takes no arguments.
   */
  lemma TableCallCountsAsPure(h: Host, table: string, name: string, x: string, sel: string, s: State)
    requires Valid(h, s) && h.hasDb && s.depth < h.maxDepth && !IsFetch(name) && !IsReserved(x) && x != "queue"
    requires Get(s.env, name) == Some(TaskOf(name, x, MethodCall(Ident(x), sel, [])))
    requires h.rejects(Request(table, sel, [])).None?
    ensures BranchIsPure(h, s.env, Ident(name))
    ensures ApplyTarget(h, Table(table), Ident(name), s).s.world.log
         == s.world.log + [Did(Request(table, sel, []))]
  {
    var body, inner := MethodCall(Ident(x), sel, []), Inside(name, x, Table(table), s);
    assert !AnyHasSideEffects([]);
    TaskOfPure(h, name, x, body, s);
    TaskOfRuns(h, name, x, body, Table(table), s);
    SetThenGet(Push(s.env), x, Table(table));
    assert EvalAll(h, [], inner) == Res(Ok(List([])), inner);
    MethodOnName(h, x, Table(table), sel, [], inner);
  }

  lemma SetThenGetOther(env: Env<Value>, x: string, v: Value, y: string)
    requires y != x
    ensures Get(Set(Push(env), x, v), y) == Get(env, y)
  {
    var scopes := env.scopes + [map[]];
    assert scopes[..|scopes| - 1] == env.scopes;
    var inner := SetIn(scopes, x, v);
    assert inner[..|inner| - 1] == env.scopes && y !in inner[|inner| - 1];
  }

  /** `a(x) => missing`. */
  predicate IsFailing(s: State, a: string, x: string, missing: string) {
    && !IsFetch(a) && !IsReserved(missing) && missing != "queue" && missing != x
    && Get(s.env, missing).None? && Get(s.env, a) == Some(TaskOf(a, x, Ident(missing)))
  }

  lemma FailsQuietly(h: Host, a: string, x: string, missing: string, v: Value, s: State)
    requires Valid(h, s) && s.depth < h.maxDepth && IsFailing(s, a, x, missing)
    ensures var r := ApplyTarget(h, v, Ident(a), s);
            r.out == Err(UndefinedVariable(missing)) && r.s.world == s.world
    ensures BranchIsPure(h, s.env, Ident(a))
  {
    TaskOfPure(h, a, x, Ident(missing), s);
    TaskOfRuns(h, a, x, Ident(missing), v, s);
    SetThenGetOther(s.env, x, v, missing);
    var inner := Inside(a, x, v, s);
    assert Eval(h, Ident(missing), inner) == EvalIdent(h, missing, inner);
  }

  /** `b(x) => log.info(x)`, where `log` is the built-in namespace. */
  predicate IsLogging(h: Host, s: State, b: string, x: string) {
    && !IsFetch(b) && !IsReserved(x) && x != "queue"
    && (h.hasRuntime ==> h.moduleTask("log", "info").None? && !h.isNamespace("log"))
    && Get(s.env, b) == Some(TaskOf(b, x, MethodCall(Ident("log"), "info", [Ident(x)])))
  }

  lemma WritesLog(h: Host, b: string, x: string, v: Value, s: State)
    requires Valid(h, s) && s.depth < h.maxDepth && IsLogging(h, s, b, x)
    ensures ApplyTarget(h, v, Ident(b), s).s.world.log == s.world.log + [Called("log", "info", [v])]
    ensures BranchIsPure(h, s.env, Ident(b))
  {
    var body, inner := MethodCall(Ident("log"), "info", [Ident(x)]), Inside(b, x, v, s);
    OnlyOne(h, x, v, inner);
    TaskOfPure(h, b, x, body, s);
    TaskOfRuns(h, b, x, body, v, s);
    SetThenGet(Push(s.env), x, v);
    MethodOnName(h, "log", Namespace("log"), "info", [Ident(x)], inner);
  }

  lemma OnlyOne(h: Host, x: string, v: Value, s: State)
    requires Valid(h, s) && !IsReserved(x) && x != "queue"
    ensures !AnyHasSideEffects([Ident(x)])
    ensures Get(s.env, x) == Some(v) ==> EvalAll(h, [Ident(x)], s) == Res(Ok(List([v])), s)
  {
    assert [Ident(x)][1..] == [] && !AnyHasSideEffects([]);
    assert EvalAll(h, [], s) == Res(Ok(List([])), s);
    assert Eval(h, Ident(x), s) == EvalIdent(h, x, s);
    assert [v] + [] == [v];
  }

  /**
   * Two branches that are judged pure, one that fails quietly and one that writes a line to
   * the log: every parallel run writes it, whatever the driver, and the fast path does not.
   */
  lemma FastPathSkips(h: Host, g: Host, a: string, b: string, x: string, missing: string, v: Value, s: State)
    requires Valid(h, s) && Valid(g, s) && !s.insideTx && s.depth < h.maxDepth && s.depth < g.maxDepth
    requires IsFailing(s, a, x, missing) && IsLogging(h, s, b, x) && IsLogging(g, s, b, x)
    ensures BranchesArePure(h, s.env, [Ident(a), Ident(b)])
    ensures InSequence(h, v, [Ident(a), Ident(b)], s).s.world == s.world
    ensures RunsSecond(s, InParallel(g, v, [Ident(a), Ident(b)], s), [Called("log", "info", [v])])
    ensures !Indistinguishable(InSequence(h, v, [Ident(a), Ident(b)], s), InParallel(g, v, [Ident(a), Ident(b)], s))
  {
    FailsQuietly(h, a, x, missing, v, s);
    LoggingIsPure(h, b, x, s);
    WritesLogAlone(g, b, x, v, s);
    SkipsSecond(h, g, [Ident(a), Ident(b)], v, Called("log", "info", [v]), s);
  }

  lemma WritesLogAlone(h: Host, b: string, x: string, v: Value, s: State)
    requires Valid(h, s) && !s.insideTx && s.depth < h.maxDepth && IsLogging(h, s, b, x)
    ensures DoesAlone(h, v, Ident(b), Called("log", "info", [v]), s)
  {
    ForkValid(h, s, 1);
    WritesLog(h, b, x, v, Fork(s, 1));
  }

  /** As the second branch, run on its own, the target does just `e`. */
  predicate DoesAlone(h: Host, v: Value, target: Expr, e: Event, s: State) {
    Valid(h, Fork(s, 1)) && ApplyTarget(h, v, target, Fork(s, 1)).s.world.log == Fork(s, 1).world.log + [e]
  }

  lemma LoggingIsPure(h: Host, b: string, x: string, s: State)
    requires IsLogging(h, s, b, x)
    ensures BranchIsPure(h, s.env, Ident(b))
  {
    assert !AnyHasSideEffects([]) && [Ident(x)][1..] == [] && !AnyHasSideEffects([Ident(x)]);
    assert !HasSideEffects(Ident("log"));
    TaskOfPure(h, b, x, MethodCall(Ident("log"), "info", [Ident(x)]), s);
  }

  lemma SkipsSecond(h: Host, g: Host, targets: seq<Expr>, v: Value, e: Event, s: State)
    requires Valid(h, s) && Valid(g, s) && !s.insideTx && |targets| > 1
    requires var r := ApplyTarget(h, v, targets[0], s); r.out.Err? && r.s.world == s.world
    requires DoesAlone(g, v, targets[1], e, s) && FlatOf(e) != []
    ensures InSequence(h, v, targets, s).s.world == s.world
    ensures RunsSecond(s, InParallel(g, v, targets, s), [e])
    ensures !Indistinguishable(InSequence(h, v, targets, s), InParallel(g, v, targets, s))
  {
    StopsAtFirst(h, v, targets, s);
    SecondDoes(g, v, targets, e, s);
    SecondShows(g, s, InSequence(h, v, targets, s), InParallel(g, v, targets, s), e);
  }

  /** `b(x) => x.sel()`. */
  predicate IsAsking(s: State, b: string, x: string, sel: string) {
    !IsFetch(b) && !IsReserved(x) && x != "queue" && Get(s.env, b) == Some(TaskOf(b, x, MethodCall(Ident(x), sel, [])))
  }

  /**
   * The same with a second branch that, when a table is broadcast into it, asks the database:
   * every parallel run makes the request, under any driver that does not reject it.
   */
  lemma FastPathSkipsRequest(
      h: Host, g: Host, a: string, b: string, x: string, missing: string, sel: string, table: string, s: State)
    requires Valid(h, s) && Valid(g, s) && !s.insideTx && s.depth < h.maxDepth && s.depth < g.maxDepth
    requires IsFailing(s, a, x, missing) && IsAsking(s, b, x, sel)
    requires g.hasDb && g.rejects(Request(table, sel, [])).None?
    ensures BranchesArePure(h, s.env, [Ident(a), Ident(b)])
    ensures InSequence(h, Table(table), [Ident(a), Ident(b)], s).s.world == s.world
    ensures RunsSecond(s, InParallel(g, Table(table), [Ident(a), Ident(b)], s), [Did(Request(table, sel, []))])
    ensures !Indistinguishable(InSequence(h, Table(table), [Ident(a), Ident(b)], s),
                               InParallel(g, Table(table), [Ident(a), Ident(b)], s))
  {
    FailsQuietly(h, a, x, missing, Table(table), s);
    AskingIsPure(h, b, x, sel, s);
    ForkValid(g, s, 1);
    TableCallCountsAsPure(g, table, b, x, sel, Fork(s, 1));
    SkipsSecond(h, g, [Ident(a), Ident(b)], Table(table), Did(Request(table, sel, [])), s);
  }

  lemma AskingIsPure(h: Host, b: string, x: string, sel: string, s: State)
    requires IsAsking(s, b, x, sel)
    ensures BranchIsPure(h, s.env, Ident(b))
  {
    assert !AnyHasSideEffects([]);
    TaskOfPure(h, b, x, MethodCall(Ident(x), sel, []), s);
  }

  lemma SecondShows(h: Host, s: State, a: Res, r: Res, e: Event)
    requires a.s.world == s.world && Good(h, s, r) && RunsSecond(s, r, [e]) && FlatOf(e) != []
    ensures !Indistinguishable(a, r)
  {
    var joined := r.s.world.log[|s.world.log|];
    assert r.s.world.log == s.world.log + [joined];
    FlatConcat(s.world.log, [joined]);
    OneFlat(joined);
    OneFlat(e);
    assert FlatBranch(joined.branches[1]) == Flat([e]);
    PartShows(joined.branches, 1);
  }

  /** What the second branch does alone is in the parallel run. */
  lemma SecondDoes(h: Host, v: Value, targets: seq<Expr>, e: Event, s: State)
    requires Valid(h, s) && !s.insideTx && |targets| > 1 && DoesAlone(h, v, targets[1], e, s)
    ensures RunsSecond(s, InParallel(h, v, targets, s), [e])
  {
    ParallelInParts(h, v, targets, s);
    SecondRuns(h, v, targets, 0, s, e);
  }

  /** Parallel branches were run, and the second one did just `events`. */
  predicate RunsSecond(s: State, r: Res, events: seq<Event>) {
    var n := |s.world.log|;
    && |r.s.world.log| == n + 1 && r.s.world.log[n].Joined?
    && |r.s.world.log[n].branches| > 1 && r.s.world.log[n].branches[1].events == events
  }

  lemma StopsAtFirst(h: Host, v: Value, targets: seq<Expr>, s: State)
    requires Valid(h, s) && !s.insideTx && targets != []
    requires var r := ApplyTarget(h, v, targets[0], s); r.out.Err? && r.s.world == s.world
    ensures InSequence(h, v, targets, s).s.world == s.world
  {
    SequenceInParts(h, v, targets, s);
  }

  lemma SecondBranch(h: Host, v: Value, targets: seq<Expr>, i: nat, s: State)
    requires Valid(h, s) && !s.insideTx && |targets| > 1 && Valid(h, Fork(s, i + 1))
    ensures RunBranches(h, v, targets, i, s)[1] == ApplyTarget(h, v, targets[1], Fork(s, i + 1))
  {
    assert RunBranches(h, v, targets, i, s)[1..] == RunBranches(h, v, targets[1..], i + 1, s);
    assert targets[1..][0] == targets[1];
  }

  lemma SecondRuns(h: Host, v: Value, targets: seq<Expr>, i: nat, s: State, e: Event)
    requires Valid(h, s) && !s.insideTx && |targets| > 1 && i == 0 && Valid(h, Fork(s, i + 1))
    requires ApplyTarget(h, v, targets[1], Fork(s, i + 1)).s.world.log == s.world.log + [Forked(i + 1)] + [e]
    ensures RunsSecond(s, Gather(h, s, RunBranches(h, v, targets, i, s)), [e])
  {
    SecondBranch(h, v, targets, i, s);
    SecondGathered(h, s, RunBranches(h, v, targets, i, s), i, e);
  }

  lemma SecondGathered(h: Host, s: State, rs: seq<Res>, i: nat, e: Event)
    requires |rs| > 1 && rs[1].s.world.log == s.world.log + [Forked(i + 1)] + [e]
    ensures RunsSecond(s, Gather(h, s, rs), [e])
  {
    assert rs[1].s.world.log[|s.world.log| + 1..] == [e];
    assert OwnAll(|s.world.log|, rs)[1].events == [e];
  }
}
