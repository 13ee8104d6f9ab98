/**
 * Whole runs: transactions are atomic, brackets never nest on any connection, parallel
 * branches take effect as an interleaving of what each did, and errors travel past stages.
 */
module Runs {
  import opened Options
  import opened Ast
  import opened Semantics
  import opened Routes

  // --- Transactions ---

  /** The requests of the events from `from` on. */
  function RequestsFrom(log: seq<Event>, from: nat): seq<Request>
    decreases |log|
  {
    if |log| <= from then []
    else
      var before, e := RequestsFrom(log[..|log| - 1], from), log[|log| - 1];
      if e.Did? then before + [e.request] else before
  }

  lemma {:induction false} BookInside(log: seq<Event>, from: nat)
    requires 1 <= from <= |log| && log[from - 1] == Began && OnlyRequests(log, from)
    requires Book(log[..from - 1]).Ledger? && Book(log[..from - 1]).open.None?
    ensures Book(log) == Ledger(Book(log[..from - 1]).kept, Some(RequestsFrom(log, from)))
    decreases |log|
  {
    var init := log[..|log| - 1];
    if |log| > from {
      assert init[..from - 1] == log[..from - 1];
      BookInside(init, from);
    }
  }

  /** The state in which the body of a transaction ends. */
  function BodyRun(h: Host, body: seq<Stmt>, s: State): Res
    requires Valid(h, s) && !s.insideTx && h.beginSucceeds(s.world.log)
  {
    ExecBlock(h, body, Begin(h, s).s)
  }

  /**
   * The bracket of a transaction holds nothing but the requests of its body and calls of
   * namespaces; the requests pile up in the open transaction and leave the database alone.
   */
  lemma BodyRequests(h: Host, body: seq<Stmt>, s: State)
    requires Valid(h, s) && !s.insideTx && h.beginSucceeds(s.world.log)
    ensures var run, n := BodyRun(h, body, s), |s.world.log|;
            && |run.s.world.log| > n && run.s.world.log[..n + 1] == s.world.log + [Began]
            && OnlyRequests(run.s.world.log, n + 1)
            && run.s.insideTx && run.s.world.db == s.world.db
            && run.s.tx == Some(RequestsFrom(run.s.world.log, n + 1))
  {
    var run := BodyRun(h, body, s);
    var n, log := |s.world.log|, run.s.world.log;
    assert Good(h, Begin(h, s).s, run);
    assert log[..n + 1] == s.world.log + [Began];
    assert log[..n] == s.world.log;
    BookInside(log, n + 1);
  }

  /**
   * A transaction that begins runs its body in one bracket. The bracket is closed by a
   * commit attempt exactly when the body ends without an error, and by a rollback
   * otherwise; only a commit that succeeds changes the database, and it does so by
   * exactly the requests of the body.
   */
  lemma TransactionAtomic(h: Host, body: seq<Stmt>, s: State)
    requires Valid(h, s) && !s.insideTx && h.hasDb && h.beginSucceeds(s.world.log)
    ensures var run, r := BodyRun(h, body, s), ExecTransaction(h, body, s);
            var log := run.s.world.log;
            && s.world.log + [Began] <= log && OnlyRequests(log, |s.world.log| + 1)
            && r.s.world.log == log + [if run.out.Err? then RolledBack
                                       else if h.commitSucceeds(log) then Committed else CommitFailed]
            && r.out == (if run.out.Err? then run.out else if h.commitSucceeds(log) then Ok(Null) else Err(TypeError))
            && !r.s.insideTx && r.s.tx.None?
    ensures var run, r := BodyRun(h, body, s), ExecTransaction(h, body, s);
            r.s.world.db == if r.out.Err? then s.world.db
                            else ApplyAll(h, s.world.db, RequestsFrom(run.s.world.log, |s.world.log| + 1))
  {
    BodyRequests(h, body, s);
  }

  // --- Brackets ---

  predicate Closes(e: Event) {
    e.Committed? || e.CommitFailed? || e.RolledBack?
  }

  /** Between two beginnings on one connection there is an end, and broadcasts stay outside brackets. */
  predicate Unnested(log: seq<Event>) {
    forall i, j :: 0 <= i < j < |log| && log[i].Began? && (log[j].Began? || log[j].Joined?) ==>
      exists k :: i < k < j && Closes(log[k])
  }

  /** Before event number `n` there is a beginning that nothing has ended. */
  predicate OpenAt(log: seq<Event>, n: nat)
    requires n <= |log|
  {
    exists i :: 0 <= i < n && OpenFrom(log, i, n)
  }

  predicate OpenFrom(log: seq<Event>, i: nat, n: nat)
    requires i < n <= |log|
  {
    log[i].Began? && forall k :: i < k < n ==> !Closes(log[k])
  }

  /** Every end has its own beginning: one that no other end lies behind. */
  predicate Matched(log: seq<Event>) {
    forall j :: 0 <= j < |log| && Closes(log[j]) ==> OpenAt(log, j)
  }

  /** Nothing is open at the end. */
  predicate Closed(log: seq<Event>) {
    forall i :: 0 <= i < |log| && log[i].Began? ==> exists k :: i < k < |log| && Closes(log[k])
  }

  /** The same holds on the connection of every parallel branch. */
  predicate BranchesClosed(log: seq<Event>) {
    forall i :: 0 <= i < |log| && log[i].Joined? ==> AllClosed(log[i].branches)
  }

  predicate AllClosed(branches: seq<Branch>) {
    forall k :: 0 <= k < |branches| ==>
      var l := BookBranch(branches[k]); l.Ledger? && l.open.None?
  }

  lemma {:induction false} KeptBranchesClosed(branches: seq<Branch>)
    requires BookAll(branches).Some?
    ensures AllClosed(branches)
    decreases |branches|
  {
    if branches != [] {
      KeptBranchesClosed(branches[1..]);
      forall k | 0 <= k < |branches| ensures var l := BookBranch(branches[k]); l.Ledger? && l.open.None? {
        assert k > 0 ==> branches[k] == branches[1..][k - 1];
      }
    }
  }

  /** An open transaction was begun, and nothing has ended since; a closed one has ended. */
  predicate OpenSince(log: seq<Event>, l: Ledger) {
    if l.Ledger? && l.open.Some? then OpenAt(log, |log|) else Closed(log)
  }

  lemma {:induction false} LedgerOpens(log: seq<Event>)
    requires Book(log).Ledger?
    ensures OpenSince(log, Book(log))
    decreases |log|
  {
    if log != [] {
      var init, e := log[..|log| - 1], log[|log| - 1];
      assert init + [e] == log;
      LedgerOpens(init);
      OpensStep(init, e);
    }
  }

  lemma OpensStep(init: seq<Event>, e: Event)
    requires Book(init).Ledger? && OpenSince(init, Book(init)) && Book(init + [e]).Ledger?
    ensures OpenSince(init + [e], Book(init + [e]))
  {
    BookPush(init, e);
    var log := init + [e];
    assert log[|init|] == e;
    if Book(init).open.Some? {
      var i :| 0 <= i < |init| && OpenFrom(init, i, |init|);
      if !Closes(e) {
        assert OpenFrom(log, i, |log|);
      } else {
        assert Closed(log) by {
          forall j | 0 <= j < |log| && log[j].Began? ensures exists k :: j < k < |log| && Closes(log[k]) {
            assert Closes(log[|init|]);
          }
        }
      }
    } else if !e.Began? {
      assert Closed(log) by {
        forall i | 0 <= i < |log| && log[i].Began? ensures exists k :: i < k < |log| && Closes(log[k]) {
          var k :| i < k < |init| && Closes(init[k]);
          assert Closes(log[k]);
        }
      }
    } else {
      assert OpenFrom(log, |init|, |log|);
    }
  }

  lemma {:induction false} LedgerBrackets(log: seq<Event>)
    requires Book(log).Ledger?
    ensures Unnested(log) && Matched(log) && BranchesClosed(log)
    decreases |log|
  {
    if log != [] {
      var init, e := log[..|log| - 1], log[|log| - 1];
      assert init + [e] == log;
      BookPush(init, e);
      LedgerOpens(init);
      LedgerBrackets(init);
      BracketsStep(init, e);
    }
  }

  lemma BracketsStep(init: seq<Event>, e: Event)
    requires Book(init).Ledger? && OpenSince(init, Book(init)) && Book(init + [e]).Ledger?
    requires Unnested(init) && Matched(init) && BranchesClosed(init)
    ensures Unnested(init + [e]) && Matched(init + [e]) && BranchesClosed(init + [e])
  {
    BookPush(init, e);
    UnnestedStep(init, e);
    MatchedStep(init, e);
    if e.Joined? {
      KeptBranchesClosed(e.branches);
    }
  }

  lemma UnnestedStep(init: seq<Event>, e: Event)
    requires Unnested(init) && (e.Began? || e.Joined? ==> Closed(init))
    ensures Unnested(init + [e])
  {
    var log := init + [e];
    forall i, j | 0 <= i < j < |log| && log[i].Began? && (log[j].Began? || log[j].Joined?)
      ensures exists k :: i < k < j && Closes(log[k])
    {
      assert init[i].Began?;
      var k :| i < k < j && k < |init| && Closes(init[k]);
      assert Closes(log[k]);
    }
  }

  lemma MatchedStep(init: seq<Event>, e: Event)
    requires Matched(init) && (Closes(e) ==> OpenAt(init, |init|))
    ensures Matched(init + [e])
  {
    var log := init + [e];
    forall j | 0 <= j < |log| && Closes(log[j]) ensures OpenAt(log, j) {
      assert j < |init| ==> Closes(init[j]);
      var i :| 0 <= i < j && OpenFrom(init, i, j);
      assert OpenFrom(log, i, j);
    }
  }

  /** Brackets match, never nest and are closed, here and on the connections of all branches, theirs included. */
  predicate Bracketed(log: seq<Event>) {
    && Unnested(log) && Matched(log) && Closed(log)
    && forall i :: 0 <= i < |log| && log[i].Joined? ==>
         forall k :: 0 <= k < |log[i].branches| ==> Bracketed(log[i].branches[k].events)
  }

  lemma {:induction false} LedgerBracketed(log: seq<Event>)
    requires Book(log).Ledger? && Book(log).open.None?
    ensures Bracketed(log)
    decreases log
  {
    LedgerBrackets(log);
    LedgerOpens(log);
    forall i | 0 <= i < |log| && log[i].Joined?
      ensures forall k :: 0 <= k < |log[i].branches| ==> Bracketed(log[i].branches[k].events)
    {
      assert AllClosed(log[i].branches);
      forall k | 0 <= k < |log[i].branches| ensures Bracketed(log[i].branches[k].events) {
        var b := log[i].branches[k];
        assert BookBranch(b).Ledger? && BookBranch(b).open.None?;
        LedgerBracketed(b.events);
      }
    }
  }

  /**
   * After any run, under any driver: on the main connection and on those of all parallel
   * branches brackets match, never nest and are closed, and the database is what the
   * batches that were kept make of it, one after the other.
   */
  lemma RunsAreAtomic(h: Host, program: seq<Stmt>, s: State)
    requires Valid(h, s) && !s.insideTx
    ensures var r := Execute(h, program, s);
            var log, l := r.s.world.log, Book(r.s.world.log);
            && !r.s.insideTx && r.s.tx.None? && l.Ledger? && l.open.None?
            && Bracketed(log)
            && r.s.world.db == ApplyBatches(h, s.world.start, l.kept)
  {
    var r := Execute(h, program, s);
    assert Good(h, s, r);
    LedgerBracketed(r.s.world.log);
  }

  // --- Parallel branches ---

  /** `out` interleaves `parts`: it takes the first of some part, again and again. */
  predicate IsShuffle(parts: seq<seq<Batch>>, out: seq<Batch>)
    decreases |out|
  {
    if out == [] then forall i :: 0 <= i < |parts| ==> parts[i] == []
    else exists i :: 0 <= i < |parts| && parts[i] != [] && parts[i][0] == out[0]
                     && IsShuffle(parts[i := parts[i][1..]], out[1..])
  }

  lemma TakeFirst(parts: seq<seq<Batch>>, i: nat, rest: seq<Batch>)
    requires i < |parts| && parts[i] != [] && IsShuffle(parts[i := parts[i][1..]], rest)
    ensures IsShuffle(parts, [parts[i][0]] + rest)
  {
    var out := [parts[i][0]] + rest;
    assert out[1..] == rest;
  }

  /** One part after the other is one of the interleavings. */
  lemma {:induction false} ConcatShuffles(parts: seq<seq<Batch>>)
    ensures IsShuffle(parts, Concat(parts))
    decreases |Concat(parts)|, |parts|
  {
    if i :| 0 <= i < |parts| && parts[i] != [] && forall k :: 0 <= k < i ==> parts[k] == [] {
      ConcatFirst(parts, i);
      ConcatShuffles(parts[i := parts[i][1..]]);
      TakeFirst(parts, i, Concat(parts[i := parts[i][1..]]));
    } else {
      NoFirst(parts, 0);
      ConcatEmpty(parts);
    }
  }

  lemma NoFirst(parts: seq<seq<Batch>>, n: nat)
    requires n <= |parts| && forall k :: 0 <= k < n ==> parts[k] == []
    requires !exists i :: 0 <= i < |parts| && parts[i] != [] && forall k :: 0 <= k < i ==> parts[k] == []
    ensures forall k :: 0 <= k < |parts| ==> parts[k] == []
    decreases |parts| - n
  {
    if n < |parts| {
      NoFirst(parts, n + 1);
    }
  }

  lemma {:induction false} ConcatEmpty(parts: seq<seq<Batch>>)
    requires forall k :: 0 <= k < |parts| ==> parts[k] == []
    ensures Concat(parts) == []
    decreases |parts|
  {
    if parts != [] {
      ConcatEmpty(parts[1..]);
    }
  }

  lemma {:induction false} ConcatFirst(parts: seq<seq<Batch>>, i: nat)
    requires i < |parts| && parts[i] != [] && forall k :: 0 <= k < i ==> parts[k] == []
    ensures Concat(parts) == [parts[i][0]] + Concat(parts[i := parts[i][1..]])
    decreases |parts|
  {
    var less := parts[i := parts[i][1..]];
    if i > 0 {
      ConcatFirst(parts[1..], i - 1);
      assert less[1..] == parts[1..][i - 1 := parts[i][1..]];
    } else {
      assert less[1..] == parts[1..];
    }
  }

  /** Whatever the host schedules is an interleaving: each branch keeps the order of its own batches. */
  lemma {:induction false} MergeShuffles(parts: seq<seq<Batch>>, order: seq<nat>)
    ensures IsShuffle(parts, Merge(parts, order))
    decreases |order|
  {
    if order == [] {
      ConcatShuffles(parts);
    } else if order[0] < |parts| && parts[order[0]] != [] {
      MergeShuffles(parts[order[0] := parts[order[0]][1..]], order[1..]);
      TakeFirst(parts, order[0], Merge(parts[order[0] := parts[order[0]][1..]], order[1..]));
    } else {
      MergeShuffles(parts, order[1..]);
    }
  }

  /** And every interleaving is the schedule of some host. */
  lemma {:induction false} ShufflesMerge(parts: seq<seq<Batch>>, out: seq<Batch>) returns (order: seq<nat>)
    requires IsShuffle(parts, out)
    ensures Merge(parts, order) == out
    decreases |out|
  {
    if out == [] {
      ConcatEmpty(parts);
      order := [];
    } else {
      var i: nat :| i < |parts| && parts[i] != [] && parts[i][0] == out[0]
                    && IsShuffle(parts[i := parts[i][1..]], out[1..]);
      var rest := ShufflesMerge(parts[i := parts[i][1..]], out[1..]);
      order := [i] + rest;
      assert order[1..] == rest;
    }
  }

  /** The results in declaration order, or the error of the first branch that fails. */
  lemma CollectInOrder(outs: seq<Outcome>)
    ensures (forall i :: 0 <= i < |outs| ==> outs[i].Ok?) ==>
              && Collect(outs).Ok? && Collect(outs).value.List? && |Collect(outs).value.items| == |outs|
              && forall i :: 0 <= i < |outs| ==> Collect(outs).value.items[i] == outs[i].value
    ensures forall i :: 0 <= i < |outs| && outs[i].Err? && (forall j :: 0 <= j < i ==> outs[j].Ok?) ==>
              Collect(outs) == outs[i]
    decreases |outs|
  {
    if forall i :: 0 <= i < |outs| ==> outs[i].Ok? {
      CollectValues(outs);
    }
    forall i | 0 <= i < |outs| && outs[i].Err? && (forall j :: 0 <= j < i ==> outs[j].Ok?)
      ensures Collect(outs) == outs[i]
    {
      CollectError(outs, i);
    }
  }

  lemma {:induction false} CollectValues(outs: seq<Outcome>)
    requires forall i :: 0 <= i < |outs| ==> outs[i].Ok?
    ensures Collect(outs).Ok? && Collect(outs).value.List? && |Collect(outs).value.items| == |outs|
    ensures forall i :: 0 <= i < |outs| ==> Collect(outs).value.items[i] == outs[i].value
    decreases |outs|
  {
    if outs != [] {
      CollectValues(outs[1..]);
      forall i | 0 <= i < |outs| ensures Collect(outs).value.items[i] == outs[i].value {
        assert i > 0 ==> outs[i] == outs[1..][i - 1];
      }
    }
  }

  lemma {:induction false} CollectError(outs: seq<Outcome>, i: nat)
    requires i < |outs| && outs[i].Err? && forall j :: 0 <= j < i ==> outs[j].Ok?
    ensures Collect(outs) == outs[i]
    decreases |outs|
  {
    if i > 0 {
      assert outs[0].Ok?;
      assert forall j :: 0 <= j < i - 1 ==> outs[1..][j] == outs[j + 1];
      CollectError(outs[1..], i - 1);
    }
  }

  /**
   * A parallel broadcast: every branch runs to its end, on its own copy of the interpreter
   * and on its own history, the results are in declaration order, and the batches that the
   * branches kept take effect in some interleaving.
   */
  lemma ParallelInOrder(h: Host, v: Value, targets: seq<Expr>, s: State)
    requires Valid(h, s) && !s.insideTx
    ensures var rs, r := RunBranches(h, v, targets, 0, s), InParallel(h, v, targets, s);
            && r.out == Collect(Outs(rs))
            && r.s.env == s.env && r.s.depth == s.depth && r.s.frames == s.frames
            && exists kepts, out :: BookAll(OwnAll(|s.world.log|, rs)) == Some(kepts) && IsShuffle(kepts, out)
                                    && r.s.world.db == ApplyBatches(h, s.world.db, out)
  {
    var rs := RunBranches(h, v, targets, 0, s);
    ShuffleTakesEffect(h, s, rs);
  }

  lemma ShuffleTakesEffect(h: Host, s: State, rs: seq<Res>)
    requires Valid(h, s) && !s.insideTx && AllGood(h, s, 0, rs)
    ensures exists kepts, out :: BookAll(OwnAll(|s.world.log|, rs)) == Some(kepts) && IsShuffle(kepts, out)
                                 && Gather(h, s, rs).s.world.db == ApplyBatches(h, s.world.db, out)
  {
    var bs := OwnAll(|s.world.log|, rs);
    forall k | 0 <= k < |bs| ensures BookBranch(bs[k]).Ledger? && BookBranch(bs[k]).open.None? {
      assert GoodBranch(h, s, 0 + k, rs[k]);
      OwnCloses(h, s, k, rs[k]);
    }
    AllClose(bs);
    var kepts := BookAll(bs).value;
    if AllSilent(bs) {
      SilentKeepsNothing(bs);
      assert IsShuffle(kepts, []);
      assert ApplyBatches(h, s.world.db, []) == s.world.db;
    } else {
      MergeShuffles(kepts, h.schedule(s.world.log, bs));
    }
  }

  lemma {:induction false} SilentKeepsNothing(bs: seq<Branch>)
    requires AllSilent(bs) && BookAll(bs).Some?
    ensures forall i :: 0 <= i < |bs| ==> BookAll(bs).value[i] == []
    decreases |bs|
  {
    if bs != [] {
      SilentKeepsNothing(bs[1..]);
      assert bs[0].events == [] && Book([]) == Ledger([], None);
    }
  }

  function OwnReply(r: Res): seq<Response> {
    if IsHttp(r.out) then [r.out.error.response] else []
  }

  /** All responses made by branches and by branches of theirs. */
  function Spoken(rs: seq<Res>): seq<Response> {
    if rs == [] then [] else rs[0].s.dropped + OwnReply(rs[0]) + Spoken(rs[1..])
  }

  lemma {:induction false} LostIsSpoken(rs: seq<Res>)
    ensures Lost(rs, true) == Spoken(rs)
    decreases |rs|
  {
    if rs != [] {
      LostIsSpoken(rs[1..]);
    }
  }

  /** The response of the first branch that fails, if it makes one. */
  function FirstReply(rs: seq<Res>): seq<Response> {
    if rs == [] then [] else if rs[0].out.Err? then OwnReply(rs[0]) else FirstReply(rs[1..])
  }

  lemma {:induction false} FirstIsCollected(rs: seq<Res>, s: State)
    ensures FirstReply(rs) == OwnReply(Res(Collect(Outs(rs)), s))
    decreases |rs|
  {
    if rs != [] {
      assert Outs(rs)[1..] == Outs(rs[1..]);
      FirstIsCollected(rs[1..], s);
    }
  }

  lemma {:induction false} LostOrFirst(rs: seq<Res>)
    ensures multiset(Spoken(rs)) == multiset(Lost(rs, false)) + multiset(FirstReply(rs))
    decreases |rs|
  {
    if rs != [] {
      var rest := rs[1..];
      SpokenSplits(rs[0].s.dropped, OwnReply(rs[0]), Spoken(rest));
      if rs[0].out.Err? {
        LostIsSpoken(rest);
        SpokenSplits(rs[0].s.dropped, [], Lost(rest, true));
      } else {
        LostOrFirst(rest);
        SpokenSplits(rs[0].s.dropped, [], Lost(rest, false));
      }
    }
  }

  lemma SpokenSplits(lost: seq<Response>, own: seq<Response>, rest: seq<Response>)
    ensures multiset(lost + own + rest) == multiset(lost) + multiset(own) + multiset(rest)
  {
  }

  lemma OwnReplies(h: Host, s: State, rs: seq<Res>)
    requires AllGood(h, s, 0, rs)
    ensures forall k :: 0 <= k < |rs| ==> rs[k].s.replies == s.replies + OwnReply(rs[k])
  {
    forall k | 0 <= k < |rs| ensures rs[k].s.replies == s.replies + OwnReply(rs[k]) {
      assert GoodBranch(h, s, 0 + k, rs[k]);
      assert s.replies + [] == s.replies;
    }
  }

  /** Every response a branch makes is the one its parent makes or counted as lost: none is forgotten. */
  lemma NoReplyForgotten(h: Host, v: Value, targets: seq<Expr>, s: State)
    requires Valid(h, s) && !s.insideTx
    ensures var rs, r := RunBranches(h, v, targets, 0, s), InParallel(h, v, targets, s);
            && s.replies <= r.s.replies && s.dropped <= r.s.dropped
            && multiset(Spoken(rs)) == multiset(r.s.replies[|s.replies|..]) + multiset(r.s.dropped[|s.dropped|..])
            && forall k :: 0 <= k < |rs| ==> rs[k].s.replies == s.replies + OwnReply(rs[k])
  {
    var rs, r := RunBranches(h, v, targets, 0, s), InParallel(h, v, targets, s);
    OwnReplies(h, s, rs);
    assert r == Gather(h, s, rs);
    assert r.s.dropped[|s.dropped|..] == Lost(rs, false);
    assert r.s.replies[|s.replies|..] == OwnReply(r);
    LostOrFirst(rs);
    FirstIsCollected(rs, r.s);
  }

  // --- The histories behind which the host is asked ---

  /**
   * Every event is recorded right behind the history at which the host was asked about it.
   * These are the histories asked at while `events` came about behind `pre`, in branches too.
   */
  function Asked(pre: seq<Event>, events: seq<Event>): seq<seq<Event>>
    decreases events, 1
  {
    if events == [] then []
    else
      var init := events[..|events| - 1];
      Asked(pre, init) + AskedFor(pre + init, events[|events| - 1])
  }

  function AskedFor(log: seq<Event>, e: Event): seq<seq<Event>>
    decreases e, 0
  {
    [log] + if e.Joined? then AskedIn(log, e.branches, 0) else []
  }

  function AskedByBranch(log: seq<Event>, b: Branch, i: nat): seq<seq<Event>>
    decreases b, 1
  {
    Asked(log + [Forked(i)], b.events)
  }

  /** The branches from number `i` on. */
  function AskedIn(log: seq<Event>, bs: seq<Branch>, i: nat): seq<seq<Event>>
    decreases bs, 0
  {
    if bs == [] then [] else AskedByBranch(log, bs[0], i) + AskedIn(log, bs[1..], i + 1)
  }

  predicate Distinct(hs: seq<seq<Event>>) {
    forall i, j :: 0 <= i < j < |hs| ==> hs[i] != hs[j]
  }

  lemma DistinctConcat(a: seq<seq<Event>>, b: seq<seq<Event>>)
    requires Distinct(a) && Distinct(b) && forall x :: x in a ==> x !in b
    ensures Distinct(a + b)
  {
    forall i, j | 0 <= i < j < |a + b| ensures (a + b)[i] != (a + b)[j] {
      if i < |a| <= j {
        assert a[i] in a && b[j - |a|] in b;
      }
    }
  }

  /** All of them go on from `pre`, and none goes as far as the end of the main history. */
  predicate Inside(pre: seq<Event>, events: seq<Event>, x: seq<Event>) {
    pre <= x && !(pre + events <= x)
  }

  lemma {:induction false} AskedInside(pre: seq<Event>, events: seq<Event>, x: seq<Event>)
    requires AllReal(events) && x in Asked(pre, events)
    ensures Inside(pre, events, x)
    decreases events, 1
  {
    var init, e := events[..|events| - 1], events[|events| - 1];
    assert events == init + [e] && pre + events == pre + init + [e];
    if x in Asked(pre, init) {
      AskedInside(pre, init, x);
    } else {
      AskedForInside(pre + init, e, x);
    }
  }

  /** Asked for the event itself, or in a branch: then `Forked` stands where the event will be. */
  lemma {:induction false} AskedForInside(log: seq<Event>, e: Event, x: seq<Event>)
    requires Real(e) && x in AskedFor(log, e)
    ensures Inside(log, [e], x)
    decreases e, 0
  {
    if x != log {
      var i := AskedInInside(log, e.branches, 0, x);
      assert x[|log|] == Forked(i);
      assert (log + [e])[|log|] == e;
    }
  }

  lemma {:induction false} AskedInInside(log: seq<Event>, bs: seq<Branch>, i: nat, x: seq<Event>) returns (k: nat)
    requires x in AskedIn(log, bs, i) && forall j :: 0 <= j < |bs| ==> AllReal(bs[j].events)
    ensures i <= k && log + [Forked(k)] <= x
    decreases bs, 0
  {
    if x in AskedByBranch(log, bs[0], i) {
      assert AllReal(bs[0].events);
      AskedInside(log + [Forked(i)], bs[0].events, x);
      k := i;
    } else {
      k := AskedInInside(log, bs[1..], i + 1, x);
    }
  }

  lemma NotAskedIn(log: seq<Event>, bs: seq<Branch>, i: nat, x: seq<Event>)
    requires forall j :: 0 <= j < |bs| ==> AllReal(bs[j].events)
    requires forall k: nat :: i <= k ==> !(log + [Forked(k)] <= x)
    ensures x !in AskedIn(log, bs, i)
  {
    if x in AskedIn(log, bs, i) {
      var k := AskedInInside(log, bs, i, x);
    }
  }

  /** No two questions are asked behind the same history. */
  lemma {:induction false} AskedOnce(pre: seq<Event>, events: seq<Event>)
    requires AllReal(events)
    ensures Distinct(Asked(pre, events))
    decreases events, 1
  {
    if events != [] {
      var init, e := events[..|events| - 1], events[|events| - 1];
      AskedOnce(pre, init);
      AskedOnceFor(pre + init, e);
      forall x | x in Asked(pre, init) ensures x !in AskedFor(pre + init, e) {
        AskedInside(pre, init, x);
        if x in AskedFor(pre + init, e) {
          AskedForInside(pre + init, e, x);
        }
      }
      DistinctConcat(Asked(pre, init), AskedFor(pre + init, e));
    }
  }

  lemma {:induction false} AskedOnceFor(log: seq<Event>, e: Event)
    requires Real(e)
    ensures Distinct(AskedFor(log, e))
    decreases e, 0
  {
    if e.Joined? {
      AskedOnceIn(log, e.branches, 0);
      forall x | x in [log] ensures x !in AskedIn(log, e.branches, 0) {
        NotAskedIn(log, e.branches, 0, x);
      }
      DistinctConcat([log], AskedIn(log, e.branches, 0));
    }
  }

  lemma {:induction false} AskedOnceIn(log: seq<Event>, bs: seq<Branch>, i: nat)
    requires forall j :: 0 <= j < |bs| ==> AllReal(bs[j].events)
    ensures Distinct(AskedIn(log, bs, i))
    decreases bs, 0
  {
    if bs != [] {
      assert AllReal(bs[0].events);
      AskedOnce(log + [Forked(i)], bs[0].events);
      AskedOnceIn(log, bs[1..], i + 1);
      forall x | x in AskedByBranch(log, bs[0], i) ensures x !in AskedIn(log, bs[1..], i + 1) {
        AskedInside(log + [Forked(i)], bs[0].events, x);
        assert x[|log|] == (log + [Forked(i)])[|log|];
        forall k: nat | i + 1 <= k ensures !(log + [Forked(k)] <= x) {
          assert (log + [Forked(k)])[|log|] != x[|log|];
        }
        NotAskedIn(log, bs[1..], i + 1, x);
      }
      DistinctConcat(AskedByBranch(log, bs[0], i), AskedIn(log, bs[1..], i + 1));
    }
  }

  /**
   * In one run no history occurs twice among those behind which the host is asked: a host
   * may answer every question, of every branch, in any way it likes.
   */
  lemma NoHistoryTwice(h: Host, program: seq<Stmt>, s: State)
    requires Valid(h, s)
    ensures var deeds := Deeds(s, Execute(h, program, s));
            AllReal(deeds) && Distinct(Asked(s.world.log, deeds))
  {
    BlockMoves(Route(h, h, [], []), program, s, s);
    AskedOnce(s.world.log, Deeds(s, Execute(h, program, s)));
  }

  // --- Errors and rescues ---

  /** A response skips all stages, rescues included. */
  lemma {:induction false} ResponseSkips(h: Host, current: Res, stages: seq<Stage>, entry: State)
    requires Valid(h, entry) && Good(h, entry, current) && IsHttp(current.out)
    ensures Railway(h, current, stages, entry) == current
    decreases |stages|
  {
    if stages != [] && stages[0].ExprStage? {
      assert Travel(h, current, stages[0], entry) == current;
      ResponseSkips(h, current, stages[1..], entry);
    }
  }

  /** Any other error skips the stages up to the next rescue. */
  lemma {:induction false} ErrorSkips(h: Host, current: Res, stages: seq<Stage>, n: nat, entry: State)
    requires Valid(h, entry) && Good(h, entry, current) && current.out.Err?
    requires n <= |stages| && forall i :: 0 <= i < n ==> stages[i].ExprStage?
    ensures Railway(h, current, stages, entry) == Railway(h, current, stages[n..], entry)
    decreases n
  {
    if n == 0 {
      assert stages[0..] == stages;
    } else {
      assert Travel(h, current, stages[0], entry) == current;
      ErrorSkips(h, current, stages[1..], n - 1, entry);
      assert stages[1..][n - 1..] == stages[n..];
    }
  }

  /** A value skips the rescues up to the next stage that is not one. */
  lemma {:induction false} ValueSkips(h: Host, current: Res, stages: seq<Stage>, n: nat, entry: State)
    requires Valid(h, entry) && Good(h, entry, current) && current.out.Ok?
    requires n <= |stages| && forall i :: 0 <= i < n ==> !stages[i].ExprStage?
    ensures Railway(h, current, stages, entry) == Railway(h, current, stages[n..], entry)
    decreases n
  {
    if n == 0 {
      assert stages[0..] == stages;
    } else {
      assert Travel(h, current, stages[0], entry) == current;
      ValueSkips(h, current, stages[1..], n - 1, entry);
      assert stages[1..][n - 1..] == stages[n..];
    }
  }

  /**
   * No rescue swallows a response: whatever handlers stand around it, a run whose history
   * of responses grew ends in the response it grew by.
   */
  lemma ResponsesAreNeverRescued(h: Host, program: seq<Stmt>, s: State)
    requires Valid(h, s)
    ensures var r := Execute(h, program, s);
            r.s.replies != s.replies <==> IsHttp(r.out) && r.s.replies == s.replies + [r.out.error.response]
  {
    var r := Execute(h, program, s);
    assert Good(h, s, r);
    assert IsHttp(r.out) ==> |s.replies + [r.out.error.response]| > |s.replies|;
  }
}
