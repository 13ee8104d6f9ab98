/**
 * The interpreter object (src/interpreter.rs). Its methods change the environment, the
 * call depth, the trace frames, the open transaction and the database in place; each is
 * proved to do what the function of the same kind in `Semantics` says.
 */
module InterpreterObject {
  import opened Environment
  import opened Options
  import opened Ast
  import opened Semantics
  import opened Parts

  /** The open transaction. Forks share the holder; broadcast branches get an empty one. */
  class TxHolder {
    var tx: Option<Batch>

    constructor ()
      ensures tx == None
    {
      tx := None;
    }
  }

  /** A connection to the outside, with the history of its calls. */
  class Driver {
    var world: World

    constructor (world: World)
      ensures this.world == world
    {
      this.world := world;
    }

    method Log(e: Event)
      modifies this
      ensures world == old(world).(log := old(world).log + [e])
    {
      world := world.(log := world.log + [e]);
    }

    /** What parallel branches did on connections of their own has taken effect. */
    method JoinBranches(h: Host, branches: seq<Branch>)
      modifies this
      ensures world == After(h, branches, old(world))
    {
      world := After(h, branches, world);
    }
  }

  /** Outcomes of the remaining operands, put behind the values computed so far. */
  ghost function Behind(values: seq<Value>, r: Res): Res {
    if r.out.Ok? && r.out.value.List? then Res(Ok(List(values + r.out.value.items)), r.s) else r
  }

  lemma BehindStep(values: seq<Value>, v: Value, r: Res)
    requires r.out.Ok? ==> r.out.value.List?
    ensures Behind(values + [v], r)
            == Behind(values, if r.out.Err? then r else Res(Ok(List([v] + r.out.value.items)), r.s))
  {
    if r.out.Ok? {
      assert values + [v] + r.out.value.items == values + ([v] + r.out.value.items);
    }
  }

  lemma BehindNothing(r: Res)
    ensures Behind([], r) == r
  {
    if r.out.Ok? && r.out.value.List? {
      assert [] + r.out.value.items == r.out.value.items;
    }
  }

  /** The first `i` operands are evaluated, with `values` as results. */
  ghost predicate AllDone(h: Host, es: seq<Expr>, s: State, values: seq<Value>, i: nat, now: State) {
    && Valid(h, s) && i <= |es| && Valid(h, now) && now.depth == s.depth
    && EvalAll(h, es, s) == Behind(values, EvalAll(h, es[i..], now))
  }

  lemma AllStarts(h: Host, es: seq<Expr>, s: State)
    requires Valid(h, s)
    ensures AllDone(h, es, s, [], 0, s)
  {
    assert es[0..] == es;
    BehindNothing(EvalAll(h, es, s));
  }

  lemma AllStep(h: Host, es: seq<Expr>, s: State, values: seq<Value>, i: nat, now: State)
    requires AllDone(h, es, s, values, i, now) && i < |es|
    ensures var a := Eval(h, es[i], now);
            && (a.out.Ok? ==> AllDone(h, es, s, values + [a.out.value], i + 1, a.s))
            && (a.out.Err? ==> a == EvalAll(h, es, s))
  {
    var rest := es[i..];
    assert rest[0] == es[i] && rest[1..] == es[i + 1..];
    var a := Eval(h, es[i], now);
    if a.out.Ok? {
      BehindStep(values, a.out.value, EvalAll(h, rest[1..], a.s));
    }
  }

  lemma AllEnds(h: Host, es: seq<Expr>, s: State, values: seq<Value>, now: State)
    requires AllDone(h, es, s, values, |es|, now)
    ensures Res(Ok(List(values)), now) == EvalAll(h, es, s)
  {
    assert es[|es|..] == [] && values + [] == values;
  }

  /** The first `i` statements are done, the last of them with `out`. */
  ghost predicate BlockDone(h: Host, stmts: seq<Stmt>, s: State, i: nat, out: Outcome, now: State) {
    && Valid(h, s) && i <= |stmts| && Valid(h, now) && now.depth == s.depth
    && ExecBlock(h, stmts, s) == if i < |stmts| then ExecBlock(h, stmts[i..], now) else Res(out, now)
  }

  lemma BlockStep(h: Host, stmts: seq<Stmt>, s: State, i: nat, out: Outcome, now: State)
    requires BlockDone(h, stmts, s, i, out, now) && i < |stmts|
    ensures var a := Exec(h, stmts[i], now);
            && (a.out.Ok? ==> BlockDone(h, stmts, s, i + 1, a.out, a.s))
            && (a.out.Err? ==> a == ExecBlock(h, stmts, s))
  {
    var rest := stmts[i..];
    assert rest[0] == stmts[i] && rest[1..] == stmts[i + 1..];
  }

  /** `n` rounds of a loop are done. */
  ghost predicate RoundsDone(h: Host, w: Stmt, s: State, n: nat, now: State) {
    && Valid(h, s) && w.While? && n <= MAX_ITERATIONS && Valid(h, now) && now.depth == s.depth
    && ExecWhile(h, w, 0, s) == ExecWhile(h, w, n, now)
  }

  /** The first `i` items are done, with `values` as results. */
  ghost predicate ManyDone(
    h: Host, task: Value, items: seq<Value>, name: string, s: State, values: seq<Value>, i: nat, now: State)
  {
    && Valid(h, s) && i <= |items| && Valid(h, now) && now.depth == s.depth
    && CallMany(h, task, items, name, s) == Behind(values, CallMany(h, task, items[i..], name, now))
  }

  lemma ManyStarts(h: Host, task: Value, items: seq<Value>, name: string, s: State)
    requires Valid(h, s)
    ensures ManyDone(h, task, items, name, s, [], 0, s)
  {
    assert items[0..] == items;
    BehindNothing(CallMany(h, task, items, name, s));
  }

  lemma ManyStep(
    h: Host, task: Value, items: seq<Value>, name: string, s: State, values: seq<Value>, i: nat, now: State)
    requires ManyDone(h, task, items, name, s, values, i, now) && i < |items|
    ensures var a := CallTask(h, task, [items[i]], name, now);
            && (a.out.Ok? ==> ManyDone(h, task, items, name, s, values + [a.out.value], i + 1, a.s))
            && (a.out.Err? ==> a == CallMany(h, task, items, name, s))
  {
    var rest := items[i..];
    assert rest[0] == items[i] && rest[1..] == items[i + 1..];
    var a := CallTask(h, task, [items[i]], name, now);
    if a.out.Ok? {
      BehindStep(values, a.out.value, CallMany(h, task, rest[1..], name, a.s));
    }
  }

  lemma ManyEnds(h: Host, task: Value, items: seq<Value>, name: string, s: State, values: seq<Value>, now: State)
    requires ManyDone(h, task, items, name, s, values, |items|, now)
    ensures Res(Ok(List(values)), now) == CallMany(h, task, items, name, s)
  {
    assert items[|items|..] == [] && values + [] == values;
  }

  /** The first `i` branches are done, with `values` as results. */
  ghost predicate SequenceDone(
    h: Host, v: Value, targets: seq<Expr>, s: State, values: seq<Value>, i: nat, now: State)
  {
    && Valid(h, s) && !s.insideTx && i <= |targets| && Valid(h, now) && now.depth == s.depth && !now.insideTx
    && InSequence(h, v, targets, s) == Behind(values, InSequence(h, v, targets[i..], now))
  }

  lemma SequenceStarts(h: Host, v: Value, targets: seq<Expr>, s: State)
    requires Valid(h, s) && !s.insideTx
    ensures SequenceDone(h, v, targets, s, [], 0, s)
  {
    assert targets[0..] == targets;
    BehindNothing(InSequence(h, v, targets, s));
  }

  lemma SequenceStep(h: Host, v: Value, targets: seq<Expr>, s: State, values: seq<Value>, i: nat, now: State)
    requires SequenceDone(h, v, targets, s, values, i, now) && i < |targets|
    ensures var a := ApplyTarget(h, v, targets[i], now);
            var j := Join(now, a);
            && (a.out.Ok? ==> SequenceDone(h, v, targets, s, values + [a.out.value], i + 1, j.s))
            && (a.out.Err? ==> j == InSequence(h, v, targets, s))
  {
    var rest := targets[i..];
    assert rest[0] == targets[i] && rest[1..] == targets[i + 1..];
    var a := ApplyTarget(h, v, targets[i], now);
    var j := Join(now, a);
    if a.out.Ok? {
      BehindStep(values, a.out.value, InSequence(h, v, rest[1..], j.s));
    }
  }

  lemma SequenceEnds(h: Host, v: Value, targets: seq<Expr>, s: State, values: seq<Value>, now: State)
    requires SequenceDone(h, v, targets, s, values, |targets|, now)
    ensures Res(Ok(List(values)), now) == InSequence(h, v, targets, s)
  {
    assert targets[|targets|..] == [] && values + [] == values;
  }

  /** The first `i` branches have run on their own, with `rs` as results out of `all`. */
  ghost predicate BranchesDone(
    h: Host, v: Value, targets: seq<Expr>, s: State, all: seq<Res>, rs: seq<Res>, i: nat)
  {
    && Valid(h, s) && !s.insideTx && i <= |targets| && |rs| == i
    && all == rs + RunBranches(h, v, targets[i..], i, s)
  }

  lemma BranchesStart(h: Host, v: Value, targets: seq<Expr>, s: State)
    requires Valid(h, s) && !s.insideTx
    ensures BranchesDone(h, v, targets, s, RunBranches(h, v, targets, 0, s), [], 0)
  {
    assert targets[0..] == targets;
  }

  lemma BranchStep(h: Host, v: Value, targets: seq<Expr>, s: State, all: seq<Res>, rs: seq<Res>, i: nat)
    requires BranchesDone(h, v, targets, s, all, rs, i) && i < |targets|
    ensures Valid(h, Fork(s, i))
    ensures BranchesDone(h, v, targets, s, all, rs + [ApplyTarget(h, v, targets[i], Fork(s, i))], i + 1)
  {
    ForkValid(h, s, i);
    NextBranch(h, v, targets, i, s);
    var a, more := ApplyTarget(h, v, targets[i], Fork(s, i)), RunBranches(h, v, targets[i + 1..], i + 1, s);
    assert rs + ([a] + more) == rs + [a] + more;
  }

  lemma NextBranch(h: Host, v: Value, targets: seq<Expr>, i: nat, s: State)
    requires Valid(h, s) && !s.insideTx && i < |targets| && Valid(h, Fork(s, i))
    ensures RunBranches(h, v, targets[i..], i, s)
         == [ApplyTarget(h, v, targets[i], Fork(s, i))] + RunBranches(h, v, targets[i + 1..], i + 1, s)
  {
    var rest := targets[i..];
    assert rest[0] == targets[i] && rest[1..] == targets[i + 1..];
    BranchesInParts(h, v, rest, i, s);
  }

  lemma OneMoreResult(rs: seq<Res>, r: Res, n: nat)
    ensures Outs(rs + [r]) == Outs(rs) + [r.out] && OwnAll(n, rs + [r]) == OwnAll(n, rs) + [Own(n, r)]
  {
  }

  lemma BranchesEnd(h: Host, v: Value, targets: seq<Expr>, s: State, all: seq<Res>, rs: seq<Res>)
    requires BranchesDone(h, v, targets, s, all, rs, |targets|)
    ensures all == rs
  {
    assert targets[|targets|..] == [];
    assert rs + [] == rs;
  }

  class Interpreter {
    const host: Host
    const active: TxHolder
    const driver: Driver
    var env: Env<Value>
    var depth: nat
    var module_: Option<string>
    var insideTx: bool
    var frames: seq<string>
    /** Every response made so far, and those that lost against an error of an earlier branch. */
    ghost var replies: seq<Response>
    ghost var dropped: seq<Response>

    ghost function Now(): State
      reads this, active, driver
    {
      State(env, depth, module_, insideTx, frames, active.tx, replies, dropped, driver.world)
    }

    constructor (host: Host, active: TxHolder, driver: Driver, env: Env<Value>, depth: nat,
                 module_: Option<string>, insideTx: bool, frames: seq<string>,
                 ghost replies: seq<Response>, ghost dropped: seq<Response>)
      ensures this.host == host && this.active == active && this.driver == driver
      ensures Now() == State(env, depth, module_, insideTx, frames, active.tx, replies, dropped, driver.world)
    {
      this.host, this.active, this.driver := host, active, driver;
      this.env, this.depth, this.module_ := env, depth, module_;
      this.insideTx, this.frames, this.replies, this.dropped := insideTx, frames, replies, dropped;
    }

    // --- Programs ---

    /**
     * A whole program. The object is left as it was found but for the bindings of its
     * scopes and, after an error, the frames of the trace.
     */
    method Execute(program: seq<Stmt>) returns (out: Outcome)
      requires Valid(host, Now())
      modifies this, active, driver
      ensures Res(out, Now()) == Semantics.Execute(host, program, old(Now()))
      ensures Valid(host, Now())
      ensures depth == old(depth) && module_ == old(module_) && insideTx == old(insideTx)
      ensures |env.scopes| == |old(env).scopes| && env.base == old(env).base
      ensures if out.Ok? then frames == old(frames) else old(frames) <= frames
      ensures active.tx.Some? == old(active.tx).Some?
      ensures old(driver.world.log) <= driver.world.log
      ensures replies == old(replies) + if IsHttp(out) then [out.error.response] else []
    {
      ghost var s := Now();
      out := ExecuteStatements(program);
      assert Good(host, s, Res(out, Now()));
    }

    // --- Expressions ---

    method Evaluate(e: Expr) returns (out: Outcome)
      requires Valid(host, Now())
      modifies this, active, driver
      ensures Res(out, Now()) == Eval(host, e, old(Now()))
      decreases host.maxDepth - depth, 1, e, 2
    {
      match e
      case IntLit(n) => out := Ok(Int(n));
      case BoolLit(b) => out := Ok(Bool(b));
      case StrLit(t) => out := Ok(Str(t));
      case NullLit => out := Ok(Null);
      case Ident(name) => out := EvaluateIdentifier(name);
      case ListLit(items) => out := EvaluateAll(items);
      case And(_, _) => out := EvaluateLogical(e);
      case Or(_, _) => out := EvaluateLogical(e);
      case Pipeline(_, _) => out := EvaluateFlow(e);
      case Rescue(_, _) => out := EvaluateFlow(e);
      case Broadcast(_, _) => out := EvaluateFlow(e);
      case If(_, _, _) => out := EvaluateChoice(e);
      case Match(_, _) => out := EvaluateChoice(e);
      case _ => out := EvaluateOperation(e);
    }

    method EvaluateFlow(e: Expr) returns (out: Outcome)
      requires Valid(host, Now()) && (e.Pipeline? || e.Rescue? || e.Broadcast?)
      modifies this, active, driver
      ensures Res(out, Now()) == Eval(host, e, old(Now()))
      decreases host.maxDepth - depth, 1, e, 1
    {
      FlowInParts(host, e, Now());
      match e
      case Pipeline(_, _) => out := EvaluatePipeline(e);
      case Rescue(_, _) => out := EvaluateRescue(e);
      case Broadcast(_, _) => out := EvaluateBroadcast(e);
    }

    method EvaluateChoice(e: Expr) returns (out: Outcome)
      requires Valid(host, Now()) && (e.If? || e.Match?)
      modifies this, active, driver
      ensures Res(out, Now()) == Eval(host, e, old(Now()))
      decreases host.maxDepth - depth, 1, e, 1
    {
      OperationInParts(host, e, Now());
      match e
      case If(_, _, _) => out := EvaluateIf(e);
      case Match(_, _) => out := EvaluateMatch(e);
    }

    method EvaluateOperation(e: Expr) returns (out: Outcome)
      requires Valid(host, Now()) && (e.Apply? || e.MethodCall? || e.Call?)
      modifies this, active, driver
      ensures Res(out, Now()) == Eval(host, e, old(Now()))
      decreases host.maxDepth - depth, 1, e, 1
    {
      OperationInParts(host, e, Now());
      match e
      case Apply(_, _) => out := EvaluateApply(e);
      case MethodCall(_, _, _) => out := EvaluateMethodCall(e);
      case Call(_, _) => out := EvaluateCall(e);
    }

    method EvaluateIdentifier(name: string) returns (out: Outcome)
      requires Valid(host, Now())
      ensures Res(out, Now()) == EvalIdent(host, name, Now())
    {
      if IsReserved(name) {
        return Ok(Namespace(name));
      }
      var v := Get(env, name);
      out := if v.Some? then Ok(v.value) else Err(UndefinedVariable(name));
    }

    method EvaluateLogical(e: Expr) returns (out: Outcome)
      requires Valid(host, Now()) && (e.And? || e.Or?)
      modifies this, active, driver
      ensures Res(out, Now()) == EvalLogical(host, e, old(Now()))
      decreases host.maxDepth - depth, 1, e, 0
    {
      out := Evaluate(e.left);
      if out.Ok? && Truthy(out.value) != e.Or? {
        out := Evaluate(e.right);
      }
    }

    method EvaluateAll(es: seq<Expr>) returns (out: Outcome)
      requires Valid(host, Now())
      modifies this, active, driver
      ensures Res(out, Now()) == EvalAll(host, es, old(Now()))
      decreases host.maxDepth - depth, 1, es, 0
    {
      ghost var s := Now();
      var values: seq<Value>, i := [], 0;
      AllStarts(host, es, s);
      while i < |es|
        invariant 0 <= i <= |es|
        invariant AllDone(host, es, s, values, i, Now())
      {
        AllStep(host, es, s, values, i, Now());
        out := Evaluate(es[i]);
        if out.Err? {
          return;
        }
        values, i := values + [out.value], i + 1;
      }
      AllEnds(host, es, s, values, Now());
      out := Ok(List(values));
    }

    method EvaluateApply(e: Expr) returns (out: Outcome)
      requires Valid(host, Now()) && e.Apply?
      modifies this, active, driver
      ensures Res(out, Now()) == EvalApply(host, e, old(Now()))
      decreases host.maxDepth - depth, 1, e, 0
    {
      out := EvaluateAll(e.operands);
      if out.Ok? {
        out := OutcomeOf(Operate(host, e.op, out.value.items));
      }
    }

    method EvaluateCall(e: Expr) returns (out: Outcome)
      requires Valid(host, Now()) && e.Call?
      modifies this, active, driver
      ensures Res(out, Now()) == EvalCall(host, e, old(Now()))
      decreases host.maxDepth - depth, 1, e, 0
    {
      out := EvaluateAll(e.args);
      if out.Ok? {
        out := CallByName(e.task, out.value.items);
      }
    }

    method EvaluateMethodCall(e: Expr) returns (out: Outcome)
      requires Valid(host, Now()) && e.MethodCall?
      modifies this, active, driver
      ensures Res(out, Now()) == EvalMethod(host, e, old(Now()))
      decreases host.maxDepth - depth, 1, e, 0
    {
      var task := NamespaceTask(host, env, e.receiver, e.selector);
      if task.Some? {
        out := EvaluateAll(e.args);
        if out.Ok? {
          out := CallTaskValue(task.value, out.value.items, e.selector);
        }
        return;
      }
      if IsUnboundNamespace(host, env, e.receiver) {
        return Err(UndefinedTask(e.receiver.name + "." + e.selector));
      }
      out := Evaluate(e.receiver);
      if out.Ok? {
        out := CallOnReceiver(out.value, e.selector, e.args);
      }
    }

    /** A request without a database fails before its arguments are evaluated. */
    method CallOnReceiver(receiver: Value, selector: string, args: seq<Expr>) returns (out: Outcome)
      requires Valid(host, Now())
      modifies this, active, driver
      ensures Res(out, Now()) == OnReceiver(host, receiver, selector, args, old(Now()))
      decreases host.maxDepth - depth, 1, args, 1
    {
      if IsRequest(receiver, selector) && !host.hasDb {
        return Err(TypeError);
      }
      out := EvaluateAll(args);
      if out.Ok? {
        out := InvokeMethod(receiver, selector, out.value.items);
      }
    }

    /** Tables and acting namespaces reach the outside, any other value answers by itself. */
    method InvokeMethod(receiver: Value, selector: string, args: seq<Value>) returns (out: Outcome)
      requires Valid(host, Now())
      modifies active, driver
      ensures Res(out, Now()) == Invoke(host, receiver, selector, args, old(Now()))
    {
      if IsRequest(receiver, selector) {
        out := PerformRequest(Request(if receiver.Table? then receiver.name else "", selector, args));
      } else if Acts(receiver) {
        out := OutcomeOf(host.namespaceAnswers(driver.world.log, receiver.name, selector, args));
        driver.Log(Called(receiver.name, selector, args));
      } else {
        out := OutcomeOf(host.callMethod(receiver, selector, args));
      }
    }

    method EvaluateIf(e: Expr) returns (out: Outcome)
      requires Valid(host, Now()) && e.If?
      modifies this, active, driver
      ensures Res(out, Now()) == EvalIf(host, e, old(Now()))
      decreases host.maxDepth - depth, 1, e, 0
    {
      out := Evaluate(e.cond);
      if out.Err? {
        return;
      }
      if Truthy(out.value) {
        out := EvaluateBranch(e.thenBranch);
      } else if e.elseBranch.Some? {
        out := EvaluateBranch(e.elseBranch.value);
      } else {
        out := Ok(Null);
      }
    }

    /** Assignments made in a branch are undone when it ends. */
    method EvaluateBranch(body: Body) returns (out: Outcome)
      requires Valid(host, Now())
      modifies this, active, driver
      ensures Res(out, Now()) == EvalBranch(host, body, old(Now()))
      decreases host.maxDepth - depth, 1, body, 1
    {
      var saved := env;
      out := EvaluateBody(body);
      env := saved;
    }

    method EvaluateBody(body: Body) returns (out: Outcome)
      requires Valid(host, Now())
      modifies this, active, driver
      ensures Res(out, Now()) == RunBody(host, body, old(Now()))
      decreases host.maxDepth - depth, 1, body, 0
    {
      match body
      case Inline(e) => out := Evaluate(e);
      case Block(stmts, ret) =>
        out := ExecuteStatements(stmts);
        if out.Ok? {
          out := Evaluate(ret);
        }
    }

    method EvaluateMatch(e: Expr) returns (out: Outcome)
      requires Valid(host, Now()) && e.Match?
      modifies this, active, driver
      ensures Res(out, Now()) == EvalMatch(host, e, old(Now()))
      decreases host.maxDepth - depth, 1, e, 0
    {
      out := Evaluate(e.subject);
      if out.Ok? {
        out := EvaluateArms(out.value, e.arms);
      }
    }

    method EvaluateArms(subject: Value, arms: seq<Arm>) returns (out: Outcome)
      requires Valid(host, Now())
      modifies this, active, driver
      ensures Res(out, Now()) == EvalArms(host, subject, arms, old(Now()))
      decreases host.maxDepth - depth, 1, arms, 0
    {
      ghost var s := Now();
      var i := 0;
      assert arms[0..] == arms;
      while i < |arms|
        invariant 0 <= i <= |arms| && Valid(host, Now()) && depth == old(depth)
        invariant EvalArms(host, subject, arms, s) == EvalArms(host, subject, arms[i..], Now())
      {
        ghost var rest := arms[i..];
        out := EvaluatePattern(subject, arms[i]);
        if out.Err? {
          return;
        }
        if Truthy(out.value) {
          out := EvaluateArm(arms[i]);
          return;
        }
        assert rest[1..] == arms[i + 1..];
        i := i + 1;
      }
      out := Ok(Null);
    }

    method EvaluatePattern(subject: Value, arm: Arm) returns (out: Outcome)
      requires Valid(host, Now())
      modifies this, active, driver
      ensures Res(out, Now()) == EvalPattern(host, subject, arm, old(Now()))
      decreases host.maxDepth - depth, 1, arm, 0
    {
      match arm.pattern
      case None => out := Ok(Bool(true));
      case Some(pattern) =>
        out := Evaluate(pattern);
        if out.Ok? {
          out := Ok(Bool(out.value == subject));
        }
    }

    method EvaluateArm(arm: Arm) returns (out: Outcome)
      requires Valid(host, Now())
      modifies this, active, driver
      ensures Res(out, Now()) == EvalArm(host, arm, old(Now()))
      decreases host.maxDepth - depth, 1, arm, 0
    {
      out := Evaluate(arm.value);
    }

    method EvaluateRescue(e: Expr) returns (out: Outcome)
      requires Valid(host, Now()) && e.Rescue?
      modifies this, active, driver
      ensures Res(out, Now()) == EvalRescue(host, e, old(Now()))
      decreases host.maxDepth - depth, 1, e, 0
    {
      ghost var s := Now();
      var mark := |frames|;
      out := Evaluate(e.expr);
      if out.Ok? || IsHttp(out) {
        return;
      }
      ghost var a := Res(out, Now());
      RescuedGood(host, s, a, a);
      frames, env := frames[..mark], WithError(host, env, out.error);
      assert Now() == Rescued(host, a.s, a.out.error, |s.frames|);
      out := Evaluate(e.handler);
      env := Pop(env);
    }

    method PerformRequest(q: Request) returns (out: Outcome)
      requires Valid(host, Now())
      modifies active, driver
      ensures Res(out, Now()) == DoRequest(host, q, old(Now()))
    {
      if !host.hasDb {
        return Err(TypeError);
      }
      var rejected := host.rejects(q);
      if rejected.Some? {
        return Err(Fault(rejected.value));
      }
      out := OutcomeOf(host.answers(driver.world.log, q));
      driver.Log(Did(q));
      if active.tx.Some? {
        active.tx := Some(active.tx.value + [q]);
      } else {
        driver.world := driver.world.(db := host.effect(driver.world.db, q));
      }
    }

    // --- Pipelines ---

    method EvaluatePipeline(e: Expr) returns (out: Outcome)
      requires Valid(host, Now()) && e.Pipeline?
      modifies this, active, driver
      ensures Res(out, Now()) == EvalPipeline(host, e, old(Now()))
      decreases host.maxDepth - depth, 1, e, 0
    {
      ghost var s := Now();
      var mark := |frames|;
      out := Evaluate(e.input);
      if HasRescue(e.stages) {
        out := FollowRailway(out, e.stages, mark, s);
      } else if out.Ok? {
        out := FollowStages(out.value, e.stages);
      }
    }

    method FollowStages(input: Value, stages: seq<Stage>) returns (out: Outcome)
      requires Valid(host, Now())
      modifies this, active, driver
      ensures Res(out, Now()) == RunStages(host, input, stages, old(Now()))
      decreases host.maxDepth - depth, 1, stages, 0
    {
      ghost var s := Now();
      var v, i := input, 0;
      assert stages[0..] == stages;
      while i < |stages|
        invariant 0 <= i <= |stages| && Valid(host, Now()) && depth == old(depth)
        invariant RunStages(host, input, stages, s) == RunStages(host, v, stages[i..], Now())
      {
        ghost var rest := stages[i..];
        assert rest[1..] == stages[i + 1..];
        if stages[i].ExprStage? {
          out := EvaluateStage(v, stages[i]);
          if out.Err? {
            return;
          }
          v := out.value;
        }
        i := i + 1;
      }
      out := Ok(v);
    }

    /** An error skips the stages up to the next rescue. */
    method FollowRailway(first: Outcome, stages: seq<Stage>, mark: nat, ghost entry: State) returns (out: Outcome)
      requires Valid(host, entry) && Good(host, entry, Res(first, Now())) && mark == |entry.frames|
      modifies this, active, driver
      ensures Res(out, Now()) == Railway(host, Res(first, old(Now())), stages, entry)
      decreases host.maxDepth - depth, 1, stages, 1
    {
      ghost var start := Res(first, Now());
      out := first;
      var i := 0;
      assert stages[0..] == stages;
      while i < |stages|
        invariant 0 <= i <= |stages| && Good(host, entry, Res(out, Now())) && depth == old(depth)
        invariant Railway(host, start, stages, entry) == Railway(host, Res(out, Now()), stages[i..], entry)
      {
        ghost var rest := stages[i..];
        assert rest[1..] == stages[i + 1..];
        if out.Err? && IsHttp(out) && !stages[i].ExprStage? {
          return;
        }
        out := TravelStage(out, stages[i], mark, entry);
        i := i + 1;
      }
    }

    method TravelStage(current: Outcome, stage: Stage, mark: nat, ghost entry: State) returns (out: Outcome)
      requires Valid(host, entry) && Good(host, entry, Res(current, Now())) && mark == |entry.frames|
      requires stage.ExprStage? || !IsHttp(current)
      modifies this, active, driver
      ensures Res(out, Now()) == Travel(host, Res(current, old(Now())), stage, entry)
      decreases host.maxDepth - depth, 1, stage, 1
    {
      if stage.ExprStage? {
        out := current;
        if current.Ok? {
          out := EvaluateStage(current.value, stage);
        }
      } else if current.Ok? {
        out := current;
      } else {
        ghost var a := Res(current, Now());
        RescuedGood(host, entry, a, a);
        frames, env := frames[..mark], WithError(host, env, current.error);
        assert Now() == Rescued(host, a.s, a.out.error, |entry.frames|);
        out := EvaluateHandler(stage);
        env := Pop(env);
      }
    }

    method EvaluateStage(v: Value, stage: Stage) returns (out: Outcome)
      requires Valid(host, Now()) && stage.ExprStage?
      modifies this, active, driver
      ensures Res(out, Now()) == RunStage(host, v, stage, old(Now()))
      decreases host.maxDepth - depth, 1, stage, 0
    {
      out := ApplyPipelineValue(v, stage.expr);
    }

    method EvaluateHandler(stage: Stage) returns (out: Outcome)
      requires Valid(host, Now()) && !stage.ExprStage?
      modifies this, active, driver
      ensures Res(out, Now()) == RunHandler(host, stage, old(Now()))
      decreases host.maxDepth - depth, 1, stage, 0
    {
      match stage
      case RescueInline(e) => out := Evaluate(e);
      case RescueBlock(stmts) => out := ExecuteStatements(stmts);
    }

    method ApplyPipelineValue(v: Value, e: Expr) returns (out: Outcome)
      requires Valid(host, Now())
      modifies this, active, driver
      ensures Res(out, Now()) == ApplyStage(host, v, e, old(Now()))
      decreases host.maxDepth - depth, 1, e, 4
    {
      StageInParts(host, v, e, Now());
      if e.Ident? {
        if IsFetch(e.name) {
          return Err(TypeError);
        }
        var task := Get(env, e.name);
        if task.Some? && task.value.Task? {
          out := CallTaskOnEach(task.value, v, e.name);
        } else {
          out := Evaluate(e);
        }
      } else if IsFileTask(host, env, e) {
        out := CallTaskOnEach(FileTask(host, env, e), v, e.op.name);
      } else if e.MethodCall? && StageTakesInput(e.receiver, e.selector) {
        out := CallNamespaceWith(v, e.receiver.name, e.selector, e.args);
      } else {
        out := ApplyPlainValue(v, e);
      }
    }

    /** `task(args)` and `file.task(args)` get the value as first argument; any other expression ignores it. */
    method ApplyPlainValue(v: Value, e: Expr) returns (out: Outcome)
      requires Valid(host, Now())
      modifies this, active, driver
      ensures Res(out, Now()) == Plain(host, v, e, old(Now()))
      decreases host.maxDepth - depth, 1, e, 3
    {
      if e.Call? {
        out := EvaluateAll(e.args);
        if out.Ok? {
          out := CallByName(e.task, [v] + out.value.items);
        }
      } else if e.MethodCall? && NamespaceTask(host, env, e.receiver, e.selector).Some? {
        var task := NamespaceTask(host, env, e.receiver, e.selector).value;
        out := EvaluateAll(e.args);
        if out.Ok? {
          out := CallTaskValue(task, [v] + out.value.items, e.selector);
        }
      } else {
        out := Evaluate(e);
      }
    }

    /** A namespace call with the value in front of its arguments, behind them, or stored. */
    method CallNamespaceWith(v: Value, ns: string, selector: string, args: seq<Expr>) returns (out: Outcome)
      requires Valid(host, Now())
      modifies this, active, driver
      ensures Res(out, Now()) == WithInput(host, v, ns, selector, args, old(Now()))
      decreases host.maxDepth - depth, 1, args, 1
    {
      if ns == "cache" {
        out := StoreInCache(v, args);
        return;
      }
      out := EvaluateAll(args);
      if out.Ok? {
        var values := if ns == "http_client" then out.value.items + [v] else [v] + out.value.items;
        out := InvokeMethod(Namespace(ns), selector, values);
      }
    }

    method StoreInCache(v: Value, args: seq<Expr>) returns (out: Outcome)
      requires Valid(host, Now())
      modifies this, active, driver
      ensures Res(out, Now()) == CacheSet(host, v, args, old(Now()))
      decreases host.maxDepth - depth, 1, args, 0
    {
      if args == [] {
        return Err(TypeError);
      }
      out := Evaluate(args[0]);
      if out.Ok? {
        out := InvokeMethod(Namespace("cache"), "set", [out.value, v]);
        if out.Ok? {
          out := Ok(v);
        }
      }
    }

    method CallTaskOnEach(task: Value, v: Value, name: string) returns (out: Outcome)
      requires Valid(host, Now())
      modifies this, active, driver
      ensures Res(out, Now()) == CallOnEach(host, task, v, name, old(Now()))
      decreases host.maxDepth - depth, 0, 3
    {
      if !v.List? {
        out := CallTaskValue(task, [v], name);
        return;
      }
      out := CallTaskOnList(task, v.items, name);
    }

    method CallTaskOnList(task: Value, items: seq<Value>, name: string) returns (out: Outcome)
      requires Valid(host, Now())
      modifies this, active, driver
      ensures Res(out, Now()) == CallMany(host, task, items, name, old(Now()))
      decreases host.maxDepth - depth, 0, 2
    {
      ghost var s := Now();
      var values: seq<Value>, i := [], 0;
      ManyStarts(host, task, items, name, s);
      while i < |items|
        invariant 0 <= i <= |items|
        invariant ManyDone(host, task, items, name, s, values, i, Now())
      {
        ManyStep(host, task, items, name, s, values, i, Now());
        out := CallTaskValue(task, [items[i]], name);
        if out.Err? {
          return;
        }
        values, i := values + [out.value], i + 1;
      }
      ManyEnds(host, task, items, name, s, values, Now());
      out := Ok(List(values));
    }

    // --- Calls ---

    method CallByName(name: string, args: seq<Value>) returns (out: Outcome)
      requires Valid(host, Now())
      modifies this, active, driver
      ensures Res(out, Now()) == CallFunction(host, name, args, old(Now()))
      decreases host.maxDepth - depth, 0, 2
    {
      if name == "__fail__" {
        var status := if |args| > 0 && args[0].Int? then Status(args[0].n) else 500;
        out := MakeResponse(Response(status, if |args| > 1 then args[1] else Null, Null, true));
        return;
      }
      var builtin := host.builtin(name, args);
      if builtin.Some? {
        return OutcomeOf(builtin.value);
      }
      var task := Get(env, name);
      if task.Some? {
        out := CallTaskValue(task.value, args, name);
      } else {
        out := Err(UndefinedTask(name));
      }
    }

    method MakeResponse(response: Response) returns (out: Outcome)
      modifies this`replies
      ensures Res(out, Now()) == Respond(old(Now()), response)
    {
      replies := replies + [response];
      out := Err(Http(response));
    }

    method CallTaskValue(task: Value, args: seq<Value>, callName: string) returns (out: Outcome)
      requires Valid(host, Now())
      modifies this, active, driver
      ensures Res(out, Now()) == CallTask(host, task, args, callName, old(Now()))
      decreases host.maxDepth - depth, 0, 1
    {
      if !task.Task? {
        return Err(NotCallable(callName));
      }
      if |task.params| != |args| {
        return Err(WrongArity(task.name));
      }
      var coerced := CoerceAll(host, if task.owner.Some? then task.owner else module_, task.params, args);
      if coerced.None? {
        return Err(TypeError);
      }
      if depth >= host.maxDepth {
        return Err(RecursionLimit);
      }
      if task.owner.Some? && module_ != task.owner {
        out := CallOnFork(task, coerced.value);
      } else {
        out := CallHere(task, coerced.value);
      }
    }

    method BindParameters(params: seq<Param>, args: seq<Value>)
      requires |params| == |args|
      modifies this`env
      ensures env == Bind(old(env), params, args)
    {
      var i := 0;
      assert params[0..] == params && args[0..] == args;
      while i < |params|
        invariant 0 <= i <= |params|
        invariant Bind(env, params[i..], args[i..]) == Bind(old(env), params, args)
      {
        ghost var ps, vs := params[i..], args[i..];
        assert ps[1..] == params[i + 1..] && vs[1..] == args[i + 1..];
        env := Set(env, params[i].name, args[i]);
        i := i + 1;
      }
    }

    method CallHere(task: Value, args: seq<Value>) returns (out: Outcome)
      requires Valid(host, Now()) && depth < host.maxDepth && task.Task? && |task.params| == |args|
      modifies this, active, driver
      ensures Res(out, Now()) == CallLocal(host, task, args, old(Now()))
      decreases host.maxDepth - depth, 0, 0
    {
      var mark := |frames|;
      EnterTask(task, args);
      out := EvaluateBody(task.body);
      LeaveTask(out.Ok?, mark);
    }

    method EnterTask(task: Value, args: seq<Value>)
      requires task.Task? && |task.params| == |args|
      modifies this
      ensures Now() == CalleeState(task, args, old(Now()))
    {
      depth, frames, env := depth + 1, frames + [task.name], Push(env);
      BindParameters(task.params, args);
    }

    /** The frame of a failed call stays for the trace. */
    method LeaveTask(ok: bool, mark: nat)
      requires depth > 0 && mark <= |frames|
      modifies this
      ensures Now() == old(Now()).(env := Pop(old(env)), depth := old(depth) - 1,
                                   frames := if ok then old(frames)[..mark] else old(frames))
    {
      env, depth := Pop(env), depth - 1;
      if ok {
        frames := frames[..mark];
      }
    }

    method CallOnFork(task: Value, args: seq<Value>) returns (out: Outcome)
      requires Valid(host, Now()) && depth < host.maxDepth && task.Task? && |task.params| == |args|
      modifies this, active, driver
      ensures Res(out, Now()) == CallForked(host, task, args, old(Now()))
      decreases host.maxDepth - depth, 0, 0
    {
      var fork := ForkFor(task, args);
      out := fork.EvaluateBody(task.body);
      Adopt(fork.frames, fork.replies, fork.dropped, out.Ok?);
    }

    /** A fork with the environment of the module that owns it; it shares the open transaction. */
    method ForkFor(task: Value, args: seq<Value>) returns (fork: Interpreter)
      requires task.Task? && |task.params| == |args|
      ensures fresh(fork) && fork.host == host && fork.active == active && fork.driver == driver
      ensures fork.Now() == ForkState(host, task, args, Now())
    {
      fork := new Interpreter(host, active, driver, ForkEnv(host, task, env), depth + 1, task.owner, insideTx,
                              frames + [task.name], replies, dropped);
      fork.BindParameters(task.params, args);
    }

    method Adopt(forkFrames: seq<string>, ghost forkReplies: seq<Response>, ghost forkDropped: seq<Response>, ok: bool)
      modifies this
      ensures Now() == old(Now()).(replies := forkReplies, dropped := forkDropped,
                                   frames := if ok then old(frames) else forkFrames)
    {
      replies, dropped := forkReplies, forkDropped;
      if !ok {
        frames := forkFrames;
      }
    }

    // --- Broadcast ---

    method EvaluateBroadcast(e: Expr) returns (out: Outcome)
      requires Valid(host, Now()) && e.Broadcast?
      modifies this, active, driver
      ensures Res(out, Now()) == EvalBroadcast(host, e, old(Now()))
      decreases host.maxDepth - depth, 1, e, 0
    {
      if insideTx {
        return Err(TypeError);
      }
      out := Evaluate(e.input);
      if out.Err? {
        return;
      }
      if BranchesArePure(host, env, e.targets) {
        out := BroadcastInSequence(out.value, e.targets);
      } else {
        out := BroadcastInParallel(out.value, e.targets);
      }
    }

    /** One branch, on a clone whose transaction holder is empty. */
    method RunBranch(v: Value, target: Expr) returns (out: Outcome)
      requires Valid(host, Now()) && !insideTx
      modifies this`replies, this`dropped, driver
      ensures Res(out, Now()) == Join(old(Now()), ApplyTarget(host, v, target, old(Now())))
      decreases host.maxDepth - depth, 1, target, 5
    {
      var empty := new TxHolder();
      var branch := new Interpreter(host, empty, driver, env, depth, module_, insideTx, frames, replies, dropped);
      out := branch.ApplyBroadcastValue(v, target);
      replies, dropped := branch.replies, branch.dropped;
    }

    /** Parallel branch `i`: a clone on a connection of its own, which nobody else sees. */
    method RunBranchApart(v: Value, target: Expr, i: nat) returns (out: Outcome, log: seq<Event>, ghost r: Res)
      requires Valid(host, Now()) && !insideTx && Valid(host, Fork(Now(), i))
      ensures r == ApplyTarget(host, v, target, Fork(Now(), i)) && out == r.out && log == r.s.world.log
      decreases host.maxDepth - depth, 1, target, 5
    {
      var empty := new TxHolder();
      var own := new Driver(driver.world.(log := driver.world.log + [Forked(i)]));
      var branch := new Interpreter(host, empty, own, env, depth, module_, insideTx, frames, replies, []);
      assert branch.Now() == Fork(Now(), i);
      out := branch.ApplyBroadcastValue(v, target);
      log, r := own.world.log, Res(out, branch.Now());
    }

    method BroadcastInSequence(v: Value, targets: seq<Expr>) returns (out: Outcome)
      requires Valid(host, Now()) && !insideTx
      modifies this, active, driver
      ensures Res(out, Now()) == InSequence(host, v, targets, old(Now()))
      decreases host.maxDepth - depth, 1, targets, 0
    {
      ghost var s := Now();
      var results: seq<Value>, i := [], 0;
      SequenceStarts(host, v, targets, s);
      while i < |targets|
        invariant 0 <= i <= |targets|
        invariant SequenceDone(host, v, targets, s, results, i, Now())
      {
        SequenceStep(host, v, targets, s, results, i, Now());
        out := RunBranch(v, targets[i]);
        if out.Err? {
          return;
        }
        results, i := results + [out.value], i + 1;
      }
      SequenceEnds(host, v, targets, s, results, Now());
      out := Ok(List(results));
    }

    /** Every branch runs to its end; the results are read in declaration order. */
    method BroadcastInParallel(v: Value, targets: seq<Expr>) returns (out: Outcome)
      requires Valid(host, Now()) && !insideTx
      modifies this, driver
      ensures Res(out, Now()) == InParallel(host, v, targets, old(Now()))
      decreases host.maxDepth - depth, 1, targets, 1
    {
      ghost var s := Now();
      var outs, branches, results := RunAllBranches(v, targets);
      out := CollectResults(outs);
      assert outs == Outs(results) && branches == OwnAll(|s.world.log|, results);
      driver.JoinBranches(host, branches);
      dropped := dropped + Lost(results, false);
      if IsHttp(out) {
        replies := replies + [out.error.response];
      }
    }

    method RunAllBranches(v: Value, targets: seq<Expr>)
        returns (outs: seq<Outcome>, branches: seq<Branch>, ghost results: seq<Res>)
      requires Valid(host, Now()) && !insideTx
      ensures results == RunBranches(host, v, targets, 0, Now())
      ensures outs == Outs(results) && branches == OwnAll(|driver.world.log|, results)
      decreases host.maxDepth - depth, 1, targets, 0
    {
      outs, branches, results := [], [], [];
      ghost var s, n := Now(), |driver.world.log|;
      ghost var all := RunBranches(host, v, targets, 0, s);
      var i := 0;
      BranchesStart(host, v, targets, s);
      while i < |targets|
        invariant 0 <= i <= |targets| && BranchesDone(host, v, targets, s, all, results, i)
        invariant outs == Outs(results) && branches == OwnAll(n, results)
      {
        BranchStep(host, v, targets, s, all, results, i);
        var out, log, r := RunBranchApart(v, targets[i], i);
        OneMoreResult(results, r, n);
        outs := outs + [out];
        branches := branches + [Branch(log[|driver.world.log| + 1..])];
        results := results + [r];
        i := i + 1;
      }
      BranchesEnd(host, v, targets, s, all, results);
    }

    method CollectResults(outs: seq<Outcome>) returns (out: Outcome)
      ensures out == Collect(outs)
    {
      var values, i := [], 0;
      assert outs[0..] == outs;
      BehindNothing(Res(Collect(outs), Now()));
      while i < |outs|
        invariant 0 <= i <= |outs|
        invariant Collect(outs) == Behind(values, Res(Collect(outs[i..]), Now())).out
      {
        ghost var rest := outs[i..];
        assert rest[1..] == outs[i + 1..];
        if outs[i].Err? {
          return outs[i];
        }
        CollectList(rest[1..]);
        BehindStep(values, outs[i].value, Res(Collect(rest[1..]), Now()));
        values, i := values + [outs[i].value], i + 1;
      }
      out := Ok(List(values));
    }

    method ApplyBroadcastValue(v: Value, e: Expr) returns (out: Outcome)
      requires Valid(host, Now())
      modifies this, active, driver
      ensures Res(out, Now()) == ApplyTarget(host, v, e, old(Now()))
      decreases host.maxDepth - depth, 1, e, 4
    {
      TargetInParts(host, v, e, Now());
      if e.Ident? {
        if IsFetch(e.name) {
          return Err(TypeError);
        }
        var task := Get(env, e.name);
        if task.Some? && task.value.Task? {
          out := CallTaskValue(task.value, [v], e.name);
        } else {
          out := Evaluate(e);
        }
      } else if IsFileTask(host, env, e) {
        out := CallTaskValue(FileTask(host, env, e), [v], e.op.name);
      } else if e.MethodCall? && BranchTakesInput(e.receiver) {
        out := CallNamespaceWith(v, e.receiver.name, e.selector, e.args);
      } else {
        out := ApplyPlainValue(v, e);
      }
    }

    // --- Statements ---

    method ExecuteStatements(stmts: seq<Stmt>) returns (out: Outcome)
      requires Valid(host, Now())
      modifies this, active, driver
      ensures Res(out, Now()) == ExecBlock(host, stmts, old(Now()))
      decreases host.maxDepth - depth, 1, stmts, 0
    {
      ghost var s := Now();
      out := Ok(Null);
      var i := 0;
      assert stmts[0..] == stmts;
      while i < |stmts|
        invariant 0 <= i <= |stmts|
        invariant BlockDone(host, stmts, s, i, out, Now())
      {
        BlockStep(host, stmts, s, i, out, Now());
        out := ExecuteStatement(stmts[i]);
        if out.Err? {
          return;
        }
        i := i + 1;
      }
    }

    method ExecuteStatement(stmt: Stmt) returns (out: Outcome)
      requires Valid(host, Now())
      modifies this, active, driver
      ensures Res(out, Now()) == Exec(host, stmt, old(Now()))
      decreases host.maxDepth - depth, 1, stmt, 3
    {
      match stmt
      case Assign(target, value) =>
        out := Evaluate(value);
        if out.Ok? {
          env := Update(env, target, out.value);
          out := Ok(Null);
        }
      case CondAssign(_, _, _) => out := ExecuteCondAssign(stmt);
      case Require(guard, code) =>
        out := Evaluate(guard);
        if out.Ok? {
          out := if Truthy(out.value) then Ok(Null) else Err(HttpError(code));
        }
      case Reject(guard, code) =>
        out := Evaluate(guard);
        if out.Ok? {
          out := if Truthy(out.value) then Err(HttpError(code)) else Ok(Null);
        }
      case While(_, _) => out := ExecuteWhile(stmt);
      case TaskDef(name, params, body) =>
        env := Set(env, name, Task(name, params, body, module_));
        out := Ok(Null);
      case ExprStmt(e) => out := Evaluate(e);
      case Declaration => out := Ok(Null);
      case Export(inner) => out := ExecuteStatement(inner);
      case Transaction(body) => out := ExecuteTransaction(body);
      case _ => out := ExecuteEnding(stmt);
    }

    /** Statements that end the block they are in. */
    method ExecuteEnding(stmt: Stmt) returns (out: Outcome)
      requires Valid(host, Now()) && (stmt.Reply? || stmt.Fail? || stmt.Raise? || stmt.Nack?)
      modifies this, active, driver
      ensures Res(out, Now()) == Exec(host, stmt, old(Now()))
      decreases host.maxDepth - depth, 1, stmt, 2
    {
      EndingInParts(host, stmt, Now());
      match stmt
      case Reply(_, _, _) => out := ExecuteReply(stmt);
      case Fail(code, message) =>
        out := Evaluate(message);
        if out.Ok? {
          out := MakeResponse(Response(Status(code), out.value, Null, true));
        }
      case Raise(_, _) => out := ExecuteSignal(stmt);
      case Nack(_, _) => out := ExecuteSignal(stmt);
    }

    method ExecuteCondAssign(stmt: Stmt) returns (out: Outcome)
      requires Valid(host, Now()) && stmt.CondAssign?
      modifies this, active, driver
      ensures Res(out, Now()) == ExecCondAssign(host, stmt, old(Now()))
      decreases host.maxDepth - depth, 1, stmt, 1
    {
      out := Evaluate(stmt.guard);
      if out.Err? {
        return;
      }
      if !Truthy(out.value) {
        return Ok(Null);
      }
      out := Evaluate(stmt.value);
      if out.Ok? {
        env := Update(env, stmt.target, out.value);
        out := Ok(Null);
      }
    }

    method ExecuteSignal(stmt: Stmt) returns (out: Outcome)
      requires Valid(host, Now()) && (stmt.Raise? || stmt.Nack?)
      modifies this, active, driver
      ensures Res(out, Now()) == ExecSignal(host, stmt, old(Now()))
      decreases host.maxDepth - depth, 1, stmt, 1
    {
      if stmt.condition.Some? {
        out := Evaluate(stmt.condition.value);
        if out.Err? {
          return;
        }
        if !Truthy(out.value) {
          return Ok(Null);
        }
      }
      if stmt.Raise? {
        out := Evaluate(stmt.message);
        if out.Ok? {
          out := Err(Raised(out.value));
        }
      } else {
        out := Err(NackSignal(stmt.requeue));
      }
    }

    method ExecuteReply(stmt: Stmt) returns (out: Outcome)
      requires Valid(host, Now()) && stmt.Reply?
      modifies this, active, driver
      ensures Res(out, Now()) == ExecReply(host, stmt, old(Now()))
      decreases host.maxDepth - depth, 1, stmt, 1
    {
      out := Evaluate(stmt.status);
      if out.Err? {
        return;
      }
      if !out.value.Int? {
        return Err(TypeError);
      }
      var status := Status(out.value.n);
      out := Evaluate(stmt.content);
      if out.Err? {
        return;
      }
      var content, headers := out.value, Null;
      if stmt.headers.Some? {
        out := Evaluate(stmt.headers.value);
        if out.Err? {
          return;
        }
        headers := out.value;
      }
      out := MakeResponse(Response(status, content, headers, false));
    }

    method ExecuteWhile(w: Stmt) returns (out: Outcome)
      requires Valid(host, Now()) && w.While?
      modifies this, active, driver
      ensures Res(out, Now()) == ExecWhile(host, w, 0, old(Now()))
      decreases host.maxDepth - depth, 1, w, 1
    {
      ghost var s := Now();
      var iterations := 0;
      while true
        invariant 0 <= iterations <= MAX_ITERATIONS
        invariant RoundsDone(host, w, s, iterations, Now())
        decreases MAX_ITERATIONS - iterations
      {
        out := Evaluate(w.guard);
        if out.Err? {
          return;
        }
        if !Truthy(out.value) {
          return Ok(Null);
        }
        if iterations >= MAX_ITERATIONS {
          return Err(LoopLimit);
        }
        out := ExecuteStatements(w.body);
        if out.Err? {
          return;
        }
        iterations := iterations + 1;
      }
    }

    method ExecuteTransaction(body: seq<Stmt>) returns (out: Outcome)
      requires Valid(host, Now())
      modifies this, active, driver
      ensures Res(out, Now()) == ExecTransaction(host, body, old(Now()))
      decreases host.maxDepth - depth, 1, body, 1
    {
      if insideTx || !host.hasDb {
        return Err(TypeError);
      }
      out := BeginTransaction();
      if out.Err? {
        return;
      }
      out := ExecuteStatements(body);
      if out.Err? {
        RollBack();
      } else {
        out := CommitTransaction();
      }
    }

    method BeginTransaction() returns (out: Outcome)
      requires Valid(host, Now()) && !insideTx
      modifies this, active, driver
      ensures Res(out, Now()) == Begin(host, old(Now()))
    {
      if host.beginSucceeds(driver.world.log) {
        active.tx, insideTx, out := Some([]), true, Ok(Null);
        driver.Log(Began);
      } else {
        driver.Log(BeginFailed);
        out := Err(TypeError);
      }
    }

    method RollBack()
      requires Valid(host, Now()) && insideTx
      modifies this, active, driver
      ensures Now() == Rollback(host, old(Now()))
    {
      active.tx, insideTx := None, false;
      driver.Log(RolledBack);
    }

    method CommitTransaction() returns (out: Outcome)
      requires Valid(host, Now()) && insideTx
      modifies this, active, driver
      ensures Res(out, Now()) == Commit(host, old(Now()))
    {
      var requests := active.tx.value;
      active.tx, insideTx := None, false;
      if host.commitSucceeds(driver.world.log) {
        driver.Log(Committed);
        driver.world := driver.world.(db := ApplyAll(host, driver.world.db, requests));
        out := Ok(Null);
      } else {
        driver.Log(CommitFailed);
        out := Err(TypeError);
      }
    }
  }
}
