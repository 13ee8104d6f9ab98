/**
 * What an evaluation does before it first touches the outside does not depend on the
 * outside: run in two worlds, it either stays quiet in both and ends alike, or touches
 * both, and does so first in the same way.
 */
module Worlds {
  import opened Environment
  import opened Ast
  import opened Semantics
  import opened Parts

  // --- Comparing runs ---

  /** The same interpreter, in front of another world. */
  predicate Twins(h: Host, s: State, t: State) {
    Valid(h, s) && Valid(h, t) && t == s.(world := t.world, dropped := t.dropped)
  }

  /** Nothing was asked of the outside. */
  predicate Quiet(s: State, r: Res) {
    |r.s.world.log| <= |s.world.log|
  }

  predicate Begins(e: Event) {
    e.Began? || e.BeginFailed?
  }

  /** Requests and calls are the same; of parallel branches the same ones are not quiet, and start alike. */
  predicate SameKind(a: Event, b: Event) {
    if a.Joined? && b.Joined? then
      |a.branches| == |b.branches|
      && forall i :: 0 <= i < |a.branches| ==> SameStart(a.branches[i], b.branches[i])
    else a == b || (Begins(a) && Begins(b))
  }

  predicate SameStart(x: Branch, y: Branch) {
    if x.events == [] then y.events == [] else y.events != [] && SameKind(x.events[0], y.events[0])
  }

  /** Quiet results differ in the world only. */
  predicate SameButWorld(s: State, a: Res, t: State, b: Res) {
    && a.s.world == s.world && b.out == a.out && s.dropped <= a.s.dropped
    && b.s == a.s.(world := t.world, dropped := t.dropped + a.s.dropped[|s.dropped|..])
  }

  predicate StartAlike(s: State, a: Res, t: State, b: Res) {
    && |b.s.world.log| > |t.world.log| && |a.s.world.log| > |s.world.log|
    && SameKind(a.s.world.log[|s.world.log|], b.s.world.log[|t.world.log|])
  }

  predicate Agree(s: State, a: Res, t: State, b: Res) {
    if Quiet(s, a) then SameButWorld(s, a, t, b) else StartAlike(s, a, t, b)
  }

  lemma AgreeAtOnce(h: Host, s: State, t: State, out: Outcome)
    requires Twins(h, s, t)
    ensures Agree(s, Res(out, s), t, Res(out, t))
  {
    assert t.dropped + s.dropped[|s.dropped|..] == t.dropped;
  }

  /** The second of two steps is compared where the first one was quiet and did not fail. */
  lemma AgreeThen(h: Host, s: State, a: Res, t: State, b: Res, a': Res, b': Res)
    requires Agree(s, a, t, b) && Follows(s, a.s) && Follows(a.s, a'.s) && Follows(b.s, b'.s)
    requires Quiet(s, a) && a.out.Ok? ==> Agree(a.s, a', b.s, b')
    requires Quiet(s, a) && a.out.Err? ==> a' == a && b' == b
    ensures Agree(s, a', t, b')
  {
    if Quiet(s, a) && a.out.Ok? && Quiet(a.s, a') {
      assert t.dropped + a.s.dropped[|s.dropped|..] + a'.s.dropped[|a.s.dropped|..]
          == t.dropped + a'.s.dropped[|s.dropped|..];
    }
  }

  lemma AgreeInFront(h: Host, s: State, a: Res, t: State, b: Res, c: Res, d: Res)
    requires Agree(s, a, t, b) && Follows(s, a.s) && Follows(a.s, c.s) && Follows(b.s, d.s)
    requires Quiet(s, a) && a.out.Ok? ==> Agree(a.s, c, b.s, d)
    ensures Agree(s, InFront(a, c), t, InFront(b, d))
  {
    AgreeThen(h, s, a, t, b, InFront(a, c), InFront(b, d));
  }

  // --- Steps that touch the outside ---

  lemma RequestAgrees(h: Host, q: Request, s: State, t: State)
    requires Twins(h, s, t)
    ensures Agree(s, DoRequest(h, q, s), t, DoRequest(h, q, t))
  {
    if !h.hasDb {
      AgreeAtOnce(h, s, t, Err(TypeError));
    } else if h.rejects(q).Some? {
      AgreeAtOnce(h, s, t, Err(Fault(h.rejects(q).value)));
    }
  }

  lemma InvokeAgrees(h: Host, receiver: Value, selector: string, args: seq<Value>, s: State, t: State)
    requires Twins(h, s, t)
    ensures Agree(s, Invoke(h, receiver, selector, args, s), t, Invoke(h, receiver, selector, args, t))
  {
    if IsRequest(receiver, selector) {
      RequestAgrees(h, Request(if receiver.Table? then receiver.name else "", selector, args), s, t);
    } else if !Acts(receiver) {
      AgreeAtOnce(h, s, t, OutcomeOf(h.callMethod(receiver, selector, args)));
    }
  }

  // --- Expressions ---

  lemma {:induction false} EvalAgrees(h: Host, e: Expr, s: State, t: State)
    requires Twins(h, s, t)
    ensures Agree(s, Eval(h, e, s), t, Eval(h, e, t))
    decreases h.maxDepth - s.depth, 1, e, 1
  {
    match e
    case IntLit(n) => AgreeAtOnce(h, s, t, Ok(Int(n)));
    case BoolLit(b) => AgreeAtOnce(h, s, t, Ok(Bool(b)));
    case StrLit(x) => AgreeAtOnce(h, s, t, Ok(Str(x)));
    case NullLit => AgreeAtOnce(h, s, t, Ok(Null));
    case Ident(name) => AgreeAtOnce(h, s, t, EvalIdent(h, name, s).out);
    case ListLit(items) => AllAgrees(h, items, s, t);
    case And(_, _) => LogicalAgrees(h, e, s, t);
    case Or(_, _) => LogicalAgrees(h, e, s, t);
    case Pipeline(_, _) => FlowAgrees(h, e, s, t);
    case Rescue(_, _) => FlowAgrees(h, e, s, t);
    case Broadcast(_, _) => FlowAgrees(h, e, s, t);
    case _ => OperationAgrees(h, e, s, t);
  }

  lemma FlowAgrees(h: Host, e: Expr, s: State, t: State)
    requires Twins(h, s, t) && (e.Pipeline? || e.Rescue? || e.Broadcast?)
    ensures Agree(s, Eval(h, e, s), t, Eval(h, e, t))
    decreases h.maxDepth - s.depth, 1, e, 1, 0
  {
    FlowInParts(h, e, s);
    FlowInParts(h, e, t);
    match e
    case Pipeline(_, _) => PipelineAgrees(h, e, s, t);
    case Rescue(_, _) => RescueAgrees(h, e, s, t);
    case Broadcast(_, _) => BroadcastAgrees(h, e, s, t);
  }

  lemma OperationAgrees(h: Host, e: Expr, s: State, t: State)
    requires Twins(h, s, t) && (e.Apply? || e.MethodCall? || e.Call? || e.If? || e.Match?)
    ensures Agree(s, Eval(h, e, s), t, Eval(h, e, t))
    decreases h.maxDepth - s.depth, 1, e, 1, 0
  {
    OperationInParts(h, e, s);
    OperationInParts(h, e, t);
    match e
    case Apply(_, _) => ApplyAgrees(h, e, s, t);
    case MethodCall(_, _, _) => MethodAgrees(h, e, s, t);
    case Call(_, _) => CallAgrees(h, e, s, t);
    case If(_, _, _) => IfAgrees(h, e, s, t);
    case Match(_, _) => MatchAgrees(h, e, s, t);
  }

  lemma LogicalAgrees(h: Host, e: Expr, s: State, t: State)
    requires Twins(h, s, t) && (e.And? || e.Or?)
    ensures Agree(s, EvalLogical(h, e, s), t, EvalLogical(h, e, t))
    decreases h.maxDepth - s.depth, 1, e, 0
  {
    EvalAgrees(h, e.left, s, t);
    var a, b := Eval(h, e.left, s), Eval(h, e.left, t);
    if Quiet(s, a) && a.out.Ok? {
      if Truthy(a.out.value) == e.Or? {
        AgreeAtOnce(h, a.s, b.s, a.out);
      } else {
        EvalAgrees(h, e.right, a.s, b.s);
      }
    }
    AgreeThen(h, s, a, t, b, EvalLogical(h, e, s), EvalLogical(h, e, t));
  }

  lemma ApplyAgrees(h: Host, e: Expr, s: State, t: State)
    requires Twins(h, s, t) && e.Apply?
    ensures Agree(s, EvalApply(h, e, s), t, EvalApply(h, e, t))
    decreases h.maxDepth - s.depth, 1, e, 0
  {
    AllAgrees(h, e.operands, s, t);
  }

  lemma CallAgrees(h: Host, e: Expr, s: State, t: State)
    requires Twins(h, s, t) && e.Call?
    ensures Agree(s, EvalCall(h, e, s), t, EvalCall(h, e, t))
    decreases h.maxDepth - s.depth, 1, e, 0
  {
    AllAgrees(h, e.args, s, t);
    var a, b := EvalAll(h, e.args, s), EvalAll(h, e.args, t);
    if Quiet(s, a) && a.out.Ok? {
      FunctionAgrees(h, e.task, a.out.value.items, a.s, b.s);
    }
    AgreeThen(h, s, a, t, b, EvalCall(h, e, s), EvalCall(h, e, t));
  }

  lemma IfAgrees(h: Host, e: Expr, s: State, t: State)
    requires Twins(h, s, t) && e.If?
    ensures Agree(s, EvalIf(h, e, s), t, EvalIf(h, e, t))
    decreases h.maxDepth - s.depth, 1, e, 0
  {
    EvalAgrees(h, e.cond, s, t);
    var a, b := Eval(h, e.cond, s), Eval(h, e.cond, t);
    if Quiet(s, a) && a.out.Ok? {
      if Truthy(a.out.value) {
        BranchAgrees(h, e.thenBranch, a.s, b.s);
      } else if e.elseBranch.Some? {
        BranchAgrees(h, e.elseBranch.value, a.s, b.s);
      } else {
        AgreeAtOnce(h, a.s, b.s, Ok(Null));
      }
    }
    AgreeThen(h, s, a, t, b, EvalIf(h, e, s), EvalIf(h, e, t));
  }

  lemma MatchAgrees(h: Host, e: Expr, s: State, t: State)
    requires Twins(h, s, t) && e.Match?
    ensures Agree(s, EvalMatch(h, e, s), t, EvalMatch(h, e, t))
    decreases h.maxDepth - s.depth, 1, e, 0
  {
    EvalAgrees(h, e.subject, s, t);
    var a, b := Eval(h, e.subject, s), Eval(h, e.subject, t);
    if Quiet(s, a) && a.out.Ok? {
      ArmsAgree(h, a.out.value, e.arms, a.s, b.s);
    }
    AgreeThen(h, s, a, t, b, EvalMatch(h, e, s), EvalMatch(h, e, t));
  }

  lemma PipelineAgrees(h: Host, e: Expr, s: State, t: State)
    requires Twins(h, s, t) && e.Pipeline?
    ensures Agree(s, EvalPipeline(h, e, s), t, EvalPipeline(h, e, t))
    decreases h.maxDepth - s.depth, 1, e, 0
  {
    EvalAgrees(h, e.input, s, t);
    var a, b := Eval(h, e.input, s), Eval(h, e.input, t);
    if HasRescue(e.stages) {
      RailwayAgrees(h, s, a, t, b, e.stages);
    } else {
      if Quiet(s, a) && a.out.Ok? {
        StagesAgree(h, a.out.value, e.stages, a.s, b.s);
      }
      AgreeThen(h, s, a, t, b, EvalPipeline(h, e, s), EvalPipeline(h, e, t));
    }
  }

  /** A handler goes on from a failure that may have been loud, which is what is compared then. */
  lemma AgreeRescued(h: Host, s: State, a: Res, t: State, b: Res, a': Res, b': Res)
    requires Twins(h, s, t) && Good(h, s, a) && Good(h, t, b) && Agree(s, a, t, b)
    requires Quiet(s, a) && a.out.Err? && !IsHttp(a.out) && Valid(h, Rescued(h, a.s, a.out.error, |s.frames|))
    requires Follows(a.s, a'.s) && Follows(b.s, b'.s)
    requires Agree(Rescued(h, a.s, a.out.error, |s.frames|), a', Rescued(h, b.s, b.out.error, |t.frames|), b')
    ensures Agree(s, Unscoped(a'), t, Unscoped(b'))
  {
    if Quiet(a.s, a') {
      assert t.dropped + a.s.dropped[|s.dropped|..] + a'.s.dropped[|a.s.dropped|..]
          == t.dropped + a'.s.dropped[|s.dropped|..];
    }
  }

  lemma RescuedTwins(h: Host, s: State, a: Res, t: State, b: Res)
    requires Twins(h, s, t) && Good(h, s, a) && Good(h, t, b) && Agree(s, a, t, b)
    requires Quiet(s, a) && a.out.Err? && !IsHttp(a.out)
    ensures Twins(h, Rescued(h, a.s, a.out.error, |s.frames|), Rescued(h, b.s, b.out.error, |t.frames|))
  {
    RescuedGood(h, s, a, a);
    RescuedGood(h, t, b, b);
  }

  lemma RescueAgrees(h: Host, e: Expr, s: State, t: State)
    requires Twins(h, s, t) && e.Rescue?
    ensures Agree(s, EvalRescue(h, e, s), t, EvalRescue(h, e, t))
    decreases h.maxDepth - s.depth, 1, e, 0
  {
    EvalAgrees(h, e.expr, s, t);
    var a, b := Eval(h, e.expr, s), Eval(h, e.expr, t);
    if Quiet(s, a) && a.out.Err? && !IsHttp(a.out) {
      RescuedTwins(h, s, a, t, b);
      var s', t' := Rescued(h, a.s, a.out.error, |s.frames|), Rescued(h, b.s, b.out.error, |t.frames|);
      EvalAgrees(h, e.handler, s', t');
      AgreeRescued(h, s, a, t, b, Eval(h, e.handler, s'), Eval(h, e.handler, t'));
    } else if !Quiet(s, a) {
      RescueFollows(h, e, s);
      RescueFollows(h, e, t);
      LoudStays(s, a, t, b, EvalRescue(h, e, s), EvalRescue(h, e, t));
    }
  }

  lemma RescueFollows(h: Host, e: Expr, s: State)
    requires Valid(h, s) && e.Rescue?
    ensures Eval(h, e.expr, s).s.world.log <= EvalRescue(h, e, s).s.world.log
  {
    var a := Eval(h, e.expr, s);
    if a.out.Err? && !IsHttp(a.out) {
      RescuedGood(h, s, a, a);
    }
  }

  lemma LoudStays(s: State, a: Res, t: State, b: Res, a': Res, b': Res)
    requires StartAlike(s, a, t, b) && a.s.world.log <= a'.s.world.log && b.s.world.log <= b'.s.world.log
    ensures StartAlike(s, a', t, b')
  {
  }

  lemma BroadcastAgrees(h: Host, e: Expr, s: State, t: State)
    requires Twins(h, s, t) && e.Broadcast?
    ensures Agree(s, EvalBroadcast(h, e, s), t, EvalBroadcast(h, e, t))
    decreases h.maxDepth - s.depth, 1, e, 0
  {
    if s.insideTx {
      AgreeAtOnce(h, s, t, Err(TypeError));
    } else {
      EvalAgrees(h, e.input, s, t);
      var a, b := Eval(h, e.input, s), Eval(h, e.input, t);
      if Quiet(s, a) && a.out.Ok? {
        if BranchesArePure(h, a.s.env, e.targets) {
          SequenceAgrees(h, a.out.value, e.targets, a.s, b.s);
        } else {
          ParallelAgrees(h, a.out.value, e.targets, a.s, b.s);
        }
      }
      AgreeThen(h, s, a, t, b, EvalBroadcast(h, e, s), EvalBroadcast(h, e, t));
    }
  }

  lemma AllAgrees(h: Host, es: seq<Expr>, s: State, t: State)
    requires Twins(h, s, t)
    ensures Agree(s, EvalAll(h, es, s), t, EvalAll(h, es, t))
    decreases h.maxDepth - s.depth, 1, es, 0
  {
    if es == [] {
      AgreeAtOnce(h, s, t, Ok(List([])));
    } else {
      AllInParts(h, es, s);
      AllInParts(h, es, t);
      EvalAgrees(h, es[0], s, t);
      var a, b := Eval(h, es[0], s), Eval(h, es[0], t);
      if Quiet(s, a) && a.out.Ok? {
        AllAgrees(h, es[1..], a.s, b.s);
      }
      AgreeInFront(h, s, a, t, b, EvalAll(h, es[1..], a.s), EvalAll(h, es[1..], b.s));
    }
  }

  lemma MethodAgrees(h: Host, e: Expr, s: State, t: State)
    requires Twins(h, s, t) && e.MethodCall?
    ensures Agree(s, EvalMethod(h, e, s), t, EvalMethod(h, e, t))
    decreases h.maxDepth - s.depth, 1, e, 0
  {
    MethodInParts(h, e, s);
    MethodInParts(h, e, t);
    var task := NamespaceTask(h, s.env, e.receiver, e.selector);
    if task.Some? {
      OnTaskAgrees(h, task.value, [], e.selector, e.args, s, t);
    } else if IsUnboundNamespace(h, s.env, e.receiver) {
      AgreeAtOnce(h, s, t, Err(UndefinedTask(e.receiver.name + "." + e.selector)));
    } else {
      EvalAgrees(h, e.receiver, s, t);
      var a, b := Eval(h, e.receiver, s), Eval(h, e.receiver, t);
      if Quiet(s, a) && a.out.Ok? {
        OnReceiverAgrees(h, a.out.value, e.selector, e.args, a.s, b.s);
      }
      AgreeThen(h, s, a, t, b, EvalMethod(h, e, s), EvalMethod(h, e, t));
    }
  }

  lemma OnTaskAgrees(h: Host, task: Value, first: seq<Value>, name: string, args: seq<Expr>, s: State, t: State)
    requires Twins(h, s, t)
    ensures Agree(s, OnTask(h, task, first, name, args, s), t, OnTask(h, task, first, name, args, t))
    decreases h.maxDepth - s.depth, 1, args, 1
  {
    AllAgrees(h, args, s, t);
    var a, b := EvalAll(h, args, s), EvalAll(h, args, t);
    if Quiet(s, a) && a.out.Ok? {
      TaskAgrees(h, task, first + a.out.value.items, name, a.s, b.s);
    }
    AgreeThen(h, s, a, t, b, OnTask(h, task, first, name, args, s), OnTask(h, task, first, name, args, t));
  }

  lemma InvokeOnAgrees(h: Host, receiver: Value, selector: string, args: seq<Expr>, s: State, t: State)
    requires Twins(h, s, t)
    ensures Agree(s, InvokeOn(h, receiver, selector, args, s), t, InvokeOn(h, receiver, selector, args, t))
    decreases h.maxDepth - s.depth, 1, args, 1
  {
    AllAgrees(h, args, s, t);
    var a, b := EvalAll(h, args, s), EvalAll(h, args, t);
    if Quiet(s, a) && a.out.Ok? {
      InvokeAgrees(h, receiver, selector, a.out.value.items, a.s, b.s);
    }
    AgreeThen(h, s, a, t, b, InvokeOn(h, receiver, selector, args, s), InvokeOn(h, receiver, selector, args, t));
  }

  lemma OnReceiverAgrees(h: Host, receiver: Value, selector: string, args: seq<Expr>, s: State, t: State)
    requires Twins(h, s, t)
    ensures Agree(s, OnReceiver(h, receiver, selector, args, s), t, OnReceiver(h, receiver, selector, args, t))
    decreases h.maxDepth - s.depth, 1, args, 2
  {
    if IsRequest(receiver, selector) && !h.hasDb {
      AgreeAtOnce(h, s, t, Err(TypeError));
    } else {
      InvokeOnAgrees(h, receiver, selector, args, s, t);
    }
  }

  lemma ArmsAgree(h: Host, subject: Value, arms: seq<Arm>, s: State, t: State)
    requires Twins(h, s, t)
    ensures Agree(s, EvalArms(h, subject, arms, s), t, EvalArms(h, subject, arms, t))
    decreases h.maxDepth - s.depth, 1, arms, 0
  {
    if arms == [] {
      AgreeAtOnce(h, s, t, Ok(Null));
    } else {
      ArmsInParts(h, subject, arms, s);
      ArmsInParts(h, subject, arms, t);
      PatternAgrees(h, subject, arms[0], s, t);
      var a, b := EvalPattern(h, subject, arms[0], s), EvalPattern(h, subject, arms[0], t);
      if Quiet(s, a) && a.out.Ok? {
        ChosenAgrees(h, subject, arms, Truthy(a.out.value), a.s, b.s);
      }
      AgreeThen(h, s, a, t, b, EvalArms(h, subject, arms, s), EvalArms(h, subject, arms, t));
    }
  }

  lemma ChosenAgrees(h: Host, subject: Value, arms: seq<Arm>, applies: bool, s: State, t: State)
    requires Twins(h, s, t) && arms != []
    ensures Agree(s, Chosen(h, subject, arms, applies, s), t, Chosen(h, subject, arms, applies, t))
    decreases h.maxDepth - s.depth, 1, arms, 0, 0
  {
    if applies {
      ArmAgrees(h, arms[0], s, t);
    } else {
      ArmsAgree(h, subject, arms[1..], s, t);
    }
  }

  lemma PatternAgrees(h: Host, subject: Value, arm: Arm, s: State, t: State)
    requires Twins(h, s, t)
    ensures Agree(s, EvalPattern(h, subject, arm, s), t, EvalPattern(h, subject, arm, t))
    decreases h.maxDepth - s.depth, 1, arm, 0
  {
    if arm.pattern.None? {
      AgreeAtOnce(h, s, t, Ok(Bool(true)));
    } else {
      EvalAgrees(h, arm.pattern.value, s, t);
    }
  }

  lemma ArmAgrees(h: Host, arm: Arm, s: State, t: State)
    requires Twins(h, s, t)
    ensures Agree(s, EvalArm(h, arm, s), t, EvalArm(h, arm, t))
    decreases h.maxDepth - s.depth, 1, arm, 0
  {
    EvalAgrees(h, arm.value, s, t);
  }

  lemma BranchAgrees(h: Host, body: Body, s: State, t: State)
    requires Twins(h, s, t)
    ensures Agree(s, EvalBranch(h, body, s), t, EvalBranch(h, body, t))
    decreases h.maxDepth - s.depth, 1, body, 1
  {
    BodyAgrees(h, body, s, t);
  }

  lemma BodyAgrees(h: Host, body: Body, s: State, t: State)
    requires Twins(h, s, t)
    ensures Agree(s, RunBody(h, body, s), t, RunBody(h, body, t))
    decreases h.maxDepth - s.depth, 1, body, 0
  {
    match body
    case Inline(e) => EvalAgrees(h, e, s, t);
    case Block(stmts, ret) =>
      BlockAgrees(h, stmts, s, t);
      var a, b := ExecBlock(h, stmts, s), ExecBlock(h, stmts, t);
      if Quiet(s, a) && a.out.Ok? {
        EvalAgrees(h, ret, a.s, b.s);
      }
      AgreeThen(h, s, a, t, b, RunBody(h, body, s), RunBody(h, body, t));
  }

  // --- Pipelines ---

  lemma StagesAgree(h: Host, v: Value, stages: seq<Stage>, s: State, t: State)
    requires Twins(h, s, t)
    ensures Agree(s, RunStages(h, v, stages, s), t, RunStages(h, v, stages, t))
    decreases h.maxDepth - s.depth, 1, stages, 0
  {
    if stages == [] {
      AgreeAtOnce(h, s, t, Ok(v));
    } else if stages[0].ExprStage? {
      StageAgrees(h, v, stages[0], s, t);
      var a, b := RunStage(h, v, stages[0], s), RunStage(h, v, stages[0], t);
      if Quiet(s, a) && a.out.Ok? {
        StagesAgree(h, a.out.value, stages[1..], a.s, b.s);
      }
      AgreeThen(h, s, a, t, b, RunStages(h, v, stages, s), RunStages(h, v, stages, t));
    } else {
      StagesAgree(h, v, stages[1..], s, t);
    }
  }

  lemma RailwayAgrees(h: Host, s: State, a: Res, t: State, b: Res, stages: seq<Stage>)
    requires Twins(h, s, t) && Good(h, s, a) && Good(h, t, b) && Agree(s, a, t, b)
    ensures Agree(s, Railway(h, a, stages, s), t, Railway(h, b, stages, t))
    decreases h.maxDepth - s.depth, 1, stages, 2
  {
    if !Quiet(s, a) {
      RailwayFollows(h, a, stages, s);
      RailwayFollows(h, b, stages, t);
      LoudStays(s, a, t, b, Railway(h, a, stages, s), Railway(h, b, stages, t));
    } else if stages != [] && (!IsHttp(a.out) || stages[0].ExprStage?) {
      TravelAgrees(h, s, a, t, b, stages[0]);
      RailwayAgrees(h, s, Travel(h, a, stages[0], s), t, Travel(h, b, stages[0], t), stages[1..]);
    }
  }

  lemma {:induction false} RailwayFollows(h: Host, current: Res, stages: seq<Stage>, entry: State)
    requires Valid(h, entry) && Good(h, entry, current)
    ensures current.s.world.log <= Railway(h, current, stages, entry).s.world.log
    decreases |stages|
  {
    if stages != [] && (!IsHttp(current.out) || stages[0].ExprStage?) {
      TravelFollows(h, current, stages[0], entry);
      RailwayFollows(h, Travel(h, current, stages[0], entry), stages[1..], entry);
    }
  }

  lemma TravelFollows(h: Host, current: Res, stage: Stage, entry: State)
    requires Valid(h, entry) && Good(h, entry, current) && (stage.ExprStage? || !IsHttp(current.out))
    ensures current.s.world.log <= Travel(h, current, stage, entry).s.world.log
  {
    if !stage.ExprStage? && current.out.Err? {
      RescuedGood(h, entry, current, current);
    }
  }

  lemma TravelAgrees(h: Host, s: State, a: Res, t: State, b: Res, stage: Stage)
    requires Twins(h, s, t) && Good(h, s, a) && Good(h, t, b) && Agree(s, a, t, b) && Quiet(s, a)
    requires stage.ExprStage? || !IsHttp(a.out)
    ensures Agree(s, Travel(h, a, stage, s), t, Travel(h, b, stage, t))
    decreases h.maxDepth - s.depth, 1, stage, 1
  {
    if stage.ExprStage? == a.out.Ok? {
      if a.out.Ok? {
        StageAgrees(h, a.out.value, stage, a.s, b.s);
        AgreeThen(h, s, a, t, b, RunStage(h, a.out.value, stage, a.s), RunStage(h, a.out.value, stage, b.s));
      } else {
        RescuedTwins(h, s, a, t, b);
        var s', t' := Rescued(h, a.s, a.out.error, |s.frames|), Rescued(h, b.s, b.out.error, |t.frames|);
        HandlerAgrees(h, stage, s', t');
        AgreeRescued(h, s, a, t, b, RunHandler(h, stage, s'), RunHandler(h, stage, t'));
      }
    }
  }

  lemma StageAgrees(h: Host, v: Value, stage: Stage, s: State, t: State)
    requires Twins(h, s, t) && stage.ExprStage?
    ensures Agree(s, RunStage(h, v, stage, s), t, RunStage(h, v, stage, t))
    decreases h.maxDepth - s.depth, 1, stage, 0
  {
    ApplyStageAgrees(h, v, stage.expr, s, t);
  }

  lemma HandlerAgrees(h: Host, stage: Stage, s: State, t: State)
    requires Twins(h, s, t) && !stage.ExprStage?
    ensures Agree(s, RunHandler(h, stage, s), t, RunHandler(h, stage, t))
    decreases h.maxDepth - s.depth, 1, stage, 0
  {
    match stage
    case RescueInline(e) => EvalAgrees(h, e, s, t);
    case RescueBlock(stmts) => BlockAgrees(h, stmts, s, t);
  }

  lemma ApplyStageAgrees(h: Host, v: Value, e: Expr, s: State, t: State)
    requires Twins(h, s, t)
    ensures Agree(s, ApplyStage(h, v, e, s), t, ApplyStage(h, v, e, t))
    decreases h.maxDepth - s.depth, 1, e, 2
  {
    if e.Ident? {
      if IsFetch(e.name) {
        AgreeAtOnce(h, s, t, Err(TypeError));
      } else if Get(s.env, e.name).Some? && Get(s.env, e.name).value.Task? {
        OnEachAgrees(h, Get(s.env, e.name).value, v, e.name, s, t);
      } else {
        EvalAgrees(h, e, s, t);
      }
    } else {
      StageInParts(h, v, e, s);
      StageInParts(h, v, e, t);
      if IsFileTask(h, s.env, e) {
        OnEachAgrees(h, FileTask(h, s.env, e), v, e.op.name, s, t);
      } else if e.MethodCall? && StageTakesInput(e.receiver, e.selector) {
        InputAgrees(h, v, e.receiver.name, e.selector, e.args, s, t);
      } else {
        PlainAgrees(h, v, e, s, t);
      }
    }
  }

  lemma OnFunctionAgrees(h: Host, name: string, first: seq<Value>, args: seq<Expr>, s: State, t: State)
    requires Twins(h, s, t)
    ensures Agree(s, OnFunction(h, name, first, args, s), t, OnFunction(h, name, first, args, t))
    decreases h.maxDepth - s.depth, 1, args, 1
  {
    AllAgrees(h, args, s, t);
    var a, b := EvalAll(h, args, s), EvalAll(h, args, t);
    if Quiet(s, a) && a.out.Ok? {
      FunctionAgrees(h, name, first + a.out.value.items, a.s, b.s);
    }
    AgreeThen(h, s, a, t, b, OnFunction(h, name, first, args, s), OnFunction(h, name, first, args, t));
  }

  lemma PlainAgrees(h: Host, v: Value, e: Expr, s: State, t: State)
    requires Twins(h, s, t)
    ensures Agree(s, Plain(h, v, e, s), t, Plain(h, v, e, t))
    decreases h.maxDepth - s.depth, 1, e, 2, 0
  {
    if e.Call? {
      OnFunctionAgrees(h, e.task, [v], e.args, s, t);
    } else if e.MethodCall? && NamespaceTask(h, s.env, e.receiver, e.selector).Some? {
      OnTaskAgrees(h, NamespaceTask(h, s.env, e.receiver, e.selector).value, [v], e.selector, e.args, s, t);
    } else {
      EvalAgrees(h, e, s, t);
    }
  }

  lemma InputAgrees(h: Host, v: Value, ns: string, selector: string, args: seq<Expr>, s: State, t: State)
    requires Twins(h, s, t)
    ensures Agree(s, WithInput(h, v, ns, selector, args, s), t, WithInput(h, v, ns, selector, args, t))
    decreases h.maxDepth - s.depth, 1, args, 2
  {
    if ns == "cache" {
      CacheSetAgrees(h, v, args, s, t);
    } else {
      OnNamespaceAgrees(h, v, ns, selector, args, s, t);
    }
  }

  lemma OnNamespaceAgrees(h: Host, v: Value, ns: string, selector: string, args: seq<Expr>, s: State, t: State)
    requires Twins(h, s, t)
    ensures Agree(s, OnNamespace(h, v, ns, selector, args, s), t, OnNamespace(h, v, ns, selector, args, t))
    decreases h.maxDepth - s.depth, 1, args, 1
  {
    AllAgrees(h, args, s, t);
    var a, b := EvalAll(h, args, s), EvalAll(h, args, t);
    if Quiet(s, a) && a.out.Ok? {
      var all := if ns == "http_client" then a.out.value.items + [v] else [v] + a.out.value.items;
      InvokeAgrees(h, Namespace(ns), selector, all, a.s, b.s);
    }
    AgreeThen(h, s, a, t, b, OnNamespace(h, v, ns, selector, args, s), OnNamespace(h, v, ns, selector, args, t));
  }

  lemma StoredAgrees(v: Value, s: State, a: Res, t: State, b: Res)
    requires Agree(s, a, t, b)
    ensures Agree(s, Stored(v, a), t, Stored(v, b))
  {
  }

  lemma CacheSetAgrees(h: Host, v: Value, args: seq<Expr>, s: State, t: State)
    requires Twins(h, s, t)
    ensures Agree(s, CacheSet(h, v, args, s), t, CacheSet(h, v, args, t))
    decreases h.maxDepth - s.depth, 1, args, 1
  {
    if args == [] {
      AgreeAtOnce(h, s, t, Err(TypeError));
    } else {
      EvalAgrees(h, args[0], s, t);
      var a, b := Eval(h, args[0], s), Eval(h, args[0], t);
      CacheSetInParts(h, v, args, s);
      CacheSetInParts(h, v, args, t);
      if Quiet(s, a) && a.out.Ok? {
        var both := [a.out.value, v];
        InvokeAgrees(h, Namespace("cache"), "set", both, a.s, b.s);
        StoredAgrees(v, a.s, Invoke(h, Namespace("cache"), "set", both, a.s),
                     b.s, Invoke(h, Namespace("cache"), "set", both, b.s));
      }
      AgreeThen(h, s, a, t, b, CacheSet(h, v, args, s), CacheSet(h, v, args, t));
    }
  }

  lemma OnEachAgrees(h: Host, task: Value, v: Value, name: string, s: State, t: State)
    requires Twins(h, s, t)
    ensures Agree(s, CallOnEach(h, task, v, name, s), t, CallOnEach(h, task, v, name, t))
    decreases h.maxDepth - s.depth, 0, 3
  {
    if v.List? {
      ManyAgrees(h, task, v.items, name, s, t);
    } else {
      TaskAgrees(h, task, [v], name, s, t);
    }
  }

  lemma ManyAgrees(h: Host, task: Value, items: seq<Value>, name: string, s: State, t: State)
    requires Twins(h, s, t)
    ensures Agree(s, CallMany(h, task, items, name, s), t, CallMany(h, task, items, name, t))
    decreases h.maxDepth - s.depth, 0, 2, |items|
  {
    if items == [] {
      AgreeAtOnce(h, s, t, Ok(List([])));
    } else {
      ManyInParts(h, task, items, name, s);
      ManyInParts(h, task, items, name, t);
      TaskAgrees(h, task, [items[0]], name, s, t);
      var a, b := CallTask(h, task, [items[0]], name, s), CallTask(h, task, [items[0]], name, t);
      if Quiet(s, a) && a.out.Ok? {
        ManyAgrees(h, task, items[1..], name, a.s, b.s);
      }
      AgreeInFront(h, s, a, t, b, CallMany(h, task, items[1..], name, a.s), CallMany(h, task, items[1..], name, b.s));
    }
  }

  // --- Calls ---

  lemma FunctionAgrees(h: Host, name: string, args: seq<Value>, s: State, t: State)
    requires Twins(h, s, t)
    ensures Agree(s, CallFunction(h, name, args, s), t, CallFunction(h, name, args, t))
    decreases h.maxDepth - s.depth, 0, 2
  {
    if name == "__fail__" {
      assert t.dropped + s.dropped[|s.dropped|..] == t.dropped;
    } else if h.builtin(name, args).Some? {
      AgreeAtOnce(h, s, t, OutcomeOf(h.builtin(name, args).value));
    } else if Get(s.env, name).Some? {
      TaskAgrees(h, Get(s.env, name).value, args, name, s, t);
    } else {
      AgreeAtOnce(h, s, t, Err(UndefinedTask(name)));
    }
  }

  lemma TaskAgrees(h: Host, task: Value, args: seq<Value>, callName: string, s: State, t: State)
    requires Twins(h, s, t)
    ensures Agree(s, CallTask(h, task, args, callName, s), t, CallTask(h, task, args, callName, t))
    decreases h.maxDepth - s.depth, 0, 1
  {
    if !task.Task? {
      AgreeAtOnce(h, s, t, Err(NotCallable(callName)));
    } else if |task.params| != |args| {
      AgreeAtOnce(h, s, t, Err(WrongArity(task.name)));
    } else {
      var coerced := CoerceAll(h, if task.owner.Some? then task.owner else s.module_, task.params, args);
      if coerced.None? {
        AgreeAtOnce(h, s, t, Err(TypeError));
      } else if s.depth >= h.maxDepth {
        AgreeAtOnce(h, s, t, Err(RecursionLimit));
      } else if task.owner.Some? && s.module_ != task.owner {
        ForkedAgrees(h, task, coerced.value, s, t);
      } else {
        LocalAgrees(h, task, coerced.value, s, t);
      }
    }
  }

  lemma LocalAgrees(h: Host, task: Value, args: seq<Value>, s: State, t: State)
    requires Twins(h, s, t) && s.depth < h.maxDepth && task.Task? && |task.params| == |args|
    ensures Agree(s, CallLocal(h, task, args, s), t, CallLocal(h, task, args, t))
    decreases h.maxDepth - s.depth, 0, 0
  {
    BodyAgrees(h, task.body, CalleeState(task, args, s), CalleeState(task, args, t));
  }

  lemma ForkedAgrees(h: Host, task: Value, args: seq<Value>, s: State, t: State)
    requires Twins(h, s, t) && s.depth < h.maxDepth && task.Task? && |task.params| == |args|
    ensures Agree(s, CallForked(h, task, args, s), t, CallForked(h, task, args, t))
    decreases h.maxDepth - s.depth, 0, 0
  {
    BodyAgrees(h, task.body, ForkState(h, task, args, s), ForkState(h, task, args, t));
  }

  // --- Broadcast ---

  lemma TargetAgrees(h: Host, v: Value, e: Expr, s: State, t: State)
    requires Twins(h, s, t)
    ensures Agree(s, ApplyTarget(h, v, e, s), t, ApplyTarget(h, v, e, t))
    decreases h.maxDepth - s.depth, 1, e, 2
  {
    if e.Ident? {
      if IsFetch(e.name) {
        AgreeAtOnce(h, s, t, Err(TypeError));
      } else if Get(s.env, e.name).Some? && Get(s.env, e.name).value.Task? {
        TaskAgrees(h, Get(s.env, e.name).value, [v], e.name, s, t);
      } else {
        EvalAgrees(h, e, s, t);
      }
    } else {
      TargetInParts(h, v, e, s);
      TargetInParts(h, v, e, t);
      if IsFileTask(h, s.env, e) {
        TaskAgrees(h, FileTask(h, s.env, e), [v], e.op.name, s, t);
      } else if e.MethodCall? && BranchTakesInput(e.receiver) {
        InputAgrees(h, v, e.receiver.name, e.selector, e.args, s, t);
      } else {
        PlainAgrees(h, v, e, s, t);
      }
    }
  }

  lemma JoinAgrees(h: Host, s: State, a: Res, t: State, b: Res)
    requires Twins(h, s, t) && !s.insideTx && Good(h, s, a) && Good(h, t, b) && Agree(s, a, t, b)
    ensures Good(h, s, Join(s, a)) && Good(h, t, Join(t, b)) && Agree(s, Join(s, a), t, Join(t, b))
    ensures Quiet(s, a) ==> Twins(h, Join(s, a).s, Join(t, b).s)
  {
  }

  lemma SequenceAgrees(h: Host, v: Value, targets: seq<Expr>, s: State, t: State)
    requires Twins(h, s, t) && !s.insideTx
    ensures Agree(s, InSequence(h, v, targets, s), t, InSequence(h, v, targets, t))
    decreases h.maxDepth - s.depth, 1, targets, 0
  {
    if targets == [] {
      AgreeAtOnce(h, s, t, Ok(List([])));
    } else {
      TargetAgrees(h, v, targets[0], s, t);
      var a, b := Join(s, ApplyTarget(h, v, targets[0], s)), Join(t, ApplyTarget(h, v, targets[0], t));
      JoinAgrees(h, s, ApplyTarget(h, v, targets[0], s), t, ApplyTarget(h, v, targets[0], t));
      SequenceInParts(h, v, targets, s);
      SequenceInParts(h, v, targets, t);
      if Quiet(s, a) && a.out.Ok? {
        SequenceAgrees(h, v, targets[1..], a.s, b.s);
      }
      AgreeInFront(h, s, a, t, b, InSequence(h, v, targets[1..], a.s), InSequence(h, v, targets[1..], b.s));
    }
  }

  /** The branches from number `i` on agree one by one. */
  predicate BranchesAgree(s: State, i: nat, rs: seq<Res>, t: State, qs: seq<Res>) {
    && |rs| == |qs|
    && forall k :: 0 <= k < |rs| ==> Agree(Fork(s, i + k), rs[k], Fork(t, i + k), qs[k])
  }

  lemma ForkTwins(h: Host, s: State, t: State, i: nat)
    requires Twins(h, s, t) && !s.insideTx
    ensures Twins(h, Fork(s, i), Fork(t, i))
  {
    ForkValid(h, s, i);
    ForkValid(h, t, i);
  }

  lemma RunBranchesAgree(h: Host, v: Value, targets: seq<Expr>, i: nat, s: State, t: State)
    requires Twins(h, s, t) && !s.insideTx
    ensures BranchesAgree(s, i, RunBranches(h, v, targets, i, s), t, RunBranches(h, v, targets, i, t))
    decreases h.maxDepth - s.depth, 1, targets, 0
  {
    if targets != [] {
      ForkTwins(h, s, t, i);
      TargetAgrees(h, v, targets[0], Fork(s, i), Fork(t, i));
      RunBranchesAgree(h, v, targets[1..], i + 1, s, t);
      OneMoreAgrees(s, i, RunBranches(h, v, targets, i, s), t, RunBranches(h, v, targets, i, t));
    }
  }

  lemma OneMoreAgrees(s: State, i: nat, rs: seq<Res>, t: State, qs: seq<Res>)
    requires |rs| > 0 && |qs| > 0
    requires Agree(Fork(s, i), rs[0], Fork(t, i), qs[0]) && BranchesAgree(s, i + 1, rs[1..], t, qs[1..])
    ensures BranchesAgree(s, i, rs, t, qs)
  {
    forall k | 0 <= k < |rs| ensures Agree(Fork(s, i + k), rs[k], Fork(t, i + k), qs[k]) {
      if k > 0 {
        assert rs[k] == rs[1..][k - 1] && qs[k] == qs[1..][k - 1] && i + k == i + 1 + (k - 1);
      }
    }
  }

  lemma ParallelAgrees(h: Host, v: Value, targets: seq<Expr>, s: State, t: State)
    requires Twins(h, s, t) && !s.insideTx
    ensures Agree(s, InParallel(h, v, targets, s), t, InParallel(h, v, targets, t))
    decreases h.maxDepth - s.depth, 1, targets, 1
  {
    RunBranchesAgree(h, v, targets, 0, s, t);
    GatherAgrees(h, s, RunBranches(h, v, targets, 0, s), t, RunBranches(h, v, targets, 0, t));
  }

  /** What branches did themselves starts alike. */
  lemma OwnAgrees(h: Host, s: State, i: nat, r: Res, t: State, q: Res)
    requires Agree(Fork(s, i), r, Fork(t, i), q) && GoodBranch(h, s, i, r) && GoodBranch(h, t, i, q)
    ensures SameStart(Own(|s.world.log|, r), Own(|t.world.log|, q))
    ensures Own(|s.world.log|, r).events == [] <==> Quiet(Fork(s, i), r)
  {
  }

  lemma GatherAgrees(h: Host, s: State, rs: seq<Res>, t: State, qs: seq<Res>)
    requires Twins(h, s, t) && BranchesAgree(s, 0, rs, t, qs) && AllGood(h, s, 0, rs) && AllGood(h, t, 0, qs)
    ensures Agree(s, Gather(h, s, rs), t, Gather(h, t, qs))
  {
    var bs, cs := OwnAll(|s.world.log|, rs), OwnAll(|t.world.log|, qs);
    forall k | 0 <= k < |rs|
      ensures SameStart(bs[k], cs[k]) && (bs[k].events == [] <==> Quiet(Fork(s, k), rs[k]))
    {
      assert GoodBranch(h, s, 0 + k, rs[k]) && GoodBranch(h, t, 0 + k, qs[k]);
      assert Agree(Fork(s, 0 + k), rs[k], Fork(t, 0 + k), qs[k]);
      OwnAgrees(h, s, k, rs[k], t, qs[k]);
    }
    if AllSilent(bs) {
      QuietGather(h, s, rs, t, qs);
    } else {
      assert !AllSilent(cs);
    }
  }

  lemma QuietGather(h: Host, s: State, rs: seq<Res>, t: State, qs: seq<Res>)
    requires Twins(h, s, t) && BranchesAgree(s, 0, rs, t, qs)
    requires forall k :: 0 <= k < |rs| ==> Quiet(Fork(s, k), rs[k])
    requires AllSilent(OwnAll(|s.world.log|, rs)) && AllSilent(OwnAll(|t.world.log|, qs))
    ensures Agree(s, Gather(h, s, rs), t, Gather(h, t, qs))
  {
    forall k | 0 <= k < |rs| ensures qs[k].out == rs[k].out && qs[k].s.dropped == rs[k].s.dropped {
      assert Agree(Fork(s, 0 + k), rs[k], Fork(t, 0 + k), qs[k]);
    }
    assert Outs(rs) == Outs(qs);
    SameLost(rs, qs, false);
    var lost := Lost(rs, false);
    assert (s.dropped + lost)[|s.dropped|..] == lost;
  }

  lemma {:induction false} SameLost(rs: seq<Res>, qs: seq<Res>, chosen: bool)
    requires |rs| == |qs|
    requires forall k :: 0 <= k < |rs| ==> qs[k].out == rs[k].out && qs[k].s.dropped == rs[k].s.dropped
    ensures Lost(rs, chosen) == Lost(qs, chosen)
    decreases |rs|
  {
    if rs != [] {
      SameLost(rs[1..], qs[1..], chosen || rs[0].out.Err?);
    }
  }

  // --- Statements ---

  lemma BlockAgrees(h: Host, stmts: seq<Stmt>, s: State, t: State)
    requires Twins(h, s, t)
    ensures Agree(s, ExecBlock(h, stmts, s), t, ExecBlock(h, stmts, t))
    decreases h.maxDepth - s.depth, 1, stmts, 0
  {
    if stmts == [] {
      AgreeAtOnce(h, s, t, Ok(Null));
    } else {
      StmtAgrees(h, stmts[0], s, t);
      var a, b := Exec(h, stmts[0], s), Exec(h, stmts[0], t);
      if |stmts| > 1 {
        if Quiet(s, a) && a.out.Ok? {
          BlockAgrees(h, stmts[1..], a.s, b.s);
        }
        AgreeThen(h, s, a, t, b, ExecBlock(h, stmts, s), ExecBlock(h, stmts, t));
      }
    }
  }

  lemma StmtAgrees(h: Host, stmt: Stmt, s: State, t: State)
    requires Twins(h, s, t)
    ensures Agree(s, Exec(h, stmt, s), t, Exec(h, stmt, t))
    decreases h.maxDepth - s.depth, 1, stmt, 2
  {
    match stmt
    case Assign(_, _) => AssignAgrees(h, stmt, s, t);
    case CondAssign(_, _, _) => CondAssignAgrees(h, stmt, s, t);
    case Require(_, _) => GuardAgrees(h, stmt, s, t);
    case Reject(_, _) => GuardAgrees(h, stmt, s, t);
    case While(_, _) => WhileAgrees(h, stmt, 0, s, t);
    case TaskDef(_, _, _) => AgreeAtOnce(h, s, t, Ok(Null));
    case ExprStmt(e) => EvalAgrees(h, e, s, t);
    case Declaration => AgreeAtOnce(h, s, t, Ok(Null));
    case Export(inner) => StmtAgrees(h, inner, s, t);
    case Transaction(body) => TransactionAgrees(h, body, s, t);
    case _ => EndingAgrees(h, stmt, s, t);
  }

  /** Statements that end the block they are in. */
  lemma EndingAgrees(h: Host, stmt: Stmt, s: State, t: State)
    requires Twins(h, s, t) && (stmt.Reply? || stmt.Fail? || stmt.Raise? || stmt.Nack?)
    ensures Agree(s, Exec(h, stmt, s), t, Exec(h, stmt, t))
    decreases h.maxDepth - s.depth, 1, stmt, 2, 0
  {
    match stmt
    case Reply(_, _, _) => ReplyAgrees(h, stmt, s, t);
    case Fail(_, _) => FailAgrees(h, stmt, s, t);
    case Raise(_, _) => SignalAgrees(h, stmt, s, t);
    case Nack(_, _) => SignalAgrees(h, stmt, s, t);
  }

  lemma FailAgrees(h: Host, stmt: Stmt, s: State, t: State)
    requires Twins(h, s, t) && stmt.Fail?
    ensures Agree(s, Exec(h, stmt, s), t, Exec(h, stmt, t))
    decreases h.maxDepth - s.depth, 1, stmt, 1
  {
    EvalAgrees(h, stmt.message, s, t);
  }

  lemma AssignAgrees(h: Host, stmt: Stmt, s: State, t: State)
    requires Twins(h, s, t) && stmt.Assign?
    ensures Agree(s, Exec(h, stmt, s), t, Exec(h, stmt, t))
    decreases h.maxDepth - s.depth, 1, stmt, 1
  {
    EvalAgrees(h, stmt.value, s, t);
  }

  lemma GuardAgrees(h: Host, stmt: Stmt, s: State, t: State)
    requires Twins(h, s, t) && (stmt.Require? || stmt.Reject?)
    ensures Agree(s, Exec(h, stmt, s), t, Exec(h, stmt, t))
    decreases h.maxDepth - s.depth, 1, stmt, 1
  {
    GuardInParts(h, stmt, s);
    GuardInParts(h, stmt, t);
    EvalAgrees(h, stmt.guard, s, t);
  }

  lemma CondAssignAgrees(h: Host, stmt: Stmt, s: State, t: State)
    requires Twins(h, s, t) && stmt.CondAssign?
    ensures Agree(s, ExecCondAssign(h, stmt, s), t, ExecCondAssign(h, stmt, t))
    decreases h.maxDepth - s.depth, 1, stmt, 1
  {
    CondAssignInParts(h, stmt, s);
    CondAssignInParts(h, stmt, t);
    EvalAgrees(h, stmt.guard, s, t);
    var a, b := Eval(h, stmt.guard, s), Eval(h, stmt.guard, t);
    if Quiet(s, a) && a.out.Ok? {
      ThenAssignAgrees(h, stmt, Truthy(a.out.value), a.s, b.s);
    }
    AgreeThen(h, s, a, t, b, ExecCondAssign(h, stmt, s), ExecCondAssign(h, stmt, t));
  }

  lemma ThenAssignAgrees(h: Host, stmt: Stmt, holds: bool, s: State, t: State)
    requires Twins(h, s, t) && stmt.CondAssign?
    ensures Agree(s, ThenAssign(h, stmt, holds, s), t, ThenAssign(h, stmt, holds, t))
    decreases h.maxDepth - s.depth, 1, stmt, 0
  {
    if holds {
      EvalAgrees(h, stmt.value, s, t);
    } else {
      AgreeAtOnce(h, s, t, Ok(Null));
    }
  }

  lemma SignalAgrees(h: Host, stmt: Stmt, s: State, t: State)
    requires Twins(h, s, t) && (stmt.Raise? || stmt.Nack?)
    ensures Agree(s, ExecSignal(h, stmt, s), t, ExecSignal(h, stmt, t))
    decreases h.maxDepth - s.depth, 1, stmt, 1
  {
    SignalInParts(h, stmt, s);
    SignalInParts(h, stmt, t);
    if stmt.condition.None? {
      SignalOnAgrees(h, stmt, Res(Ok(Bool(true)), s), Res(Ok(Bool(true)), t));
    } else {
      EvalAgrees(h, stmt.condition.value, s, t);
      var a, b := Eval(h, stmt.condition.value, s), Eval(h, stmt.condition.value, t);
      if Quiet(s, a) && a.out.Ok? {
        SignalOnAgrees(h, stmt, a, b);
      }
      AgreeThen(h, s, a, t, b, ExecSignal(h, stmt, s), ExecSignal(h, stmt, t));
    }
  }

  lemma SignalOnAgrees(h: Host, stmt: Stmt, a: Res, b: Res)
    requires Twins(h, a.s, b.s) && (stmt.Raise? || stmt.Nack?) && a.out.Ok? && b.out == a.out
    ensures Agree(a.s, SignalOn(h, stmt, a), b.s, SignalOn(h, stmt, b))
    decreases h.maxDepth - a.s.depth, 1, stmt, 0
  {
    if !Truthy(a.out.value) {
      AgreeAtOnce(h, a.s, b.s, Ok(Null));
    } else if stmt.Nack? {
      AgreeAtOnce(h, a.s, b.s, Err(NackSignal(stmt.requeue)));
    } else {
      EvalAgrees(h, stmt.message, a.s, b.s);
    }
  }

  lemma ReplyAgrees(h: Host, stmt: Stmt, s: State, t: State)
    requires Twins(h, s, t) && stmt.Reply?
    ensures Agree(s, ExecReply(h, stmt, s), t, ExecReply(h, stmt, t))
    decreases h.maxDepth - s.depth, 1, stmt, 1
  {
    EvalAgrees(h, stmt.status, s, t);
    ReplyInParts(h, stmt, s);
    ReplyInParts(h, stmt, t);
    var a, b := Eval(h, stmt.status, s), Eval(h, stmt.status, t);
    if Quiet(s, a) && a.out.Ok? {
      AnsweredAgrees(h, stmt, a.out.value, a.s, b.s);
    }
    AgreeThen(h, s, a, t, b, ExecReply(h, stmt, s), ExecReply(h, stmt, t));
  }

  lemma AnsweredAgrees(h: Host, stmt: Stmt, status: Value, s: State, t: State)
    requires Twins(h, s, t) && stmt.Reply?
    ensures Agree(s, Answered(h, stmt, status, s), t, Answered(h, stmt, status, t))
    decreases h.maxDepth - s.depth, 1, stmt, 0, 0
  {
    if status.Int? {
      ContentAgrees(h, stmt, status.n, s, t);
    } else {
      AgreeAtOnce(h, s, t, Err(TypeError));
    }
  }

  lemma ContentAgrees(h: Host, stmt: Stmt, status: int, s: State, t: State)
    requires Twins(h, s, t) && stmt.Reply?
    ensures Agree(s, Content(h, stmt, status, s), t, Content(h, stmt, status, t))
    decreases h.maxDepth - s.depth, 1, stmt, 0, 0, 0
  {
    EvalAgrees(h, stmt.content, s, t);
    var a, b := Eval(h, stmt.content, s), Eval(h, stmt.content, t);
    if Quiet(s, a) && a.out.Ok? {
      HeadersAgree(h, stmt, status, a.out.value, a.s, b.s);
    }
    AgreeThen(h, s, a, t, b, Content(h, stmt, status, s), Content(h, stmt, status, t));
  }

  lemma HeadersAgree(h: Host, stmt: Stmt, status: int, content: Value, s: State, t: State)
    requires Twins(h, s, t) && stmt.Reply?
    ensures Agree(s, Headers(h, stmt, status, content, s), t, Headers(h, stmt, status, content, t))
    decreases h.maxDepth - s.depth, 1, stmt.headers, 0
  {
    if stmt.headers.None? {
      assert t.dropped + s.dropped[|s.dropped|..] == t.dropped;
    } else {
      EvalAgrees(h, stmt.headers.value, s, t);
    }
  }

  lemma {:induction false} WhileAgrees(h: Host, w: Stmt, iterations: nat, s: State, t: State)
    requires Twins(h, s, t) && w.While? && iterations <= MAX_ITERATIONS
    ensures Agree(s, ExecWhile(h, w, iterations, s), t, ExecWhile(h, w, iterations, t))
    decreases h.maxDepth - s.depth, 1, w, 1, MAX_ITERATIONS - iterations
  {
    WhileInParts(h, w, iterations, s);
    WhileInParts(h, w, iterations, t);
    EvalAgrees(h, w.guard, s, t);
    var a, b := Eval(h, w.guard, s), Eval(h, w.guard, t);
    if Quiet(s, a) && a.out.Ok? {
      LoopingAgrees(h, w, iterations, Truthy(a.out.value), a.s, b.s);
    }
    AgreeThen(h, s, a, t, b, ExecWhile(h, w, iterations, s), ExecWhile(h, w, iterations, t));
  }

  lemma LoopingAgrees(h: Host, w: Stmt, iterations: nat, holds: bool, s: State, t: State)
    requires Twins(h, s, t) && w.While? && iterations <= MAX_ITERATIONS
    ensures Agree(s, Looping(h, w, iterations, holds, s), t, Looping(h, w, iterations, holds, t))
    decreases h.maxDepth - s.depth, 1, w, 1, MAX_ITERATIONS - iterations, 1
  {
    if !holds {
      AgreeAtOnce(h, s, t, Ok(Null));
    } else if iterations == MAX_ITERATIONS {
      AgreeAtOnce(h, s, t, Err(LoopLimit));
    } else {
      RoundAgrees(h, w, iterations, s, t);
    }
  }

  lemma RoundAgrees(h: Host, w: Stmt, iterations: nat, s: State, t: State)
    requires Twins(h, s, t) && w.While? && iterations < MAX_ITERATIONS
    ensures Agree(s, Round(h, w, iterations, s), t, Round(h, w, iterations, t))
    decreases h.maxDepth - s.depth, 1, w, 1, MAX_ITERATIONS - iterations, 0
  {
    BlockAgrees(h, w.body, s, t);
    var a, b := ExecBlock(h, w.body, s), ExecBlock(h, w.body, t);
    if Quiet(s, a) && a.out.Ok? {
      WhileAgrees(h, w, iterations + 1, a.s, b.s);
    }
    AgreeThen(h, s, a, t, b, Round(h, w, iterations, s), Round(h, w, iterations, t));
  }

  lemma TransactionAgrees(h: Host, body: seq<Stmt>, s: State, t: State)
    requires Twins(h, s, t)
    ensures Agree(s, ExecTransaction(h, body, s), t, ExecTransaction(h, body, t))
  {
    if s.insideTx || !h.hasDb {
      AgreeAtOnce(h, s, t, Err(TypeError));
    } else {
      TransactionStarts(h, body, s);
      TransactionStarts(h, body, t);
    }
  }

  lemma TransactionStarts(h: Host, body: seq<Stmt>, s: State)
    requires Valid(h, s) && !s.insideTx && h.hasDb
    ensures var log := ExecTransaction(h, body, s).s.world.log;
            |log| > |s.world.log| && Begins(log[|s.world.log|])
  {
  }
}
