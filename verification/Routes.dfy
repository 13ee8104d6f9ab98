/**
 * What an evaluation does depends on its history only through what the host answers: run
 * behind one history under one host, and behind another history under a host that answers
 * there as the first one does here, it does the same things and ends alike.
 */
module Routes {
  import opened Environment
  import opened Options
  import opened Ast
  import opened Semantics
  import opened Parts

  /** Host `g` behind history `to` stands in for host `h` behind history `from`. */
  datatype Route = Route(h: Host, g: Host, from: seq<Event>, to: seq<Event>)

  ghost predicate SameAnswers(r: Route) {
    && r.g == r.h.(beginSucceeds := r.g.beginSucceeds, commitSucceeds := r.g.commitSucceeds,
                   answers := r.g.answers, namespaceAnswers := r.g.namespaceAnswers, schedule := r.g.schedule)
    && (forall x: seq<Event> :: r.g.beginSucceeds(r.to + x) == r.h.beginSucceeds(r.from + x))
    && (forall x: seq<Event> :: r.g.commitSucceeds(r.to + x) == r.h.commitSucceeds(r.from + x))
    && (forall x: seq<Event>, q: Request :: r.g.answers(r.to + x, q) == r.h.answers(r.from + x, q))
    && (forall x: seq<Event>, ns: string, sel: string, args: seq<Value> ::
          r.g.namespaceAnswers(r.to + x, ns, sel, args) == r.h.namespaceAnswers(r.from + x, ns, sel, args))
    && (forall x: seq<Event>, bs: seq<Branch> :: r.g.schedule(r.to + x, bs) == r.h.schedule(r.from + x, bs))
  }

  /** The same interpreter, as far behind `to` as behind `from`. */
  predicate OnRoute(r: Route, s: State, t: State) {
    && Valid(r.h, s) && Valid(r.g, t) && t == s.(world := t.world, dropped := t.dropped)
    && r.from <= s.world.log && r.to <= t.world.log && s.world.log[|r.from|..] == t.world.log[|r.to|..]
  }

  /** An event that stands for something done to the outside. */
  predicate Real(e: Event)
    decreases e, 0
  {
    match e
    case Forked(_) => false
    case Joined(bs, _) =>
      && (exists k :: 0 <= k < |bs| && bs[k].events != [])
      && (forall k :: 0 <= k < |bs| ==> AllReal(bs[k].events))
    case _ => true
  }

  predicate AllReal(es: seq<Event>)
    decreases es, 1
  {
    forall i :: 0 <= i < |es| ==> Real(es[i])
  }

  /** What a step did to the outside. */
  function Deeds(s: State, a: Res): seq<Event> {
    if |s.world.log| <= |a.s.world.log| then a.s.world.log[|s.world.log|..] else []
  }

  /** The two steps did the same real things and ended alike. */
  predicate Moves(r: Route, s: State, a: Res, t: State, b: Res) {
    && OnRoute(r, a.s, b.s) && b.out == a.out
    && s.world.log <= a.s.world.log && t.world.log <= b.s.world.log
    && Deeds(s, a) == Deeds(t, b) && AllReal(Deeds(s, a))
    && s.dropped <= a.s.dropped && b.s.dropped == t.dropped + a.s.dropped[|s.dropped|..]
  }

  lemma MovesAtOnce(r: Route, s: State, t: State, out: Outcome)
    requires OnRoute(r, s, t)
    ensures Moves(r, s, Res(out, s), t, Res(out, t))
  {
    assert t.dropped + s.dropped[|s.dropped|..] == t.dropped;
  }

  lemma MovesThen(r: Route, s: State, a: Res, t: State, b: Res, c: Res, d: Res)
    requires Moves(r, s, a, t, b) && Moves(r, a.s, c, b.s, d)
    ensures Moves(r, s, c, t, d)
  {
    DeedsAdd(s, a, c);
    DeedsAdd(t, b, d);
    RealConcat(Deeds(s, a), Deeds(a.s, c));
    LossesAdd(s.dropped, a.s.dropped, c.s.dropped, t.dropped);
  }

  lemma DeedsAdd(s: State, a: Res, c: Res)
    requires s.world.log <= a.s.world.log <= c.s.world.log
    ensures s.world.log <= c.s.world.log && Deeds(s, c) == Deeds(s, a) + Deeds(a.s, c)
  {
  }

  lemma RealConcat(a: seq<Event>, b: seq<Event>)
    requires AllReal(a) && AllReal(b)
    ensures AllReal(a + b)
  {
  }

  lemma LossesAdd(s: seq<Response>, a: seq<Response>, c: seq<Response>, t: seq<Response>)
    requires s <= a <= c
    ensures s <= c && t + a[|s|..] + c[|a|..] == t + c[|s|..]
  {
  }

  lemma MovesInFront(r: Route, s: State, a: Res, t: State, b: Res, c: Res, d: Res)
    requires Moves(r, s, a, t, b) && (a.out.Ok? ==> Moves(r, a.s, c, b.s, d))
    ensures Moves(r, s, InFront(a, c), t, InFront(b, d))
  {
    if a.out.Ok? {
      MovesThen(r, s, a, t, b, InFront(a, c), InFront(b, d));
    }
  }

  /** One event behind each of the two histories. */
  lemma MovesByOne(r: Route, s: State, a: Res, t: State, b: Res, e: Event)
    requires OnRoute(r, s, t) && Valid(r.h, a.s) && Valid(r.g, b.s) && Real(e) && b.out == a.out
    requires b.s == a.s.(world := b.s.world, dropped := b.s.dropped)
    requires a.s.world.log == s.world.log + [e] && b.s.world.log == t.world.log + [e]
    requires a.s.dropped == s.dropped && b.s.dropped == t.dropped
    ensures Moves(r, s, a, t, b)
  {
    assert Deeds(s, a) == [e] == Deeds(t, b);
    assert t.dropped + s.dropped[|s.dropped|..] == t.dropped;
    assert a.s.world.log[|r.from|..] == s.world.log[|r.from|..] + [e];
    assert b.s.world.log[|r.to|..] == t.world.log[|r.to|..] + [e];
  }

  // --- Hosts that differ in their answers only ---

  lemma {:induction false} SameCoercion(r: Route, m: Option<string>, params: seq<Param>, args: seq<Value>)
    requires SameAnswers(r) && |params| == |args|
    ensures CoerceAll(r.g, m, params, args) == CoerceAll(r.h, m, params, args)
    decreases |params|
  {
    if params != [] {
      SameCoercion(r, m, params[1..], args[1..]);
    }
  }

  lemma SamePurity(r: Route, env: Env<Value>, targets: seq<Expr>)
    requires SameAnswers(r)
    ensures BranchesArePure(r.g, env, targets) == BranchesArePure(r.h, env, targets)
  {
    assert forall i :: 0 <= i < |targets| ==>
      BranchIsPure(r.g, env, targets[i]) == BranchIsPure(r.h, env, targets[i]);
  }

  // --- Steps that touch the outside ---

  /** The two histories, split where they start to be alike. */
  lemma Behind(r: Route, s: State, t: State) returns (x: seq<Event>)
    requires OnRoute(r, s, t)
    ensures s.world.log == r.from + x && t.world.log == r.to + x
  {
    x := s.world.log[|r.from|..];
  }

  lemma RequestMoves(r: Route, q: Request, s: State, t: State)
    requires SameAnswers(r) && OnRoute(r, s, t)
    ensures Moves(r, s, DoRequest(r.h, q, s), t, DoRequest(r.g, q, t))
  {
    if !r.h.hasDb {
      MovesAtOnce(r, s, t, Err(TypeError));
    } else if r.h.rejects(q).Some? {
      MovesAtOnce(r, s, t, Err(Fault(r.h.rejects(q).value)));
    } else {
      var x := Behind(r, s, t);
      MovesByOne(r, s, DoRequest(r.h, q, s), t, DoRequest(r.g, q, t), Did(q));
    }
  }

  lemma NamespaceMoves(r: Route, ns: string, selector: string, args: seq<Value>, s: State, t: State)
    requires SameAnswers(r) && OnRoute(r, s, t)
    ensures Moves(r, s, CallNamespace(r.h, ns, selector, args, s), t, CallNamespace(r.g, ns, selector, args, t))
  {
    var x := Behind(r, s, t);
    MovesByOne(r, s, CallNamespace(r.h, ns, selector, args, s), t, CallNamespace(r.g, ns, selector, args, t),
               Called(ns, selector, args));
  }

  lemma InvokeMoves(r: Route, receiver: Value, selector: string, args: seq<Value>, s: State, t: State)
    requires SameAnswers(r) && OnRoute(r, s, t)
    ensures Moves(r, s, Invoke(r.h, receiver, selector, args, s), t, Invoke(r.g, receiver, selector, args, t))
  {
    if IsRequest(receiver, selector) {
      RequestMoves(r, Request(if receiver.Table? then receiver.name else "", selector, args), s, t);
    } else if Acts(receiver) {
      NamespaceMoves(r, receiver.name, selector, args, s, t);
    } else {
      MovesAtOnce(r, s, t, OutcomeOf(r.h.callMethod(receiver, selector, args)));
    }
  }

  // --- Expressions ---

  lemma {:induction false} EvalMoves(r: Route, e: Expr, s: State, t: State)
    requires SameAnswers(r) && OnRoute(r, s, t)
    ensures Moves(r, s, Eval(r.h, e, s), t, Eval(r.g, e, t))
    decreases r.h.maxDepth - s.depth, 1, e, 1
  {
    LogicInParts(r.h, e, s);
    LogicInParts(r.g, e, t);
    match e
    case IntLit(_) => LeafMoves(r, e, s, t);
    case BoolLit(_) => LeafMoves(r, e, s, t);
    case StrLit(_) => LeafMoves(r, e, s, t);
    case NullLit => LeafMoves(r, e, s, t);
    case Ident(_) => LeafMoves(r, e, s, t);
    case ListLit(items) => AllMoves(r, items, s, t);
    case And(_, _) => LogicalMoves(r, e, s, t);
    case Or(_, _) => LogicalMoves(r, e, s, t);
    case Pipeline(_, _) => FlowMoves(r, e, s, t);
    case Rescue(_, _) => FlowMoves(r, e, s, t);
    case Broadcast(_, _) => FlowMoves(r, e, s, t);
    case _ => OperationMoves(r, e, s, t);
  }

  lemma LeafMoves(r: Route, e: Expr, s: State, t: State)
    requires SameAnswers(r) && OnRoute(r, s, t) && (e.IntLit? || e.BoolLit? || e.StrLit? || e.NullLit? || e.Ident?)
    ensures Moves(r, s, Eval(r.h, e, s), t, Eval(r.g, e, t))
    decreases r.h.maxDepth - s.depth, 1, e, 1, 0
  {
    MovesAtOnce(r, s, t, Eval(r.h, e, s).out);
  }

  lemma FlowMoves(r: Route, e: Expr, s: State, t: State)
    requires SameAnswers(r) && OnRoute(r, s, t) && (e.Pipeline? || e.Rescue? || e.Broadcast?)
    ensures Moves(r, s, Eval(r.h, e, s), t, Eval(r.g, e, t))
    decreases r.h.maxDepth - s.depth, 1, e, 1, 0
  {
    FlowInParts(r.h, e, s);
    FlowInParts(r.g, e, t);
    match e
    case Pipeline(_, _) => PipelineMoves(r, e, s, t);
    case Rescue(_, _) => RescueMoves(r, e, s, t);
    case Broadcast(_, _) => BroadcastMoves(r, e, s, t);
  }

  lemma OperationMoves(r: Route, e: Expr, s: State, t: State)
    requires SameAnswers(r) && OnRoute(r, s, t) && (e.Apply? || e.MethodCall? || e.Call? || e.If? || e.Match?)
    ensures Moves(r, s, Eval(r.h, e, s), t, Eval(r.g, e, t))
    decreases r.h.maxDepth - s.depth, 1, e, 1, 0
  {
    OperationInParts(r.h, e, s);
    OperationInParts(r.g, e, t);
    match e
    case Apply(_, _) => ApplyMoves(r, e, s, t);
    case MethodCall(_, _, _) => MethodMoves(r, e, s, t);
    case Call(_, _) => CallMoves(r, e, s, t);
    case If(_, _, _) => IfMoves(r, e, s, t);
    case Match(_, _) => MatchMoves(r, e, s, t);
  }

  lemma LogicalMoves(r: Route, e: Expr, s: State, t: State)
    requires SameAnswers(r) && OnRoute(r, s, t) && (e.And? || e.Or?)
    ensures Moves(r, s, EvalLogical(r.h, e, s), t, EvalLogical(r.g, e, t))
    decreases r.h.maxDepth - s.depth, 1, e, 0
  {
    EvalMoves(r, e.left, s, t);
    var a, b := Eval(r.h, e.left, s), Eval(r.g, e.left, t);
    if a.out.Ok? && Truthy(a.out.value) != e.Or? {
      EvalMoves(r, e.right, a.s, b.s);
      MovesThen(r, s, a, t, b, Eval(r.h, e.right, a.s), Eval(r.g, e.right, b.s));
    }
  }

  lemma ApplyMoves(r: Route, e: Expr, s: State, t: State)
    requires SameAnswers(r) && OnRoute(r, s, t) && e.Apply?
    ensures Moves(r, s, EvalApply(r.h, e, s), t, EvalApply(r.g, e, t))
    decreases r.h.maxDepth - s.depth, 1, e, 0
  {
    AllMoves(r, e.operands, s, t);
  }

  lemma CallMoves(r: Route, e: Expr, s: State, t: State)
    requires SameAnswers(r) && OnRoute(r, s, t) && e.Call?
    ensures Moves(r, s, EvalCall(r.h, e, s), t, EvalCall(r.g, e, t))
    decreases r.h.maxDepth - s.depth, 1, e, 0
  {
    AllMoves(r, e.args, s, t);
    var a, b := EvalAll(r.h, e.args, s), EvalAll(r.g, e.args, t);
    if a.out.Ok? {
      FunctionMoves(r, e.task, a.out.value.items, a.s, b.s);
      MovesThen(r, s, a, t, b, EvalCall(r.h, e, s), EvalCall(r.g, e, t));
    }
  }

  lemma IfMoves(r: Route, e: Expr, s: State, t: State)
    requires SameAnswers(r) && OnRoute(r, s, t) && e.If?
    ensures Moves(r, s, EvalIf(r.h, e, s), t, EvalIf(r.g, e, t))
    decreases r.h.maxDepth - s.depth, 1, e, 0
  {
    EvalMoves(r, e.cond, s, t);
    var a, b := Eval(r.h, e.cond, s), Eval(r.g, e.cond, t);
    if a.out.Ok? {
      if Truthy(a.out.value) {
        BranchMoves(r, e.thenBranch, a.s, b.s);
      } else if e.elseBranch.Some? {
        BranchMoves(r, e.elseBranch.value, a.s, b.s);
      } else {
        MovesAtOnce(r, a.s, b.s, Ok(Null));
      }
      MovesThen(r, s, a, t, b, EvalIf(r.h, e, s), EvalIf(r.g, e, t));
    }
  }

  lemma MatchMoves(r: Route, e: Expr, s: State, t: State)
    requires SameAnswers(r) && OnRoute(r, s, t) && e.Match?
    ensures Moves(r, s, EvalMatch(r.h, e, s), t, EvalMatch(r.g, e, t))
    decreases r.h.maxDepth - s.depth, 1, e, 0
  {
    EvalMoves(r, e.subject, s, t);
    var a, b := Eval(r.h, e.subject, s), Eval(r.g, e.subject, t);
    if a.out.Ok? {
      ArmsMove(r, a.out.value, e.arms, a.s, b.s);
      MovesThen(r, s, a, t, b, EvalMatch(r.h, e, s), EvalMatch(r.g, e, t));
    }
  }

  lemma PipelineMoves(r: Route, e: Expr, s: State, t: State)
    requires SameAnswers(r) && OnRoute(r, s, t) && e.Pipeline?
    ensures Moves(r, s, EvalPipeline(r.h, e, s), t, EvalPipeline(r.g, e, t))
    decreases r.h.maxDepth - s.depth, 1, e, 0
  {
    EvalMoves(r, e.input, s, t);
    var a, b := Eval(r.h, e.input, s), Eval(r.g, e.input, t);
    if HasRescue(e.stages) {
      RailwayMoves(r, s, a, t, b, e.stages);
    } else if a.out.Ok? {
      StagesMove(r, a.out.value, e.stages, a.s, b.s);
      MovesThen(r, s, a, t, b, EvalPipeline(r.h, e, s), EvalPipeline(r.g, e, t));
    }
  }

  lemma RescuedOnRoute(r: Route, s: State, a: Res, t: State, b: Res)
    requires SameAnswers(r) && OnRoute(r, s, t) && Good(r.h, s, a) && Good(r.g, t, b) && Moves(r, s, a, t, b)
    requires a.out.Err? && !IsHttp(a.out)
    ensures OnRoute(r, Rescued(r.h, a.s, a.out.error, |s.frames|), Rescued(r.g, b.s, b.out.error, |t.frames|))
  {
    RescuedGood(r.h, s, a, a);
    RescuedGood(r.g, t, b, b);
  }

  /** A handler goes on from the failure, and its scope is popped. */
  lemma MovesRescued(r: Route, s: State, a: Res, t: State, b: Res, c: Res, d: Res)
    requires OnRoute(r, s, t) && Good(r.h, s, a) && Good(r.g, t, b) && Moves(r, s, a, t, b)
    requires a.out.Err? && !IsHttp(a.out)
    requires Moves(r, Rescued(r.h, a.s, a.out.error, |s.frames|), c, Rescued(r.g, b.s, b.out.error, |t.frames|), d)
    requires Valid(r.h, Unscoped(c).s) && Valid(r.g, Unscoped(d).s)
    ensures Moves(r, s, Unscoped(c), t, Unscoped(d))
  {
    assert Moves(r, a.s, Unscoped(c), b.s, Unscoped(d));
    MovesThen(r, s, a, t, b, Unscoped(c), Unscoped(d));
  }

  lemma RescueMoves(r: Route, e: Expr, s: State, t: State)
    requires SameAnswers(r) && OnRoute(r, s, t) && e.Rescue?
    ensures Moves(r, s, EvalRescue(r.h, e, s), t, EvalRescue(r.g, e, t))
    decreases r.h.maxDepth - s.depth, 1, e, 0
  {
    EvalMoves(r, e.expr, s, t);
    var a, b := Eval(r.h, e.expr, s), Eval(r.g, e.expr, t);
    if a.out.Err? && !IsHttp(a.out) {
      RescuedOnRoute(r, s, a, t, b);
      var s', t' := Rescued(r.h, a.s, a.out.error, |s.frames|), Rescued(r.g, b.s, b.out.error, |t.frames|);
      EvalMoves(r, e.handler, s', t');
      RescuedGood(r.h, s, a, Eval(r.h, e.handler, s'));
      RescuedGood(r.g, t, b, Eval(r.g, e.handler, t'));
      MovesRescued(r, s, a, t, b, Eval(r.h, e.handler, s'), Eval(r.g, e.handler, t'));
    }
  }

  lemma BroadcastMoves(r: Route, e: Expr, s: State, t: State)
    requires SameAnswers(r) && OnRoute(r, s, t) && e.Broadcast?
    ensures Moves(r, s, EvalBroadcast(r.h, e, s), t, EvalBroadcast(r.g, e, t))
    decreases r.h.maxDepth - s.depth, 1, e, 0
  {
    if s.insideTx {
      MovesAtOnce(r, s, t, Err(TypeError));
    } else {
      EvalMoves(r, e.input, s, t);
      var a, b := Eval(r.h, e.input, s), Eval(r.g, e.input, t);
      if a.out.Ok? {
        SamePurity(r, a.s.env, e.targets);
        if BranchesArePure(r.h, a.s.env, e.targets) {
          SequenceMoves(r, a.out.value, e.targets, a.s, b.s);
        } else {
          ParallelMoves(r, a.out.value, e.targets, a.s, b.s);
        }
        MovesThen(r, s, a, t, b, EvalBroadcast(r.h, e, s), EvalBroadcast(r.g, e, t));
      }
    }
  }

  lemma AllMoves(r: Route, es: seq<Expr>, s: State, t: State)
    requires SameAnswers(r) && OnRoute(r, s, t)
    ensures Moves(r, s, EvalAll(r.h, es, s), t, EvalAll(r.g, es, t))
    decreases r.h.maxDepth - s.depth, 1, es, 0
  {
    if es == [] {
      MovesAtOnce(r, s, t, Ok(List([])));
    } else {
      AllInParts(r.h, es, s);
      AllInParts(r.g, es, t);
      EvalMoves(r, es[0], s, t);
      var a, b := Eval(r.h, es[0], s), Eval(r.g, es[0], t);
      if a.out.Ok? {
        AllMoves(r, es[1..], a.s, b.s);
      }
      MovesInFront(r, s, a, t, b, EvalAll(r.h, es[1..], a.s), EvalAll(r.g, es[1..], b.s));
    }
  }

  lemma MethodMoves(r: Route, e: Expr, s: State, t: State)
    requires SameAnswers(r) && OnRoute(r, s, t) && e.MethodCall?
    ensures Moves(r, s, EvalMethod(r.h, e, s), t, EvalMethod(r.g, e, t))
    decreases r.h.maxDepth - s.depth, 1, e, 0
  {
    MethodInParts(r.h, e, s);
    MethodInParts(r.g, e, t);
    var task := NamespaceTask(r.h, s.env, e.receiver, e.selector);
    if task.Some? {
      OnTaskMoves(r, task.value, [], e.selector, e.args, s, t);
    } else if IsUnboundNamespace(r.h, s.env, e.receiver) {
      MovesAtOnce(r, s, t, Err(UndefinedTask(e.receiver.name + "." + e.selector)));
    } else {
      EvalMoves(r, e.receiver, s, t);
      var a, b := Eval(r.h, e.receiver, s), Eval(r.g, e.receiver, t);
      if a.out.Ok? {
        OnReceiverMoves(r, a.out.value, e.selector, e.args, a.s, b.s);
        MovesThen(r, s, a, t, b, EvalMethod(r.h, e, s), EvalMethod(r.g, e, t));
      }
    }
  }

  lemma OnTaskMoves(r: Route, task: Value, first: seq<Value>, name: string, args: seq<Expr>, s: State, t: State)
    requires SameAnswers(r) && OnRoute(r, s, t)
    ensures Moves(r, s, OnTask(r.h, task, first, name, args, s), t, OnTask(r.g, task, first, name, args, t))
    decreases r.h.maxDepth - s.depth, 1, args, 1
  {
    AllMoves(r, args, s, t);
    var a, b := EvalAll(r.h, args, s), EvalAll(r.g, args, t);
    if a.out.Ok? {
      TaskMoves(r, task, first + a.out.value.items, name, a.s, b.s);
      MovesThen(r, s, a, t, b, OnTask(r.h, task, first, name, args, s), OnTask(r.g, task, first, name, args, t));
    }
  }

  lemma OnReceiverMoves(r: Route, receiver: Value, selector: string, args: seq<Expr>, s: State, t: State)
    requires SameAnswers(r) && OnRoute(r, s, t)
    ensures Moves(r, s, OnReceiver(r.h, receiver, selector, args, s), t, OnReceiver(r.g, receiver, selector, args, t))
    decreases r.h.maxDepth - s.depth, 1, args, 2
  {
    if IsRequest(receiver, selector) && !r.h.hasDb {
      MovesAtOnce(r, s, t, Err(TypeError));
    } else {
      InvokeOnMoves(r, receiver, selector, args, s, t);
    }
  }

  lemma InvokeOnMoves(r: Route, receiver: Value, selector: string, args: seq<Expr>, s: State, t: State)
    requires SameAnswers(r) && OnRoute(r, s, t)
    ensures Moves(r, s, InvokeOn(r.h, receiver, selector, args, s), t, InvokeOn(r.g, receiver, selector, args, t))
    decreases r.h.maxDepth - s.depth, 1, args, 1
  {
    AllMoves(r, args, s, t);
    var a, b := EvalAll(r.h, args, s), EvalAll(r.g, args, t);
    if a.out.Ok? {
      InvokeMoves(r, receiver, selector, a.out.value.items, a.s, b.s);
      MovesThen(r, s, a, t, b,
                InvokeOn(r.h, receiver, selector, args, s), InvokeOn(r.g, receiver, selector, args, t));
    }
  }

  lemma ArmsMove(r: Route, subject: Value, arms: seq<Arm>, s: State, t: State)
    requires SameAnswers(r) && OnRoute(r, s, t)
    ensures Moves(r, s, EvalArms(r.h, subject, arms, s), t, EvalArms(r.g, subject, arms, t))
    decreases r.h.maxDepth - s.depth, 1, arms, 0
  {
    if arms == [] {
      MovesAtOnce(r, s, t, Ok(Null));
    } else {
      ArmsInParts(r.h, subject, arms, s);
      ArmsInParts(r.g, subject, arms, t);
      PatternMoves(r, subject, arms[0], s, t);
      var a, b := EvalPattern(r.h, subject, arms[0], s), EvalPattern(r.g, subject, arms[0], t);
      if a.out.Ok? {
        ChosenMoves(r, subject, arms, Truthy(a.out.value), a.s, b.s);
        MovesThen(r, s, a, t, b, EvalArms(r.h, subject, arms, s), EvalArms(r.g, subject, arms, t));
      }
    }
  }

  lemma ChosenMoves(r: Route, subject: Value, arms: seq<Arm>, applies: bool, s: State, t: State)
    requires SameAnswers(r) && OnRoute(r, s, t) && arms != []
    ensures Moves(r, s, Chosen(r.h, subject, arms, applies, s), t, Chosen(r.g, subject, arms, applies, t))
    decreases r.h.maxDepth - s.depth, 1, arms, 0, 0
  {
    if applies {
      ArmMoves(r, arms[0], s, t);
    } else {
      ArmsMove(r, subject, arms[1..], s, t);
    }
  }

  lemma PatternMoves(r: Route, subject: Value, arm: Arm, s: State, t: State)
    requires SameAnswers(r) && OnRoute(r, s, t)
    ensures Moves(r, s, EvalPattern(r.h, subject, arm, s), t, EvalPattern(r.g, subject, arm, t))
    decreases r.h.maxDepth - s.depth, 1, arm, 0
  {
    if arm.pattern.None? {
      MovesAtOnce(r, s, t, Ok(Bool(true)));
    } else {
      EvalMoves(r, arm.pattern.value, s, t);
    }
  }

  lemma ArmMoves(r: Route, arm: Arm, s: State, t: State)
    requires SameAnswers(r) && OnRoute(r, s, t)
    ensures Moves(r, s, EvalArm(r.h, arm, s), t, EvalArm(r.g, arm, t))
    decreases r.h.maxDepth - s.depth, 1, arm, 0
  {
    EvalMoves(r, arm.value, s, t);
  }

  lemma BranchMoves(r: Route, body: Body, s: State, t: State)
    requires SameAnswers(r) && OnRoute(r, s, t)
    ensures Moves(r, s, EvalBranch(r.h, body, s), t, EvalBranch(r.g, body, t))
    decreases r.h.maxDepth - s.depth, 1, body, 1
  {
    BodyMoves(r, body, s, t);
  }

  lemma BodyMoves(r: Route, body: Body, s: State, t: State)
    requires SameAnswers(r) && OnRoute(r, s, t)
    ensures Moves(r, s, RunBody(r.h, body, s), t, RunBody(r.g, body, t))
    decreases r.h.maxDepth - s.depth, 1, body, 0
  {
    match body
    case Inline(e) => EvalMoves(r, e, s, t);
    case Block(stmts, ret) =>
      BlockMoves(r, stmts, s, t);
      var a, b := ExecBlock(r.h, stmts, s), ExecBlock(r.g, stmts, t);
      if a.out.Ok? {
        EvalMoves(r, ret, a.s, b.s);
        MovesThen(r, s, a, t, b, RunBody(r.h, body, s), RunBody(r.g, body, t));
      }
  }

  // --- Pipelines ---

  lemma StagesMove(r: Route, v: Value, stages: seq<Stage>, s: State, t: State)
    requires SameAnswers(r) && OnRoute(r, s, t)
    ensures Moves(r, s, RunStages(r.h, v, stages, s), t, RunStages(r.g, v, stages, t))
    decreases r.h.maxDepth - s.depth, 1, stages, 0
  {
    if stages == [] {
      MovesAtOnce(r, s, t, Ok(v));
    } else if stages[0].ExprStage? {
      StageMoves(r, v, stages[0], s, t);
      var a, b := RunStage(r.h, v, stages[0], s), RunStage(r.g, v, stages[0], t);
      if a.out.Ok? {
        StagesMove(r, a.out.value, stages[1..], a.s, b.s);
        MovesThen(r, s, a, t, b, RunStages(r.h, v, stages, s), RunStages(r.g, v, stages, t));
      }
    } else {
      StagesMove(r, v, stages[1..], s, t);
    }
  }

  lemma RailwayMoves(r: Route, s: State, a: Res, t: State, b: Res, stages: seq<Stage>)
    requires SameAnswers(r) && OnRoute(r, s, t) && Good(r.h, s, a) && Good(r.g, t, b) && Moves(r, s, a, t, b)
    ensures Moves(r, s, Railway(r.h, a, stages, s), t, Railway(r.g, b, stages, t))
    decreases r.h.maxDepth - s.depth, 1, stages, 2
  {
    if stages != [] && (!IsHttp(a.out) || stages[0].ExprStage?) {
      TravelMoves(r, s, a, t, b, stages[0]);
      RailwayMoves(r, s, Travel(r.h, a, stages[0], s), t, Travel(r.g, b, stages[0], t), stages[1..]);
    }
  }

  lemma TravelMoves(r: Route, s: State, a: Res, t: State, b: Res, stage: Stage)
    requires SameAnswers(r) && OnRoute(r, s, t) && Good(r.h, s, a) && Good(r.g, t, b) && Moves(r, s, a, t, b)
    requires stage.ExprStage? || !IsHttp(a.out)
    ensures Moves(r, s, Travel(r.h, a, stage, s), t, Travel(r.g, b, stage, t))
    decreases r.h.maxDepth - s.depth, 1, stage, 1
  {
    if stage.ExprStage? == a.out.Ok? {
      if a.out.Ok? {
        StageMoves(r, a.out.value, stage, a.s, b.s);
        MovesThen(r, s, a, t, b, RunStage(r.h, a.out.value, stage, a.s), RunStage(r.g, a.out.value, stage, b.s));
      } else {
        RescuedOnRoute(r, s, a, t, b);
        var s', t' := Rescued(r.h, a.s, a.out.error, |s.frames|), Rescued(r.g, b.s, b.out.error, |t.frames|);
        HandlerMoves(r, stage, s', t');
        RescuedGood(r.h, s, a, RunHandler(r.h, stage, s'));
        RescuedGood(r.g, t, b, RunHandler(r.g, stage, t'));
        MovesRescued(r, s, a, t, b, RunHandler(r.h, stage, s'), RunHandler(r.g, stage, t'));
      }
    }
  }

  lemma StageMoves(r: Route, v: Value, stage: Stage, s: State, t: State)
    requires SameAnswers(r) && OnRoute(r, s, t) && stage.ExprStage?
    ensures Moves(r, s, RunStage(r.h, v, stage, s), t, RunStage(r.g, v, stage, t))
    decreases r.h.maxDepth - s.depth, 1, stage, 0
  {
    ApplyStageMoves(r, v, stage.expr, s, t);
  }

  lemma HandlerMoves(r: Route, stage: Stage, s: State, t: State)
    requires SameAnswers(r) && OnRoute(r, s, t) && !stage.ExprStage?
    ensures Moves(r, s, RunHandler(r.h, stage, s), t, RunHandler(r.g, stage, t))
    decreases r.h.maxDepth - s.depth, 1, stage, 0
  {
    match stage
    case RescueInline(e) => EvalMoves(r, e, s, t);
    case RescueBlock(stmts) => BlockMoves(r, stmts, s, t);
  }

  lemma ApplyStageMoves(r: Route, v: Value, e: Expr, s: State, t: State)
    requires SameAnswers(r) && OnRoute(r, s, t)
    ensures Moves(r, s, ApplyStage(r.h, v, e, s), t, ApplyStage(r.g, v, e, t))
    decreases r.h.maxDepth - s.depth, 1, e, 2
  {
    if e.Ident? {
      if IsFetch(e.name) {
        MovesAtOnce(r, s, t, Err(TypeError));
      } else if Get(s.env, e.name).Some? && Get(s.env, e.name).value.Task? {
        OnEachMoves(r, Get(s.env, e.name).value, v, e.name, s, t);
      } else {
        EvalMoves(r, e, s, t);
      }
    } else {
      StageInParts(r.h, v, e, s);
      StageInParts(r.g, v, e, t);
      if IsFileTask(r.h, s.env, e) {
        OnEachMoves(r, FileTask(r.h, s.env, e), v, e.op.name, s, t);
      } else if e.MethodCall? && StageTakesInput(e.receiver, e.selector) {
        InputMoves(r, v, e.receiver.name, e.selector, e.args, s, t);
      } else {
        PlainMoves(r, v, e, s, t);
      }
    }
  }

  lemma PlainMoves(r: Route, v: Value, e: Expr, s: State, t: State)
    requires SameAnswers(r) && OnRoute(r, s, t)
    ensures Moves(r, s, Plain(r.h, v, e, s), t, Plain(r.g, v, e, t))
    decreases r.h.maxDepth - s.depth, 1, e, 2, 0
  {
    if e.Call? {
      OnFunctionMoves(r, e.task, [v], e.args, s, t);
    } else if e.MethodCall? && NamespaceTask(r.h, s.env, e.receiver, e.selector).Some? {
      OnTaskMoves(r, NamespaceTask(r.h, s.env, e.receiver, e.selector).value, [v], e.selector, e.args, s, t);
    } else {
      EvalMoves(r, e, s, t);
    }
  }

  lemma OnFunctionMoves(r: Route, name: string, first: seq<Value>, args: seq<Expr>, s: State, t: State)
    requires SameAnswers(r) && OnRoute(r, s, t)
    ensures Moves(r, s, OnFunction(r.h, name, first, args, s), t, OnFunction(r.g, name, first, args, t))
    decreases r.h.maxDepth - s.depth, 1, args, 1
  {
    AllMoves(r, args, s, t);
    var a, b := EvalAll(r.h, args, s), EvalAll(r.g, args, t);
    if a.out.Ok? {
      FunctionMoves(r, name, first + a.out.value.items, a.s, b.s);
      MovesThen(r, s, a, t, b, OnFunction(r.h, name, first, args, s), OnFunction(r.g, name, first, args, t));
    }
  }

  lemma InputMoves(r: Route, v: Value, ns: string, selector: string, args: seq<Expr>, s: State, t: State)
    requires SameAnswers(r) && OnRoute(r, s, t)
    ensures Moves(r, s, WithInput(r.h, v, ns, selector, args, s), t, WithInput(r.g, v, ns, selector, args, t))
    decreases r.h.maxDepth - s.depth, 1, args, 2
  {
    if ns == "cache" {
      CacheSetMoves(r, v, args, s, t);
    } else {
      OnNamespaceMoves(r, v, ns, selector, args, s, t);
    }
  }

  lemma OnNamespaceMoves(r: Route, v: Value, ns: string, selector: string, args: seq<Expr>, s: State, t: State)
    requires SameAnswers(r) && OnRoute(r, s, t)
    ensures Moves(r, s, OnNamespace(r.h, v, ns, selector, args, s), t, OnNamespace(r.g, v, ns, selector, args, t))
    decreases r.h.maxDepth - s.depth, 1, args, 1
  {
    AllMoves(r, args, s, t);
    var a, b := EvalAll(r.h, args, s), EvalAll(r.g, args, t);
    if a.out.Ok? {
      var all := if ns == "http_client" then a.out.value.items + [v] else [v] + a.out.value.items;
      InvokeMoves(r, Namespace(ns), selector, all, a.s, b.s);
      MovesThen(r, s, a, t, b,
                OnNamespace(r.h, v, ns, selector, args, s), OnNamespace(r.g, v, ns, selector, args, t));
    }
  }

  lemma CacheSetMoves(r: Route, v: Value, args: seq<Expr>, s: State, t: State)
    requires SameAnswers(r) && OnRoute(r, s, t)
    ensures Moves(r, s, CacheSet(r.h, v, args, s), t, CacheSet(r.g, v, args, t))
    decreases r.h.maxDepth - s.depth, 1, args, 1
  {
    if args == [] {
      MovesAtOnce(r, s, t, Err(TypeError));
    } else {
      EvalMoves(r, args[0], s, t);
      var a, b := Eval(r.h, args[0], s), Eval(r.g, args[0], t);
      CacheSetInParts(r.h, v, args, s);
      CacheSetInParts(r.g, v, args, t);
      if a.out.Ok? {
        var both := [a.out.value, v];
        InvokeMoves(r, Namespace("cache"), "set", both, a.s, b.s);
        StoredMoves(r, v, a.s, Invoke(r.h, Namespace("cache"), "set", both, a.s),
                    b.s, Invoke(r.g, Namespace("cache"), "set", both, b.s));
        MovesThen(r, s, a, t, b, CacheSet(r.h, v, args, s), CacheSet(r.g, v, args, t));
      }
    }
  }

  lemma StoredMoves(r: Route, v: Value, s: State, a: Res, t: State, b: Res)
    requires Moves(r, s, a, t, b)
    ensures Moves(r, s, Stored(v, a), t, Stored(v, b))
  {
  }

  lemma OnEachMoves(r: Route, task: Value, v: Value, name: string, s: State, t: State)
    requires SameAnswers(r) && OnRoute(r, s, t)
    ensures Moves(r, s, CallOnEach(r.h, task, v, name, s), t, CallOnEach(r.g, task, v, name, t))
    decreases r.h.maxDepth - s.depth, 0, 3
  {
    if v.List? {
      ManyMoves(r, task, v.items, name, s, t);
    } else {
      TaskMoves(r, task, [v], name, s, t);
    }
  }

  lemma ManyMoves(r: Route, task: Value, items: seq<Value>, name: string, s: State, t: State)
    requires SameAnswers(r) && OnRoute(r, s, t)
    ensures Moves(r, s, CallMany(r.h, task, items, name, s), t, CallMany(r.g, task, items, name, t))
    decreases r.h.maxDepth - s.depth, 0, 2, |items|
  {
    if items == [] {
      MovesAtOnce(r, s, t, Ok(List([])));
    } else {
      ManyInParts(r.h, task, items, name, s);
      ManyInParts(r.g, task, items, name, t);
      TaskMoves(r, task, [items[0]], name, s, t);
      var a, b := CallTask(r.h, task, [items[0]], name, s), CallTask(r.g, task, [items[0]], name, t);
      if a.out.Ok? {
        ManyMoves(r, task, items[1..], name, a.s, b.s);
      }
      MovesInFront(r, s, a, t, b,
                   CallMany(r.h, task, items[1..], name, a.s), CallMany(r.g, task, items[1..], name, b.s));
    }
  }

  // --- Calls ---

  lemma FunctionMoves(r: Route, name: string, args: seq<Value>, s: State, t: State)
    requires SameAnswers(r) && OnRoute(r, s, t)
    ensures Moves(r, s, CallFunction(r.h, name, args, s), t, CallFunction(r.g, name, args, t))
    decreases r.h.maxDepth - s.depth, 0, 2
  {
    if name == "__fail__" {
      assert t.dropped + s.dropped[|s.dropped|..] == t.dropped;
    } else if r.h.builtin(name, args).Some? {
      MovesAtOnce(r, s, t, OutcomeOf(r.h.builtin(name, args).value));
    } else if Get(s.env, name).Some? {
      TaskMoves(r, Get(s.env, name).value, args, name, s, t);
    } else {
      MovesAtOnce(r, s, t, Err(UndefinedTask(name)));
    }
  }

  lemma TaskMoves(r: Route, task: Value, args: seq<Value>, callName: string, s: State, t: State)
    requires SameAnswers(r) && OnRoute(r, s, t)
    ensures Moves(r, s, CallTask(r.h, task, args, callName, s), t, CallTask(r.g, task, args, callName, t))
    decreases r.h.maxDepth - s.depth, 0, 1
  {
    if !task.Task? {
      MovesAtOnce(r, s, t, Err(NotCallable(callName)));
    } else if |task.params| != |args| {
      MovesAtOnce(r, s, t, Err(WrongArity(task.name)));
    } else {
      var m := if task.owner.Some? then task.owner else s.module_;
      SameCoercion(r, m, task.params, args);
      var coerced := CoerceAll(r.h, m, task.params, args);
      if coerced.None? {
        MovesAtOnce(r, s, t, Err(TypeError));
      } else if s.depth >= r.h.maxDepth {
        MovesAtOnce(r, s, t, Err(RecursionLimit));
      } else if task.owner.Some? && s.module_ != task.owner {
        ForkedMoves(r, task, coerced.value, s, t);
      } else {
        LocalMoves(r, task, coerced.value, s, t);
      }
    }
  }

  lemma LocalMoves(r: Route, task: Value, args: seq<Value>, s: State, t: State)
    requires SameAnswers(r) && OnRoute(r, s, t)
    requires s.depth < r.h.maxDepth && task.Task? && |task.params| == |args|
    ensures Moves(r, s, CallLocal(r.h, task, args, s), t, CallLocal(r.g, task, args, t))
    decreases r.h.maxDepth - s.depth, 0, 0
  {
    BodyMoves(r, task.body, CalleeState(task, args, s), CalleeState(task, args, t));
  }

  lemma ForkedMoves(r: Route, task: Value, args: seq<Value>, s: State, t: State)
    requires SameAnswers(r) && OnRoute(r, s, t)
    requires s.depth < r.h.maxDepth && task.Task? && |task.params| == |args|
    ensures Moves(r, s, CallForked(r.h, task, args, s), t, CallForked(r.g, task, args, t))
    decreases r.h.maxDepth - s.depth, 0, 0
  {
    BodyMoves(r, task.body, ForkState(r.h, task, args, s), ForkState(r.g, task, args, t));
  }

  // --- Broadcast ---

  lemma TargetMoves(r: Route, v: Value, e: Expr, s: State, t: State)
    requires SameAnswers(r) && OnRoute(r, s, t)
    ensures Moves(r, s, ApplyTarget(r.h, v, e, s), t, ApplyTarget(r.g, v, e, t))
    decreases r.h.maxDepth - s.depth, 1, e, 2
  {
    if e.Ident? {
      if IsFetch(e.name) {
        MovesAtOnce(r, s, t, Err(TypeError));
      } else if Get(s.env, e.name).Some? && Get(s.env, e.name).value.Task? {
        TaskMoves(r, Get(s.env, e.name).value, [v], e.name, s, t);
      } else {
        EvalMoves(r, e, s, t);
      }
    } else {
      TargetInParts(r.h, v, e, s);
      TargetInParts(r.g, v, e, t);
      if IsFileTask(r.h, s.env, e) {
        TaskMoves(r, FileTask(r.h, s.env, e), [v], e.op.name, s, t);
      } else if e.MethodCall? && BranchTakesInput(e.receiver) {
        InputMoves(r, v, e.receiver.name, e.selector, e.args, s, t);
      } else {
        PlainMoves(r, v, e, s, t);
      }
    }
  }

  lemma JoinMoves(r: Route, s: State, a: Res, t: State, b: Res)
    requires OnRoute(r, s, t) && !s.insideTx && Good(r.h, s, a) && Good(r.g, t, b) && Moves(r, s, a, t, b)
    ensures Moves(r, s, Join(s, a), t, Join(t, b))
  {
  }

  lemma SequenceMoves(r: Route, v: Value, targets: seq<Expr>, s: State, t: State)
    requires SameAnswers(r) && OnRoute(r, s, t) && !s.insideTx
    ensures Moves(r, s, InSequence(r.h, v, targets, s), t, InSequence(r.g, v, targets, t))
    decreases r.h.maxDepth - s.depth, 1, targets, 0
  {
    if targets == [] {
      MovesAtOnce(r, s, t, Ok(List([])));
    } else {
      TargetMoves(r, v, targets[0], s, t);
      SequenceInParts(r.h, v, targets, s);
      SequenceInParts(r.g, v, targets, t);
      JoinMoves(r, s, ApplyTarget(r.h, v, targets[0], s), t, ApplyTarget(r.g, v, targets[0], t));
      var a, b := Join(s, ApplyTarget(r.h, v, targets[0], s)), Join(t, ApplyTarget(r.g, v, targets[0], t));
      if a.out.Ok? {
        SequenceMoves(r, v, targets[1..], a.s, b.s);
      }
      MovesInFront(r, s, a, t, b, InSequence(r.h, v, targets[1..], a.s), InSequence(r.g, v, targets[1..], b.s));
    }
  }

  /** The branches from number `i` on move one by one. */
  predicate BranchesMove(r: Route, s: State, i: nat, rs: seq<Res>, t: State, qs: seq<Res>) {
    && |rs| == |qs|
    && forall k :: 0 <= k < |rs| ==> Moves(r, Fork(s, i + k), rs[k], Fork(t, i + k), qs[k])
  }

  lemma ForkOnRoute(r: Route, s: State, t: State, i: nat)
    requires OnRoute(r, s, t) && !s.insideTx
    ensures OnRoute(r, Fork(s, i), Fork(t, i))
  {
    ForkValid(r.h, s, i);
    ForkValid(r.g, t, i);
    assert Fork(s, i).world.log[|r.from|..] == s.world.log[|r.from|..] + [Forked(i)];
    assert Fork(t, i).world.log[|r.to|..] == t.world.log[|r.to|..] + [Forked(i)];
  }

  lemma RunBranchesMove(r: Route, v: Value, targets: seq<Expr>, i: nat, s: State, t: State)
    requires SameAnswers(r) && OnRoute(r, s, t) && !s.insideTx
    ensures BranchesMove(r, s, i, RunBranches(r.h, v, targets, i, s), t, RunBranches(r.g, v, targets, i, t))
    decreases r.h.maxDepth - s.depth, 1, targets, 0
  {
    if targets != [] {
      ForkOnRoute(r, s, t, i);
      TargetMoves(r, v, targets[0], Fork(s, i), Fork(t, i));
      RunBranchesMove(r, v, targets[1..], i + 1, s, t);
      OneMoreMoves(r, s, i, RunBranches(r.h, v, targets, i, s), t, RunBranches(r.g, v, targets, i, t));
    }
  }

  lemma OneMoreMoves(r: Route, s: State, i: nat, rs: seq<Res>, t: State, qs: seq<Res>)
    requires |rs| > 0 && |qs| > 0
    requires Moves(r, Fork(s, i), rs[0], Fork(t, i), qs[0]) && BranchesMove(r, s, i + 1, rs[1..], t, qs[1..])
    ensures BranchesMove(r, s, i, rs, t, qs)
  {
    forall k | 0 <= k < |rs| ensures Moves(r, Fork(s, i + k), rs[k], Fork(t, i + k), qs[k]) {
      if k > 0 {
        assert rs[k] == rs[1..][k - 1] && qs[k] == qs[1..][k - 1] && i + k == i + 1 + (k - 1);
      }
    }
  }

  lemma ParallelMoves(r: Route, v: Value, targets: seq<Expr>, s: State, t: State)
    requires SameAnswers(r) && OnRoute(r, s, t) && !s.insideTx
    ensures Moves(r, s, InParallel(r.h, v, targets, s), t, InParallel(r.g, v, targets, t))
    decreases r.h.maxDepth - s.depth, 1, targets, 1
  {
    RunBranchesMove(r, v, targets, 0, s, t);
    var rs, qs := RunBranches(r.h, v, targets, 0, s), RunBranches(r.g, v, targets, 0, t);
    Joins(r.h, s, rs);
    Joins(r.g, t, qs);
    GatherMoves(r, s, rs, t, qs);
  }

  /** Branches that move did the same themselves. */
  lemma SameOwn(r: Route, s: State, rs: seq<Res>, t: State, qs: seq<Res>)
    requires BranchesMove(r, s, 0, rs, t, qs)
    ensures OwnAll(|s.world.log|, rs) == OwnAll(|t.world.log|, qs) && Outs(rs) == Outs(qs)
    ensures forall k :: 0 <= k < |rs| ==> AllReal(OwnAll(|s.world.log|, rs)[k].events)
    ensures Lost(rs, false) == Lost(qs, false)
  {
    forall k | 0 <= k < |rs|
      ensures Own(|s.world.log|, rs[k]) == Own(|t.world.log|, qs[k])
      ensures AllReal(Own(|s.world.log|, rs[k]).events)
      ensures rs[k].out == qs[k].out && rs[k].s.dropped == qs[k].s.dropped
    {
      assert Moves(r, Fork(s, 0 + k), rs[k], Fork(t, 0 + k), qs[k]);
      OwnMoves(r, s, 0 + k, rs[k], t, qs[k]);
    }
    LostAlike(rs, qs, false);
  }

  lemma OwnMoves(r: Route, s: State, i: nat, a: Res, t: State, b: Res)
    requires Moves(r, Fork(s, i), a, Fork(t, i), b)
    ensures Own(|s.world.log|, a) == Own(|t.world.log|, b) && AllReal(Own(|s.world.log|, a).events)
    ensures a.out == b.out && a.s.dropped == b.s.dropped
  {
    assert Own(|s.world.log|, a).events == Deeds(Fork(s, i), a);
    assert Own(|t.world.log|, b).events == Deeds(Fork(t, i), b);
  }

  lemma {:induction false} LostAlike(rs: seq<Res>, qs: seq<Res>, chosen: bool)
    requires |rs| == |qs|
    requires forall k :: 0 <= k < |rs| ==> rs[k].out == qs[k].out && rs[k].s.dropped == qs[k].s.dropped
    ensures Lost(rs, chosen) == Lost(qs, chosen)
    decreases |rs|
  {
    if rs != [] {
      LostAlike(rs[1..], qs[1..], chosen || rs[0].out.Err?);
    }
  }

  lemma GatherMoves(r: Route, s: State, rs: seq<Res>, t: State, qs: seq<Res>)
    requires SameAnswers(r) && OnRoute(r, s, t) && !s.insideTx && BranchesMove(r, s, 0, rs, t, qs)
    requires Valid(r.h, Gather(r.h, s, rs).s) && Valid(r.g, Gather(r.g, t, qs).s)
    ensures Moves(r, s, Gather(r.h, s, rs), t, Gather(r.g, t, qs))
  {
    SameOwn(r, s, rs, t, qs);
    var bs, out := OwnAll(|s.world.log|, rs), Collect(Outs(rs));
    var a, b := Res(out, s.(world := After(r.h, bs, s.world))), Res(out, t.(world := After(r.g, bs, t.world)));
    AfterMoves(r, bs, out, s, t);
    ReportMoves(r, a, b, Lost(rs, false));
    MovesThen(r, s, a, t, b, Gather(r.h, s, rs), Gather(r.g, t, qs));
  }

  lemma AfterMoves(r: Route, bs: seq<Branch>, out: Outcome, s: State, t: State)
    requires SameAnswers(r) && OnRoute(r, s, t) && forall k :: 0 <= k < |bs| ==> AllReal(bs[k].events)
    requires Valid(r.h, s.(world := After(r.h, bs, s.world))) && Valid(r.g, t.(world := After(r.g, bs, t.world)))
    ensures Moves(r, s, Res(out, s.(world := After(r.h, bs, s.world))),
                  t, Res(out, t.(world := After(r.g, bs, t.world))))
  {
    if AllSilent(bs) {
      MovesAtOnce(r, s, t, out);
    } else {
      var x := Behind(r, s, t);
      MovesByOne(r, s, Res(out, s.(world := After(r.h, bs, s.world))), t, Res(out, t.(world := After(r.g, bs, t.world))),
                 Joined(bs, r.h.schedule(s.world.log, bs)));
    }
  }

  /** What the parent records about responses. */
  function Reported(a: Res, lost: seq<Response>): Res {
    Res(a.out, a.s.(replies := if IsHttp(a.out) then a.s.replies + [a.out.error.response] else a.s.replies,
                    dropped := a.s.dropped + lost))
  }

  lemma ReportMoves(r: Route, a: Res, b: Res, lost: seq<Response>)
    requires OnRoute(r, a.s, b.s) && b.out == a.out
    ensures Moves(r, a.s, Reported(a, lost), b.s, Reported(b, lost))
  {
    assert (a.s.dropped + lost)[|a.s.dropped|..] == lost;
  }

  // --- Statements ---

  lemma BlockMoves(r: Route, stmts: seq<Stmt>, s: State, t: State)
    requires SameAnswers(r) && OnRoute(r, s, t)
    ensures Moves(r, s, ExecBlock(r.h, stmts, s), t, ExecBlock(r.g, stmts, t))
    decreases r.h.maxDepth - s.depth, 1, stmts, 0
  {
    if stmts == [] {
      MovesAtOnce(r, s, t, Ok(Null));
    } else {
      StmtMoves(r, stmts[0], s, t);
      var a, b := Exec(r.h, stmts[0], s), Exec(r.g, stmts[0], t);
      if a.out.Ok? && |stmts| > 1 {
        BlockMoves(r, stmts[1..], a.s, b.s);
        MovesThen(r, s, a, t, b, ExecBlock(r.h, stmts, s), ExecBlock(r.g, stmts, t));
      }
    }
  }

  lemma StmtMoves(r: Route, stmt: Stmt, s: State, t: State)
    requires SameAnswers(r) && OnRoute(r, s, t)
    ensures Moves(r, s, Exec(r.h, stmt, s), t, Exec(r.g, stmt, t))
    decreases r.h.maxDepth - s.depth, 1, stmt, 2
  {
    if stmt.While? || stmt.ExprStmt? || stmt.Export? || stmt.Transaction? {
      NestedMoves(r, stmt, s, t);
    } else if stmt.Reply? || stmt.Fail? || stmt.Raise? || stmt.Nack? {
      EndingMoves(r, stmt, s, t);
    } else {
      PlainStmtMoves(r, stmt, s, t);
    }
  }

  /** Statements made of others, and expressions. */
  lemma NestedMoves(r: Route, stmt: Stmt, s: State, t: State)
    requires SameAnswers(r) && OnRoute(r, s, t)
    requires stmt.While? || stmt.ExprStmt? || stmt.Export? || stmt.Transaction?
    ensures Moves(r, s, Exec(r.h, stmt, s), t, Exec(r.g, stmt, t))
    decreases r.h.maxDepth - s.depth, 1, stmt, 2, 0
  {
    StmtInParts(r.h, stmt, s);
    StmtInParts(r.g, stmt, t);
    match stmt
    case While(_, _) => WhileMoves(r, stmt, 0, s, t);
    case ExprStmt(e) => EvalMoves(r, e, s, t);
    case Export(inner) => StmtMoves(r, inner, s, t);
    case Transaction(body) => TransactionMoves(r, body, s, t);
  }

  lemma PlainStmtMoves(r: Route, stmt: Stmt, s: State, t: State)
    requires SameAnswers(r) && OnRoute(r, s, t)
    requires stmt.Assign? || stmt.CondAssign? || stmt.Require? || stmt.Reject? || stmt.TaskDef? || stmt.Declaration?
    ensures Moves(r, s, Exec(r.h, stmt, s), t, Exec(r.g, stmt, t))
    decreases r.h.maxDepth - s.depth, 1, stmt, 2, 0
  {
    StmtInParts(r.h, stmt, s);
    StmtInParts(r.g, stmt, t);
    match stmt
    case Assign(_, _) => AssignMoves(r, stmt, s, t);
    case CondAssign(_, _, _) => CondAssignMoves(r, stmt, s, t);
    case Require(_, _) => GuardMoves(r, stmt, s, t);
    case Reject(_, _) => GuardMoves(r, stmt, s, t);
    case TaskDef(_, _, _) => StillMoves(r, stmt, s, t);
    case Declaration => StillMoves(r, stmt, s, t);
  }

  lemma StillMoves(r: Route, stmt: Stmt, s: State, t: State)
    requires SameAnswers(r) && OnRoute(r, s, t) && (stmt.TaskDef? || stmt.Declaration?)
    ensures Moves(r, s, Exec(r.h, stmt, s), t, Exec(r.g, stmt, t))
    decreases r.h.maxDepth - s.depth, 1, stmt, 1
  {
    MovesAtOnce(r, s, t, Ok(Null));
  }

  /** Statements that end the block they are in. */
  lemma EndingMoves(r: Route, stmt: Stmt, s: State, t: State)
    requires SameAnswers(r) && OnRoute(r, s, t) && (stmt.Reply? || stmt.Fail? || stmt.Raise? || stmt.Nack?)
    ensures Moves(r, s, Exec(r.h, stmt, s), t, Exec(r.g, stmt, t))
    decreases r.h.maxDepth - s.depth, 1, stmt, 2, 0
  {
    EndingInParts(r.h, stmt, s);
    EndingInParts(r.g, stmt, t);
    match stmt
    case Reply(_, _, _) => ReplyMoves(r, stmt, s, t);
    case Fail(_, _) => FailMoves(r, stmt, s, t);
    case Raise(_, _) => SignalMoves(r, stmt, s, t);
    case Nack(_, _) => SignalMoves(r, stmt, s, t);
  }

  lemma AssignMoves(r: Route, stmt: Stmt, s: State, t: State)
    requires SameAnswers(r) && OnRoute(r, s, t) && stmt.Assign?
    ensures Moves(r, s, Exec(r.h, stmt, s), t, Exec(r.g, stmt, t))
    decreases r.h.maxDepth - s.depth, 1, stmt, 1
  {
    EvalMoves(r, stmt.value, s, t);
  }

  lemma GuardMoves(r: Route, stmt: Stmt, s: State, t: State)
    requires SameAnswers(r) && OnRoute(r, s, t) && (stmt.Require? || stmt.Reject?)
    ensures Moves(r, s, Exec(r.h, stmt, s), t, Exec(r.g, stmt, t))
    decreases r.h.maxDepth - s.depth, 1, stmt, 1
  {
    GuardInParts(r.h, stmt, s);
    GuardInParts(r.g, stmt, t);
    EvalMoves(r, stmt.guard, s, t);
  }

  lemma FailMoves(r: Route, stmt: Stmt, s: State, t: State)
    requires SameAnswers(r) && OnRoute(r, s, t) && stmt.Fail?
    ensures Moves(r, s, Exec(r.h, stmt, s), t, Exec(r.g, stmt, t))
    decreases r.h.maxDepth - s.depth, 1, stmt, 1
  {
    EvalMoves(r, stmt.message, s, t);
  }

  lemma CondAssignMoves(r: Route, stmt: Stmt, s: State, t: State)
    requires SameAnswers(r) && OnRoute(r, s, t) && stmt.CondAssign?
    ensures Moves(r, s, ExecCondAssign(r.h, stmt, s), t, ExecCondAssign(r.g, stmt, t))
    decreases r.h.maxDepth - s.depth, 1, stmt, 1
  {
    CondAssignInParts(r.h, stmt, s);
    CondAssignInParts(r.g, stmt, t);
    EvalMoves(r, stmt.guard, s, t);
    var a, b := Eval(r.h, stmt.guard, s), Eval(r.g, stmt.guard, t);
    if a.out.Ok? {
      ThenAssignMoves(r, stmt, Truthy(a.out.value), a.s, b.s);
      MovesThen(r, s, a, t, b, ExecCondAssign(r.h, stmt, s), ExecCondAssign(r.g, stmt, t));
    }
  }

  lemma ThenAssignMoves(r: Route, stmt: Stmt, holds: bool, s: State, t: State)
    requires SameAnswers(r) && OnRoute(r, s, t) && stmt.CondAssign?
    ensures Moves(r, s, ThenAssign(r.h, stmt, holds, s), t, ThenAssign(r.g, stmt, holds, t))
    decreases r.h.maxDepth - s.depth, 1, stmt, 0
  {
    if holds {
      EvalMoves(r, stmt.value, s, t);
    } else {
      MovesAtOnce(r, s, t, Ok(Null));
    }
  }

  lemma SignalMoves(r: Route, stmt: Stmt, s: State, t: State)
    requires SameAnswers(r) && OnRoute(r, s, t) && (stmt.Raise? || stmt.Nack?)
    ensures Moves(r, s, ExecSignal(r.h, stmt, s), t, ExecSignal(r.g, stmt, t))
    decreases r.h.maxDepth - s.depth, 1, stmt, 1
  {
    SignalInParts(r.h, stmt, s);
    SignalInParts(r.g, stmt, t);
    if stmt.condition.None? {
      SignalOnMoves(r, stmt, Res(Ok(Bool(true)), s), Res(Ok(Bool(true)), t));
    } else {
      EvalMoves(r, stmt.condition.value, s, t);
      var a, b := Eval(r.h, stmt.condition.value, s), Eval(r.g, stmt.condition.value, t);
      if a.out.Ok? {
        SignalOnMoves(r, stmt, a, b);
        MovesThen(r, s, a, t, b, ExecSignal(r.h, stmt, s), ExecSignal(r.g, stmt, t));
      }
    }
  }

  lemma SignalOnMoves(r: Route, stmt: Stmt, a: Res, b: Res)
    requires SameAnswers(r) && OnRoute(r, a.s, b.s) && (stmt.Raise? || stmt.Nack?) && a.out.Ok? && b.out == a.out
    ensures Moves(r, a.s, SignalOn(r.h, stmt, a), b.s, SignalOn(r.g, stmt, b))
    decreases r.h.maxDepth - a.s.depth, 1, stmt, 0
  {
    if !Truthy(a.out.value) {
      MovesAtOnce(r, a.s, b.s, Ok(Null));
    } else if stmt.Nack? {
      MovesAtOnce(r, a.s, b.s, Err(NackSignal(stmt.requeue)));
    } else {
      EvalMoves(r, stmt.message, a.s, b.s);
    }
  }

  lemma ReplyMoves(r: Route, stmt: Stmt, s: State, t: State)
    requires SameAnswers(r) && OnRoute(r, s, t) && stmt.Reply?
    ensures Moves(r, s, ExecReply(r.h, stmt, s), t, ExecReply(r.g, stmt, t))
    decreases r.h.maxDepth - s.depth, 1, stmt, 1
  {
    ReplyInParts(r.h, stmt, s);
    ReplyInParts(r.g, stmt, t);
    EvalMoves(r, stmt.status, s, t);
    var a, b := Eval(r.h, stmt.status, s), Eval(r.g, stmt.status, t);
    if a.out.Ok? {
      AnsweredMoves(r, stmt, a.out.value, a.s, b.s);
      MovesThen(r, s, a, t, b, ExecReply(r.h, stmt, s), ExecReply(r.g, stmt, t));
    }
  }

  lemma AnsweredMoves(r: Route, stmt: Stmt, status: Value, s: State, t: State)
    requires SameAnswers(r) && OnRoute(r, s, t) && stmt.Reply?
    ensures Moves(r, s, Answered(r.h, stmt, status, s), t, Answered(r.g, stmt, status, t))
    decreases r.h.maxDepth - s.depth, 1, stmt, 0, 0
  {
    if status.Int? {
      ContentMoves(r, stmt, status.n, s, t);
    } else {
      MovesAtOnce(r, s, t, Err(TypeError));
    }
  }

  lemma ContentMoves(r: Route, stmt: Stmt, status: int, s: State, t: State)
    requires SameAnswers(r) && OnRoute(r, s, t) && stmt.Reply?
    ensures Moves(r, s, Content(r.h, stmt, status, s), t, Content(r.g, stmt, status, t))
    decreases r.h.maxDepth - s.depth, 1, stmt, 0, 0, 0
  {
    EvalMoves(r, stmt.content, s, t);
    var a, b := Eval(r.h, stmt.content, s), Eval(r.g, stmt.content, t);
    if a.out.Ok? {
      HeadersMove(r, stmt, status, a.out.value, a.s, b.s);
      MovesThen(r, s, a, t, b, Content(r.h, stmt, status, s), Content(r.g, stmt, status, t));
    }
  }

  lemma HeadersMove(r: Route, stmt: Stmt, status: int, content: Value, s: State, t: State)
    requires SameAnswers(r) && OnRoute(r, s, t) && stmt.Reply?
    ensures Moves(r, s, Headers(r.h, stmt, status, content, s), t, Headers(r.g, stmt, status, content, t))
    decreases r.h.maxDepth - s.depth, 1, stmt.headers, 0
  {
    if stmt.headers.None? {
      assert t.dropped + s.dropped[|s.dropped|..] == t.dropped;
    } else {
      EvalMoves(r, stmt.headers.value, s, t);
    }
  }

  lemma {:induction false} WhileMoves(r: Route, w: Stmt, iterations: nat, s: State, t: State)
    requires SameAnswers(r) && OnRoute(r, s, t) && w.While? && iterations <= MAX_ITERATIONS
    ensures Moves(r, s, ExecWhile(r.h, w, iterations, s), t, ExecWhile(r.g, w, iterations, t))
    decreases r.h.maxDepth - s.depth, 1, w, 1, MAX_ITERATIONS - iterations
  {
    WhileInParts(r.h, w, iterations, s);
    WhileInParts(r.g, w, iterations, t);
    EvalMoves(r, w.guard, s, t);
    var a, b := Eval(r.h, w.guard, s), Eval(r.g, w.guard, t);
    if a.out.Ok? {
      LoopingMoves(r, w, iterations, Truthy(a.out.value), a.s, b.s);
      MovesThen(r, s, a, t, b, ExecWhile(r.h, w, iterations, s), ExecWhile(r.g, w, iterations, t));
    }
  }

  lemma LoopingMoves(r: Route, w: Stmt, iterations: nat, holds: bool, s: State, t: State)
    requires SameAnswers(r) && OnRoute(r, s, t) && w.While? && iterations <= MAX_ITERATIONS
    ensures Moves(r, s, Looping(r.h, w, iterations, holds, s), t, Looping(r.g, w, iterations, holds, t))
    decreases r.h.maxDepth - s.depth, 1, w, 1, MAX_ITERATIONS - iterations, 2
  {
    if !holds {
      MovesAtOnce(r, s, t, Ok(Null));
    } else if iterations == MAX_ITERATIONS {
      MovesAtOnce(r, s, t, Err(LoopLimit));
    } else {
      RoundMoves(r, w, iterations, s, t);
    }
  }

  lemma RoundMoves(r: Route, w: Stmt, iterations: nat, s: State, t: State)
    requires SameAnswers(r) && OnRoute(r, s, t) && w.While? && iterations < MAX_ITERATIONS
    ensures Moves(r, s, Round(r.h, w, iterations, s), t, Round(r.g, w, iterations, t))
    decreases r.h.maxDepth - s.depth, 1, w, 1, MAX_ITERATIONS - iterations, 1
  {
    BlockMoves(r, w.body, s, t);
    var a, b := ExecBlock(r.h, w.body, s), ExecBlock(r.g, w.body, t);
    RoundInParts(r.h, w, iterations, s);
    RoundInParts(r.g, w, iterations, t);
    if a.out.Ok? {
      NextRoundMoves(r, w, iterations, s, a, t, b);
    }
  }

  lemma NextRoundMoves(r: Route, w: Stmt, iterations: nat, s: State, a: Res, t: State, b: Res)
    requires SameAnswers(r) && OnRoute(r, s, t) && w.While? && iterations < MAX_ITERATIONS
    requires Moves(r, s, a, t, b) && a.s.depth == s.depth
    ensures Moves(r, s, ExecWhile(r.h, w, iterations + 1, a.s), t, ExecWhile(r.g, w, iterations + 1, b.s))
    decreases r.h.maxDepth - s.depth, 1, w, 1, MAX_ITERATIONS - iterations, 0
  {
    WhileMoves(r, w, iterations + 1, a.s, b.s);
    MovesThen(r, s, a, t, b, ExecWhile(r.h, w, iterations + 1, a.s), ExecWhile(r.g, w, iterations + 1, b.s));
  }

  lemma TransactionMoves(r: Route, body: seq<Stmt>, s: State, t: State)
    requires SameAnswers(r) && OnRoute(r, s, t)
    ensures Moves(r, s, ExecTransaction(r.h, body, s), t, ExecTransaction(r.g, body, t))
    decreases r.h.maxDepth - s.depth, 1, body, 1
  {
    if s.insideTx || !r.h.hasDb {
      MovesAtOnce(r, s, t, Err(TypeError));
    } else {
      BeginMoves(r, s, t);
      var a, b := Begin(r.h, s), Begin(r.g, t);
      if a.out.Ok? {
        BlockMoves(r, body, a.s, b.s);
        EndMoves(r, a.s, ExecBlock(r.h, body, a.s), b.s, ExecBlock(r.g, body, b.s));
        MovesThen(r, s, a, t, b, ExecTransaction(r.h, body, s), ExecTransaction(r.g, body, t));
      }
    }
  }

  lemma BeginMoves(r: Route, s: State, t: State)
    requires SameAnswers(r) && OnRoute(r, s, t) && !s.insideTx
    ensures Moves(r, s, Begin(r.h, s), t, Begin(r.g, t))
  {
    var x := Behind(r, s, t);
    MovesByOne(r, s, Begin(r.h, s), t, Begin(r.g, t), if r.h.beginSucceeds(s.world.log) then Began else BeginFailed);
  }

  /** The end of a transaction whose body has come to `a`. */
  function End(h: Host, a: Res): Res
    requires Valid(h, a.s) && a.s.insideTx
  {
    if a.out.Err? then Res(a.out, Rollback(h, a.s)) else Commit(h, a.s)
  }

  lemma EndMoves(r: Route, s: State, a: Res, t: State, b: Res)
    requires SameAnswers(r) && Moves(r, s, a, t, b) && a.s.insideTx
    ensures Moves(r, s, End(r.h, a), t, End(r.g, b))
  {
    var x := Behind(r, a.s, b.s);
    var e := if a.out.Err? then RolledBack else if r.h.commitSucceeds(a.s.world.log) then Committed else CommitFailed;
    MovesByOne(r, a.s, End(r.h, a), b.s, End(r.g, b), e);
    MovesThen(r, s, a, t, b, End(r.h, a), End(r.g, b));
  }
}
