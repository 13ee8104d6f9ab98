/**
 * Pipelines (src/interpreter.rs, src/interpreter/pipeline.rs): chains regroup, and a stage is
 * a call with its input in front.
 */
module PipelineLaws {
  import opened Environment
  import opened Options
  import opened Ast
  import opened Semantics
  import opened Parts
  import opened Laws
  import Runs

  // --- Regrouping ---

  lemma {:induction false} StagesInTwo(h: Host, v: Value, a: seq<Stage>, b: seq<Stage>, s: State)
    requires Valid(h, s)
    ensures var first := RunStages(h, v, a, s);
            RunStages(h, v, a + b, s) == if first.out.Err? then first else RunStages(h, first.out.value, b, first.s)
    decreases |a|
  {
    if a == [] {
      assert a + b == b;
    } else {
      assert (a + b)[0] == a[0] && (a + b)[1..] == a[1..] + b;
      if a[0].ExprStage? {
        var r := RunStage(h, v, a[0], s);
        if r.out.Ok? {
          StagesInTwo(h, r.out.value, a[1..], b, r.s);
        }
      } else {
        StagesInTwo(h, v, a[1..], b, s);
      }
    }
  }

  lemma {:induction false} RailwayInTwo(h: Host, current: Res, a: seq<Stage>, b: seq<Stage>, entry: State)
    requires Valid(h, entry) && Good(h, entry, current)
    ensures Railway(h, current, a + b, entry) == Railway(h, Railway(h, current, a, entry), b, entry)
    decreases |a|
  {
    if a == [] {
      assert a + b == b;
    } else if IsHttp(current.out) {
      Runs.ResponseSkips(h, current, a + b, entry);
      Runs.ResponseSkips(h, current, a, entry);
      Runs.ResponseSkips(h, current, b, entry);
    } else {
      assert (a + b)[0] == a[0] && (a + b)[1..] == a[1..] + b;
      RailwayInTwo(h, Travel(h, current, a[0], entry), a[1..], b, entry);
    }
  }

  /** Without a rescue the railway is the plain chain. */
  lemma {:induction false} RailwayPlain(h: Host, current: Res, stages: seq<Stage>, entry: State)
    requires Valid(h, entry) && Good(h, entry, current) && !HasRescue(stages)
    ensures Railway(h, current, stages, entry) ==
            if current.out.Err? then current else RunStages(h, current.out.value, stages, current.s)
    decreases |stages|
  {
    if stages != [] {
      assert stages[0].ExprStage?;
      forall i | 0 <= i < |stages| - 1 ensures stages[1..][i].ExprStage? {
        assert stages[i + 1].ExprStage?;
      }
      RailwayPlain(h, Travel(h, current, stages[0], entry), stages[1..], entry);
    }
  }

  /** Every pipeline is the railway over its stages, whether it has a rescue or not. */
  lemma PipelineIsRailway(h: Host, input: Expr, stages: seq<Stage>, s: State)
    requires Valid(h, s)
    ensures Eval(h, Pipeline(input, stages), s) == Railway(h, Eval(h, input, s), stages, s)
  {
    FlowInParts(h, Pipeline(input, stages), s);
    if !HasRescue(stages) {
      RailwayPlain(h, Eval(h, input, s), stages, s);
    }
  }

  /** `(x >> f) >> g` is `x >> f >> g`, for any stages, rescues included. */
  lemma PipelineAssociates(h: Host, input: Expr, a: seq<Stage>, b: seq<Stage>, s: State)
    requires Valid(h, s)
    ensures Eval(h, Pipeline(Pipeline(input, a), b), s) == Eval(h, Pipeline(input, a + b), s)
  {
    PipelineIsRailway(h, input, a, s);
    PipelineIsRailway(h, Pipeline(input, a), b, s);
    PipelineIsRailway(h, input, a + b, s);
    RailwayInTwo(h, Eval(h, input, s), a, b, s);
  }

  // --- Rescue stages ---

  /** A rescue at the end of a pipeline is a rescue of the whole pipeline. */
  lemma RescueStage(h: Host, input: Expr, handler: Expr, s: State)
    requires Valid(h, s)
    ensures Eval(h, Pipeline(input, [RescueInline(handler)]), s) == Eval(h, Rescue(input, handler), s)
  {
    var a := Eval(h, input, s);
    OneStage(h, input, RescueInline(handler), s);
    RescueTaken(h, input, handler, s);
    if a.out.Err? && !IsHttp(a.out) {
      Handled(h, a, RescueInline(handler), s);
    }
  }

  lemma Handled(h: Host, a: Res, stage: Stage, s: State)
    requires Valid(h, s) && Good(h, s, a) && a.out.Err? && !IsHttp(a.out) && !stage.ExprStage?
    ensures Valid(h, Rescued(h, a.s, a.out.error, |s.frames|))
    ensures Travel(h, a, stage, s) == Left(RunHandler(h, stage, Rescued(h, a.s, a.out.error, |s.frames|)))
  {
    RescuedGood(h, s, a, a);
  }

  /** A handler of several statements runs them as a block, in the state of an inline handler. */
  lemma RescueBlockStage(h: Host, input: Expr, stmts: seq<Stmt>, s: State)
    requires Valid(h, s)
    ensures var a, r := Eval(h, input, s), Eval(h, Pipeline(input, [RescueBlock(stmts)]), s);
            if a.out.Ok? || IsHttp(a.out) then r == a
            else
              |s.frames| <= |a.s.frames| &&
              var t := Rescued(h, a.s, a.out.error, |s.frames|);
              Valid(h, t) && r == Left(ExecBlock(h, stmts, t))
  {
    OneStage(h, input, RescueBlock(stmts), s);
    var a := Eval(h, input, s);
    if a.out.Err? && !IsHttp(a.out) {
      Handled(h, a, RescueBlock(stmts), s);
    }
  }

  /** One stage: a response passes; a value takes an ordinary stage, any other error a rescue. */
  lemma OneStage(h: Host, input: Expr, stage: Stage, s: State)
    requires Valid(h, s)
    ensures var current, r := Eval(h, input, s), Eval(h, Pipeline(input, [stage]), s);
            if IsHttp(current.out) then r == current else r == Travel(h, current, stage, s)
  {
    var current := Eval(h, input, s);
    PipelineIsRailway(h, input, [stage], s);
    assert [stage][1..] == [];
    if !IsHttp(current.out) {
      assert Railway(h, Travel(h, current, stage, s), [], s) == Travel(h, current, stage, s);
    } else {
      Runs.ResponseSkips(h, current, [stage], s);
    }
  }

  // --- Stages as calls ---

  lemma ExprStageTaken(h: Host, input: Expr, e: Expr, s: State)
    requires Valid(h, s)
    ensures var v := Eval(h, input, s);
            Eval(h, Pipeline(input, [ExprStage(e)]), s) ==
            if v.out.Err? then v else ApplyStage(h, v.out.value, e, v.s)
  {
    OneStage(h, input, ExprStage(e), s);
  }

  /** `x >> f(args)` is `f(x, args)`. */
  lemma StageIsCall(h: Host, input: Expr, name: string, args: seq<Expr>, s: State)
    requires Valid(h, s)
    ensures Eval(h, Pipeline(input, [ExprStage(Call(name, args))]), s) == Eval(h, Call(name, [input] + args), s)
  {
    var v := Eval(h, input, s);
    ExprStageTaken(h, input, Call(name, args), s);
    OperationInParts(h, Call(name, [input] + args), s);
    assert ([input] + args)[1..] == args;
    AllInParts(h, [input] + args, s);
  }

  /** `x >> f` for a task `f` and a value that is no list is a call of `f` with that value. */
  lemma TaskStageCalls(h: Host, input: Expr, name: string, s: State)
    requires Valid(h, s) && !IsFetch(name) && Eval(h, input, s).out.Ok? && !Eval(h, input, s).out.value.List?
    requires IsTaskIn(Eval(h, input, s).s.env, name)
    ensures var v := Eval(h, input, s);
            Eval(h, Pipeline(input, [ExprStage(Ident(name))]), s)
            == CallTask(h, Get(v.s.env, name).value, [v.out.value], name, v.s)
  {
    var v := Eval(h, input, s);
    ExprStageTaken(h, input, Ident(name), s);
    TaskStageTaken(h, v.out.value, name, v.s);
  }

  predicate IsTaskIn(env: Env<Value>, name: string) {
    Get(env, name).Some? && Get(env, name).value.Task?
  }

  lemma TaskStageTaken(h: Host, v: Value, name: string, s: State)
    requires Valid(h, s) && !IsFetch(name) && IsTaskIn(s.env, name)
    ensures var task := Get(s.env, name).value;
            ApplyStage(h, v, Ident(name), s) ==
            if v.List? then CallMany(h, task, v.items, name, s) else CallTask(h, task, [v], name, s)
  {
  }

  /** Over a list a task is called for one item after the other: the first part, then the second. */
  lemma {:induction false} ManyInTwo(h: Host, task: Value, a: seq<Value>, b: seq<Value>, name: string, s: State)
    requires Valid(h, s)
    ensures var first := CallMany(h, task, a, name, s);
            CallMany(h, task, a + b, name, s) == Both(first, CallMany(h, task, b, name, first.s))
    decreases |a|
  {
    var first := CallMany(h, task, a, name, s);
    if a == [] {
      assert a + b == b && first == Res(Ok(List([])), s);
      NothingInFront(s, CallMany(h, task, b, name, s));
    } else {
      assert (a + b)[0] == a[0] && (a + b)[1..] == a[1..] + b;
      var head := CallTask(h, task, [a[0]], name, s);
      ManyInParts(h, task, a, name, s);
      ManyInParts(h, task, a + b, name, s);
      if head.out.Ok? {
        ManyInTwo(h, task, a[1..], b, name, head.s);
        HeadInFront(head, CallMany(h, task, a[1..], name, head.s), CallMany(h, task, b, name, first.s));
      }
    }
  }

  /** `xs >> f` has, at each index, what `f` makes of the item there, called behind the items before it. */
  lemma TaskStageMaps(h: Host, input: Expr, name: string, k: nat, s: State)
    requires Valid(h, s) && !IsFetch(name)
    requires Eval(h, input, s).out.Ok? && Eval(h, input, s).out.value.List? && k < |Eval(h, input, s).out.value.items|
    requires IsTaskIn(Eval(h, input, s).s.env, name)
    ensures var v, r := Eval(h, input, s), Eval(h, Pipeline(input, [ExprStage(Ident(name))]), s);
            var xs, task := v.out.value.items, Get(v.s.env, name).value;
            var before := CallMany(h, task, xs[..k], name, v.s);
            && (r.out.Ok? ==> r.out.value.List? && |r.out.value.items| == |xs| && before.out.Ok?
                              && CallTask(h, task, [xs[k]], name, before.s).out == Ok(r.out.value.items[k]))
            && (before.out.Err? ==> r == before)
  {
    var v := Eval(h, input, s);
    var xs, task := v.out.value.items, Get(v.s.env, name).value;
    ExprStageTaken(h, input, Ident(name), s);
    TaskStageTaken(h, v.out.value, name, v.s);
    ManyItem(h, task, xs, k, name, v.s);
  }

  lemma ManyItem(h: Host, task: Value, xs: seq<Value>, k: nat, name: string, s: State)
    requires Valid(h, s) && k < |xs|
    ensures var r, before := CallMany(h, task, xs, name, s), CallMany(h, task, xs[..k], name, s);
            && (r.out.Ok? ==> before.out.Ok?
                              && CallTask(h, task, [xs[k]], name, before.s).out == Ok(r.out.value.items[k]))
            && (before.out.Err? ==> r == before)
  {
    assert xs == xs[..k] + xs[k..];
    var before := CallMany(h, task, xs[..k], name, s);
    ManyInTwo(h, task, xs[..k], xs[k..], name, s);
    ManyInParts(h, task, xs[k..], name, before.s);
  }

  lemma MethodStageTaken(h: Host, input: Expr, recv: Expr, sel: string, args: seq<Expr>, s: State)
    requires Valid(h, s)
    ensures var v, e := Eval(h, input, s), MethodCall(recv, sel, args);
            Eval(h, Pipeline(input, [ExprStage(e)]), s) ==
            if v.out.Err? then v
            else if StageTakesInput(recv, sel) then WithInput(h, v.out.value, recv.name, sel, args, v.s)
            else Plain(h, v.out.value, e, v.s)
  {
    var v, e := Eval(h, input, s), MethodCall(recv, sel, args);
    ExprStageTaken(h, input, e, s);
    if v.out.Ok? {
      StageInParts(h, v.out.value, e, v.s);
    }
  }

  lemma InputPlaced(h: Host, v: Value, ns: string, sel: string, args: seq<Expr>, s: State)
    requires Valid(h, s) && ns != "cache"
    ensures var a, r := Eval(h, ListLit(args), s), WithInput(h, v, ns, sel, args, s);
            if a.out.Err? then r == a
            else r == Invoke(h, Namespace(ns), sel, Placed(ns, v, Values(a)), a.s)
  {
    LogicInParts(h, ListLit(args), s);
  }

  /** The input in front of the arguments; the body of a request of `http_client` goes behind them. */
  function Placed(ns: string, v: Value, args: seq<Value>): seq<Value> {
    if ns == "http_client" then args + [v] else [v] + args
  }

  /** A namespace stage gets its input in front of its arguments, `http_client` behind them. */
  lemma NamespaceStage(h: Host, input: Expr, ns: string, sel: string, args: seq<Expr>, s: State)
    requires Valid(h, s) && ns in {"fs", "json", "base64", "log", "math", "http_client"}
    ensures var v, r := Eval(h, input, s), Eval(h, Pipeline(input, [ExprStage(MethodCall(Ident(ns), sel, args))]), s);
            if v.out.Err? then r == v
            else
              var a := Eval(h, ListLit(args), v.s);
              if a.out.Err? then r == a
              else r == Invoke(h, Namespace(ns), sel, Placed(ns, v.out.value, Values(a)), a.s)
  {
    var v := Eval(h, input, s);
    MethodStageTaken(h, input, Ident(ns), sel, args, s);
    if v.out.Ok? {
      InputPlaced(h, v.out.value, ns, sel, args, v.s);
    }
  }

  /** `x >> cache.set(key)` stores the input under the key and passes the input on. */
  lemma CacheStage(h: Host, input: Expr, args: seq<Expr>, s: State)
    requires Valid(h, s) && args != []
    ensures var v, e := Eval(h, input, s), MethodCall(Ident("cache"), "set", args);
            var r := Eval(h, Pipeline(input, [ExprStage(e)]), s);
            if v.out.Err? then r == v
            else
              var key := Eval(h, args[0], v.s);
              if key.out.Err? then r == key
              else r == PassedOn(v.out.value, Invoke(h, Namespace("cache"), "set", [key.out.value, v.out.value], key.s))
  {
    var v := Eval(h, input, s);
    MethodStageTaken(h, input, Ident("cache"), "set", args, s);
    if v.out.Ok? {
      CacheSetInParts(h, v.out.value, args, v.s);
    }
  }

  /** If the step succeeds, the value `v` instead of its own. */
  function PassedOn(v: Value, step: Res): Res {
    step.(out := if step.out.Ok? then Ok(v) else step.out)
  }

  /** Any other method stage is evaluated without the input, unless it names a task of another file. */
  lemma MethodStage(h: Host, input: Expr, recv: Expr, sel: string, args: seq<Expr>, s: State)
    requires Valid(h, s)
    requires recv.Ident? ==> recv.name !in {"fs", "json", "base64", "log", "math", "http_client", "cache"}
    ensures var v, e := Eval(h, input, s), MethodCall(recv, sel, args);
            var r := Eval(h, Pipeline(input, [ExprStage(e)]), s);
            if v.out.Err? then r == v
            else if NamespaceTask(h, v.s.env, recv, sel).None? then r == Eval(h, e, v.s)
            else
              var a := Eval(h, ListLit(args), v.s);
              if a.out.Err? then r == a
              else r == CallTask(h, NamespaceTask(h, v.s.env, recv, sel).value, [v.out.value] + Values(a), sel, a.s)
  {
    MethodStageTaken(h, input, recv, sel, args, s);
    LogicInParts(h, ListLit(args), Eval(h, input, s).s);
  }

  /** `http_client` and `cache` get no input as branches. */
  lemma BranchWithoutInput(h: Host, v: Value, ns: string, sel: string, args: seq<Expr>, s: State)
    requires Valid(h, s) && ns in {"http_client", "cache"} && NamespaceTask(h, s.env, Ident(ns), sel).None?
    ensures ApplyTarget(h, v, MethodCall(Ident(ns), sel, args), s) == Eval(h, MethodCall(Ident(ns), sel, args), s)
  {
    TargetInParts(h, v, MethodCall(Ident(ns), sel, args), s);
  }

  /** `fetch` and `fetch_one` are refused as stages and as branches, whatever the name is bound to. */
  lemma FetchRefused(h: Host, v: Value, name: string, s: State)
    requires Valid(h, s) && name in {"fetch", "fetch_one"}
    ensures ApplyStage(h, v, Ident(name), s) == ApplyTarget(h, v, Ident(name), s) == Res(Err(TypeError), s)
  {
  }

  /** A branch of a broadcast that names a task takes any value whole, a list too. */
  lemma BranchTakesWhole(h: Host, v: Value, e: Expr, s: State)
    requires Valid(h, s)
    ensures e.Ident? && !IsFetch(e.name) && IsTaskIn(s.env, e.name) ==>
              ApplyTarget(h, v, e, s) == CallTask(h, Get(s.env, e.name).value, [v], e.name, s)
    ensures IsFileTask(h, s.env, e) ==> ApplyTarget(h, v, e, s) == CallTask(h, FileTask(h, s.env, e), [v], e.op.name, s)
  {
    if !e.Ident? {
      TargetInParts(h, v, e, s);
    }
  }

  /** Otherwise a branch is what it would be as a stage, but for `http_client` and `cache`. */
  lemma BranchIsStage(h: Host, v: Value, e: Expr, s: State)
    requires Valid(h, s)
    requires v.List? ==> !(e.Ident? && IsTaskIn(s.env, e.name)) && !IsFileTask(h, s.env, e)
    requires e.MethodCall? && e.receiver.Ident? ==> e.receiver.name != "http_client" && e.receiver.name != "cache"
    ensures ApplyTarget(h, v, e, s) == ApplyStage(h, v, e, s)
  {
    if !e.Ident? {
      StageInParts(h, v, e, s);
      TargetInParts(h, v, e, s);
    }
  }

  /** Inside a transaction a broadcast is refused before anything is evaluated; a failing input passes. */
  lemma BroadcastRefused(h: Host, input: Expr, targets: seq<Expr>, s: State)
    requires Valid(h, s)
    ensures s.insideTx ==> Eval(h, Broadcast(input, targets), s) == Res(Err(TypeError), s)
    ensures !s.insideTx && Eval(h, input, s).out.Err? ==> Eval(h, Broadcast(input, targets), s) == Eval(h, input, s)
  {
    FlowInParts(h, Broadcast(input, targets), s);
  }
}
