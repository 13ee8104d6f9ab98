/** The functions of the interpreter taken apart into a first step and what follows it. */
module Parts {
  import opened Environment
  import opened Ast
  import opened Semantics

  // --- Expressions ---

  lemma OperationInParts(h: Host, e: Expr, s: State)
    requires Valid(h, s)
    ensures e.Apply? ==> Eval(h, e, s) == EvalApply(h, e, s)
    ensures e.MethodCall? ==> Eval(h, e, s) == EvalMethod(h, e, s)
    ensures e.Call? ==> Eval(h, e, s) == EvalCall(h, e, s)
    ensures e.If? ==> Eval(h, e, s) == EvalIf(h, e, s)
    ensures e.Match? ==> Eval(h, e, s) == EvalMatch(h, e, s)
  {
  }

  lemma LogicInParts(h: Host, e: Expr, s: State)
    requires Valid(h, s)
    ensures e.ListLit? ==> Eval(h, e, s) == EvalAll(h, e.items, s)
    ensures e.And? || e.Or? ==> Eval(h, e, s) == EvalLogical(h, e, s)
  {
  }

  lemma FlowInParts(h: Host, e: Expr, s: State)
    requires Valid(h, s)
    ensures e.Pipeline? ==> Eval(h, e, s) == EvalPipeline(h, e, s)
    ensures e.Rescue? ==> Eval(h, e, s) == EvalRescue(h, e, s)
    ensures e.Broadcast? ==> Eval(h, e, s) == EvalBroadcast(h, e, s)
  {
  }

  /** The value of the first step in front of those of the second. */
  function InFront(a: Res, c: Res): Res {
    if a.out.Err? then a
    else if c.out.Ok? && c.out.value.List? then Res(Ok(List([a.out.value] + c.out.value.items)), c.s)
    else c
  }

  lemma AllInParts(h: Host, es: seq<Expr>, s: State)
    requires Valid(h, s) && es != []
    ensures EvalAll(h, es, s) == InFront(Eval(h, es[0], s), EvalAll(h, es[1..], Eval(h, es[0], s).s))
  {
  }

  lemma MethodInParts(h: Host, e: Expr, s: State)
    requires Valid(h, s) && e.MethodCall?
    ensures var task := NamespaceTask(h, s.env, e.receiver, e.selector);
            EvalMethod(h, e, s) ==
            if task.Some? then OnTask(h, task.value, [], e.selector, e.args, s)
            else if IsUnboundNamespace(h, s.env, e.receiver) then
              Res(Err(UndefinedTask(e.receiver.name + "." + e.selector)), s)
            else
              var o := Eval(h, e.receiver, s);
              if o.out.Err? then o else OnReceiver(h, o.out.value, e.selector, e.args, o.s)
  {
    var a := EvalAll(h, e.args, s);
    if a.out.Ok? {
      assert [] + a.out.value.items == a.out.value.items;
    }
  }

  lemma ArmsInParts(h: Host, subject: Value, arms: seq<Arm>, s: State)
    requires Valid(h, s) && arms != []
    ensures var p := EvalPattern(h, subject, arms[0], s);
            EvalArms(h, subject, arms, s) ==
            if p.out.Err? then p else Chosen(h, subject, arms, Truthy(p.out.value), p.s)
  {
  }

  /** The first arm or those behind it. */
  function Chosen(h: Host, subject: Value, arms: seq<Arm>, applies: bool, s: State): (r: Res)
    requires Valid(h, s) && arms != []
    ensures Good(h, s, r)
  {
    if applies then EvalArm(h, arms[0], s) else EvalArms(h, subject, arms[1..], s)
  }

  // --- Stages, calls and branches ---

  /** `file.task` as a stage or a branch. */
  predicate IsFileTask(h: Host, env: Env<Value>, e: Expr) {
    e.Apply? && e.op.Property? && |e.operands| == 1 && NamespaceTask(h, env, e.operands[0], e.op.name).Some?
  }

  function FileTask(h: Host, env: Env<Value>, e: Expr): Value
    requires IsFileTask(h, env, e)
  {
    NamespaceTask(h, env, e.operands[0], e.op.name).value
  }

  lemma StageInParts(h: Host, v: Value, e: Expr, s: State)
    requires Valid(h, s)
    ensures !e.Ident? ==>
              ApplyStage(h, v, e, s) ==
              if IsFileTask(h, s.env, e) then CallOnEach(h, FileTask(h, s.env, e), v, e.op.name, s)
              else if e.MethodCall? && StageTakesInput(e.receiver, e.selector) then
                WithInput(h, v, e.receiver.name, e.selector, e.args, s)
              else Plain(h, v, e, s)
  {
  }

  lemma TargetInParts(h: Host, v: Value, e: Expr, s: State)
    requires Valid(h, s)
    ensures !e.Ident? ==>
              ApplyTarget(h, v, e, s) ==
              if IsFileTask(h, s.env, e) then CallTask(h, FileTask(h, s.env, e), [v], e.op.name, s)
              else if e.MethodCall? && BranchTakesInput(e.receiver) then
                WithInput(h, v, e.receiver.name, e.selector, e.args, s)
              else Plain(h, v, e, s)
  {
  }

  function Plain(h: Host, v: Value, e: Expr, s: State): (r: Res)
    requires Valid(h, s)
    ensures Good(h, s, r)
  {
    if e.Call? then OnFunction(h, e.task, [v], e.args, s)
    else if e.MethodCall? && NamespaceTask(h, s.env, e.receiver, e.selector).Some? then
      OnTask(h, NamespaceTask(h, s.env, e.receiver, e.selector).value, [v], e.selector, e.args, s)
    else Eval(h, e, s)
  }

  lemma CacheSetInParts(h: Host, v: Value, args: seq<Expr>, s: State)
    requires Valid(h, s) && args != []
    ensures var key := Eval(h, args[0], s);
            CacheSet(h, v, args, s) ==
            if key.out.Err? then key
            else Stored(v, Invoke(h, Namespace("cache"), "set", [key.out.value, v], key.s))
  {
  }

  lemma ManyInParts(h: Host, task: Value, items: seq<Value>, name: string, s: State)
    requires Valid(h, s) && items != []
    ensures var a := CallTask(h, task, [items[0]], name, s);
            CallMany(h, task, items, name, s) == InFront(a, CallMany(h, task, items[1..], name, a.s))
  {
  }

  lemma SequenceInParts(h: Host, v: Value, targets: seq<Expr>, s: State)
    requires Valid(h, s) && !s.insideTx && targets != []
    ensures var j := Join(s, ApplyTarget(h, v, targets[0], s));
            Good(h, s, j) && InSequence(h, v, targets, s) == InFront(j, InSequence(h, v, targets[1..], j.s))
  {
  }

  lemma ParallelInParts(h: Host, v: Value, targets: seq<Expr>, s: State)
    requires Valid(h, s) && !s.insideTx
    ensures InParallel(h, v, targets, s) == Gather(h, s, RunBranches(h, v, targets, 0, s))
  {
  }

  lemma BranchesInParts(h: Host, v: Value, targets: seq<Expr>, i: nat, s: State)
    requires Valid(h, s) && !s.insideTx && targets != []
    ensures Valid(h, Fork(s, i))
    ensures RunBranches(h, v, targets, i, s)
         == [ApplyTarget(h, v, targets[0], Fork(s, i))] + RunBranches(h, v, targets[1..], i + 1, s)
  {
    ForkValid(h, s, i);
  }

  // --- Statements ---

  lemma StmtInParts(h: Host, stmt: Stmt, s: State)
    requires Valid(h, s)
    ensures stmt.CondAssign? ==> Exec(h, stmt, s) == ExecCondAssign(h, stmt, s)
    ensures stmt.While? ==> Exec(h, stmt, s) == ExecWhile(h, stmt, 0, s)
    ensures stmt.ExprStmt? ==> Exec(h, stmt, s) == Eval(h, stmt.expr, s)
    ensures stmt.Export? ==> Exec(h, stmt, s) == Exec(h, stmt.inner, s)
    ensures stmt.Transaction? ==> Exec(h, stmt, s) == ExecTransaction(h, stmt.body, s)
  {
  }

  lemma EndingInParts(h: Host, stmt: Stmt, s: State)
    requires Valid(h, s)
    ensures stmt.Reply? ==> Exec(h, stmt, s) == ExecReply(h, stmt, s)
    ensures stmt.Raise? || stmt.Nack? ==> Exec(h, stmt, s) == ExecSignal(h, stmt, s)
  {
  }

  /** The part of a conditional assignment behind its condition. */
  function ThenAssign(h: Host, stmt: Stmt, holds: bool, s: State): (r: Res)
    requires Valid(h, s) && stmt.CondAssign?
    ensures Good(h, s, r)
  {
    if !holds then Res(Ok(Null), s)
    else
      var a := Eval(h, stmt.value, s);
      if a.out.Err? then a else Res(Ok(Null), a.s.(env := Update(a.s.env, stmt.target, a.out.value)))
  }

  lemma CondAssignInParts(h: Host, stmt: Stmt, s: State)
    requires Valid(h, s) && stmt.CondAssign?
    ensures var g := Eval(h, stmt.guard, s);
            ExecCondAssign(h, stmt, s) == if g.out.Err? then g else ThenAssign(h, stmt, Truthy(g.out.value), g.s)
  {
  }

  /** What a guard makes of its condition. */
  function Guarded(stmt: Stmt, g: Res): Res
    requires stmt.Require? || stmt.Reject?
  {
    if g.out.Err? then g
    else Res(if Truthy(g.out.value) == stmt.Require? then Ok(Null) else Err(HttpError(stmt.code)), g.s)
  }

  lemma GuardInParts(h: Host, stmt: Stmt, s: State)
    requires Valid(h, s) && (stmt.Require? || stmt.Reject?)
    ensures Exec(h, stmt, s) == Guarded(stmt, Eval(h, stmt.guard, s))
  {
  }

  lemma SignalInParts(h: Host, stmt: Stmt, s: State)
    requires Valid(h, s) && (stmt.Raise? || stmt.Nack?)
    ensures var c := if stmt.condition.None? then Res(Ok(Bool(true)), s) else Eval(h, stmt.condition.value, s);
            ExecSignal(h, stmt, s) == if c.out.Err? then c else SignalOn(h, stmt, c)
  {
  }

  /** The part of a signal behind its condition. */
  function SignalOn(h: Host, stmt: Stmt, c: Res): (r: Res)
    requires Valid(h, c.s) && (stmt.Raise? || stmt.Nack?) && c.out.Ok?
    ensures Good(h, c.s, r)
  {
    if !Truthy(c.out.value) then Res(Ok(Null), c.s)
    else if stmt.Nack? then Res(Err(NackSignal(stmt.requeue)), c.s)
    else
      var m := Eval(h, stmt.message, c.s);
      if m.out.Err? then m else Res(Err(Raised(m.out.value)), m.s)
  }

  lemma ReplyInParts(h: Host, stmt: Stmt, s: State)
    requires Valid(h, s) && stmt.Reply?
    ensures var a := Eval(h, stmt.status, s);
            ExecReply(h, stmt, s) == if a.out.Err? then a else Answered(h, stmt, a.out.value, a.s)
  {
  }

  /** A reply with its status. */
  function Answered(h: Host, stmt: Stmt, status: Value, s: State): (r: Res)
    requires Valid(h, s) && stmt.Reply?
    ensures Good(h, s, r)
  {
    if !status.Int? then Res(Err(TypeError), s) else Content(h, stmt, status.n, s)
  }

  /** The part of a reply behind its status. */
  function Content(h: Host, stmt: Stmt, status: int, s: State): (r: Res)
    requires Valid(h, s) && stmt.Reply?
    ensures Good(h, s, r)
  {
    var b := Eval(h, stmt.content, s);
    if b.out.Err? then b else Headers(h, stmt, status, b.out.value, b.s)
  }

  function Headers(h: Host, stmt: Stmt, status: int, content: Value, s: State): (r: Res)
    requires Valid(h, s) && stmt.Reply?
    ensures Good(h, s, r)
  {
    var c := if stmt.headers.None? then Res(Ok(Null), s) else Eval(h, stmt.headers.value, s);
    if c.out.Err? then c else Respond(c.s, Response(Status(status), content, c.out.value, false))
  }

  lemma WhileInParts(h: Host, w: Stmt, iterations: nat, s: State)
    requires Valid(h, s) && w.While? && iterations <= MAX_ITERATIONS
    ensures var g := Eval(h, w.guard, s);
            ExecWhile(h, w, iterations, s) ==
            if g.out.Err? then g else Looping(h, w, iterations, Truthy(g.out.value), g.s)
  {
  }

  /** A loop whose guard has been evaluated. */
  function Looping(h: Host, w: Stmt, iterations: nat, holds: bool, s: State): (r: Res)
    requires Valid(h, s) && w.While? && iterations <= MAX_ITERATIONS
    ensures Good(h, s, r)
  {
    if !holds then Res(Ok(Null), s)
    else if iterations == MAX_ITERATIONS then Res(Err(LoopLimit), s)
    else Round(h, w, iterations, s)
  }

  lemma RoundInParts(h: Host, w: Stmt, iterations: nat, s: State)
    requires Valid(h, s) && w.While? && iterations < MAX_ITERATIONS
    ensures var b := ExecBlock(h, w.body, s);
            Round(h, w, iterations, s) == if b.out.Err? then b else ExecWhile(h, w, iterations + 1, b.s)
  {
  }

  /** A round and the loop behind it. */
  function Round(h: Host, w: Stmt, iterations: nat, s: State): (r: Res)
    requires Valid(h, s) && w.While? && iterations < MAX_ITERATIONS
    ensures Good(h, s, r)
  {
    var b := ExecBlock(h, w.body, s);
    if b.out.Err? then b else ExecWhile(h, w, iterations + 1, b.s)
  }
}
