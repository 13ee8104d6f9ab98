/** What statements mean: laws for every host and every state (src/interpreter.rs, `execute_statement`). */
module StatementLaws {
  import opened Environment
  import opened Options
  import opened Ast
  import opened Semantics
  import opened Parts
  import opened ScopeLaws
  import opened Laws

  // --- Blocks ---

  /** A block runs as its first part and then, if that did not fail, its second. */
  lemma {:induction false} BlockInTwo(h: Host, a: seq<Stmt>, b: seq<Stmt>, s: State)
    requires Valid(h, s)
    ensures var first := ExecBlock(h, a, s);
            ExecBlock(h, a + b, s) == if b == [] || first.out.Err? then first else ExecBlock(h, b, first.s)
    decreases |a|
  {
    if a == [] {
      assert a + b == b;
    } else if b == [] {
      assert a + b == a;
    } else {
      assert (a + b)[0] == a[0] && (a + b)[1..] == a[1..] + b;
      var r := Exec(h, a[0], s);
      if r.out.Ok? {
        BlockInTwo(h, a[1..], b, r.s);
        if a[1..] == [] {
          assert ExecBlock(h, a[1..], r.s).s == r.s;
        }
      }
    }
  }

  lemma OneStatement(h: Host, stmt: Stmt, s: State)
    requires Valid(h, s)
    ensures ExecBlock(h, [stmt], s) == Exec(h, stmt, s)
  {
  }

  /** The body of a task or a branch runs its statements and then its last expression, as one block. */
  lemma BodyIsBlock(h: Host, stmts: seq<Stmt>, ret: Expr, s: State)
    requires Valid(h, s)
    ensures RunBody(h, Block(stmts, ret), s) == ExecBlock(h, stmts + [ExprStmt(ret)], s)
    ensures RunBody(h, Inline(ret), s) == Eval(h, ret, s)
  {
    BlockInTwo(h, stmts, [ExprStmt(ret)], s);
    OneStatement(h, ExprStmt(ret), ExecBlock(h, stmts, s).s);
    StmtInParts(h, ExprStmt(ret), ExecBlock(h, stmts, s).s);
  }

  // --- Assignments and definitions ---

  /** After an assignment the name has the value, every other name what it had; nothing but the scopes differs. */
  lemma AssignMeans(h: Host, target: string, value: Expr, s: State, other: string)
    requires Valid(h, s)
    ensures var v, r := Eval(h, value, s), Exec(h, Assign(target, value), s);
            if v.out.Err? then r == v
            else
              && r.out == Ok(Null) && r.s == v.s.(env := r.s.env)
              && Get(r.s.env, other) == if other == target then Some(v.out.value) else Get(v.s.env, other)
  {
    var v := Eval(h, value, s);
    if v.out.Ok? {
      UpdateReads(v.s.env, target, v.out.value, other);
    }
  }

  /** Reading a name that was just assigned gives what was assigned. */
  lemma AssignThenRead(h: Host, target: string, value: Expr, s: State)
    requires Valid(h, s) && !IsReserved(target)
    ensures ExecBlock(h, [Assign(target, value)] + [ExprStmt(Ident(target))], s).out == Eval(h, value, s).out
  {
    var a := Exec(h, Assign(target, value), s);
    BlockInTwo(h, [Assign(target, value)], [ExprStmt(Ident(target))], s);
    OneStatement(h, Assign(target, value), s);
    AssignMeans(h, target, value, s, target);
    OneStatement(h, ExprStmt(Ident(target)), a.s);
    StmtInParts(h, ExprStmt(Ident(target)), a.s);
    NameMeans(h, target, a.s);
  }

  /** A conditional assignment is the assignment behind its guard, and nothing if the guard does not hold. */
  lemma CondAssignMeans(h: Host, target: string, value: Expr, guard: Expr, s: State)
    requires Valid(h, s)
    ensures var g, r := Eval(h, guard, s), Exec(h, CondAssign(target, value, guard), s);
            if g.out.Err? then r == g
            else if CountsAsFalse(g.out.value) then r == Res(Ok(Null), g.s)
            else r == Exec(h, Assign(target, value), g.s)
  {
    var stmt := CondAssign(target, value, guard);
    StmtInParts(h, stmt, s);
    CondAssignInParts(h, stmt, s);
    var g := Eval(h, guard, s);
    if g.out.Ok? {
      FalseValues(g.out.value);
    }
  }

  /** A task definition binds the name in the current scope, to a task of the current module. */
  lemma TaskDefMeans(h: Host, name: string, params: seq<Param>, body: Body, s: State, other: string)
    requires Valid(h, s)
    ensures var r := Exec(h, TaskDef(name, params, body), s);
            && r.out == Ok(Null) && r.s == s.(env := r.s.env)
            && Get(r.s.env, other)
               == if other == name then Some(Task(name, params, body, s.module_)) else Get(s.env, other)
    ensures |s.env.scopes| > 1 ==> Pop(Exec(h, TaskDef(name, params, body), s).s.env) == Pop(s.env)
  {
    SetReads(s.env, name, Task(name, params, body, s.module_), other);
  }

  lemma WrappersMean(h: Host, inner: Stmt, e: Expr, s: State)
    requires Valid(h, s)
    ensures Exec(h, Export(inner), s) == Exec(h, inner, s) && Exec(h, ExprStmt(e), s) == Eval(h, e, s)
    ensures Exec(h, Declaration, s) == Res(Ok(Null), s)
  {
    StmtInParts(h, Export(inner), s);
    StmtInParts(h, ExprStmt(e), s);
  }

  // --- Guards ---

  /** `require` fails with its code exactly when `reject` passes, and passes exactly when `reject` fails. */
  lemma GuardsMean(h: Host, guard: Expr, code: int, s: State)
    requires Valid(h, s)
    ensures var g := Eval(h, guard, s);
            var require_, reject := Exec(h, Require(guard, code), s), Exec(h, Reject(guard, code), s);
            if g.out.Err? then require_ == g == reject
            else if CountsAsFalse(g.out.value) then
              require_ == Res(Err(HttpError(code)), g.s) && reject == Res(Ok(Null), g.s)
            else require_ == Res(Ok(Null), g.s) && reject == Res(Err(HttpError(code)), g.s)
  {
    GuardInParts(h, Require(guard, code), s);
    GuardInParts(h, Reject(guard, code), s);
    var g := Eval(h, guard, s);
    if g.out.Ok? {
      FalseValues(g.out.value);
    }
  }

  /** Never do both end in a value. */
  lemma GuardsExclude(h: Host, guard: Expr, code: int, s: State)
    requires Valid(h, s)
    ensures Exec(h, Require(guard, code), s).out.Err? || Exec(h, Reject(guard, code), s).out.Err?
    ensures Eval(h, guard, s).out.Ok? ==> Exec(h, Require(guard, code), s).out != Exec(h, Reject(guard, code), s).out
  {
    GuardsMean(h, guard, code, s);
  }

  // --- Loops ---

  /** The state after one round, if the guard holds and the body does not fail. */
  function OneRound(h: Host, w: Stmt, s: State): (r: Option<State>)
    requires Valid(h, s) && w.While?
    ensures r.Some? ==> Valid(h, r.value)
  {
    var g := Eval(h, w.guard, s);
    if g.out.Err? || CountsAsFalse(g.out.value) then None
    else
      var b := ExecBlock(h, w.body, g.s);
      if b.out.Err? then None else Some(b.s)
  }

  /** The state after `n` rounds. */
  function Rounds(h: Host, w: Stmt, n: nat, s: State): (r: Option<State>)
    requires Valid(h, s) && w.While?
    ensures r.Some? ==> Valid(h, r.value)
    decreases n
  {
    if n == 0 then Some(s)
    else
      var t := Rounds(h, w, n - 1, s);
      if t.None? then None else OneRound(h, w, t.value)
  }

  /** What a loop in round `i` comes to. */
  function LoopFrom(h: Host, w: Stmt, i: nat, s: State): Res
    requires Valid(h, s) && w.While? && i <= MAX_ITERATIONS
  {
    ExecWhile(h, w, i, s)
  }

  lemma RoundTaken(h: Host, w: Stmt, j: nat, s: State)
    requires Valid(h, s) && w.While? && 0 < j <= MAX_ITERATIONS && OneRound(h, w, s).Some?
    ensures LoopFrom(h, w, j - 1, s) == LoopFrom(h, w, j, OneRound(h, w, s).value)
  {
    var g := Eval(h, w.guard, s);
    WhileInParts(h, w, j - 1, s);
    FalseValues(g.out.value);
    RoundInParts(h, w, j - 1, g.s);
  }

  lemma RoundsGrow(h: Host, w: Stmt, n: nat, s: State)
    requires Valid(h, s) && w.While? && n > 0 && Rounds(h, w, n, s).Some?
    ensures Rounds(h, w, n - 1, s).Some? && Rounds(h, w, n, s) == OneRound(h, w, Rounds(h, w, n - 1, s).value)
  {
  }

  lemma {:induction false} LoopAfter(h: Host, w: Stmt, i: nat, n: nat, j: nat, s: State)
    requires Valid(h, s) && w.While? && i + n == j <= MAX_ITERATIONS && Rounds(h, w, n, s).Some?
    ensures LoopFrom(h, w, i, s) == LoopFrom(h, w, j, Rounds(h, w, n, s).value)
    decreases n
  {
    if n == 0 {
      assert Rounds(h, w, n, s) == Some(s);
    } else {
      RoundsGrow(h, w, n, s);
      var t := Rounds(h, w, n - 1, s).value;
      LoopAfter(h, w, i, n - 1, j - 1, s);
      RoundTaken(h, w, j, t);
    }
  }

  /** How a loop ends behind `n` rounds: by its guard, by an error, or by the cap of 10000 rounds. */
  lemma LoopMeans(h: Host, w: Stmt, n: nat, s: State)
    requires Valid(h, s) && w.While? && n <= MAX_ITERATIONS && Rounds(h, w, n, s).Some?
    ensures var g, r := Eval(h, w.guard, Rounds(h, w, n, s).value), Exec(h, w, s);
            if g.out.Err? then r == g
            else if CountsAsFalse(g.out.value) then r == Res(Ok(Null), g.s)
            else if n == MAX_ITERATIONS then r == Res(Err(LoopLimit), g.s)
            else
              var b := ExecBlock(h, w.body, g.s);
              if b.out.Err? then r == b else Rounds(h, w, n + 1, s) == Some(b.s)
  {
    StmtInParts(h, w, s);
    LoopAfter(h, w, 0, n, n, s);
    var t := Rounds(h, w, n, s).value;
    var g := Eval(h, w.guard, t);
    WhileInParts(h, w, n, t);
    if g.out.Ok? {
      FalseValues(g.out.value);
      if n < MAX_ITERATIONS {
        RoundInParts(h, w, n, g.s);
      }
    }
  }

  /** If a loop that ends in a value is not at its end, there is one more round. */
  lemma LoopGoesOn(h: Host, w: Stmt, k: nat, s: State) returns (more: bool)
    requires Valid(h, s) && w.While? && Exec(h, w, s).out.Ok?
    requires k <= MAX_ITERATIONS && Rounds(h, w, k, s).Some?
    ensures more ==> k < MAX_ITERATIONS && Rounds(h, w, k + 1, s).Some?
    ensures !more ==>
              var g := Eval(h, w.guard, Rounds(h, w, k, s).value);
              g.out.Ok? && CountsAsFalse(g.out.value) && Exec(h, w, s) == Res(Ok(Null), g.s)
  {
    LoopMeans(h, w, k, s);
    more := !CountsAsFalse(Eval(h, w.guard, Rounds(h, w, k, s).value).out.value);
  }

  /** A loop that ends in a value has gone through some number of rounds, and its guard has just been false. */
  lemma {:induction false} LoopEnds(h: Host, w: Stmt, k: nat, s: State) returns (n: nat)
    requires Valid(h, s) && w.While? && Exec(h, w, s).out.Ok?
    requires k <= MAX_ITERATIONS && Rounds(h, w, k, s).Some?
    ensures k <= n <= MAX_ITERATIONS && Rounds(h, w, n, s).Some?
    ensures var g := Eval(h, w.guard, Rounds(h, w, n, s).value);
            g.out.Ok? && CountsAsFalse(g.out.value) && Exec(h, w, s) == Res(Ok(Null), g.s)
    decreases MAX_ITERATIONS - k
  {
    var more := LoopGoesOn(h, w, k, s);
    if more {
      n := LoopEnds(h, w, k + 1, s);
    } else {
      n := k;
    }
  }

  // --- Responses and signals ---

  /** A reply with a status of 16 bits answers just that status, content and headers, evaluated in this order. */
  lemma ReplyMeans(h: Host, stmt: Stmt, s: State)
    requires Valid(h, s) && stmt.Reply?
    ensures var a, r := Eval(h, stmt.status, s), Exec(h, stmt, s);
            if a.out.Err? then r == a
            else if !a.out.value.Int? then r == Res(Err(TypeError), a.s)
            else
              var b := Eval(h, stmt.content, a.s);
              if b.out.Err? then r == b
              else if stmt.headers.None? then Answers(r, a.out.value.n, b.out.value, Null, b.s)
              else
                var c := Eval(h, stmt.headers.value, b.s);
                if c.out.Err? then r == c else Answers(r, a.out.value.n, b.out.value, c.out.value, c.s)
  {
    EndingInParts(h, stmt, s);
    ReplyInParts(h, stmt, s);
    var a := Eval(h, stmt.status, s);
    if a.out.Ok? && a.out.value.Int? {
      var b := Eval(h, stmt.content, a.s);
      if b.out.Ok? {
        HeadersMean(h, stmt, a.out.value.n, b.out.value, b.s);
      }
    }
  }

  lemma HeadersMean(h: Host, stmt: Stmt, status: int, content: Value, s: State)
    requires Valid(h, s) && stmt.Reply?
    ensures var r := Headers(h, stmt, status, content, s);
            if stmt.headers.None? then Answers(r, status, content, Null, s)
            else
              var c := Eval(h, stmt.headers.value, s);
              if c.out.Err? then r == c else Answers(r, status, content, c.out.value, c.s)
  {
    StatusCut(status);
  }

  predicate Answers(r: Res, status: int, content: Value, headers: Value, s: State) {
    && IsHttp(r.out) && !r.out.error.response.isError
    && r.out.error.response.body == content && r.out.error.response.headers == headers
    && CutTo(r.out.error.response.status, status)
    && r.s == s.(replies := s.replies + [r.out.error.response])
  }

  lemma FailStmtMeans(h: Host, code: int, message: Expr, s: State)
    requires Valid(h, s)
    ensures var m, r := Eval(h, message, s), Exec(h, Fail(code, message), s);
            if m.out.Err? then r == m
            else Fails(r, code, m.out.value) && r.s == m.s.(replies := m.s.replies + [r.out.error.response])
  {
    StatusCut(code);
  }

  /** `raise` and `nack` signal exactly when their condition holds, or always without one. */
  lemma SignalsMean(h: Host, condition: Option<Expr>, message: Expr, requeue: bool, s: State)
    requires Valid(h, s)
    ensures var c := if condition.None? then Res(Ok(Bool(true)), s) else Eval(h, condition.value, s);
            var raise, nack := Exec(h, Raise(message, condition), s), Exec(h, Nack(requeue, condition), s);
            if c.out.Err? then raise == c == nack
            else if CountsAsFalse(c.out.value) then raise == Res(Ok(Null), c.s) == nack
            else
              var m := Eval(h, message, c.s);
              && nack == Res(Err(NackSignal(requeue)), c.s)
              && raise == if m.out.Err? then m else Res(Err(Raised(m.out.value)), m.s)
  {
    EndingInParts(h, Raise(message, condition), s);
    EndingInParts(h, Nack(requeue, condition), s);
    SignalInParts(h, Raise(message, condition), s);
    SignalInParts(h, Nack(requeue, condition), s);
    var c := if condition.None? then Res(Ok(Bool(true)), s) else Eval(h, condition.value, s);
    if c.out.Ok? {
      FalseValues(c.out.value);
    }
  }

  /** A transaction inside a transaction, or without a database, is refused before anything happens. */
  lemma TransactionRefused(h: Host, body: seq<Stmt>, s: State)
    requires Valid(h, s) && (s.insideTx || !h.hasDb)
    ensures Exec(h, Transaction(body), s) == Res(Err(TypeError), s)
  {
  }

  lemma TransactionNotBegun(h: Host, body: seq<Stmt>, s: State)
    requires Valid(h, s) && !s.insideTx && h.hasDb && !h.beginSucceeds(s.world.log)
    ensures Exec(h, Transaction(body), s) == Res(Err(TypeError), Log(s, BeginFailed))
  {
  }
}
