/**
 * The termination and reachability analyses of the lint (src/lint.rs), proved against
 * the interpreter.
 */
module Lint {
  import opened Options
  import opened Ast
  import opened Semantics

  // --- "This block always ends in a response or an error" ---

  predicate BlockTerminates(stmts: seq<Stmt>) {
    stmts != [] && (StmtTerminates(stmts[0]) || BlockTerminates(stmts[1..]))
  }

  predicate StmtTerminates(stmt: Stmt) {
    match stmt
    case Reply(_, _, _) => true
    case Fail(_, _) => true
    case Raise(_, condition) => condition.None?
    case Transaction(body) => BlockTerminates(body)
    case ExprStmt(e) => ExprTerminates(e)
    case Assign(_, value) => ExprTerminates(value)
    case _ => false
  }

  predicate ExprTerminates(e: Expr) {
    match e
    case Call(name, _) => name == "__fail__"
    case If(_, t, None) => false
    case If(_, t, Some(b)) => BodyTerminates(b) && BodyTerminates(t)
    case Match(_, arms) => HasFallback(arms) && ArmsTerminate(arms)
    case _ => false
  }

  predicate HasFallback(arms: seq<Arm>) {
    exists i :: 0 <= i < |arms| && arms[i].pattern.None?
  }

  predicate ArmsTerminate(arms: seq<Arm>) {
    arms == [] || (ArmTerminates(arms[0]) && ArmsTerminate(arms[1..]))
  }

  predicate ArmTerminates(arm: Arm) {
    ExprTerminates(arm.value)
  }

  predicate BodyTerminates(b: Body) {
    match b
    case Block(stmts, ret) => BlockTerminates(stmts) || ExprTerminates(ret)
    case Inline(e) => ExprTerminates(e)
  }

  // --- What is accepted ---

  /** A block is accepted as soon as one of its statements is. */
  lemma {:induction false} AcceptedBlocks(stmts: seq<Stmt>)
    ensures BlockTerminates(stmts) <==> exists i :: 0 <= i < |stmts| && StmtTerminates(stmts[i])
    decreases |stmts|
  {
    if stmts != [] {
      AcceptedBlocks(stmts[1..]);
      if BlockTerminates(stmts) && !StmtTerminates(stmts[0]) {
        var i :| 0 <= i < |stmts| - 1 && StmtTerminates(stmts[1..][i]);
        assert stmts[i + 1] == stmts[1..][i];
      } else if exists i :: 1 <= i < |stmts| && StmtTerminates(stmts[i]) {
        var i :| 1 <= i < |stmts| && StmtTerminates(stmts[i]);
        assert stmts[1..][i - 1] == stmts[i];
      }
    }
  }

  lemma {:induction false} AcceptedArms(arms: seq<Arm>)
    ensures ArmsTerminate(arms) <==> forall i :: 0 <= i < |arms| ==> ExprTerminates(arms[i].value)
    decreases |arms|
  {
    if arms != [] {
      AcceptedArms(arms[1..]);
      assert forall i :: 1 <= i < |arms| ==> arms[i] == arms[1..][i - 1];
      assert forall i :: 0 <= i < |arms| - 1 ==> arms[1..][i] == arms[i + 1];
    }
  }

  /** The forms that must be accepted: every one that ends in a response or an error on all of its paths. */
  lemma AcceptedForms(a: Expr, b: Expr, headers: Option<Expr>, code: int, stmts: seq<Stmt>, args: seq<Expr>)
    ensures StmtTerminates(Reply(a, b, headers)) && StmtTerminates(Fail(code, a)) && StmtTerminates(Raise(a, None))
    ensures ExprTerminates(Call("__fail__", args))
    ensures StmtTerminates(ExprStmt(a)) == StmtTerminates(Assign("", a)) == ExprTerminates(a)
    ensures StmtTerminates(Transaction(stmts)) <==> exists i :: 0 <= i < |stmts| && StmtTerminates(stmts[i])
  {
    AcceptedBlocks(stmts);
  }

  /** An `if` with both branches, a `match` with a fallback and all of its arms, a body with a statement or its end. */
  lemma AcceptedBranches(a: Expr, c: Expr, stmts: seq<Stmt>, arms: seq<Arm>, t: Body, e: Body)
    ensures ExprTerminates(If(c, t, Some(e))) <==> BodyTerminates(t) && BodyTerminates(e)
    ensures ExprTerminates(Match(a, arms)) <==>
            (exists i :: 0 <= i < |arms| && arms[i].pattern.None?)
            && (forall i :: 0 <= i < |arms| ==> ExprTerminates(arms[i].value))
    ensures BodyTerminates(Block(stmts, a)) <==>
            (exists i :: 0 <= i < |stmts| && StmtTerminates(stmts[i])) || ExprTerminates(a)
  {
    AcceptedBlocks(stmts);
    AcceptedArms(arms);
  }

  // --- Soundness ---

  lemma {:induction false} BlockSound(h: Host, stmts: seq<Stmt>, s: State)
    requires Valid(h, s) && BlockTerminates(stmts)
    ensures ExecBlock(h, stmts, s).out.Err?
    decreases stmts, 0
  {
    var a := Exec(h, stmts[0], s);
    if StmtTerminates(stmts[0]) {
      StmtSound(h, stmts[0], s);
    } else if a.out.Ok? {
      BlockSound(h, stmts[1..], a.s);
    }
  }

  lemma {:induction false} StmtSound(h: Host, stmt: Stmt, s: State)
    requires Valid(h, s) && StmtTerminates(stmt)
    ensures Exec(h, stmt, s).out.Err?
    decreases stmt, 0
  {
    match stmt
    case Transaction(body) =>
      if !s.insideTx && h.hasDb && Begin(h, s).out.Ok? {
        BlockSound(h, body, Begin(h, s).s);
      }
    case ExprStmt(e) => ExprSound(h, e, s);
    case Assign(_, value) => ExprSound(h, value, s);
    case _ =>
  }

  lemma {:induction false} ExprSound(h: Host, e: Expr, s: State)
    requires Valid(h, s) && ExprTerminates(e)
    ensures Eval(h, e, s).out.Err?
    decreases e, 0
  {
    match e
    case If(cond, t, Some(b)) =>
      var c := Eval(h, cond, s);
      if c.out.Ok? {
        BodySound(h, t, c.s);
        BodySound(h, b, c.s);
      }
    case Match(subject, arms) =>
      var v := Eval(h, subject, s);
      if v.out.Ok? {
        ArmsSound(h, v.out.value, arms, v.s);
      }
    case Call(name, args) =>
      var a := EvalAll(h, args, s);
      assert Eval(h, e, s) == EvalCall(h, e, s);
      if a.out.Ok? {
        assert CallFunction(h, name, a.out.value.items, a.s).out.Err?;
      }
    case _ =>
  }

  lemma {:induction false} BodySound(h: Host, b: Body, s: State)
    requires Valid(h, s) && BodyTerminates(b)
    ensures RunBody(h, b, s).out.Err? && EvalBranch(h, b, s).out.Err?
    decreases b, 0
  {
    match b
    case Inline(e) => ExprSound(h, e, s);
    case Block(stmts, ret) =>
      if BlockTerminates(stmts) {
        BlockSound(h, stmts, s);
      } else if ExecBlock(h, stmts, s).out.Ok? {
        ExprSound(h, ret, ExecBlock(h, stmts, s).s);
      }
  }

  lemma {:induction false} ArmsSound(h: Host, subject: Value, arms: seq<Arm>, s: State)
    requires Valid(h, s) && HasFallback(arms) && ArmsTerminate(arms)
    ensures EvalArms(h, subject, arms, s).out.Err?
    decreases arms, 0
  {
    var p := EvalPattern(h, subject, arms[0], s);
    if p.out.Ok? {
      if Truthy(p.out.value) {
        ArmSound(h, arms[0], p.s);
      } else {
        var i :| 0 <= i < |arms| && arms[i].pattern.None?;
        assert i > 0 && arms[1..][i - 1].pattern.None?;
        ArmsSound(h, subject, arms[1..], p.s);
      }
    }
  }

  lemma {:induction false} ArmSound(h: Host, arm: Arm, s: State)
    requires Valid(h, s) && ArmTerminates(arm)
    ensures EvalArm(h, arm, s).out.Err?
    decreases arm, 0
  {
    ExprSound(h, arm.value, s);
  }

  // --- Unreachable statements ---

  predicate IsTerminal(stmt: Stmt) {
    stmt.Reply? || stmt.Fail? || (stmt.Raise? && stmt.condition.None?)
  }

  /** The statements that a reader may delete: all those behind the first terminal one. */
  function Reachable(stmts: seq<Stmt>): (r: seq<Stmt>)
    ensures |r| <= |stmts|
  {
    if stmts == [] then []
    else if IsTerminal(stmts[0]) then [stmts[0]]
    else [stmts[0]] + Reachable(stmts[1..])
  }

  /** A reply, a `fail` or an unconditional `raise` stands in front of position `i`. */
  predicate Behind(stmts: seq<Stmt>, i: nat) {
    exists j :: 0 <= j < i && j < |stmts| &&
      (stmts[j].Reply? || stmts[j].Fail? || (stmts[j].Raise? && stmts[j].condition == None))
  }

  lemma {:induction false} UnreachableExactly(stmts: seq<Stmt>, i: nat)
    requires i < |stmts|
    ensures |Reachable(stmts)| <= i <==> Behind(stmts, i)
    decreases |stmts|
  {
    if IsTerminal(stmts[0]) {
      assert i > 0 ==> Behind(stmts, i);
    } else if i > 0 {
      UnreachableExactly(stmts[1..], i - 1);
      if Behind(stmts[1..], i - 1) {
        var j :| 0 <= j < i - 1 && j < |stmts| - 1 && IsTerminal(stmts[1..][j]);
        assert stmts[j + 1] == stmts[1..][j];
      }
      if Behind(stmts, i) {
        var j :| 0 <= j < i && j < |stmts| && IsTerminal(stmts[j]);
        assert stmts[1..][j - 1] == stmts[j];
      }
    }
  }

  /** Reports the positions of the statements behind a terminal one. */
  method LintUnreachable(stmts: seq<Stmt>) returns (reported: seq<nat>)
    ensures reported == seq(|stmts| - |Reachable(stmts)|, i => |Reachable(stmts)| + i)
    ensures Reachable(stmts) == stmts[..|Reachable(stmts)|]
    ensures forall i: nat :: i in reported <==> i < |stmts| && Behind(stmts, i)
  {
    ReachablePrefix(stmts);
    reported := [];
    var terminal := false;
    var i := 0;
    ghost var n := |Reachable(stmts)|;
    assert stmts[0..] == stmts;
    while i < |stmts|
      invariant 0 <= i <= |stmts|
      invariant terminal ==> n <= i && reported == seq(i - n, k => n + k)
      invariant !terminal ==> n == i + |Reachable(stmts[i..])| && reported == []
    {
      if terminal {
        reported := reported + [i];
      } else {
        assert stmts[i..][1..] == stmts[i + 1..];
        terminal := IsTerminal(stmts[i]);
      }
      i := i + 1;
    }
    assert stmts[|stmts|..] == [];
    forall i: nat ensures i in reported <==> i < |stmts| && Behind(stmts, i) {
      if i < |stmts| {
        UnreachableExactly(stmts, i);
        assert n <= i ==> reported[i - n] == i;
      }
    }
  }

  lemma {:induction false} ReachablePrefix(stmts: seq<Stmt>)
    ensures Reachable(stmts) <= stmts
  {
    if stmts != [] && !IsTerminal(stmts[0]) {
      ReachablePrefix(stmts[1..]);
    }
  }

  /** Deleting every reported statement changes neither the result nor the final state. */
  lemma {:induction false} DeletingUnreachable(h: Host, stmts: seq<Stmt>, s: State)
    requires Valid(h, s)
    ensures ExecBlock(h, Reachable(stmts), s) == ExecBlock(h, stmts, s)
    decreases |stmts|
  {
    if stmts != [] {
      var first, rest := stmts[0], Reachable(stmts[1..]);
      if IsTerminal(first) {
        assert StmtTerminates(first);
        StmtSound(h, first, s);
      } else {
        var a := Exec(h, first, s);
        assert ([first] + rest)[1..] == rest;
        if a.out.Ok? {
          DeletingUnreachable(h, stmts[1..], a.s);
          if |stmts| > 1 {
            ReachableNonempty(stmts[1..]);
          }
        }
      }
    }
  }

  lemma ReachableNonempty(stmts: seq<Stmt>)
    requires stmts != []
    ensures Reachable(stmts) != []
  {
  }
}
