/**
 * What expressions and statements mean: laws that hold for every host, every state and all
 * parts of the expression (src/interpreter.rs). They relate forms of the language to each
 * other and to their parts, so each of them fixes what a reader of a program relies on.
 */
module Laws {
  import opened Environment
  import opened Options
  import opened Ast
  import opened Semantics
  import opened Parts

  // --- Truth ---

  /** The values that count as false; of the kinds not looked into, those the host calls false. */
  predicate CountsAsFalse(v: Value) {
    || v in {Null, Bool(false), Int(0), Str(""), List([])}
    || v.Namespace? || v.Table? || v.Collection? || (v.Other? && !v.truthy)
  }

  lemma FalseValues(v: Value)
    ensures Truthy(v) <==> !CountsAsFalse(v)
  {
  }

  // --- If, and, or ---

  /** What a branch gives: its result, in the environment from before. */
  function Branched(h: Host, body: Body, s: State): (r: Res)
    requires Valid(h, s)
    ensures Good(h, s, r)
  {
    var b := RunBody(h, body, s);
    Res(b.out, b.s.(env := s.env))
  }

  /** The first branch is taken exactly when the condition does not count as false. */
  lemma IfTaken(h: Host, cond: Expr, t: Body, e: Option<Body>, s: State)
    requires Valid(h, s)
    ensures var c, r := Eval(h, cond, s), Eval(h, If(cond, t, e), s);
            if c.out.Err? then r == c
            else if !CountsAsFalse(c.out.value) then r == Branched(h, t, c.s)
            else if e.Some? then r == Branched(h, e.value, c.s)
            else r == Res(Ok(Null), c.s)
  {
    OperationInParts(h, If(cond, t, e), s);
    var c := Eval(h, cond, s);
    if c.out.Ok? {
      FalseValues(c.out.value);
    }
  }

  predicate OppositeTruth(a: Res, b: Res) {
    a.out.Ok? && b.out.Ok? && a.s == b.s && (Truthy(a.out.value) <==> !Truthy(b.out.value))
  }

  /** Swapping the branches over a condition of opposite truth changes nothing. */
  lemma IfSwaps(h: Host, c: Expr, d: Expr, t: Body, e: Body, s: State)
    requires Valid(h, s) && OppositeTruth(Eval(h, c, s), Eval(h, d, s))
    ensures Eval(h, If(c, t, Some(e)), s) == Eval(h, If(d, e, Some(t)), s)
  {
    IfTaken(h, c, t, Some(e), s);
    IfTaken(h, d, e, Some(t), s);
    FalseValues(Eval(h, c, s).out.value);
    FalseValues(Eval(h, d, s).out.value);
  }

  /** `and` goes on to its right side exactly when `or` does not. */
  lemma LogicTaken(h: Host, a: Expr, b: Expr, s: State)
    requires Valid(h, s)
    ensures var l := Eval(h, a, s);
            var goesOn := Eval(h, b, l.s);
            if l.out.Err? then Eval(h, And(a, b), s) == l == Eval(h, Or(a, b), s)
            else if CountsAsFalse(l.out.value) then
              Eval(h, And(a, b), s) == l && Eval(h, Or(a, b), s) == goesOn
            else Eval(h, And(a, b), s) == goesOn && Eval(h, Or(a, b), s) == l
  {
    LogicInParts(h, And(a, b), s);
    LogicInParts(h, Or(a, b), s);
    var l := Eval(h, a, s);
    if l.out.Ok? {
      FalseValues(l.out.value);
    }
  }

  /** Both groupings of a chain evaluate the same operands and give the same value. */
  lemma AndAssociates(h: Host, a: Expr, b: Expr, c: Expr, s: State)
    requires Valid(h, s)
    ensures Eval(h, And(And(a, b), c), s) == Eval(h, And(a, And(b, c)), s)
    ensures Eval(h, Or(Or(a, b), c), s) == Eval(h, Or(a, Or(b, c)), s)
  {
    var l := Eval(h, a, s);
    LogicTaken(h, a, b, s);
    LogicTaken(h, And(a, b), c, s);
    LogicTaken(h, Or(a, b), c, s);
    LogicTaken(h, a, And(b, c), s);
    LogicTaken(h, a, Or(b, c), s);
    LogicTaken(h, b, c, l.s);
  }

  // --- Names and literals ---

  lemma LiteralsMeanThemselves(h: Host, n: int, b: bool, t: string, s: State)
    requires Valid(h, s)
    ensures Eval(h, IntLit(n), s) == Res(Ok(Int(n)), s) && Eval(h, BoolLit(b), s) == Res(Ok(Bool(b)), s)
    ensures Eval(h, StrLit(t), s) == Res(Ok(Str(t)), s) && Eval(h, NullLit, s) == Res(Ok(Null), s)
  {
  }

  /** The built-in namespaces; no variable hides them. */
  const NAMESPACES :=
    {"db", "doc", "cache", "fs", "json", "base64", "uuid", "feature", "log", "time", "math", "http_client"}

  /** A name that is not reserved stands for what it is bound to, and fails exactly when it is not bound. */
  lemma NameMeans(h: Host, name: string, s: State)
    requires Valid(h, s)
    ensures Eval(h, Ident(name), s).s == s
    ensures Eval(h, Ident(name), s).out ==
            if name in NAMESPACES then Ok(Namespace(name))
            else if Get(s.env, name).Some? then Ok(Get(s.env, name).value)
            else Err(UndefinedVariable(name))
  {
  }

  // --- Lists of operands ---

  /** The values of both lists, if neither fails. */
  function Both(a: Res, b: Res): Res {
    if a.out.Err? || !a.out.value.List? then a
    else if b.out.Err? || !b.out.value.List? then b
    else Res(Ok(List(a.out.value.items + b.out.value.items)), b.s)
  }

  /** A list evaluates as its first part and then, from where that ended, its second. */
  lemma {:induction false} ListInTwo(h: Host, a: seq<Expr>, b: seq<Expr>, s: State)
    requires Valid(h, s)
    ensures var first := Eval(h, ListLit(a), s);
            Eval(h, ListLit(a + b), s) == Both(first, Eval(h, ListLit(b), first.s))
    decreases |a|
  {
    LogicInParts(h, ListLit(a), s);
    LogicInParts(h, ListLit(a + b), s);
    var first := EvalAll(h, a, s);
    LogicInParts(h, ListLit(b), first.s);
    if a == [] {
      assert a + b == b;
      assert first == Res(Ok(List([])), s);
      NothingInFront(s, EvalAll(h, b, s));
    } else {
      assert (a + b)[1..] == a[1..] + b;
      var head := Eval(h, a[0], s);
      AllInParts(h, a, s);
      AllInParts(h, a + b, s);
      if head.out.Ok? {
        ListInTwo(h, a[1..], b, head.s);
        LogicInParts(h, ListLit(a[1..]), head.s);
        LogicInParts(h, ListLit(a[1..] + b), head.s);
        HeadInFront(head, EvalAll(h, a[1..], head.s), EvalAll(h, b, first.s));
      }
    }
  }

  lemma NothingInFront(s: State, b: Res)
    requires b.out.Ok? ==> b.out.value.List?
    ensures Both(Res(Ok(List([])), s), b) == b
  {
    if b.out.Ok? {
      assert [] + b.out.value.items == b.out.value.items;
    }
  }

  lemma HeadInFront(head: Res, rest: Res, b: Res)
    requires head.out.Ok? && (rest.out.Ok? ==> rest.out.value.List?) && (b.out.Ok? ==> b.out.value.List?)
    ensures InFront(head, Both(rest, b)) == Both(InFront(head, rest), b)
  {
    if rest.out.Ok? && b.out.Ok? {
      var v := head.out.value;
      assert [v] + (rest.out.value.items + b.out.value.items) == [v] + rest.out.value.items + b.out.value.items;
    }
  }

  /** A value as a list of its own. */
  function Single(v: Res): Res {
    if v.out.Err? then v else Res(Ok(List([v.out.value])), v.s)
  }

  lemma OneItem(h: Host, e: Expr, s: State)
    requires Valid(h, s)
    ensures var v := Eval(h, e, s);
            Eval(h, ListLit([e]), s) == Single(v)
  {
    var v := Eval(h, e, s);
    LogicInParts(h, ListLit([e]), s);
    AllInParts(h, [e], s);
    if v.out.Ok? {
      assert EvalAll(h, [], v.s) == Res(Ok(List([])), v.s);
      assert [v.out.value] + [] == [v.out.value];
    }
  }

  /** The value at each index is that of the operand there, evaluated behind those before it. */
  lemma ListItem(h: Host, items: seq<Expr>, k: nat, s: State)
    requires Valid(h, s) && k < |items|
    ensures var r, before := Eval(h, ListLit(items), s), Eval(h, ListLit(items[..k]), s);
            && (r.out.Ok? ==> r.out.value.List? && |r.out.value.items| == |items|
                              && before.out.Ok? && Eval(h, items[k], before.s).out == Ok(r.out.value.items[k]))
            && (before.out.Err? ==> r == before)
            && (before.out.Ok? && Eval(h, items[k], before.s).out.Err? ==> r == Eval(h, items[k], before.s))
  {
    assert items == items[..k] + ([items[k]] + items[k + 1..]);
    var before := Eval(h, ListLit(items[..k]), s);
    LogicInParts(h, ListLit(items[..k]), s);
    LogicInParts(h, ListLit(items), s);
    ListInTwo(h, items[..k], [items[k]] + items[k + 1..], s);
    ListInTwo(h, [items[k]], items[k + 1..], before.s);
    OneItem(h, items[k], before.s);
  }

  // --- Operators and calls ---

  /** The values of evaluated operands. */
  function Values(a: Res): seq<Value> {
    if a.out.Ok? && a.out.value.List? then a.out.value.items else []
  }

  /** Operators apply to the values of their operands in order; `db.t` is the table `t`, `doc.c` the collection `c`. */
  lemma OperatorApplies(h: Host, op: Operator, operands: seq<Expr>, s: State)
    requires Valid(h, s)
    ensures var a, r := Eval(h, ListLit(operands), s), Eval(h, Apply(op, operands), s);
            if a.out.Err? then r == a
            else if op.Property? && a.out.value == List([Namespace("db")]) then r == Res(Ok(Table(op.name)), a.s)
            else if op.Property? && a.out.value == List([Namespace("doc")]) then r == Res(Ok(Collection(op.name)), a.s)
            else r == Res(OutcomeOf(h.operate(op, Values(a))), a.s)
  {
    OperationInParts(h, Apply(op, operands), s);
    LogicInParts(h, ListLit(operands), s);
  }

  /** A binary operator takes the value of its left side first, and evaluates that first. */
  lemma BinaryApplies(h: Host, symbol: string, operands: seq<Expr>, s: State)
    requires Valid(h, s) && |operands| == 2
    ensures var l, r := Eval(h, operands[0], s), Eval(h, Apply(Binary(symbol), operands), s);
            var right := Eval(h, operands[1], l.s);
            if l.out.Err? then r == l
            else if right.out.Err? then r == right
            else r == Res(OutcomeOf(h.operate(Binary(symbol), [l.out.value, right.out.value])), right.s)
  {
    OperatorApplies(h, Binary(symbol), operands, s);
    TwoItems(h, operands, s);
    BothSingle(Eval(h, operands[0], s), Eval(h, operands[1], Eval(h, operands[0], s).s));
  }

  lemma TwoItems(h: Host, es: seq<Expr>, s: State)
    requires Valid(h, s) && |es| == 2
    ensures var l := Eval(h, es[0], s);
            Eval(h, ListLit(es), s) == Both(Single(l), Single(Eval(h, es[1], l.s)))
  {
    var a, b := es[..1], es[1..];
    assert es == a + b && a == [es[0]] && b == [es[1]];
    ListInTwo(h, a, b, s);
    OneItem(h, es[0], s);
    OneItem(h, es[1], Eval(h, es[0], s).s);
  }

  lemma BothSingle(l: Res, r: Res)
    ensures Both(Single(l), Single(r)) ==
            if l.out.Err? then l
            else if r.out.Err? then r
            else Res(Ok(List([l.out.value, r.out.value])), r.s)
  {
    if l.out.Ok? && r.out.Ok? {
      assert [l.out.value] + [r.out.value] == [l.out.value, r.out.value];
    }
  }

  /** What a name is called as: a response for `__fail__`, then built-in functions, then the task in scope. */
  lemma CallMeans(h: Host, name: string, args: seq<Expr>, s: State)
    requires Valid(h, s) && name != "__fail__"
    ensures var a, r := Eval(h, ListLit(args), s), Eval(h, Call(name, args), s);
            if a.out.Err? then r == a
            else if h.builtin(name, Values(a)).Some? then r == Res(OutcomeOf(h.builtin(name, Values(a)).value), a.s)
            else if Get(a.s.env, name).Some? then r == CallTask(h, Get(a.s.env, name).value, Values(a), name, a.s)
            else r == Res(Err(UndefinedTask(name)), a.s)
  {
    OperationInParts(h, Call(name, args), s);
    LogicInParts(h, ListLit(args), s);
  }

  /** An error response with that body; a status of 16 bits is kept, any other is cut. */
  predicate Fails(r: Res, status: int, body: Value) {
    && IsHttp(r.out) && r.out.error.response.isError
    && r.out.error.response.body == body && r.out.error.response.headers == Null
    && CutTo(r.out.error.response.status, status)
  }

  /** The 16 low bits of `n`. */
  predicate CutTo(status: nat, n: int) {
    status < 0x1_0000 && (status - n) % 0x1_0000 == 0
  }

  lemma StatusCut(n: int)
    ensures CutTo(Status(n), n)
  {
  }

  /** The status that `fail` in an expression asks for. */
  function FailStatus(vs: seq<Value>): int {
    if vs == [] || !vs[0].Int? then 500 else vs[0].n
  }

  lemma FailResponds(h: Host, vs: seq<Value>, s: State)
    requires Valid(h, s)
    ensures var r := CallFunction(h, "__fail__", vs, s);
            && Fails(r, FailStatus(vs), if |vs| > 1 then vs[1] else Null)
            && r.s == s.(replies := r.s.replies)
  {
    FailAnswers(h, vs, s);
    StatusCut(FailStatus(vs));
  }

  lemma FailAnswers(h: Host, vs: seq<Value>, s: State)
    requires Valid(h, s)
    ensures CallFunction(h, "__fail__", vs, s)
         == Respond(s, Response(Status(FailStatus(vs)), if |vs| > 1 then vs[1] else Null, Null, true))
  {
    SmallStatus(500);
  }

  lemma SmallStatus(n: nat)
    requires n < 0x1_0000
    ensures Status(n) == n
  {
  }

  /** `fail` in an expression: the first value is the status, cut to 16 bits, the second the body. */
  lemma FailMeans(h: Host, args: seq<Expr>, s: State)
    requires Valid(h, s)
    ensures var a, r := Eval(h, ListLit(args), s), Eval(h, Call("__fail__", args), s);
            if a.out.Err? then r == a
            else
              && Fails(r, FailStatus(Values(a)), if |Values(a)| > 1 then Values(a)[1] else Null)
              && r.s == a.s.(replies := r.s.replies)
  {
    OperationInParts(h, Call("__fail__", args), s);
    LogicInParts(h, ListLit(args), s);
    var a := EvalAll(h, args, s);
    if a.out.Ok? {
      FailResponds(h, a.out.value.items, a.s);
    }
  }

  // --- Methods ---

  /** `file.task(args)` where `file` is no variable calls the task of that file. */
  lemma FileTaskCalled(h: Host, file: string, sel: string, args: seq<Expr>, s: State)
    requires Valid(h, s) && h.hasRuntime && Get(s.env, file).None? && h.moduleTask(file, sel).Some?
    ensures var a, r := Eval(h, ListLit(args), s), Eval(h, MethodCall(Ident(file), sel, args), s);
            if a.out.Err? then r == a
            else r == CallTask(h, h.moduleTask(file, sel).value, Values(a), sel, a.s)
  {
    OperationInParts(h, MethodCall(Ident(file), sel, args), s);
    LogicInParts(h, ListLit(args), s);
  }

  /** The receiver is no file namespace: what is called is a method of its value. */
  predicate OnValue(h: Host, recv: Expr, sel: string, s: State) {
    NamespaceTask(h, s.env, recv, sel).None? && !IsUnboundNamespace(h, s.env, recv)
  }

  /** A method call evaluates the receiver, then the arguments, and then invokes the method. */
  lemma MethodInvoked(h: Host, recv: Expr, sel: string, args: seq<Expr>, s: State)
    requires Valid(h, s) && OnValue(h, recv, sel, s)
    ensures var o, r := Eval(h, recv, s), Eval(h, MethodCall(recv, sel, args), s);
            if o.out.Err? then r == o
            else if IsRequest(o.out.value, sel) && !h.hasDb then r == Res(Err(TypeError), o.s)
            else
              var a := Eval(h, ListLit(args), o.s);
              if a.out.Err? then r == a else r == Invoke(h, o.out.value, sel, Values(a), a.s)
  {
    OperationInParts(h, MethodCall(recv, sel, args), s);
    MethodInParts(h, MethodCall(recv, sel, args), s);
    LogicInParts(h, ListLit(args), Eval(h, recv, s).s);
  }

  /** A method of a table asks the database, unless the arguments are rejected. */
  lemma TableInvoked(h: Host, table: string, sel: string, args: seq<Value>, s: State)
    requires Valid(h, s) && h.hasDb
    ensures var q, r := Request(table, sel, args), Invoke(h, Table(table), sel, args, s);
            if h.rejects(q).Some? then r == Res(Err(Fault(h.rejects(q).value)), s)
            else
              && r.out == OutcomeOf(h.answers(s.world.log, q)) && r.s.world.log == s.world.log + [Did(q)]
              && (s.insideTx ==> r.s.tx == Some(s.tx.value + [q]) && r.s.world.db == s.world.db)
              && (!s.insideTx ==> r.s.world.db == h.effect(s.world.db, q))
  {
  }

  /** Namespaces that act leave an event; methods of any other value leave nothing. */
  lemma NamespaceInvoked(h: Host, ns: string, sel: string, args: seq<Value>, s: State)
    requires Valid(h, s) && (ns == "db" ==> sel != "native_query")
    ensures var r := Invoke(h, Namespace(ns), sel, args, s);
            if ns in {"doc", "cache", "http_client", "fs", "log"} then
              r.out == OutcomeOf(h.namespaceAnswers(s.world.log, ns, sel, args)) && r.s == Log(s, Called(ns, sel, args))
            else r == Res(OutcomeOf(h.callMethod(Namespace(ns), sel, args)), s)
  {
  }

  /** A native query asks the database without naming a table; collections act like namespaces. */
  lemma QueryInvoked(h: Host, sel: string, args: seq<Value>, collection: string, s: State)
    requires Valid(h, s) && h.hasDb
    ensures Invoke(h, Namespace("db"), "native_query", args, s) == Invoke(h, Table(""), "native_query", args, s)
    ensures var r := Invoke(h, Collection(collection), sel, args, s);
            && r.out == OutcomeOf(h.namespaceAnswers(s.world.log, collection, sel, args))
            && r.s == Log(s, Called(collection, sel, args))
  {
  }

  lemma ValueInvoked(h: Host, v: Value, sel: string, args: seq<Value>, s: State)
    requires Valid(h, s) && !v.Table? && !v.Collection? && !v.Namespace?
    ensures Invoke(h, v, sel, args, s) == Res(OutcomeOf(h.callMethod(v, sel, args)), s)
  {
  }

  // --- Match ---

  /** The state behind the pattern of one arm, if it neither fails nor equals the subject nor is the fallback. */
  function Rejected(h: Host, subject: Value, arm: Arm, s: State): (r: Option<State>)
    requires Valid(h, s)
    ensures r.Some? ==> Valid(h, r.value)
  {
    if arm.pattern.None? then None
    else
      var p := Eval(h, arm.pattern.value, s);
      if p.out.Ok? && p.out.value != subject then Some(p.s) else None
  }

  /** The state behind the first `k` patterns, if all are rejected. */
  function Rejecting(h: Host, subject: Value, arms: seq<Arm>, k: nat, s: State): (r: Option<State>)
    requires Valid(h, s) && k <= |arms|
    ensures r.Some? ==> Valid(h, r.value)
    decreases k
  {
    if k == 0 then Some(s)
    else
      var t := Rejecting(h, subject, arms, k - 1, s);
      if t.None? then None else Rejected(h, subject, arms[k - 1], t.value)
  }

  lemma {:induction false} ArmsRejected(h: Host, subject: Value, arms: seq<Arm>, k: nat, s: State)
    requires Valid(h, s) && k <= |arms| && Rejecting(h, subject, arms, k, s).Some?
    ensures EvalArms(h, subject, arms, s) == EvalArms(h, subject, arms[k..], Rejecting(h, subject, arms, k, s).value)
    decreases k
  {
    if k == 0 {
      assert arms[0..] == arms;
    } else {
      ArmsRejected(h, subject, arms, k - 1, s);
      var t := Rejecting(h, subject, arms, k - 1, s).value;
      assert arms[k - 1..][1..] == arms[k..];
      ArmsInParts(h, subject, arms[k - 1..], t);
    }
  }

  /**
   * The first arm whose pattern equals the subject, or the fallback if that comes first,
   * gives the result, from the state behind the patterns before it; no arm gives null.
   */
  lemma MatchTaken(h: Host, subject: Expr, arms: seq<Arm>, k: nat, s: State)
    requires Valid(h, s) && k <= |arms|
    ensures var v, r := Eval(h, subject, s), Eval(h, Match(subject, arms), s);
            if v.out.Err? then r == v
            else
              var t := Rejecting(h, v.out.value, arms, k, v.s);
              t.Some? ==>
                if k == |arms| then r == Res(Ok(Null), t.value)
                else if arms[k].pattern.None? then r == Eval(h, arms[k].value, t.value)
                else
                  var p := Eval(h, arms[k].pattern.value, t.value);
                  && (p.out.Err? ==> r == p)
                  && (p.out == Ok(v.out.value) ==> r == Eval(h, arms[k].value, p.s))
  {
    var v := Eval(h, subject, s);
    OperationInParts(h, Match(subject, arms), s);
    if v.out.Ok? && Rejecting(h, v.out.value, arms, k, v.s).Some? {
      var t := Rejecting(h, v.out.value, arms, k, v.s).value;
      ArmsRejected(h, v.out.value, arms, k, v.s);
      if k < |arms| {
        ArmsInParts(h, v.out.value, arms[k..], t);
      }
    }
  }

  /** Some arm, or the end of the arms, decides. */
  lemma {:induction false} MatchDecided(h: Host, subject: Value, arms: seq<Arm>, k: nat, s: State) returns (n: nat)
    requires Valid(h, s) && k <= |arms| && Rejecting(h, subject, arms, k, s).Some?
    ensures k <= n <= |arms| && Rejecting(h, subject, arms, n, s).Some?
    ensures n < |arms| ==> Rejecting(h, subject, arms, n + 1, s).None?
    decreases |arms| - k
  {
    if k < |arms| && Rejecting(h, subject, arms, k + 1, s).Some? {
      n := MatchDecided(h, subject, arms, k + 1, s);
    } else {
      n := k;
    }
  }

  // --- Rescue ---

  /** The handler sees the error under its name and every other name as the failed part left it. */
  lemma HandlerSees(h: Host, failed: State, e: Error, frames: nat, name: string)
    requires frames <= |failed.frames|
    ensures var t := Rescued(h, failed, e, frames);
            Get(t.env, name) == if name == "error" then Some(h.errorValue(e)) else Get(failed.env, name)
  {
    var scopes := failed.env.scopes + [map[]];
    assert scopes[..|scopes| - 1] == failed.env.scopes;
    var inner := SetIn(scopes, "error", h.errorValue(e));
    assert inner[..|inner| - 1] == failed.env.scopes;
  }

  /** A step whose innermost scope is left behind it. */
  function Left(r: Res): Res {
    Res(r.out, r.s.(env := Pop(r.s.env)))
  }

  /** A value or a response passes a rescue; any other error gives the outcome of the handler. */
  lemma RescueTaken(h: Host, e: Expr, handler: Expr, s: State)
    requires Valid(h, s)
    ensures var a, r := Eval(h, e, s), Eval(h, Rescue(e, handler), s);
            if a.out.Ok? || IsHttp(a.out) then r == a
            else
              |s.frames| <= |a.s.frames| &&
              var t := Rescued(h, a.s, a.out.error, |s.frames|);
              Valid(h, t) && r == Left(Eval(h, handler, t))
  {
    FlowInParts(h, Rescue(e, handler), s);
    var a := Eval(h, e, s);
    if a.out.Err? && !IsHttp(a.out) {
      RescuedGood(h, s, a, a);
    }
  }
}
