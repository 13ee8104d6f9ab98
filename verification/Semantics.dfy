/**
 * The tree-walking interpreter as a function on interpreter states
 * (src/interpreter.rs, src/interpreter/pipeline.rs).
 */
module Semantics {
  import opened Environment
  import opened Options
  import opened Ast

  // --- Results ---

  datatype Response = Response(status: nat, body: Value, headers: Value, isError: bool)

  datatype Error =
    | Http(response: Response)
    | HttpError(code: int)
    | Raised(value: Value)
    | NackSignal(requeue: bool)
    | LoopLimit
    | RecursionLimit
    | TypeError
    | UndefinedVariable(name: string)
    | UndefinedTask(name: string)
    | WrongArity(name: string)
    | NotCallable(name: string)
    | Fault(code: int)

  datatype Outcome = Ok(value: Value) | Err(error: Error)

  predicate IsHttp(o: Outcome) {
    o.Err? && o.error.Http?
  }

  /** What code outside the model answers: a value, or an error that is not a response. */
  datatype Answer = Yields(value: Value) | Breaks(code: int)

  function OutcomeOf(a: Answer): Outcome {
    match a
    case Yields(v) => Ok(v)
    case Breaks(c) => Err(Fault(c))
  }

  // --- The database and its driver ---

  type Db = map<string, Value>

  datatype Request = Request(table: string, operation: string, args: seq<Value>)

  /** Requests that take effect together: those of one transaction, or a single one. */
  type Batch = seq<Request>

  /**
   * What one thread of control does to the outside, in order. A parallel broadcast gives
   * every branch a connection and a history of its own, which goes on from that of the
   * parent (`Forked`); when the branches are done, the parent's history records what each
   * of them did, and in which order their effects came about (`Joined`).
   */
  datatype Event =
    | Began
    | BeginFailed
    | Did(request: Request)
    | Committed
    | CommitFailed
    | RolledBack
    | Called(ns: string, selector: string, args: seq<Value>)
    | Forked(branch: nat)
    | Joined(branches: seq<Branch>, order: seq<nat>)

  datatype Branch = Branch(events: seq<Event>)

  /** `start` is the database before the first event of `log`, `db` what the events made of it. */
  datatype World = World(start: Db, db: Db, log: seq<Event>)

  /**
   * Everything outside the model: operators, value methods, built-in functions, schemas,
   * the project runtime, the database driver and the acting namespaces. Whoever is asked
   * may answer according to the whole history of the asking branch. What other branches do
   * meanwhile may show in those answers in any way, since a history names its branch and is
   * asked behind only once in a run (`Runs.NoHistoryTwice`): a result that holds for every
   * host holds for every driver and under every interleaving of parallel branches.
   */
  datatype Host = Host(
    maxDepth: nat,
    operate: (Operator, seq<Value>) -> Answer,
    callMethod: (Value, string, seq<Value>) -> Answer,
    builtin: (string, seq<Value>) -> Option<Answer>,
    coerce: (Option<string>, string, Value) -> Option<Value>,
    hasRuntime: bool,
    moduleEnv: string -> Env<Value>,
    moduleTask: (string, string) -> Option<Value>,
    isNamespace: string -> bool,
    errorValue: Error -> Value,
    hasDb: bool,
    beginSucceeds: seq<Event> -> bool,
    commitSucceeds: seq<Event> -> bool,
    rejects: Request -> Option<int>,
    answers: (seq<Event>, Request) -> Answer,
    namespaceAnswers: (seq<Event>, string, string, seq<Value>) -> Answer,
    effect: (Db, Request) -> Db,
    schedule: (seq<Event>, seq<Branch>) -> seq<nat>)

  function ApplyAll(h: Host, db: Db, requests: seq<Request>): Db
    decreases |requests|
  {
    if requests == [] then db
    else h.effect(ApplyAll(h, db, requests[..|requests| - 1]), requests[|requests| - 1])
  }

  function ApplyBatches(h: Host, db: Db, batches: seq<Batch>): Db
    decreases |batches|
  {
    if batches == [] then db
    else ApplyAll(h, ApplyBatches(h, db, batches[..|batches| - 1]), batches[|batches| - 1])
  }

  /**
   * What a history amounts to: the batches that took effect, and the requests of the
   * transaction that is still open. `Broken` is a history with nested or unmatched
   * brackets, on its own connection or on that of a branch.
   */
  datatype Ledger = Ledger(kept: seq<Batch>, open: Option<Batch>) | Broken

  function Enter(l: Ledger, e: Event): Ledger
    decreases e, 0
  {
    if l.Broken? then Broken
    else match e
      case Began => if l.open.None? then Ledger(l.kept, Some([])) else Broken
      case BeginFailed => if l.open.None? then l else Broken
      case Did(r) => if l.open.None? then Ledger(l.kept + [[r]], None) else Ledger(l.kept, Some(l.open.value + [r]))
      case Committed => if l.open.Some? then Ledger(l.kept + [l.open.value], None) else Broken
      case CommitFailed => if l.open.Some? then Ledger(l.kept, None) else Broken
      case RolledBack => if l.open.Some? then Ledger(l.kept, None) else Broken
      case Called(_, _, _) => l
      case Forked(_) => if l.open.None? then l else Broken
      case Joined(branches, order) =>
        var kepts := BookAll(branches);
        if l.open.None? && kepts.Some? then Ledger(l.kept + Merge(kepts.value, order), None) else Broken
  }

  function Book(log: seq<Event>): Ledger
    decreases log, 1
  {
    if log == [] then Ledger([], None) else Enter(Book(log[..|log| - 1]), log[|log| - 1])
  }

  function BookBranch(b: Branch): Ledger
    decreases b, 1
  {
    Book(b.events)
  }

  /** The batches of each branch, if every branch has closed its brackets. */
  function BookAll(branches: seq<Branch>): (r: Option<seq<seq<Batch>>>)
    ensures r.Some? ==> |r.value| == |branches|
    decreases branches, 0
  {
    if branches == [] then Some([])
    else
      var first, rest := BookBranch(branches[0]), BookAll(branches[1..]);
      if first.Ledger? && first.open.None? && rest.Some? then Some([first.kept] + rest.value) else None
  }

  /** The effects of parallel branches in the given order of branches; what the order leaves out comes last. */
  function Merge(parts: seq<seq<Batch>>, order: seq<nat>): seq<Batch>
    decreases |order|
  {
    if order == [] then Concat(parts)
    else if order[0] < |parts| && parts[order[0]] != [] then
      [parts[order[0]][0]] + Merge(parts[order[0] := parts[order[0]][1..]], order[1..])
    else Merge(parts, order[1..])
  }

  function Concat(parts: seq<seq<Batch>>): seq<Batch> {
    if parts == [] then [] else parts[0] + Concat(parts[1..])
  }

  // --- States ---

  /**
   * `tx` holds the requests of the open transaction. `replies` records the responses made
   * on this thread of control, `dropped` those of parallel branches that lost against the
   * error of an earlier branch.
   */
  datatype State = State(
    env: Env<Value>,
    depth: nat,
    module_: Option<string>,
    insideTx: bool,
    frames: seq<string>,
    tx: Option<Batch>,
    replies: seq<Response>,
    dropped: seq<Response>,
    world: World)

  datatype Res = Res(out: Outcome, s: State)

  predicate Honest(h: Host, tx: Option<Batch>, w: World) {
    var l := Book(w.log);
    l.Ledger? && l.open == tx && w.db == ApplyBatches(h, w.start, l.kept)
  }

  /** The invariant of an interpreter between steps. */
  predicate Valid(h: Host, s: State) {
    && s.depth <= h.maxDepth
    && s.env.scopes != []
    && s.insideTx == s.tx.Some?
    && Honest(h, s.tx, s.world)
  }

  /** Inside a transaction there are requests, and calls of namespaces. */
  predicate OnlyRequests(log: seq<Event>, from: nat) {
    forall i :: from <= i < |log| ==> log[i].Did? || log[i].Called?
  }

  /** The history only grows; inside a transaction only by requests, which leave the database alone. */
  predicate Follows(s: State, s': State) {
    && s.world.log <= s'.world.log && s.dropped <= s'.dropped
    && s'.world.start == s.world.start
    && (s.insideTx ==> s'.world.db == s.world.db && OnlyRequests(s'.world.log, |s.world.log|))
  }

  /** What every step gives back as it found it, whether it ends in a value or an error. */
  predicate Restores(s: State, s': State) {
    && s'.depth == s.depth && s'.module_ == s.module_
    && s'.insideTx == s.insideTx
    && |s'.env.scopes| == |s.env.scopes| && s'.env.base == s.env.base
  }

  /** Frames are dropped on success and kept, behind those of the caller, on an error. */
  predicate Traces(s: State, r: Res) {
    if r.out.Ok? then r.s.frames == s.frames else s.frames <= r.s.frames
  }

  /** A response is made exactly when the step ends in it: the first one is the result. */
  predicate Responds(s: State, r: Res) {
    if IsHttp(r.out) then r.s.replies == s.replies + [r.out.error.response] else r.s.replies == s.replies
  }

  predicate Good(h: Host, s: State, r: Res) {
    Valid(h, r.s) && Follows(s, r.s) && Restores(s, r.s) && Traces(s, r) && Responds(s, r)
  }

  lemma GoodTrans(h: Host, s: State, r1: Res, r2: Res)
    requires Good(h, s, r1) && r1.out.Ok? && Good(h, r1.s, r2)
    ensures Good(h, s, r2)
  {
  }

  // --- Driver calls ---

  lemma BookPush(log: seq<Event>, e: Event)
    ensures Book(log + [e]) == Enter(Book(log), e)
  {
    assert (log + [e])[..|log|] == log;
  }

  lemma {:induction false} ApplyConcat(h: Host, db: Db, a: seq<Batch>, b: seq<Batch>)
    ensures ApplyBatches(h, db, a + b) == ApplyBatches(h, ApplyBatches(h, db, a), b)
    decreases |b|
  {
    if b == [] {
      assert a + b == a;
    } else {
      assert (a + b)[..|a + b| - 1] == a + b[..|b| - 1];
      ApplyConcat(h, db, a, b[..|b| - 1]);
    }
  }

  lemma ApplyBatch(h: Host, db: Db, batches: seq<Batch>, b: Batch)
    ensures ApplyBatches(h, db, batches + [b]) == ApplyAll(h, ApplyBatches(h, db, batches), b)
  {
    assert (batches + [b])[..|batches|] == batches;
  }

  lemma ApplyOne(h: Host, db: Db, r: Request)
    ensures ApplyAll(h, db, [r]) == h.effect(db, r)
  {
    assert [r][..0] == [];
  }

  function Log(s: State, e: Event): State {
    s.(world := s.world.(log := s.world.log + [e]))
  }

  /**
   * A request whose arguments are rejected never reaches the driver. Any other goes to the
   * open transaction if there is one, and to the database otherwise.
   */
  function DoRequest(h: Host, q: Request, s: State): (r: Res)
    requires Valid(h, s)
    ensures Good(h, s, r)
  {
    if !h.hasDb then Res(Err(TypeError), s)
    else if h.rejects(q).Some? then Res(Err(Fault(h.rejects(q).value)), s)
    else
      RequestHonest(h, q, s.tx, s.world);
      var out := OutcomeOf(h.answers(s.world.log, q));
      Res(out, s.(tx := TxAfter(q, s.tx), world := WorldAfter(h, q, s.tx, s.world)))
  }

  function TxAfter(q: Request, tx: Option<Batch>): Option<Batch> {
    if tx.Some? then Some(tx.value + [q]) else None
  }

  function WorldAfter(h: Host, q: Request, tx: Option<Batch>, w: World): World {
    World(w.start, if tx.Some? then w.db else h.effect(w.db, q), w.log + [Did(q)])
  }

  lemma RequestHonest(h: Host, q: Request, tx: Option<Batch>, w: World)
    requires Honest(h, tx, w)
    ensures Honest(h, TxAfter(q, tx), WorldAfter(h, q, tx, w))
  {
    BookPush(w.log, Did(q));
    if tx.None? {
      ApplyBatch(h, w.start, Book(w.log).kept, [q]);
      ApplyOne(h, w.db, q);
    }
  }

  /** A call of a namespace that acts on the outside. */
  function CallNamespace(h: Host, ns: string, selector: string, args: seq<Value>, s: State): (r: Res)
    requires Valid(h, s)
    ensures Good(h, s, r)
  {
    BookPush(s.world.log, Called(ns, selector, args));
    Res(OutcomeOf(h.namespaceAnswers(s.world.log, ns, selector, args)), Log(s, Called(ns, selector, args)))
  }

  /** The outcome of `begin`: a transaction without requests so far, or an error. */
  function Begin(h: Host, s: State): (r: Res)
    requires Valid(h, s) && !s.insideTx
    ensures r.out.Ok? ==> r.s == Log(s, Began).(tx := Some([]), insideTx := true) && Valid(h, r.s)
    ensures r.out.Err? ==> Good(h, s, r) && r.s == Log(s, BeginFailed)
  {
    if h.beginSucceeds(s.world.log) then
      BookPush(s.world.log, Began);
      Res(Ok(Null), Log(s, Began).(tx := Some([]), insideTx := true))
    else
      BookPush(s.world.log, BeginFailed);
      Res(Err(TypeError), Log(s, BeginFailed))
  }

  /** Ends the open transaction, which is taken from the holder first. */
  function Rollback(h: Host, s: State): (s': State)
    requires Valid(h, s) && s.insideTx
    ensures Valid(h, s') && s' == Log(s, RolledBack).(tx := None, insideTx := false)
  {
    BookPush(s.world.log, RolledBack);
    Log(s, RolledBack).(tx := None, insideTx := false)
  }

  function Commit(h: Host, s: State): (r: Res)
    requires Valid(h, s) && s.insideTx
    ensures Valid(h, r.s) && !r.s.insideTx && !IsHttp(r.out)
    ensures r.s.env == s.env && r.s.depth == s.depth && r.s.module_ == s.module_
    ensures r.s.frames == s.frames && r.s.replies == s.replies && r.s.dropped == s.dropped
    ensures r.s.world.start == s.world.start
    ensures if r.out.Ok? then
              r.s.world.db == ApplyAll(h, s.world.db, s.tx.value) && r.s.world.log == s.world.log + [Committed]
            else r.s.world.db == s.world.db && r.s.world.log == s.world.log + [CommitFailed]
  {
    if h.commitSucceeds(s.world.log) then
      BookPush(s.world.log, Committed);
      ApplyBatch(h, s.world.start, Book(s.world.log).kept, s.tx.value);
      Res(Ok(Null), s.(tx := None, insideTx := false,
          world := World(s.world.start, ApplyAll(h, s.world.db, s.tx.value), s.world.log + [Committed])))
    else
      BookPush(s.world.log, CommitFailed);
      Res(Err(TypeError), Log(s, CommitFailed).(tx := None, insideTx := false))
  }

  // --- Small steps ---

  function Respond(s: State, response: Response): Res {
    Res(Err(Http(response)), s.(replies := s.replies + [response]))
  }

  /** A status is cut to 16 bits. */
  function Status(n: int): nat {
    n % 0x1_0000
  }

  function CoerceAll(h: Host, m: Option<string>, params: seq<Param>, args: seq<Value>): (r: Option<seq<Value>>)
    requires |params| == |args|
    ensures r.Some? ==> |r.value| == |args|
  {
    if params == [] then Some([])
    else
      var first := if params[0].schema.None? then Some(args[0]) else h.coerce(m, params[0].schema.value, args[0]);
      var rest := CoerceAll(h, m, params[1..], args[1..]);
      if first.Some? && rest.Some? then Some([first.value] + rest.value) else None
  }

  function Bind(e: Env<Value>, params: seq<Param>, args: seq<Value>): (r: Env<Value>)
    requires |params| == |args|
    ensures r.base == e.base && |r.scopes| == |e.scopes|
    decreases |params|
  {
    if params == [] then e else Bind(Set(e, params[0].name, args[0]), params[1..], args[1..])
  }

  predicate HasRescue(stages: seq<Stage>) {
    exists i :: 0 <= i < |stages| && !stages[i].ExprStage?
  }

  /** The environment of a rescue handler: one more scope, with the error in it. */
  function WithError(h: Host, env: Env<Value>, e: Error): Env<Value> {
    Set(Push(env), "error", h.errorValue(e))
  }

  /** What `ns.name` stands for as a task, when `ns` is a file namespace and not a variable. */
  function NamespaceTask(h: Host, env: Env<Value>, ns: Expr, name: string): Option<Value> {
    if ns.Ident? && Get(env, ns.name).None? && h.hasRuntime then h.moduleTask(ns.name, name) else None
  }

  predicate IsUnboundNamespace(h: Host, env: Env<Value>, e: Expr) {
    e.Ident? && Get(env, e.name).None? && h.hasRuntime && h.isNamespace(e.name)
  }

  /** Methods of a table and native queries are requests to the database. */
  predicate IsRequest(receiver: Value, selector: string) {
    receiver.Table? || (receiver == Namespace("db") && selector == "native_query")
  }

  /** The other receivers whose methods act on the outside. */
  predicate Acts(receiver: Value) {
    || receiver.Collection?
    || (receiver.Namespace?
        && (receiver.name == "doc" || receiver.name == "cache" || receiver.name == "http_client"
            || receiver.name == "fs" || receiver.name == "log"))
  }

  /** `db.name` is a table and `doc.name` a collection; everything else is for the host. */
  function Operate(h: Host, op: Operator, operands: seq<Value>): Answer {
    if op.Property? && operands == [Namespace("db")] then Yields(Table(op.name))
    else if op.Property? && operands == [Namespace("doc")] then Yields(Collection(op.name))
    else h.operate(op, operands)
  }

  /** A method of an evaluated receiver on evaluated arguments. */
  function Invoke(h: Host, receiver: Value, selector: string, args: seq<Value>, s: State): (r: Res)
    requires Valid(h, s)
    ensures Good(h, s, r) && r.s.env == s.env && r.s.frames == s.frames && r.s.replies == s.replies
  {
    if IsRequest(receiver, selector) then
      DoRequest(h, Request(if receiver.Table? then receiver.name else "", selector, args), s)
    else if Acts(receiver) then CallNamespace(h, receiver.name, selector, args, s)
    else Res(OutcomeOf(h.callMethod(receiver, selector, args)), s)
  }

  // --- Purity of broadcast branches ---

  /** Conservative: what is not provably pure counts as having side effects. */
  predicate HasSideEffects(e: Expr) {
    match e
    case IntLit(_) => false
    case BoolLit(_) => false
    case StrLit(_) => false
    case NullLit => false
    case Ident(n) => n == "db" || n == "doc" || n == "cache" || n == "queue" || n == "http_client"
    case ListLit(items) => AnyHasSideEffects(items)
    case And(l, r) => HasSideEffects(l) || HasSideEffects(r)
    case Or(l, r) => HasSideEffects(l) || HasSideEffects(r)
    case Apply(_, operands) => AnyHasSideEffects(operands)
    case MethodCall(recv, _, args) => HasSideEffects(recv) || AnyHasSideEffects(args)
    case _ => true
  }

  predicate AnyHasSideEffects(es: seq<Expr>) {
    es != [] && (HasSideEffects(es[0]) || AnyHasSideEffects(es[1..]))
  }

  predicate BodyIsPure(b: Body) {
    match b
    case Inline(e) => !HasSideEffects(e)
    case Block(stmts, ret) => stmts == [] && !HasSideEffects(ret)
  }

  predicate IsFetch(name: string) {
    name == "fetch" || name == "fetch_one"
  }

  predicate IsPureTask(v: Option<Value>) {
    v.Some? && v.value.Task? && BodyIsPure(v.value.body)
  }

  predicate BranchIsPure(h: Host, env: Env<Value>, target: Expr) {
    match target
    case Ident(name) => !IsFetch(name) && IsPureTask(Get(env, name))
    case Apply(op, operands) =>
      op.Property? && |operands| == 1 && IsPureTask(NamespaceTask(h, env, operands[0], op.name))
    case _ => false
  }

  predicate BranchesArePure(h: Host, env: Env<Value>, targets: seq<Expr>) {
    forall i :: 0 <= i < |targets| ==> BranchIsPure(h, env, targets[i])
  }

  // --- Broadcast results ---

  /** The results in declaration order, or the first error in declaration order. */
  function Collect(outs: seq<Outcome>): Outcome
    decreases |outs|
  {
    if outs == [] then Ok(List([]))
    else if outs[0].Err? then outs[0]
    else
      var rest := Collect(outs[1..]);
      if rest.Ok? && rest.value.List? then Ok(List([outs[0].value] + rest.value.items)) else rest
  }

  lemma {:induction false} CollectList(outs: seq<Outcome>)
    ensures Collect(outs).Ok? ==> Collect(outs).value.List?
    decreases |outs|
  {
    if outs != [] {
      CollectList(outs[1..]);
    }
  }

  /** A branch of the fast path runs on a clone: only what it did to the outside is seen. */
  function Join(s: State, a: Res): Res {
    Res(a.out, s.(world := a.s.world, replies := a.s.replies, dropped := a.s.dropped))
  }

  /** The state in which branch `i` starts: a clone on a history of its own. */
  function Fork(s: State, i: nat): State {
    Log(s, Forked(i)).(dropped := [])
  }

  lemma ForkValid(h: Host, s: State, i: nat)
    requires Valid(h, s) && !s.insideTx
    ensures Valid(h, Fork(s, i))
  {
    BookPush(s.world.log, Forked(i));
  }

  /** What a branch that started behind `n` events did itself. */
  function Own(n: nat, r: Res): Branch {
    Branch(if n + 1 <= |r.s.world.log| then r.s.world.log[n + 1..] else [])
  }

  function OwnAll(n: nat, rs: seq<Res>): (bs: seq<Branch>)
    ensures |bs| == |rs| && forall i :: 0 <= i < |bs| ==> bs[i] == Own(n, rs[i])
  {
    seq(|rs|, i requires 0 <= i < |rs| => Own(n, rs[i]))
  }

  function Outs(rs: seq<Res>): (outs: seq<Outcome>)
    ensures |outs| == |rs| && forall i :: 0 <= i < |outs| ==> outs[i] == rs[i].out
  {
    seq(|rs|, i requires 0 <= i < |rs| => rs[i].out)
  }

  predicate AllSilent(bs: seq<Branch>) {
    forall i :: 0 <= i < |bs| ==> bs[i].events == []
  }

  /** The responses that branches made and that are not the result: all but that of the first error. */
  function Lost(rs: seq<Res>, chosen: bool): seq<Response>
    decreases |rs|
  {
    if rs == [] then []
    else
      rs[0].s.dropped
      + (if IsHttp(rs[0].out) && chosen then [rs[0].out.error.response] else [])
      + Lost(rs[1..], chosen || rs[0].out.Err?)
  }

  /** The world after parallel branches: their effects in the order of the host. */
  function After(h: Host, bs: seq<Branch>, w: World): World {
    if AllSilent(bs) then w
    else
      var order := h.schedule(w.log, bs);
      var kepts := BookAll(bs);
      World(w.start, if kepts.Some? then ApplyBatches(h, w.db, Merge(kepts.value, order)) else w.db,
            w.log + [Joined(bs, order)])
  }

  function Shift(k: seq<Batch>, l: Ledger): Ledger {
    if l.Broken? then Broken else Ledger(k + l.kept, l.open)
  }

  lemma EnterShift(k: seq<Batch>, l: Ledger, e: Event)
    ensures Enter(Shift(k, l), e) == Shift(k, Enter(l, e))
  {
    if l.Ledger? {
      match e
      case Did(r) => assert k + (l.kept + [[r]]) == k + l.kept + [[r]];
      case Committed =>
        if l.open.Some? {
          assert k + (l.kept + [l.open.value]) == k + l.kept + [l.open.value];
        }
      case Joined(branches, order) =>
        if BookAll(branches).Some? {
          var m := Merge(BookAll(branches).value, order);
          assert k + (l.kept + m) == k + l.kept + m;
        }
      case _ =>
    }
  }

  /** A history that goes on from a closed one amounts to both parts, one after the other. */
  lemma {:induction false} BookShift(pre: seq<Event>, own: seq<Event>)
    requires Book(pre).Ledger? && Book(pre).open.None?
    ensures Book(pre + own) == Shift(Book(pre).kept, Book(own))
    decreases |own|
  {
    var k := Book(pre).kept;
    if own == [] {
      assert pre + own == pre && k + [] == k;
    } else {
      var init, e := own[..|own| - 1], own[|own| - 1];
      assert (pre + own)[..|pre + own| - 1] == pre + init;
      BookShift(pre, init);
      EnterShift(k, Book(init), e);
    }
  }

  /** A branch has closed its brackets by the time it is done. */
  lemma OwnCloses(h: Host, s: State, i: nat, r: Res)
    requires Valid(h, s) && !s.insideTx && Valid(h, Fork(s, i)) && Good(h, Fork(s, i), r)
    ensures var l := BookBranch(Own(|s.world.log|, r)); l.Ledger? && l.open.None?
  {
    var pre, own := Fork(s, i).world.log, Own(|s.world.log|, r).events;
    assert r.s.world.log == pre + own;
    BookShift(pre, own);
  }

  lemma {:induction false} AllClose(bs: seq<Branch>)
    requires forall i :: 0 <= i < |bs| ==> BookBranch(bs[i]).Ledger? && BookBranch(bs[i]).open.None?
    ensures BookAll(bs).Some?
    decreases |bs|
  {
    if bs != [] {
      AllClose(bs[1..]);
    }
  }

  lemma AfterHonest(h: Host, bs: seq<Branch>, w: World)
    requires Honest(h, None, w) && BookAll(bs).Some?
    ensures Honest(h, None, After(h, bs, w)) && w.log <= After(h, bs, w).log && After(h, bs, w).start == w.start
  {
    if !AllSilent(bs) {
      JoinHonest(h, bs, h.schedule(w.log, bs), w);
    }
  }

  lemma JoinHonest(h: Host, bs: seq<Branch>, order: seq<nat>, w: World)
    requires Honest(h, None, w) && BookAll(bs).Some?
    ensures Honest(h, None, World(w.start, ApplyBatches(h, w.db, Merge(BookAll(bs).value, order)),
                                  w.log + [Joined(bs, order)]))
  {
    var l, m := Book(w.log), Merge(BookAll(bs).value, order);
    BookPush(w.log, Joined(bs, order));
    assert Enter(l, Joined(bs, order)) == Ledger(l.kept + m, None);
    ApplyConcat(h, w.start, l.kept, m);
  }

  // --- Expressions ---

  const MAX_ITERATIONS := 10_000

  function Eval(h: Host, e: Expr, s: State): (r: Res)
    requires Valid(h, s)
    ensures Good(h, s, r)
    decreases h.maxDepth - s.depth, 1, e, 1
  {
    match e
    case IntLit(n) => Res(Ok(Int(n)), s)
    case BoolLit(b) => Res(Ok(Bool(b)), s)
    case StrLit(t) => Res(Ok(Str(t)), s)
    case NullLit => Res(Ok(Null), s)
    case Ident(name) => EvalIdent(h, name, s)
    case ListLit(items) => EvalAll(h, items, s)
    case And(left, right) => EvalLogical(h, e, s)
    case Or(left, right) => EvalLogical(h, e, s)
    case Apply(op, operands) => EvalApply(h, e, s)
    case MethodCall(recv, sel, args) => EvalMethod(h, e, s)
    case Call(name, args) => EvalCall(h, e, s)
    case If(cond, thenBranch, elseBranch) => EvalIf(h, e, s)
    case Match(subject, arms) => EvalMatch(h, e, s)
    case Pipeline(input, stages) => EvalPipeline(h, e, s)
    case Rescue(expr, handler) => EvalRescue(h, e, s)
    case Broadcast(input, targets) => EvalBroadcast(h, e, s)
  }

  function EvalIdent(h: Host, name: string, s: State): (r: Res)
    requires Valid(h, s)
    ensures Good(h, s, r) && r.s == s
  {
    if IsReserved(name) then Res(Ok(Namespace(name)), s)
    else if Get(s.env, name).Some? then Res(Ok(Get(s.env, name).value), s)
    else Res(Err(UndefinedVariable(name)), s)
  }

  function EvalLogical(h: Host, e: Expr, s: State): (r: Res)
    requires Valid(h, s) && (e.And? || e.Or?)
    ensures Good(h, s, r)
    decreases h.maxDepth - s.depth, 1, e, 0
  {
    var a := Eval(h, e.left, s);
    if a.out.Err? || Truthy(a.out.value) == e.Or? then a else Eval(h, e.right, a.s)
  }

  function EvalApply(h: Host, e: Expr, s: State): (r: Res)
    requires Valid(h, s) && e.Apply?
    ensures Good(h, s, r)
    decreases h.maxDepth - s.depth, 1, e, 0
  {
    var a := EvalAll(h, e.operands, s);
    if a.out.Err? then a else Res(OutcomeOf(Operate(h, e.op, a.out.value.items)), a.s)
  }

  function EvalCall(h: Host, e: Expr, s: State): (r: Res)
    requires Valid(h, s) && e.Call?
    ensures Good(h, s, r)
    decreases h.maxDepth - s.depth, 1, e, 0
  {
    var a := EvalAll(h, e.args, s);
    if a.out.Err? then a else CallFunction(h, e.task, a.out.value.items, a.s)
  }

  function EvalIf(h: Host, e: Expr, s: State): (r: Res)
    requires Valid(h, s) && e.If?
    ensures Good(h, s, r)
    decreases h.maxDepth - s.depth, 1, e, 0
  {
    var c := Eval(h, e.cond, s);
    if c.out.Err? then c
    else if Truthy(c.out.value) then EvalBranch(h, e.thenBranch, c.s)
    else match e.elseBranch
      case Some(b) => EvalBranch(h, b, c.s)
      case None => Res(Ok(Null), c.s)
  }

  function EvalMatch(h: Host, e: Expr, s: State): (r: Res)
    requires Valid(h, s) && e.Match?
    ensures Good(h, s, r)
    decreases h.maxDepth - s.depth, 1, e, 0
  {
    var v := Eval(h, e.subject, s);
    if v.out.Err? then v else EvalArms(h, v.out.value, e.arms, v.s)
  }

  function EvalPipeline(h: Host, e: Expr, s: State): (r: Res)
    requires Valid(h, s) && e.Pipeline?
    ensures Good(h, s, r)
    decreases h.maxDepth - s.depth, 1, e, 0
  {
    var v := Eval(h, e.input, s);
    if HasRescue(e.stages) then Railway(h, v, e.stages, s)
    else if v.out.Err? then v
    else RunStages(h, v.out.value, e.stages, v.s)
  }

  /** The state a rescue handler starts from: frames of the failed part are dropped. */
  function Rescued(h: Host, failed: State, e: Error, frames: nat): State
    requires frames <= |failed.frames|
  {
    failed.(frames := failed.frames[..frames], env := WithError(h, failed.env, e))
  }

  /** The scope of the handler is popped, whatever the handler did. */
  function Unscoped(a: Res): Res {
    Res(a.out, a.s.(env := Pop(a.s.env)))
  }

  lemma RescuedGood(h: Host, s: State, a: Res, b: Res)
    requires Good(h, s, a) && a.out.Err? && !IsHttp(a.out)
    ensures Valid(h, Rescued(h, a.s, a.out.error, |s.frames|))
    ensures Good(h, Rescued(h, a.s, a.out.error, |s.frames|), b) ==> Good(h, s, Unscoped(b))
  {
  }

  function EvalRescue(h: Host, e: Expr, s: State): (r: Res)
    requires Valid(h, s) && e.Rescue?
    ensures Good(h, s, r)
    decreases h.maxDepth - s.depth, 1, e, 0
  {
    var a := Eval(h, e.expr, s);
    if a.out.Ok? || IsHttp(a.out) then a
    else
      RescuedGood(h, s, a, a);
      var b := Eval(h, e.handler, Rescued(h, a.s, a.out.error, |s.frames|));
      RescuedGood(h, s, a, b);
      Unscoped(b)
  }

  function EvalBroadcast(h: Host, e: Expr, s: State): (r: Res)
    requires Valid(h, s) && e.Broadcast?
    ensures Good(h, s, r)
    decreases h.maxDepth - s.depth, 1, e, 0
  {
    if s.insideTx then Res(Err(TypeError), s)
    else
      var v := Eval(h, e.input, s);
      if v.out.Err? then v
      else if BranchesArePure(h, v.s.env, e.targets) then InSequence(h, v.out.value, e.targets, v.s)
      else InParallel(h, v.out.value, e.targets, v.s)
  }

  /** Operands from left to right, up to the first error; the values as a list. */
  function EvalAll(h: Host, es: seq<Expr>, s: State): (r: Res)
    requires Valid(h, s)
    ensures Good(h, s, r)
    ensures r.out.Ok? ==> r.out.value.List? && |r.out.value.items| == |es|
    decreases h.maxDepth - s.depth, 1, es, 0
  {
    if es == [] then Res(Ok(List([])), s)
    else
      var a := Eval(h, es[0], s);
      if a.out.Err? then a
      else
        var b := EvalAll(h, es[1..], a.s);
        if b.out.Err? then b else Res(Ok(List([a.out.value] + b.out.value.items)), b.s)
  }

  /** `file.task(args)` calls a task of another file unless `file` is a variable. */
  function EvalMethod(h: Host, e: Expr, s: State): (r: Res)
    requires Valid(h, s) && e.MethodCall?
    ensures Good(h, s, r)
    decreases h.maxDepth - s.depth, 1, e, 0
  {
    var task := NamespaceTask(h, s.env, e.receiver, e.selector);
    if task.Some? then
      var a := EvalAll(h, e.args, s);
      if a.out.Err? then a else CallTask(h, task.value, a.out.value.items, e.selector, a.s)
    else if IsUnboundNamespace(h, s.env, e.receiver) then Res(Err(UndefinedTask(e.receiver.name + "." + e.selector)), s)
    else
      var o := Eval(h, e.receiver, s);
      if o.out.Err? then o else OnReceiver(h, o.out.value, e.selector, e.args, o.s)
  }

  /** The part of a method call behind its receiver. */
  function OnReceiver(h: Host, receiver: Value, selector: string, args: seq<Expr>, s: State): (r: Res)
    requires Valid(h, s)
    ensures Good(h, s, r)
    decreases h.maxDepth - s.depth, 1, args, 2
  {
    if IsRequest(receiver, selector) && !h.hasDb then Res(Err(TypeError), s)
    else InvokeOn(h, receiver, selector, args, s)
  }

  function InvokeOn(h: Host, receiver: Value, selector: string, args: seq<Expr>, s: State): (r: Res)
    requires Valid(h, s)
    ensures Good(h, s, r)
    decreases h.maxDepth - s.depth, 1, args, 1
  {
    var a := EvalAll(h, args, s);
    if a.out.Err? then a
    else
      var r := Invoke(h, receiver, selector, a.out.value.items, a.s);
      GoodTrans(h, s, a, r);
      r
  }

  function EvalArms(h: Host, subject: Value, arms: seq<Arm>, s: State): (r: Res)
    requires Valid(h, s)
    ensures Good(h, s, r)
    decreases h.maxDepth - s.depth, 1, arms, 0
  {
    if arms == [] then Res(Ok(Null), s)
    else
      var p := EvalPattern(h, subject, arms[0], s);
      if p.out.Err? then p
      else if Truthy(p.out.value) then EvalArm(h, arms[0], p.s)
      else EvalArms(h, subject, arms[1..], p.s)
  }

  /** Whether the arm applies: the fallback always does, a pattern if it equals the subject. */
  function EvalPattern(h: Host, subject: Value, arm: Arm, s: State): (r: Res)
    requires Valid(h, s)
    ensures Good(h, s, r)
    decreases h.maxDepth - s.depth, 1, arm, 0
  {
    match arm.pattern
    case None => Res(Ok(Bool(true)), s)
    case Some(pattern) =>
      var p := Eval(h, pattern, s);
      if p.out.Err? then p else Res(Ok(Bool(p.out.value == subject)), p.s)
  }

  function EvalArm(h: Host, arm: Arm, s: State): (r: Res)
    requires Valid(h, s)
    ensures Good(h, s, r)
    decreases h.maxDepth - s.depth, 1, arm, 0
  {
    Eval(h, arm.value, s)
  }

  /** Branches of `if` run in a copy of the environment. */
  function EvalBranch(h: Host, body: Body, s: State): (r: Res)
    requires Valid(h, s)
    ensures Good(h, s, r) && r.s.env == s.env
    decreases h.maxDepth - s.depth, 1, body, 1
  {
    var r := RunBody(h, body, s);
    Res(r.out, r.s.(env := s.env))
  }

  function RunBody(h: Host, body: Body, s: State): (r: Res)
    requires Valid(h, s)
    ensures Good(h, s, r)
    decreases h.maxDepth - s.depth, 1, body, 0
  {
    match body
    case Inline(e) => Eval(h, e, s)
    case Block(stmts, ret) =>
      var b := ExecBlock(h, stmts, s);
      if b.out.Err? then b else Eval(h, ret, b.s)
  }

  // --- Pipelines ---

  function RunStages(h: Host, v: Value, stages: seq<Stage>, s: State): (r: Res)
    requires Valid(h, s)
    ensures Good(h, s, r)
    decreases h.maxDepth - s.depth, 1, stages, 0
  {
    if stages == [] then Res(Ok(v), s)
    else if stages[0].ExprStage? then
      var a := RunStage(h, v, stages[0], s);
      if a.out.Err? then a else RunStages(h, a.out.value, stages[1..], a.s)
    else RunStages(h, v, stages[1..], s)
  }

  /** With a rescue stage, an error travels past the stages until a rescue takes it. */
  function Railway(h: Host, current: Res, stages: seq<Stage>, entry: State): (r: Res)
    requires Valid(h, entry) && Good(h, entry, current)
    ensures Good(h, entry, r)
    decreases h.maxDepth - entry.depth, 1, stages, 2
  {
    if stages == [] || (IsHttp(current.out) && !stages[0].ExprStage?) then current
    else Railway(h, Travel(h, current, stages[0], entry), stages[1..], entry)
  }

  /** One stage: a value runs through it unless it is a rescue, an error only into a rescue. */
  function Travel(h: Host, current: Res, stage: Stage, entry: State): (r: Res)
    requires Valid(h, entry) && Good(h, entry, current)
    requires stage.ExprStage? || !IsHttp(current.out)
    ensures Good(h, entry, r)
    decreases h.maxDepth - entry.depth, 1, stage, 1
  {
    if stage.ExprStage? != current.out.Ok? then current
    else if current.out.Ok? then
      var a := RunStage(h, current.out.value, stage, current.s);
      GoodTrans(h, entry, current, a);
      a
    else
      RescuedGood(h, entry, current, current);
      var a := RunHandler(h, stage, Rescued(h, current.s, current.out.error, |entry.frames|));
      RescuedGood(h, entry, current, a);
      Unscoped(a)
  }

  function RunStage(h: Host, v: Value, stage: Stage, s: State): (r: Res)
    requires Valid(h, s) && stage.ExprStage?
    ensures Good(h, s, r)
    decreases h.maxDepth - s.depth, 1, stage, 0
  {
    ApplyStage(h, v, stage.expr, s)
  }

  function RunHandler(h: Host, stage: Stage, s: State): (r: Res)
    requires Valid(h, s) && !stage.ExprStage?
    ensures Good(h, s, r)
    decreases h.maxDepth - s.depth, 1, stage, 0
  {
    match stage
    case RescueInline(e) => Eval(h, e, s)
    case RescueBlock(stmts) => ExecBlock(h, stmts, s)
  }

  function ApplyStage(h: Host, v: Value, e: Expr, s: State): (r: Res)
    requires Valid(h, s)
    ensures Good(h, s, r)
    decreases h.maxDepth - s.depth, 1, e, 2
  {
    match e
    case Ident(name) =>
      if IsFetch(name) then Res(Err(TypeError), s)
      else if Get(s.env, name).Some? && Get(s.env, name).value.Task? then
        CallOnEach(h, Get(s.env, name).value, v, name, s)
      else Eval(h, e, s)
    case Call(name, args) => OnFunction(h, name, [v], args, s)
    case Apply(Property(name), operands) =>
      if |operands| == 1 && NamespaceTask(h, s.env, operands[0], name).Some? then
        CallOnEach(h, NamespaceTask(h, s.env, operands[0], name).value, v, name, s)
      else Eval(h, e, s)
    case MethodCall(recv, sel, args) =>
      if StageTakesInput(recv, sel) then WithInput(h, v, recv.name, sel, args, s)
      else if NamespaceTask(h, s.env, recv, sel).Some? then
        OnTask(h, NamespaceTask(h, s.env, recv, sel).value, [v], sel, args, s)
      else Eval(h, e, s)
    case _ => Eval(h, e, s)
  }

  /** Branches of these namespaces get the input as their first argument. */
  predicate BranchTakesInput(receiver: Expr) {
    && receiver.Ident?
    && (receiver.name == "fs" || receiver.name == "json" || receiver.name == "base64" || receiver.name == "log"
        || receiver.name == "math")
  }

  predicate StageTakesInput(receiver: Expr, selector: string) {
    || BranchTakesInput(receiver)
    || (receiver.Ident? && (receiver.name == "http_client" || (receiver.name == "cache" && selector == "set")))
  }

  function WithInput(h: Host, v: Value, ns: string, selector: string, args: seq<Expr>, s: State): (r: Res)
    requires Valid(h, s)
    ensures Good(h, s, r)
    decreases h.maxDepth - s.depth, 1, args, 2
  {
    if ns == "cache" then CacheSet(h, v, args, s) else OnNamespace(h, v, ns, selector, args, s)
  }

  /** The input comes first, for `http_client` as a body behind the arguments. */
  function OnNamespace(h: Host, v: Value, ns: string, selector: string, args: seq<Expr>, s: State): (r: Res)
    requires Valid(h, s)
    ensures Good(h, s, r)
    decreases h.maxDepth - s.depth, 1, args, 1
  {
    var a := EvalAll(h, args, s);
    if a.out.Err? then a
    else
      var all := if ns == "http_client" then a.out.value.items + [v] else [v] + a.out.value.items;
      var r := Invoke(h, Namespace(ns), selector, all, a.s);
      GoodTrans(h, s, a, r);
      r
  }

  /** `cache.set(key)` stores the input and passes it on. */
  function CacheSet(h: Host, v: Value, args: seq<Expr>, s: State): (r: Res)
    requires Valid(h, s)
    ensures Good(h, s, r)
    decreases h.maxDepth - s.depth, 1, args, 1
  {
    if args == [] then Res(Err(TypeError), s)
    else
      var key := Eval(h, args[0], s);
      if key.out.Err? then key
      else
        var r := Stored(v, Invoke(h, Namespace("cache"), "set", [key.out.value, v], key.s));
        GoodTrans(h, s, key, r);
        r
  }

  function Stored(v: Value, r: Res): Res {
    if r.out.Err? then r else Res(Ok(v), r.s)
  }

  /** A task on some values and the arguments behind them. */
  function OnTask(h: Host, task: Value, first: seq<Value>, name: string, args: seq<Expr>, s: State): (r: Res)
    requires Valid(h, s)
    ensures Good(h, s, r)
    decreases h.maxDepth - s.depth, 1, args, 1
  {
    var a := EvalAll(h, args, s);
    if a.out.Err? then a else CallTask(h, task, first + a.out.value.items, name, a.s)
  }

  /** A named function on some values and the arguments behind them. */
  function OnFunction(h: Host, name: string, first: seq<Value>, args: seq<Expr>, s: State): (r: Res)
    requires Valid(h, s)
    ensures Good(h, s, r)
    decreases h.maxDepth - s.depth, 1, args, 1
  {
    var a := EvalAll(h, args, s);
    if a.out.Err? then a else CallFunction(h, name, first + a.out.value.items, a.s)
  }

  /** A task stage iterates over a list and takes any other value whole. */
  function CallOnEach(h: Host, task: Value, v: Value, name: string, s: State): (r: Res)
    requires Valid(h, s)
    ensures Good(h, s, r)
    decreases h.maxDepth - s.depth, 0, 3
  {
    if v.List? then CallMany(h, task, v.items, name, s) else CallTask(h, task, [v], name, s)
  }

  function CallMany(h: Host, task: Value, items: seq<Value>, name: string, s: State): (r: Res)
    requires Valid(h, s)
    ensures Good(h, s, r)
    ensures r.out.Ok? ==> r.out.value.List? && |r.out.value.items| == |items|
    decreases h.maxDepth - s.depth, 0, 2, |items|
  {
    if items == [] then Res(Ok(List([])), s)
    else
      var a := CallTask(h, task, [items[0]], name, s);
      if a.out.Err? then a
      else
        var b := CallMany(h, task, items[1..], name, a.s);
        if b.out.Err? then b else Res(Ok(List([a.out.value] + b.out.value.items)), b.s)
  }

  // --- Calls ---

  function CallFunction(h: Host, name: string, args: seq<Value>, s: State): (r: Res)
    requires Valid(h, s)
    ensures Good(h, s, r)
    decreases h.maxDepth - s.depth, 0, 2
  {
    if name == "__fail__" then
      var status := if |args| > 0 && args[0].Int? then Status(args[0].n) else 500;
      Respond(s, Response(status, if |args| > 1 then args[1] else Null, Null, true))
    else if h.builtin(name, args).Some? then Res(OutcomeOf(h.builtin(name, args).value), s)
    else if Get(s.env, name).Some? then CallTask(h, Get(s.env, name).value, args, name, s)
    else Res(Err(UndefinedTask(name)), s)
  }

  function CallTask(h: Host, task: Value, args: seq<Value>, callName: string, s: State): (r: Res)
    requires Valid(h, s)
    ensures Good(h, s, r)
    decreases h.maxDepth - s.depth, 0, 1
  {
    if !task.Task? then Res(Err(NotCallable(callName)), s)
    else if |task.params| != |args| then Res(Err(WrongArity(task.name)), s)
    else
      var coerced := CoerceAll(h, if task.owner.Some? then task.owner else s.module_, task.params, args);
      if coerced.None? then Res(Err(TypeError), s)
      else if s.depth >= h.maxDepth then Res(Err(RecursionLimit), s)
      else if task.owner.Some? && s.module_ != task.owner then CallForked(h, task, coerced.value, s)
      else CallLocal(h, task, coerced.value, s)
  }

  function CalleeState(task: Value, args: seq<Value>, s: State): State
    requires task.Task? && |task.params| == |args|
  {
    s.(depth := s.depth + 1, frames := s.frames + [task.name], env := Bind(Push(s.env), task.params, args))
  }

  /** A call in the same module: one more scope, one more frame, one more level of depth. */
  function CallLocal(h: Host, task: Value, args: seq<Value>, s: State): (r: Res)
    requires Valid(h, s) && s.depth < h.maxDepth && task.Task? && |task.params| == |args|
    ensures Good(h, s, r)
    decreases h.maxDepth - s.depth, 0, 0
  {
    var a := RunBody(h, task.body, CalleeState(task, args, s));
    var frames := if a.out.Ok? then a.s.frames[..|s.frames|] else a.s.frames;
    Res(a.out, a.s.(env := Pop(a.s.env), frames := frames, depth := a.s.depth - 1))
  }

  /** The environment of the owning module, below the caller's local variables and the parameters. */
  function ForkState(h: Host, task: Value, args: seq<Value>, s: State): State
    requires task.Task? && |task.params| == |args|
  {
    s.(depth := s.depth + 1, frames := s.frames + [task.name], module_ := task.owner,
       env := Bind(ForkEnv(h, task, s.env), task.params, args))
  }

  function ForkEnv(h: Host, task: Value, env: Env<Value>): Env<Value>
    requires task.Task?
  {
    var base := if h.hasRuntime && task.owner.Some? then h.moduleEnv(task.owner.value) else env;
    Push(base.(scopes := base.scopes + [LocalVariables(env)]))
  }

  /** A call into another module runs on a fork that shares the open transaction. */
  function CallForked(h: Host, task: Value, args: seq<Value>, s: State): (r: Res)
    requires Valid(h, s) && s.depth < h.maxDepth && task.Task? && |task.params| == |args|
    ensures Good(h, s, r) && r.s.env == s.env
    decreases h.maxDepth - s.depth, 0, 0
  {
    var a := RunBody(h, task.body, ForkState(h, task, args, s));
    Res(a.out, s.(world := a.s.world, tx := a.s.tx, replies := a.s.replies, dropped := a.s.dropped,
                  frames := if a.out.Ok? then s.frames else a.s.frames))
  }

  // --- Broadcast ---

  /** Unlike a pipeline stage, a branch never iterates over a list. */
  function ApplyTarget(h: Host, v: Value, e: Expr, s: State): (r: Res)
    requires Valid(h, s)
    ensures Good(h, s, r)
    decreases h.maxDepth - s.depth, 1, e, 2
  {
    match e
    case Ident(name) =>
      if IsFetch(name) then Res(Err(TypeError), s)
      else if Get(s.env, name).Some? && Get(s.env, name).value.Task? then
        CallTask(h, Get(s.env, name).value, [v], name, s)
      else Eval(h, e, s)
    case Call(name, args) => OnFunction(h, name, [v], args, s)
    case Apply(Property(name), operands) =>
      if |operands| == 1 && NamespaceTask(h, s.env, operands[0], name).Some? then
        CallTask(h, NamespaceTask(h, s.env, operands[0], name).value, [v], name, s)
      else Eval(h, e, s)
    case MethodCall(recv, sel, args) =>
      if BranchTakesInput(recv) then WithInput(h, v, recv.name, sel, args, s)
      else if NamespaceTask(h, s.env, recv, sel).Some? then
        OnTask(h, NamespaceTask(h, s.env, recv, sel).value, [v], sel, args, s)
      else Eval(h, e, s)
    case _ => Eval(h, e, s)
  }

  /** The fast path: one branch after the other, up to the first error. */
  function InSequence(h: Host, v: Value, targets: seq<Expr>, s: State): (r: Res)
    requires Valid(h, s) && !s.insideTx
    ensures Good(h, s, r)
    ensures r.out.Ok? ==> r.out.value.List?
    decreases h.maxDepth - s.depth, 1, targets, 0
  {
    if targets == [] then Res(Ok(List([])), s)
    else
      var a := ApplyTarget(h, v, targets[0], s);
      var j := Join(s, a);
      if a.out.Err? then j
      else
        var b := InSequence(h, v, targets[1..], j.s);
        if b.out.Err? then b else Res(Ok(List([a.out.value] + b.out.value.items)), b.s)
  }

  /** All branches from number `i` on, each on its own history. */
  function RunBranches(h: Host, v: Value, targets: seq<Expr>, i: nat, s: State): (rs: seq<Res>)
    requires Valid(h, s) && !s.insideTx
    ensures |rs| == |targets|
    ensures AllGood(h, s, i, rs)
    decreases h.maxDepth - s.depth, 1, targets, 0
  {
    if targets == [] then []
    else
      ForkValid(h, s, i);
      var first, rest := ApplyTarget(h, v, targets[0], Fork(s, i)), RunBranches(h, v, targets[1..], i + 1, s);
      OneMoreGood(h, s, i, first, rest);
      [first] + rest
  }

  predicate GoodBranch(h: Host, s: State, i: nat, r: Res) {
    Valid(h, Fork(s, i)) && Good(h, Fork(s, i), r)
  }

  /** The results of the branches from number `i` on. */
  predicate AllGood(h: Host, s: State, i: nat, rs: seq<Res>) {
    forall k :: 0 <= k < |rs| ==> GoodBranch(h, s, i + k, rs[k])
  }

  lemma OneMoreGood(h: Host, s: State, i: nat, first: Res, rest: seq<Res>)
    requires GoodBranch(h, s, i, first) && AllGood(h, s, i + 1, rest)
    ensures AllGood(h, s, i, [first] + rest)
  {
    var rs := [first] + rest;
    forall k | 0 <= k < |rs| ensures GoodBranch(h, s, i + k, rs[k]) {
      if k > 0 {
        assert GoodBranch(h, s, i + 1 + (k - 1), rest[k - 1]);
      }
    }
  }

  /** The parallel path: every branch runs to its end. */
  function InParallel(h: Host, v: Value, targets: seq<Expr>, s: State): (r: Res)
    requires Valid(h, s) && !s.insideTx
    ensures Good(h, s, r)
    decreases h.maxDepth - s.depth, 1, targets, 1
  {
    var rs := RunBranches(h, v, targets, 0, s);
    Joins(h, s, rs);
    Gather(h, s, rs)
  }

  /** What the parent makes of its finished branches. */
  function Gather(h: Host, s: State, rs: seq<Res>): Res {
    var out := Collect(Outs(rs));
    Res(out, s.(world := After(h, OwnAll(|s.world.log|, rs), s.world),
                replies := if IsHttp(out) then s.replies + [out.error.response] else s.replies,
                dropped := s.dropped + Lost(rs, false)))
  }

  lemma Joins(h: Host, s: State, rs: seq<Res>)
    requires Valid(h, s) && !s.insideTx && AllGood(h, s, 0, rs)
    ensures Good(h, s, Gather(h, s, rs))
  {
    var bs := OwnAll(|s.world.log|, rs);
    forall k | 0 <= k < |bs| ensures BookBranch(bs[k]).Ledger? && BookBranch(bs[k]).open.None? {
      assert GoodBranch(h, s, 0 + k, rs[k]);
      OwnCloses(h, s, k, rs[k]);
    }
    AllClose(bs);
    AfterHonest(h, bs, s.world);
  }

  // --- Statements ---

  /** Statements in order, up to the first error; the value is that of the last one. */
  function ExecBlock(h: Host, stmts: seq<Stmt>, s: State): (r: Res)
    requires Valid(h, s)
    ensures Good(h, s, r)
    decreases h.maxDepth - s.depth, 1, stmts, 0
  {
    if stmts == [] then Res(Ok(Null), s)
    else
      var a := Exec(h, stmts[0], s);
      if a.out.Err? || |stmts| == 1 then a else ExecBlock(h, stmts[1..], a.s)
  }

  function Exec(h: Host, stmt: Stmt, s: State): (r: Res)
    requires Valid(h, s)
    ensures Good(h, s, r)
    decreases h.maxDepth - s.depth, 1, stmt, 2
  {
    match stmt
    case Assign(target, value) =>
      var a := Eval(h, value, s);
      if a.out.Err? then a else Res(Ok(Null), a.s.(env := Update(a.s.env, target, a.out.value)))
    case CondAssign(_, _, _) => ExecCondAssign(h, stmt, s)
    case Require(guard, code) =>
      var g := Eval(h, guard, s);
      if g.out.Err? then g else if Truthy(g.out.value) then Res(Ok(Null), g.s) else Res(Err(HttpError(code)), g.s)
    case Reject(guard, code) =>
      var g := Eval(h, guard, s);
      if g.out.Err? then g else if Truthy(g.out.value) then Res(Err(HttpError(code)), g.s) else Res(Ok(Null), g.s)
    case While(_, _) => ExecWhile(h, stmt, 0, s)
    case TaskDef(name, params, body) =>
      Res(Ok(Null), s.(env := Set(s.env, name, Task(name, params, body, s.module_))))
    case ExprStmt(e) => Eval(h, e, s)
    case Declaration => Res(Ok(Null), s)
    case Export(inner) => Exec(h, inner, s)
    case Transaction(body) => ExecTransaction(h, body, s)
    case Reply(status, content, headers) => ExecReply(h, stmt, s)
    case Fail(code, message) =>
      var m := Eval(h, message, s);
      if m.out.Err? then m else Respond(m.s, Response(Status(code), m.out.value, Null, true))
    case Raise(_, _) => ExecSignal(h, stmt, s)
    case Nack(_, _) => ExecSignal(h, stmt, s)
  }

  function ExecCondAssign(h: Host, stmt: Stmt, s: State): (r: Res)
    requires Valid(h, s) && stmt.CondAssign?
    ensures Good(h, s, r)
    decreases h.maxDepth - s.depth, 1, stmt, 1
  {
    var g := Eval(h, stmt.guard, s);
    if g.out.Err? then g
    else if !Truthy(g.out.value) then Res(Ok(Null), g.s)
    else
      var a := Eval(h, stmt.value, g.s);
      if a.out.Err? then a else Res(Ok(Null), a.s.(env := Update(a.s.env, stmt.target, a.out.value)))
  }

  /** `raise` and `nack`, with or without a condition. */
  function ExecSignal(h: Host, stmt: Stmt, s: State): (r: Res)
    requires Valid(h, s) && (stmt.Raise? || stmt.Nack?)
    ensures Good(h, s, r)
    decreases h.maxDepth - s.depth, 1, stmt, 1
  {
    var c := if stmt.condition.None? then Res(Ok(Bool(true)), s) else Eval(h, stmt.condition.value, s);
    if c.out.Err? then c
    else if !Truthy(c.out.value) then Res(Ok(Null), c.s)
    else if stmt.Nack? then Res(Err(NackSignal(stmt.requeue)), c.s)
    else
      var m := Eval(h, stmt.message, c.s);
      if m.out.Err? then m else Res(Err(Raised(m.out.value)), m.s)
  }

  function ExecReply(h: Host, stmt: Stmt, s: State): (r: Res)
    requires Valid(h, s) && stmt.Reply?
    ensures Good(h, s, r) && r.out.Err?
    decreases h.maxDepth - s.depth, 1, stmt, 1
  {
    var a := Eval(h, stmt.status, s);
    if a.out.Err? then a
    else if !a.out.value.Int? then Res(Err(TypeError), a.s)
    else
      var b := Eval(h, stmt.content, a.s);
      if b.out.Err? then b
      else
        var c := if stmt.headers.None? then Res(Ok(Null), b.s) else Eval(h, stmt.headers.value, b.s);
        if c.out.Err? then c
        else Respond(c.s, Response(Status(a.out.value.n), b.out.value, c.out.value, false))
  }

  function ExecWhile(h: Host, w: Stmt, iterations: nat, s: State): (r: Res)
    requires Valid(h, s) && w.While? && iterations <= MAX_ITERATIONS
    ensures Good(h, s, r)
    decreases h.maxDepth - s.depth, 1, w, 1, MAX_ITERATIONS - iterations
  {
    var g := Eval(h, w.guard, s);
    if g.out.Err? then g
    else if !Truthy(g.out.value) then Res(Ok(Null), g.s)
    else if iterations >= MAX_ITERATIONS then Res(Err(LoopLimit), g.s)
    else
      var b := ExecBlock(h, w.body, g.s);
      if b.out.Err? then b else ExecWhile(h, w, iterations + 1, b.s)
  }

  function ExecTransaction(h: Host, body: seq<Stmt>, s: State): (r: Res)
    requires Valid(h, s)
    ensures Good(h, s, r)
    decreases h.maxDepth - s.depth, 1, body, 1
  {
    if s.insideTx || !h.hasDb then Res(Err(TypeError), s)
    else
      var b := Begin(h, s);
      if b.out.Err? then b
      else
        var a := ExecBlock(h, body, b.s);
        if a.out.Err? then Res(a.out, Rollback(h, a.s))
        else Commit(h, a.s)
  }

  /** A whole program. */
  function Execute(h: Host, program: seq<Stmt>, s: State): (r: Res)
    requires Valid(h, s)
    ensures Good(h, s, r)
  {
    ExecBlock(h, program, s)
  }
}
