/** Calls of tasks (src/interpreter.rs, `call_task_value`): what the body sees under which name. */
module CallLaws {
  import opened Environment
  import opened Options
  import opened Ast
  import opened Semantics
  import opened Parts
  import opened ScopeLaws

  // --- Parameters ---

  /** Parameter `i` is the last one of its name. */
  predicate LastOfName(params: seq<Param>, i: nat) {
    i < |params| && forall j :: i < j < |params| ==> params[j].name != params[i].name
  }

  predicate NoneOfName(params: seq<Param>, name: string) {
    forall j :: 0 <= j < |params| ==> params[j].name != name
  }

  /** A name that is no parameter keeps its meaning. */
  lemma {:induction false} BindLeaves(e: Env<Value>, params: seq<Param>, args: seq<Value>, name: string)
    requires e.scopes != [] && |params| == |args| && NoneOfName(params, name)
    ensures Get(Bind(e, params, args), name) == Get(e, name)
    decreases |params|
  {
    if params != [] {
      SetReads(e, params[0].name, args[0], name);
      assert forall j :: 0 <= j < |params| - 1 ==> params[1..][j] == params[j + 1];
      BindLeaves(Set(e, params[0].name, args[0]), params[1..], args[1..], name);
    }
  }

  /** Parameter `i` holds argument `i`; of parameters of one name the last one counts. */
  lemma {:induction false} BindReads(e: Env<Value>, params: seq<Param>, args: seq<Value>, i: nat)
    requires e.scopes != [] && |params| == |args| && LastOfName(params, i)
    ensures Get(Bind(e, params, args), params[i].name) == Some(args[i])
    decreases |params|
  {
    var first := Set(e, params[0].name, args[0]);
    if i == 0 {
      SetReads(e, params[0].name, args[0], params[0].name);
      assert NoneOfName(params[1..], params[0].name);
      BindLeaves(first, params[1..], args[1..], params[0].name);
    } else {
      assert forall j :: 0 <= j < |params| - 1 ==> params[1..][j] == params[j + 1];
      BindReads(first, params[1..], args[1..], i - 1);
    }
  }

  /** Distinct names: every parameter holds its argument. */
  lemma BindAll(e: Env<Value>, params: seq<Param>, args: seq<Value>)
    requires e.scopes != [] && |params| == |args|
    requires forall i, j :: 0 <= i < j < |params| ==> params[i].name != params[j].name
    ensures forall i :: 0 <= i < |params| ==> Get(Bind(e, params, args), params[i].name) == Some(args[i])
  {
    forall i | 0 <= i < |params| ensures Get(Bind(e, params, args), params[i].name) == Some(args[i]) {
      BindReads(e, params, args, i);
    }
  }

  /** Parameters live in the scope of the call and go with it. */
  lemma {:induction false} BindIsLocal(e: Env<Value>, inner: map<string, Value>, params: seq<Param>, args: seq<Value>)
    requires e.scopes != [] && |params| == |args|
    ensures Pop(Bind(e.(scopes := e.scopes + [inner]), params, args)) == e
    decreases |params|
  {
    var scopes := e.scopes + [inner];
    assert scopes[..|e.scopes|] == e.scopes;
    if params != [] {
      BindIsLocal(e, inner[params[0].name := args[0]], params[1..], args[1..]);
    }
  }

  // --- Coercion ---

  function Coerced(h: Host, m: Option<string>, param: Param, arg: Value): Option<Value> {
    if param.schema.None? then Some(arg) else h.coerce(m, param.schema.value, arg)
  }

  /** The arguments are coerced one by one, each by the schema of its own parameter; one refusal refuses the call. */
  lemma {:induction false} CoercedEach(h: Host, m: Option<string>, params: seq<Param>, args: seq<Value>)
    requires |params| == |args|
    ensures var r := CoerceAll(h, m, params, args);
            && (r.Some? <==> forall i :: 0 <= i < |args| ==> Coerced(h, m, params[i], args[i]).Some?)
            && (r.Some? ==> forall i :: 0 <= i < |args| ==> Coerced(h, m, params[i], args[i]) == Some(r.value[i]))
    decreases |params|
  {
    if params != [] {
      CoercedEach(h, m, params[1..], args[1..]);
      assert forall i :: 0 <= i < |params| - 1 ==> params[1..][i] == params[i + 1] && args[1..][i] == args[i + 1];
      assert forall i :: 1 <= i < |params| ==> params[i] == params[1..][i - 1] && args[i] == args[1..][i - 1];
    }
  }

  // --- What the body sees ---

  /** In a call of the same module: the parameters, and behind them the scopes of the caller. */
  lemma LocalReads(task: Value, args: seq<Value>, s: State, name: string)
    requires task.Task? && |task.params| == |args| && s.env.scopes != []
    ensures var env := CalleeState(task, args, s).env;
            && (NoneOfName(task.params, name) ==> Get(env, name) == Get(s.env, name))
            && (forall i: nat :: LastOfName(task.params, i) && task.params[i].name == name ==>
                  Get(env, name) == Some(args[i]))
  {
    PushReads(s.env, name);
    if NoneOfName(task.params, name) {
      BindLeaves(Push(s.env), task.params, args, name);
    }
    forall i: nat | LastOfName(task.params, i) && task.params[i].name == name
      ensures Get(CalleeState(task, args, s).env, name) == Some(args[i])
    {
      BindReads(Push(s.env), task.params, args, i);
    }
  }

  /** What a name means in the module that owns the task, when another module calls it. */
  function ModuleMeaning(h: Host, task: Value, caller: Env<Value>, name: string): Option<Value>
    requires task.Task?
  {
    if h.hasRuntime && task.owner.Some? then Get(h.moduleEnv(task.owner.value), name) else Get(caller, name)
  }

  /** In a call of another module parameters come first, then local names of the caller, then those of the module. */
  lemma ForkReads(h: Host, task: Value, args: seq<Value>, s: State, name: string)
    requires task.Task? && |task.params| == |args|
    ensures var env := ForkState(h, task, args, s).env;
            && (NoneOfName(task.params, name) ==>
                  Get(env, name) == if Find(s.env.scopes, name).Some? then Find(s.env.scopes, name)
                                    else ModuleMeaning(h, task, s.env, name))
            && (forall i: nat :: LastOfName(task.params, i) && task.params[i].name == name ==>
                  Get(env, name) == Some(args[i]))
  {
    var fork := ForkEnv(h, task, s.env);
    ForkEnvReads(h, task, s.env, name);
    if NoneOfName(task.params, name) {
      BindLeaves(fork, task.params, args, name);
    }
    forall i: nat | LastOfName(task.params, i) && task.params[i].name == name
      ensures Get(ForkState(h, task, args, s).env, name) == Some(args[i])
    {
      BindReads(fork, task.params, args, i);
    }
  }

  lemma ForkEnvReads(h: Host, task: Value, env: Env<Value>, name: string)
    requires task.Task?
    ensures Get(ForkEnv(h, task, env), name) ==
            if Find(env.scopes, name).Some? then Find(env.scopes, name) else ModuleMeaning(h, task, env, name)
  {
    var base := if h.hasRuntime && task.owner.Some? then h.moduleEnv(task.owner.value) else env;
    var locals := LocalVariables(env);
    PushReads(base.(scopes := base.scopes + [locals]), name);
    FindFlatten(env.scopes, name);
    FindConcat(base.scopes, [locals], name);
    FindOne(locals, name);
  }

  lemma FindOne(scope: map<string, Value>, name: string)
    ensures Find([scope], name) == if name in scope then Some(scope[name]) else None
  {
    var scopes := [scope];
    assert scopes[..|scopes| - 1] == [];
  }

  // --- Whole calls ---

  /** The module whose schemas coerce the arguments. */
  function SchemaModule(task: Value, s: State): Option<string>
    requires task.Task?
  {
    if task.owner.Some? then task.owner else s.module_
  }

  predicate LeavesModule(task: Value, s: State)
    requires task.Task?
  {
    task.owner.Some? && task.owner != s.module_
  }

  /** The four ways a call is refused, in the order in which they are checked; nothing has happened then. */
  lemma CallRefused(h: Host, task: Value, args: seq<Value>, name: string, s: State)
    requires Valid(h, s)
    ensures var r := CallTask(h, task, args, name, s);
            && (!task.Task? ==> r == Res(Err(NotCallable(name)), s))
            && (task.Task? && |task.params| != |args| ==> r == Res(Err(WrongArity(task.name)), s))
            && (task.Task? && |task.params| == |args| ==>
                  var coerced := CoerceAll(h, SchemaModule(task, s), task.params, args);
                  && (coerced.None? ==> r == Res(Err(TypeError), s))
                  && (coerced.Some? && s.depth == h.maxDepth ==> r == Res(Err(RecursionLimit), s)))
  {
  }

  /**
   * A call that is not refused has the outcome of the body, one level deeper. What the body
   * assigned to names of the caller stays, unless it ran in another module.
   */
  lemma CallRuns(h: Host, task: Value, args: seq<Value>, name: string, s: State)
    requires Valid(h, s) && task.Task? && |task.params| == |args| && s.depth < h.maxDepth
    requires CoerceAll(h, SchemaModule(task, s), task.params, args).Some?
    ensures var vs, r := CoerceAll(h, SchemaModule(task, s), task.params, args).value, CallTask(h, task, args, name, s);
            var t := if LeavesModule(task, s) then ForkState(h, task, vs, s) else CalleeState(task, vs, s);
            && t.depth == s.depth + 1 && t.frames == s.frames + [task.name]
            && t.module_ == (if LeavesModule(task, s) then task.owner else s.module_)
            && Valid(h, t) && r.out == RunBody(h, task.body, t).out && r.s.world == RunBody(h, task.body, t).s.world
            && r.s.env == if LeavesModule(task, s) then s.env else Pop(RunBody(h, task.body, t).s.env)
  {
  }

  /** A task whose body is its parameter `i` returns argument `i`, and leaves everything as it was. */
  lemma ParameterReturned(h: Host, task: Value, args: seq<Value>, name: string, i: nat, s: State)
    requires Valid(h, s) && task.Task? && |task.params| == |args| && s.depth < h.maxDepth
    requires CoerceAll(h, SchemaModule(task, s), task.params, args).Some?
    requires LastOfName(task.params, i) && !IsReserved(task.params[i].name)
    requires task.body == Inline(Ident(task.params[i].name))
    ensures var vs := CoerceAll(h, SchemaModule(task, s), task.params, args).value;
            CallTask(h, task, args, name, s) == Res(Ok(vs[i]), s)
  {
    var vs := CoerceAll(h, SchemaModule(task, s), task.params, args).value;
    if LeavesModule(task, s) {
      ForkReturns(h, task, vs, i, s);
    } else {
      LocalReturns(h, task, vs, i, s);
    }
  }

  lemma ForkReturns(h: Host, task: Value, vs: seq<Value>, i: nat, s: State)
    requires Valid(h, s) && task.Task? && |task.params| == |vs| && s.depth < h.maxDepth
    requires LastOfName(task.params, i) && !IsReserved(task.params[i].name)
    requires task.body == Inline(Ident(task.params[i].name))
    ensures CallForked(h, task, vs, s) == Res(Ok(vs[i]), s)
  {
    ForkReads(h, task, vs, s, task.params[i].name);
    var t := ForkState(h, task, vs, s);
    assert RunBody(h, task.body, t) == EvalIdent(h, task.params[i].name, t);
  }

  lemma LocalReturns(h: Host, task: Value, vs: seq<Value>, i: nat, s: State)
    requires Valid(h, s) && task.Task? && |task.params| == |vs| && s.depth < h.maxDepth
    requires LastOfName(task.params, i) && !IsReserved(task.params[i].name)
    requires task.body == Inline(Ident(task.params[i].name))
    ensures CallLocal(h, task, vs, s) == Res(Ok(vs[i]), s)
  {
    LocalReads(task, vs, s, task.params[i].name);
    var t := CalleeState(task, vs, s);
    assert RunBody(h, task.body, t) == EvalIdent(h, task.params[i].name, t);
    BindIsLocal(s.env, map[], task.params, vs);
    assert (s.frames + [task.name])[..|s.frames|] == s.frames;
  }
}
