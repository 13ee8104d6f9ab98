/**
 * Variable scopes with a frozen shared base (src/environment.rs), and the proof that
 * freezing is not observable as long as writes stay above it.
 */
module Environment {
  import opened Options

  /** Scopes are innermost last; the base holds what was defined before the freeze. */
  datatype Env<V> = Env(base: map<string, V>, scopes: seq<map<string, V>>)

  function Find<V>(scopes: seq<map<string, V>>, name: string): Option<V> {
    if scopes == [] then None
    else
      var inner := scopes[|scopes| - 1];
      if name in inner then Some(inner[name]) else Find(scopes[..|scopes| - 1], name)
  }

  function Get<V>(e: Env<V>, name: string): Option<V> {
    var local := Find(e.scopes, name);
    if local.Some? then local else if name in e.base then Some(e.base[name]) else None
  }

  function Push<V>(e: Env<V>): Env<V> {
    e.(scopes := e.scopes + [map[]])
  }

  /** The outermost scope is never popped. */
  function Pop<V>(e: Env<V>): Env<V> {
    if |e.scopes| > 1 then e.(scopes := e.scopes[..|e.scopes| - 1]) else e
  }

  function SetIn<V>(scopes: seq<map<string, V>>, name: string, v: V): (r: seq<map<string, V>>)
    ensures |r| == |scopes|
  {
    if scopes == [] then []
    else scopes[..|scopes| - 1] + [scopes[|scopes| - 1][name := v]]
  }

  function Set<V>(e: Env<V>, name: string, v: V): Env<V> {
    e.(scopes := SetIn(e.scopes, name, v))
  }

  /** Writes to the innermost scope that has the name; the scopes must have it. */
  function Overwrite<V>(scopes: seq<map<string, V>>, name: string, v: V): (r: seq<map<string, V>>)
    ensures |r| == |scopes|
  {
    if scopes == [] then []
    else
      var init, inner := scopes[..|scopes| - 1], scopes[|scopes| - 1];
      if name in inner then init + [inner[name := v]] else Overwrite(init, name, v) + [inner]
  }

  function Update<V>(e: Env<V>, name: string, v: V): Env<V> {
    if Find(e.scopes, name).Some? then e.(scopes := Overwrite(e.scopes, name, v)) else Set(e, name, v)
  }

  /** The scopes merged into one map, inner names shadowing outer ones. */
  function Flatten<V>(scopes: seq<map<string, V>>): map<string, V> {
    if scopes == [] then map[] else Flatten(scopes[..|scopes| - 1]) + scopes[|scopes| - 1]
  }

  function LocalVariables<V>(e: Env<V>): map<string, V> {
    Flatten(e.scopes)
  }

  function Freeze<V>(e: Env<V>): Env<V> {
    Env(e.base + Flatten(e.scopes), [map[]])
  }

  // --- Lookups ---

  lemma {:induction false} FindFlatten<V>(scopes: seq<map<string, V>>, name: string)
    ensures Find(scopes, name) == if name in Flatten(scopes) then Some(Flatten(scopes)[name]) else None
  {
    if scopes != [] {
      FindFlatten(scopes[..|scopes| - 1], name);
    }
  }

  lemma {:induction false} FindConcat<V>(a: seq<map<string, V>>, b: seq<map<string, V>>, name: string)
    ensures Find(a + b, name) == if Find(b, name).Some? then Find(b, name) else Find(a, name)
  {
    if b == [] {
      assert a + b == a;
    } else {
      assert (a + b)[..|a + b| - 1] == a + b[..|b| - 1];
      FindConcat(a, b[..|b| - 1], name);
    }
  }

  /** Freezing changes no lookup. */
  lemma FreezeKeepsLookups<V>(e: Env<V>, name: string)
    ensures Get(Freeze(e), name) == Get(e, name)
  {
    FindFlatten(e.scopes, name);
    var f := Freeze(e);
    assert f.scopes[..|f.scopes| - 1] == [];
    assert Find(f.scopes, name).None?;
  }

  lemma {:induction false} FindOverwrite<V>(scopes: seq<map<string, V>>, name: string, v: V, other: string)
    requires Find(scopes, name).Some?
    ensures Find(Overwrite(scopes, name, v), other) == if other == name then Some(v) else Find(scopes, other)
  {
    var init, inner := scopes[..|scopes| - 1], scopes[|scopes| - 1];
    var r := Overwrite(scopes, name, v);
    if name in inner {
      assert r[..|r| - 1] == init;
    } else {
      FindOverwrite(init, name, v, other);
      assert r[..|r| - 1] == Overwrite(init, name, v);
    }
  }

  lemma {:induction false} OverwriteConcat<V>(a: seq<map<string, V>>, b: seq<map<string, V>>, name: string, v: V)
    ensures Overwrite(a + b, name, v) ==
            if Find(b, name).Some? then a + Overwrite(b, name, v) else Overwrite(a, name, v) + b
    decreases |b|
  {
    if b == [] {
      assert a + b == a && Overwrite(a, name, v) + b == Overwrite(a, name, v);
    } else {
      var init, inner := b[..|b| - 1], b[|b| - 1];
      assert (a + b)[..|a + b| - 1] == a + init;
      OverwriteConcat(a, init, name, v);
      if name in inner {
        assert a + init + [inner[name := v]] == a + (init + [inner[name := v]]);
      } else if Find(init, name).Some? {
        assert a + Overwrite(init, name, v) + [inner] == a + (Overwrite(init, name, v) + [inner]);
      } else {
        assert Overwrite(a, name, v) + init + [inner] == Overwrite(a, name, v) + b;
      }
    }
  }

  // --- Freezing refines the plain scope stack ---

  datatype Op<V> = PushScope | PopScope | SetVar(name: string, value: V) | UpdateVar(name: string, value: V)

  function Step<V>(e: Env<V>, op: Op<V>): Env<V> {
    match op
    case PushScope => Push(e)
    case PopScope => Pop(e)
    case SetVar(n, v) => Set(e, n, v)
    case UpdateVar(n, v) => Update(e, n, v)
  }

  function RunOps<V>(e: Env<V>, ops: seq<Op<V>>): Env<V>
    decreases |ops|
  {
    if ops == [] then e else RunOps(Step(e, ops[0]), ops[1..])
  }

  /** No operation of a run writes to the base. */
  lemma {:induction false} BaseNeverChanges<V>(e: Env<V>, ops: seq<Op<V>>)
    ensures RunOps(e, ops).base == e.base
    decreases |ops|
  {
    if ops != [] {
      BaseNeverChanges(Step(e, ops[0]), ops[1..]);
    }
  }

  /**
   * What a run on a frozen environment must avoid: popping the scope of the freeze, and
   * updating, from a nested scope, a name that only the base has.
   */
  predicate Allowed<V>(frozen: Env<V>, op: Op<V>) {
    match op
    case PopScope => |frozen.scopes| > 1
    case UpdateVar(n, _) => |frozen.scopes| > 1 && n in frozen.base ==> Find(frozen.scopes, n).Some?
    case _ => true
  }

  predicate AllAllowed<V>(frozen: Env<V>, ops: seq<Op<V>>)
    decreases |ops|
  {
    ops == [] || (Allowed(frozen, ops[0]) && AllAllowed(Step(frozen, ops[0]), ops[1..]))
  }

  /**
   * `plain` has kept its scopes; `frozen` has the `n` outer ones in its base and first
   * scope. The nested scopes are the same, and so is what lies below them.
   */
  ghost predicate Mirrors<V(!new)>(plain: Env<V>, frozen: Env<V>, n: nat) {
    && 1 <= n <= |plain.scopes| && |frozen.scopes| == |plain.scopes| - n + 1
    && frozen.scopes[1..] == plain.scopes[n..]
    && (forall name :: Below(frozen, 1, name) == Below(plain, n, name))
    && (forall name: string :: Find(frozen.scopes[..1], name).Some? ==> Find(plain.scopes[..n], name).Some?)
  }

  /** A lookup that starts below the scopes from `n` on. */
  function Below<V>(e: Env<V>, n: nat, name: string): Option<V>
    requires n <= |e.scopes|
  {
    Get(e.(scopes := e.scopes[..n]), name)
  }

  lemma GetSplits<V>(e: Env<V>, n: nat, name: string)
    requires n <= |e.scopes|
    ensures Get(e, name) == if Find(e.scopes[n..], name).Some? then Find(e.scopes[n..], name) else Below(e, n, name)
  {
    assert e.scopes == e.scopes[..n] + e.scopes[n..];
    FindConcat(e.scopes[..n], e.scopes[n..], name);
  }

  lemma MirrorsLookups<V(!new)>(plain: Env<V>, frozen: Env<V>, n: nat, name: string)
    requires Mirrors(plain, frozen, n)
    ensures Get(frozen, name) == Get(plain, name)
  {
    GetSplits(plain, n, name);
    GetSplits(frozen, 1, name);
    assert Below(frozen, 1, name) == Below(plain, n, name);
  }

  lemma FreezeMirrors<V(!new)>(e: Env<V>)
    requires e.scopes != []
    ensures Mirrors(e, Freeze(e), |e.scopes|)
  {
    var f := Freeze(e);
    assert f.scopes[..1] == f.scopes && e.scopes[..|e.scopes|] == e.scopes;
    forall name ensures Below(f, 1, name) == Below(e, |e.scopes|, name) {
      FreezeKeepsLookups(e, name);
    }
  }

  /** A write below the nested scopes, in either environment. */
  ghost predicate WritesBelow<V>(e: Env<V>, e': Env<V>, n: nat, name: string, v: V)
  {
    && n <= |e.scopes| == |e'.scopes| && e'.base == e.base && e'.scopes[n..] == e.scopes[n..]
    && Find(e'.scopes[..n], name) == Some(v)
    && forall other: string :: other != name ==> Find(e'.scopes[..n], other) == Find(e.scopes[..n], other)
  }

  lemma SetWrites<V>(e: Env<V>, name: string, v: V)
    requires e.scopes != []
    ensures WritesBelow(e, Set(e, name, v), |e.scopes|, name, v)
  {
    var s, r := e.scopes, SetIn(e.scopes, name, v);
    assert r[..|r|] == r && s[..|s|] == s;
    assert r[..|r| - 1] == s[..|s| - 1];
  }

  lemma UpdateWrites<V>(e: Env<V>, n: nat, name: string, v: V)
    requires n <= |e.scopes| && Find(e.scopes[..n], name).Some? && Find(e.scopes[n..], name).None?
    ensures WritesBelow(e, Update(e, name, v), n, name, v)
  {
    var a, b := e.scopes[..n], e.scopes[n..];
    assert e.scopes == a + b;
    FindConcat(a, b, name);
    OverwriteConcat(a, b, name, v);
    var r := Overwrite(a, name, v);
    assert (r + b)[..n] == r && (r + b)[n..] == b;
    forall other: string ensures Find(r, other) == if other == name then Some(v) else Find(a, other) {
      FindOverwrite(a, name, v, other);
    }
  }

  lemma BothWrite<V(!new)>(plain: Env<V>, frozen: Env<V>, plain': Env<V>, frozen': Env<V>, n: nat, name: string, v: V)
    requires Mirrors(plain, frozen, n)
    requires WritesBelow(plain, plain', n, name, v) && WritesBelow(frozen, frozen', 1, name, v)
    ensures Mirrors(plain', frozen', n)
  {
    forall other ensures Below(frozen', 1, other) == Below(plain', n, other) {
      assert Below(frozen, 1, other) == Below(plain, n, other);
    }
  }

  /** A write into the nested scopes, which the two environments share. */
  lemma NestedWrite<V(!new)>(plain: Env<V>, frozen: Env<V>, n: nat, nested: seq<map<string, V>>)
    requires Mirrors(plain, frozen, n)
    ensures Mirrors(plain.(scopes := plain.scopes[..n] + nested), frozen.(scopes := frozen.scopes[..1] + nested), n)
  {
    var p, f := plain.scopes[..n] + nested, frozen.scopes[..1] + nested;
    assert p[..n] == plain.scopes[..n] && p[n..] == nested && f[..1] == frozen.scopes[..1] && f[1..] == nested;
    forall name ensures Below(frozen.(scopes := f), 1, name) == Below(plain.(scopes := p), n, name) {
      assert Below(frozen, 1, name) == Below(plain, n, name);
    }
  }

  lemma SetMirrors<V(!new)>(plain: Env<V>, frozen: Env<V>, n: nat, name: string, v: V)
    requires Mirrors(plain, frozen, n)
    ensures Mirrors(Set(plain, name, v), Set(frozen, name, v), n)
  {
    if |frozen.scopes| == 1 {
      SetWrites(plain, name, v);
      SetWrites(frozen, name, v);
      BothWrite(plain, frozen, Set(plain, name, v), Set(frozen, name, v), n, name, v);
    } else {
      var nested := SetIn(frozen.scopes[1..], name, v);
      NestedWrite(plain, frozen, n, nested);
      assert SetIn(plain.scopes, name, v) == plain.scopes[..n] + nested;
      assert SetIn(frozen.scopes, name, v) == frozen.scopes[..1] + nested;
    }
  }

  lemma UpdateMirrors<V(!new)>(plain: Env<V>, frozen: Env<V>, n: nat, name: string, v: V)
    requires Mirrors(plain, frozen, n) && Allowed(frozen, UpdateVar(name, v))
    ensures Mirrors(Update(plain, name, v), Update(frozen, name, v), n)
  {
    var nested := frozen.scopes[1..];
    assert plain.scopes == plain.scopes[..n] + nested && frozen.scopes == frozen.scopes[..1] + nested;
    FindConcat(plain.scopes[..n], nested, name);
    FindConcat(frozen.scopes[..1], nested, name);
    assert Below(frozen, 1, name) == Below(plain, n, name);
    if Find(nested, name).Some? {
      OverwriteConcat(plain.scopes[..n], nested, name, v);
      OverwriteConcat(frozen.scopes[..1], nested, name, v);
      NestedWrite(plain, frozen, n, Overwrite(nested, name, v));
    } else if Find(frozen.scopes[..1], name).Some? {
      UpdateWrites(frozen, 1, name, v);
      UpdateWrites(plain, n, name, v);
      BothWrite(plain, frozen, Update(plain, name, v), Update(frozen, name, v), n, name, v);
    } else if Find(plain.scopes[..n], name).Some? {
      assert |frozen.scopes| == 1;
      UpdateWrites(plain, n, name, v);
      SetWrites(frozen, name, v);
      BothWrite(plain, frozen, Update(plain, name, v), Update(frozen, name, v), n, name, v);
    } else {
      SetMirrors(plain, frozen, n, name, v);
    }
  }

  lemma StepMirrors<V(!new)>(plain: Env<V>, frozen: Env<V>, n: nat, op: Op<V>)
    requires Mirrors(plain, frozen, n) && Allowed(frozen, op)
    ensures Mirrors(Step(plain, op), Step(frozen, op), n)
  {
    var nested := frozen.scopes[1..];
    match op
    case PushScope =>
      NestedWrite(plain, frozen, n, nested + [map[]]);
      assert Push(plain).scopes == plain.scopes[..n] + (nested + [map[]]);
      assert Push(frozen).scopes == frozen.scopes[..1] + (nested + [map[]]);
    case PopScope =>
      NestedWrite(plain, frozen, n, nested[..|nested| - 1]);
      assert Pop(plain).scopes == plain.scopes[..n] + nested[..|nested| - 1];
      assert Pop(frozen).scopes == frozen.scopes[..1] + nested[..|nested| - 1];
    case SetVar(name, v) => SetMirrors(plain, frozen, n, name, v);
    case UpdateVar(name, v) => UpdateMirrors(plain, frozen, n, name, v);
  }

  /** After any allowed run, the frozen environment answers as the one that never froze. */
  lemma {:induction false} FreezeRefines<V(!new)>(plain: Env<V>, frozen: Env<V>, n: nat, ops: seq<Op<V>>)
    requires Mirrors(plain, frozen, n) && AllAllowed(frozen, ops)
    ensures forall name :: Get(RunOps(frozen, ops), name) == Get(RunOps(plain, ops), name)
    decreases |ops|
  {
    if ops == [] {
      forall name ensures Get(frozen, name) == Get(plain, name) {
        MirrorsLookups(plain, frozen, n, name);
      }
    } else {
      StepMirrors(plain, frozen, n, ops[0]);
      FreezeRefines(Step(plain, ops[0]), Step(frozen, ops[0]), n, ops[1..]);
    }
  }

  lemma FreezeUnobservable<V(!new)>(e: Env<V>, ops: seq<Op<V>>)
    requires e.scopes != [] && AllAllowed(Freeze(e), ops)
    ensures forall name :: Get(RunOps(Freeze(e), ops), name) == Get(RunOps(e, ops), name)
  {
    FreezeMirrors(e);
    FreezeRefines(e, Freeze(e), |e.scopes|, ops);
  }

  lemma ThreeSteps<V>(e: Env<V>, ops: seq<Op<V>>)
    requires |ops| == 3
    ensures RunOps(e, ops) == Step(Step(Step(e, ops[0]), ops[1]), ops[2])
  {
    var e1 := Step(e, ops[0]);
    var e2 := Step(e1, ops[1]);
    assert ops[1..][1..] == [ops[2]] && [ops[2]][1..] == [];
    assert RunOps(e1, ops[1..]) == RunOps(e2, [ops[2]]);
    assert RunOps(e2, [ops[2]]) == RunOps(Step(e2, ops[2]), []);
  }

  /**
   * The excluded update does show: from a nested scope, a name that only the base has is
   * shadowed for the time of that scope, while the plain stack keeps the new value.
   */
  lemma UpdateOfBaseForgotten<V>(e: Env<V>, name: string, v: V)
    requires e.scopes != [] && Find(e.scopes, name).Some?
    ensures var ops := [PushScope, UpdateVar(name, v), PopScope];
            && Get(RunOps(e, ops), name) == Some(v)
            && Get(RunOps(Freeze(e), ops), name) == Get(e, name)
  {
    var f, p := Push(Freeze(e)), Push(e);
    var ops := [PushScope, UpdateVar(name, v), PopScope];
    assert ops[1..] == [UpdateVar(name, v), PopScope] && ops[1..][1..] == [PopScope] && ops[1..][1..][1..] == [];
    ThreeSteps(e, ops);
    ThreeSteps(Freeze(e), ops);
    FreezeKeepsLookups(e, name);
    OverwriteConcat(e.scopes, [map[]], name, v);
    FindConcat(e.scopes, [map[]], name);
    FindOverwrite(e.scopes, name, v, name);
    var r := Overwrite(e.scopes, name, v);
    assert (r + [map[]])[..|r|] == r;
    assert f.scopes == [map[], map[]];
    assert f.scopes[..1] == [map[]] && f.scopes[..1][..0] == [];
    assert Pop(Update(f, name, v)).scopes == [map[]];
  }

  // --- The object ---

  /** The environment object: its methods update the scopes in place. */
  class Environment<V(==)> {
    var base: map<string, V>
    var scopes: seq<map<string, V>>

    ghost predicate Valid()
      reads this
    {
      scopes != []
    }

    ghost function Model(): Env<V>
      reads this
    {
      Env(base, scopes)
    }

    constructor ()
      ensures Valid() && Model() == Env(map[], [map[]])
    {
      base, scopes := map[], [map[]];
    }

    method PushScope()
      modifies this`scopes
      ensures Valid() && Model() == Push(old(Model()))
    {
      scopes := scopes + [map[]];
    }

    method PopScope()
      requires Valid()
      modifies this`scopes
      ensures Valid() && Model() == Pop(old(Model()))
    {
      if |scopes| > 1 {
        scopes := scopes[..|scopes| - 1];
      }
    }

    method SetVariable(name: string, value: V)
      requires Valid()
      modifies this`scopes
      ensures Valid() && Model() == Set(old(Model()), name, value)
    {
      var last := |scopes| - 1;
      scopes := scopes[last := scopes[last][name := value]];
      assert scopes == old(scopes)[..last] + [old(scopes)[last][name := value]];
    }

    /** Walks from the innermost scope outward, then looks at the base. */
    method Lookup(name: string) returns (r: Option<V>)
      ensures r == Get(Model(), name)
    {
      var i := |scopes|;
      assert scopes[..i] == scopes;
      while i > 0
        invariant 0 <= i <= |scopes|
        invariant Find(scopes, name) == Find(scopes[..i], name)
      {
        assert scopes[..i][..i - 1] == scopes[..i - 1];
        if name in scopes[i - 1] {
          return Some(scopes[i - 1][name]);
        }
        i := i - 1;
      }
      r := if name in base then Some(base[name]) else None;
    }

    method HasVariable(name: string) returns (b: bool)
      ensures b == Get(Model(), name).Some?
    {
      var r := Lookup(name);
      b := r.Some?;
    }

    /** Writes where the name is nearest, or in the innermost scope if no scope has it. */
    method UpdateVariable(name: string, value: V)
      requires Valid()
      modifies this`scopes
      ensures Valid() && Model() == Update(old(Model()), name, value)
    {
      var i := |scopes|;
      assert scopes[..i] == scopes && scopes[i..] == [];
      while i > 0
        invariant 0 <= i <= |scopes| && scopes == old(scopes)
        invariant Find(scopes, name) == Find(scopes[..i], name)
        invariant Find(scopes[i..], name).None?
      {
        var j := i - 1;
        assert scopes[..i][..j] == scopes[..j];
        if name in scopes[j] {
          OverwriteAt(scopes, j, name, value);
          scopes := scopes[j := scopes[j][name := value]];
          return;
        }
        FindConcat([scopes[j]], scopes[i..], name);
        assert [scopes[j]] + scopes[i..] == scopes[j..];
        assert [scopes[j]][..0] == [];
        i := j;
      }
      SetVariable(name, value);
    }

    /** Moves every definition into the base and leaves one empty scope. */
    method FreezeAll()
      modifies this
      ensures Valid() && Model() == Freeze(old(Model()))
    {
      var merged, i := base, 0;
      while i < |scopes|
        invariant 0 <= i <= |scopes|
        invariant merged == base + Flatten(scopes[..i])
      {
        assert scopes[..i + 1][..i] == scopes[..i];
        merged, i := merged + scopes[i], i + 1;
      }
      assert scopes[..|scopes|] == scopes;
      base, scopes := merged, [map[]];
    }
  }

  lemma OverwriteAt<V>(scopes: seq<map<string, V>>, j: nat, name: string, v: V)
    requires j < |scopes| && name in scopes[j] && Find(scopes[j + 1..], name).None?
    ensures Find(scopes, name).Some?
    ensures Overwrite(scopes, name, v) == scopes[j := scopes[j][name := v]]
  {
    var a, b := scopes[..j + 1], scopes[j + 1..];
    assert scopes == a + b && a[..|a| - 1] == scopes[..j];
    FindConcat(a, b, name);
    OverwriteConcat(a, b, name, v);
  }
}
