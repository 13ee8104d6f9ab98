/**
 * Exactly when freezing stays unobservable (src/environment.rs): a frozen environment and
 * the scope stack it stands for answer alike, now and after any pops that stay above the
 * freeze, if and only if every operation passes a test on the two environments before it.
 */
module FreezeExact {
  import opened Environment
  import opened Options

  function PopTimes<V>(e: Env<V>, k: nat): Env<V>
    decreases k
  {
    if k == 0 then e else PopTimes(Pop(e), k - 1)
  }

  /** Level `j` of the frozen environment answers as level `n + j - 1` of the plain one. */
  ghost predicate Alike<V(!new)>(plain: Env<V>, frozen: Env<V>, n: nat) {
    && 1 <= n <= |plain.scopes| && |frozen.scopes| == |plain.scopes| - n + 1
    && forall j: nat, name: string :: 1 <= j <= |frozen.scopes| ==> SameView(plain, frozen, n, j, name)
  }

  ghost predicate SameView<V(!new)>(plain: Env<V>, frozen: Env<V>, n: nat, j: nat, name: string)
    requires 1 <= n <= |plain.scopes| && |frozen.scopes| == |plain.scopes| - n + 1
    requires 1 <= j <= |frozen.scopes|
  {
    Below(frozen, j, name) == Below(plain, n + j - 1, name)
  }

  lemma {:induction false} PopsAreViews<V>(e: Env<V>, k: nat, name: string)
    requires k < |e.scopes|
    ensures Get(PopTimes(e, k), name) == Below(e, |e.scopes| - k, name)
    decreases k
  {
    if k == 0 {
      assert e.scopes[..|e.scopes|] == e.scopes;
    } else {
      PopsAreViews(Pop(e), k - 1, name);
      assert Pop(e).scopes[..|e.scopes| - k] == e.scopes[..|e.scopes| - k];
    }
  }

  /** Being alike is having the same lookups after any number of pops down to the freeze. */
  lemma AlikeIsPops<V(!new)>(plain: Env<V>, frozen: Env<V>, n: nat)
    requires 1 <= n <= |plain.scopes| && |frozen.scopes| == |plain.scopes| - n + 1
    ensures Alike(plain, frozen, n) <==>
            forall k: nat, name: string :: k < |frozen.scopes| ==> SameAfterPops(plain, frozen, k, name)
  {
    var m := |frozen.scopes|;
    forall k: nat, name: string | k < m
      ensures SameAfterPops(plain, frozen, k, name) == SameView(plain, frozen, n, m - k, name)
    {
      PopsAreViews(plain, k, name);
      PopsAreViews(frozen, k, name);
    }
    if Alike(plain, frozen, n) {
      forall k: nat, name: string | k < m ensures SameAfterPops(plain, frozen, k, name) {
        assert SameView(plain, frozen, n, m - k, name);
      }
    } else {
      var j: nat, name: string :| 1 <= j <= m && !SameView(plain, frozen, n, j, name);
      assert !SameAfterPops(plain, frozen, m - j, name) by {
        assert SameAfterPops(plain, frozen, m - j, name) == SameView(plain, frozen, n, m - (m - j), name);
      }
    }
  }

  ghost predicate SameAfterPops<V(!new)>(plain: Env<V>, frozen: Env<V>, k: nat, name: string) {
    Get(PopTimes(frozen, k), name) == Get(PopTimes(plain, k), name)
  }

  // ---- where an update writes ----

  /** How many scopes reach up to the one that an update of `name` writes. */
  function Home<V>(scopes: seq<map<string, V>>, name: string): (k: nat)
    ensures k <= |scopes| && (scopes != [] ==> k >= 1)
  {
    if Find(scopes, name).None? || name in scopes[|scopes| - 1] then |scopes|
    else
      assert Find(scopes[..|scopes| - 1], name).Some?;
      Home(scopes[..|scopes| - 1], name)
  }

  lemma {:induction false} OverwriteTake<V>(scopes: seq<map<string, V>>, name: string, v: V, k: nat)
    requires Find(scopes, name).Some? && k <= |scopes|
    ensures Overwrite(scopes, name, v)[..k] ==
            if k >= Home(scopes, name) then Overwrite(scopes[..k], name, v) else scopes[..k]
    ensures k >= Home(scopes, name) ==> Find(scopes[..k], name).Some?
  {
    var init, inner := scopes[..|scopes| - 1], scopes[|scopes| - 1];
    if k == |scopes| {
      assert scopes[..k] == scopes && Overwrite(scopes, name, v)[..k] == Overwrite(scopes, name, v);
    } else {
      assert init[..k] == scopes[..k];
      if name in inner {
        assert (init + [inner[name := v]])[..k] == init[..k];
      } else {
        OverwriteTake(init, name, v, k);
        assert (Overwrite(init, name, v) + [inner])[..k] == Overwrite(init, name, v)[..k];
      }
    }
  }

  /** An update is seen from the scope it writes on upward, and nowhere else. */
  lemma UpdateView<V>(e: Env<V>, name: string, v: V, k: nat, other: string)
    requires 1 <= k <= |e.scopes|
    ensures Below(Update(e, name, v), k, other) ==
            if other == name && k >= Home(e.scopes, name) then Some(v) else Below(e, k, other)
  {
    if Find(e.scopes, name).Some? {
      OverwriteTake(e.scopes, name, v, k);
      if k >= Home(e.scopes, name) {
        FindOverwrite(e.scopes[..k], name, v, other);
      }
    } else {
      SetView(e, name, v, k, other);
    }
  }

  lemma SetView<V>(e: Env<V>, name: string, v: V, k: nat, other: string)
    requires 1 <= k <= |e.scopes|
    ensures Below(Set(e, name, v), k, other) ==
            if other == name && k == |e.scopes| then Some(v) else Below(e, k, other)
  {
    var s, last := e.scopes, |e.scopes| - 1;
    var r := SetIn(s, name, v);
    if k == |s| {
      assert r[..k] == r && s[..k] == s && r[..last] == s[..last];
    } else {
      assert r[..k] == s[..k];
    }
  }

  // ---- the exact condition ----

  /** The level of the frozen environment that corresponds to scope count `k` of the plain one. */
  function LevelOf(n: nat, k: nat): (j: nat)
    ensures j >= 1
  {
    if k < n then 1 else k - n + 1
  }

  /** From the lower to the higher of the two scopes written, every level already answers `v`. */
  ghost predicate SameWrite<V(!new)>(plain: Env<V>, frozen: Env<V>, n: nat, name: string, v: V)
    requires |frozen.scopes| >= 1
  {
    var p, f := LevelOf(n, Home(plain.scopes, name)), Home(frozen.scopes, name);
    var low, high := if p < f then p else f, if p < f then f else p;
    forall j: nat :: low <= j < high && j <= |frozen.scopes| ==> Below(frozen, j, name) == Some(v)
  }

  ghost predicate Harmless<V(!new)>(plain: Env<V>, frozen: Env<V>, n: nat, op: Op<V>)
    requires |frozen.scopes| >= 1
  {
    match op
    case PushScope => true
    case SetVar(_, _) => true
    case PopScope => |frozen.scopes| > 1 || n == 1 || forall name: string :: Get(Pop(plain), name) == Get(plain, name)
    case UpdateVar(name, v) => SameWrite(plain, frozen, n, name, v)
  }

  /** The plain scopes that the freeze stands for; a pop at the freeze takes one of them. */
  function Depth<V>(frozen: Env<V>, n: nat, op: Op<V>): nat {
    if op.PopScope? && |frozen.scopes| == 1 && n > 1 then n - 1 else n
  }

  /** One step keeps the two environments alike if and only if it is harmless. */
  lemma StepAlike<V(!new)>(plain: Env<V>, frozen: Env<V>, n: nat, op: Op<V>)
    requires Alike(plain, frozen, n)
    ensures Alike(Step(plain, op), Step(frozen, op), Depth(frozen, n, op)) <==> Harmless(plain, frozen, n, op)
  {
    match op
    case PushScope => PushAlike(plain, frozen, n);
    case PopScope =>
      if |frozen.scopes| > 1 {
        PopAlike(plain, frozen, n);
      } else if n > 1 {
        PopAtFreeze(plain, frozen, n);
      }
    case SetVar(name, v) => SetAlike(plain, frozen, n, name, v);
    case UpdateVar(name, v) => UpdateAlike(plain, frozen, n, name, v);
  }

  lemma PushAlike<V(!new)>(plain: Env<V>, frozen: Env<V>, n: nat)
    requires Alike(plain, frozen, n)
    ensures Alike(Push(plain), Push(frozen), n)
  {
    var m := |frozen.scopes|;
    forall j: nat, name: string | 1 <= j <= m + 1 ensures SameView(Push(plain), Push(frozen), n, j, name) {
      PushView(plain, n + j - 1, name);
      PushView(frozen, j, name);
      assert SameView(plain, frozen, n, if j <= m then j else m, name);
    }
  }

  lemma PushView<V>(e: Env<V>, k: nat, name: string)
    requires k <= |e.scopes| + 1
    ensures Below(Push(e), k, name) == Below(e, if k <= |e.scopes| then k else |e.scopes|, name)
  {
    var s := e.scopes;
    if k <= |s| {
      assert Push(e).scopes[..k] == s[..k];
    } else {
      var r := s + [map[]];
      assert r[..k] == r && r[..|r| - 1] == s && s[..|s|] == s;
    }
  }

  lemma PopAlike<V(!new)>(plain: Env<V>, frozen: Env<V>, n: nat)
    requires Alike(plain, frozen, n) && |frozen.scopes| > 1
    ensures Alike(Pop(plain), Pop(frozen), n)
  {
    forall j: nat, name: string | 1 <= j <= |frozen.scopes| - 1
      ensures SameView(Pop(plain), Pop(frozen), n, j, name)
    {
      assert SameView(plain, frozen, n, j, name);
      assert Pop(plain).scopes[..n + j - 1] == plain.scopes[..n + j - 1];
      assert Pop(frozen).scopes[..j] == frozen.scopes[..j];
    }
  }

  /** Popping at the freeze: the plain stack loses a scope, the frozen one does not. */
  lemma PopAtFreeze<V(!new)>(plain: Env<V>, frozen: Env<V>, n: nat)
    requires Alike(plain, frozen, n) && |frozen.scopes| == 1 && n > 1
    ensures Alike(Pop(plain), frozen, n - 1) <==> forall name: string :: Get(Pop(plain), name) == Get(plain, name)
  {
    var p := Pop(plain);
    assert p.scopes[..n - 1] == p.scopes && plain.scopes[..n] == plain.scopes;
    forall name: string ensures SameView(p, frozen, n - 1, 1, name) == (Get(p, name) == Get(plain, name)) {
      assert SameView(plain, frozen, n, 1, name);
    }
  }

  lemma SetAlike<V(!new)>(plain: Env<V>, frozen: Env<V>, n: nat, name: string, v: V)
    requires Alike(plain, frozen, n)
    ensures Alike(Set(plain, name, v), Set(frozen, name, v), n)
  {
    forall j: nat, other: string | 1 <= j <= |frozen.scopes|
      ensures SameView(Set(plain, name, v), Set(frozen, name, v), n, j, other)
    {
      SetView(plain, name, v, n + j - 1, other);
      SetView(frozen, name, v, j, other);
      assert SameView(plain, frozen, n, j, other);
    }
  }

  lemma UpdateAlike<V(!new)>(plain: Env<V>, frozen: Env<V>, n: nat, name: string, v: V)
    requires Alike(plain, frozen, n)
    ensures Alike(Update(plain, name, v), Update(frozen, name, v), n) <==> SameWrite(plain, frozen, n, name, v)
  {
    var p, f := Update(plain, name, v), Update(frozen, name, v);
    if SameWrite(plain, frozen, n, name, v) {
      forall j: nat, other: string | 1 <= j <= |frozen.scopes| ensures SameView(p, f, n, j, other) {
        UpdateViews(plain, frozen, n, name, v, j, other);
      }
    } else {
      var a, b := LevelOf(n, Home(plain.scopes, name)), Home(frozen.scopes, name);
      var low, high := if a < b then a else b, if a < b then b else a;
      var j: nat :| low <= j < high && j <= |frozen.scopes| && Below(frozen, j, name) != Some(v);
      UpdateViews(plain, frozen, n, name, v, j, name);
      assert !SameView(p, f, n, j, name);
    }
  }

  lemma UpdateViews<V(!new)>(
    plain: Env<V>, frozen: Env<V>, n: nat, name: string, v: V, j: nat, other: string)
    requires Alike(plain, frozen, n) && 1 <= j <= |frozen.scopes|
    ensures var p, f := Update(plain, name, v), Update(frozen, name, v);
            && Below(f, j, other) ==
               (if other == name && j >= Home(frozen.scopes, name) then Some(v) else Below(frozen, j, other))
            && Below(p, n + j - 1, other) ==
               (if other == name && j >= LevelOf(n, Home(plain.scopes, name)) then Some(v) else Below(frozen, j, other))
  {
    UpdateView(frozen, name, v, j, other);
    UpdateView(plain, name, v, n + j - 1, other);
    assert SameView(plain, frozen, n, j, other);
  }

  // ---- whole runs ----

  ghost predicate AlikeThroughout<V(!new)>(plain: Env<V>, frozen: Env<V>, n: nat, ops: seq<Op<V>>)
    decreases |ops|
  {
    && Alike(plain, frozen, n)
    && (ops == [] ||
        AlikeThroughout(Step(plain, ops[0]), Step(frozen, ops[0]), Depth(frozen, n, ops[0]), ops[1..]))
  }

  ghost predicate HarmlessRun<V(!new)>(plain: Env<V>, frozen: Env<V>, n: nat, ops: seq<Op<V>>)
    decreases |ops|
  {
    ops == [] ||
    (&& |frozen.scopes| >= 1 && Harmless(plain, frozen, n, ops[0])
     && HarmlessRun(Step(plain, ops[0]), Step(frozen, ops[0]), Depth(frozen, n, ops[0]), ops[1..]))
  }

  /** The two stay alike at every point of a run if and only if each of its steps is harmless. */
  lemma {:induction false} RunAlike<V(!new)>(plain: Env<V>, frozen: Env<V>, n: nat, ops: seq<Op<V>>)
    requires Alike(plain, frozen, n)
    ensures AlikeThroughout(plain, frozen, n, ops) <==> HarmlessRun(plain, frozen, n, ops)
    decreases |ops|
  {
    if ops != [] {
      var p, f, d := Step(plain, ops[0]), Step(frozen, ops[0]), Depth(frozen, n, ops[0]);
      StepAlike(plain, frozen, n, ops[0]);
      if Alike(p, f, d) {
        RunAlike(p, f, d, ops[1..]);
      }
    }
  }

  lemma FreezeAlike<V(!new)>(e: Env<V>)
    requires e.scopes != []
    ensures Alike(e, Freeze(e), |e.scopes|)
  {
    var f, n := Freeze(e), |e.scopes|;
    assert f.scopes[..1] == f.scopes && e.scopes[..n] == e.scopes;
    forall j: nat, name: string | 1 <= j <= 1 ensures SameView(e, f, n, j, name) {
      FreezeKeepsLookups(e, name);
    }
  }

  /** From the moment of freezing: unobservable through a run exactly when every step is harmless. */
  lemma FreezeExactly<V(!new)>(e: Env<V>, ops: seq<Op<V>>)
    requires e.scopes != []
    ensures AlikeThroughout(e, Freeze(e), |e.scopes|, ops) <==> HarmlessRun(e, Freeze(e), |e.scopes|, ops)
  {
    FreezeAlike(e);
    RunAlike(e, Freeze(e), |e.scopes|, ops);
  }

  // ---- the operations that a frozen environment should not see ----

  lemma MirrorsAlike<V(!new)>(plain: Env<V>, frozen: Env<V>, n: nat)
    requires Mirrors(plain, frozen, n)
    ensures Alike(plain, frozen, n)
  {
    forall j: nat, name: string | 1 <= j <= |frozen.scopes| ensures SameView(plain, frozen, n, j, name) {
      MirrorsView(plain, frozen, n, j, name);
    }
  }

  lemma MirrorsView<V(!new)>(plain: Env<V>, frozen: Env<V>, n: nat, j: nat, name: string)
    requires Mirrors(plain, frozen, n) && 1 <= j <= |frozen.scopes|
    ensures SameView(plain, frozen, n, j, name)
  {
    var nested := frozen.scopes[1..][..j - 1];
    TakeSplits(frozen.scopes, 1, j);
    TakeSplits(plain.scopes, n, n + j - 1);
    FindConcat(frozen.scopes[..1], nested, name);
    FindConcat(plain.scopes[..n], nested, name);
    assert Below(frozen, 1, name) == Below(plain, n, name);
  }

  lemma TakeSplits<T>(s: seq<T>, i: nat, j: nat)
    requires i <= j <= |s|
    ensures s[..j] == s[..i] + s[i..][..j - i]
  {
  }

  /** What `Allowed` admits is harmless. */
  lemma AllowedIsHarmless<V(!new)>(plain: Env<V>, frozen: Env<V>, n: nat, op: Op<V>)
    requires Mirrors(plain, frozen, n) && Allowed(frozen, op)
    ensures Harmless(plain, frozen, n, op)
  {
    MirrorsAlike(plain, frozen, n);
    StepMirrors(plain, frozen, n, op);
    MirrorsAlike(Step(plain, op), Step(frozen, op), n);
    StepAlike(plain, frozen, n, op);
  }

  lemma {:induction false} FindNone<V>(scopes: seq<map<string, V>>, name: string, k: nat)
    requires Find(scopes, name).None? && k <= |scopes|
    ensures Find(scopes[..k], name).None?
  {
    assert scopes == scopes[..k] + scopes[k..];
    FindConcat(scopes[..k], scopes[k..], name);
  }

  lemma HomeBelow<V>(scopes: seq<map<string, V>>, name: string, n: nat)
    requires n <= |scopes| && Find(scopes[n..], name).None? && Find(scopes, name).Some?
    ensures Home(scopes, name) <= n
    decreases |scopes|
  {
    var last := |scopes| - 1;
    if n <= last {
      var top := scopes[n..];
      assert top[..|top| - 1] == scopes[..last][n..] && top[|top| - 1] == scopes[last];
      HomeBelow(scopes[..last], name, n);
    }
  }

  /**
   * From a nested scope, an update of a name that only the base has is unobservable
   * exactly when it writes the value the name already has; any other value is exposed by
   * popping back to the freeze.
   */
  lemma BaseUpdateExactly<V(!new)>(plain: Env<V>, frozen: Env<V>, n: nat, name: string, v: V)
    requires Mirrors(plain, frozen, n) && !Allowed(frozen, UpdateVar(name, v)) && Find(plain.scopes[..n], name).Some?
    ensures Alike(Update(plain, name, v), Update(frozen, name, v), n) <==> frozen.base[name] == v
    ensures frozen.base[name] != v ==>
              Get(PopTimes(Update(frozen, name, v), |frozen.scopes| - 1), name)
                != Get(PopTimes(Update(plain, name, v), |frozen.scopes| - 1), name)
  {
    var m := |frozen.scopes|;
    MirrorsAlike(plain, frozen, n);
    BaseUpdateHomes(plain, frozen, n, name, v);
    UpdateAlike(plain, frozen, n, name, v);
    UpdateViews(plain, frozen, n, name, v, 1, name);
    PopsAreViews(Update(frozen, name, v), m - 1, name);
    PopsAreViews(Update(plain, name, v), m - 1, name);
    assert Below(frozen, 1, name) == Some(frozen.base[name]);
  }

  /** The frozen environment writes its innermost scope, the plain one writes below the freeze. */
  lemma BaseUpdateHomes<V(!new)>(plain: Env<V>, frozen: Env<V>, n: nat, name: string, v: V)
    requires Mirrors(plain, frozen, n) && !Allowed(frozen, UpdateVar(name, v)) && Find(plain.scopes[..n], name).Some?
    ensures Home(frozen.scopes, name) == |frozen.scopes| && LevelOf(n, Home(plain.scopes, name)) == 1
    ensures forall j: nat :: j <= |frozen.scopes| ==> Below(frozen, j, name) == Some(frozen.base[name])
  {
    forall j: nat | j <= |frozen.scopes| ensures Below(frozen, j, name) == Some(frozen.base[name]) {
      FindNone(frozen.scopes, name, j);
    }
    assert Find(plain.scopes[n..], name).None? by {
      assert frozen.scopes == frozen.scopes[..1] + frozen.scopes[1..];
      FindConcat(frozen.scopes[..1], frozen.scopes[1..], name);
    }
    FindConcat(plain.scopes[..n], plain.scopes[n..], name);
    assert plain.scopes == plain.scopes[..n] + plain.scopes[n..];
    HomeBelow(plain.scopes, name, n);
  }

  /** A pop right after the freeze shows whenever the popped scope decided a lookup. */
  lemma PopOfFreezeShows<V>(e: Env<V>, name: string)
    requires |e.scopes| > 1 && Get(Pop(e), name) != Get(e, name)
    ensures Get(Pop(Freeze(e)), name) != Get(Pop(e), name)
  {
    FreezeKeepsLookups(e, name);
  }

  /** Such a scope: a name that nothing else defines. */
  lemma PopOfFreezeShowsAt<V>(e: Env<V>, name: string, v: V)
    requires e.scopes != [] && Get(e, name).None?
    ensures var inner := Set(Push(e), name, v);
            Get(Pop(inner), name).None? && Get(Pop(Freeze(inner)), name) == Some(v)
  {
    var inner := Set(Push(e), name, v);
    assert Push(e).scopes[..|e.scopes|] == e.scopes;
    assert inner.scopes == e.scopes + [map[name := v]];
    assert inner.scopes[..|e.scopes|] == e.scopes;
    FreezeKeepsLookups(inner, name);
  }
}
