/** What writes to the scope store are seen by (src/environment.rs). */
module ScopeLaws {
  import opened Environment
  import opened Options

  lemma PushReads<V>(e: Env<V>, name: string)
    ensures Get(Push(e), name) == Get(e, name)
  {
    assert (e.scopes + [map[]])[..|e.scopes|] == e.scopes;
  }

  /** After a definition the name has the new value, and every other name the one it had. */
  lemma SetReads<V>(e: Env<V>, name: string, v: V, other: string)
    requires e.scopes != []
    ensures Get(Set(e, name, v), other) == if other == name then Some(v) else Get(e, other)
  {
    var scopes := SetIn(e.scopes, name, v);
    assert scopes[..|scopes| - 1] == e.scopes[..|e.scopes| - 1];
  }

  /** A definition goes with its scope. */
  lemma SetIsLocal<V>(e: Env<V>, name: string, v: V)
    requires e.scopes != []
    ensures Pop(Set(Push(e), name, v)) == e
  {
    var scopes := e.scopes + [map[]];
    assert scopes[..|scopes| - 1] == e.scopes;
    var inner := SetIn(scopes, name, v);
    assert inner[..|inner| - 1] == e.scopes;
  }

  /** After an assignment too, wherever it wrote. */
  lemma UpdateReads<V>(e: Env<V>, name: string, v: V, other: string)
    requires e.scopes != []
    ensures Get(Update(e, name, v), other) == if other == name then Some(v) else Get(e, other)
  {
    if Find(e.scopes, name).Some? {
      FindOverwrite(e.scopes, name, v, other);
    } else {
      SetReads(e, name, v, other);
    }
  }

  /** An assignment in an inner scope stays when the scope goes if and only if an outer one has the name. */
  lemma UpdateReachesOut<V>(e: Env<V>, name: string, v: V)
    requires e.scopes != []
    ensures Pop(Update(Push(e), name, v)) == if Find(e.scopes, name).Some? then Update(e, name, v) else e
  {
    var scopes := e.scopes + [map[]];
    assert scopes[..|scopes| - 1] == e.scopes;
    var inner: seq<map<string, V>> := [map[]];
    FindConcat(e.scopes, inner, name);
    assert inner[..0] == [];
    if Find(e.scopes, name).Some? {
      var after := Overwrite(e.scopes, name, v) + [map[]];
      assert Overwrite(scopes, name, v) == after;
      assert after[..|after| - 1] == Overwrite(e.scopes, name, v);
    } else {
      SetIsLocal(e, name, v);
    }
  }
}
