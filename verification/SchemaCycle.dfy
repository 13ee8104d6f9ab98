/**
 * Relation-aware search for reference cycles among schemas (src/schema_cycle.rs):
 * sound, complete and terminating.
 */
module SchemaCycle {
  import opened Options

  type Refs = map<string, seq<string>>

  /** A reference that the validator follows: its target is not a persistent schema. */
  predicate Edge(refs: Refs, persistent: set<string>, a: string, b: string) {
    a in refs && b in refs[a] && b !in persistent
  }

  predicate IsWalk(refs: Refs, persistent: set<string>, p: seq<string>) {
    forall i :: 1 <= i < |p| ==> Edge(refs, persistent, p[i - 1], p[i])
  }

  /** A closed walk through value schemas only. */
  predicate IsCycle(refs: Refs, persistent: set<string>, c: seq<string>) {
    && |c| >= 2 && c[0] == c[|c| - 1]
    && IsWalk(refs, persistent, c)
    && forall i :: 0 <= i < |c| ==> c[i] !in persistent
  }

  /** Every followed reference out of the ranked schemas leads to a lower rank, or to no schema. */
  ghost predicate Ranked(refs: Refs, persistent: set<string>, rank: map<string, nat>) {
    forall a, b :: a in rank && Edge(refs, persistent, a, b) && b in refs ==> b in rank && rank[b] < rank[a]
  }

  lemma {:induction false} RankFalls(refs: Refs, persistent: set<string>, rank: map<string, nat>, p: seq<string>)
    requires Ranked(refs, persistent, rank) && IsWalk(refs, persistent, p)
    requires |p| >= 2 && p[0] in rank && p[|p| - 1] in refs
    ensures p[|p| - 1] in rank && rank[p[|p| - 1]] < rank[p[0]]
    decreases |p|
  {
    assert Edge(refs, persistent, p[0], p[1]);
    if |p| > 2 {
      assert Edge(refs, persistent, p[1], p[2]);
      forall i | 1 <= i < |p[1..]| ensures Edge(refs, persistent, p[1..][i - 1], p[1..][i]) {
        assert Edge(refs, persistent, p[i], p[i + 1]);
      }
      RankFalls(refs, persistent, rank, p[1..]);
    }
  }

  lemma CycleStarts(refs: Refs, persistent: set<string>, c: seq<string>)
    ensures IsCycle(refs, persistent, c) ==> c[0] in refs && c[0] !in persistent
  {
    if IsCycle(refs, persistent, c) {
      assert Edge(refs, persistent, c[0], c[1]);
    }
  }

  /** No cycle passes through a ranked schema. */
  lemma RankForbidsCycle(refs: Refs, persistent: set<string>, rank: map<string, nat>, c: seq<string>)
    requires Ranked(refs, persistent, rank) && |c| > 0 && c[0] in rank
    ensures !IsCycle(refs, persistent, c)
  {
    CycleStarts(refs, persistent, c);
    if IsWalk(refs, persistent, c) && |c| >= 2 && c[0] == c[|c| - 1] && c[0] in refs {
      RankFalls(refs, persistent, rank, c);
    }
  }

  /** When every value schema is ranked there is no cycle at all. */
  lemma RankForbidsCycles(refs: Refs, persistent: set<string>, rank: map<string, nat>)
    requires Ranked(refs, persistent, rank) && rank.Keys == refs.Keys - persistent
    ensures forall c :: !IsCycle(refs, persistent, c)
  {
    forall c ensures !IsCycle(refs, persistent, c) {
      CycleStarts(refs, persistent, c);
      if |c| > 0 && c[0] in rank {
        RankForbidsCycle(refs, persistent, rank, c);
      }
    }
  }

  /** The stack of a search: a walk through value schemas. */
  ghost predicate GoodPath(refs: Refs, persistent: set<string>, path: seq<string>, onPath: set<string>) {
    && (forall n :: n in onPath <==> n in path)
    && (forall i :: 0 <= i < |path| ==> path[i] !in persistent)
    && IsWalk(refs, persistent, path)
  }

  /** The finished schemas, ranked in the order in which they were finished. */
  ghost predicate GoodRank(refs: Refs, persistent: set<string>, visited: set<string>, rank: map<string, nat>) {
    && visited == rank.Keys && visited <= refs.Keys - persistent
    && (forall n :: n in rank ==> rank[n] < |rank|)
    && Ranked(refs, persistent, rank)
  }

  lemma Extends(refs: Refs, persistent: set<string>, path: seq<string>, onPath: set<string>, node: string)
    requires GoodPath(refs, persistent, path, onPath) && node !in persistent
    requires path != [] ==> Edge(refs, persistent, path[|path| - 1], node)
    ensures GoodPath(refs, persistent, path + [node], onPath + {node})
  {
    var p := path + [node];
    forall i | 1 <= i < |p| ensures Edge(refs, persistent, p[i - 1], p[i]) {
      if i < |path| {
        assert Edge(refs, persistent, path[i - 1], path[i]);
      }
    }
  }

  lemma Finishes(refs: Refs, persistent: set<string>, visited: set<string>, rank: map<string, nat>, node: string)
    requires GoodRank(refs, persistent, visited, rank) && node in refs && node !in persistent && node !in visited
    requires forall j :: 0 <= j < |refs[node]| ==> Settled(refs, persistent, visited, refs[node][j])
    ensures GoodRank(refs, persistent, visited + {node}, rank[node := |rank|])
  {
    var grown := rank[node := |rank|];
    assert |grown| == |rank| + 1 by {
      assert grown.Keys == rank.Keys + {node};
    }
    forall a, b | a in grown && Edge(refs, persistent, a, b) && b in refs
      ensures b in grown && grown[b] < grown[a]
    {
      if a == node {
        var j :| 0 <= j < |refs[node]| && refs[node][j] == b;
        assert Settled(refs, persistent, visited, refs[node][j]);
      } else {
        assert b in rank && rank[b] < rank[a];
      }
    }
  }

  /** A reference that the search need not follow any more. */
  predicate Settled(refs: Refs, persistent: set<string>, visited: set<string>, n: string) {
    n in persistent || n !in refs || n in visited
  }

  lemma ClosesCycle(
    refs: Refs, persistent: set<string>, path: seq<string>, onPath: set<string>, pos: nat, next: string)
    requires GoodPath(refs, persistent, path, onPath) && pos < |path| && path[pos] == next
    requires Edge(refs, persistent, path[|path| - 1], next)
    ensures IsCycle(refs, persistent, path[pos..] + [next])
  {
    var c := path[pos..] + [next];
    forall i | 1 <= i < |c| ensures Edge(refs, persistent, c[i - 1], c[i]) {
      if i < |c| - 1 {
        assert Edge(refs, persistent, path[pos + i - 1], path[pos + i]);
      }
    }
  }

  /** The state of one search. */
  class Search {
    const refs: Refs
    const persistent: set<string>
    var path: seq<string>
    var onPath: set<string>
    var visited: set<string>
    ghost var rank: map<string, nat>

    ghost predicate Valid()
      reads this
    {
      && GoodPath(refs, persistent, path, onPath)
      && GoodRank(refs, persistent, visited, rank)
      && visited !! onPath
    }

    constructor (refs: Refs, persistent: set<string>)
      ensures Valid() && this.refs == refs && this.persistent == persistent
      ensures path == [] && onPath == {} && visited == {} && rank == map[]
    {
      this.refs, this.persistent := refs, persistent;
      path, onPath, visited, rank := [], {}, {}, map[];
    }

    /** Depth-first search from `node`; a reference back onto the path closes a cycle. */
    method Walk(node: string) returns (cycle: Option<seq<string>>)
      requires Valid() && node in refs && node !in persistent && node !in onPath && node !in visited
      requires path != [] ==> Edge(refs, persistent, path[|path| - 1], node)
      modifies this
      ensures cycle.Some? ==> IsCycle(refs, persistent, cycle.value)
      ensures cycle.None? ==> Valid() && path == old(path) && onPath == old(onPath)
      ensures cycle.None? ==> node in visited && old(visited) <= visited
      decreases refs.Keys - onPath, 1
    {
      Enter(node);
      cycle := FollowAll(node);
      if cycle.None? {
        Leave(node);
        assert path == old(path);
      }
    }

    method FollowAll(node: string) returns (cycle: Option<seq<string>>)
      requires Valid() && path != [] && path[|path| - 1] == node && node in refs
      modifies this
      ensures cycle.Some? ==> IsCycle(refs, persistent, cycle.value)
      ensures cycle.None? ==> Valid() && path == old(path) && onPath == old(onPath) && old(visited) <= visited
      ensures cycle.None? ==>
                forall j :: 0 <= j < |refs[node]| ==> Settled(refs, persistent, visited, refs[node][j])
      decreases refs.Keys - onPath, 3
    {
      var neighbors := refs[node];
      var i := 0;
      while i < |neighbors|
        invariant 0 <= i <= |neighbors|
        invariant Valid() && path == old(path) && onPath == old(onPath) && old(visited) <= visited
        invariant forall j :: 0 <= j < i ==> Settled(refs, persistent, visited, neighbors[j])
      {
        cycle := Follow(node, neighbors[i]);
        if cycle.Some? {
          return;
        }
        i := i + 1;
      }
      cycle := None;
    }

    method Enter(node: string)
      requires Valid() && node !in persistent && node !in onPath && node !in visited
      requires path != [] ==> Edge(refs, persistent, path[|path| - 1], node)
      modifies this`path, this`onPath
      ensures Valid() && path == old(path) + [node] && onPath == old(onPath) + {node}
    {
      Extends(refs, persistent, path, onPath, node);
      path, onPath := path + [node], onPath + {node};
    }

    /** One reference out of the schema on top of the path. */
    method Follow(node: string, next: string) returns (cycle: Option<seq<string>>)
      requires Valid() && path != [] && path[|path| - 1] == node && node in refs && next in refs[node]
      modifies this
      ensures cycle.Some? ==> IsCycle(refs, persistent, cycle.value)
      ensures cycle.None? ==> Valid() && path == old(path) && onPath == old(onPath)
      ensures cycle.None? ==> Settled(refs, persistent, visited, next) && old(visited) <= visited
      decreases refs.Keys - onPath, 2
    {
      if next in persistent {
        return None;
      }
      assert Edge(refs, persistent, node, next);
      if next in onPath {
        var pos := Position(next);
        ClosesCycle(refs, persistent, path, onPath, pos, next);
        return Some(path[pos..] + [next]);
      }
      if next in refs && next !in visited {
        cycle := Walk(next);
      } else {
        cycle := None;
      }
    }

    method Leave(node: string)
      requires Valid() && path != [] && path[|path| - 1] == node && node !in path[..|path| - 1]
      requires node in refs
      requires forall j :: 0 <= j < |refs[node]| ==> Settled(refs, persistent, visited, refs[node][j])
      modifies this
      ensures Valid() && path == old(path)[..|old(path)| - 1]
      ensures onPath == old(onPath) - {node} && visited == old(visited) + {node}
    {
      Finishes(refs, persistent, visited, rank, node);
      Shrinks(refs, persistent, path, onPath);
      onPath, visited, rank := onPath - {node}, visited + {node}, rank[node := |rank|];
      path := path[..|path| - 1];
    }

    method Position(n: string) returns (k: nat)
      requires n in path
      ensures k < |path| && path[k] == n && n !in path[..k]
    {
      k := 0;
      while path[k] != n
        invariant 0 <= k < |path| && n !in path[..k]
        decreases |path| - k
      {
        assert path[..k + 1] == path[..k] + [path[k]];
        k := k + 1;
        assert path == path[..k] + path[k..];
      }
    }
  }

  lemma Shrinks(refs: Refs, persistent: set<string>, path: seq<string>, onPath: set<string>)
    requires GoodPath(refs, persistent, path, onPath) && path != []
    requires path[|path| - 1] !in path[..|path| - 1]
    ensures GoodPath(refs, persistent, path[..|path| - 1], onPath - {path[|path| - 1]})
  {
    var p, top := path[..|path| - 1], path[|path| - 1];
    assert path == p + [top];
    forall i | 1 <= i < |p| ensures Edge(refs, persistent, p[i - 1], p[i]) {
      assert Edge(refs, persistent, path[i - 1], path[i]);
    }
  }

  /**
   * Searches from every value schema, in the given order of names. The answer is a cycle
   * exactly when there is one; without one, the value references are ranked.
   */
  method FindDisallowedCycle(refs: Refs, persistent: set<string>, names: seq<string>)
    returns (cycle: Option<seq<string>>, ghost rank: map<string, nat>)
    requires forall n :: n in names <==> n in refs
    ensures cycle.Some? <==> exists c :: IsCycle(refs, persistent, c)
    ensures cycle.Some? ==> IsCycle(refs, persistent, cycle.value)
    ensures cycle.None? ==> Ranked(refs, persistent, rank) && rank.Keys == refs.Keys - persistent
  {
    cycle, rank := SearchAll(refs, persistent, names);
    if cycle.None? {
      AllRanked(refs, persistent, names, rank);
      RankForbidsCycles(refs, persistent, rank);
    }
  }

  method SearchAll(refs: Refs, persistent: set<string>, names: seq<string>)
    returns (cycle: Option<seq<string>>, ghost rank: map<string, nat>)
    requires forall j :: 0 <= j < |names| ==> names[j] in refs
    ensures cycle.Some? ==> IsCycle(refs, persistent, cycle.value)
    ensures cycle.None? ==> Ranked(refs, persistent, rank) && rank.Keys <= refs.Keys - persistent
    ensures cycle.None? ==> forall j :: 0 <= j < |names| ==> names[j] in persistent || names[j] in rank
  {
    rank := map[];
    ghost var bound: nat := 0;
    var i := 0;
    while i < |names|
      invariant 0 <= i <= |names|
      invariant Below(refs, persistent, rank, bound)
      invariant forall j :: 0 <= j < i ==> names[j] in persistent || names[j] in rank
    {
      if names[i] !in persistent {
        cycle, rank, bound := SearchFrom(refs, persistent, names[i], rank, bound);
        if cycle.Some? {
          return;
        }
      }
      i := i + 1;
    }
    cycle := None;
  }

  /** One fresh search, on top of the schemas ranked so far. */
  method SearchFrom(
    refs: Refs, persistent: set<string>, start: string, ghost was: map<string, nat>, ghost low: nat)
    returns (cycle: Option<seq<string>>, ghost rank: map<string, nat>, ghost bound: nat)
    requires start in refs && start !in persistent && Below(refs, persistent, was, low)
    ensures cycle.Some? ==> IsCycle(refs, persistent, cycle.value)
    ensures cycle.None? ==> start in rank && was.Keys <= rank.Keys && Below(refs, persistent, rank, bound)
  {
    var search := new Search(refs, persistent);
    cycle := search.Walk(start);
    rank, bound := was, low;
    if cycle.None? {
      rank, bound := Raise(refs, persistent, was, low, search.rank);
    }
  }

  ghost predicate Below(refs: Refs, persistent: set<string>, rank: map<string, nat>, bound: nat) {
    && Ranked(refs, persistent, rank) && rank.Keys <= refs.Keys - persistent
    && forall n :: n in rank ==> rank[n] < bound
  }

  lemma AllRanked(refs: Refs, persistent: set<string>, names: seq<string>, rank: map<string, nat>)
    requires forall n :: n in names <==> n in refs
    requires rank.Keys <= refs.Keys - persistent
    requires forall j :: 0 <= j < |names| ==> names[j] in persistent || names[j] in rank
    ensures rank.Keys == refs.Keys - persistent
  {
    forall n | n in refs.Keys - persistent ensures n in rank {
      assert n in names;
    }
  }

  /** The ranks of a further search are put above the earlier ones. */
  lemma Raise(refs: Refs, persistent: set<string>, rank: map<string, nat>, bound: nat, more: map<string, nat>)
    returns (all: map<string, nat>, bound': nat)
    requires Below(refs, persistent, rank, bound) && Below(refs, persistent, more, |more|)
    ensures Below(refs, persistent, all, bound') && all.Keys == rank.Keys + more.Keys
  {
    all := map n | n in rank.Keys + more.Keys :: if n in rank then rank[n] else bound + more[n];
    bound' := bound + |more|;
  }
}
