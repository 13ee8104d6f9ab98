/**
 * The lock-guarded table of route profiles (src/runtime_profile.rs): a lookup under the
 * read lock, and after a miss a second one under the write lock.
 */
module Registry {
  datatype Progress = Looking | Missed | Got(profile: nat)

  datatype Caller = Caller(key: string, at: Progress)

  /** Profiles are numbered in the order of their creation; `made` exist so far. */
  datatype Table = Table(routes: map<string, nat>, made: nat, callers: seq<Caller>)

  /** A new call for a key, or one critical section of caller `i`. */
  datatype Step = Ask(key: string) | Proceed(i: nat)

  function Next(t: Table, step: Step): Table {
    match step
    case Ask(key) => t.(callers := t.callers + [Caller(key, Looking)])
    case Proceed(i) => if i < |t.callers| then Section(t, i) else t
  }

  function Section(t: Table, i: nat): Table
    requires i < |t.callers|
  {
    var key := t.callers[i].key;
    match t.callers[i].at
    case Looking =>
      t.(callers := t.callers[i := Caller(key, if key in t.routes then Got(t.routes[key]) else Missed)])
    case Missed =>
      if key in t.routes then
        t.(callers := t.callers[i := Caller(key, Got(t.routes[key]))])
      else
        Table(t.routes[key := t.made], t.made + 1, t.callers[i := Caller(key, Got(t.made))])
    case Got(_) => t
  }

  function Run(t: Table, steps: seq<Step>): Table
    decreases |steps|
  {
    if steps == [] then t else Run(Next(t, steps[0]), steps[1..])
  }

  predicate Inv(t: Table) {
    && (forall k :: k in t.routes ==> t.routes[k] < t.made)
    && (forall j, k :: j in t.routes && k in t.routes && t.routes[j] == t.routes[k] ==> j == k)
    && forall i :: 0 <= i < |t.callers| && t.callers[i].at.Got? ==>
         t.callers[i].key in t.routes && t.routes[t.callers[i].key] == t.callers[i].at.profile
  }

  lemma {:induction false} RunKeepsInv(t: Table, steps: seq<Step>)
    requires Inv(t)
    ensures Inv(Run(t, steps))
    decreases |steps|
  {
    if steps != [] {
      assert Inv(Next(t, steps[0]));
      RunKeepsInv(Next(t, steps[0]), steps[1..]);
    }
  }

  /** However calls interleave, two of them get the same profile exactly when they name the same route. */
  lemma OneProfilePerRoute(steps: seq<Step>, i: nat, j: nat)
    requires var t := Run(Table(map[], 0, []), steps);
             && i < |t.callers| && j < |t.callers| && t.callers[i].at.Got? && t.callers[j].at.Got?
    ensures var t := Run(Table(map[], 0, []), steps);
            t.callers[i].at.profile == t.callers[j].at.profile <==> t.callers[i].key == t.callers[j].key
  {
    RunKeepsInv(Table(map[], 0, []), steps);
  }
}
