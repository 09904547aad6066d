// The dependency graph that the module rows describe, and the two algorithms
// of the registry service that walk it.
module ModuleGraph {
  import opened Base

  datatype Module = Module(key: string, dependencies: Option<seq<string>>)

  function DirectDependencies(m: Module): seq<string> {
    m.dependencies.GetOr([])
  }

  /** The unique index on the key column. */
  ghost predicate UniqueKeys(ms: seq<Module>) {
    forall i, j :: 0 <= i < j < |ms| ==> ms[i].key != ms[j].key
  }

  // ----- Reachability in one or more edges -----

  ghost predicate Edge(ms: seq<Module>, a: string, b: string) {
    exists m :: m in ms && m.key == a && b in DirectDependencies(m)
  }

  ghost predicate Path(ms: seq<Module>, p: seq<string>) {
    && |p| >= 2
    && forall i, j :: 0 <= i && j == i + 1 < |p| ==> Edge(ms, p[i], p[j])
  }

  ghost predicate PathBetween(ms: seq<Module>, p: seq<string>, a: string, b: string) {
    Path(ms, p) && p[0] == a && p[|p| - 1] == b
  }

  /** `a` depends on `b`, directly or through other modules. */
  ghost predicate DependsOn(ms: seq<Module>, a: string, b: string) {
    exists p :: PathBetween(ms, p, a, b)
  }

  lemma EdgeIsDependency(ms: seq<Module>, a: string, b: string)
    requires Edge(ms, a, b)
    ensures DependsOn(ms, a, b)
  {
    assert PathBetween(ms, [a, b], a, b);
  }

  lemma DependsOnIsTransitive(ms: seq<Module>, a: string, b: string, c: string)
    requires DependsOn(ms, a, b) && DependsOn(ms, b, c)
    ensures DependsOn(ms, a, c)
  {
    var p :| PathBetween(ms, p, a, b);
    var q :| PathBetween(ms, q, b, c);
    var r := p + q[1..];
    forall i, j | 0 <= i && j == i + 1 < |r|
      ensures Edge(ms, r[i], r[j])
    {
      if j < |p| {
        assert Edge(ms, p[i], p[j]);
      } else {
        assert r[i] == q[i - (|p| - 1)] && r[j] == q[j - (|p| - 1)];
      }
    }
    assert PathBetween(ms, r, a, c);
  }

  /** Every key that leaves `start` in one edge is in `closed`. */
  ghost predicate Expanded(ms: seq<Module>, start: string, closed: seq<string>) {
    forall b :: Edge(ms, start, b) ==> b in closed
  }

  /** Forward induction: what is closed under edges holds everything reachable. */
  lemma ForwardClosure(ms: seq<Module>, a: string, closed: seq<string>, b: string)
    requires Expanded(ms, a, closed)
    requires forall k :: k in closed ==> Expanded(ms, k, closed)
    requires DependsOn(ms, a, b)
    ensures b in closed
  {
    var p :| PathBetween(ms, p, a, b);
    var i := 1;
    assert Edge(ms, p[0], p[1]);
    while i < |p| - 1
      invariant 1 <= i < |p| && p[i] in closed
    {
      assert Edge(ms, p[i], p[i + 1]);
      i := i + 1;
    }
  }

  /** Backward induction: what is closed under predecessors holds every dependent. */
  lemma BackwardClosure(ms: seq<Module>, a: string, target: string, closed: seq<string>)
    requires forall x, y :: Edge(ms, x, y) && (y == target || y in closed) ==> x in closed
    requires DependsOn(ms, a, target)
    ensures a in closed
  {
    var p :| PathBetween(ms, p, a, target);
    var i := |p| - 2;
    assert Edge(ms, p[i], p[i + 1]);
    while i > 0
      invariant 0 <= i < |p| - 1 && p[i] in closed
    {
      i := i - 1;
      assert Edge(ms, p[i], p[i + 1]);
    }
  }

  // ----- The two walks -----

  /** `new Map(allModules.map((m) => [m.key, m]))`: a later row would win. */
  method IndexByKey(ms: seq<Module>) returns (index: map<string, Module>)
    requires UniqueKeys(ms)
    ensures forall k :: k in index <==> exists m :: m in ms && m.key == k
    ensures forall k :: k in index ==> index[k] in ms && index[k].key == k
  {
    index := map[];
    for i := 0 to |ms|
      invariant forall k :: k in index ==> index[k] in ms[..i] && index[k].key == k
      invariant forall m :: m in ms[..i] ==> m.key in index
    {
      index := index[ms[i].key := ms[i]];
    }
    assert ms[..|ms|] == ms;
  }

  /** All keys that some row names as a dependency, with a row behind them or not. */
  ghost function Mentioned(ms: seq<Module>): set<string> {
    set m, d | m in ms && d in DirectDependencies(m) :: d
  }

  ghost function Unseen(ms: seq<Module>, dependencies: seq<string>): nat {
    |Mentioned(ms) - Elements(dependencies)|
  }

  lemma DependencyIsMentioned(ms: seq<Module>, a: string, b: string)
    requires DependsOn(ms, a, b)
    ensures b in Mentioned(ms)
  {
    var p :| PathBetween(ms, p, a, b);
    assert Edge(ms, p[|p| - 2], p[|p| - 1]);
  }

  /** With unique keys, the row that the index finds carries every edge of its key. */
  lemma EdgesOfRow(ms: seq<Module>, m: Module, b: string)
    requires UniqueKeys(ms) && m in ms
    ensures Edge(ms, m.key, b) <==> b in DirectDependencies(m)
  {
    if Edge(ms, m.key, b) {
      var m' :| m' in ms && m'.key == m.key && b in DirectDependencies(m');
      var i :| 0 <= i < |ms| && ms[i] == m;
      var j :| 0 <= j < |ms| && ms[j] == m';
      assert i == j;
    }
  }

  ghost predicate OnlyDependencies(ms: seq<Module>, target: string, dependencies: seq<string>) {
    NoDuplicates(dependencies) && forall k :: k in dependencies ==> DependsOn(ms, target, k)
  }

  /** Whatever was reached is expanded or waits in the queue. */
  ghost predicate Explored(ms: seq<Module>, target: string, dependencies: seq<string>, queue: seq<string>) {
    && (forall k :: k in queue ==> k == target || k in dependencies)
    && (target in queue || Expanded(ms, target, dependencies))
    && (forall k :: k in dependencies ==> k in queue || Expanded(ms, k, dependencies))
  }

  /** The worklist: every key reachable from `target` in one or more edges, each
      once, whatever cycles and dangling names the graph has. */
  method GetTransitiveDependencies(target: string, ms: seq<Module>) returns (dependencies: seq<string>)
    requires UniqueKeys(ms)
    ensures NoDuplicates(dependencies)
    ensures forall k :: k in dependencies <==> DependsOn(ms, target, k)
  {
    var moduleMap := IndexByKey(ms);
    dependencies := [];
    var queue := [target];
    while queue != []
      invariant OnlyDependencies(ms, target, dependencies)
      invariant Explored(ms, target, dependencies, queue)
      decreases Unseen(ms, dependencies), |queue|
    {
      var currentKey := queue[0];
      assert queue == [currentKey] + queue[1..];
      queue := queue[1..];
      if currentKey in moduleMap {
        dependencies, queue := VisitRow(target, ms, moduleMap[currentKey], dependencies, queue);
      } else {
        assert Expanded(ms, currentKey, dependencies);
      }
    }
    ExpandedIsComplete(ms, target, dependencies);
  }

  lemma ExpandedIsComplete(ms: seq<Module>, target: string, dependencies: seq<string>)
    requires Expanded(ms, target, dependencies)
    requires forall k :: k in dependencies ==> Expanded(ms, k, dependencies)
    ensures forall k :: DependsOn(ms, target, k) ==> k in dependencies
  {
    forall k | DependsOn(ms, target, k)
      ensures k in dependencies
    {
      ForwardClosure(ms, target, dependencies, k);
    }
  }

  /** The inner `for` loop: appends the row's unseen dependencies to the set and to the queue. */
  method VisitRow(target: string, ms: seq<Module>, m: Module, seen: seq<string>, pending: seq<string>)
    returns (dependencies: seq<string>, queue: seq<string>)
    requires UniqueKeys(ms) && m in ms
    requires OnlyDependencies(ms, target, seen) && Explored(ms, target, seen, [m.key] + pending)
    ensures OnlyDependencies(ms, target, dependencies) && Explored(ms, target, dependencies, queue)
    ensures Expanded(ms, m.key, dependencies)
    ensures (dependencies == seen && queue == pending) || Unseen(ms, dependencies) < Unseen(ms, seen)
  {
    ghost var found;
    dependencies, queue, found := AppendUnseen(target, ms, m, seen, pending);
    forall b | Edge(ms, m.key, b)
      ensures b in dependencies
    {
      EdgesOfRow(ms, m, b);
    }
    StillExplored(ms, target, m.key, seen, pending, found);
    if found != [] {
      FoundIsSeen(ms, seen, found);
    } else {
      assert seen + found == seen && pending + found == pending;
    }
  }

  method AppendUnseen(target: string, ms: seq<Module>, m: Module, seen: seq<string>, pending: seq<string>)
    returns (dependencies: seq<string>, queue: seq<string>, ghost found: seq<string>)
    requires UniqueKeys(ms) && m in ms && (m.key == target || m.key in seen)
    requires OnlyDependencies(ms, target, seen)
    ensures dependencies == seen + found && queue == pending + found
    ensures OnlyDependencies(ms, target, dependencies)
    ensures forall k :: k in DirectDependencies(m) ==> k in dependencies
    ensures forall k :: k in found ==> k in Mentioned(ms) && k !in seen
  {
    dependencies, queue, found := seen, pending, [];
    var deps := DirectDependencies(m);
    for i := 0 to |deps|
      invariant dependencies == seen + found && queue == pending + found
      invariant OnlyDependencies(ms, target, dependencies)
      invariant forall k :: k in deps[..i] ==> k in dependencies
      invariant forall k :: k in found ==> k in Mentioned(ms) && k !in seen
    {
      var dep := deps[i];
      if dep !in dependencies {
        EdgesOfRow(ms, m, dep);
        EdgeIsDependency(ms, m.key, dep);
        if m.key != target {
          DependsOnIsTransitive(ms, target, m.key, dep);
        }
        dependencies, queue, found := dependencies + [dep], queue + [dep], found + [dep];
      }
    }
    assert deps[..|deps|] == deps;
  }

  /** The expanded key has left the queue; what was found waits in it. */
  lemma StillExplored(ms: seq<Module>, target: string, key: string, seen: seq<string>, pending: seq<string>,
                      found: seq<string>)
    requires Explored(ms, target, seen, [key] + pending) && Expanded(ms, key, seen + found)
    ensures Explored(ms, target, seen + found, pending + found)
  {
    assert forall k :: Expanded(ms, k, seen) ==> Expanded(ms, k, seen + found);
  }

  lemma FoundIsSeen(ms: seq<Module>, seen: seq<string>, found: seq<string>)
    requires found != [] && forall k :: k in found ==> k in Mentioned(ms) && k !in seen
    ensures Unseen(ms, seen + found) < Unseen(ms, seen)
  {
    var before, after := Mentioned(ms) - Elements(seen), Mentioned(ms) - Elements(seen + found);
    assert found[0] in before && found[0] !in after;
    assert after < before;
    SubsetIsSmaller(after, before);
  }

  lemma SubsetIsSmaller<T>(a: set<T>, b: set<T>)
    requires a < b
    ensures |a| < |b|
  {
    var x :| x in b && x !in a;
    assert a <= b - {x};
    assert |b - {x}| == |b| - 1;
    SubsetIsNoLarger(a, b - {x});
  }

  lemma {:induction false} SubsetIsNoLarger<T>(a: set<T>, b: set<T>)
    requires a <= b
    ensures |a| <= |b|
  {
    if a == {} {
    } else {
      var x :| x in a;
      SubsetIsNoLarger(a - {x}, b - {x});
    }
  }

  predicate HasDependency(m: Module, target: string, dependents: seq<string>) {
    && |DirectDependencies(m)| > 0
    && (target in DirectDependencies(m) || exists d :: d in DirectDependencies(m) && d in dependents)
  }

  function KeysOf(ms: seq<Module>): set<string> {
    set m | m in ms :: m.key
  }

  /** Every row with a dependency among `dependents` or on the target is itself in. */
  ghost predicate Settled(ms: seq<Module>, target: string, dependents: seq<string>) {
    forall m :: m in ms && HasDependency(m, target, dependents) ==> m.key in dependents
  }

  ghost predicate OnlyDependents(ms: seq<Module>, target: string, dependents: seq<string>) {
    && NoDuplicates(dependents)
    && forall k :: k in dependents ==> k in KeysOf(ms) && DependsOn(ms, k, target)
  }

  ghost function LeftOut(ms: seq<Module>, dependents: seq<string>): nat {
    |KeysOf(ms) - Elements(dependents)|
  }

  /** The chaotic iteration: repeated passes over the rows, in whatever order they
      come, until a pass adds nothing. */
  method GetTransitiveDependents(target: string, ms: seq<Module>) returns (dependents: seq<string>)
    ensures NoDuplicates(dependents)
    ensures forall k :: k in dependents <==> DependsOn(ms, k, target)
  {
    dependents := [];
    var added := true;
    while added
      invariant OnlyDependents(ms, target, dependents)
      invariant !added ==> Settled(ms, target, dependents)
      decreases LeftOut(ms, dependents), added
    {
      dependents, added := DependentsPass(target, ms, dependents);
    }
    SettledIsComplete(ms, target, dependents);
  }

  /** One pass of the inner `for` loop; rows met later in the pass see what it added. */
  method DependentsPass(target: string, ms: seq<Module>, before: seq<string>)
    returns (dependents: seq<string>, added: bool)
    requires OnlyDependents(ms, target, before)
    ensures OnlyDependents(ms, target, dependents)
    ensures added ==> LeftOut(ms, dependents) < LeftOut(ms, before)
    ensures !added ==> dependents == before && Settled(ms, target, dependents)
  {
    dependents, added := before, false;
    for i := 0 to |ms|
      invariant OnlyDependents(ms, target, dependents)
      invariant added ==> LeftOut(ms, dependents) < LeftOut(ms, before)
      invariant !added ==> dependents == before
      invariant !added ==> forall j :: 0 <= j < i && HasDependency(ms[j], target, dependents) ==>
        ms[j].key in dependents
    {
      var m := ms[i];
      if m.key !in dependents && HasDependency(m, target, dependents) {
        DependentFound(ms, m, target, dependents);
        dependents := dependents + [m.key];
        added := true;
      }
    }
  }

  lemma SettledIsComplete(ms: seq<Module>, target: string, dependents: seq<string>)
    requires Settled(ms, target, dependents)
    ensures forall k :: DependsOn(ms, k, target) ==> k in dependents
  {
    forall x, y | Edge(ms, x, y) && (y == target || y in dependents)
      ensures x in dependents
    {
      var m :| m in ms && m.key == x && y in DirectDependencies(m);
      assert HasDependency(m, target, dependents);
    }
    forall k | DependsOn(ms, k, target)
      ensures k in dependents
    {
      BackwardClosure(ms, k, target, dependents);
    }
  }

  lemma DependentFound(ms: seq<Module>, m: Module, target: string, dependents: seq<string>)
    requires OnlyDependents(ms, target, dependents)
    requires m in ms && m.key !in dependents && HasDependency(m, target, dependents)
    ensures OnlyDependents(ms, target, dependents + [m.key])
    ensures LeftOut(ms, dependents + [m.key]) < LeftOut(ms, dependents)
  {
    RowReachesTarget(ms, m, target, dependents);
    var left := KeysOf(ms) - Elements(dependents);
    assert m.key in left;
    assert KeysOf(ms) - Elements(dependents + [m.key]) == left - {m.key};
  }

  lemma RowReachesTarget(ms: seq<Module>, m: Module, target: string, dependents: seq<string>)
    requires m in ms && HasDependency(m, target, dependents)
    requires forall k :: k in dependents ==> DependsOn(ms, k, target)
    ensures DependsOn(ms, m.key, target)
  {
    if target in DirectDependencies(m) {
      assert Edge(ms, m.key, target);
      EdgeIsDependency(ms, m.key, target);
    } else {
      var d :| d in DirectDependencies(m) && d in dependents;
      assert Edge(ms, m.key, d);
      EdgeIsDependency(ms, m.key, d);
      DependsOnIsTransitive(ms, m.key, d, target);
    }
  }

  // ----- The answers as sets, and their duality -----

  /** What GetTransitiveDependencies answers. */
  ghost function Dependencies(ms: seq<Module>, key: string): set<string> {
    set d | d in Mentioned(ms) && DependsOn(ms, key, d)
  }

  /** What GetTransitiveDependents answers. */
  ghost function Dependents(ms: seq<Module>, key: string): set<string> {
    set m | m in ms && DependsOn(ms, m.key, key) :: m.key
  }

  /** The two answers are exact duals, on any two listings of the same rows. */
  lemma Duality(ms: seq<Module>, ms': seq<Module>, a: string, b: string)
    requires forall m :: m in ms <==> m in ms'
    ensures a in Dependents(ms, b) <==> b in Dependencies(ms', a)
  {
    forall x, y
      ensures Edge(ms, x, y) <==> Edge(ms', x, y)
    {
    }
    if DependsOn(ms, a, b) {
      SameEdgesSameDependencies(ms, ms', a, b);
      DependencyIsMentioned(ms', a, b);
    }
    if DependsOn(ms', a, b) {
      SameEdgesSameDependencies(ms', ms, a, b);
      DependentHasRow(ms, a, b);
    }
  }

  lemma SameEdgesSameDependencies(ms: seq<Module>, ms': seq<Module>, a: string, b: string)
    requires forall x, y :: Edge(ms, x, y) ==> Edge(ms', x, y)
    requires DependsOn(ms, a, b)
    ensures DependsOn(ms', a, b)
  {
    var p :| PathBetween(ms, p, a, b);
    assert PathBetween(ms', p, a, b);
  }

  lemma DependentHasRow(ms: seq<Module>, a: string, b: string)
    requires DependsOn(ms, a, b)
    ensures exists m :: m in ms && m.key == a
  {
    var p :| PathBetween(ms, p, a, b);
    assert Edge(ms, p[0], p[1]);
  }

  /** Dependencies is the least key set that holds the direct ones and is closed under edges. */
  lemma DependenciesAreLeastClosed(ms: seq<Module>, a: string, closed: seq<string>)
    requires Expanded(ms, a, closed)
    requires forall k :: k in closed ==> Expanded(ms, k, closed)
    ensures Dependencies(ms, a) <= Elements(closed)
    ensures forall b :: Edge(ms, a, b) ==> b in Dependencies(ms, a)
    ensures forall b, c :: b in Dependencies(ms, a) && Edge(ms, b, c) ==> c in Dependencies(ms, a)
  {
    forall b | b in Dependencies(ms, a)
      ensures b in closed
    {
      ForwardClosure(ms, a, closed, b);
    }
    forall b | Edge(ms, a, b)
      ensures b in Dependencies(ms, a)
    {
      EdgeIsDependency(ms, a, b);
      DependencyIsMentioned(ms, a, b);
    }
    forall b, c | b in Dependencies(ms, a) && Edge(ms, b, c)
      ensures c in Dependencies(ms, a)
    {
      EdgeIsDependency(ms, b, c);
      DependsOnIsTransitive(ms, a, b, c);
      DependencyIsMentioned(ms, a, c);
    }
  }

  // ----- Growing the graph -----

  /** A row with a new key changes nothing below a key whose dependencies all have rows. */
  lemma NewRowKeepsDependencies(ms: seq<Module>, m: Module, a: string, b: string)
    requires forall x :: x in ms ==> x.key != m.key
    requires a != m.key
    requires forall d :: DependsOn(ms, a, d) ==> d != m.key
    ensures DependsOn(ms + [m], a, b) <==> DependsOn(ms, a, b)
  {
    if DependsOn(ms, a, b) {
      SameEdgesSameDependencies(ms, ms + [m], a, b);
    }
    if DependsOn(ms + [m], a, b) {
      var p :| PathBetween(ms + [m], p, a, b);
      PathStaysOnOldRows(ms, m, p, |p| - 1);
    }
  }

  lemma {:induction false} PathStaysOnOldRows(ms: seq<Module>, m: Module, p: seq<string>, n: nat)
    requires 0 < n < |p| && Path(ms + [m], p)
    requires p[0] != m.key && forall d :: DependsOn(ms, p[0], d) ==> d != m.key
    ensures DependsOn(ms, p[0], p[n])
  {
    assert Edge(ms + [m], p[n - 1], p[n]);
    var x :| x in ms + [m] && x.key == p[n - 1] && p[n] in DirectDependencies(x);
    if n == 1 {
      EdgeIsDependency(ms, p[0], p[1]);
    } else {
      PathStaysOnOldRows(ms, m, p, n - 1);
      EdgeIsDependency(ms, p[n - 1], p[n]);
      DependsOnIsTransitive(ms, p[0], p[n - 1], p[n]);
    }
  }
}
