// Per-tenant registration of modules: the gated create and update of registry
// rows over the module graph, and the access check that reads them.
module RegistryService {
  import opened Base
  import opened ModuleGraph

  datatype Tenant = Tenant(appFamilyKey: string, tenantKey: string)

  datatype Row = Row(tenant: Tenant, moduleKey: string, version: string, isActive: bool)

  /** The two tables. A row's id is its position in creation order: rows are never deleted. */
  datatype Tables = Tables(modules: seq<Module>, rows: seq<Row>)

  datatype Reply =
    | ModuleSaved
    | RowSaved(row: Row)
    | NotFound
    | MissingDependencies(keys: set<string>)
    | ActiveDependents(keys: set<string>)
    | UniqueViolation

  const DEFAULT_VERSION := "1.0.0"

  predicate HasModule(t: Tables, key: string) {
    exists m :: m in t.modules && m.key == key
  }

  predicate Registered(t: Tables, who: Tenant, key: string) {
    exists r :: r in t.rows && r.tenant == who && r.moduleKey == key
  }

  predicate Active(t: Tables, who: Tenant, key: string) {
    exists r :: r in t.rows && r.tenant == who && r.moduleKey == key && r.isActive
  }

  // ----- What each public operation does to the tables -----

  datatype Op =
    | CreateModule(m: Module)
    | CreateRegistry(who: Tenant, key: string, version: Option<string>, isActive: Option<bool>)
    | UpdateRegistry(id: nat, newVersion: Option<string>, setActive: Option<bool>)

  ghost function Missing(t: Tables, who: Tenant, key: string): set<string> {
    set d | d in Dependencies(t.modules, key) && !Active(t, who, d)
  }

  ghost function Blocking(t: Tables, who: Tenant, key: string): set<string> {
    set d | d in Dependents(t.modules, key) && Active(t, who, d)
  }

  ghost function Answer(t: Tables, op: Op): Reply {
    match op
    case CreateModule(m) =>
      if HasModule(t, m.key) then UniqueViolation else ModuleSaved
    case CreateRegistry(who, key, version, isActive) =>
      if !HasModule(t, key) then NotFound
      else if Missing(t, who, key) != {} then MissingDependencies(Missing(t, who, key))
      else if Registered(t, who, key) then UniqueViolation
      else RowSaved(Row(who, key, version.GetOr(DEFAULT_VERSION), isActive.GetOr(true)))
    case UpdateRegistry(id, newVersion, setActive) =>
      if id >= |t.rows| then NotFound
      else
        var r := t.rows[id];
        if setActive == Some(false) && r.isActive && Blocking(t, r.tenant, r.moduleKey) != {}
        then ActiveDependents(Blocking(t, r.tenant, r.moduleKey))
        else RowSaved(r.(version := newVersion.GetOr(r.version), isActive := setActive.GetOr(r.isActive)))
  }

  ghost function Step(t: Tables, op: Op): Tables {
    match Answer(t, op)
    case ModuleSaved =>
      if op.CreateModule? then t.(modules := t.modules + [op.m]) else t
    case RowSaved(row) =>
      if op.CreateRegistry? then t.(rows := t.rows + [row])
      else if op.UpdateRegistry? && op.id < |t.rows| then t.(rows := t.rows[op.id := row])
      else t
    case _ => t
  }

  ghost function Run(t: Tables, ops: seq<Op>): Tables {
    if ops == [] then t else Step(Run(t, ops[..|ops| - 1]), ops[|ops| - 1])
  }

  const EMPTY := Tables([], [])

  // ----- What every run keeps -----

  ghost predicate UniqueRows(t: Tables) {
    forall i, j :: 0 <= i < j < |t.rows| ==>
      t.rows[i].tenant != t.rows[j].tenant || t.rows[i].moduleKey != t.rows[j].moduleKey
  }

  ghost predicate RegisteredBefore(t: Tables, i: int, who: Tenant, key: string) {
    exists j :: 0 <= j < i && j < |t.rows| && t.rows[j].tenant == who && t.rows[j].moduleKey == key
  }

  /** Creation order is a topological order of the registered part of the graph. */
  ghost predicate Topological(t: Tables) {
    forall i, d :: 0 <= i < |t.rows| && DependsOn(t.modules, t.rows[i].moduleKey, d) ==>
      RegisteredBefore(t, i, t.rows[i].tenant, d)
  }

  ghost predicate KeysExist(t: Tables) {
    forall r :: r in t.rows ==> HasModule(t, r.moduleKey)
  }

  ghost predicate Consistent(t: Tables) {
    UniqueKeys(t.modules) && UniqueRows(t) && KeysExist(t) && Topological(t)
  }

  lemma StepKeepsConsistent(t: Tables, op: Op)
    requires Consistent(t)
    ensures Consistent(Step(t, op))
  {
    match op
    case CreateModule(m) =>
      if !HasModule(t, m.key) {
        NewModuleKeepsTopology(t, m);
      }
    case CreateRegistry(who, key, version, isActive) =>
      if Answer(t, op).RowSaved? {
        NewRowKeepsTopology(t, Answer(t, op).row);
      }
    case UpdateRegistry(id, newVersion, setActive) =>
      var t' := Step(t, op);
      if t' != t {
        assert forall i :: 0 <= i < |t.rows| ==>
          t'.rows[i].tenant == t.rows[i].tenant && t'.rows[i].moduleKey == t.rows[i].moduleKey;
        assert KeysExist(t') by {
          forall r | r in t'.rows ensures HasModule(t', r.moduleKey) {
            var i :| 0 <= i < |t'.rows| && t'.rows[i] == r;
            assert t.rows[i] in t.rows;
          }
        }
        forall i, d | 0 <= i < |t'.rows| && DependsOn(t'.modules, t'.rows[i].moduleKey, d)
          ensures RegisteredBefore(t', i, t'.rows[i].tenant, d)
        {
          assert RegisteredBefore(t, i, t.rows[i].tenant, d);
        }
      }
  }

  lemma NewModuleKeepsTopology(t: Tables, m: Module)
    requires Consistent(t) && !HasModule(t, m.key)
    ensures Consistent(t.(modules := t.modules + [m]))
  {
    var t' := t.(modules := t.modules + [m]);
    forall r | r in t'.rows ensures HasModule(t', r.moduleKey) {
      var x :| x in t.modules && x.key == r.moduleKey;
      assert x in t'.modules;
    }
    forall i, d | 0 <= i < |t'.rows| && DependsOn(t'.modules, t'.rows[i].moduleKey, d)
      ensures RegisteredBefore(t', i, t'.rows[i].tenant, d)
    {
      RegisteredKeysAvoid(t, m, t.rows[i]);
      NewRowKeepsDependencies(t.modules, m, t.rows[i].moduleKey, d);
      assert RegisteredBefore(t, i, t.rows[i].tenant, d);
    }
  }

  /** No registered module is, or depends on, a key that has no module row. */
  lemma RegisteredKeysAvoid(t: Tables, m: Module, r: Row)
    requires Consistent(t) && !HasModule(t, m.key) && r in t.rows
    ensures r.moduleKey != m.key
    ensures forall d :: DependsOn(t.modules, r.moduleKey, d) ==> d != m.key
  {
    assert HasModule(t, r.moduleKey);
    var i :| 0 <= i < |t.rows| && t.rows[i] == r;
    forall d | DependsOn(t.modules, r.moduleKey, d)
      ensures d != m.key
    {
      assert RegisteredBefore(t, i, r.tenant, d);
      var j :| 0 <= j < |t.rows| && t.rows[j].moduleKey == d;
      assert HasModule(t, t.rows[j].moduleKey);
    }
  }

  lemma NewRowKeepsTopology(t: Tables, row: Row)
    requires Consistent(t)
    requires HasModule(t, row.moduleKey) && !Registered(t, row.tenant, row.moduleKey)
    requires Missing(t, row.tenant, row.moduleKey) == {}
    ensures Consistent(t.(rows := t.rows + [row]))
  {
    var t' := t.(rows := t.rows + [row]);
    forall r | r in t'.rows ensures HasModule(t', r.moduleKey) {
      assert r in t.rows || r == row;
      assert HasModule(t, r.moduleKey);
    }
    forall i, d | 0 <= i < |t'.rows| && DependsOn(t'.modules, t'.rows[i].moduleKey, d)
      ensures RegisteredBefore(t', i, t'.rows[i].tenant, d)
    {
      if i < |t.rows| {
        assert RegisteredBefore(t, i, t.rows[i].tenant, d);
        var j :| 0 <= j < i && t.rows[j].tenant == t.rows[i].tenant && t.rows[j].moduleKey == d;
        assert t'.rows[j] == t.rows[j];
      } else {
        assert t'.rows[i] == row;
        DependencyIsMentioned(t.modules, row.moduleKey, d);
        assert d !in Missing(t, row.tenant, row.moduleKey);
        var r :| r in t.rows && r.tenant == row.tenant && r.moduleKey == d;
        var j :| 0 <= j < |t.rows| && t.rows[j] == r;
        assert t'.rows[j] == r;
      }
    }
  }

  /** In every run, reactivation included: unique indexes hold and, per tenant, creation
      order is a topological order of the modules. */
  lemma {:induction false} EveryRunIsConsistent(ops: seq<Op>)
    ensures Consistent(Run(EMPTY, ops))
  {
    if ops == [] {
    } else {
      EveryRunIsConsistent(ops[..|ops| - 1]);
      StepKeepsConsistent(Run(EMPTY, ops[..|ops| - 1]), ops[|ops| - 1]);
    }
  }

  /** In every run the registered keys of a tenant are closed under dependency, and none
      of them lies on a cycle. */
  lemma RegisteredKeysAreClosedAndAcyclic(ops: seq<Op>, who: Tenant, key: string, d: string)
    requires Registered(Run(EMPTY, ops), who, key)
    requires DependsOn(Run(EMPTY, ops).modules, key, d)
    ensures Registered(Run(EMPTY, ops), who, d)
    ensures d != key
  {
    var t := Run(EMPTY, ops);
    EveryRunIsConsistent(ops);
    var r :| r in t.rows && r.tenant == who && r.moduleKey == key;
    var i :| 0 <= i < |t.rows| && t.rows[i] == r;
    assert RegisteredBefore(t, i, who, d);
    var j :| 0 <= j < i && t.rows[j].tenant == who && t.rows[j].moduleKey == d;
    assert t.rows[j] in t.rows;
  }

  // ----- Closure of the active part -----

  ghost predicate DependenciesActive(t: Tables, who: Tenant, key: string) {
    forall d :: DependsOn(t.modules, key, d) ==> Active(t, who, d)
  }

  /** Every transitive dependency of an active module is active for the same tenant. */
  ghost predicate ActiveClosed(t: Tables) {
    forall r :: r in t.rows && r.isActive ==> DependenciesActive(t, r.tenant, r.moduleKey)
  }

  /** The branch of updateRegistry that no guard covers: an inactive row set active. */
  ghost predicate Reactivates(t: Tables, op: Op) {
    op.UpdateRegistry? && op.id < |t.rows| && op.setActive == Some(true) && !t.rows[op.id].isActive
  }

  ghost predicate Guarded(t: Tables, op: Op) {
    Reactivates(t, op) ==> DependenciesActive(t, t.rows[op.id].tenant, t.rows[op.id].moduleKey)
  }

  /** Exactly when one operation keeps the active part closed: always, except that a
      reactivation keeps it if and only if the dependencies are active beforehand. */
  lemma StepKeepsActiveClosedIff(t: Tables, op: Op)
    requires Consistent(t) && ActiveClosed(t)
    ensures ActiveClosed(Step(t, op)) <==> Guarded(t, op)
  {
    match op
    case CreateModule(m) =>
      if !HasModule(t, m.key) {
        NewModuleKeepsActiveClosed(t, m);
      }
    case CreateRegistry(who, key, version, isActive) =>
      if Answer(t, op).RowSaved? {
        NewRowKeepsActiveClosed(t, Answer(t, op).row);
      }
    case UpdateRegistry(id, newVersion, setActive) =>
      if Answer(t, op).RowSaved? {
        UpdateActiveClosed(t, op);
      }
  }

  lemma NewModuleKeepsActiveClosed(t: Tables, m: Module)
    requires Consistent(t) && ActiveClosed(t) && !HasModule(t, m.key)
    ensures ActiveClosed(t.(modules := t.modules + [m]))
  {
    var t' := t.(modules := t.modules + [m]);
    forall r, d | r in t'.rows && r.isActive && DependsOn(t'.modules, r.moduleKey, d)
      ensures Active(t', r.tenant, d)
    {
      RegisteredKeysAvoid(t, m, r);
      NewRowKeepsDependencies(t.modules, m, r.moduleKey, d);
      assert Active(t, r.tenant, d);
    }
  }

  lemma NewRowKeepsActiveClosed(t: Tables, row: Row)
    requires ActiveClosed(t) && Missing(t, row.tenant, row.moduleKey) == {}
    ensures ActiveClosed(t.(rows := t.rows + [row]))
  {
    var t' := t.(rows := t.rows + [row]);
    forall r, d | r in t'.rows && r.isActive && DependsOn(t'.modules, r.moduleKey, d)
      ensures Active(t', r.tenant, d)
    {
      if r in t.rows {
        assert DependenciesActive(t, r.tenant, r.moduleKey);
      } else {
        DependencyIsMentioned(t.modules, row.moduleKey, d);
        assert d !in Missing(t, row.tenant, row.moduleKey);
      }
      assert Active(t, r.tenant, d);
      var x :| x in t.rows && x.tenant == r.tenant && x.moduleKey == d && x.isActive;
      assert x in t'.rows;
    }
  }

  /** What replacing row `id` does to the active keys. */
  lemma ActiveAfterUpdate(t: Tables, id: nat, row: Row, who: Tenant, key: string)
    requires UniqueRows(t) && id < |t.rows|
    requires row.tenant == t.rows[id].tenant && row.moduleKey == t.rows[id].moduleKey
    ensures Active(t.(rows := t.rows[id := row]), who, key) <==>
      if row.tenant == who && row.moduleKey == key then row.isActive else Active(t, who, key)
  {
    var t' := t.(rows := t.rows[id := row]);
    if row.tenant == who && row.moduleKey == key {
      if Active(t', who, key) {
        var r :| r in t'.rows && r.tenant == who && r.moduleKey == key && r.isActive;
        var i :| 0 <= i < |t'.rows| && t'.rows[i] == r;
        assert i == id;
      }
      assert t'.rows[id] == row;
    } else {
      if Active(t, who, key) {
        var r :| r in t.rows && r.tenant == who && r.moduleKey == key && r.isActive;
        var i :| 0 <= i < |t.rows| && t.rows[i] == r;
        assert t'.rows[i] == r;
      }
      if Active(t', who, key) {
        var r :| r in t'.rows && r.tenant == who && r.moduleKey == key && r.isActive;
        var i :| 0 <= i < |t'.rows| && t'.rows[i] == r;
        assert t.rows[i] == r;
      }
    }
  }

  lemma UpdateActiveClosed(t: Tables, op: Op)
    requires Consistent(t) && ActiveClosed(t)
    requires op.UpdateRegistry? && Answer(t, op).RowSaved?
    ensures ActiveClosed(Step(t, op)) <==> Guarded(t, op)
  {
    var old_, row, t' := t.rows[op.id], Answer(t, op).row, Step(t, op);
    assert forall d :: DependsOn(t.modules, row.moduleKey, d) ==> d != row.moduleKey by {
      forall d | DependsOn(t.modules, row.moduleKey, d) ensures d != row.moduleKey {
        assert RegisteredBefore(t, op.id, row.tenant, d);
      }
    }
    if Reactivates(t, op) {
      assert t'.rows[op.id] == row;
      forall d | DependsOn(t.modules, row.moduleKey, d)
        ensures Active(t', row.tenant, d) <==> Active(t, row.tenant, d)
      {
        ActiveAfterUpdate(t, op.id, row, row.tenant, d);
      }
    }
    if Guarded(t, op) {
      forall r, d | r in t'.rows && r.isActive && DependsOn(t'.modules, r.moduleKey, d)
        ensures Active(t', r.tenant, d)
      {
        var i :| 0 <= i < |t'.rows| && t'.rows[i] == r;
        assert DependenciesActive(t, r.tenant, r.moduleKey) by {
          if i == op.id && !old_.isActive {
            assert Reactivates(t, op);
          } else {
            assert t.rows[i] in t.rows && t.rows[i].isActive;
          }
        }
        assert Active(t, r.tenant, d);
        ActiveAfterUpdate(t, op.id, row, r.tenant, d);
        if row.tenant == r.tenant && row.moduleKey == d && !row.isActive && old_.isActive {
          DeactivationIsBlocked(t, op, i, d);
        } else if row.tenant == r.tenant && row.moduleKey == d && !row.isActive {
          ActiveRowIsUnique(t, op.id);
        }
      }
    }
  }

  lemma ActiveRowIsUnique(t: Tables, id: nat)
    requires UniqueRows(t) && id < |t.rows| && Active(t, t.rows[id].tenant, t.rows[id].moduleKey)
    ensures t.rows[id].isActive
  {
    var r :| r in t.rows && r.tenant == t.rows[id].tenant && r.moduleKey == t.rows[id].moduleKey && r.isActive;
    var i :| 0 <= i < |t.rows| && t.rows[i] == r;
    assert i == id;
  }

  lemma DeactivationIsBlocked(t: Tables, op: Op, i: nat, d: string)
    requires Consistent(t) && op.UpdateRegistry? && op.id < |t.rows| && i < |t.rows| && i != op.id
    requires op.setActive == Some(false) && t.rows[op.id].isActive
    requires t.rows[i].tenant == t.rows[op.id].tenant && t.rows[i].isActive
    requires DependsOn(t.modules, t.rows[i].moduleKey, t.rows[op.id].moduleKey)
    ensures Answer(t, op).ActiveDependents?
  {
    assert t.rows[i] in t.rows;
    DependentHasRow(t.modules, t.rows[i].moduleKey, t.rows[op.id].moduleKey);
    assert t.rows[i].moduleKey in Blocking(t, t.rows[op.id].tenant, t.rows[op.id].moduleKey);
  }

  ghost predicate AllGuarded(ops: seq<Op>) {
    forall n :: 0 <= n < |ops| ==> Guarded(Run(EMPTY, ops[..n]), ops[n])
  }

  /** Any run whose reactivations find their dependencies active keeps the closure. */
  lemma {:induction false} GuardedRunsStayActiveClosed(ops: seq<Op>)
    requires AllGuarded(ops)
    ensures ActiveClosed(Run(EMPTY, ops))
  {
    if ops == [] {
    } else {
      var before := ops[..|ops| - 1];
      forall n | 0 <= n < |before|
        ensures Guarded(Run(EMPTY, before[..n]), before[n])
      {
        assert before[..n] == ops[..n];
      }
      GuardedRunsStayActiveClosed(before);
      EveryRunIsConsistent(before);
      StepKeepsActiveClosedIff(Run(EMPTY, before), ops[|ops| - 1]);
    }
  }

  /** The verdict of checkAccess. */
  ghost predicate Allowed(t: Tables, who: Tenant, key: string) {
    who.appFamilyKey != "" && who.tenantKey != "" && key != "" && Active(t, who, key)
  }

  /** Access to a module implies access to everything it depends on under a non-empty key. */
  lemma AccessIsClosed(ops: seq<Op>, who: Tenant, key: string, d: string)
    requires AllGuarded(ops)
    requires Allowed(Run(EMPTY, ops), who, key) && DependsOn(Run(EMPTY, ops).modules, key, d)
    ensures Allowed(Run(EMPTY, ops), who, d) <==> d != ""
  {
    var t := Run(EMPTY, ops);
    GuardedRunsStayActiveClosed(ops);
    var r :| r in t.rows && r.tenant == who && r.moduleKey == key && r.isActive;
    assert DependenciesActive(t, who, key);
  }

  /** A run that ends with an active module whose dependency is switched off. */
  function ReactivationRun(): seq<Op> {
    var who := Tenant("app", "tenant");
    [ CreateModule(Module("a", None)),
      CreateModule(Module("b", Some(["a"]))),
      CreateRegistry(who, "a", None, None),
      CreateRegistry(who, "b", None, None),
      UpdateRegistry(1, None, Some(false)),
      UpdateRegistry(0, None, Some(false)),
      UpdateRegistry(1, None, Some(true)) ]
  }

  lemma OnlyBDependsOnA(ms: seq<Module>, x: string, y: string)
    requires ms == [Module("a", None), Module("b", Some(["a"]))]
    ensures DependsOn(ms, x, y) <==> x == "b" && y == "a"
  {
    forall u, v
      ensures Edge(ms, u, v) <==> u == "b" && v == "a"
    {
      assert ms[1] in ms && ms[1].key == "b" && "a" in DirectDependencies(ms[1]);
    }
    if DependsOn(ms, x, y) {
      var closed := if x == "b" then ["a"] else [];
      ForwardClosure(ms, x, closed, y);
    }
    if x == "b" && y == "a" {
      EdgeIsDependency(ms, x, y);
    }
  }

  lemma InstallSteps(ms: seq<Module>, who: Tenant)
    requires ms == [Module("a", None), Module("b", Some(["a"]))]
    ensures
      var a, b := Row(who, "a", DEFAULT_VERSION, true), Row(who, "b", DEFAULT_VERSION, true);
      && Step(Tables(ms, []), CreateRegistry(who, "a", None, None)) == Tables(ms, [a])
      && Step(Tables(ms, [a]), CreateRegistry(who, "b", None, None)) == Tables(ms, [a, b])
  {
    forall x, y
      ensures DependsOn(ms, x, y) <==> x == "b" && y == "a"
    {
      OnlyBDependsOnA(ms, x, y);
    }
    var a := Row(who, "a", DEFAULT_VERSION, true);
    assert ms[0] in ms && ms[1] in ms;
    assert Missing(Tables(ms, []), who, "a") == {};
    assert a in [a];
    assert Missing(Tables(ms, [a]), who, "b") == {};
  }

  lemma SwitchOffSteps(ms: seq<Module>, who: Tenant)
    requires ms == [Module("a", None), Module("b", Some(["a"]))]
    ensures
      var a, b := Row(who, "a", DEFAULT_VERSION, true), Row(who, "b", DEFAULT_VERSION, true);
      var a', b' := a.(isActive := false), b.(isActive := false);
      && Step(Tables(ms, [a, b]), UpdateRegistry(1, None, Some(false))) == Tables(ms, [a, b'])
      && Step(Tables(ms, [a, b']), UpdateRegistry(0, None, Some(false))) == Tables(ms, [a', b'])
  {
    forall x, y
      ensures DependsOn(ms, x, y) <==> x == "b" && y == "a"
    {
      OnlyBDependsOnA(ms, x, y);
    }
    var a, b := Row(who, "a", DEFAULT_VERSION, true), Row(who, "b", DEFAULT_VERSION, true);
    assert Blocking(Tables(ms, [a, b]), who, "b") == {};
    assert !Active(Tables(ms, [a, b.(isActive := false)]), who, "b");
    assert Blocking(Tables(ms, [a, b.(isActive := false)]), who, "a") == {};
  }

  lemma RunOneMore(ops: seq<Op>, n: nat)
    requires n < |ops|
    ensures Run(EMPTY, ops[..n + 1]) == Step(Run(EMPTY, ops[..n]), ops[n])
  {
    assert ops[..n + 1][..n] == ops[..n];
  }

  lemma ModuleSteps()
    ensures Run(EMPTY, ReactivationRun()[..2]) == Tables([Module("a", None), Module("b", Some(["a"]))], [])
  {
    var ops := ReactivationRun();
    RunOneMore(ops, 0);
    RunOneMore(ops, 1);
    assert Run(EMPTY, ops[..0]) == EMPTY;
  }

  lemma FirstRowInstalled(who: Tenant, ms: seq<Module>, a: Row)
    requires who == Tenant("app", "tenant") && ms == [Module("a", None), Module("b", Some(["a"]))]
    requires a == Row(who, "a", DEFAULT_VERSION, true)
    ensures Run(EMPTY, ReactivationRun()[..3]) == Tables(ms, [a])
  {
    ModuleSteps();
    RunOneMore(ReactivationRun(), 2);
    InstallSteps(ms, who);
  }

  lemma RowsInstalled(who: Tenant, ms: seq<Module>, a: Row, b: Row)
    requires who == Tenant("app", "tenant") && ms == [Module("a", None), Module("b", Some(["a"]))]
    requires a == Row(who, "a", DEFAULT_VERSION, true) && b == Row(who, "b", DEFAULT_VERSION, true)
    ensures Run(EMPTY, ReactivationRun()[..4]) == Tables(ms, [a, b])
  {
    FirstRowInstalled(who, ms, a);
    RunOneMore(ReactivationRun(), 3);
    InstallSteps(ms, who);
  }

  lemma RowsSwitchedOff(who: Tenant, ms: seq<Module>, a: Row, b: Row)
    requires who == Tenant("app", "tenant") && ms == [Module("a", None), Module("b", Some(["a"]))]
    requires a == Row(who, "a", DEFAULT_VERSION, false) && b == Row(who, "b", DEFAULT_VERSION, false)
    ensures Run(EMPTY, ReactivationRun()[..6]) == Tables(ms, [a, b])
  {
    var ops := ReactivationRun();
    RowsInstalled(who, ms, a.(isActive := true), b.(isActive := true));
    RunOneMore(ops, 4);
    RunOneMore(ops, 5);
    SwitchOffSteps(ms, who);
  }

  /** The unguarded branch does break the closure, in a run of seven requests. */
  lemma ReactivationBreaksClosure()
    ensures ActiveClosed(Run(EMPTY, ReactivationRun()[..6]))
    ensures !ActiveClosed(Run(EMPTY, ReactivationRun()))
  {
    var ops, who := ReactivationRun(), Tenant("app", "tenant");
    var ms := [Module("a", None), Module("b", Some(["a"]))];
    var a, b := Row(who, "a", DEFAULT_VERSION, false), Row(who, "b", DEFAULT_VERSION, false);
    RowsSwitchedOff(who, ms, a, b);
    RunOneMore(ops, 6);
    assert ops[..7] == ops;
    assert [a, b][1 := b.(isActive := true)] == [a, b.(isActive := true)];
    OpenAfterReactivation(ms, a, b.(isActive := true));
  }

  lemma OpenAfterReactivation(ms: seq<Module>, a: Row, b: Row)
    requires ms == [Module("a", None), Module("b", Some(["a"]))]
    requires a.moduleKey == "a" && !a.isActive && b.moduleKey == "b" && b.isActive
    ensures !ActiveClosed(Tables(ms, [a, b]))
  {
    OnlyBDependsOnA(ms, "b", "a");
    assert b in [a, b];
    assert !Active(Tables(ms, [a, b]), b.tenant, "a");
    assert !DependenciesActive(Tables(ms, [a, b]), b.tenant, "b");
  }

  // ----- What a request changes, seen from checkAccess -----

  /** checkAccess finds an active registration, and answers this version. */
  ghost predicate Grants(t: Tables, who: Tenant, key: string, version: string) {
    Row(who, key, version, true) in t.rows
  }

  lemma ActiveIffGranted(t: Tables, who: Tenant, key: string)
    ensures Active(t, who, key) <==> exists v :: Grants(t, who, key, v)
  {
    if Active(t, who, key) {
      var r :| r in t.rows && r.tenant == who && r.moduleKey == key && r.isActive;
      assert Grants(t, who, key, r.version);
    }
    if v :| Grants(t, who, key, v) {
      assert Row(who, key, v, true).isActive;
    }
  }

  /** Each answer of createRegistry, by the graph and the tenant's active modules. */
  lemma RegistrationAnswers(t: Tables, who: Tenant, key: string, version: Option<string>, isActive: Option<bool>)
    ensures
      var answer := Answer(t, CreateRegistry(who, key, version, isActive));
      && (answer.NotFound? <==> forall m :: m in t.modules ==> m.key != key)
      && (answer.MissingDependencies? ==>
            forall d :: d in answer.keys <==> DependsOn(t.modules, key, d) && !Active(t, who, d))
      && (answer.RowSaved? <==>
            && (exists m :: m in t.modules && m.key == key)
            && (forall d :: DependsOn(t.modules, key, d) ==> Active(t, who, d))
            && (forall r :: r in t.rows ==> r.tenant != who || r.moduleKey != key))
      && (answer.UniqueViolation? ==> exists r :: r in t.rows && r.tenant == who && r.moduleKey == key)
      && (!answer.RowSaved? ==> Step(t, CreateRegistry(who, key, version, isActive)) == t)
  {
    forall d | DependsOn(t.modules, key, d)
      ensures d in Missing(t, who, key) <==> !Active(t, who, d)
    {
      DependencyIsMentioned(t.modules, key, d);
    }
  }

  /** A saved registration grants access to its own module alone, unless it was asked for
      switched off, and in the version asked for. */
  lemma RegistrationGrants(t: Tables, who: Tenant, key: string, version: Option<string>, isActive: Option<bool>,
                           w: Tenant, k: string, v: string)
    requires Answer(t, CreateRegistry(who, key, version, isActive)).RowSaved?
    ensures
      var t' := Step(t, CreateRegistry(who, key, version, isActive));
      && t'.modules == t.modules && Answer(t, CreateRegistry(who, key, version, isActive)).row in t'.rows
      && (Registered(t', w, k) <==> Registered(t, w, k) || (w == who && k == key))
      && (Active(t', w, k) <==> Active(t, w, k) || (w == who && k == key && isActive != Some(false)))
      && (Grants(t', w, k, v) <==>
            || Grants(t, w, k, v)
            || (&& w == who && k == key && isActive != Some(false)
                && v == if version.Some? then version.value else "1.0.0"))
  {
    var op := CreateRegistry(who, key, version, isActive);
    assert forall r :: r in Step(t, op).rows <==> r in t.rows || r == Answer(t, op).row;
  }

  /** Each answer of updateRegistry. */
  lemma UpdateAnswers(t: Tables, id: nat, newVersion: Option<string>, setActive: Option<bool>)
    ensures
      var answer := Answer(t, UpdateRegistry(id, newVersion, setActive));
      && (answer.NotFound? <==> id >= |t.rows|)
      && (answer.ActiveDependents? ==>
            forall k :: k in answer.keys <==>
              DependsOn(t.modules, k, t.rows[id].moduleKey) && Active(t, t.rows[id].tenant, k))
      && (answer.ActiveDependents? <==>
            && id < |t.rows| && setActive == Some(false) && t.rows[id].isActive
            && exists k :: DependsOn(t.modules, k, t.rows[id].moduleKey) && Active(t, t.rows[id].tenant, k))
      && (answer.RowSaved? || answer.NotFound? || answer.ActiveDependents?)
      && (!answer.RowSaved? ==> Step(t, UpdateRegistry(id, newVersion, setActive)) == t)
  {
    if id < |t.rows| {
      forall k | DependsOn(t.modules, k, t.rows[id].moduleKey)
        ensures k in Blocking(t, t.rows[id].tenant, t.rows[id].moduleKey) <==> Active(t, t.rows[id].tenant, k)
      {
        DependentHasRow(t.modules, k, t.rows[id].moduleKey);
      }
    }
  }

  /** A saved update decides access to its own row's module, by the fields it was given or
      else those the row had, and access to nothing else. */
  lemma UpdateGrants(t: Tables, id: nat, newVersion: Option<string>, setActive: Option<bool>,
                     w: Tenant, k: string, v: string)
    requires UniqueRows(t) && Answer(t, UpdateRegistry(id, newVersion, setActive)).RowSaved?
    ensures
      var t', r := Step(t, UpdateRegistry(id, newVersion, setActive)), t.rows[id];
      var on := if setActive.Some? then setActive.value else r.isActive;
      && t'.modules == t.modules && Answer(t, UpdateRegistry(id, newVersion, setActive)).row in t'.rows
      && (Registered(t', w, k) <==> Registered(t, w, k))
      && (Active(t', w, k) <==> if w == r.tenant && k == r.moduleKey then on else Active(t, w, k))
      && (Grants(t', w, k, v) <==>
            if w == r.tenant && k == r.moduleKey
            then on && v == if newVersion.Some? then newVersion.value else r.version
            else Grants(t, w, k, v))
  {
    var row := Answer(t, UpdateRegistry(id, newVersion, setActive)).row;
    assert Step(t, UpdateRegistry(id, newVersion, setActive)).rows[id] == row;
    ActiveAfterUpdate(t, id, row, w, k);
    RowsAfterUpdate(t, id, row, Row(w, k, v, true));
    RegisteredAfterUpdate(t, id, row, w, k);
  }

  lemma RowsAfterUpdate(t: Tables, id: nat, row: Row, r: Row)
    requires UniqueRows(t) && id < |t.rows|
    requires row.tenant == t.rows[id].tenant && row.moduleKey == t.rows[id].moduleKey
    ensures r in t.rows[id := row] <==>
      if r.tenant == row.tenant && r.moduleKey == row.moduleKey then r == row else r in t.rows
  {
    var rows' := t.rows[id := row];
    assert rows'[id] == row;
    if r in t.rows {
      var i :| 0 <= i < |t.rows| && t.rows[i] == r;
      assert i != id ==> rows'[i] == r;
    }
    if r in rows' {
      var i :| 0 <= i < |rows'| && rows'[i] == r;
      assert i != id ==> t.rows[i] == r;
    }
  }

  lemma RegisteredAfterUpdate(t: Tables, id: nat, row: Row, w: Tenant, k: string)
    requires id < |t.rows| && row.tenant == t.rows[id].tenant && row.moduleKey == t.rows[id].moduleKey
    ensures Registered(t.(rows := t.rows[id := row]), w, k) <==> Registered(t, w, k)
  {
    var t' := t.(rows := t.rows[id := row]);
    if Registered(t, w, k) {
      var i :| 0 <= i < |t.rows| && t.rows[i].tenant == w && t.rows[i].moduleKey == k;
      assert t'.rows[i] in t'.rows;
    }
    if Registered(t', w, k) {
      var i :| 0 <= i < |t'.rows| && t'.rows[i].tenant == w && t'.rows[i].moduleKey == k;
      assert t.rows[i] in t.rows;
    }
  }

  /** A module is saved exactly under a new key, and then it is there, beside all others. */
  lemma ModuleIsSavedIff(t: Tables, m: Module, x: Module)
    ensures
      var answer, t' := Answer(t, CreateModule(m)), Step(t, CreateModule(m));
      && t'.rows == t.rows
      && (answer == ModuleSaved <==> forall y :: y in t.modules ==> y.key != m.key)
      && (answer == UniqueViolation <==> exists y :: y in t.modules && y.key == m.key)
      && (x in t'.modules <==> x in t.modules || (x == m && answer == ModuleSaved))
  {
  }

  // ----- The service -----

  class Service {
    var modules: seq<Module>
    var rows: seq<Row>

    ghost function Contents(): Tables
      reads this
    {
      Tables(modules, rows)
    }

    ghost predicate Valid()
      reads this
    {
      Consistent(Contents())
    }

    constructor ()
      ensures Valid() && Contents() == EMPTY
    {
      modules, rows := [], [];
    }

    method CreateModule(m: Module) returns (reply: Reply)
      requires Valid()
      modifies this
      ensures Valid()
      ensures reply == Answer(old(Contents()), Op.CreateModule(m))
      ensures Contents() == Step(old(Contents()), Op.CreateModule(m))
    {
      StepKeepsConsistent(Contents(), Op.CreateModule(m));
      if HasModule(Tables(modules, rows), m.key) {
        return UniqueViolation;
      }
      modules := modules + [m];
      return ModuleSaved;
    }

    method CreateRegistry(who: Tenant, key: string, version: Option<string>, isActive: Option<bool>)
      returns (reply: Reply)
      requires Valid()
      modifies this
      ensures Valid()
      ensures reply == Answer(old(Contents()), Op.CreateRegistry(who, key, version, isActive))
      ensures Contents() == Step(old(Contents()), Op.CreateRegistry(who, key, version, isActive))
      ensures reply.RowSaved? ==>
        && rows == old(rows) + [reply.row] && reply.row.isActive == (isActive != Some(false))
        && reply.row.version == if version.Some? then version.value else "1.0.0"
      ensures !reply.RowSaved? ==> rows == old(rows)
    {
      StepKeepsConsistent(Contents(), Op.CreateRegistry(who, key, version, isActive));
      var t := Tables(modules, rows);
      if !HasModule(t, key) {
        return NotFound;
      }
      var requiredDeps := GetTransitiveDependencies(key, modules);
      var missingDeps := {};
      for i := 0 to |requiredDeps|
        invariant missingDeps == set d | d in requiredDeps[..i] && !Active(t, who, d)
      {
        if !Active(t, who, requiredDeps[i]) {
          missingDeps := missingDeps + {requiredDeps[i]};
        }
      }
      assert missingDeps == Missing(t, who, key) by {
        assert requiredDeps[..|requiredDeps|] == requiredDeps;
        forall d | DependsOn(modules, key, d)
          ensures d in Mentioned(modules)
        {
          DependencyIsMentioned(modules, key, d);
        }
      }
      if missingDeps != {} {
        return MissingDependencies(missingDeps);
      }
      if Registered(t, who, key) {
        return UniqueViolation;
      }
      var registry := Row(who, key, version.GetOr(DEFAULT_VERSION), isActive.GetOr(true));
      rows := rows + [registry];
      return RowSaved(registry);
    }

    method UpdateRegistry(id: nat, newVersion: Option<string>, setActive: Option<bool>) returns (reply: Reply)
      requires Valid()
      modifies this
      ensures Valid()
      ensures reply == Answer(old(Contents()), Op.UpdateRegistry(id, newVersion, setActive))
      ensures Contents() == Step(old(Contents()), Op.UpdateRegistry(id, newVersion, setActive))
    {
      StepKeepsConsistent(Contents(), Op.UpdateRegistry(id, newVersion, setActive));
      var t := Tables(modules, rows);
      if id >= |rows| {
        return NotFound;
      }
      var registry := rows[id];
      if setActive == Some(false) && registry.isActive {
        var dependentModules := GetTransitiveDependents(registry.moduleKey, modules);
        var activeDependents := {};
        for i := 0 to |dependentModules|
          invariant activeDependents == set d | d in dependentModules[..i] && Active(t, registry.tenant, d)
        {
          if Active(t, registry.tenant, dependentModules[i]) {
            activeDependents := activeDependents + {dependentModules[i]};
          }
        }
        assert activeDependents == Blocking(t, registry.tenant, registry.moduleKey) by {
          assert dependentModules[..|dependentModules|] == dependentModules;
          forall k | DependsOn(modules, k, registry.moduleKey)
            ensures k in Dependents(modules, registry.moduleKey)
          {
            DependentHasRow(modules, k, registry.moduleKey);
          }
        }
        if activeDependents != {} {
          return ActiveDependents(activeDependents);
        }
      }
      registry := registry.(version := newVersion.GetOr(registry.version),
                            isActive := setActive.GetOr(registry.isActive));
      rows := rows[id := registry];
      return RowSaved(registry);
    }

    method CheckAccess(who: Tenant, key: string) returns (allowed: bool, version: string)
      requires Valid()
      ensures allowed <==> Allowed(Contents(), who, key)
      ensures allowed <==>
        who.appFamilyKey != "" && who.tenantKey != "" && key != "" && exists v :: Grants(Contents(), who, key, v)
      ensures allowed ==> forall v :: Grants(Contents(), who, key, v) <==> v == version
    {
      ActiveIffGranted(Contents(), who, key);
      if who.appFamilyKey == "" || who.tenantKey == "" || key == "" {
        return false, "";
      }
      for i := 0 to |rows|
        invariant forall r :: r in rows[..i] ==> !(r.tenant == who && r.moduleKey == key && r.isActive)
      {
        if rows[i].tenant == who && rows[i].moduleKey == key && rows[i].isActive {
          return true, rows[i].version;
        }
      }
      assert rows[..|rows|] == rows;
      return false, "";
    }
  }
}
