// adjustStock as unboundedly many callers run it: acquire the lock of the
// warehouse and product, read the row, save the new quantity, release.
module InventoryService {
  import opened Base
  import opened Accounts

  datatype StockKey = StockKey(warehouseId: string, productId: string, appKey: string, tenantKey: string)

  type StockRow = Row<StockKey>

  /** The lock resource: it does not name the tenant. */
  function LockKey(k: StockKey): string {
    "inventory:" + k.warehouseId + ":" + k.productId
  }

  /** Two callers contend exactly for the same product in the same warehouse, whosever it is. */
  lemma LockNamesTheItem(k: StockKey, l: StockKey)
    requires ':' !in k.warehouseId && ':' !in l.warehouseId
    ensures LockKey(k) == LockKey(l) <==> k.warehouseId == l.warehouseId && k.productId == l.productId
  {
    if LockKey(k) == LockKey(l) {
      var prefix := "inventory:";
      assert LockKey(k)[|prefix|..] == k.warehouseId + ":" + k.productId;
      assert LockKey(l)[|prefix|..] == l.warehouseId + ":" + l.productId;
      SplitAtColon(k.warehouseId, k.productId, l.warehouseId, l.productId);
    }
  }

  datatype Phase =
    | Waiting
    | Refused                                  // acquire threw
    | Holding                                  // lock held, row not read yet
    | Computed(at: Option<nat>, quantity: int) // entity in memory: insert, or update of the row found
    | Saved
    | Failed                                   // the read or the save threw
    | Released(saved: bool)

  datatype Call = Call(key: StockKey, delta: int, phase: Phase)

  /** The stock table has no unique index, so it is a plain list of rows. */
  datatype State = State(rows: seq<StockRow>, locks: map<string, nat>, calls: seq<Call>)

  datatype Event =
    | Arrive(key: StockKey, delta: int)
    | Acquire(id: nat)
    | Refuse(id: nat)
    | Find(id: nat)
    | Save(id: nat)
    | Fail(id: nat)
    | Release(id: nat)

  predicate Enabled(s: State, e: Event) {
    if e.Arrive? then true
    else
      && e.id < |s.calls|
      && var c := s.calls[e.id];
         match e
         case Acquire(_) => c.phase.Waiting? && LockKey(c.key) !in s.locks
         case Refuse(_) => c.phase.Waiting?
         case Find(_) => c.phase.Holding?
         case Save(_) => c.phase.Computed? && (c.phase.at.Some? ==> c.phase.at.value < |s.rows|)
         case Fail(_) => c.phase.Holding? || c.phase.Computed?
         case Release(_) => c.phase.Saved? || c.phase.Failed?
  }

  function SetPhase(s: State, id: nat, p: Phase): State
    requires id < |s.calls|
  {
    s.(calls := s.calls[id := s.calls[id].(phase := p)])
  }

  /** One atomic step of one caller; an event that cannot happen changes nothing. */
  function Next(s: State, e: Event): State {
    if !Enabled(s, e) then s
    else if e.Arrive? then s.(calls := s.calls + [Call(e.key, e.delta, Waiting)])
    else
      var c := s.calls[e.id];
      match e
      case Acquire(id) => SetPhase(s.(locks := s.locks[LockKey(c.key) := id]), id, Holding)
      case Refuse(id) => SetPhase(s, id, Refused)
      case Find(id) =>
        var at := FindRow(s.rows, c.key);
        SetPhase(s, id, Computed(at, if at.Some? then s.rows[at.value].amount + c.delta else c.delta))
      case Save(id) =>
        SetPhase(s.(rows := Accounts.Save(s.rows, c.key, c.phase.at, c.phase.quantity)), id, Saved)
      case Fail(id) => SetPhase(s, id, Failed)
      case Release(id) => SetPhase(s.(locks := s.locks - {LockKey(c.key)}), id, Released(c.phase.Saved?))
  }

  function Run(s: State, events: seq<Event>): State {
    if events == [] then s else Next(Run(s, events[..|events| - 1]), events[|events| - 1])
  }

  const EMPTY := State([], map[], [])

  // ----- What every interleaving keeps -----

  predicate HasSaved(c: Call) {
    c.phase.Saved? || c.phase == Released(true)
  }

  function SavedDelta(key: StockKey): Call -> int {
    (c: Call) => if c.key == key && HasSaved(c) then c.delta else 0
  }

  predicate InCriticalSection(c: Call) {
    c.phase.Holding? || c.phase.Computed? || c.phase.Saved? || c.phase.Failed?
  }

  /** Mutual exclusion: whoever is inside holds the lock of its resource. */
  ghost predicate LocksHeld(s: State) {
    forall i :: 0 <= i < |s.calls| && InCriticalSection(s.calls[i]) ==>
      LockKey(s.calls[i].key) in s.locks && s.locks[LockKey(s.calls[i].key)] == i
  }

  /** A quantity computed from a read is still the row's quantity plus the delta. */
  ghost predicate NoStaleRead(s: State) {
    forall i :: 0 <= i < |s.calls| && s.calls[i].phase.Computed? ==>
      var c := s.calls[i];
      c.phase.at == FindRow(s.rows, c.key) && c.phase.quantity == Amount(s.rows, c.key) + c.delta
  }

  ghost predicate Balanced(s: State) {
    forall key :: Amount(s.rows, key) == Sum(s.calls, SavedDelta(key))
  }

  ghost predicate SomeSaver(calls: seq<Call>, key: StockKey) {
    exists c :: c in calls && c.key == key && HasSaved(c)
  }

  /** A row exists exactly for the keys that some caller has saved. */
  ghost predicate RowsHaveSavers(s: State) {
    forall key :: FindRow(s.rows, key).Some? <==> SomeSaver(s.calls, key)
  }

  ghost predicate Inv(s: State) {
    UniqueRows(s.rows) && LocksHeld(s) && NoStaleRead(s) && Balanced(s) && RowsHaveSavers(s)
  }

  /** What a step of caller `id` to phase `p` does to the two summaries of one key. */
  lemma PhaseChange(calls: seq<Call>, id: nat, p: Phase, key: StockKey)
    requires id < |calls|
    requires HasSaved(calls[id]) ==> HasSaved(calls[id].(phase := p))
    ensures
      var c, c' := calls[id], calls[id].(phase := p);
      var saves := c.key == key && HasSaved(c') && !HasSaved(c);
      && Sum(calls[id := c'], SavedDelta(key)) == Sum(calls, SavedDelta(key)) + (if saves then c.delta else 0)
      && (SomeSaver(calls[id := c'], key) <==> SomeSaver(calls, key) || saves)
  {
    var c' := calls[id].(phase := p);
    var calls' := calls[id := c'];
    SumUpdate(calls, id, c', SavedDelta(key));
    assert calls'[id] in calls';
    if c :| c in calls' && c.key == key && HasSaved(c) {
      var i :| 0 <= i < |calls'| && calls'[i] == c;
      assert calls[i] in calls;
    }
    if c :| c in calls && c.key == key && HasSaved(c) {
      var i :| 0 <= i < |calls| && calls[i] == c;
      assert calls'[i] in calls';
    }
  }

  /** A step that saves nothing keeps the quantities in balance. */
  lemma QuietStep(s: State, id: nat, p: Phase)
    requires id < |s.calls| && Balanced(s) && RowsHaveSavers(s)
    requires HasSaved(s.calls[id]) == HasSaved(s.calls[id].(phase := p))
    ensures Balanced(SetPhase(s, id, p)) && RowsHaveSavers(SetPhase(s, id, p))
  {
    forall key {
      PhaseChange(s.calls, id, p, key);
    }
  }

  lemma NextKeepsInv(s: State, e: Event)
    requires Inv(s)
    ensures Inv(Next(s, e))
  {
    if Enabled(s, e) {
      match e
      case Arrive(key, delta) => ArriveKeepsInv(s, key, delta);
      case Save(id) => SaveKeepsInv(s, id);
      case _ => QuietKeepsInv(s, e);
    }
  }

  lemma QuietKeepsInv(s: State, e: Event)
    requires Inv(s) && Enabled(s, e) && !e.Arrive? && !e.Save?
    ensures Inv(Next(s, e))
  {
    var s' := Next(s, e);
    var unlocked := s.(locks := s'.locks);
    QuietStep(unlocked, e.id, s'.calls[e.id].phase);
    assert s' == SetPhase(unlocked, e.id, s'.calls[e.id].phase);
    forall i | 0 <= i < |s'.calls| && InCriticalSection(s'.calls[i])
      ensures LockKey(s'.calls[i].key) in s'.locks && s'.locks[LockKey(s'.calls[i].key)] == i
    {
      if i != e.id {
        assert InCriticalSection(s.calls[i]);
      }
    }
  }

  lemma ArriveKeepsInv(s: State, key: StockKey, delta: int)
    requires Inv(s)
    ensures Inv(Next(s, Arrive(key, delta)))
  {
    var s' := Next(s, Arrive(key, delta));
    var c := Call(key, delta, Waiting);
    forall k
      ensures Sum(s'.calls, SavedDelta(k)) == Sum(s.calls, SavedDelta(k))
      ensures SomeSaver(s'.calls, k) <==> SomeSaver(s.calls, k)
    {
      SumAppend(s.calls, c, SavedDelta(k));
      assert forall x :: x in s'.calls <==> x in s.calls || x == c;
    }
  }

  lemma SaveKeepsInv(s: State, id: nat)
    requires Inv(s) && Enabled(s, Save(id))
    ensures Inv(Next(s, Save(id)))
  {
    var s', c := Next(s, Save(id)), s.calls[id];
    SaveWritesOneRow(s.rows, c.key, c.phase.quantity, c.key);
    forall k
      ensures Amount(s'.rows, k) == Sum(s'.calls, SavedDelta(k))
      ensures FindRow(s'.rows, k).Some? <==> SomeSaver(s'.calls, k)
    {
      SaveBalances(s, id, k);
    }
    OthersReadOtherRows(s, id);
  }

  lemma SaveBalances(s: State, id: nat, k: StockKey)
    requires Inv(s) && Enabled(s, Save(id))
    ensures Amount(Next(s, Save(id)).rows, k) == Sum(Next(s, Save(id)).calls, SavedDelta(k))
    ensures FindRow(Next(s, Save(id)).rows, k).Some? <==> SomeSaver(Next(s, Save(id)).calls, k)
  {
    SaveMovesAmount(s, id, k);
    SaveMovesSum(s, id, k);
    assert Amount(s.rows, k) == Sum(s.calls, SavedDelta(k));
    assert FindRow(s.rows, k).Some? <==> SomeSaver(s.calls, k);
  }

  lemma SaveMovesAmount(s: State, id: nat, k: StockKey)
    requires UniqueRows(s.rows) && NoStaleRead(s) && Enabled(s, Save(id))
    ensures
      var c, rows := s.calls[id], Next(s, Save(id)).rows;
      && Amount(rows, k) == Amount(s.rows, k) + (if c.key == k then c.delta else 0)
      && (FindRow(rows, k).Some? <==> FindRow(s.rows, k).Some? || c.key == k)
  {
    var c := s.calls[id];
    SaveWritesOneRow(s.rows, c.key, c.phase.quantity, k);
  }

  lemma SaveMovesSum(s: State, id: nat, k: StockKey)
    requires Enabled(s, Save(id))
    ensures
      var c, calls := s.calls[id], Next(s, Save(id)).calls;
      && Sum(calls, SavedDelta(k)) == Sum(s.calls, SavedDelta(k)) + (if c.key == k then c.delta else 0)
      && (SomeSaver(calls, k) <==> SomeSaver(s.calls, k) || c.key == k)
  {
    PhaseChange(s.calls, id, Saved, k);
  }

  /** Same row means same lock, and the saving caller holds it: the others' reads stay fresh. */
  lemma OthersReadOtherRows(s: State, id: nat)
    requires Inv(s) && Enabled(s, Save(id))
    ensures NoStaleRead(Next(s, Save(id))) && LocksHeld(Next(s, Save(id)))
  {
    var s', c := Next(s, Save(id)), s.calls[id];
    forall i | 0 <= i < |s'.calls| && s'.calls[i].phase.Computed?
      ensures s'.calls[i].phase.at == FindRow(s'.rows, s'.calls[i].key)
      ensures s'.calls[i].phase.quantity == Amount(s'.rows, s'.calls[i].key) + s'.calls[i].delta
    {
      assert s.calls[i] == s'.calls[i];
      assert InCriticalSection(s.calls[i]) && InCriticalSection(c);
      assert s.calls[i].key != c.key;
      SaveWritesOneRow(s.rows, c.key, c.phase.quantity, s.calls[i].key);
    }
  }

  /** No lost update, in any interleaving of any number of callers: at most one row per
      key, holding the sum of the deltas saved so far, and none before the first save. */
  lemma {:induction false} NoLostUpdate(events: seq<Event>)
    ensures Inv(Run(EMPTY, events))
  {
    if events == [] {
    } else {
      NoLostUpdate(events[..|events| - 1]);
      NextKeepsInv(Run(EMPTY, events[..|events| - 1]), events[|events| - 1]);
    }
  }

  /** Two callers of one row are never both between acquire and release. */
  lemma MutualExclusion(events: seq<Event>, i: nat, j: nat)
    requires i < |Run(EMPTY, events).calls| && j < |Run(EMPTY, events).calls|
    requires InCriticalSection(Run(EMPTY, events).calls[i]) && InCriticalSection(Run(EMPTY, events).calls[j])
    requires Run(EMPTY, events).calls[i].key == Run(EMPTY, events).calls[j].key
    ensures i == j
  {
    NoLostUpdate(events);
  }

  // ----- One caller alone -----

  datatype Fault = NoFault | AcquireThrows | FindThrows | SaveThrows

  /** The events of call number 0 when nobody else runs. */
  function Script(key: StockKey, delta: int, fault: Fault): seq<Event> {
    match fault
    case NoFault => [Arrive(key, delta), Acquire(0), Find(0), Save(0), Release(0)]
    case AcquireThrows => [Arrive(key, delta), Refuse(0)]
    case FindThrows => [Arrive(key, delta), Acquire(0), Fail(0), Release(0)]
    case SaveThrows => [Arrive(key, delta), Acquire(0), Find(0), Fail(0), Release(0)]
  }

  /** What the saving caller leaves in the table. */
  function RowsAfter(rows: seq<StockRow>, key: StockKey, delta: int): seq<StockRow> {
    Accounts.Save(rows, key, FindRow(rows, key), Amount(rows, key) + delta)
  }

  lemma AdjustedRows(rows: seq<StockRow>, key: StockKey, delta: int)
    requires UniqueRows(rows)
    ensures UniqueRows(RowsAfter(rows, key, delta))
    ensures forall k :: Amount(RowsAfter(rows, key, delta), k) == Amount(rows, k) + if k == key then delta else 0
  {
    forall k
      ensures Amount(RowsAfter(rows, key, delta), k) == Amount(rows, k) + if k == key then delta else 0
    {
      SaveWritesOneRow(rows, key, Amount(rows, key) + delta, k);
    }
    SaveWritesOneRow(rows, key, Amount(rows, key) + delta, key);
  }

  class Service {
    var rows: seq<StockRow>

    constructor ()
      ensures rows == []
    {
      rows := [];
    }

    method AdjustStock(key: StockKey, delta: int, fault: Fault) returns (thrown: bool)
      requires UniqueRows(rows)
      modifies this
      ensures UniqueRows(rows)
      ensures thrown <==> fault != NoFault
      ensures forall k :: Amount(rows, k) == old(Amount(rows, k)) + if k == key && !thrown then delta else 0
      ensures rows == Run(State(old(rows), map[], []), Script(key, delta, fault)).rows
    {
      ScriptRun(rows, key, delta, fault);
      if fault == AcquireThrows || fault == FindThrows {
        return true;
      }
      var at := FindRow(rows, key);
      var inv;
      if at.None? {
        inv := Row(key, delta);
      } else {
        inv := rows[at.value].(amount := rows[at.value].amount + delta);
      }
      if fault == SaveThrows {
        return true;
      }
      AdjustedRows(rows, key, delta);
      rows := if at.Some? then rows[at.value := inv] else rows + [inv];
      return false;
    }
  }

  lemma {:induction false} RunStep(s: State, e: Event, rest: seq<Event>)
    ensures Run(s, [e] + rest) == Run(Next(s, e), rest)
  {
    if rest == [] {
      assert [e] + rest == [e] && [e][..0] == [];
    } else {
      RunStep(s, e, rest[..|rest| - 1]);
      assert ([e] + rest)[..|rest|] == [e] + rest[..|rest| - 1];
    }
  }

  lemma ScriptRun(rows: seq<StockRow>, key: StockKey, delta: int, fault: Fault)
    ensures Run(State(rows, map[], []), Script(key, delta, fault)).rows ==
      if fault == NoFault then RowsAfter(rows, key, delta) else rows
  {
    var start, waiting := State(rows, map[], []), State(rows, map[], [Call(key, delta, Waiting)]);
    var script := Script(key, delta, fault);
    assert Next(start, Arrive(key, delta)) == waiting;
    if fault == AcquireThrows {
      assert script == [Arrive(key, delta)] + [Refuse(0)];
      RunStep(start, Arrive(key, delta), [Refuse(0)]);
      RunStep(waiting, Refuse(0), []);
    } else {
      assert script == [Arrive(key, delta)] + ([Acquire(0)] + script[2..]);
      RunStep(start, Arrive(key, delta), [Acquire(0)] + script[2..]);
      RunStep(waiting, Acquire(0), script[2..]);
      assert Next(waiting, Acquire(0)) == State(rows, map[][LockKey(key) := 0], [Call(key, delta, Holding)]);
      HolderRuns(rows, key, delta, fault);
    }
  }

  lemma HolderRuns(rows: seq<StockRow>, key: StockKey, delta: int, fault: Fault)
    requires fault != AcquireThrows
    ensures
      var holding := State(rows, map[][LockKey(key) := 0], [Call(key, delta, Holding)]);
      Run(holding, Script(key, delta, fault)[2..]).rows ==
        if fault == NoFault then RowsAfter(rows, key, delta) else rows
  {
    var holding := State(rows, map[][LockKey(key) := 0], [Call(key, delta, Holding)]);
    var rest := Script(key, delta, fault)[2..];
    if fault == FindThrows {
      assert rest == [Fail(0)] + [Release(0)];
      FailedRuns(holding);
    } else {
      var last := if fault == NoFault then Save(0) else Fail(0);
      assert rest == [Find(0)] + ([last] + [Release(0)]);
      RunStep(holding, Find(0), [last] + [Release(0)]);
      assert Next(holding, Find(0)) == Found(rows, key, delta);
      FoundRuns(rows, key, delta, last);
    }
  }

  /** The caller, alone, with the quantity it computed. */
  function Found(rows: seq<StockRow>, key: StockKey, delta: int): State {
    State(rows, map[][LockKey(key) := 0], [Call(key, delta, Computed(FindRow(rows, key), Amount(rows, key) + delta))])
  }

  lemma FoundRuns(rows: seq<StockRow>, key: StockKey, delta: int, last: Event)
    requires last == Save(0) || last == Fail(0)
    ensures Run(Found(rows, key, delta), [last] + [Release(0)]).rows ==
      if last == Save(0) then RowsAfter(rows, key, delta) else rows
  {
    var s := Found(rows, key, delta);
    RunStep(s, last, [Release(0)]);
    ReleaseKeepsRows(Next(s, last));
  }

  lemma FailedRuns(s: State)
    ensures Run(s, [Fail(0)] + [Release(0)]).rows == s.rows
  {
    RunStep(s, Fail(0), [Release(0)]);
    ReleaseKeepsRows(Next(s, Fail(0)));
  }

  lemma ReleaseKeepsRows(s: State)
    ensures Run(s, [Release(0)]).rows == s.rows
  {
    assert [Release(0)][..0] == [];
  }
}
