// creditUser as unboundedly many callers run it: a per-user lock around a database
// transaction, with a ledger in a second database that the transaction cannot undo.
module WalletCredit {
  import opened Base
  import opened Accounts

  datatype WalletKey = WalletKey(userId: string, appKey: string, tenantKey: string)

  type Wallet = Row<WalletKey>

  datatype Entry = Entry(key: WalletKey, amount: int)

  /** The lock resource names the user only. */
  function LockKey(k: WalletKey): string {
    "lock:wallet:" + k.userId
  }

  /** Two callers contend exactly for the same user, in whatever app and tenant. */
  lemma LockNamesTheUser(k: WalletKey, l: WalletKey)
    ensures LockKey(k) == LockKey(l) <==> k.userId == l.userId
  {
    var prefix := "lock:wallet:";
    assert LockKey(k)[|prefix|..] == k.userId && LockKey(l)[|prefix|..] == l.userId;
  }

  datatype Ending =
    | Committed
    | RolledBack(logged: bool)  // with or without a ledger entry left behind
    | NotStarted                // connect or startTransaction threw

  datatype Phase =
    | Waiting
    | Refused                                    // acquire threw
    | Holding                                    // lock held, transaction not started
    | InTransaction
    | Loaded(at: Option<nat>, balance: int)      // new balance computed in memory
    | Staged(at: Option<nat>, balance: int)      // saved inside the transaction, invisible outside
    | Logged(at: Option<nat>, balance: int)      // ledger entry saved, commit pending
    | Settled(ending: Ending)                    // transaction over, lock still held
    | Stranded(ending: Ending)                   // gone without releasing the lock
    | Closed(ending: Ending)

  datatype Call = Call(key: WalletKey, amount: int, phase: Phase)

  /** Committed wallet rows (no unique index, so a plain list) and the ledger. */
  datatype State = State(wallets: seq<Wallet>, ledger: seq<Entry>, locks: map<string, nat>, calls: seq<Call>)

  datatype Event =
    | Arrive(key: WalletKey, amount: int)
    | Acquire(id: nat)
    | Refuse(id: nat)
    | Connect(id: nat)
    | ConnectFails(id: nat)   // before the try block: nothing releases the lock
    | Load(id: nat)
    | Stage(id: nat)
    | Log(id: nat)
    | Commit(id: nat)
    | Fail(id: nat)           // any step of the try block throws: rollback
    | Release(id: nat)
    | ReleaseFails(id: nat)   // queryRunner.release threw first
    | Expire(id: nat)         // the lock of a caller that is gone times out

  predicate InTry(p: Phase) {
    p.InTransaction? || p.Loaded? || p.Staged? || p.Logged?
  }

  predicate Enabled(s: State, e: Event) {
    if e.Arrive? then true
    else
      && e.id < |s.calls|
      && var c := s.calls[e.id];
         match e
         case Acquire(_) => c.phase.Waiting? && LockKey(c.key) !in s.locks
         case Refuse(_) => c.phase.Waiting?
         case Connect(_) => c.phase.Holding?
         case ConnectFails(_) => c.phase.Holding?
         case Load(_) => c.phase.InTransaction?
         case Stage(_) => c.phase.Loaded?
         case Log(_) => c.phase.Staged?
         case Commit(_) => c.phase.Logged? && (c.phase.at.Some? ==> c.phase.at.value < |s.wallets|)
         case Fail(_) => InTry(c.phase)
         case Release(_) => c.phase.Settled?
         case ReleaseFails(_) => c.phase.Settled?
         case Expire(_) => c.phase.Stranded?
  }

  function SetPhase(s: State, id: nat, p: Phase): State
    requires id < |s.calls|
  {
    s.(calls := s.calls[id := s.calls[id].(phase := p)])
  }

  function NextPhase(s: State, c: Call, e: Event): Phase
    requires !e.Arrive? && e.id < |s.calls| && s.calls[e.id] == c && Enabled(s, e)
  {
    match e
    case Acquire(_) => Holding
    case Refuse(_) => Refused
    case Connect(_) => InTransaction
    case ConnectFails(_) => Stranded(NotStarted)
    case Load(_) => Loaded(FindRow(s.wallets, c.key), Amount(s.wallets, c.key) + c.amount)
    case Stage(_) => Staged(c.phase.at, c.phase.balance)
    case Log(_) => Logged(c.phase.at, c.phase.balance)
    case Commit(_) => Settled(Committed)
    case Fail(_) => Settled(RolledBack(c.phase.Logged?))
    case Release(_) => Closed(c.phase.ending)
    case ReleaseFails(_) => Stranded(c.phase.ending)
    case Expire(_) => Closed(c.phase.ending)
  }

  /** One atomic step of one caller; an event that cannot happen changes nothing. */
  function Next(s: State, e: Event): State {
    if !Enabled(s, e) then s
    else if e.Arrive? then s.(calls := s.calls + [Call(e.key, e.amount, Waiting)])
    else
      var c := s.calls[e.id];
      var s' := SetPhase(s, e.id, NextPhase(s, c, e));
      match e
      case Acquire(id) => s'.(locks := s.locks[LockKey(c.key) := id])
      case Release(_) => s'.(locks := s.locks - {LockKey(c.key)})
      case Expire(_) => s'.(locks := s.locks - {LockKey(c.key)})
      case Log(_) => s'.(ledger := s.ledger + [Entry(c.key, c.amount)])
      case Commit(_) => s'.(wallets := Save(s.wallets, c.key, c.phase.at, c.phase.balance))
      case _ => s'
  }

  function Run(s: State, events: seq<Event>): State
    decreases |events|
  {
    if events == [] then s else Run(Next(s, events[0]), events[1..])
  }

  const EMPTY := State([], [], map[], [])

  // ----- Money by outcome -----

  function EndingOf(p: Phase): Option<Ending> {
    if p.Settled? || p.Stranded? || p.Closed? then Some(p.ending) else None
  }

  /** Credits whose transaction committed. */
  function CommittedTo(key: WalletKey): Call -> int {
    (c: Call) => if c.key == key && EndingOf(c.phase) == Some(Committed) then c.amount else 0
  }

  /** Credits in the ledger whose commit is still to come. */
  function PendingTo(key: WalletKey): Call -> int {
    (c: Call) => if c.key == key && c.phase.Logged? then c.amount else 0
  }

  /** Credits in the ledger whose transaction was rolled back. */
  function PhantomTo(key: WalletKey): Call -> int {
    (c: Call) => if c.key == key && EndingOf(c.phase) == Some(RolledBack(true)) then c.amount else 0
  }

  function EntriesTo(key: WalletKey): Entry -> int {
    (e: Entry) => if e.key == key then e.amount else 0
  }

  function LedgerSum(s: State, key: WalletKey): int {
    Sum(s.ledger, EntriesTo(key))
  }

  // ----- What every interleaving keeps -----

  predicate HoldsLock(p: Phase) {
    p.Holding? || InTry(p) || p.Settled? || p.Stranded?
  }

  ghost predicate LocksHeld(s: State) {
    forall i :: 0 <= i < |s.calls| && HoldsLock(s.calls[i].phase) ==>
      LockKey(s.calls[i].key) in s.locks && s.locks[LockKey(s.calls[i].key)] == i
  }

  predicate HasComputed(p: Phase) {
    p.Loaded? || p.Staged? || p.Logged?
  }

  ghost predicate NoStaleRead(s: State) {
    forall i :: 0 <= i < |s.calls| && HasComputed(s.calls[i].phase) ==>
      var c := s.calls[i];
      c.phase.at == FindRow(s.wallets, c.key) && c.phase.balance == Amount(s.wallets, c.key) + c.amount
  }

  ghost predicate BalanceIsCommitted(s: State) {
    forall key :: Amount(s.wallets, key) == Sum(s.calls, CommittedTo(key))
  }

  ghost predicate LedgerIsAccounted(s: State) {
    forall key :: LedgerSum(s, key) ==
      Sum(s.calls, CommittedTo(key)) + Sum(s.calls, PendingTo(key)) + Sum(s.calls, PhantomTo(key))
  }

  ghost predicate Inv(s: State) {
    UniqueRows(s.wallets) && LocksHeld(s) && NoStaleRead(s) && BalanceIsCommitted(s) && LedgerIsAccounted(s)
  }

  /** How a step of caller `id` moves its amount between the three sums. */
  lemma SumsAfterStep(calls: seq<Call>, id: nat, c': Call, key: WalletKey)
    requires id < |calls|
    ensures Sum(calls[id := c'], CommittedTo(key)) ==
      Sum(calls, CommittedTo(key)) - CommittedTo(key)(calls[id]) + CommittedTo(key)(c')
    ensures Sum(calls[id := c'], PendingTo(key)) ==
      Sum(calls, PendingTo(key)) - PendingTo(key)(calls[id]) + PendingTo(key)(c')
    ensures Sum(calls[id := c'], PhantomTo(key)) ==
      Sum(calls, PhantomTo(key)) - PhantomTo(key)(calls[id]) + PhantomTo(key)(c')
  {
    SumUpdate(calls, id, c', CommittedTo(key));
    SumUpdate(calls, id, c', PendingTo(key));
    SumUpdate(calls, id, c', PhantomTo(key));
  }

  lemma NextKeepsInv(s: State, e: Event)
    requires Inv(s)
    ensures Inv(Next(s, e))
  {
    if Enabled(s, e) {
      match e
      case Arrive(key, amount) =>
        var s' := Next(s, e);
        forall k
          ensures Sum(s'.calls, CommittedTo(k)) == Sum(s.calls, CommittedTo(k))
          ensures Sum(s'.calls, PendingTo(k)) == Sum(s.calls, PendingTo(k))
          ensures Sum(s'.calls, PhantomTo(k)) == Sum(s.calls, PhantomTo(k))
        {
          SumAppend(s.calls, Call(key, amount, Waiting), CommittedTo(k));
          SumAppend(s.calls, Call(key, amount, Waiting), PendingTo(k));
          SumAppend(s.calls, Call(key, amount, Waiting), PhantomTo(k));
        }
      case _ =>
        StepKeepsLocks(s, e);
        StepKeepsReadsFresh(s, e);
        StepKeepsMoney(s, e);
    }
  }

  lemma StepKeepsLocks(s: State, e: Event)
    requires Inv(s) && Enabled(s, e) && !e.Arrive?
    ensures LocksHeld(Next(s, e))
  {
    var s' := Next(s, e);
    forall i | 0 <= i < |s'.calls| && HoldsLock(s'.calls[i].phase)
      ensures LockKey(s'.calls[i].key) in s'.locks && s'.locks[LockKey(s'.calls[i].key)] == i
    {
      if i != e.id {
        assert HoldsLock(s.calls[i].phase);
      }
    }
  }

  /** Same wallet means same user means same lock, and the committing caller holds it. */
  lemma CommitKeepsReadsFresh(s: State, e: Event)
    requires Inv(s) && Enabled(s, e) && e.Commit?
    ensures NoStaleRead(Next(s, e)) && UniqueRows(Next(s, e).wallets)
  {
    var s', c := Next(s, e), s.calls[e.id];
    SaveWritesOneRow(s.wallets, c.key, c.phase.balance, c.key);
    forall i | 0 <= i < |s'.calls| && HasComputed(s'.calls[i].phase)
      ensures s'.calls[i].phase.at == FindRow(s'.wallets, s'.calls[i].key)
      ensures s'.calls[i].phase.balance == Amount(s'.wallets, s'.calls[i].key) + s'.calls[i].amount
    {
      assert i != e.id && s'.calls[i] == s.calls[i];
      assert HoldsLock(s.calls[i].phase) && HoldsLock(c.phase);
      assert s.calls[i].key != c.key;
      SaveWritesOneRow(s.wallets, c.key, c.phase.balance, s.calls[i].key);
    }
  }

  lemma StepKeepsReadsFresh(s: State, e: Event)
    requires Inv(s) && Enabled(s, e) && !e.Arrive?
    ensures NoStaleRead(Next(s, e)) && UniqueRows(Next(s, e).wallets)
  {
    if e.Commit? {
      CommitKeepsReadsFresh(s, e);
    } else {
      var s' := Next(s, e);
      forall i | 0 <= i < |s'.calls| && HasComputed(s'.calls[i].phase)
        ensures s'.calls[i].phase.at == FindRow(s.wallets, s'.calls[i].key)
        ensures s'.calls[i].phase.balance == Amount(s.wallets, s'.calls[i].key) + s'.calls[i].amount
      {
        assert HasComputed(s.calls[i].phase) || e.Load?;
      }
    }
  }

  lemma StepKeepsMoney(s: State, e: Event)
    requires Inv(s) && Enabled(s, e) && !e.Arrive?
    ensures BalanceIsCommitted(Next(s, e)) && LedgerIsAccounted(Next(s, e))
  {
    forall k
      ensures Amount(Next(s, e).wallets, k) == Sum(Next(s, e).calls, CommittedTo(k))
      ensures LedgerSum(Next(s, e), k) ==
        Sum(Next(s, e).calls, CommittedTo(k)) + Sum(Next(s, e).calls, PendingTo(k)) +
          Sum(Next(s, e).calls, PhantomTo(k))
    {
      StepMovesMoney(s, e, k);
    }
  }

  /** How much of one wallet's money a step moves, as an event of kind `kind` by `c`. */
  function Moved(s: State, e: Event, k: WalletKey, kind: bool): int
    requires Enabled(s, e) && !e.Arrive?
  {
    if kind && s.calls[e.id].key == k then s.calls[e.id].amount else 0
  }

  lemma StepMovesMoney(s: State, e: Event, k: WalletKey)
    requires Inv(s) && Enabled(s, e) && !e.Arrive?
    ensures
      var s' := Next(s, e);
      && Amount(s'.wallets, k) == Amount(s.wallets, k) + Moved(s, e, k, e.Commit?)
      && LedgerSum(s', k) == LedgerSum(s, k) + Moved(s, e, k, e.Log?)
      && Sum(s'.calls, CommittedTo(k)) == Sum(s.calls, CommittedTo(k)) + Moved(s, e, k, e.Commit?)
      && Sum(s'.calls, PendingTo(k)) + Sum(s'.calls, PhantomTo(k))
           == Sum(s.calls, PendingTo(k)) + Sum(s.calls, PhantomTo(k)) +
             Moved(s, e, k, e.Log?) - Moved(s, e, k, e.Commit?)
  {
    var c, s' := s.calls[e.id], Next(s, e);
    var c' := c.(phase := NextPhase(s, c, e));
    assert s'.calls == s.calls[e.id := c'];
    SumsAfterStep(s.calls, e.id, c', k);
    StepWeights(s, e, k);
    StepTables(s, e, k);
  }

  lemma StepWeights(s: State, e: Event, k: WalletKey)
    requires Enabled(s, e) && !e.Arrive?
    ensures
      var c, c' := s.calls[e.id], s.calls[e.id].(phase := NextPhase(s, s.calls[e.id], e));
      && CommittedTo(k)(c') == CommittedTo(k)(c) + Moved(s, e, k, e.Commit?)
      && PendingTo(k)(c') + PhantomTo(k)(c')
           == PendingTo(k)(c) + PhantomTo(k)(c) + Moved(s, e, k, e.Log?) - Moved(s, e, k, e.Commit?)
  {
  }

  lemma StepTables(s: State, e: Event, k: WalletKey)
    requires Inv(s) && Enabled(s, e) && !e.Arrive?
    ensures Amount(Next(s, e).wallets, k) == Amount(s.wallets, k) + Moved(s, e, k, e.Commit?)
    ensures LedgerSum(Next(s, e), k) == LedgerSum(s, k) + Moved(s, e, k, e.Log?)
  {
    var c := s.calls[e.id];
    if e.Commit? {
      SaveWritesOneRow(s.wallets, c.key, c.phase.balance, k);
    } else if e.Log? {
      SumAppend(s.ledger, Entry(c.key, c.amount), EntriesTo(k));
    }
  }

  lemma {:induction false} RunKeepsInv(s: State, events: seq<Event>)
    requires Inv(s)
    ensures Inv(Run(s, events))
    decreases |events|
  {
    if events == [] {
    } else {
      NextKeepsInv(s, events[0]);
      RunKeepsInv(Next(s, events[0]), events[1..]);
    }
  }

  /** In every interleaving of any number of credits, for every wallet: the committed
      balance, what is logged and not committed yet, and what was logged and rolled back
      add up to the ledger. */
  lemma BalanceMeetsLedger(events: seq<Event>, key: WalletKey)
    ensures
      var s := Run(EMPTY, events);
      Amount(s.wallets, key) + Sum(s.calls, PendingTo(key)) + Sum(s.calls, PhantomTo(key)) == LedgerSum(s, key)
  {
    RunKeepsInv(EMPTY, events);
  }

  ghost predicate Quiescent(s: State, key: WalletKey) {
    forall c :: c in s.calls && c.key == key ==> !c.phase.Logged?
  }

  ghost predicate NoRollbackAfterLog(s: State, key: WalletKey) {
    forall c :: c in s.calls && c.key == key ==> EndingOf(c.phase) != Some(RolledBack(true))
  }

  /** With nothing in flight and no rollback after logging, balance and ledger agree. */
  lemma QuietBalanceEqualsLedger(events: seq<Event>, key: WalletKey)
    requires Quiescent(Run(EMPTY, events), key) && NoRollbackAfterLog(Run(EMPTY, events), key)
    ensures Amount(Run(EMPTY, events).wallets, key) == LedgerSum(Run(EMPTY, events), key)
  {
    var s := Run(EMPTY, events);
    BalanceMeetsLedger(events, key);
    SumIsZero(s.calls, PendingTo(key));
    SumIsZero(s.calls, PhantomTo(key));
  }

  lemma {:induction false} SumIsZero<T>(s: seq<T>, weight: T -> int)
    requires forall x :: x in s ==> weight(x) == 0
    ensures Sum(s, weight) == 0
  {
    if s == [] {
    } else {
      SumIsZero(s[..|s| - 1], weight);
    }
  }

  /** No lost update: the balance is the sum of the credits that committed, in one row. */
  lemma NoLostCredit(events: seq<Event>, key: WalletKey)
    ensures UniqueRows(Run(EMPTY, events).wallets)
    ensures Amount(Run(EMPTY, events).wallets, key) == Sum(Run(EMPTY, events).calls, CommittedTo(key))
  {
    RunKeepsInv(EMPTY, events);
  }

  /** A caller whose connection failed keeps the lock: until it times out nobody else of
      that user gets in, so a stranded lock costs progress and never money. */
  lemma StrandedLockBlocks(events: seq<Event>, i: nat, j: nat)
    requires i < |Run(EMPTY, events).calls| && j < |Run(EMPTY, events).calls| && i != j
    requires Run(EMPTY, events).calls[i].phase.Stranded?
    requires Run(EMPTY, events).calls[j].key.userId == Run(EMPTY, events).calls[i].key.userId
    ensures !HoldsLock(Run(EMPTY, events).calls[j].phase)
    ensures !Enabled(Run(EMPTY, events), Acquire(j))
  {
    RunKeepsInv(EMPTY, events);
  }
}
