// The wallet service one request at a time: creditUser as one path through the
// interleaved protocol, and the redemption of gift cards beside it.
module WalletService {
  import opened Base
  import opened Accounts
  import opened WalletCredit

  datatype CardStatus = ACTIVE | EXPIRED | REDEEMED | DISABLED

  datatype GiftCard = GiftCard(code: string, appKey: string, tenantKey: string, status: CardStatus,
                               initialAmount: int, currentAmount: int)

  /** `credited` and `phantoms` record history: what creditUser committed, and the
      ledger entries whose transaction was rolled back. */
  datatype Tables = Tables(wallets: seq<Wallet>, ledger: seq<Entry>, cards: seq<GiftCard>,
                           credited: int, phantoms: seq<Entry>)

  /** Where the try block throws, if it does. */
  datatype Fault = NoFault | BeforeLedger | AtCommit

  datatype Op =
    | CreditUser(key: WalletKey, amount: int, fault: Fault)
    | RedeemGiftCard(userId: string, code: string, appKey: string, tenantKey: string, fault: Fault)
    | IssueCard(card: GiftCard)

  predicate Redeemable(card: GiftCard, code: string, appKey: string, tenantKey: string) {
    card.code == code && card.appKey == appKey && card.tenantKey == tenantKey && card.status == ACTIVE
  }

  function FindCard(cards: seq<GiftCard>, code: string, appKey: string, tenantKey: string): (at: Option<nat>)
    ensures at.Some? ==> at.value < |cards| && Redeemable(cards[at.value], code, appKey, tenantKey)
    ensures at.None? ==> forall c :: c in cards ==> !Redeemable(c, code, appKey, tenantKey)
  {
    FirstWhere(cards, (c: GiftCard) => Redeemable(c, code, appKey, tenantKey))
  }

  /** The three writes that both operations share: wallet and ledger, with a rollback
      that reaches the first and not the second. */
  function Pay(t: Tables, key: WalletKey, amount: int, fault: Fault): Tables {
    var entry := Entry(key, amount);
    match fault
    case BeforeLedger => t
    case AtCommit => t.(ledger := t.ledger + [entry], phantoms := t.phantoms + [entry])
    case NoFault =>
      t.(ledger := t.ledger + [entry],
         wallets := Save(t.wallets, key, FindRow(t.wallets, key), Amount(t.wallets, key) + amount))
  }

  function Step(t: Tables, op: Op): Tables {
    match op
    case CreditUser(key, amount, fault) =>
      Pay(t, key, amount, fault).(credited := t.credited + if fault.NoFault? then amount else 0)
    case RedeemGiftCard(userId, code, appKey, tenantKey, fault) =>
      var at := FindCard(t.cards, code, appKey, tenantKey);
      if at.None? then t
      else
        var card := t.cards[at.value];
        var paid := Pay(t, WalletKey(userId, appKey, tenantKey), card.initialAmount, fault);
        if fault.NoFault? then
          paid.(cards := t.cards[at.value := card.(status := REDEEMED, currentAmount := 0)])
        else paid
    case IssueCard(card) =>
      if card.status == REDEEMED || exists c :: c in t.cards && c.code == card.code then t
      else t.(cards := t.cards + [card])
  }

  function Run(t: Tables, ops: seq<Op>): Tables
    decreases |ops|
  {
    if ops == [] then t else Run(Step(t, ops[0]), ops[1..])
  }

  const NO_TABLES := Tables([], [], [], 0, [])

  // ----- Conservation over runs -----

  function BalanceOf(): Wallet -> int {
    (w: Wallet) => w.amount
  }

  function RedeemedAmount(): GiftCard -> int {
    (c: GiftCard) => if c.status == REDEEMED then c.initialAmount else 0
  }

  ghost predicate UniqueCodes(cards: seq<GiftCard>) {
    forall i, j :: 0 <= i < j < |cards| ==> cards[i].code != cards[j].code
  }

  /** The balance of one wallet and its ledger entries agree, up to rolled-back entries. */
  ghost predicate LedgerMeets(wallets: seq<Wallet>, phantoms: seq<Entry>, ledger: seq<Entry>, key: WalletKey) {
    Amount(wallets, key) + Sum(phantoms, EntriesTo(key)) == Sum(ledger, EntriesTo(key))
  }

  ghost predicate LedgerMeetsBalances(t: Tables) {
    forall key :: LedgerMeets(t.wallets, t.phantoms, t.ledger, key)
  }

  /** All money in wallets came from a committed credit or from a redeemed card, once. */
  ghost predicate MoneyHasSource(t: Tables) {
    Sum(t.wallets, BalanceOf()) == t.credited + Sum(t.cards, RedeemedAmount())
  }

  ghost predicate Conserved(t: Tables) {
    UniqueRows(t.wallets) && UniqueCodes(t.cards) && LedgerMeetsBalances(t) && MoneyHasSource(t)
  }

  lemma PayMovesBalance(t: Tables, key: WalletKey, amount: int, fault: Fault, k: WalletKey)
    requires UniqueRows(t.wallets)
    ensures
      var t' := Pay(t, key, amount, fault);
      Amount(t'.wallets, k) + Sum(t'.phantoms, EntriesTo(k)) - Sum(t'.ledger, EntriesTo(k))
      == Amount(t.wallets, k) + Sum(t.phantoms, EntriesTo(k)) - Sum(t.ledger, EntriesTo(k))
  {
    match fault
    case BeforeLedger =>
    case AtCommit =>
      SumAppend(t.ledger, Entry(key, amount), EntriesTo(k));
      SumAppend(t.phantoms, Entry(key, amount), EntriesTo(k));
    case NoFault =>
      SumAppend(t.ledger, Entry(key, amount), EntriesTo(k));
      SaveWritesOneRow(t.wallets, key, Amount(t.wallets, key) + amount, k);
  }

  lemma PayMeetsLedger(t: Tables, key: WalletKey, amount: int, fault: Fault)
    requires UniqueRows(t.wallets) && LedgerMeetsBalances(t)
    ensures LedgerMeetsBalances(Pay(t, key, amount, fault))
  {
    var t' := Pay(t, key, amount, fault);
    forall k
      ensures LedgerMeets(t'.wallets, t'.phantoms, t'.ledger, k)
    {
      assert LedgerMeets(t.wallets, t.phantoms, t.ledger, k);
      PayMovesBalance(t, key, amount, fault, k);
    }
  }

  lemma SavedWalletsAddUp(wallets: seq<Wallet>, key: WalletKey, at: Option<nat>, balance: int)
    requires at.Some? ==> at.value < |wallets|
    ensures Sum(Save(wallets, key, at, balance), BalanceOf()) ==
      Sum(wallets, BalanceOf()) + balance - if at.Some? then wallets[at.value].amount else 0
  {
    if at.Some? {
      SumUpdate(wallets, at.value, wallets[at.value].(amount := balance), BalanceOf());
    } else {
      SumAppend(wallets, Row(key, balance), BalanceOf());
    }
  }

  lemma PayAddsUp(t: Tables, key: WalletKey, amount: int, fault: Fault)
    requires UniqueRows(t.wallets)
    ensures UniqueRows(Pay(t, key, amount, fault).wallets)
    ensures Sum(Pay(t, key, amount, fault).wallets, BalanceOf()) ==
      Sum(t.wallets, BalanceOf()) + if fault.NoFault? then amount else 0
  {
    var balance := Amount(t.wallets, key) + amount;
    SaveWritesOneRow(t.wallets, key, balance, key);
    SavedWalletsAddUp(t.wallets, key, FindRow(t.wallets, key), balance);
  }

  lemma PaidBalance(t: Tables, key: WalletKey, amount: int)
    requires UniqueRows(t.wallets)
    ensures Amount(Pay(t, key, amount, NoFault).wallets, key) == Amount(t.wallets, key) + amount
  {
    SaveWritesOneRow(t.wallets, key, Amount(t.wallets, key) + amount, key);
  }

  lemma CardIsSpent(cards: seq<GiftCard>, at: nat)
    requires UniqueCodes(cards) && at < |cards| && cards[at].status == ACTIVE
    ensures
      var cards' := cards[at := cards[at].(status := REDEEMED, currentAmount := 0)];
      UniqueCodes(cards') && Sum(cards', RedeemedAmount()) == Sum(cards, RedeemedAmount()) + cards[at].initialAmount
  {
    SumUpdate(cards, at, cards[at].(status := REDEEMED, currentAmount := 0), RedeemedAmount());
  }

  lemma CardIsIssued(cards: seq<GiftCard>, card: GiftCard)
    requires UniqueCodes(cards) && card.status != REDEEMED && forall c :: c in cards ==> c.code != card.code
    ensures UniqueCodes(cards + [card]) && Sum(cards + [card], RedeemedAmount()) == Sum(cards, RedeemedAmount())
  {
    SumAppend(cards, card, RedeemedAmount());
  }

  lemma StepConserves(t: Tables, op: Op)
    requires Conserved(t)
    ensures Conserved(Step(t, op))
  {
    match op
    case CreditUser(key, amount, fault) =>
      PayMeetsLedger(t, key, amount, fault);
      PayAddsUp(t, key, amount, fault);
    case RedeemGiftCard(userId, code, appKey, tenantKey, fault) =>
      var at := FindCard(t.cards, code, appKey, tenantKey);
      if at.Some? {
        var key, amount := WalletKey(userId, appKey, tenantKey), t.cards[at.value].initialAmount;
        PayMeetsLedger(t, key, amount, fault);
        PayAddsUp(t, key, amount, fault);
        CardIsSpent(t.cards, at.value);
      }
    case IssueCard(card) =>
      if Step(t, op) != t {
        CardIsIssued(t.cards, card);
      }
  }

  lemma {:induction false} RunConserves(t: Tables, ops: seq<Op>)
    requires Conserved(t)
    ensures Conserved(Run(t, ops))
    decreases |ops|
  {
    if ops == [] {
    } else {
      StepConserves(t, ops[0]);
      RunConserves(Step(t, ops[0]), ops[1..]);
    }
  }

  /** Conservation over every run of credits and redemptions, failures included. */
  lemma EveryRunConservesMoney(ops: seq<Op>)
    ensures LedgerMeetsBalances(Run(NO_TABLES, ops)) && MoneyHasSource(Run(NO_TABLES, ops))
  {
    RunConserves(NO_TABLES, ops);
  }

  /** A redeemed card stays redeemed: no later request finds it active again. */
  lemma {:induction false} RedeemedIsFinal(t: Tables, ops: seq<Op>, i: nat)
    requires i < |t.cards| && t.cards[i].status == REDEEMED
    ensures i < |Run(t, ops).cards| && Run(t, ops).cards[i] == t.cards[i]
    decreases |ops|
  {
    if ops == [] {
    } else {
      assert i < |Step(t, ops[0]).cards| && Step(t, ops[0]).cards[i] == t.cards[i];
      RedeemedIsFinal(Step(t, ops[0]), ops[1..], i);
    }
  }

  lemma SpentCardIsGone(cards: seq<GiftCard>, at: nat, code: string, appKey: string, tenantKey: string)
    requires UniqueCodes(cards) && at < |cards| && Redeemable(cards[at], code, appKey, tenantKey)
    ensures
      var redeemed := cards[at].(status := REDEEMED, currentAmount := 0);
      forall c :: c in cards[at := redeemed] ==> !Redeemable(c, code, appKey, tenantKey)
  {
  }

  // ----- Whom a request pays -----

  lemma PaysOneWallet(t: Tables, key: WalletKey, amount: int, fault: Fault, k: WalletKey)
    requires UniqueRows(t.wallets)
    ensures Amount(Pay(t, key, amount, fault).wallets, k) ==
      Amount(t.wallets, k) + if k == key && fault == NoFault then amount else 0
  {
    SaveWritesOneRow(t.wallets, key, Amount(t.wallets, key) + amount, k);
  }

  /** A credit adds to the wallet it names and to no other, and logs that; one that throws
      pays nobody, and leaves its entry behind exactly if it throws at the commit. */
  lemma CreditPays(t: Tables, key: WalletKey, amount: int, fault: Fault, k: WalletKey)
    requires UniqueRows(t.wallets)
    ensures
      var t' := Step(t, CreditUser(key, amount, fault));
      && Amount(t'.wallets, k) == Amount(t.wallets, k) + (if k == key && fault == NoFault then amount else 0)
      && t'.ledger == t.ledger + (if fault == BeforeLedger then [] else [Entry(key, amount)])
      && t'.cards == t.cards
      && (fault != NoFault ==> t'.wallets == t.wallets)
  {
    PaysOneWallet(t, key, amount, fault, k);
  }

  /** The card that a redemption may spend: the code, in this app and tenant, unspent. */
  predicate Presented(card: GiftCard, code: string, appKey: string, tenantKey: string) {
    card == GiftCard(code, appKey, tenantKey, ACTIVE, card.initialAmount, card.currentAmount)
  }

  /** A redemption adds the presented card's initial amount to the user's own wallet in the
      card's app and tenant and to no other wallet, logs that, and spends that card alone. */
  lemma RedemptionPays(t: Tables, userId: string, code: string, appKey: string, tenantKey: string, fault: Fault,
                       n: nat, k: WalletKey)
    requires UniqueRows(t.wallets) && UniqueCodes(t.cards)
    requires n < |t.cards| && Presented(t.cards[n], code, appKey, tenantKey)
    ensures
      var t', card := Step(t, RedeemGiftCard(userId, code, appKey, tenantKey, fault)), t.cards[n];
      var key := WalletKey(userId, appKey, tenantKey);
      && Amount(t'.wallets, k) ==
        Amount(t.wallets, k) + (if k == key && fault == NoFault then card.initialAmount else 0)
      && t'.ledger == t.ledger + (if fault == BeforeLedger then [] else [Entry(key, card.initialAmount)])
      && t'.cards == (if fault == NoFault then t.cards[n := card.(status := REDEEMED, currentAmount := 0)] else t.cards)
      && (fault != NoFault ==> t'.wallets == t.wallets)
  {
    assert t.cards[n] in t.cards;
    assert FindCard(t.cards, code, appKey, tenantKey) == Some(n);
    PaysOneWallet(t, WalletKey(userId, appKey, tenantKey), t.cards[n].initialAmount, fault, k);
  }

  /** Without such a card nothing happens. */
  lemma NothingToRedeem(t: Tables, userId: string, code: string, appKey: string, tenantKey: string, fault: Fault)
    requires forall c :: c in t.cards ==> !Presented(c, code, appKey, tenantKey)
    ensures Step(t, RedeemGiftCard(userId, code, appKey, tenantKey, fault)) == t
  {
    forall i | 0 <= i < |t.cards|
      ensures !Redeemable(t.cards[i], code, appKey, tenantKey)
    {
      assert t.cards[i] in t.cards;
    }
  }

  // ----- creditUser alone is a path of the protocol -----

  /** The protocol state in which call 0, alone, is at phase `p` and holds its lock. */
  function Alone(t: Tables, key: WalletKey, amount: int, p: Phase): State {
    State(t.wallets, t.ledger, map[LockKey(key) := 0], [Call(key, amount, p)])
  }

  function Ending(fault: Fault): seq<Event> {
    match fault
    case NoFault => [Log(0), Commit(0), Release(0)]
    case BeforeLedger => [Fail(0), Release(0)]
    case AtCommit => [Log(0), Fail(0), Release(0)]
  }

  function Script(key: WalletKey, amount: int, fault: Fault): seq<Event> {
    [Arrive(key, amount), Acquire(0), Connect(0), Load(0), Stage(0)] + Ending(fault)
  }

  lemma RunOne(s: State, e: Event, rest: seq<Event>)
    ensures WalletCredit.Run(s, [e] + rest) == WalletCredit.Run(Next(s, e), rest)
  {
    assert ([e] + rest)[1..] == rest;
  }

  lemma ToHolding(t: Tables, key: WalletKey, amount: int, rest: seq<Event>)
    ensures WalletCredit.Run(State(t.wallets, t.ledger, map[], []), [Arrive(key, amount)] + ([Acquire(0)] + rest))
         == WalletCredit.Run(Alone(t, key, amount, Holding), rest)
  {
    var start := State(t.wallets, t.ledger, map[], []);
    var waiting := start.(calls := [Call(key, amount, Waiting)]);
    RunOne(start, Arrive(key, amount), [Acquire(0)] + rest);
    RunOne(waiting, Acquire(0), rest);
    assert Next(start, Arrive(key, amount)) == waiting;
    assert Next(waiting, Acquire(0)) == Alone(t, key, amount, Holding);
  }

  function StagedPhase(t: Tables, key: WalletKey, amount: int): Phase {
    Staged(FindRow(t.wallets, key), Amount(t.wallets, key) + amount)
  }

  lemma ToStaged(t: Tables, key: WalletKey, amount: int, rest: seq<Event>)
    ensures WalletCredit.Run(Alone(t, key, amount, Holding), [Connect(0)] + ([Load(0)] + ([Stage(0)] + rest)))
         == WalletCredit.Run(Alone(t, key, amount, StagedPhase(t, key, amount)), rest)
  {
    var staged := StagedPhase(t, key, amount);
    RunOne(Alone(t, key, amount, Holding), Connect(0), [Load(0)] + ([Stage(0)] + rest));
    RunOne(Alone(t, key, amount, InTransaction), Load(0), [Stage(0)] + rest);
    RunOne(Alone(t, key, amount, Loaded(staged.at, staged.balance)), Stage(0), rest);
    assert Next(Alone(t, key, amount, Holding), Connect(0)) == Alone(t, key, amount, InTransaction);
    assert Next(Alone(t, key, amount, InTransaction), Load(0)) ==
      Alone(t, key, amount, Loaded(staged.at, staged.balance));
    assert Next(Alone(t, key, amount, Loaded(staged.at, staged.balance)), Stage(0)) == Alone(t, key, amount, staged);
  }

  lemma FromStaged(t: Tables, key: WalletKey, amount: int, fault: Fault)
    ensures
      var s := WalletCredit.Run(Alone(t, key, amount, StagedPhase(t, key, amount)), Ending(fault));
      s.wallets == Pay(t, key, amount, fault).wallets && s.ledger == Pay(t, key, amount, fault).ledger
  {
    if fault == BeforeLedger {
      FailsBeforeLedger(t, key, amount);
    } else {
      LogsAndEnds(t, key, amount, fault);
    }
  }

  lemma LogsAndEnds(t: Tables, key: WalletKey, amount: int, fault: Fault)
    requires fault != BeforeLedger
    ensures
      var staged := StagedPhase(t, key, amount);
      var s := WalletCredit.Run(Alone(t, key, amount, staged), Ending(fault));
      && s.ledger == t.ledger + [Entry(key, amount)]
      && s.wallets == if fault == NoFault then Save(t.wallets, key, staged.at, staged.balance) else t.wallets
  {
    ToLogged(t, key, amount, fault);
    FromLogged(t.(ledger := t.ledger + [Entry(key, amount)]), key, amount, StagedPhase(t, key, amount), fault);
  }

  lemma FailsBeforeLedger(t: Tables, key: WalletKey, amount: int)
    ensures
      var s := WalletCredit.Run(Alone(t, key, amount, StagedPhase(t, key, amount)), Ending(BeforeLedger));
      s.wallets == t.wallets && s.ledger == t.ledger
  {
    assert Ending(BeforeLedger) == [Fail(0)] + ([Release(0)] + []);
    RunOne(Alone(t, key, amount, StagedPhase(t, key, amount)), Fail(0), [Release(0)] + []);
    ReleaseKeepsTables(Alone(t, key, amount, Settled(RolledBack(false))));
  }

  lemma ReleaseKeepsTables(s: State)
    ensures
      var s' := WalletCredit.Run(s, [Release(0)] + []);
      s'.wallets == s.wallets && s'.ledger == s.ledger
  {
    RunOne(s, Release(0), []);
  }

  lemma ToLogged(t: Tables, key: WalletKey, amount: int, fault: Fault)
    requires fault != BeforeLedger
    ensures
      var staged := StagedPhase(t, key, amount);
      WalletCredit.Run(Alone(t, key, amount, staged), Ending(fault)) ==
      WalletCredit.Run(Alone(t.(ledger := t.ledger + [Entry(key, amount)]), key, amount,
                             Logged(staged.at, staged.balance)), Ending(fault)[1..])
  {
    var staged := StagedPhase(t, key, amount);
    var s := Alone(t, key, amount, staged);
    assert Ending(fault) == [Log(0)] + Ending(fault)[1..];
    RunOne(s, Log(0), Ending(fault)[1..]);
    assert Next(s, Log(0)).calls == [Call(key, amount, Logged(staged.at, staged.balance))];
  }

  lemma FromLogged(t: Tables, key: WalletKey, amount: int, staged: Phase, fault: Fault)
    requires fault != BeforeLedger && staged == StagedPhase(t, key, amount)
    ensures
      var s := WalletCredit.Run(Alone(t, key, amount, Logged(staged.at, staged.balance)), Ending(fault)[1..]);
      && s.ledger == t.ledger
      && s.wallets == if fault == NoFault then Save(t.wallets, key, staged.at, staged.balance) else t.wallets
  {
    var s := Alone(t, key, amount, Logged(staged.at, staged.balance));
    var last := if fault == NoFault then Commit(0) else Fail(0);
    assert Ending(fault)[1..] == [last] + ([Release(0)] + []);
    RunOne(s, last, [Release(0)] + []);
    ReleaseKeepsTables(Next(s, last));
  }

  /** A request of the service below, alone, is a path of the interleaved protocol. */
  lemma ScriptPays(t: Tables, key: WalletKey, amount: int, fault: Fault)
    ensures
      var s := WalletCredit.Run(State(t.wallets, t.ledger, map[], []), Script(key, amount, fault));
      s.wallets == Pay(t, key, amount, fault).wallets && s.ledger == Pay(t, key, amount, fault).ledger
  {
    var rest := Ending(fault);
    assert Script(key, amount, fault)
        == [Arrive(key, amount)] + ([Acquire(0)] + ([Connect(0)] + ([Load(0)] + ([Stage(0)] + rest))));
    ToHolding(t, key, amount, [Connect(0)] + ([Load(0)] + ([Stage(0)] + rest)));
    ToStaged(t, key, amount, rest);
    FromStaged(t, key, amount, fault);
  }

  // ----- The service -----

  datatype Reply = Thrown | CardNotFound | Done(newBalance: int) | Redeemed(credited: int, newBalance: int)

  class Service {
    var wallets: seq<Wallet>
    var ledger: seq<Entry>
    var cards: seq<GiftCard>
    ghost var credited: int
    ghost var phantoms: seq<Entry>

    ghost function Contents(): Tables
      reads this
    {
      Tables(wallets, ledger, cards, credited, phantoms)
    }

    constructor ()
      ensures Contents() == NO_TABLES && Conserved(Contents())
    {
      wallets, ledger, cards, credited, phantoms := [], [], [], 0, [];
    }

    method CreditUser(key: WalletKey, amount: int, fault: Fault) returns (reply: Reply)
      requires Conserved(Contents())
      modifies this
      ensures Conserved(Contents()) && Contents() == Step(old(Contents()), Op.CreditUser(key, amount, fault))
      ensures forall k :: Amount(wallets, k) == old(Amount(wallets, k)) + if k == key && reply.Done? then amount else 0
      ensures reply == if fault == NoFault then Done(old(Amount(wallets, key)) + amount) else Thrown
    {
      ghost var before, op := Contents(), Op.CreditUser(key, amount, fault);
      StepConserves(before, op);
      forall k
        ensures Amount(Step(before, op).wallets, k) ==
          Amount(before.wallets, k) + if k == key && fault == NoFault then amount else 0
      {
        CreditPays(before, key, amount, fault, k);
      }
      reply := CreditOnce(key, amount, fault);
      assert Contents() == Step(before, op);
    }

    method CreditOnce(key: WalletKey, amount: int, fault: Fault) returns (reply: Reply)
      modifies this
      ensures Contents() == Step(old(Contents()), Op.CreditUser(key, amount, fault))
      ensures reply == if fault == NoFault then Done(old(Amount(wallets, key)) + amount) else Thrown
    {
      var balance := CreditInTransaction(key, amount, fault);
      if fault != NoFault {
        return Thrown;
      }
      credited := credited + amount;
      return Done(balance);
    }

    /** The transaction of both requests: load or create the wallet, save it, log, commit or roll back. */
    method CreditInTransaction(key: WalletKey, amount: int, fault: Fault) returns (balance: int)
      modifies this`wallets, this`ledger, this`phantoms
      ensures Contents() == Pay(old(Contents()), key, amount, fault)
      ensures balance == old(Amount(wallets, key)) + amount
    {
      var at := FindRow(wallets, key);
      var wallet := if at.Some? then wallets[at.value] else Row(key, 0);
      wallet := wallet.(amount := wallet.amount + amount);
      balance := wallet.amount;
      var staged := if at.Some? then wallets[at.value := wallet] else wallets + [wallet];
      if fault == BeforeLedger {
        return;
      }
      ledger := ledger + [Entry(key, amount)];
      if fault == AtCommit {
        phantoms := phantoms + [Entry(key, amount)];
        return;
      }
      wallets := staged;
    }

    method RedeemGiftCard(userId: string, code: string, appKey: string, tenantKey: string, fault: Fault)
      returns (reply: Reply)
      requires Conserved(Contents())
      modifies this
      ensures Conserved(Contents())
      ensures Contents() == Step(old(Contents()), Op.RedeemGiftCard(userId, code, appKey, tenantKey, fault))
      ensures reply.CardNotFound? <==> forall c :: c in old(cards) ==> !Presented(c, code, appKey, tenantKey)
      ensures !reply.CardNotFound? ==> if fault == NoFault then reply.Redeemed? else reply.Thrown?
      ensures reply.Redeemed? ==>
        exists c :: c in old(cards) && Presented(c, code, appKey, tenantKey) && c.initialAmount == reply.credited
      ensures reply.Redeemed? ==> forall c :: c in cards ==> !Presented(c, code, appKey, tenantKey)
      ensures reply.Redeemed? ==> reply.newBalance == Amount(wallets, WalletKey(userId, appKey, tenantKey))
      ensures
        var paid := if reply.Redeemed? then reply.credited else 0;
        forall k ::
          Amount(wallets, k) == old(Amount(wallets, k)) + if k == WalletKey(userId, appKey, tenantKey) then paid else 0
      ensures !reply.Redeemed? ==> wallets == old(wallets) && cards == old(cards)
    {
      ghost var before, op := Contents(), Op.RedeemGiftCard(userId, code, appKey, tenantKey, fault);
      StepConserves(before, op);
      ghost var at := FindCard(cards, code, appKey, tenantKey);
      if at.Some? {
        forall k
          ensures Amount(Step(before, op).wallets, k) == Amount(before.wallets, k) +
            if k == WalletKey(userId, appKey, tenantKey) && fault == NoFault
            then before.cards[at.value].initialAmount else 0
        {
          RedemptionPays(before, userId, code, appKey, tenantKey, fault, at.value, k);
        }
        assert cards[at.value] in cards;
      }
      reply := RedeemInTransaction(userId, code, appKey, tenantKey, fault);
      assert Contents() == Step(before, op);
    }

    method RedeemInTransaction(userId: string, code: string, appKey: string, tenantKey: string, fault: Fault)
      returns (reply: Reply)
      requires UniqueCodes(cards) && UniqueRows(wallets)
      modifies this
      ensures Contents() == Step(old(Contents()), Op.RedeemGiftCard(userId, code, appKey, tenantKey, fault))
      ensures
        var at := FindCard(old(cards), code, appKey, tenantKey);
        if at.None? then reply == CardNotFound
        else if fault != NoFault then reply == Thrown
        else
          var credited := old(cards)[at.value].initialAmount;
          reply == Redeemed(credited, Amount(wallets, WalletKey(userId, appKey, tenantKey)))
      ensures reply.Redeemed? ==> forall c :: c in cards ==> !Redeemable(c, code, appKey, tenantKey)
    {
      var at := FindCard(cards, code, appKey, tenantKey);
      if at.None? {
        return CardNotFound;
      }
      SpentCardIsGone(cards, at.value, code, appKey, tenantKey);
      var giftCard := cards[at.value];
      var redeemed := giftCard.(status := REDEEMED, currentAmount := 0);
      var key := WalletKey(userId, appKey, tenantKey);
      PaidBalance(Contents(), key, giftCard.initialAmount);
      var balance := CreditInTransaction(key, giftCard.initialAmount, fault);
      if fault != NoFault {
        return Thrown;
      }
      cards := cards[at.value := redeemed];
      return Redeemed(giftCard.initialAmount, balance);
    }
  }
}
