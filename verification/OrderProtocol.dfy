// createOrderFromCart as the awaits it goes through, any of which may throw. The orders are
// written inside a transaction; the cart lives in a database of its own.
module OrderProtocol {
  import opened Base
  import opened ShoppingCart
  import opened OrderManagement

  /** `keys` are the warehouses as the engine lists them, `table` the orders committed before. */
  datatype Request = Request(variants: map<string, Variant>, lines: seq<CartItem>, keys: seq<string>,
                             table: seq<Order>, paymentMethod: string)

  datatype Await =
    | Connect           // these two stand before the try block
    | StartTransaction
    | VariantLookup
    | OrderSave
    | ItemSave
    | CartSave
    | MarketingAdd
    | Commit
    | SalesAdd
    | InitiatePayment

  /** The await that is pending, with what the transaction holds so far. */
  datatype Stage =
    | Opening
    | Starting
    | LookingUp(line: nat)
    | SavingOrder(staged: seq<Order>)
    | SavingItem(staged: seq<Order>)
    | SavingCart(staged: seq<Order>)
    | Queueing(staged: seq<Order>)
    | Committing(staged: seq<Order>)
    | Notifying(created: seq<Order>, sent: nat)
    | Paying(created: seq<Order>)
    | Answered(created: seq<Order>, payment: Option<(nat, int)>)
    | Failed(at: Await)

  /** What the two databases hold, and where the request stands. */
  datatype State = State(cart: seq<CartItem>, orders: seq<Order>, stage: Stage)

  datatype Event = Succeeds | Throws

  function AwaitOf(stage: Stage): Option<Await> {
    match stage
    case Opening => Some(Connect)
    case Starting => Some(StartTransaction)
    case LookingUp(_) => Some(VariantLookup)
    case SavingOrder(_) => Some(OrderSave)
    case SavingItem(_) => Some(ItemSave)
    case SavingCart(_) => Some(CartSave)
    case Queueing(_) => Some(MarketingAdd)
    case Committing(_) => Some(Commit)
    case Notifying(_, _) => Some(SalesAdd)
    case Paying(_) => Some(InitiatePayment)
    case Answered(_, _) => None
    case Failed(_) => None
  }

  // ----- From one await to the next -----

  function Own(q: Request, i: nat): seq<CartItem>
    requires i < |q.keys|
  {
    LinesOf(q.variants, q.lines, q.keys[i])
  }

  /** The order row as first saved, before any item. */
  function Draft(q: Request, i: nat): Order
    requires i < |q.keys|
  {
    Order(Sum(Own(q, i), LineTotal()), if i == 0 then None else Some(|q.table|), [])
  }

  /** Only lines with a variant are looked up. */
  function ToLookup(q: Request, n: nat): (stage: Stage)
    ensures stage == ToOrder(q, []) || (stage.LookingUp? && n <= stage.line < |q.lines|)
    decreases |q.lines| - n
  {
    if n >= |q.lines| then ToOrder(q, [])
    else if Given(q.lines[n].variantId) then LookingUp(n)
    else ToLookup(q, n + 1)
  }

  function ToOrder(q: Request, staged: seq<Order>): Stage {
    if |staged| < |q.keys| then SavingOrder(staged) else SavingCart(staged)
  }

  /** Whether the last order still lacks an item. */
  predicate LacksItem(q: Request, staged: seq<Order>) {
    0 < |staged| <= |q.keys| && |staged[|staged| - 1].items| < |Own(q, |staged| - 1)|
  }

  function ToItem(q: Request, staged: seq<Order>): Stage {
    if LacksItem(q, staged) then SavingItem(staged) else ToOrder(q, staged)
  }

  /** The next item of the last order. */
  function WithItem(q: Request, staged: seq<Order>): seq<Order>
    requires LacksItem(q, staged)
  {
    var n := |staged| - 1;
    var item := ToOrderItem(Own(q, n)[|staged[n].items|], q.keys[n]);
    staged[n := staged[n].(items := staged[n].items + [item])]
  }

  /** Two jobs per order, then the payment if the method has one. */
  function ToJob(q: Request, created: seq<Order>, sent: nat): Stage {
    if sent < 2 * |created| then Notifying(created, sent)
    else if TakesPayment(q.paymentMethod) then Paying(created)
    else Answered(created, None)
  }

  function Succeed(q: Request, s: State): State {
    match s.stage
    case Opening => s.(stage := Starting)
    case Starting => s.(stage := ToLookup(q, 0))
    case LookingUp(n) => s.(stage := ToLookup(q, n + 1))
    case SavingOrder(staged) =>
      if |staged| < |q.keys| then s.(stage := ToItem(q, staged + [Draft(q, |staged|)])) else s
    case SavingItem(staged) =>
      if LacksItem(q, staged) then s.(stage := ToItem(q, WithItem(q, staged))) else s
    case SavingCart(staged) => s.(cart := [], stage := Queueing(staged))
    case Queueing(staged) => s.(stage := Committing(staged))
    case Committing(staged) => s.(orders := s.orders + staged, stage := ToJob(q, staged, 0))
    case Notifying(created, sent) => s.(stage := ToJob(q, created, sent + 1))
    case Paying(created) =>
      s.(stage := Answered(created, Payment(q.paymentMethod, |q.table|, Sum(created, TotalAmount()))))
    case Answered(_, _) => s
    case Failed(_) => s
  }

  /** A throw rolls the transaction back, where there still is one, and undoes nothing else. */
  function Next(q: Request, s: State, e: Event): State {
    match e
    case Succeeds => Succeed(q, s)
    case Throws => if AwaitOf(s.stage).Some? then s.(stage := Failed(AwaitOf(s.stage).value)) else s
  }

  function Start(q: Request): State {
    State(q.lines, q.table, Opening)
  }

  function Run(q: Request, events: seq<Event>): State {
    if events == [] then Start(q) else Next(q, Run(q, events[..|events| - 1]), events[|events| - 1])
  }

  // ----- What every execution keeps -----

  function All(q: Request): seq<Order> {
    OrdersFor(q.variants, q.lines, q.keys, |q.table|)
  }

  ghost predicate Untouched(q: Request, s: State) {
    s.cart == q.lines && s.orders == q.table
  }

  /** The cart is emptied and the orders are not there yet. */
  ghost predicate Between(q: Request, s: State) {
    s.cart == [] && s.orders == q.table
  }

  ghost predicate Moved(q: Request, s: State) {
    s.cart == [] && s.orders == q.table + All(q)
  }

  /** All orders but the last are complete, and the last has its first items. */
  ghost predicate Partial(q: Request, staged: seq<Order>) {
    && 0 < |staged| <= |q.keys|
    && var n := |staged| - 1;
       var k := |staged[n].items|;
       && k <= |Own(q, n)|
       && staged[..n] == All(q)[..n]
       && staged[n] == Draft(q, n).(items := ToOrderItems(Own(q, n)[..k], q.keys[n]))
  }

  ghost predicate StageOk(q: Request, s: State) {
    match s.stage
    case Opening => Untouched(q, s)
    case Starting => Untouched(q, s)
    case LookingUp(n) => Untouched(q, s)
    case SavingOrder(staged) => Untouched(q, s) && |staged| < |q.keys| && staged == All(q)[..|staged|]
    case SavingItem(staged) => Untouched(q, s) && LacksItem(q, staged) && Partial(q, staged)
    case SavingCart(staged) => Untouched(q, s) && staged == All(q)
    case Queueing(staged) => Between(q, s) && staged == All(q)
    case Committing(staged) => Between(q, s) && staged == All(q)
    case Notifying(created, _) => Moved(q, s) && created == All(q)
    case Paying(created) => Moved(q, s) && created == All(q) && TakesPayment(q.paymentMethod)
    case Answered(created, payment) =>
      Moved(q, s) && created == All(q) && payment == Payment(q.paymentMethod, |q.table|, Sum(created, TotalAmount()))
    case Failed(at) =>
      match at
      case MarketingAdd => Between(q, s)
      case Commit => Between(q, s)
      case SalesAdd => Moved(q, s)
      case InitiatePayment => Moved(q, s)
      case _ => Untouched(q, s)
  }

  lemma ToOrderOk(q: Request, s: State, staged: seq<Order>)
    requires Untouched(q, s) && |staged| <= |q.keys| && staged == All(q)[..|staged|]
    ensures StageOk(q, s.(stage := ToOrder(q, staged)))
  {
    if |staged| == |q.keys| {
      assert All(q)[..|staged|] == All(q);
    }
  }

  lemma ToItemOk(q: Request, s: State, staged: seq<Order>)
    requires Untouched(q, s) && Partial(q, staged)
    ensures StageOk(q, s.(stage := ToItem(q, staged)))
  {
    if !LacksItem(q, staged) {
      var n := |staged| - 1;
      assert Own(q, n)[..|staged[n].items|] == Own(q, n);
      assert staged[n] == All(q)[n];
      assert staged == staged[..n] + [staged[n]];
      ToOrderOk(q, s, staged);
    }
  }

  lemma DraftIsPartial(q: Request, staged: seq<Order>)
    requires |staged| < |q.keys| && staged == All(q)[..|staged|]
    ensures Partial(q, staged + [Draft(q, |staged|)])
  {
    var n := |staged|;
    assert (staged + [Draft(q, n)])[..n] == staged;
    assert ToOrderItems(Own(q, n)[..0], q.keys[n]) == [];
  }

  lemma WithItemIsPartial(q: Request, staged: seq<Order>)
    requires LacksItem(q, staged) && Partial(q, staged)
    ensures Partial(q, WithItem(q, staged))
  {
    var n := |staged| - 1;
    var k := |staged[n].items|;
    assert Own(q, n)[..k + 1] == Own(q, n)[..k] + [Own(q, n)[k]];
    assert ToOrderItems(Own(q, n)[..k + 1], q.keys[n]) == staged[n].items + [ToOrderItem(Own(q, n)[k], q.keys[n])];
    assert WithItem(q, staged)[..n] == staged[..n];
  }

  lemma NextKeepsStageOk(q: Request, s: State, e: Event)
    requires StageOk(q, s)
    ensures StageOk(q, Next(q, s, e))
  {
    if e == Succeeds {
      match s.stage
      case Starting => ToOrderOk(q, s, []);
      case LookingUp(_) => ToOrderOk(q, s, []);
      case SavingOrder(staged) =>
        DraftIsPartial(q, staged);
        ToItemOk(q, s, staged + [Draft(q, |staged|)]);
      case SavingItem(staged) =>
        WithItemIsPartial(q, staged);
        ToItemOk(q, s, WithItem(q, staged));
      case _ =>
    }
  }

  lemma {:induction false} EveryExecutionIsOk(q: Request, events: seq<Event>)
    ensures StageOk(q, Run(q, events))
  {
    if events == [] {
    } else {
      EveryExecutionIsOk(q, events[..|events| - 1]);
      NextKeepsStageOk(q, Run(q, events[..|events| - 1]), events[|events| - 1]);
    }
  }

  // ----- When cart lines are lost -----

  /** The cart lines that are neither in the cart nor in a committed order. */
  ghost predicate LinesSurvive(q: Request, s: State) {
    && q.table <= s.orders
    && multiset(s.cart) + multiset(LinesOrdered(s.orders[|q.table|..])) == multiset(q.lines)
  }

  /** The await that the request stands at, or threw at. */
  function Position(stage: Stage): Option<Await> {
    if stage.Failed? then Some(stage.at) else AwaitOf(stage)
  }

  /** In every execution and at every moment: the lines are in the cart or in committed
      orders if and only if the request neither stands at nor threw at the marketing queue
      or the commit. */
  lemma LinesSurviveIff(q: Request, events: seq<Event>)
    requires q.lines != [] && ListsKeys(q.keys, q.variants, q.lines)
    ensures LinesSurvive(q, Run(q, events)) <==> Position(Run(q, events).stage) !in {Some(MarketingAdd), Some(Commit)}
  {
    var s := Run(q, events);
    EveryExecutionIsOk(q, events);
    WhereTheLinesAre(q, s);
    if AtQueueOrCommit(s.stage) {
      BetweenAreLost(q, s);
    } else if Untouched(q, s) {
      UntouchedSurvive(q, s);
    } else {
      MovedSurvive(q, s);
    }
  }

  predicate AtQueueOrCommit(stage: Stage) {
    Position(stage) == Some(MarketingAdd) || Position(stage) == Some(Commit)
  }

  lemma WhereTheLinesAre(q: Request, s: State)
    requires StageOk(q, s)
    ensures if AtQueueOrCommit(s.stage) then Between(q, s) else Untouched(q, s) || Moved(q, s)
  {
  }

  lemma UntouchedSurvive(q: Request, s: State)
    requires Untouched(q, s)
    ensures LinesSurvive(q, s)
  {
    assert q.table[|q.table|..] == [];
  }

  lemma MovedSurvive(q: Request, s: State)
    requires Moved(q, s) && ListsKeys(q.keys, q.variants, q.lines)
    ensures LinesSurvive(q, s)
  {
    SplitConserves(q.variants, q.lines, q.keys, |q.table|);
    assert s.orders[|q.table|..] == All(q);
  }

  lemma BetweenAreLost(q: Request, s: State)
    requires Between(q, s) && q.lines != []
    ensures !LinesSurvive(q, s)
  {
    assert q.table[|q.table|..] == [];
    assert q.lines[0] in multiset(q.lines);
  }

  /** An answered request has ordered the whole cart, and asks to be paid its subtotal. */
  lemma AnswerIsWhole(q: Request, events: seq<Event>)
    requires ListsKeys(q.keys, q.variants, q.lines) && Run(q, events).stage.Answered?
    ensures
      var s := Run(q, events);
      && s.cart == [] && s.orders == q.table + s.stage.created
      && multiset(LinesOrdered(s.stage.created)) == multiset(q.lines)
      && s.stage.payment == (if q.paymentMethod == "STRIPE" || q.paymentMethod == "PAYPAL"
                             then Some((|q.table|, Sum(q.lines, LineTotal()))) else None)
  {
    EveryExecutionIsOk(q, events);
    SplitConserves(q.variants, q.lines, q.keys, |q.table|);
  }

  // ----- Progress -----

  /** How far the marketing queue is, lexicographically: phases, then rounds, then items. */
  function Phase(stage: Stage): nat {
    match stage
    case Opening => 5
    case Starting => 4
    case LookingUp(_) => 3
    case SavingOrder(_) => 2
    case SavingItem(_) => 2
    case SavingCart(_) => 1
    case _ => 0
  }

  function Rounds(q: Request, stage: Stage): int {
    match stage
    case LookingUp(n) => |q.lines| - n
    case SavingOrder(staged) => 2 * (|q.keys| - |staged|)
    case SavingItem(staged) => 2 * (|q.keys| - |staged|) + 1
    case _ => 0
  }

  function ItemsLeft(q: Request, stage: Stage): int {
    if stage.SavingItem? && LacksItem(q, stage.staged)
    then |Own(q, |stage.staged| - 1)| - |stage.staged[|stage.staged| - 1].items|
    else 0
  }

  /** Before the cart is saved every success brings the marketing queue nearer. */
  lemma SuccessIsProgress(q: Request, s: State)
    requires StageOk(q, s) && Phase(s.stage) > 0
    ensures
      var t := Next(q, s, Succeeds).stage;
      || Phase(t) < Phase(s.stage)
      || (Phase(t) == Phase(s.stage) && Rounds(q, t) < Rounds(q, s.stage))
      || (Phase(t) == Phase(s.stage) && Rounds(q, t) == Rounds(q, s.stage) && ItemsLeft(q, t) < ItemsLeft(q, s.stage))
    ensures Phase(s.stage) == 1 ==> Next(q, s, Succeeds).stage.Queueing?
    ensures Phase(s.stage) > 1 ==> Phase(Next(q, s, Succeeds).stage) > 0
  {
  }

  lemma {:induction false} ReachesQueue(q: Request, events: seq<Event>) returns (events': seq<Event>)
    requires Phase(Run(q, events).stage) > 0
    ensures Run(q, events').stage.Queueing?
    decreases Phase(Run(q, events).stage), Rounds(q, Run(q, events).stage), ItemsLeft(q, Run(q, events).stage)
  {
    var s := Run(q, events);
    EveryExecutionIsOk(q, events);
    SuccessIsProgress(q, s);
    assert (events + [Succeeds])[..|events|] == events;
    assert Run(q, events + [Succeeds]) == Next(q, s, Succeeds);
    events' := events + [Succeeds];
    if Phase(s.stage) == 1 {
    } else {
      events' := ReachesQueue(q, events');
    }
  }

  /** Whatever the request, some execution throws at the marketing queue, and the cart's
      lines are in neither database. */
  lemma EveryRequestMayLoseLines(q: Request) returns (events: seq<Event>)
    requires q.lines != [] && ListsKeys(q.keys, q.variants, q.lines)
    ensures Run(q, events).stage == Failed(MarketingAdd)
    ensures Run(q, events).cart == [] && Run(q, events).orders == q.table
    ensures !LinesSurvive(q, Run(q, events))
  {
    var before := ReachesQueue(q, []);
    events := before + [Throws];
    assert events[..|before|] == before;
    EveryExecutionIsOk(q, events);
    LinesSurviveIff(q, events);
  }

  // ----- The execution in which await number n throws -----

  function After(q: Request, n: nat): State {
    if n == 0 then Start(q) else Next(q, After(q, n - 1), Succeeds)
  }

  lemma OrderSaved(q: Request, n: nat, staged: seq<Order>)
    requires After(q, n).stage == SavingOrder(staged) && |staged| < |q.keys|
    ensures After(q, n + 1) == After(q, n).(stage := ToItem(q, staged + [Draft(q, |staged|)]))
  {
  }

  lemma ItemSaved(q: Request, n: nat, staged: seq<Order>)
    requires LacksItem(q, staged) && After(q, n).stage == ToItem(q, staged)
    ensures After(q, n + 1) == After(q, n).(stage := ToItem(q, WithItem(q, staged)))
  {
  }

  function Script(n: nat): seq<Event> {
    seq(n, (i: nat) => Succeeds) + [Throws]
  }

  lemma {:induction false} SuccessesRun(q: Request, n: nat)
    ensures Run(q, seq(n, (i: nat) => Succeeds)) == After(q, n)
  {
    if n == 0 {
    } else {
      SuccessesRun(q, n - 1);
      assert seq(n, (i: nat) => Succeeds)[..n - 1] == seq(n - 1, (i: nat) => Succeeds);
    }
  }

  lemma ScriptRuns(q: Request, n: nat)
    ensures Run(q, Script(n)) == Next(q, After(q, n), Throws)
  {
    SuccessesRun(q, n);
    assert Script(n)[..n] == seq(n, (i: nat) => Succeeds);
  }

  /** Once answered, always answered. */
  lemma {:induction false} AnsweredStays(q: Request, m: nat, n: nat)
    requires m <= n && After(q, m).stage.Answered?
    ensures After(q, n) == After(q, m)
  {
    if m == n {
    } else {
      AnsweredStays(q, m, n - 1);
      assert After(q, n) == Next(q, After(q, n - 1), Succeeds);
    }
  }

  /** So a throw that was to come later never does. */
  lemma AnsweredIgnoresThrow(q: Request, m: nat, n: nat)
    requires m <= n && After(q, m).stage.Answered?
    ensures Next(q, After(q, n), Throws) == After(q, m)
  {
    AnsweredStays(q, m, n);
  }

  // ----- How many awaits a request has -----

  function LookupsFrom(q: Request, n: nat): nat
    decreases |q.lines| - n
  {
    if n >= |q.lines| then 0
    else (if q.lines[n].variantId.GetOr("") != "" then 1 else 0) + LookupsFrom(q, n + 1)
  }

  /** One save for each order from `i` on, and one for each of its items. */
  function WritesFrom(q: Request, i: nat): nat
    decreases |q.keys| - i
  {
    if i >= |q.keys| then 0 else 1 + |Own(q, i)| + WritesFrom(q, i + 1)
  }

  function Payments(q: Request): nat {
    if q.paymentMethod == "STRIPE" || q.paymentMethod == "PAYPAL" then 1 else 0
  }

  /** From the save of the cart on: the save, the queue, the commit, two jobs for each order. */
  function Closing(q: Request): nat {
    3 + 2 * |q.keys| + Payments(q)
  }

  function JobsLeft(created: seq<Order>, sent: nat): nat {
    if sent < 2 * |created| then 2 * |created| - sent else 0
  }

  /** The awaits from this stage on, this one included. */
  function AwaitsLeft(q: Request, stage: Stage): int {
    match stage
    case Opening => 2 + LookupsFrom(q, 0) + WritesFrom(q, 0) + Closing(q)
    case Starting => 1 + LookupsFrom(q, 0) + WritesFrom(q, 0) + Closing(q)
    case LookingUp(n) => 1 + LookupsFrom(q, n + 1) + WritesFrom(q, 0) + Closing(q)
    case SavingOrder(staged) => WritesFrom(q, |staged|) + Closing(q)
    case SavingItem(staged) => ItemsLeft(q, stage) + WritesFrom(q, |staged|) + Closing(q)
    case SavingCart(_) => Closing(q)
    case Queueing(_) => Closing(q) - 1
    case Committing(_) => Closing(q) - 2
    case Notifying(created, sent) => 1 + JobsLeft(created, sent + 1) + Payments(q)
    case Paying(_) => 1
    case Answered(_, _) => 0
    case Failed(_) => 0
  }

  lemma {:induction false} LeftAtLookup(q: Request, n: nat)
    ensures AwaitsLeft(q, ToLookup(q, n)) == LookupsFrom(q, n) + WritesFrom(q, 0) + Closing(q)
    decreases |q.lines| - n
  {
    if n >= |q.lines| {
      LeftAtOrder(q, []);
    } else {
      LeftAtLookup(q, n + 1);
    }
  }

  lemma LeftAtOrder(q: Request, staged: seq<Order>)
    ensures AwaitsLeft(q, ToOrder(q, staged)) == WritesFrom(q, |staged|) + Closing(q)
  {
  }

  lemma LeftAtItem(q: Request, staged: seq<Order>)
    requires Partial(q, staged)
    ensures AwaitsLeft(q, ToItem(q, staged)) ==
      |Own(q, |staged| - 1)| - |staged[|staged| - 1].items| + WritesFrom(q, |staged|) + Closing(q)
  {
    LeftAtOrder(q, staged);
  }

  lemma LeftAtJob(q: Request, created: seq<Order>, sent: nat)
    ensures AwaitsLeft(q, ToJob(q, created, sent)) == JobsLeft(created, sent) + Payments(q)
  {
  }

  lemma OrderSaveLeaves(q: Request, staged: seq<Order>)
    requires |staged| < |q.keys| && staged == All(q)[..|staged|]
    ensures AwaitsLeft(q, ToItem(q, staged + [Draft(q, |staged|)])) == AwaitsLeft(q, SavingOrder(staged)) - 1
  {
    DraftIsPartial(q, staged);
    LeftAtItem(q, staged + [Draft(q, |staged|)]);
  }

  lemma ItemSaveLeaves(q: Request, staged: seq<Order>)
    requires LacksItem(q, staged) && Partial(q, staged)
    ensures AwaitsLeft(q, ToItem(q, WithItem(q, staged))) == AwaitsLeft(q, SavingItem(staged)) - 1
  {
    WithItemIsPartial(q, staged);
    LeftAtItem(q, WithItem(q, staged));
  }

  lemma LookupLeaves(q: Request, s: State)
    requires s.stage.Opening? || s.stage.Starting? || s.stage.LookingUp?
    ensures AwaitsLeft(q, Succeed(q, s).stage) == AwaitsLeft(q, s.stage) - 1
  {
    if s.stage.Starting? {
      LeftAtLookup(q, 0);
    } else if s.stage.LookingUp? {
      LeftAtLookup(q, s.stage.line + 1);
    }
  }

  lemma ClosingLeaves(q: Request, s: State)
    requires s.stage.SavingCart? || s.stage.Queueing? || s.stage.Committing? || s.stage.Notifying? || s.stage.Paying?
    requires s.stage.Committing? ==> |s.stage.staged| == |q.keys|
    ensures AwaitsLeft(q, Succeed(q, s).stage) == AwaitsLeft(q, s.stage) - 1
  {
    if s.stage.Committing? {
      LeftAtJob(q, s.stage.staged, 0);
    } else if s.stage.Notifying? {
      LeftAtJob(q, s.stage.created, s.stage.sent + 1);
    }
  }

  /** Every await that succeeds leaves one fewer. */
  lemma SuccessLeavesOneFewer(q: Request, s: State)
    requires StageOk(q, s) && AwaitOf(s.stage).Some?
    ensures AwaitsLeft(q, Next(q, s, Succeeds).stage) == AwaitsLeft(q, s.stage) - 1
  {
    if s.stage.SavingOrder? {
      OrderSaveLeaves(q, s.stage.staged);
    } else if s.stage.SavingItem? {
      ItemSaveLeaves(q, s.stage.staged);
    } else if s.stage.Opening? || s.stage.Starting? || s.stage.LookingUp? {
      LookupLeaves(q, s);
    } else {
      ClosingLeaves(q, s);
    }
  }

  lemma SomethingLeft(q: Request, s: State)
    requires StageOk(q, s)
    ensures AwaitsLeft(q, s.stage) >= 0
    ensures AwaitOf(s.stage).Some? <==> AwaitsLeft(q, s.stage) > 0
  {
  }

  lemma OneAwait(q: Request, s: State)
    requires StageOk(q, s) && !s.stage.Failed?
    ensures StageOk(q, Next(q, s, Succeeds)) && !Next(q, s, Succeeds).stage.Failed?
    ensures
      var left := AwaitsLeft(q, s.stage);
      left >= 0 && AwaitsLeft(q, Next(q, s, Succeeds).stage) == if left > 0 then left - 1 else 0
  {
    NextKeepsStageOk(q, s, Succeeds);
    SomethingLeft(q, s);
    if AwaitOf(s.stage).Some? {
      SuccessLeavesOneFewer(q, s);
    }
  }

  lemma {:induction false} LeftAfter(q: Request, n: nat)
    ensures StageOk(q, After(q, n)) && !After(q, n).stage.Failed?
    ensures
      var all := AwaitsLeft(q, Opening);
      AwaitsLeft(q, After(q, n).stage) == if n <= all then all - n else 0
  {
    if n == 0 {
    } else {
      LeftAfter(q, n - 1);
      OneAwait(q, After(q, n - 1));
    }
  }

  lemma {:induction false} WritesAre(q: Request, n: nat)
    requires n <= |q.keys|
    ensures WritesFrom(q, n) == |q.keys| - n + |LinesOrdered(All(q))| - |LinesOrdered(All(q)[..n])|
    decreases |q.keys| - n
  {
    if n == |q.keys| {
      assert All(q)[..n] == All(q);
    } else {
      WritesAre(q, n + 1);
      assert All(q)[..n + 1][..n] == All(q)[..n];
      assert |All(q)[n].items| == |Own(q, n)|;
    }
  }

  /** A request is answered if and only if none of its awaits throws: connect, transaction, a
      lookup for each line that names a variant, a save for each order and each line, the cart,
      the queue, the commit, two jobs for each order, and the payment if the method has one. */
  lemma AnsweredIffNoThrow(q: Request, n: nat)
    requires ListsKeys(q.keys, q.variants, q.lines)
    ensures Run(q, Script(n)).stage.Answered? <==>
      n >= 5 + LookupsFrom(q, 0) + |q.lines| + 3 * |q.keys| + Payments(q)
  {
    ScriptRuns(q, n);
    LeftAfter(q, n);
    SomethingLeft(q, After(q, n));
    WritesAre(q, 0);
    SplitConserves(q.variants, q.lines, q.keys, |q.table|);
    assert |LinesOrdered(All(q))| == |multiset(LinesOrdered(All(q)))| == |q.lines|;
  }
}
