// The order service: createOrderFromCart step by step, beside the protocol it follows.
module OrderService {
  import opened Base
  import opened ShoppingCart
  import opened OrderManagement
  import opened OrderProtocol

  datatype Reply = CartEmpty | Thrown | Created(orders: seq<Order>, payment: Option<(nat, int)>)

  function ReplyOf(stage: Stage): Reply {
    if stage.Answered? then Created(stage.created, stage.payment) else Thrown
  }

  class Service {
    const cart: Cart
    var orders: seq<Order>

    constructor ()
      ensures fresh(cart) && cart.items == [] && orders == []
    {
      cart := new Cart();
      orders := [];
    }

    /** After `n` awaits the protocol holds what this service holds. */
    ghost predicate Standing(q: Request, n: nat, stage: Stage)
      reads this, cart
    {
      After(q, n) == State(cart.items, orders, stage)
    }

    /** The same, at an await that can throw. */
    ghost predicate Stops(q: Request, n: nat)
      reads this, cart
    {
      Standing(q, n, After(q, n).stage) && AwaitOf(After(q, n).stage).Some?
    }

    /** For every order in which the engine may list the warehouses, and for every number
        `failing` of the await that throws; a number beyond the last means none does. */
    method CreateOrderFromCart(variants: map<string, Variant>, enumerate: seq<string> -> seq<string>,
                               paymentMethod: string, failing: nat)
      returns (reply: Reply)
      requires forall s :: multiset(enumerate(s)) == multiset(s)
      modifies this, cart
      ensures old(cart.items) == [] ==> reply == CartEmpty && orders == old(orders) && cart.items == []
      ensures old(cart.items) != [] ==>
        var keys := WarehouseIds(variants, old(cart.items), enumerate);
        var s := Run(Request(variants, old(cart.items), keys, old(orders), paymentMethod), Script(failing));
        cart.items == s.cart && orders == s.orders && reply == ReplyOf(s.stage)
      ensures reply.CartEmpty? <==> old(cart.items) == []
      ensures reply.Created? ==>
        && cart.items == [] && orders == old(orders) + reply.orders
        && multiset(LinesOrdered(reply.orders)) == multiset(old(cart.items))
        && reply.payment == (if paymentMethod == "STRIPE" || paymentMethod == "PAYPAL"
                             then Some((|old(orders)|, Sum(old(cart.items), LineTotal()))) else None)
    {
      if cart.items == [] {
        return CartEmpty;
      }
      ghost var q := Request(variants, cart.items, WarehouseIds(variants, cart.items, enumerate), orders,
        paymentMethod);
      ScriptRuns(q, failing);
      IdsListKeys(variants, cart.items, enumerate);
      if Run(q, Script(failing)).stage.Answered? {
        AnswerIsWhole(q, Script(failing));
      }
      assert After(q, 0) == Start(q);
      assert After(q, 1) == State(q.lines, q.table, Starting);
      // connect, startTransaction
      if failing < 2 {
        return Thrown;
      }
      var tick, thrown, resolved, created;
      tick, resolved, thrown := LookUpVariants(q, variants, cart.items, failing, 2);
      if thrown {
        return Thrown;
      }
      var warehouseIds, groups := GroupByWarehouse(variants, cart.items, resolved, enumerate);
      tick, created, thrown := WriteOrders(q, warehouseIds, groups, |orders|, failing, tick);
      if thrown {
        return Thrown;
      }
      reply := Finish(q, created, paymentMethod, |orders|, failing, tick);
    }

    /** The lookups, one await for each line that names a variant. */
    method LookUpVariants(ghost q: Request, variants: map<string, Variant>, lines: seq<CartItem>, failing: nat,
                          start: nat)
      returns (tick: nat, resolved: seq<string>, thrown: bool)
      requires q.variants == variants && q.lines == lines
      requires start <= failing && Standing(q, start, ToLookup(q, 0))
      ensures tick <= failing
      ensures thrown ==> Stops(q, failing)
      ensures !thrown ==> Standing(q, tick, ToOrder(q, [])) && resolved == Warehouses(variants, lines)
    {
      tick, resolved, thrown := start, [], false;
      for i := 0 to |lines|
        invariant tick <= failing && !thrown
        invariant Standing(q, tick, ToLookup(q, i))
        invariant resolved == Warehouses(variants, lines[..i])
      {
        var warehouseId := DEFAULT_WAREHOUSE;
        if Given(lines[i].variantId) {
          if tick == failing {
            thrown := true;
            return;
          }
          tick := tick + 1;
          var id := lines[i].variantId.value;
          if id in variants && Given(variants[id].warehouseId) {
            warehouseId := variants[id].warehouseId.value;
          }
        }
        assert lines[..i + 1] == lines[..i] + [lines[i]];
        resolved := resolved + [warehouseId];
      }
      assert lines[..|lines|] == lines;
    }

    /** The record of lists, and its keys as the engine lists them. */
    method GroupByWarehouse(variants: map<string, Variant>, lines: seq<CartItem>, resolved: seq<string>,
                            enumerate: seq<string> -> seq<string>)
      returns (keys: seq<string>, groups: map<string, seq<CartItem>>)
      requires resolved == Warehouses(variants, lines)
      requires forall s :: multiset(enumerate(s)) == multiset(s)
      ensures keys == WarehouseIds(variants, lines, enumerate) && ListsKeys(keys, variants, lines)
      ensures forall w :: w in keys ==> w in groups && groups[w] == LinesOf(variants, lines, w)
    {
      var inserted;
      inserted, groups := FillGroups(variants, lines, resolved);
      keys := enumerate(inserted);
      IdsListKeys(variants, lines, enumerate);
      FirstOccurrencesInOrder(Warehouses(variants, lines));
      forall w | w in keys
        ensures w in groups && groups[w] == LinesOf(variants, lines, w)
      {
        assert GroupIs(variants, lines, groups, w);
      }
    }

    method FillGroups(ghost variants: map<string, Variant>, lines: seq<CartItem>, resolved: seq<string>)
      returns (inserted: seq<string>, groups: map<string, seq<CartItem>>)
      requires resolved == Warehouses(variants, lines)
      ensures inserted == FirstOccurrences(Warehouses(variants, lines))
      ensures Grouped(variants, lines, inserted, groups)
    {
      inserted, groups := [], map[];
      ghost var done := [];
      for i := 0 to |lines|
        invariant done == lines[..i]
        invariant inserted == FirstOccurrences(Warehouses(variants, done))
        invariant Grouped(variants, done, inserted, groups)
      {
        assert resolved[i] == WarehouseOf(variants, lines[i]);
        assert lines[..i + 1] == done + [lines[i]];
        inserted, groups := PutLine(variants, done, lines[i], resolved[i], inserted, groups);
        done := done + [lines[i]];
      }
      assert done == lines;
    }

    method PutLine(ghost variants: map<string, Variant>, ghost lines: seq<CartItem>, item: CartItem, w: string,
                   inserted: seq<string>, groups: map<string, seq<CartItem>>)
      returns (inserted': seq<string>, groups': map<string, seq<CartItem>>)
      requires w == WarehouseOf(variants, item)
      requires inserted == FirstOccurrences(Warehouses(variants, lines)) && Grouped(variants, lines, inserted, groups)
      ensures inserted' == FirstOccurrences(Warehouses(variants, lines + [item]))
      ensures Grouped(variants, lines + [item], inserted', groups')
    {
      OneMoreLine(variants, lines, item, inserted, groups);
      inserted' := if w in groups then inserted else inserted + [w];
      groups' := groups[w := (if w in groups then groups[w] else []) + [item]];
    }

    /** The nested loops: each order row, then its items, every save an await. */
    method WriteOrders(ghost q: Request, keys: seq<string>, groups: map<string, seq<CartItem>>, first: nat,
                       failing: nat, start: nat)
      returns (tick: nat, created: seq<Order>, thrown: bool)
      requires q.keys == keys && |q.table| == first
      requires forall w :: w in keys ==> w in groups && groups[w] == LinesOf(q.variants, q.lines, w)
      requires start <= failing && Standing(q, start, ToOrder(q, []))
      ensures tick <= failing
      ensures thrown ==> Stops(q, failing)
      ensures !thrown ==> Standing(q, tick, SavingCart(created))
    {
      tick, created, thrown := start, [], false;
      var mainOrderId := None;
      for i := 0 to |keys|
        invariant tick <= failing && !thrown && |created| == i
        invariant Standing(q, tick, ToOrder(q, created))
        invariant mainOrderId == if i == 0 then None else Some(first)
      {
        tick, created, thrown := WriteOrder(q, keys[i], groups[keys[i]], mainOrderId, created, failing, tick);
        if thrown {
          return;
        }
        if i == 0 {
          mainOrderId := Some(first);
        }
      }
    }

    method WriteOrder(ghost q: Request, key: string, whItems: seq<CartItem>, parent: Option<nat>, saved: seq<Order>,
                      failing: nat, start: nat)
      returns (tick: nat, created: seq<Order>, thrown: bool)
      requires |saved| < |q.keys| && q.keys[|saved|] == key && Own(q, |saved|) == whItems
      requires parent == Draft(q, |saved|).parent
      requires start <= failing && Standing(q, start, SavingOrder(saved))
      ensures tick <= failing && (!thrown ==> |created| == |saved| + 1)
      ensures thrown ==> Stops(q, failing)
      ensures !thrown ==> Standing(q, tick, ToOrder(q, created))
    {
      var totalAmount := TotalOf(whItems);
      if start == failing {
        return start, saved, true;
      }
      var order := Order(totalAmount, parent, []);
      assert order == Draft(q, |saved|);
      OrderSaved(q, start, saved);
      created := saved + [order];
      assert Standing(q, start + 1, ToItem(q, created));
      tick, created, thrown := WriteItems(q, key, whItems, created, failing, start + 1);
    }

    method WriteItems(ghost q: Request, key: string, whItems: seq<CartItem>, saved: seq<Order>, failing: nat,
                      start: nat)
      returns (tick: nat, created: seq<Order>, thrown: bool)
      requires 0 < |saved| <= |q.keys| && q.keys[|saved| - 1] == key && Own(q, |saved| - 1) == whItems
      requires saved[|saved| - 1].items == []
      requires start <= failing && Standing(q, start, ToItem(q, saved))
      ensures tick <= failing && |created| == |saved|
      ensures thrown ==> Stops(q, failing)
      ensures !thrown ==> Standing(q, tick, ToOrder(q, created))
    {
      tick, created, thrown := start, saved, false;
      var n := |saved| - 1;
      for k := 0 to |whItems|
        invariant tick <= failing && !thrown && |created| == |saved| && |created[n].items| == k
        invariant Standing(q, tick, ToItem(q, created))
      {
        if tick == failing {
          thrown := true;
          return;
        }
        assert LacksItem(q, created);
        ItemSaved(q, tick, created);
        tick := tick + 1;
        created := created[n := created[n].(items := created[n].items + [ToOrderItem(whItems[k], key)])];
      }
      assert !LacksItem(q, created);
    }

    method TotalOf(whItems: seq<CartItem>) returns (total: int)
      ensures total == Sum(whItems, LineTotal())
    {
      total := 0;
      for k := 0 to |whItems|
        invariant total == Sum(whItems[..k], LineTotal())
      {
        assert whItems[..k + 1][..k] == whItems[..k];
        total := total + whItems[k].quantity * whItems[k].price;
      }
      assert whItems[..|whItems|] == whItems;
    }

    method AddTotals(created: seq<Order>) returns (total: int)
      ensures total == Sum(created, TotalAmount())
    {
      total := 0;
      for i := 0 to |created|
        invariant total == Sum(created[..i], TotalAmount())
      {
        assert created[..i + 1][..i] == created[..i];
        total := total + created[i].totalAmount;
      }
      assert created[..|created|] == created;
    }

    /** From the save of the emptied cart on. */
    method Finish(ghost q: Request, created: seq<Order>, paymentMethod: string, mainOrderId: nat, failing: nat,
                  start: nat)
      returns (reply: Reply)
      requires q.paymentMethod == paymentMethod && |q.table| == mainOrderId
      requires start <= failing && Standing(q, start, SavingCart(created))
      modifies this, cart
      ensures Next(q, After(q, failing), Throws) == State(cart.items, orders, Next(q, After(q, failing), Throws).stage)
      ensures reply == ReplyOf(Next(q, After(q, failing), Throws).stage)
    {
      if start == failing {
        return Thrown;
      }
      cart.ClearCart();
      assert Standing(q, start + 1, Queueing(created));
      reply := QueueAndCommit(q, created, paymentMethod, mainOrderId, failing, start + 1);
    }

    /** From the marketing queue on: the cart is saved empty and the orders are not committed. */
    method QueueAndCommit(ghost q: Request, created: seq<Order>, paymentMethod: string, mainOrderId: nat, failing: nat,
                          start: nat)
      returns (reply: Reply)
      requires q.paymentMethod == paymentMethod && |q.table| == mainOrderId
      requires start <= failing && Standing(q, start, Queueing(created))
      modifies this
      ensures Next(q, After(q, failing), Throws) == State(cart.items, orders, Next(q, After(q, failing), Throws).stage)
      ensures reply == ReplyOf(Next(q, After(q, failing), Throws).stage)
    {
      if start == failing {
        return Thrown;
      }
      assert Standing(q, start + 1, Committing(created));
      if start + 1 == failing {
        return Thrown;
      }
      orders := orders + created;
      assert Standing(q, start + 2, ToJob(q, created, 0));
      reply := Notify(q, created, paymentMethod, mainOrderId, failing, start + 2);
    }

    /** Behind the commit: the jobs, then the payment. */
    method Notify(ghost q: Request, created: seq<Order>, paymentMethod: string, mainOrderId: nat, failing: nat,
                  start: nat)
      returns (reply: Reply)
      requires q.paymentMethod == paymentMethod && |q.table| == mainOrderId
      requires start <= failing && Standing(q, start, ToJob(q, created, 0))
      ensures Next(q, After(q, failing), Throws) == State(cart.items, orders, Next(q, After(q, failing), Throws).stage)
      ensures reply == ReplyOf(Next(q, After(q, failing), Throws).stage)
    {
      var tick, thrown := AddJobs(q, created, failing, start);
      if thrown {
        return Thrown;
      }
      reply := Pay(q, created, paymentMethod, mainOrderId, failing, tick);
    }

    method Pay(ghost q: Request, created: seq<Order>, paymentMethod: string, mainOrderId: nat, failing: nat, start: nat)
      returns (reply: Reply)
      requires q.paymentMethod == paymentMethod && |q.table| == mainOrderId
      requires start <= failing && Standing(q, start, ToJob(q, created, 2 * |created|))
      ensures Next(q, After(q, failing), Throws) == State(cart.items, orders, Next(q, After(q, failing), Throws).stage)
      ensures reply == ReplyOf(Next(q, After(q, failing), Throws).stage)
    {
      if !TakesPayment(paymentMethod) {
        assert Standing(q, start, Answered(created, None));
        AnsweredIgnoresThrow(q, start, failing);
        return Created(created, None);
      }
      assert Standing(q, start, Paying(created));
      if start == failing {
        return Thrown;
      }
      var totalToPay := AddTotals(created);
      assert Standing(q, start + 1, Answered(created, Some((mainOrderId, totalToPay))));
      AnsweredIgnoresThrow(q, start + 1, failing);
      return Created(created, Some((mainOrderId, totalToPay)));
    }

    /** Two background jobs for each order. */
    method AddJobs(ghost q: Request, created: seq<Order>, failing: nat, start: nat) returns (tick: nat, thrown: bool)
      requires start <= failing && Standing(q, start, ToJob(q, created, 0))
      ensures tick <= failing
      ensures thrown ==> Stops(q, failing)
      ensures !thrown ==> Standing(q, tick, ToJob(q, created, 2 * |created|))
    {
      tick, thrown := start, false;
      for i := 0 to |created|
        invariant tick <= failing && !thrown
        invariant Standing(q, tick, ToJob(q, created, 2 * i))
      {
        if tick == failing {
          thrown := true;
          return;
        }
        tick := tick + 1;
        assert Standing(q, tick, Notifying(created, 2 * i + 1));
        if tick == failing {
          thrown := true;
          return;
        }
        tick := tick + 1;
      }
    }
  }
}
