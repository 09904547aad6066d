// What createOrderFromCart makes of a cart: one order per warehouse, linked to the first.
// Money is in cents.
module OrderManagement {
  import opened Base
  import opened ShoppingCart

  datatype OrderItem = OrderItem(productId: string, variantId: Option<string>, quantity: int, unitPrice: int,
                                 subTotal: int, warehouseId: string)

  /** An order's id is its position in the table. */
  datatype Order = Order(totalAmount: int, parent: Option<nat>, items: seq<OrderItem>)

  const DEFAULT_WAREHOUSE := "DEFAULT_WH"

  function WarehouseOf(variants: map<string, Variant>, i: CartItem): string {
    if Given(i.variantId) && i.variantId.value in variants && Given(variants[i.variantId.value].warehouseId)
    then variants[i.variantId.value].warehouseId.value
    else DEFAULT_WAREHOUSE
  }

  // ----- The specification: group by warehouse -----

  /** The lines of one warehouse, in cart order. */
  function LinesOf(variants: map<string, Variant>, lines: seq<CartItem>, w: string): seq<CartItem> {
    if lines == [] then []
    else
      var rest, i := LinesOf(variants, lines[..|lines| - 1], w), lines[|lines| - 1];
      if WarehouseOf(variants, i) == w then rest + [i] else rest
  }

  function Warehouses(variants: map<string, Variant>, lines: seq<CartItem>): seq<string> {
    seq(|lines|, n requires 0 <= n < |lines| => WarehouseOf(variants, lines[n]))
  }

  function ToOrderItem(i: CartItem, w: string): OrderItem {
    OrderItem(i.productId, i.variantId, i.quantity, i.price, i.quantity * i.price, w)
  }

  function ToOrderItems(lines: seq<CartItem>, w: string): seq<OrderItem> {
    seq(|lines|, n requires 0 <= n < |lines| => ToOrderItem(lines[n], w))
  }

  function OrderFor(variants: map<string, Variant>, lines: seq<CartItem>, w: string, parent: Option<nat>): Order {
    var own := LinesOf(variants, lines, w);
    Order(Sum(own, LineTotal()), parent, ToOrderItems(own, w))
  }

  /** The orders of the warehouses in `keys`; all but the first point at `first`. */
  function OrdersFor(variants: map<string, Variant>, lines: seq<CartItem>, keys: seq<string>, first: nat): seq<Order> {
    seq(|keys|, n requires 0 <= n < |keys| => OrderFor(variants, lines, keys[n], if n == 0 then None else Some(first)))
  }

  /** `Object.keys` lists every key once; in what order is the engine's business. */
  ghost predicate ListsKeys(keys: seq<string>, variants: map<string, Variant>, lines: seq<CartItem>) {
    NoDuplicates(keys) && forall w :: w in keys <==> w in Warehouses(variants, lines)
  }

  /** `Object.keys` of the record, whose keys were inserted in cart order. */
  function WarehouseIds(variants: map<string, Variant>, lines: seq<CartItem>,
                        enumerate: seq<string> -> seq<string>): seq<string>
  {
    enumerate(FirstOccurrences(Warehouses(variants, lines)))
  }

  lemma IdsListKeys(variants: map<string, Variant>, lines: seq<CartItem>, enumerate: seq<string> -> seq<string>)
    requires forall s :: multiset(enumerate(s)) == multiset(s)
    ensures ListsKeys(WarehouseIds(variants, lines, enumerate), variants, lines)
  {
    FirstOccurrencesInOrder(Warehouses(variants, lines));
    PermutationKeepsElements(WarehouseIds(variants, lines, enumerate), FirstOccurrences(Warehouses(variants, lines)));
  }

  // ----- Partition and conservation -----

  function TotalAmount(): Order -> int {
    (o: Order) => o.totalAmount
  }

  function SubTotal(): OrderItem -> int {
    (i: OrderItem) => i.subTotal
  }

  /** The cart line an order item was made from. */
  function LineBehind(i: OrderItem): CartItem {
    CartItem(i.productId, i.variantId, i.quantity, i.unitPrice)
  }

  function LinesBehind(items: seq<OrderItem>): seq<CartItem> {
    seq(|items|, n requires 0 <= n < |items| => LineBehind(items[n]))
  }

  function LinesOrdered(orders: seq<Order>): seq<CartItem> {
    if orders == [] then [] else LinesOrdered(orders[..|orders| - 1]) + LinesBehind(orders[|orders| - 1].items)
  }

  lemma {:induction false} LinesOfHold(variants: map<string, Variant>, lines: seq<CartItem>, w: string)
    ensures forall i :: i in LinesOf(variants, lines, w) ==> WarehouseOf(variants, i) == w
  {
    if lines == [] {
    } else {
      LinesOfHold(variants, lines[..|lines| - 1], w);
    }
  }

  lemma {:induction false} LinesOfCount(variants: map<string, Variant>, lines: seq<CartItem>, w: string, x: CartItem)
    ensures multiset(LinesOf(variants, lines, w))[x] == if WarehouseOf(variants, x) == w then multiset(lines)[x] else 0
  {
    if lines == [] {
    } else {
      LinesOfCount(variants, lines[..|lines| - 1], w, x);
      assert lines == lines[..|lines| - 1] + [lines[|lines| - 1]];
    }
  }

  lemma ItemsMirrorLines(lines: seq<CartItem>, w: string)
    ensures LinesBehind(ToOrderItems(lines, w)) == lines
  {
  }

  lemma {:induction false} SubTotalsAddUp(lines: seq<CartItem>, w: string)
    ensures Sum(ToOrderItems(lines, w), SubTotal()) == Sum(lines, LineTotal())
  {
    if lines == [] {
    } else {
      var n := |lines| - 1;
      SubTotalsAddUp(lines[..n], w);
      assert ToOrderItems(lines, w)[..n] == ToOrderItems(lines[..n], w);
    }
  }

  /** Line total, counted only for lines whose warehouse is among `keys`. */
  function TotalWithin(variants: map<string, Variant>, keys: set<string>): CartItem -> int {
    (i: CartItem) => if WarehouseOf(variants, i) in keys then i.quantity * i.price else 0
  }

  lemma {:induction false} OneMoreWarehouse(variants: map<string, Variant>, lines: seq<CartItem>, keys: set<string>,
                                            w: string)
    requires w !in keys
    ensures Sum(lines, TotalWithin(variants, keys + {w})) ==
      Sum(lines, TotalWithin(variants, keys)) + Sum(LinesOf(variants, lines, w), LineTotal())
  {
    if lines == [] {
    } else {
      var front, i := lines[..|lines| - 1], lines[|lines| - 1];
      OneMoreWarehouse(variants, front, keys, w);
      TotalOfOneMore(variants, front, i, w);
      assert front + [i] == lines;
    }
  }

  lemma TotalOfOneMore(variants: map<string, Variant>, lines: seq<CartItem>, i: CartItem, w: string)
    ensures Sum(LinesOf(variants, lines + [i], w), LineTotal()) ==
      Sum(LinesOf(variants, lines, w), LineTotal()) + if WarehouseOf(variants, i) == w then i.quantity * i.price else 0
  {
    LinesOfOneMore(variants, lines, i, w);
    SumAppend(LinesOf(variants, lines, w), i, LineTotal());
  }

  lemma {:induction false} SumNothing(variants: map<string, Variant>, lines: seq<CartItem>)
    ensures Sum(lines, TotalWithin(variants, {})) == 0
  {
    if lines == [] {
    } else {
      SumNothing(variants, lines[..|lines| - 1]);
    }
  }

  lemma {:induction false} SumEverything(variants: map<string, Variant>, lines: seq<CartItem>, keys: set<string>)
    requires forall i :: i in lines ==> WarehouseOf(variants, i) in keys
    ensures Sum(lines, TotalWithin(variants, keys)) == Sum(lines, LineTotal())
  {
    if lines == [] {
    } else {
      SumEverything(variants, lines[..|lines| - 1], keys);
    }
  }

  lemma OneMoreOrder(variants: map<string, Variant>, lines: seq<CartItem>, keys: seq<string>, first: nat, w: string)
    ensures LinesOrdered(OrdersFor(variants, lines, keys + [w], first)) ==
      LinesOrdered(OrdersFor(variants, lines, keys, first)) + LinesOf(variants, lines, w)
  {
    var orders := OrdersFor(variants, lines, keys + [w], first);
    assert orders[..|keys|] == OrdersFor(variants, lines, keys, first);
    ItemsMirrorLines(LinesOf(variants, lines, w), w);
  }

  lemma CountConcat(a: seq<CartItem>, b: seq<CartItem>, x: CartItem)
    ensures multiset(a + b)[x] == multiset(a)[x] + multiset(b)[x]
  {
  }

  lemma CoveredByOneMore(variants: map<string, Variant>, lines: seq<CartItem>, keys: seq<string>, first: nat,
                         w: string, x: CartItem)
    ensures multiset(LinesOrdered(OrdersFor(variants, lines, keys + [w], first)))[x] ==
      multiset(LinesOrdered(OrdersFor(variants, lines, keys, first)))[x] +
      if WarehouseOf(variants, x) == w then multiset(lines)[x] else 0
  {
    OneMoreOrder(variants, lines, keys, first, w);
    LinesOfCount(variants, lines, w, x);
    CountConcat(LinesOrdered(OrdersFor(variants, lines, keys, first)), LinesOf(variants, lines, w), x);
  }

  lemma {:induction false} LinesCovered(variants: map<string, Variant>, lines: seq<CartItem>, keys: seq<string>,
                                        first: nat, x: CartItem)
    requires NoDuplicates(keys)
    ensures multiset(LinesOrdered(OrdersFor(variants, lines, keys, first)))[x] ==
      if WarehouseOf(variants, x) in keys then multiset(lines)[x] else 0
  {
    if keys == [] {
    } else {
      var before, w := keys[..|keys| - 1], keys[|keys| - 1];
      LastIsNew(keys);
      LinesCovered(variants, lines, before, first, x);
      CoveredByOneMore(variants, lines, before, first, w, x);
      assert WarehouseOf(variants, x) in keys <==> WarehouseOf(variants, x) in before || WarehouseOf(variants, x) == w;
    }
  }

  lemma {:induction false} MoneyCovered(variants: map<string, Variant>, lines: seq<CartItem>, keys: seq<string>,
                                        first: nat)
    requires NoDuplicates(keys)
    ensures Sum(OrdersFor(variants, lines, keys, first), TotalAmount()) ==
      Sum(lines, TotalWithin(variants, Elements(keys)))
  {
    if keys == [] {
      SumNothing(variants, lines);
      assert Elements(keys) == {};
    } else {
      var n := |keys| - 1;
      var before, w := keys[..n], keys[n];
      MoneyCovered(variants, lines, before, first);
      assert OrdersFor(variants, lines, keys, first)[..n] == OrdersFor(variants, lines, before, first);
      assert w !in before && keys == before + [w];
      assert Elements(keys) == Elements(before) + {w};
      OneMoreWarehouse(variants, lines, Elements(before), w);
    }
  }

  /** The split partitions the cart: every line is ordered exactly once, in the order of
      its warehouse, and the totals add up to the cart's subtotal. */
  lemma SplitConserves(variants: map<string, Variant>, lines: seq<CartItem>, keys: seq<string>, first: nat)
    requires ListsKeys(keys, variants, lines)
    ensures
      var orders := OrdersFor(variants, lines, keys, first);
      && multiset(LinesOrdered(orders)) == multiset(lines)
      && Sum(orders, TotalAmount()) == Sum(lines, LineTotal())
  {
    var orders := OrdersFor(variants, lines, keys, first);
    MoneyCovered(variants, lines, keys, first);
    forall i | i in lines
      ensures WarehouseOf(variants, i) in keys
    {
      var n :| 0 <= n < |lines| && lines[n] == i;
      assert Warehouses(variants, lines)[n] == WarehouseOf(variants, i);
    }
    SumEverything(variants, lines, Elements(keys));
    forall x
      ensures multiset(LinesOrdered(orders))[x] == multiset(lines)[x]
    {
      LinesCovered(variants, lines, keys, first, x);
      if x !in lines {
        assert x !in multiset(lines);
      }
    }
  }

  lemma ItemsOfWarehouse(variants: map<string, Variant>, own: seq<CartItem>, w: string)
    requires forall l :: l in own ==> WarehouseOf(variants, l) == w
    ensures forall i :: i in ToOrderItems(own, w) ==>
      && i.warehouseId == w == WarehouseOf(variants, LineBehind(i))
      && i.subTotal == i.quantity * i.unitPrice
  {
    forall i | i in ToOrderItems(own, w)
      ensures i.warehouseId == w == WarehouseOf(variants, LineBehind(i))
      ensures i.subTotal == i.quantity * i.unitPrice
    {
      var m :| 0 <= m < |own| && ToOrderItems(own, w)[m] == i;
      assert LineBehind(i) == own[m] && own[m] in own;
    }
  }

  /** The warehouse of an item is the one its variant names, and otherwise the default one. */
  predicate HasWarehouse(variants: map<string, Variant>, i: OrderItem) {
    if i.variantId.Some? && i.variantId.value != "" && i.variantId.value in variants
       && variants[i.variantId.value].warehouseId.Some? && variants[i.variantId.value].warehouseId.value != ""
    then variants[i.variantId.value].warehouseId == Some(i.warehouseId)
    else i.warehouseId == "DEFAULT_WH"
  }

  /** Each order: its items belong to its warehouse, its total is the sum of their
      subtotals, and its parent is the first order unless it is the first. */
  lemma EveryOrderIsRight(variants: map<string, Variant>, lines: seq<CartItem>, keys: seq<string>, first: nat, n: nat)
    requires n < |keys|
    ensures
      var o := OrdersFor(variants, lines, keys, first)[n];
      && (forall i :: i in o.items ==>
            i.warehouseId == keys[n] == WarehouseOf(variants, LineBehind(i)) && i.subTotal == i.quantity * i.unitPrice)
      && (forall i :: i in o.items ==> HasWarehouse(variants, i))
      && o.totalAmount == Sum(o.items, SubTotal())
      && o.parent == (if n == 0 then None else Some(first))
  {
    var own := LinesOf(variants, lines, keys[n]);
    LinesOfHold(variants, lines, keys[n]);
    SubTotalsAddUp(own, keys[n]);
    ItemsOfWarehouse(variants, own, keys[n]);
  }

  // ----- Payment -----

  predicate TakesPayment(paymentMethod: string) {
    paymentMethod == "STRIPE" || paymentMethod == "PAYPAL"
  }

  /** The amount handed to the payment bridge: for the first order, all totals. */
  function Payment(paymentMethod: string, first: nat, amount: int): Option<(nat, int)> {
    if TakesPayment(paymentMethod) then Some((first, amount)) else None
  }

  // ----- Grouping -----

  ghost predicate Grouped(variants: map<string, Variant>, lines: seq<CartItem>, inserted: seq<string>,
                          groups: map<string, seq<CartItem>>)
  {
    && (forall w :: w in groups <==> w in inserted)
    && (forall w :: GroupIs(variants, lines, groups, w))
  }

  /** The group of `w` holds its lines; no group, no line. */
  ghost predicate GroupIs(variants: map<string, Variant>, lines: seq<CartItem>, groups: map<string, seq<CartItem>>,
                          w: string)
  {
    LinesOf(variants, lines, w) == if w in groups then groups[w] else []
  }

  lemma LinesOfOneMore(variants: map<string, Variant>, lines: seq<CartItem>, i: CartItem, w: string)
    ensures LinesOf(variants, lines + [i], w) ==
      LinesOf(variants, lines, w) + if WarehouseOf(variants, i) == w then [i] else []
  {
    assert (lines + [i])[..|lines|] == lines;
  }

  lemma WarehousesOfOneMore(variants: map<string, Variant>, lines: seq<CartItem>, i: CartItem)
    ensures Warehouses(variants, lines + [i]) == Warehouses(variants, lines) + [WarehouseOf(variants, i)]
  {
  }

  /** What the loop body of the grouping does for one more line. */
  lemma OneMoreLine(variants: map<string, Variant>, lines: seq<CartItem>, i: CartItem, inserted: seq<string>,
                    groups: map<string, seq<CartItem>>)
    requires inserted == FirstOccurrences(Warehouses(variants, lines)) && Grouped(variants, lines, inserted, groups)
    ensures
      var w := WarehouseOf(variants, i);
      var inserted' := if w in groups then inserted else inserted + [w];
      var groups' := groups[w := (if w in groups then groups[w] else []) + [i]];
      && inserted' == FirstOccurrences(Warehouses(variants, lines + [i]))
      && Grouped(variants, lines + [i], inserted', groups')
  {
    var w := WarehouseOf(variants, i);
    var groups' := groups[w := (if w in groups then groups[w] else []) + [i]];
    WarehousesOfOneMore(variants, lines, i);
    FirstOccurrencesSnoc(Warehouses(variants, lines), w);
    forall v
      ensures GroupIs(variants, lines + [i], groups', v)
    {
      assert GroupIs(variants, lines, groups, v);
      LinesOfOneMore(variants, lines, i, v);
    }
  }
}
