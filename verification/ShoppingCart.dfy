// The cart of one user: lines keyed by product and variant. Money is in cents.
module ShoppingCart {
  import opened Base

  datatype CartItem = CartItem(productId: string, variantId: Option<string>, quantity: int, price: int)

  datatype LineKey = LineKey(productId: string, variantId: Option<string>)

  datatype Variant = Variant(price: int, warehouseId: Option<string>)

  function KeyOf(i: CartItem): LineKey {
    LineKey(i.productId, i.variantId)
  }

  /** `find` by product and variant. */
  function FindLine(items: seq<CartItem>, key: LineKey): (at: Option<nat>)
    ensures at.Some? ==> at.value < |items| && KeyOf(items[at.value]) == key
    ensures at.None? ==> forall i :: i in items ==> KeyOf(i) != key
  {
    FirstWhere(items, (i: CartItem) => KeyOf(i) == key)
  }

  function Line(items: seq<CartItem>, key: LineKey): Option<CartItem> {
    var at := FindLine(items, key);
    if at.Some? then Some(items[at.value]) else None
  }

  ghost predicate UniqueLines(items: seq<CartItem>) {
    forall i, j :: 0 <= i < j < |items| ==> KeyOf(items[i]) != KeyOf(items[j])
  }

  function LineTotal(): CartItem -> int {
    (i: CartItem) => i.quantity * i.price
  }

  /** With unique lines, membership and lookup say the same. */
  lemma LineIffMember(items: seq<CartItem>, i: CartItem)
    requires UniqueLines(items)
    ensures i in items <==> Line(items, KeyOf(i)) == Some(i)
  {
    if i in items {
      var n :| 0 <= n < |items| && items[n] == i;
      assert FindLine(items, KeyOf(i)).value == n;
    }
  }

  /** Truthiness of an optional id. */
  predicate Given(id: Option<string>) {
    id.Some? && id.value != ""
  }

  datatype CartReply = Saved | NotFound

  class Cart {
    var items: seq<CartItem>

    constructor ()
      ensures items == []
    {
      items := [];
    }

    method AddToCart(products: map<string, int>, variants: map<string, Variant>, key: LineKey, quantity: int)
      returns (r: CartReply)
      requires UniqueLines(items)
      modifies this
      ensures UniqueLines(items)
      ensures r.NotFound? <==>
        || key.productId !in products
        || (key.variantId.Some? && key.variantId.value != "" && key.variantId.value !in variants)
      ensures r.NotFound? ==> items == old(items)
      ensures forall k :: k != key ==> Line(items, k) == old(Line(items, k))
      ensures r.Saved? ==>
        var price := if key.variantId.Some? && key.variantId.value != "" then variants[key.variantId.value].price
                     else products[key.productId];
        Line(items, key) == match old(Line(items, key))
          case Some(l) => Some(l.(quantity := l.quantity + quantity))
          case None => Some(CartItem(key.productId, key.variantId, quantity, price))
    {
      if key.productId !in products {
        return NotFound;
      }
      var price := products[key.productId];
      if Given(key.variantId) {
        if key.variantId.value !in variants {
          return NotFound;
        }
        price := variants[key.variantId.value].price;
      }
      var at := FindLine(items, key);
      if at.Some? {
        var line := items[at.value].(quantity := items[at.value].quantity + quantity);
        ReplacedLine(items, at.value, line);
        items := items[at.value := line];
      } else {
        var line := CartItem(key.productId, key.variantId, quantity, price);
        AppendedLine(items, line);
        items := items + [line];
      }
      return Saved;
    }

    method UpdateCartItem(key: LineKey, quantity: int) returns (r: CartReply)
      requires UniqueLines(items)
      modifies this
      ensures UniqueLines(items)
      ensures r.NotFound? <==> old(Line(items, key)).None?
      ensures r.NotFound? ==> items == old(items)
      ensures forall k :: k != key ==> Line(items, k) == old(Line(items, k))
      ensures r.Saved? ==>
        Line(items, key) == if quantity <= 0 then None else Some(old(Line(items, key)).value.(quantity := quantity))
    {
      var at := FindLine(items, key);
      if at.None? {
        return NotFound;
      }
      var line := items[at.value].(quantity := quantity);
      if quantity <= 0 {
        DroppedLine(items, at.value);
        items := items[..at.value] + items[at.value + 1..];
      } else {
        ReplacedLine(items, at.value, line);
        items := items[at.value := line];
      }
      return Saved;
    }

    method RemoveFromCart(key: LineKey)
      requires UniqueLines(items)
      modifies this
      ensures UniqueLines(items)
      ensures Line(items, key) == None
      ensures forall k :: k != key ==> Line(items, k) == old(Line(items, k))
    {
      var kept := [];
      for i := 0 to |items|
        invariant kept == Without(items[..i], key)
        invariant items == old(items)
      {
        assert items[..i + 1][..i] == items[..i];
        if KeyOf(items[i]) != key {
          kept := kept + [items[i]];
        }
      }
      assert items[..|items|] == items;
      forall k {
        LineWithout(items, key, k);
      }
      LineWithout(items, key, key);
      WithoutKeepsUnique(items, key);
      items := kept;
    }

    method ClearCart()
      modifies this
      ensures items == []
    {
      items := [];
    }

    /** Tax at ten percent, over exact numbers. */
    method CalculateTotals() returns (itemsCount: nat, subtotal: int, tax: real, total: real)
      ensures itemsCount == |items| && subtotal == Sum(items, LineTotal())
      ensures 10.0 * tax == subtotal as real && total == subtotal as real + tax
    {
      itemsCount, subtotal := |items|, 0;
      for i := 0 to |items|
        invariant subtotal == Sum(items[..i], LineTotal())
      {
        assert items[..i + 1] == items[..i] + [items[i]];
        SumAppend(items[..i], items[i], LineTotal());
        subtotal := subtotal + items[i].quantity * items[i].price;
      }
      assert items[..|items|] == items;
      tax := subtotal as real * 0.1;
      total := subtotal as real * 1.1;
    }
  }

  /** The filter of removeFromCart. */
  function Without(items: seq<CartItem>, key: LineKey): seq<CartItem> {
    if items == [] then []
    else
      var rest, i := Without(items[..|items| - 1], key), items[|items| - 1];
      if KeyOf(i) == key then rest else rest + [i]
  }

  lemma LineOfSnoc(items: seq<CartItem>, i: CartItem, k: LineKey)
    ensures Line(items + [i], k) ==
      if Line(items, k).Some? then Line(items, k) else if KeyOf(i) == k then Some(i) else None
  {
    assert (items + [i])[..|items|] == items;
  }

  lemma WithoutSnoc(items: seq<CartItem>, i: CartItem, key: LineKey)
    ensures Without(items + [i], key) == Without(items, key) + if KeyOf(i) == key then [] else [i]
  {
    assert (items + [i])[..|items|] == items;
  }

  lemma {:induction false} LineWithout(items: seq<CartItem>, key: LineKey, k: LineKey)
    ensures Line(Without(items, key), k) == if k == key then None else Line(items, k)
  {
    if items == [] {
    } else {
      var front, i := items[..|items| - 1], items[|items| - 1];
      LineWithout(front, key, k);
      LineWithoutSnoc(front, i, key, k);
      assert front + [i] == items;
    }
  }

  lemma LineWithoutSnoc(items: seq<CartItem>, i: CartItem, key: LineKey, k: LineKey)
    requires Line(Without(items, key), k) == if k == key then None else Line(items, k)
    ensures Line(Without(items + [i], key), k) == if k == key then None else Line(items + [i], k)
  {
    WithoutSnoc(items, i, key);
    LineOfSnoc(items, i, k);
    if KeyOf(i) == key {
      assert Without(items, key) + [] == Without(items, key);
    } else {
      LineOfSnoc(Without(items, key), i, k);
    }
  }

  lemma {:induction false} WithoutKeepsUnique(items: seq<CartItem>, key: LineKey)
    requires UniqueLines(items)
    ensures UniqueLines(Without(items, key))
    ensures forall i :: i in Without(items, key) ==> i in items
  {
    if items == [] {
    } else {
      var front, i := items[..|items| - 1], items[|items| - 1];
      WithoutKeepsUnique(front, key);
      assert forall j :: j in front ==> KeyOf(j) != KeyOf(i);
    }
  }

  lemma ReplacedLine(items: seq<CartItem>, n: nat, line: CartItem)
    requires UniqueLines(items) && n < |items| && KeyOf(line) == KeyOf(items[n])
    ensures
      var items' := items[n := line];
      && UniqueLines(items')
      && Line(items', KeyOf(line)) == Some(line)
      && forall k :: k != KeyOf(line) ==> Line(items', k) == Line(items, k)
  {
    var items' := items[n := line];
    assert items'[n] in items';
    forall k
      ensures FindLine(items', k) == FindLine(items, k)
    {
      SameKeysSameLine(items, items', k);
    }
  }

  lemma {:induction false} SameKeysSameLine(items: seq<CartItem>, items': seq<CartItem>, k: LineKey)
    requires |items| == |items'|
    requires forall i :: 0 <= i < |items| ==> KeyOf(items[i]) == KeyOf(items'[i])
    ensures FindLine(items', k) == FindLine(items, k)
  {
    if items == [] {
    } else {
      SameKeysSameLine(items[..|items| - 1], items'[..|items| - 1], k);
    }
  }

  lemma AppendedLine(items: seq<CartItem>, line: CartItem)
    requires UniqueLines(items) && forall i :: i in items ==> KeyOf(i) != KeyOf(line)
    ensures UniqueLines(items + [line])
    ensures Line(items + [line], KeyOf(line)) == Some(line)
    ensures forall k :: k != KeyOf(line) ==> Line(items + [line], k) == Line(items, k)
  {
    assert (items + [line])[..|items|] == items;
  }

  lemma DroppedLine(items: seq<CartItem>, n: nat)
    requires UniqueLines(items) && n < |items|
    ensures
      var items' := items[..n] + items[n + 1..];
      && UniqueLines(items')
      && Line(items', KeyOf(items[n])) == None
      && forall k :: k != KeyOf(items[n]) ==> Line(items', k) == Line(items, k)
  {
    var items' := items[..n] + items[n + 1..];
    forall k
      ensures Line(items', k) == if k == KeyOf(items[n]) then None else Line(items, k)
    {
      if k != KeyOf(items[n]) && FindLine(items, k).Some? {
        KeptLine(items, n, FindLine(items, k).value);
      }
      var at := FindLine(items', k);
      if at.Some? {
        var m := if at.value < n then at.value else at.value + 1;
        assert items[m] == items'[at.value];
        assert items[m] in items;
        LineIffMember(items, items[m]);
      }
    }
  }

  lemma KeptLine(items: seq<CartItem>, n: nat, m: nat)
    requires n < |items| && m < |items| && m != n
    ensures items[m] in items[..n] + items[n + 1..]
  {
    assert items[m] == (items[..n] + items[n + 1..])[if m < n then m else m - 1];
  }
}
