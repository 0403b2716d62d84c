/** The cart store: one global mapping from product id to a cart line, with
    `add`, `remove`, `decrement` and `clear` replacing the mapping and
    `itemCount` and `total` folding over it. */
module Cart {
  import opened Types

  /** Contribution of one line to `itemCount`. */
  function Quantity(it: CartItem): int {
    it.quantity
  }

  /** Contribution of one line to `total`, in cents: the stored snapshot's
      price times the quantity. */
  function LineTotal(it: CartItem): int {
    it.product.price * it.quantity
  }

  /** `(existing?.quantity ?? 0)`: the quantity held for `id`, 0 when absent. */
  function QuantityIn(m: map<string, CartItem>, id: string): int {
    if id in m then m[id].quantity else 0
  }

  /** The sum of `f` over the lines of `m` whose keys are in `keys`; the order
      `Object.values` visits them in does not matter (SumOverPick). */
  ghost function SumOver(m: map<string, CartItem>, keys: set<string>, f: CartItem -> int): int
    requires keys <= m.Keys
    decreases keys
  {
    if keys == {} then 0
    else
      var k :| k in keys;
      f(m[k]) + SumOver(m, keys - {k}, f)
  }

  /** `Object.values(m).reduce((acc, it) => acc + f(it), 0)`. */
  ghost function SumBy(m: map<string, CartItem>, f: CartItem -> int): int {
    SumOver(m, m.Keys, f)
  }

  /** Any line can be taken out of the fold first. */
  lemma {:induction false} SumOverPick(m: map<string, CartItem>, keys: set<string>, f: CartItem -> int, k: string)
    requires keys <= m.Keys && k in keys
    ensures SumOver(m, keys, f) == f(m[k]) + SumOver(m, keys - {k}, f)
    decreases keys
  {
    var j :| j in keys && SumOver(m, keys, f) == f(m[j]) + SumOver(m, keys - {j}, f);
    if j != k {
      SumOverPick(m, keys - {j}, f, k);
      SumOverPick(m, keys - {k}, f, j);
      assert keys - {j} - {k} == keys - {k} - {j};
    }
  }

  /** The fold over `keys` only looks at the lines under `keys`. */
  lemma {:induction false} SumOverFrame(m1: map<string, CartItem>, m2: map<string, CartItem>, keys: set<string>, f: CartItem -> int)
    requires keys <= m1.Keys && keys <= m2.Keys
    requires forall k :: k in keys ==> f(m1[k]) == f(m2[k])
    ensures SumOver(m1, keys, f) == SumOver(m2, keys, f)
    decreases keys
  {
    if keys != {} {
      var k :| k in keys && SumOver(m1, keys, f) == f(m1[k]) + SumOver(m1, keys - {k}, f);
      SumOverPick(m2, keys, f, k);
      SumOverFrame(m1, m2, keys - {k}, f);
    }
  }

  /** Deleting a key takes exactly that line's contribution off the sum. */
  lemma SumByRemove(m: map<string, CartItem>, k: string, f: CartItem -> int)
    ensures SumBy(m - {k}, f) == SumBy(m, f) - (if k in m then f(m[k]) else 0)
  {
    var rest := m - {k};
    if k in m {
      SumOverPick(m, m.Keys, f, k);
      assert m.Keys - {k} == rest.Keys;
      SumOverFrame(m, rest, rest.Keys, f);
    } else {
      assert rest == m;
    }
  }

  /** Writing a line under `k` replaces that key's old contribution (0 when
      absent) by the new line's. */
  lemma SumByUpdate(m: map<string, CartItem>, k: string, v: CartItem, f: CartItem -> int)
    ensures SumBy(m[k := v], f) == SumBy(m, f) - (if k in m then f(m[k]) else 0) + f(v)
  {
    var m' := m[k := v];
    SumOverPick(m', m'.Keys, f, k);
    assert m'.Keys - {k} == (m - {k}).Keys;
    SumOverFrame(m', m - {k}, m'.Keys - {k}, f);
    SumByRemove(m, k, f);
  }

  /** With every contribution at least 1, the fold is at least the number of
      lines. */
  lemma {:induction false} SumOverAtLeastCount(m: map<string, CartItem>, keys: set<string>, f: CartItem -> int)
    requires keys <= m.Keys
    ensures (forall k :: k in keys ==> f(m[k]) >= 1) ==> SumOver(m, keys, f) >= |keys|
    decreases keys
  {
    if keys != {} {
      var k :| k in keys && SumOver(m, keys, f) == f(m[k]) + SumOver(m, keys - {k}, f);
      SumOverAtLeastCount(m, keys - {k}, f);
    }
  }

  /** A fold of non-negative contributions is non-negative. */
  lemma {:induction false} SumOverNonNegative(m: map<string, CartItem>, keys: set<string>, f: CartItem -> int)
    requires keys <= m.Keys
    ensures (forall k :: k in keys ==> f(m[k]) >= 0) ==> SumOver(m, keys, f) >= 0
    decreases keys
  {
    if keys != {} {
      var k :| k in keys && SumOver(m, keys, f) == f(m[k]) + SumOver(m, keys - {k}, f);
      SumOverNonNegative(m, keys - {k}, f);
    }
  }

  class CartStore {
    var items: map<string, CartItem>

    /** Every line is stored under its own product's id. */
    ghost predicate Valid()
      reads this
    {
      forall k :: k in items ==> items[k].product.id == k
    }

    /** Every line holds a positive quantity. */
    ghost predicate Positive()
      reads this
    {
      forall k :: k in items ==> items[k].quantity > 0
    }

    /** `itemCount()`: the sum of the quantities. */
    ghost function ItemCount(): (n: int)
      reads this
      ensures items == map[] ==> n == 0
      ensures Positive() ==> n >= |items|
    {
      assert |items.Keys| == |items|;
      SumOverAtLeastCount(items, items.Keys, Quantity);
      SumBy(items, Quantity)
    }

    /** `total()`, in cents: price of each stored snapshot times its quantity. */
    ghost function Total(): (t: int)
      reads this
      ensures items == map[] ==> t == 0
      ensures Positive() && (forall k :: k in items ==> items[k].product.price >= 0) ==> t >= 0
    {
      SumOverNonNegative(items, items.Keys, LineTotal);
      SumBy(items, LineTotal)
    }

    constructor ()
      ensures items == map[] && Valid() && Positive()
    {
      items := map[];
    }

    /** `add(product, quantity = 1)`: the line for `product.id` now holds the
        passed product and the old quantity (0 if absent) plus `quantity`. */
    method Add(product: Product, quantity: int := 1)
      requires Valid()
      modifies this
      ensures Valid()
      ensures items == old(items)[product.id := CartItem(product, QuantityIn(old(items), product.id) + quantity)]
      ensures forall k :: k != product.id ==> (k in items <==> k in old(items)) && (k in items ==> items[k] == old(items)[k])
      ensures ItemCount() == old(ItemCount()) + quantity
      ensures Total() == old(Total()) - (if product.id in old(items) then LineTotal(old(items)[product.id]) else 0)
                         + product.price * (QuantityIn(old(items), product.id) + quantity)
      ensures old(Positive()) && QuantityIn(old(items), product.id) + quantity > 0 ==> Positive()
    {
      var nextQty := QuantityIn(items, product.id) + quantity;
      SumByUpdate(items, product.id, CartItem(product, nextQty), Quantity);
      SumByUpdate(items, product.id, CartItem(product, nextQty), LineTotal);
      items := items[product.id := CartItem(product, nextQty)];
    }

    /** `remove(productId)`: the line is deleted if present; otherwise
        nothing changes. */
    method Remove(productId: string)
      requires Valid()
      modifies this
      ensures Valid()
      ensures items == old(items) - {productId}
      ensures productId !in items
      ensures productId !in old(items) ==> items == old(items)
      ensures ItemCount() == old(ItemCount()) - QuantityIn(old(items), productId)
      ensures Total() == old(Total()) - (if productId in old(items) then LineTotal(old(items)[productId]) else 0)
      ensures old(Positive()) ==> Positive()
    {
      SumByRemove(items, productId, Quantity);
      SumByRemove(items, productId, LineTotal);
      items := items - {productId};
    }

    /** `decrement(productId, quantity = 1)`: no change when the line is
        absent; the line is deleted when its quantity would drop to 0 or
        below; otherwise it holds exactly the old quantity minus `quantity`. */
    method Decrement(productId: string, quantity: int := 1)
      requires Valid()
      modifies this
      ensures Valid()
      ensures productId !in old(items) ==> items == old(items)
      ensures productId in old(items) && old(items)[productId].quantity - quantity <= 0 ==>
                items == old(items) - {productId}
      ensures productId in old(items) && old(items)[productId].quantity - quantity > 0 ==>
                items == old(items)[productId := old(items)[productId].(quantity := old(items)[productId].quantity - quantity)]
      ensures productId in items ==> items[productId].quantity > 0
      ensures ItemCount() == old(ItemCount()) -
                (if productId !in old(items) then 0
                 else if old(items)[productId].quantity - quantity <= 0 then old(items)[productId].quantity
                 else quantity)
      ensures Total() == old(Total()) -
                (if productId !in old(items) then 0
                 else if old(items)[productId].quantity - quantity <= 0 then LineTotal(old(items)[productId])
                 else old(items)[productId].product.price * quantity)
      ensures old(Positive()) ==> Positive()
    {
      if productId !in items {
        return;
      }
      var item := items[productId];
      var nextQty := item.quantity - quantity;
      if nextQty <= 0 {
        SumByRemove(items, productId, Quantity);
        SumByRemove(items, productId, LineTotal);
        items := items - {productId};
        return;
      }
      SumByUpdate(items, productId, item.(quantity := nextQty), Quantity);
      SumByUpdate(items, productId, item.(quantity := nextQty), LineTotal);
      items := items[productId := item.(quantity := nextQty)];
    }

    /** `clear()`: the cart is empty, so it counts no items and costs 0. */
    method Clear()
      modifies this
      ensures items == map[] && Valid() && Positive()
      ensures ItemCount() == 0 && Total() == 0
    {
      items := map[];
    }
  }
}
