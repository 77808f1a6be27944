/**
 * What `add`, `remove` and `remove_single` (carton/cart.py:92-132) do to the
 * cart's dictionary, as functions of the dictionary before the call, and
 * what the cart's counts and total do across them.
 */
module CartOps {
  import opened Wrappers
  import opened Keys
  import opened CartItems
  import opened CartTable

  /** The two `ValueError`s `add` raises. */
  datatype CartError = InvalidQuantity | MissingPrice

  /**
   * The item `add` leaves under key `k`: the present one with `quantity`
   * more, its price unchanged, or a new one at the given price.
   */
  function AddedItem(lines: map<Key, CartItem>, k: Key, product: Product, price: Option<real>, quantity: int): (item: CartItem)
    requires k in lines || price.Some?
  {
    if k in lines then lines[k].(quantity := lines[k].quantity + quantity)
    else CartItem(product, quantity, price.value)
  }

  /**
   * `add(product, price, quantity, **attrs)`.  A quantity below 1 is
   * refused; so is a new line without a price.  On a present line the
   * quantity grows and the price argument is ignored; a new line is appended.
   */
  function Added(order: seq<Key>, lines: map<Key, CartItem>, product: Product, price: Option<real>,
                 quantity: int, attrs: seq<Pair>): (r: Result<Table, CartError>)
    requires TableValid(order, lines) && DistinctFields(attrs)
    ensures r == Err(InvalidQuantity) <==> quantity < 1
    ensures r == Err(MissingPrice) <==> quantity >= 1 && LineKey(attrs, product.pk) !in lines && price.None?
    ensures r.Ok? ==> TableValid(r.value.0, r.value.1)
  {
    if quantity < 1 then Err(InvalidQuantity)
    else
      var k := LineKey(attrs, product.pk);
      if k !in lines && price.None? then Err(MissingPrice)
      else
        PutValid(order, lines, k, AddedItem(lines, k, product, price, quantity));
        Ok(Put(order, lines, k, AddedItem(lines, k, product, price, quantity)))
  }

  /**
   * After a successful `add` the line for the key holds the product, the old
   * quantity (none for a new line) plus `quantity`, and the old price, or the
   * given one for a new line; a new key goes last and every other line is
   * untouched.
   */
  lemma AddedLine(order: seq<Key>, lines: map<Key, CartItem>, product: Product, price: Option<real>,
                  quantity: int, attrs: seq<Pair>)
    requires TableValid(order, lines) && DistinctFields(attrs)
    ensures var r := Added(order, lines, product, price, quantity, attrs);
      var k := LineKey(attrs, product.pk);
      r.Ok? ==>
        && k in r.value.1
        && r.value.1[k].product == product
        && r.value.1[k].quantity == (if k in lines then lines[k].quantity else 0) + quantity
        && r.value.1[k].price == (if k in lines then lines[k].price else price.value)
        && r.value.0 == (if k in lines then order else order + [k])
        && (forall x | x != k :: (x in r.value.1 <==> x in lines) && (x in lines ==> r.value.1[x] == lines[x]))
  {
  }

  /** `add` raises `count` by exactly `quantity`. */
  lemma {:induction false} AddedCount(order: seq<Key>, lines: map<Key, CartItem>, product: Product, price: Option<real>,
                                      quantity: int, attrs: seq<Pair>)
    requires TableValid(order, lines) && DistinctFields(attrs)
    ensures var r := Added(order, lines, product, price, quantity, attrs);
      r.Ok? ==> SumQuantities(ItemsOf(r.value.0, r.value.1)) == SumQuantities(ItemsOf(order, lines)) + quantity
  {
    var k := LineKey(attrs, product.pk);
    if quantity >= 1 && (k in lines || price.Some?) {
      PutSums(order, lines, k, AddedItem(lines, k, product, price, quantity));
    }
  }

  /** Storing the item `add` computes raises the total by `quantity` units at its price. */
  lemma {:induction false} AddedItemTotal(order: seq<Key>, lines: map<Key, CartItem>, k: Key, product: Product,
                                          price: Option<real>, quantity: int)
    requires TableValid(order, lines)
    requires Canonical(k) && Lookup(k, PK_FIELD) == Some(product.pk)
    requires k in lines || price.Some?
    ensures var item := AddedItem(lines, k, product, price, quantity);
      var t := Put(order, lines, k, item);
      && TableValid(t.0, t.1)
      && SumSubtotals(ItemsOf(t.0, t.1)) == SumSubtotals(ItemsOf(order, lines)) + item.(quantity := quantity).Subtotal()
  {
    var item := AddedItem(lines, k, product, price, quantity);
    var added := item.(quantity := quantity);
    if k in lines {
      var line := lines[k];
      assert item == line.(quantity := line.quantity + quantity);
      assert added == line.(quantity := quantity);
      SubtotalAdditive(line, quantity);
      assert item.Subtotal() == line.Subtotal() + added.Subtotal();
    } else {
      assert added == item;
    }
    PutSums(order, lines, k, item);
  }

  /**
   * `add` raises `total` by the subtotal of `quantity` units at the line's
   * unit price.
   */
  lemma {:induction false} AddedTotal(order: seq<Key>, lines: map<Key, CartItem>, product: Product, price: Option<real>,
                                      quantity: int, attrs: seq<Pair>)
    requires TableValid(order, lines) && DistinctFields(attrs)
    ensures var r := Added(order, lines, product, price, quantity, attrs);
      var k := LineKey(attrs, product.pk);
      r.Ok? ==>
        && k in r.value.1
        && SumSubtotals(ItemsOf(r.value.0, r.value.1))
             == SumSubtotals(ItemsOf(order, lines)) + r.value.1[k].(quantity := quantity).Subtotal()
  {
    var k := LineKey(attrs, product.pk);
    if quantity >= 1 && (k in lines || price.Some?) {
      var item := AddedItem(lines, k, product, price, quantity);
      var t := Put(order, lines, k, item);
      assert Added(order, lines, product, price, quantity, attrs) == Ok(t);
      assert k in t.1 && t.1[k] == item;
      AddedItemTotal(order, lines, k, product, price, quantity);
    }
  }

  /** `add` adds a line exactly when the key is new. */
  lemma AddedUniqueCount(order: seq<Key>, lines: map<Key, CartItem>, product: Product, price: Option<real>,
                         quantity: int, attrs: seq<Pair>)
    requires TableValid(order, lines) && DistinctFields(attrs)
    ensures var r := Added(order, lines, product, price, quantity, attrs);
      r.Ok? ==> |r.value.1| == |lines| + (if LineKey(attrs, product.pk) in lines then 0 else 1)
  {
  }

  /** No line drops below quantity 1 through `add`. */
  lemma AddedPositive(order: seq<Key>, lines: map<Key, CartItem>, product: Product, price: Option<real>,
                      quantity: int, attrs: seq<Pair>)
    requires TableValid(order, lines) && DistinctFields(attrs) && AllPositive(lines)
    ensures var r := Added(order, lines, product, price, quantity, attrs);
      r.Ok? ==> AllPositive(r.value.1)
  {
    AddedLine(order, lines, product, price, quantity, attrs);
  }

  /**
   * Adding `a` and then `b` of a product leaves the same dictionary as
   * adding `a + b` at once: the second call finds the line and ignores the
   * price.
   */
  lemma {:induction false} AddedTwice(order: seq<Key>, lines: map<Key, CartItem>, product: Product, price: Option<real>,
                                      a: int, b: int, attrs: seq<Pair>)
    requires TableValid(order, lines) && DistinctFields(attrs)
    requires b >= 1
    requires Added(order, lines, product, price, a, attrs).Ok?
    ensures var t := Added(order, lines, product, price, a, attrs).value;
      Added(t.0, t.1, product, price, b, attrs) == Added(order, lines, product, price, a + b, attrs)
  {
    var k := LineKey(attrs, product.pk);
    var t := Put(order, lines, k, AddedItem(lines, k, product, price, a));
    assert Added(order, lines, product, price, a, attrs) == Ok(t);
    var second := AddedItem(t.1, k, product, price, b);
    assert Added(t.0, t.1, product, price, b, attrs) == Ok(Put(t.0, t.1, k, second));
    var both := AddedItem(lines, k, product, price, a + b);
    assert k in t.1 && t.1[k] == AddedItem(lines, k, product, price, a);
    if k in lines {
      assert second == both;
    } else {
      assert second == both;
    }
    PutPut(order, lines, k, AddedItem(lines, k, product, price, a), both);
    assert Added(order, lines, product, price, a + b, attrs) == Ok(Put(order, lines, k, both));
  }

  /**
   * `remove(product, **attrs)`: the line for the key, if there is one, is
   * deleted.
   */
  function Removed(order: seq<Key>, lines: map<Key, CartItem>, product: Product, attrs: seq<Pair>): (r: Table)
    requires TableValid(order, lines) && DistinctFields(attrs)
    ensures TableValid(r.0, r.1)
  {
    var k := LineKey(attrs, product.pk);
    if k in lines then
      DeleteValid(order, lines, k);
      Delete(order, lines, k)
    else (order, lines)
  }

  /**
   * After `remove` there is no line for the key, every other line is
   * untouched, and without a line for the key nothing changed at all.
   */
  lemma RemovedLine(order: seq<Key>, lines: map<Key, CartItem>, product: Product, attrs: seq<Pair>)
    requires TableValid(order, lines) && DistinctFields(attrs)
    ensures var r := Removed(order, lines, product, attrs);
      var k := LineKey(attrs, product.pk);
      && k !in r.1
      && (forall x | x != k :: (x in r.1 <==> x in lines) && (x in lines ==> r.1[x] == lines[x]))
      && (k !in lines ==> r == (order, lines))
  {
  }

  /** `remove` takes the line's quantity off `count` and its subtotal off `total`. */
  lemma {:induction false} RemovedSums(order: seq<Key>, lines: map<Key, CartItem>, product: Product, attrs: seq<Pair>)
    requires TableValid(order, lines) && DistinctFields(attrs)
    ensures var r := Removed(order, lines, product, attrs);
      var k := LineKey(attrs, product.pk);
      k in lines ==>
        && |r.1| == |lines| - 1
        && SumQuantities(ItemsOf(r.0, r.1)) == SumQuantities(ItemsOf(order, lines)) - lines[k].quantity
        && SumSubtotals(ItemsOf(r.0, r.1)) == SumSubtotals(ItemsOf(order, lines)) - lines[k].Subtotal()
  {
    var k := LineKey(attrs, product.pk);
    if k in lines {
      DeleteSums(order, lines, k);
    }
  }

  /** A second `remove` of the same line changes nothing. */
  lemma RemovedIdempotent(order: seq<Key>, lines: map<Key, CartItem>, product: Product, attrs: seq<Pair>)
    requires TableValid(order, lines) && DistinctFields(attrs)
    ensures var r := Removed(order, lines, product, attrs);
      Removed(r.0, r.1, product, attrs) == r
  {
    RemovedLine(order, lines, product, attrs);
  }

  /** `remove` undoes an `add` that created the line. */
  lemma {:induction false} RemovedAfterAdded(order: seq<Key>, lines: map<Key, CartItem>, product: Product, price: Option<real>,
                                             quantity: int, attrs: seq<Pair>)
    requires TableValid(order, lines) && DistinctFields(attrs)
    requires LineKey(attrs, product.pk) !in lines
    requires Added(order, lines, product, price, quantity, attrs).Ok?
    ensures var t := Added(order, lines, product, price, quantity, attrs).value;
      Removed(t.0, t.1, product, attrs) == (order, lines)
  {
    var k := LineKey(attrs, product.pk);
    var item := AddedItem(lines, k, product, price, quantity);
    assert Added(order, lines, product, price, quantity, attrs) == Ok(Put(order, lines, k, item));
    DeleteAfterPut(order, lines, k, item);
  }

  /**
   * `remove_single(product, **attrs)`: a line at quantity 1 or below is
   * deleted, any other loses one unit; without a line nothing happens.
   */
  function RemovedSingle(order: seq<Key>, lines: map<Key, CartItem>, product: Product, attrs: seq<Pair>): (r: Table)
    requires TableValid(order, lines) && DistinctFields(attrs)
    ensures TableValid(r.0, r.1)
  {
    var k := LineKey(attrs, product.pk);
    if k !in lines then (order, lines)
    else if lines[k].quantity <= 1 then
      DeleteValid(order, lines, k);
      Delete(order, lines, k)
    else
      var item := lines[k];
      PutValid(order, lines, k, item.(quantity := item.quantity - 1));
      Put(order, lines, k, item.(quantity := item.quantity - 1))
  }

  /**
   * After `remove_single` the line survives exactly when its quantity was
   * above 1, and then with one unit less at its place; every other line is
   * untouched.
   */
  lemma RemovedSingleLine(order: seq<Key>, lines: map<Key, CartItem>, product: Product, attrs: seq<Pair>)
    requires TableValid(order, lines) && DistinctFields(attrs)
    ensures var r := RemovedSingle(order, lines, product, attrs);
      var k := LineKey(attrs, product.pk);
      && (k in lines ==> (k in r.1 <==> lines[k].quantity > 1))
      && (k in lines && lines[k].quantity > 1 ==> r.0 == order && r.1[k] == lines[k].(quantity := lines[k].quantity - 1))
      && (k in lines && lines[k].quantity <= 1 ==> r == Removed(order, lines, product, attrs))
      && (forall x | x != k :: (x in r.1 <==> x in lines) && (x in lines ==> r.1[x] == lines[x]))
      && (k !in lines ==> r == (order, lines))
  {
  }

  /**
   * `remove_single` takes one unit off `count`, or the whole quantity when
   * the line goes; on a cart with no line below 1 that is exactly one.
   */
  lemma {:induction false} RemovedSingleCount(order: seq<Key>, lines: map<Key, CartItem>, product: Product, attrs: seq<Pair>)
    requires TableValid(order, lines) && DistinctFields(attrs)
    ensures var r := RemovedSingle(order, lines, product, attrs);
      var k := LineKey(attrs, product.pk);
      k in lines ==>
        SumQuantities(ItemsOf(r.0, r.1))
          == SumQuantities(ItemsOf(order, lines)) - (if lines[k].quantity <= 1 then lines[k].quantity else 1)
    ensures var r := RemovedSingle(order, lines, product, attrs);
      AllPositive(lines) && LineKey(attrs, product.pk) in lines ==>
        SumQuantities(ItemsOf(r.0, r.1)) == SumQuantities(ItemsOf(order, lines)) - 1
  {
    var k := LineKey(attrs, product.pk);
    if k in lines && lines[k].quantity > 1 {
      PutSums(order, lines, k, lines[k].(quantity := lines[k].quantity - 1));
    } else if k in lines {
      DeleteSums(order, lines, k);
    }
  }

  /** `remove` and `remove_single` never leave a line below quantity 1 behind. */
  lemma RemovedPositive(order: seq<Key>, lines: map<Key, CartItem>, product: Product, attrs: seq<Pair>)
    requires TableValid(order, lines) && DistinctFields(attrs) && AllPositive(lines)
    ensures AllPositive(Removed(order, lines, product, attrs).1)
    ensures AllPositive(RemovedSingle(order, lines, product, attrs).1)
  {
    RemovedLine(order, lines, product, attrs);
    RemovedSingleLine(order, lines, product, attrs);
  }

  /**
   * `remove_single` undoes `add` of a single unit on a cart with no line
   * below quantity 1: it takes the unit off a line that was there, and drops
   * a line the `add` created.
   */
  lemma {:induction false} RemovedSingleAfterAddedOne(order: seq<Key>, lines: map<Key, CartItem>, product: Product,
                                                      price: Option<real>, attrs: seq<Pair>)
    requires TableValid(order, lines) && DistinctFields(attrs) && AllPositive(lines)
    requires Added(order, lines, product, price, 1, attrs).Ok?
    ensures var t := Added(order, lines, product, price, 1, attrs).value;
      RemovedSingle(t.0, t.1, product, attrs) == (order, lines)
  {
    var k := LineKey(attrs, product.pk);
    var item := AddedItem(lines, k, product, price, 1);
    var t := Put(order, lines, k, item);
    assert Added(order, lines, product, price, 1, attrs) == Ok(t);
    if k in lines {
      assert t.1[k] == item && item.quantity > 1;
      assert RemovedSingle(t.0, t.1, product, attrs) == Put(t.0, t.1, k, lines[k]);
      PutPut(order, lines, k, item, lines[k]);
      PutSame(order, lines, k);
    } else {
      DeleteAfterPut(order, lines, k, item);
      assert t.1[k].quantity <= 1;
    }
  }
}
