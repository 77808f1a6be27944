/**
 * Cart items (carton/cart.py:15-38) and the sums the cart's queries take
 * over them (carton/cart.py:164-185).
 */
module CartItems {
  import opened Keys

  /**
   * A catalogue product, represented by its primary key: the core reads
   * `product.pk` and compares products, and model instances compare equal
   * exactly when their primary keys do.
   */
  datatype Product = Product(pk: Value)

  /** The value part of a stored record: `{'quantity': ..., 'price': ...}`. */
  datatype ItemRecord = ItemRecord(quantity: int, price: real)

  /** `CartItem(product, quantity, price)`; the price is an exact decimal. */
  datatype CartItem = CartItem(product: Product, quantity: int, price: real)
  {
    /**
     * `subtotal`: the unit price times the quantity, written as a repeated
     * sum (see `SubtotalIsProduct`) so that proofs about totals stay linear.
     */
    function Subtotal(): (r: real)
    {
      Times(quantity, price)
    }

    /**
     * `to_dict`: the record carries everything of the item but its product,
     * so rebuilding the item from it with the same product gives it back.
     */
    function ToDict(): (r: ItemRecord)
      ensures FromDict(product, r) == this
    {
      ItemRecord(quantity, price)
    }
  }

  /** `CartItem(product, **item['value'])`, as the cart's loader calls it. */
  function FromDict(product: Product, value: ItemRecord): (item: CartItem)
  {
    CartItem(product, value.quantity, value.price)
  }

  /** `n` copies of `p` added up, for any integer `n`. */
  function Times(n: int, p: real): (r: real)
    decreases if n < 0 then -n else n
  {
    if n == 0 then 0.0
    else if n > 0 then Times(n - 1, p) + p
    else Times(n + 1, p) - p
  }

  lemma {:induction false} TimesIsProduct(n: int, p: real)
    ensures Times(n, p) == n as real * p
    decreases if n < 0 then -n else n
  {
    if n > 0 {
      TimesIsProduct(n - 1, p);
    } else if n < 0 {
      TimesIsProduct(n + 1, p);
    }
  }

  /** The subtotal is the product of the unit price and the quantity. */
  lemma SubtotalIsProduct(item: CartItem)
    ensures item.Subtotal() == item.price * item.quantity as real
  {
    TimesIsProduct(item.quantity, item.price);
  }

  /** Adding `n` to the quantity adds the subtotal of `n` units. */
  lemma SubtotalAdditive(item: CartItem, n: int)
    ensures item.(quantity := item.quantity + n).Subtotal()
         == item.Subtotal() + item.(quantity := n).Subtotal()
  {
    TimesIsProduct(item.quantity + n, item.price);
    TimesIsProduct(item.quantity, item.price);
    TimesIsProduct(n, item.price);
  }

  /** `sum(item.quantity for item in items)`. */
  function SumQuantities(items: seq<CartItem>): (r: int)
  {
    if items == [] then 0 else items[0].quantity + SumQuantities(items[1..])
  }

  /** `sum(item.subtotal for item in items)`; an empty sum is 0. */
  function SumSubtotals(items: seq<CartItem>): (r: real)
  {
    if items == [] then 0.0 else items[0].Subtotal() + SumSubtotals(items[1..])
  }

  lemma {:induction false} SumQuantitiesConcat(a: seq<CartItem>, b: seq<CartItem>)
    ensures SumQuantities(a + b) == SumQuantities(a) + SumQuantities(b)
  {
    if a != [] {
      assert (a + b)[1..] == a[1..] + b;
      SumQuantitiesConcat(a[1..], b);
    } else {
      assert a + b == b;
    }
  }

  lemma {:induction false} SumSubtotalsConcat(a: seq<CartItem>, b: seq<CartItem>)
    ensures SumSubtotals(a + b) == SumSubtotals(a) + SumSubtotals(b)
  {
    if a != [] {
      assert (a + b)[1..] == a[1..] + b;
      SumSubtotalsConcat(a[1..], b);
    } else {
      assert a + b == b;
    }
  }

  /** Replacing one item changes the quantity sum by the difference of the two. */
  lemma SumQuantitiesUpdate(s: seq<CartItem>, i: nat, v: CartItem)
    requires i < |s|
    ensures SumQuantities(s[i := v]) == SumQuantities(s) - s[i].quantity + v.quantity
  {
    var a, b := s[..i], s[i + 1..];
    assert s == a + ([s[i]] + b);
    assert s[i := v] == a + ([v] + b);
    SumQuantitiesConcat(a, [s[i]] + b);
    SumQuantitiesConcat(a, [v] + b);
    assert ([s[i]] + b)[1..] == b;
    assert ([v] + b)[1..] == b;
  }

  /** Replacing one item changes the subtotal sum by the difference of the two. */
  lemma SumSubtotalsUpdate(s: seq<CartItem>, i: nat, v: CartItem)
    requires i < |s|
    ensures SumSubtotals(s[i := v]) == SumSubtotals(s) - s[i].Subtotal() + v.Subtotal()
  {
    var a, b := s[..i], s[i + 1..];
    assert s == a + ([s[i]] + b);
    assert s[i := v] == a + ([v] + b);
    SumSubtotalsConcat(a, [s[i]] + b);
    SumSubtotalsConcat(a, [v] + b);
    assert ([s[i]] + b)[1..] == b;
    assert ([v] + b)[1..] == b;
  }

  /** Dropping one item takes its quantity off the sum. */
  lemma SumQuantitiesRemove(s: seq<CartItem>, i: nat)
    requires i < |s|
    ensures SumQuantities(s[..i] + s[i + 1..]) == SumQuantities(s) - s[i].quantity
  {
    var a, b := s[..i], s[i + 1..];
    assert s == a + ([s[i]] + b);
    SumQuantitiesConcat(a, [s[i]] + b);
    SumQuantitiesConcat(a, b);
    assert ([s[i]] + b)[1..] == b;
  }

  /** Dropping one item takes its subtotal off the sum. */
  lemma SumSubtotalsRemove(s: seq<CartItem>, i: nat)
    requires i < |s|
    ensures SumSubtotals(s[..i] + s[i + 1..]) == SumSubtotals(s) - s[i].Subtotal()
  {
    var a, b := s[..i], s[i + 1..];
    assert s == a + ([s[i]] + b);
    SumSubtotalsConcat(a, [s[i]] + b);
    SumSubtotalsConcat(a, b);
    assert ([s[i]] + b)[1..] == b;
  }

  /** With every quantity at least 1, the count is at least the number of lines. */
  lemma {:induction false} SumQuantitiesAtLeastLength(s: seq<CartItem>)
    requires forall i | 0 <= i < |s| :: s[i].quantity >= 1
    ensures SumQuantities(s) >= |s|
  {
    if s != [] {
      SumQuantitiesAtLeastLength(s[1..]);
    }
  }

  /** With non-negative prices and quantities, the total is non-negative. */
  lemma {:induction false} SumSubtotalsNonNegative(s: seq<CartItem>)
    requires forall i | 0 <= i < |s| :: s[i].quantity >= 0 && s[i].price >= 0.0
    ensures SumSubtotals(s) >= 0.0
  {
    if s != [] {
      SubtotalIsProduct(s[0]);
      SumSubtotalsNonNegative(s[1..]);
    }
  }
}
