/**
 * The session-backed cart (carton/cart.py:41-185).
 *
 * The cart holds its dictionary `_items_dict` as the keys in insertion order
 * and a map from key to item; the session is an object shared with the
 * request, holding serialised carts under string keys and the `modified`
 * flag.  Every successful mutation writes the serialised cart back under the
 * cart's session key and sets the flag; a failed or idle one writes nothing.
 */
module Carts {
  import opened Wrappers
  import opened Keys
  import opened CartItems
  import opened CartTable
  import opened CartOps

  /** The request's session: a string-keyed mapping and its `modified` flag. */
  class Session {
    var data: map<string, seq<Record>>
    var modified: bool

    constructor (data: map<string, seq<Record>>)
      ensures this.data == data && !modified
    {
      this.data := data;
      modified := false;
    }
  }

  /**
   * The loop of `Cart.__init__` over the stored records: a record whose
   * `_pk` is available is rebuilt and stored under its canonical key, a
   * present key keeping its place; any other record is skipped.
   */
  method LoadRecords(recs: seq<Record>, available: set<Value>) returns (order: seq<Key>, lines: map<Key, CartItem>)
    requires WellFormedRecords(recs)
    ensures (order, lines) == Load(recs, available)
  {
    order, lines := [], map[];
    var i := 0;
    while i < |recs|
      invariant 0 <= i <= |recs|
      invariant WellFormedRecords(recs[..i])
      invariant (order, lines) == Load(recs[..i], available)
    {
      var r := recs[i];
      assert recs[..i + 1][..i] == recs[..i];
      assert WellFormedRecords(recs[..i + 1]);
      if PkOfRecord(r) in available {
        var k := Dict2Key(r.key);
        var val := FromDict(Product(PkOfRecord(r)), r.value);
        if k !in lines {
          order := order + [k];
        }
        lines := lines[k := val];
      }
      i := i + 1;
    }
    assert recs[..|recs|] == recs;
  }

  class Cart {
    var order: seq<Key>
    var lines: map<Key, CartItem>
    const session: Session
    const sessionKey: string

    ghost predicate Valid()
      reads this
    {
      TableValid(order, lines)
    }

    /**
     * `Cart(session, session_key)`: the session key is the given one unless
     * it is missing or empty, then the default.  Without a stored cart under
     * that key the cart starts empty; otherwise it is rebuilt from the stored
     * records whose product is in the filtered catalogue (`catalogue`, the
     * primary keys of the products that pass the lookup filter).  The lookup
     * asks only for the stored primary keys, which does not change the result.
     */
    constructor (session: Session, sessionKey: Option<string>, defaultKey: string, catalogue: set<Value>)
      requires var key := if sessionKey.Some? && sessionKey.value != "" then sessionKey.value else defaultKey;
        key in session.data ==> WellFormedRecords(session.data[key])
      ensures Valid()
      ensures this.session == session
      ensures this.sessionKey == if sessionKey.Some? && sessionKey.value != "" then sessionKey.value else defaultKey
      ensures this.sessionKey !in session.data ==> order == [] && lines == map[]
      ensures this.sessionKey in session.data ==> (order, lines) == Load(session.data[this.sessionKey], catalogue)
    {
      var key := if sessionKey.Some? && sessionKey.value != "" then sessionKey.value else defaultKey;
      var o: seq<Key>, m: map<Key, CartItem> := [], map[];
      if key in session.data {
        var recs := session.data[key];
        var ids := set i | 0 <= i < |recs| :: PkOfRecord(recs[i]);
        o, m := LoadRecords(recs, catalogue * ids);
        LoadQueryset(recs, catalogue, ids);
      }
      this.order := o;
      this.lines := m;
      this.session := session;
      this.sessionKey := key;
    }

    /** `items`: every item of the cart once, in insertion order. */
    function Items(): (r: seq<CartItem>)
      reads this
      requires Valid()
      ensures |r| == |lines|
      ensures forall item :: item in r <==> exists k | k in lines :: lines[k] == item
    {
      TableSize(order, lines);
      var r := ItemsOf(order, lines);
      assert forall item :: item in r <==> exists k | k in lines :: lines[k] == item by {
        forall item ensures item in r <==> exists k | k in lines :: lines[k] == item {
          ItemsOfValues(order, lines, item);
        }
      }
      r
    }

    /** `unique_count`: the number of lines, whatever their quantities. */
    function UniqueCount(): (r: nat)
      reads this
      requires Valid()
      ensures r == |Items()| == |order|
    {
      TableSize(order, lines);
      |lines|
    }

    /**
     * `count`: the sum of the quantities.  While no line is below quantity
     * 1, it is at least the number of lines and 0 only for an empty cart.
     */
    function Count(): (r: int)
      reads this
      requires Valid()
      ensures AllPositive(lines) ==> r >= UniqueCount()
      ensures AllPositive(lines) ==> (r == 0 <==> |lines| == 0)
    {
      CountAtLeastLines(order, lines);
      TableSize(order, lines);
      SumQuantities(ItemsOf(order, lines))
    }

    /** `total`: the sum of the subtotals; 0 for an empty cart. */
    function Total(): (r: real)
      reads this
      requires Valid()
      ensures |lines| == 0 ==> r == 0.0
      ensures (forall k | k in lines :: lines[k].quantity >= 0 && lines[k].price >= 0.0) ==> r >= 0.0
    {
      TableSize(order, lines);
      TotalNonNegative(order, lines);
      SumSubtotals(ItemsOf(order, lines))
    }

    /** `is_empty`: no line at all, hence nothing to count and nothing to pay. */
    function IsEmpty(): (r: bool)
      reads this
      requires Valid()
      ensures r <==> |lines| == 0
      ensures r ==> Count() == 0 && Total() == 0.0
    {
      TableSize(order, lines);
      UniqueCount() == 0
    }

    /** `products`: the product of each line, in insertion order. */
    function Products(): (r: seq<Product>)
      reads this
      requires Valid()
      ensures |r| == |Items()|
      ensures forall i | 0 <= i < |r| :: r[i] == Items()[i].product
      ensures forall p :: p in r <==> exists k | k in lines :: lines[k].product == p
    {
      var r := ProductsOf(order, lines);
      assert forall p :: p in r <==> exists k | k in lines :: lines[k].product == p by {
        forall p ensures p in r <==> exists k | k in lines :: lines[k].product == p {
          ProductsOfValues(order, lines, p);
        }
      }
      r
    }

    /**
     * `product in cart`: some line is for this product, whatever its variant
     * attributes; that is, some key carries the product's primary key.
     */
    function Contains(product: Product): (r: bool)
      reads this
      requires Valid()
      ensures r <==> exists k | k in lines :: Lookup(k, PK_FIELD) == Some(product.pk)
    {
      var ps := Products();
      assert (product in ps) <==> exists k | k in lines :: Lookup(k, PK_FIELD) == Some(product.pk) by {
        if exists k | k in lines :: Lookup(k, PK_FIELD) == Some(product.pk) {
          var k :| k in lines && Lookup(k, PK_FIELD) == Some(product.pk);
          assert lines[k].product == product;
        }
      }
      product in ps
    }

    /** `cart_serializable`: one record per line, in insertion order. */
    method CartSerializable() returns (ret: seq<Record>)
      requires Valid()
      ensures ret == Serialize(order, lines)
    {
      ret := [];
      var i := 0;
      while i < |order|
        invariant 0 <= i <= |order|
        invariant ret == Serialize(order[..i], lines)
      {
        var key := order[i];
        assert order[..i + 1][..i] == order[..i];
        ret := ret + [Record(key, lines[key].ToDict())];
        i := i + 1;
      }
      assert order[..|order|] == order;
    }

    /** `update_session`: store the serialised cart and mark the session modified. */
    method UpdateSession()
      requires Valid()
      modifies session
      ensures session.data == old(session.data)[sessionKey := Serialize(order, lines)]
      ensures session.modified
    {
      var blob := CartSerializable();
      session.data := session.data[sessionKey := blob];
      session.modified := true;
    }

    /**
     * `add(product, price, quantity, **attrs)`: the dictionary becomes the one
     * `Added` describes and the session is written; on a refusal the error is
     * returned (the source raises it) and nothing changes.
     */
    method Add(product: Product, price: Option<real>, quantity: int, attrs: seq<Pair>) returns (err: Option<CartError>)
      requires Valid()
      requires DistinctFields(attrs)
      modifies this, session
      ensures match Added(old(order), old(lines), product, price, quantity, attrs)
        case Err(e) =>
          && err == Some(e)
          && order == old(order) && lines == old(lines)
          && unchanged(session)
        case Ok(t) =>
          && err == None
          && order == t.0 && lines == t.1
          && session.data == old(session.data)[sessionKey := Serialize(order, lines)]
          && session.modified
      ensures Valid()
    {
      if quantity < 1 {
        return Some(InvalidQuantity);
      }
      var key := LineKey(attrs, product.pk);
      if key in lines {
        lines := lines[key := lines[key].(quantity := lines[key].quantity + quantity)];
      } else {
        if price == None {
          return Some(MissingPrice);
        }
        order := order + [key];
        lines := lines[key := CartItem(product, quantity, price.value)];
      }
      assert Added(old(order), old(lines), product, price, quantity, attrs) == Ok((order, lines));
      UpdateSession();
      err := None;
    }

    /**
     * `remove(product, **attrs)`: the dictionary becomes the one `Removed`
     * describes; the session is written exactly when there was a line to drop.
     */
    method Remove(product: Product, attrs: seq<Pair>)
      requires Valid()
      requires DistinctFields(attrs)
      modifies this, session
      ensures (order, lines) == Removed(old(order), old(lines), product, attrs)
      ensures Valid()
      ensures LineKey(attrs, product.pk) in old(lines) ==>
        session.data == old(session.data)[sessionKey := Serialize(order, lines)] && session.modified
      ensures LineKey(attrs, product.pk) !in old(lines) ==> unchanged(session)
    {
      var key := LineKey(attrs, product.pk);
      if key in lines {
        order := DeleteKey(order, key);
        lines := lines - {key};
        assert (order, lines) == Removed(old(order), old(lines), product, attrs);
        UpdateSession();
      }
    }

    /**
     * `remove_single(product, **attrs)`: the dictionary becomes the one
     * `RemovedSingle` describes; the session is written exactly when there
     * was a line for the key.
     *
     * The key is computed as in `add` and `remove`.  The source at
     * carton/cart.py:125 calls `dict2key`, a name the module does not define.
     */
    method RemoveSingle(product: Product, attrs: seq<Pair>)
      requires Valid()
      requires DistinctFields(attrs)
      modifies this, session
      ensures (order, lines) == RemovedSingle(old(order), old(lines), product, attrs)
      ensures Valid()
      ensures LineKey(attrs, product.pk) in old(lines) ==>
        session.data == old(session.data)[sessionKey := Serialize(order, lines)] && session.modified
      ensures LineKey(attrs, product.pk) !in old(lines) ==> unchanged(session)
    {
      var key := LineKey(attrs, product.pk);
      if key in lines {
        if lines[key].quantity <= 1 {
          order := DeleteKey(order, key);
          lines := lines - {key};
        } else {
          lines := lines[key := lines[key].(quantity := lines[key].quantity - 1)];
        }
        assert (order, lines) == RemovedSingle(old(order), old(lines), product, attrs);
        UpdateSession();
      }
    }

    /** `clear`: no line left, and the empty cart written to the session. */
    method Clear()
      requires Valid()
      modifies this, session
      ensures Valid()
      ensures order == [] && lines == map[]
      ensures session.data == old(session.data)[sessionKey := []] && session.modified
    {
      order := [];
      lines := map[];
      UpdateSession();
    }
  }
}
