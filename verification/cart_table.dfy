/**
 * The cart's dictionary `_items_dict` as a value, its serialised form and
 * the load step that rebuilds it (carton/cart.py:48-59, 141-158).
 *
 * A Python dict remembers insertion order, so the dictionary is the pair of
 * its keys in order and a map from key to item.  Assigning to an existing key
 * keeps its place, a new key goes to the end and `del` takes a key out.
 */
module CartTable {
  import opened Wrappers
  import opened Keys
  import opened CartItems

  /** The dictionary: its keys in insertion order and the item of each key. */
  type Table = (seq<Key>, map<Key, CartItem>)

  /**
   * One element of the serialised cart:
   * `{'key': {field: value, ...}, 'value': {'quantity': q, 'price': p}}`.
   * The key object's members are listed in the order it holds them.
   */
  datatype Record = Record(key: seq<Pair>, value: ItemRecord)

  /** The keys in dict order hold no key twice. */
  ghost predicate Distinct(order: seq<Key>)
  {
    forall i, j | 0 <= i < j < |order| :: order[i] != order[j]
  }

  /**
   * A well-formed `_items_dict`: the order lists each key of the map once,
   * every key is canonical and its `_pk` is the primary key of its item's
   * product.
   */
  ghost predicate TableValid(order: seq<Key>, lines: map<Key, CartItem>)
  {
    && Distinct(order)
    && (forall k :: k in order <==> k in lines)
    && (forall k | k in lines :: Canonical(k) && Lookup(k, PK_FIELD) == Some(lines[k].product.pk))
  }

  /** The invariant the mutations keep: no line is stored at a quantity below 1. */
  ghost predicate AllPositive(lines: map<Key, CartItem>)
  {
    forall k | k in lines :: lines[k].quantity >= 1
  }

  lemma {:induction false} DistinctLength(order: seq<Key>)
    requires Distinct(order)
    ensures |set k | k in order| == |order|
  {
    if order != [] {
      var last := order[|order| - 1];
      var init := order[..|order| - 1];
      DistinctLength(init);
      assert (set k | k in order) == (set k | k in init) + {last};
      assert last !in init;
    }
  }

  /** A well-formed dictionary has as many keys in its order as in its map. */
  lemma {:induction false} TableSize(order: seq<Key>, lines: map<Key, CartItem>)
    requires TableValid(order, lines)
    ensures |lines| == |order|
  {
    DistinctLength(order);
    assert lines.Keys == set k | k in order;
  }

  /** Position of a key in the dict order. */
  function IndexOf(order: seq<Key>, k: Key): (i: nat)
    requires k in order
    ensures i < |order| && order[i] == k
  {
    if order[0] == k then 0 else 1 + IndexOf(order[1..], k)
  }

  /** The dict order after `del d[k]`. */
  function DeleteKey(order: seq<Key>, k: Key): (r: seq<Key>)
    requires k in order
    requires Distinct(order)
    ensures Distinct(r)
    ensures forall x :: x in r <==> x in order && x != k
  {
    var i := IndexOf(order, k);
    var r := order[..i] + order[i + 1..];
    assert forall x | x in r :: x != k by {
      forall x | x in r ensures x != k {
        var j :| 0 <= j < |r| && r[j] == x;
        if j < i {
          assert r[j] == order[j];
        } else {
          assert r[j] == order[j + 1];
        }
      }
    }
    assert forall x | x in order && x != k :: x in r by {
      forall x | x in order && x != k ensures x in r {
        var j :| 0 <= j < |order| && order[j] == x;
        if j < i {
          assert r[j] == x;
        } else {
          assert r[j - 1] == x;
        }
      }
    }
    r
  }

  /** Deleting the key appended last gives back the order before it. */
  lemma {:induction false} DeleteLast(order: seq<Key>, k: Key)
    requires Distinct(order) && k !in order
    ensures Distinct(order + [k])
    ensures DeleteKey(order + [k], k) == order
  {
    var s := order + [k];
    forall i, j | 0 <= i < j < |s| ensures s[i] != s[j] {
      if j == |order| {
        assert s[i] in order;
      }
    }
    assert s[..|order|] == order;
  }

  /** `items`: the items of the dict, in dict order. */
  function ItemsOf(order: seq<Key>, lines: map<Key, CartItem>): (r: seq<CartItem>)
    requires forall k | k in order :: k in lines
    ensures |r| == |order|
    ensures forall i | 0 <= i < |order| :: r[i] == lines[order[i]]
  {
    if order == [] then [] else [lines[order[0]]] + ItemsOf(order[1..], lines)
  }

  /** Changing the item of a present key changes the item list at its position only. */
  lemma ItemsOfUpdate(order: seq<Key>, lines: map<Key, CartItem>, i: nat, v: CartItem)
    requires forall k | k in order :: k in lines
    requires Distinct(order) && i < |order|
    ensures ItemsOf(order, lines[order[i] := v]) == ItemsOf(order, lines)[i := v]
  {
  }

  /** A new key with its item goes to the end of the item list. */
  lemma ItemsOfAppend(order: seq<Key>, lines: map<Key, CartItem>, k: Key, v: CartItem)
    requires forall x | x in order :: x in lines
    requires k !in order
    ensures ItemsOf(order + [k], lines[k := v]) == ItemsOf(order, lines) + [v]
  {
  }

  /** Deleting a key drops its item from the item list. */
  lemma ItemsOfDelete(order: seq<Key>, lines: map<Key, CartItem>, k: Key)
    requires forall x | x in order :: x in lines
    requires Distinct(order) && k in order
    ensures var i := IndexOf(order, k);
      ItemsOf(DeleteKey(order, k), lines - {k}) == ItemsOf(order, lines)[..i] + ItemsOf(order, lines)[i + 1..]
  {
  }

  /** Replacing the item of a present key with one for the same product keeps the dictionary well-formed. */
  lemma UpdateValid(order: seq<Key>, lines: map<Key, CartItem>, k: Key, v: CartItem)
    requires TableValid(order, lines) && k in lines
    requires Lookup(k, PK_FIELD) == Some(v.product.pk)
    ensures TableValid(order, lines[k := v])
  {
    assert forall x :: x in lines[k := v] <==> x in lines;
  }

  /** Storing a new canonical key whose `_pk` names the item's product keeps the dictionary well-formed. */
  lemma AppendValid(order: seq<Key>, lines: map<Key, CartItem>, k: Key, v: CartItem)
    requires TableValid(order, lines) && k !in lines
    requires Canonical(k) && Lookup(k, PK_FIELD) == Some(v.product.pk)
    ensures TableValid(order + [k], lines[k := v])
  {
    DeleteLast(order, k);
  }

  /**
   * Replacing the item of a present key with one for the same product keeps
   * the dictionary well-formed and changes the sums by the difference.
   */
  lemma {:induction false} UpdateLine(order: seq<Key>, lines: map<Key, CartItem>, k: Key, v: CartItem)
    requires TableValid(order, lines) && k in lines && v.product == lines[k].product
    ensures TableValid(order, lines[k := v])
    ensures SumQuantities(ItemsOf(order, lines[k := v])) == SumQuantities(ItemsOf(order, lines)) - lines[k].quantity + v.quantity
    ensures SumSubtotals(ItemsOf(order, lines[k := v])) == SumSubtotals(ItemsOf(order, lines)) - lines[k].Subtotal() + v.Subtotal()
  {
    assert TableValid(order, lines[k := v]) by {
      assert forall x :: x in lines[k := v] <==> x in lines;
    }
    var i := IndexOf(order, k);
    var items := ItemsOf(order, lines);
    assert ItemsOf(order, lines[k := v]) == items[i := v] by {
      ItemsOfUpdate(order, lines, i, v);
    }
    SumQuantitiesUpdate(items, i, v);
    SumSubtotalsUpdate(items, i, v);
  }

  /**
   * Storing a new canonical key whose `_pk` names the item's product keeps
   * the dictionary well-formed and adds the item to the sums.
   */
  lemma {:induction false} AppendLine(order: seq<Key>, lines: map<Key, CartItem>, k: Key, v: CartItem)
    requires TableValid(order, lines) && k !in lines
    requires Canonical(k) && Lookup(k, PK_FIELD) == Some(v.product.pk)
    ensures TableValid(order + [k], lines[k := v])
    ensures SumQuantities(ItemsOf(order + [k], lines[k := v])) == SumQuantities(ItemsOf(order, lines)) + v.quantity
    ensures SumSubtotals(ItemsOf(order + [k], lines[k := v])) == SumSubtotals(ItemsOf(order, lines)) + v.Subtotal()
  {
    ItemsOfAppend(order, lines, k, v);
    SumQuantitiesConcat(ItemsOf(order, lines), [v]);
    SumSubtotalsConcat(ItemsOf(order, lines), [v]);
  }

  /** `del d[k]` keeps the dictionary well-formed and takes the item off the sums. */
  lemma {:induction false} DeleteLine(order: seq<Key>, lines: map<Key, CartItem>, k: Key)
    requires TableValid(order, lines) && k in lines
    ensures TableValid(DeleteKey(order, k), lines - {k})
    ensures SumQuantities(ItemsOf(DeleteKey(order, k), lines - {k})) == SumQuantities(ItemsOf(order, lines)) - lines[k].quantity
    ensures SumSubtotals(ItemsOf(DeleteKey(order, k), lines - {k})) == SumSubtotals(ItemsOf(order, lines)) - lines[k].Subtotal()
  {
    var i := IndexOf(order, k);
    ItemsOfDelete(order, lines, k);
    SumQuantitiesRemove(ItemsOf(order, lines), i);
    SumSubtotalsRemove(ItemsOf(order, lines), i);
  }

  /** `d[k] = item`: a present key keeps its place, a new one goes last. */
  function Put(order: seq<Key>, lines: map<Key, CartItem>, k: Key, item: CartItem): (t: Table)
  {
    if k in lines then (order, lines[k := item]) else (order + [k], lines[k := item])
  }

  /**
   * For an item whose product the key names, `d[k] = item` keeps the
   * dictionary well-formed and gains a line exactly when the key is new.
   */
  lemma PutValid(order: seq<Key>, lines: map<Key, CartItem>, k: Key, item: CartItem)
    requires TableValid(order, lines)
    requires Canonical(k) && Lookup(k, PK_FIELD) == Some(item.product.pk)
    ensures var r := Put(order, lines, k, item);
      TableValid(r.0, r.1) && |r.1| == |lines| + (if k in lines then 0 else 1)
  {
    if k in lines {
      UpdateValid(order, lines, k, item);
    } else {
      AppendValid(order, lines, k, item);
    }
  }

  /** `d[k] = item` takes the replaced item, if any, off the sums and adds the new one. */
  lemma {:induction false} PutSums(order: seq<Key>, lines: map<Key, CartItem>, k: Key, item: CartItem)
    requires TableValid(order, lines)
    requires Canonical(k) && Lookup(k, PK_FIELD) == Some(item.product.pk)
    ensures var r := Put(order, lines, k, item);
      TableValid(r.0, r.1)
    ensures var r := Put(order, lines, k, item);
      SumQuantities(ItemsOf(r.0, r.1))
        == SumQuantities(ItemsOf(order, lines)) - (if k in lines then lines[k].quantity else 0) + item.quantity
    ensures var r := Put(order, lines, k, item);
      SumSubtotals(ItemsOf(r.0, r.1))
        == SumSubtotals(ItemsOf(order, lines)) - (if k in lines then lines[k].Subtotal() else 0.0) + item.Subtotal()
  {
    if k in lines {
      UpdateLine(order, lines, k, item);
    } else {
      AppendLine(order, lines, k, item);
    }
  }

  /** `del d[k]` for a present key. */
  function Delete(order: seq<Key>, lines: map<Key, CartItem>, k: Key): (t: Table)
    requires Distinct(order) && k in order
  {
    (DeleteKey(order, k), lines - {k})
  }

  /** `del d[k]` keeps the dictionary well-formed and loses one line. */
  lemma DeleteValid(order: seq<Key>, lines: map<Key, CartItem>, k: Key)
    requires TableValid(order, lines) && k in lines
    ensures var r := Delete(order, lines, k);
      TableValid(r.0, r.1) && |r.1| == |lines| - 1
  {
    assert TableValid(DeleteKey(order, k), lines - {k});
  }

  /** `del d[k]` takes the deleted item off the sums. */
  lemma {:induction false} DeleteSums(order: seq<Key>, lines: map<Key, CartItem>, k: Key)
    requires TableValid(order, lines) && k in lines
    ensures var r := Delete(order, lines, k);
      TableValid(r.0, r.1)
    ensures var r := Delete(order, lines, k);
      && SumQuantities(ItemsOf(r.0, r.1)) == SumQuantities(ItemsOf(order, lines)) - lines[k].quantity
      && SumSubtotals(ItemsOf(r.0, r.1)) == SumSubtotals(ItemsOf(order, lines)) - lines[k].Subtotal()
  {
    DeleteLine(order, lines, k);
  }

  /** Of two assignments to the same key the second wins, and the key keeps its place. */
  lemma PutPut(order: seq<Key>, lines: map<Key, CartItem>, k: Key, x: CartItem, y: CartItem)
    ensures var t := Put(order, lines, k, x);
      Put(t.0, t.1, k, y) == Put(order, lines, k, y)
  {
    var t := Put(order, lines, k, x);
    assert t.1[k := y] == lines[k := y];
  }

  /** Assigning a key the item it already holds changes nothing. */
  lemma PutSame(order: seq<Key>, lines: map<Key, CartItem>, k: Key)
    requires k in lines
    ensures Put(order, lines, k, lines[k]) == (order, lines)
  {
    assert lines[k := lines[k]] == lines;
  }

  /** Deleting a key that an assignment has just added gives back the dictionary before it. */
  lemma {:induction false} DeleteAfterPut(order: seq<Key>, lines: map<Key, CartItem>, k: Key, item: CartItem)
    requires Distinct(order) && k !in order && k !in lines
    ensures var t := Put(order, lines, k, item);
      && Distinct(t.0) && k in t.0
      && Delete(t.0, t.1, k) == (order, lines)
  {
    DeleteLast(order, k);
    assert lines[k := item] - {k} == lines;
  }

  /** The item list of a well-formed dictionary holds exactly its items. */
  lemma {:induction false} ItemsOfValues(order: seq<Key>, lines: map<Key, CartItem>, item: CartItem)
    requires TableValid(order, lines)
    ensures item in ItemsOf(order, lines) <==> exists k | k in lines :: lines[k] == item
  {
    var r := ItemsOf(order, lines);
    if item in r {
      var i :| 0 <= i < |r| && r[i] == item;
      assert order[i] in lines;
    }
    if exists k | k in lines :: lines[k] == item {
      var k :| k in lines && lines[k] == item;
      var i := IndexOf(order, k);
      assert r[i] == item;
    }
  }

  /** `[item.product for item in items]`: the product of each line, in dict order. */
  function ProductsOf(order: seq<Key>, lines: map<Key, CartItem>): (r: seq<Product>)
    requires forall k | k in order :: k in lines
    ensures |r| == |order|
    ensures forall i | 0 <= i < |order| :: r[i] == lines[order[i]].product
  {
    if order == [] then [] else [lines[order[0]].product] + ProductsOf(order[1..], lines)
  }

  /** The product list of a well-formed dictionary holds exactly the products of its lines. */
  lemma {:induction false} ProductsOfValues(order: seq<Key>, lines: map<Key, CartItem>, p: Product)
    requires TableValid(order, lines)
    ensures p in ProductsOf(order, lines) <==> exists k | k in lines :: lines[k].product == p
  {
    var r := ProductsOf(order, lines);
    if p in r {
      var i :| 0 <= i < |r| && r[i] == p;
      assert order[i] in lines;
    }
    if exists k | k in lines :: lines[k].product == p {
      var k :| k in lines && lines[k].product == p;
      var i := IndexOf(order, k);
      assert r[i] == p;
    }
  }

  /** With no line below quantity 1, the count is at least the number of lines. */
  lemma {:induction false} CountAtLeastLines(order: seq<Key>, lines: map<Key, CartItem>)
    requires TableValid(order, lines)
    ensures AllPositive(lines) ==> SumQuantities(ItemsOf(order, lines)) >= |lines|
  {
    TableSize(order, lines);
    if AllPositive(lines) {
      var items := ItemsOf(order, lines);
      assert forall i | 0 <= i < |items| :: items[i].quantity >= 1 by {
        forall i | 0 <= i < |items| ensures items[i].quantity >= 1 {
          assert order[i] in lines;
        }
      }
      SumQuantitiesAtLeastLength(items);
    }
  }

  /** With non-negative prices and quantities, the total is non-negative. */
  lemma {:induction false} TotalNonNegative(order: seq<Key>, lines: map<Key, CartItem>)
    requires TableValid(order, lines)
    ensures (forall k | k in lines :: lines[k].quantity >= 0 && lines[k].price >= 0.0) ==> SumSubtotals(ItemsOf(order, lines)) >= 0.0
  {
    if forall k | k in lines :: lines[k].quantity >= 0 && lines[k].price >= 0.0 {
      var items := ItemsOf(order, lines);
      assert forall i | 0 <= i < |items| :: items[i].quantity >= 0 && items[i].price >= 0.0 by {
        forall i | 0 <= i < |items| ensures items[i].quantity >= 0 && items[i].price >= 0.0 {
          assert order[i] in lines;
        }
      }
      SumSubtotalsNonNegative(items);
    }
  }

  /**
   * `cart_serializable`: one record per line in dict order, whose key object
   * is `{k: v for k, v in key}` (the key's own pairs) and whose value is the
   * item's `to_dict`.
   */
  function Serialize(order: seq<Key>, lines: map<Key, CartItem>): (r: seq<Record>)
    requires forall k | k in order :: k in lines
    ensures |r| == |order|
    ensures forall i | 0 <= i < |order| :: r[i] == Record(order[i], lines[order[i]].ToDict())
  {
    if order == [] then []
    else
      var last := order[|order| - 1];
      Serialize(order[..|order| - 1], lines) + [Record(last, lines[last].ToDict())]
  }

  /**
   * A record as the loader can read it: its key object is a dict (distinct
   * field names) holding `_pk`; the loader's `item['key']['_pk']` raises on
   * any other.
   */
  ghost predicate WellFormedRecord(r: Record)
  {
    DistinctFields(r.key) && Lookup(r.key, PK_FIELD).Some?
  }

  ghost predicate WellFormedRecords(recs: seq<Record>)
  {
    forall i | 0 <= i < |recs| :: WellFormedRecord(recs[i])
  }

  /** `item['key']['_pk']`. */
  function PkOfRecord(r: Record): (pk: Value)
    requires WellFormedRecord(r)
  {
    Lookup(r.key, PK_FIELD).value
  }

  /** A record the loader keeps: its product is among the available ones. */
  ghost predicate Kept(r: Record, available: set<Value>)
  {
    WellFormedRecord(r) && PkOfRecord(r) in available
  }

  /**
   * One step of the loop in `Cart.__init__` for a record whose product is
   * available: `self._items_dict[_dict2key(item['key'])] = val`, where `val`
   * is the item rebuilt from the record's value and bound to the catalogue's
   * product with the record's `_pk`.  A key already present keeps its place.
   */
  function Store(t: Table, r: Record): (t': Table)
    requires TableValid(t.0, t.1)
    requires WellFormedRecord(r)
    ensures TableValid(t'.0, t'.1)
    ensures t'.1 == t.1[Dict2Key(r.key) := FromDict(Product(PkOfRecord(r)), r.value)]
  {
    Dict2KeyLookup(r.key, PK_FIELD);
    PutValid(t.0, t.1, Dict2Key(r.key), FromDict(Product(PkOfRecord(r)), r.value));
    Put(t.0, t.1, Dict2Key(r.key), FromDict(Product(PkOfRecord(r)), r.value))
  }

  /**
   * The load step of `Cart.__init__` over the records, in order: a record
   * whose `_pk` is available is stored, any other is dropped.
   */
  function Load(recs: seq<Record>, available: set<Value>): (t: Table)
    requires WellFormedRecords(recs)
    ensures TableValid(t.0, t.1)
  {
    if recs == [] then ([], map[])
    else
      var prev := Load(recs[..|recs| - 1], available);
      var r := recs[|recs| - 1];
      if PkOfRecord(r) in available then Store(prev, r) else prev
  }

  /** The keys of the records the loader keeps. */
  ghost function KeptKeys(recs: seq<Record>, available: set<Value>): set<Key>
  {
    set i | 0 <= i < |recs| && Kept(recs[i], available) :: Dict2Key(recs[i].key)
  }

  /** The records before the last keep a subset of the keys. */
  lemma {:induction false} KeptKeysGrow(recs: seq<Record>, available: set<Value>)
    requires recs != []
    ensures KeptKeys(recs[..|recs| - 1], available) <= KeptKeys(recs, available)
  {
    var init := recs[..|recs| - 1];
    forall k | k in KeptKeys(init, available) ensures k in KeptKeys(recs, available) {
      var i :| 0 <= i < |init| && Kept(init[i], available) && Dict2Key(init[i].key) == k;
      assert recs[i] == init[i];
    }
  }

  /** Every kept key comes from the records before the last or from the last one. */
  lemma KeptKeyBound(recs: seq<Record>, available: set<Value>, k: Key)
    requires recs != [] && k in KeptKeys(recs, available)
    ensures var r := recs[|recs| - 1];
      k in KeptKeys(recs[..|recs| - 1], available) || (Kept(r, available) && k == Dict2Key(r.key))
  {
    var i :| 0 <= i < |recs| && Kept(recs[i], available) && Dict2Key(recs[i].key) == k;
    if i < |recs| - 1 {
      KeptKeyOfPrefix(recs, available, i);
    }
  }

  /** A kept record before the last one contributes its key to the prefix's keys. */
  lemma KeptKeyOfPrefix(recs: seq<Record>, available: set<Value>, i: nat)
    requires i < |recs| - 1 && Kept(recs[i], available)
    ensures Dict2Key(recs[i].key) in KeptKeys(recs[..|recs| - 1], available)
  {
    var init := recs[..|recs| - 1];
    assert init[i] == recs[i];
  }

  lemma {:induction false} KeptKeysSnoc(recs: seq<Record>, available: set<Value>)
    requires recs != []
    ensures var r := recs[|recs| - 1];
      KeptKeys(recs, available)
      == KeptKeys(recs[..|recs| - 1], available) + (if Kept(r, available) then {Dict2Key(r.key)} else {})
  {
    var r := recs[|recs| - 1];
    var all, before := KeptKeys(recs, available), KeptKeys(recs[..|recs| - 1], available);
    KeptKeysGrow(recs, available);
    forall k | k in all ensures k in before || (Kept(r, available) && k == Dict2Key(r.key)) {
      KeptKeyBound(recs, available, k);
    }
    if Kept(r, available) {
      assert Dict2Key(r.key) in all;
      assert all == before + {Dict2Key(r.key)};
    } else {
      assert all == before;
    }
  }

  /**
   * Reconciliation: the loaded cart has a line for the key of every record
   * whose product is available, and no other line.
   */
  lemma {:induction false} LoadKeys(recs: seq<Record>, available: set<Value>)
    requires WellFormedRecords(recs)
    ensures Load(recs, available).1.Keys == KeptKeys(recs, available)
  {
    if recs != [] {
      LoadKeys(recs[..|recs| - 1], available);
      KeptKeysSnoc(recs, available);
    }
  }

  /**
   * The loader's query is `filter(pk__in=ids_in_cart)` on the filtered
   * catalogue; since every record's `_pk` is among `ids_in_cart`, the
   * restriction keeps exactly the records the catalogue alone would.
   */
  lemma {:induction false} LoadQueryset(recs: seq<Record>, catalogue: set<Value>, ids: set<Value>)
    requires WellFormedRecords(recs)
    requires forall i | 0 <= i < |recs| :: PkOfRecord(recs[i]) in ids
    ensures Load(recs, catalogue * ids) == Load(recs, catalogue)
  {
    if recs != [] {
      LoadQueryset(recs[..|recs| - 1], catalogue, ids);
    }
  }

  /** The keys of `order` whose line's product is in the catalogue, in order. */
  function KeepAvailable(order: seq<Key>, lines: map<Key, CartItem>, available: set<Value>): (r: seq<Key>)
    requires forall k | k in order :: k in lines
    ensures forall k :: k in r <==> k in order && lines[k].product.pk in available
  {
    if order == [] then []
    else
      var last := order[|order| - 1];
      KeepAvailable(order[..|order| - 1], lines, available)
        + (if lines[last].product.pk in available then [last] else [])
  }

  lemma {:induction false} KeepAvailableAll(order: seq<Key>, lines: map<Key, CartItem>, available: set<Value>)
    requires forall k | k in order :: k in lines && lines[k].product.pk in available
    ensures KeepAvailable(order, lines, available) == order
  {
    if order != [] {
      KeepAvailableAll(order[..|order| - 1], lines, available);
      assert order == order[..|order| - 1] + [order[|order| - 1]];
    }
  }

  /** The lines of a well-formed dictionary restricted to the keys in `order`. */
  ghost predicate LinesFor(order: seq<Key>, lines: map<Key, CartItem>)
  {
    && Distinct(order)
    && forall k | k in order :: k in lines && Canonical(k) && Lookup(k, PK_FIELD) == Some(lines[k].product.pk)
  }

  lemma {:induction false} SerializeWellFormed(order: seq<Key>, lines: map<Key, CartItem>)
    requires LinesFor(order, lines)
    ensures WellFormedRecords(Serialize(order, lines))
  {
    var recs := Serialize(order, lines);
    forall i | 0 <= i < |recs| ensures WellFormedRecord(recs[i]) {
      SortedHasDistinctFields(order[i]);
    }
  }

  /** The loaded result of serialising the lines for `order`. */
  ghost predicate LoadedAs(t: Table, order: seq<Key>, lines: map<Key, CartItem>, available: set<Value>)
    requires forall k | k in order :: k in lines
  {
    && t.0 == KeepAvailable(order, lines, available)
    && (forall k :: k in t.1 <==> k in order && lines[k].product.pk in available)
    && (forall k | k in t.1 :: t.1[k] == lines[k])
  }

  /** Loading one more record whose product is available appends its line. */
  lemma {:induction false} LoadedAsAppend(prev: Table, order: seq<Key>, lines: map<Key, CartItem>, available: set<Value>)
    requires LinesFor(order, lines) && order != []
    requires LoadedAs(prev, order[..|order| - 1], lines, available)
    requires lines[order[|order| - 1]].product.pk in available
    ensures var last := order[|order| - 1];
      LoadedAs((prev.0 + [last], prev.1[last := lines[last]]), order, lines, available)
  {
    var init, last := order[..|order| - 1], order[|order| - 1];
    assert order == init + [last];
    forall k ensures k in order <==> k in init || k == last {
    }
  }

  /** Loading one more record whose product is not available changes nothing. */
  lemma {:induction false} LoadedAsSkip(prev: Table, order: seq<Key>, lines: map<Key, CartItem>, available: set<Value>)
    requires LinesFor(order, lines) && order != []
    requires LoadedAs(prev, order[..|order| - 1], lines, available)
    requires lines[order[|order| - 1]].product.pk !in available
    ensures LoadedAs(prev, order, lines, available)
  {
    var init, last := order[..|order| - 1], order[|order| - 1];
    assert order == init + [last];
    forall k ensures k in order <==> k in init || k == last {
    }
  }

  lemma {:induction false} SerializeThenLoadStep(order: seq<Key>, lines: map<Key, CartItem>, available: set<Value>)
    requires LinesFor(order, lines) && order != []
    requires WellFormedRecords(Serialize(order, lines))
    requires WellFormedRecords(Serialize(order[..|order| - 1], lines))
    requires LoadedAs(Load(Serialize(order[..|order| - 1], lines), available), order[..|order| - 1], lines, available)
    ensures LoadedAs(Load(Serialize(order, lines), available), order, lines, available)
  {
    var init, last := order[..|order| - 1], order[|order| - 1];
    var recs := Serialize(order, lines);
    var prevRecs := Serialize(init, lines);
    assert recs[..|recs| - 1] == prevRecs;
    var prev := Load(prevRecs, available);
    var r := recs[|recs| - 1];
    assert r == Record(last, lines[last].ToDict());
    assert PkOfRecord(r) == lines[last].product.pk;
    if lines[last].product.pk in available {
      Dict2KeyOfSorted(last);
      assert Load(recs, available) == (prev.0 + [last], prev.1[last := lines[last]]) by {
        assert FromDict(Product(PkOfRecord(r)), r.value) == lines[last];
        assert Load(recs, available) == Store(prev, r);
      }
      LoadedAsAppend(prev, order, lines, available);
    } else {
      assert Load(recs, available) == prev;
      LoadedAsSkip(prev, order, lines, available);
    }
  }

  lemma {:induction false} SerializeThenLoadPrefix(order: seq<Key>, lines: map<Key, CartItem>, available: set<Value>)
    requires LinesFor(order, lines)
    ensures WellFormedRecords(Serialize(order, lines))
    ensures LoadedAs(Load(Serialize(order, lines), available), order, lines, available)
  {
    SerializeWellFormed(order, lines);
    if order != [] {
      var init := order[..|order| - 1];
      assert LinesFor(init, lines);
      SerializeThenLoadPrefix(init, lines, available);
      SerializeThenLoadStep(order, lines, available);
    }
  }

  /**
   * Serialise then load: the loaded cart holds, in the same order and with
   * the same quantities and prices, exactly the lines whose product is still
   * in the catalogue; the others are dropped.
   */
  lemma {:induction false} SerializeThenLoad(order: seq<Key>, lines: map<Key, CartItem>, available: set<Value>)
    requires TableValid(order, lines)
    ensures WellFormedRecords(Serialize(order, lines))
    ensures var t := Load(Serialize(order, lines), available);
      && t.0 == KeepAvailable(order, lines, available)
      && (forall k :: k in t.1 <==> k in lines && lines[k].product.pk in available)
      && (forall k | k in t.1 :: t.1[k] == lines[k])
  {
    SerializeThenLoadPrefix(order, lines, available);
  }

  lemma {:induction false} RoundTripOrder(order: seq<Key>, lines: map<Key, CartItem>, available: set<Value>)
    requires TableValid(order, lines)
    requires forall k | k in lines :: lines[k].product.pk in available
    requires WellFormedRecords(Serialize(order, lines))
    ensures Load(Serialize(order, lines), available).0 == order
  {
    SerializeThenLoad(order, lines, available);
    KeepAvailableAll(order, lines, available);
  }

  lemma {:induction false} RoundTripLines(order: seq<Key>, lines: map<Key, CartItem>, available: set<Value>)
    requires TableValid(order, lines)
    requires forall k | k in lines :: lines[k].product.pk in available
    requires WellFormedRecords(Serialize(order, lines))
    ensures Load(Serialize(order, lines), available).1 == lines
  {
    SerializeThenLoad(order, lines, available);
  }

  /**
   * The round trip: against a catalogue holding every product of the cart,
   * loading the serialised cart gives back the same keys in the same order,
   * with the same items.
   */
  lemma {:induction false} RoundTrip(order: seq<Key>, lines: map<Key, CartItem>, available: set<Value>)
    requires TableValid(order, lines)
    requires forall k | k in lines :: lines[k].product.pk in available
    ensures WellFormedRecords(Serialize(order, lines))
    ensures Load(Serialize(order, lines), available) == (order, lines)
  {
    SerializeWellFormed(order, lines);
    RoundTripOrder(order, lines, available);
    RoundTripLines(order, lines, available);
  }
}
