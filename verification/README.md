# django-carton's session cart, modelled in Dafny

This project models `carton/cart.py`, the session-backed shopping cart of
django-carton, and proves properties of the model.

A cart keeps a dictionary `_items_dict`. It maps a *line key* to a
`CartItem` (product, quantity, unit price). A line key is the product's
primary key under the reserved field `_pk`, together with the caller's
variant attributes, as a sorted tuple of pairs (`_dict2key`). So the same
product in two sizes gives two lines.

The cart supports these operations:

- `add` grows the quantity of an existing line, or appends a new line. It raises on a quantity below 1, and on a new line without a price.
- `remove` deletes a line.
- `remove_single` takes one unit off a line, or deletes it at quantity 1 or below.
- `clear` empties the cart.
- The queries `items`, `count`, `unique_count`, `is_empty`, `products`, `total` and `in` read the dictionary.

Each successful mutation writes the serialised cart (`cart_serializable`:
one `{key, value}` record per line) into the request's session under the
cart's session key and sets `session.modified`. Constructing a cart rebuilds
the dictionary from the stored records. It keeps only the records whose
product is still in the (filtered) catalogue.

Layout:

- `wrappers.dfy`: `Option` and `Result`.
- `keys.dfy` (module `Keys`): field and value pairs, Python's string order, `_dict2key` as an insertion sort, and the line key of `add`/`remove`/`remove_single`.
- `cart_items.dfy` (module `CartItems`):
  - `Product` is represented by its primary key.
  - `CartItem` has `subtotal` and `to_dict`.
  - Also here: the sums behind `count` and `total`.
- `cart_table.dfy` (module `CartTable`): the dictionary as a value.
  - It is the keys in insertion order plus a map from key to item.
  - Assignment (`Put`) keeps a present key's place and appends a new key; `del` (`Delete`) takes a key out.
  - Also here: the serialised form, the load step of the constructor, and the serialise-then-load round trip.
- `cart_ops.dfy` (module `CartOps`): what `add`, `remove` and `remove_single` do to the dictionary. Each is a function of the dictionary before the call, with the lemmas relating them to the counts, the total and each other.
- `cart.dfy` (module `Carts`): the `Session` and `Cart` classes.
  - The cart's methods update its fields in place and write the session.
  - `Add`, `Remove` and `RemoveSingle` are each proved to leave exactly the dictionary that the matching `CartOps` function describes.
  - `Clear`'s ensures give the empty dictionary directly. `UpdateSession` changes only the session: it stores the serialisation of the current dictionary.

## Model

| member | source | states |
|---|---|---|
| Keys.StrLt | carton/cart.py:12 | Python's code-point order on strings, the order `sorted` puts the distinct field names of a key in; the three lemmas below make it a strict total order |
| Keys.StrLtIrreflexive | carton/cart.py:12 | no field name sorts before itself |
| Keys.StrLtTransitive | carton/cart.py:12 | the field-name order is transitive |
| Keys.StrLtTotal | carton/cart.py:12 | of two different field names, one sorts before the other |
| Keys.Insert | carton/cart.py:12 | inserting a pair with a new field into a key sorted by field name keeps it sorted and adds exactly that pair (as a multiset) |
| Keys.Dict2Key | carton/cart.py:11-12 | `_dict2key` of a mapping is sorted strictly by field name and holds exactly the mapping's pairs |
| Keys.StrictlySortedUnique | carton/cart.py:12 | two keys sorted by field name with the same pairs are equal, so `sorted` leaves one canonical key per mapping |
| Keys.Dict2KeyOrderIndependent | carton/cart.py:11-12 | two mappings with the same pairs give the same key, whatever order they were built in |
| Keys.Dict2KeyOfSorted | carton/cart.py:11-12 | applying `_dict2key` to the pairs of a key it produced gives that key back (the loader re-canonicalises stored keys) |
| Keys.Dict2KeyLookup | carton/cart.py:11-12 | looking a field up in the key gives what looking it up in the mapping gives |
| Keys.WithPk | carton/cart.py:100 | `kargs['_pk'] = product.pk` leaves a mapping of distinct fields holding `_pk` with the product's key and every other attribute pair unchanged |
| Keys.LineKey | carton/cart.py:100-101 | the line key is canonical, its `_pk` is the product's primary key, and its pairs are exactly `_pk` plus the attributes other than `_pk` |
| Keys.LineKeySameAttributes | carton/cart.py:100-101 | attribute mappings that agree on every field but `_pk` give the same line key for the same product |
| Keys.LineKeyDistinguishes | carton/cart.py:100-101 | equal line keys mean the same product and the same value for every attribute |
| CartItems.CartItem.ToDict | carton/cart.py:27-31 | the record `to_dict` returns, together with the product, rebuilds exactly the item |
| CartItems.FromDict | carton/cart.py:57 | `CartItem(product, **item['value'])`: the given product with the record's quantity and price; `CartItem.ToDict` proves it inverts `to_dict` |
| CartItems.CartItem.Subtotal | carton/cart.py:33-38 | `price * quantity`, written as a repeated sum; `SubtotalIsProduct` states that it equals the product |
| CartItems.TimesIsProduct | carton/cart.py:38 | the repeated sum that defines a subtotal equals the product of the quantity and the unit price |
| CartItems.SubtotalIsProduct | carton/cart.py:33-38 | `subtotal` is `price * quantity` |
| CartItems.SubtotalAdditive | carton/cart.py:33-38 | adding `n` to a quantity adds the subtotal of `n` units at the same price |
| CartItems.SumQuantities | carton/cart.py:164-166 | `sum(item.quantity for ...)` over the items in order, 0 when there are none; the `SumQuantities` lemmas below say how it moves under concatenation, replacement and removal |
| CartItems.SumSubtotals | carton/cart.py:183-185 | `sum(item.subtotal for ...)` over the items in order, 0 when there are none; the `SumSubtotals` lemmas below say how it moves under concatenation, replacement and removal |
| CartItems.SumQuantitiesConcat | carton/cart.py:164-166 | the quantity sum of two item lists joined is the sum of their sums |
| CartItems.SumSubtotalsConcat | carton/cart.py:183-185 | the subtotal sum of two item lists joined is the sum of their sums |
| CartItems.SumQuantitiesUpdate | carton/cart.py:164-166 | replacing one item changes the quantity sum by the difference of the two quantities |
| CartItems.SumSubtotalsUpdate | carton/cart.py:183-185 | replacing one item changes the subtotal sum by the difference of the two subtotals |
| CartItems.SumQuantitiesRemove | carton/cart.py:164-166 | dropping one item takes its quantity off the sum |
| CartItems.SumSubtotalsRemove | carton/cart.py:183-185 | dropping one item takes its subtotal off the sum |
| CartItems.SumQuantitiesAtLeastLength | carton/cart.py:164-166 | with every quantity at least 1, the count is at least the number of items |
| CartItems.SumSubtotalsNonNegative | carton/cart.py:183-185 | with non-negative quantities and prices, the total is non-negative |
| CartTable.DistinctLength | carton/cart.py:168-173 | a key order without repeats has as many elements as distinct keys |
| CartTable.TableSize | carton/cart.py:168-173 | in a well-formed dictionary, the number of keys in the order equals the number of lines |
| CartTable.DeleteKey | carton/cart.py:117 | `del` removes exactly the deleted key from the order and keeps it free of repeats |
| CartTable.DeleteLast | carton/cart.py:104-117 | deleting the key appended last gives back the order before the append |
| CartTable.ItemsOf | carton/cart.py:141-151 | `items` lists, position by position, the item of each key in insertion order |
| CartTable.ItemsOfUpdate | carton/cart.py:141-151 | changing the item of a present key changes the item list at that key's position only |
| CartTable.ItemsOfAppend | carton/cart.py:141-151 | a new key's item goes to the end of the item list |
| CartTable.ItemsOfDelete | carton/cart.py:141-151 | deleting a key drops exactly its item from the item list |
| CartTable.UpdateValid | carton/cart.py:102-103 | replacing the item of a present key with one for the same product keeps the dictionary well-formed |
| CartTable.AppendValid | carton/cart.py:104-107 | storing a new canonical key whose `_pk` names the item's product keeps the dictionary well-formed |
| CartTable.UpdateLine | carton/cart.py:102-103 | replacing a present key's item keeps the dictionary well-formed and changes count and total by the difference |
| CartTable.AppendLine | carton/cart.py:104-107 | storing a new key keeps the dictionary well-formed and adds the item to count and total |
| CartTable.DeleteLine | carton/cart.py:116-117 | `del` keeps the dictionary well-formed and takes the item off count and total |
| CartTable.Put | carton/cart.py:102-107 | `d[k] = item` (also at carton/cart.py:59): a present key keeps its place and gets the new item, a new key goes last; `PutValid`, `PutSums`, `PutPut` and `PutSame` state its properties |
| CartTable.PutValid | carton/cart.py:102-107 | `d[k] = item` keeps the dictionary well-formed and gains a line exactly when the key is new |
| CartTable.PutSums | carton/cart.py:102-107 | `d[k] = item` takes the replaced item, if any, off count and total and adds the new one |
| CartTable.DeleteValid | carton/cart.py:116-117 | `del d[k]` keeps the dictionary well-formed and loses exactly one line |
| CartTable.Delete | carton/cart.py:116-117 | `del d[k]` (also at carton/cart.py:129) for a present key: the key leaves the order and the map; `DeleteValid`, `DeleteSums` and `DeleteAfterPut` state its properties |
| CartTable.DeleteSums | carton/cart.py:116-117 | `del d[k]` takes the deleted item off count and total |
| CartTable.PutPut | carton/cart.py:102-103 | of two assignments to the same key the second wins and the key keeps its place |
| CartTable.PutSame | carton/cart.py:103 | assigning a key the item it already holds changes nothing |
| CartTable.DeleteAfterPut | carton/cart.py:104-117 | deleting a key just added by assignment gives back the dictionary before it |
| CartTable.ItemsOfValues | carton/cart.py:141-151 | the item list holds exactly the items of the dictionary's lines |
| CartTable.ProductsOf | carton/cart.py:179-181 | `products` lists, position by position, the product of each line in insertion order |
| CartTable.ProductsOfValues | carton/cart.py:179-181 | the product list holds exactly the products of the dictionary's lines |
| CartTable.CountAtLeastLines | carton/cart.py:164-173 | with no line below quantity 1, `count` is at least `unique_count` |
| CartTable.TotalNonNegative | carton/cart.py:183-185 | with non-negative quantities and prices, `total` is non-negative |
| CartTable.Serialize | carton/cart.py:153-158 | `cart_serializable` has one record per line, in insertion order, each holding the line's key pairs and its item's `to_dict` |
| CartTable.Store | carton/cart.py:57-59 | one load step stores the item rebuilt from the record under the record's canonical key and keeps the dictionary well-formed |
| CartTable.PkOfRecord | carton/cart.py:51-57 | `item['key']['_pk']`: the value the record's key object holds for the `_pk` field |
| CartTable.Load | carton/cart.py:48-59 | the load loop over any well-formed records leaves a well-formed dictionary |
| CartTable.KeptKeyBound | carton/cart.py:53-59 | every key the loop keeps comes from a kept record before the last one or is the last record's own key |
| CartTable.LoadKeys | carton/cart.py:53-59 | the loaded cart has a line for the key of every record whose product is available and no other line |
| CartTable.LoadQueryset | carton/cart.py:51-56 | restricting the catalogue to the stored primary keys (`filter(pk__in=ids_in_cart)`) loads the same cart as the catalogue alone |
| CartTable.KeepAvailable | carton/cart.py:53-56 | the keys kept are exactly those of the order whose product is in the catalogue |
| CartTable.KeepAvailableAll | carton/cart.py:53-56 | when every product is in the catalogue, every key is kept in order |
| CartTable.SerializeWellFormed | carton/cart.py:153-158 | every serialised record is one the loader can read |
| CartTable.SerializeThenLoad | carton/cart.py:48-59 | loading the serialised cart keeps, in order and with the same items, exactly the lines whose product is in the catalogue and drops the rest |
| CartTable.RoundTripOrder | carton/cart.py:48-59 | with every product in the catalogue, serialise then load gives the same key order |
| CartTable.RoundTripLines | carton/cart.py:48-59 | with every product in the catalogue, serialise then load gives the same lines |
| CartTable.RoundTrip | carton/cart.py:48-59 | with every product in the catalogue, serialise then load gives back the same dictionary: keys, order, quantities and prices |
| CartOps.Added | carton/cart.py:92-108 | `add` fails with the quantity error iff the quantity is below 1, fails with the missing-price error iff the quantity is valid, the key is new and no price is given, and otherwise leaves a well-formed dictionary |
| CartOps.AddedItem | carton/cart.py:102-107 | the item `add` stores: a present line with `quantity` more at its old price, or a new item at the given price; `AddedLine` and `AddedItemTotal` state its effect |
| CartOps.AddedLine | carton/cart.py:102-107 | after `add` the key's line holds the product, the old quantity plus `quantity` and the old price (a new line: `quantity` and the given price), a new key goes last, and every other line is untouched |
| CartOps.AddedCount | carton/cart.py:102-107 | `add` raises `count` by exactly `quantity` |
| CartOps.AddedItemTotal | carton/cart.py:102-107 | storing the item `add` computes raises the total by `quantity` units at the line's price |
| CartOps.AddedTotal | carton/cart.py:102-107 | `add` raises `total` by the subtotal of `quantity` units at the line's unit price |
| CartOps.AddedUniqueCount | carton/cart.py:102-107 | `add` adds one line when the key is new and none otherwise |
| CartOps.AddedPositive | carton/cart.py:97-107 | `add` keeps every quantity at least 1 |
| CartOps.AddedTwice | carton/cart.py:102-103 | adding `a` and then `b` units leaves the same dictionary as adding `a + b` at once |
| CartOps.Removed | carton/cart.py:110-118 | `remove` leaves a well-formed dictionary |
| CartOps.RemovedLine | carton/cart.py:114-118 | after `remove` there is no line for the key, every other line is untouched, and without a line for the key nothing changed |
| CartOps.RemovedSums | carton/cart.py:116-117 | `remove` of a present line loses one line, its quantity from `count` and its subtotal from `total` |
| CartOps.RemovedIdempotent | carton/cart.py:116 | a second `remove` of the same line changes nothing |
| CartOps.RemovedAfterAdded | carton/cart.py:104-117 | `remove` undoes an `add` that created the line |
| CartOps.RemovedSingle | carton/cart.py:120-132 | `remove_single` leaves a well-formed dictionary |
| CartOps.RemovedSingleLine | carton/cart.py:126-131 | after `remove_single` the line survives iff its quantity was above 1, with one unit less at the same place; at 1 or below it is the same as `remove`; other lines are untouched; an absent key changes nothing |
| CartOps.RemovedSingleCount | carton/cart.py:127-131 | `remove_single` takes one unit off `count`, or the line's whole quantity when it goes; with no line below 1, exactly one |
| CartOps.RemovedPositive | carton/cart.py:110-132 | `remove` and `remove_single` keep every quantity at least 1 |
| CartOps.RemovedSingleAfterAddedOne | carton/cart.py:102-131 | with no line below 1, `remove_single` undoes `add` of a single unit, whether the line was there or new |
| Carts.LoadRecords | carton/cart.py:53-59 | the constructor's loop leaves exactly the dictionary `Load` describes |
| Carts.Session.constructor | carton/cart.py:85-90 | the session the cart writes: a string-keyed mapping of stored records, not yet marked modified |
| Carts.Cart.constructor | carton/cart.py:42-59 | the session key falls back to the default when missing or empty; no stored cart gives an empty cart; otherwise the cart is the stored records loaded against the catalogue |
| Carts.Cart.Items | carton/cart.py:141-151 | `items` has one entry per line and holds exactly the cart's items |
| Carts.Cart.UniqueCount | carton/cart.py:168-173 | `unique_count` is the number of lines, the length of `items` |
| Carts.Cart.Count | carton/cart.py:164-166 | with no line below 1, `count` is at least `unique_count` and 0 only for an empty cart |
| Carts.Cart.Total | carton/cart.py:183-185 | `total` is 0 for an empty cart and non-negative when prices and quantities are |
| Carts.Cart.IsEmpty | carton/cart.py:175-177 | `is_empty` holds iff there is no line, and then count and total are 0 |
| Carts.Cart.Products | carton/cart.py:179-181 | `products` lists the product of each item in order and holds exactly the products of the lines |
| Carts.Cart.Contains | carton/cart.py:61-65 | `product in cart` holds iff some line's key carries the product's primary key |
| Carts.Cart.CartSerializable | carton/cart.py:153-158 | the loop builds exactly the serialised form of the dictionary |
| Carts.Cart.UpdateSession | carton/cart.py:85-90 | the session holds the serialised cart under the cart's key, other session keys untouched, and is marked modified |
| Carts.Cart.Add | carton/cart.py:92-108 | on an error the cart and session are unchanged and the error is returned; otherwise the dictionary is the one `Added` describes and the session holds its serialisation and is marked modified |
| Carts.Cart.Remove | carton/cart.py:110-118 | the dictionary becomes the one `Removed` describes; the session is written iff the key had a line, otherwise untouched |
| Carts.Cart.RemoveSingle | carton/cart.py:120-132 | the dictionary becomes the one `RemovedSingle` describes; the session is written iff the key had a line, otherwise untouched |
| Carts.Cart.Clear | carton/cart.py:134-139 | the cart is empty and the session holds the empty serialisation and is marked modified |

## Left out

- The product model, `get_queryset`, `filter_products` and the `CART_PRODUCT_LOOKUP` setting (carton/cart.py:67-83) are calls into Django's ORM. The catalogue is a parameter instead: the set of primary keys that pass the filter. A product is represented by its primary key.
- `carton_settings.CART_SESSION_KEY` is a parameter of the constructor (`defaultKey`).
- `simplejson` text (carton/cart.py:50, 158) is not modelled. The session holds the records themselves.
  - So the round trip is proved on records.
  - Through JSON text, `simplejson.loads` returns the price as a binary float by default, and `Decimal(float)` is not always the original decimal. The model does not capture that loss.
- The `or '{}'` fallback (carton/cart.py:50) turns an empty or `None` stored value into an empty dict, so the source loads an empty cart. The model has no JSON text. Its nearest value is an empty record list, which also loads an empty cart: `Load([], _) == ([], map[])`.
- Malformed stored data is not modelled. The source leaves it unspecified (the TODO at carton/cart.py:47).
- Carts.Cart.constructor: requires every stored record's key object to hold `_pk` with distinct field names. On any other record the source raises `KeyError` (carton/cart.py:51).
- Keys.Value: attribute values and primary keys are limited to integers and strings. The source accepts any hashable `**kargs` value, and other kinds behave differently, which the model does not capture:
  - A tuple is written as a JSON array (carton/cart.py:158) and read back as a list. `_dict2key` still returns, because `sorted` compares only the distinct field names, but the tuple it returns holds a list. Storing under that key at carton/cart.py:59 then raises `TypeError` (unhashable), so every later load of that session fails.
  - A `Decimal` value comes back as a float, which may not compare equal to it (e.g. `Decimal('1.1')`; `Decimal('1.5')` reloads equal). When it is unequal, the reloaded line gets a different key, and the next `add` makes a second line.
  - A value `simplejson` cannot encode (a `date`, say) makes `update_session` raise at carton/cart.py:89, after `_items_dict` was already changed at carton/cart.py:103 or 107.
  - `CartTable.RoundTrip` and "a successful `Cart.Add` writes the session" rely on this restriction.
- `int(quantity)` and `Decimal(price)` conversions of arbitrary input (carton/cart.py:21-22, 97) are left out. Quantities are taken as `int` and prices as exact `real` numbers.
- `add`'s default `quantity=1` (carton/cart.py:92) has no counterpart: `CartOps.Added` and `Cart.Add` take the quantity explicitly, and a caller relying on the default passes 1. No behaviour is lost.
- Decimal contexts (rounding, precision) are not modelled; arithmetic on prices is exact.
- `val.__dict__.update(item['key'])` (carton/cart.py:58) copies key attributes onto the loaded item. This is not modelled; the key is stored beside the item instead.
- `__repr__` (carton/cart.py:24-25) is not modelled, and neither is the laziness of the `products` generator. `products` is a finished sequence.
- In-place updates of a shared `CartItem` object (`quantity += quantity`, `quantity -= 1`) are modelled as replacing the dictionary's value. Aliasing of items held elsewhere is not captured.
- Carts.Cart.RemoveSingle: models the evidently intended `_dict2key` key. The source calls `dict2key` at carton/cart.py:125, a name the module does not define, so as written every call raises `NameError`.
- Concurrent or cross-request use of the same session is not addressed by the source and is not modelled.
