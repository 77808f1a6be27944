/**
 * Line keys of the cart (carton/cart.py:11-12, 100-101).
 *
 * A Python dict of keyword arguments is modelled by the sequence of its items
 * in insertion order; keyword names are distinct.  `_dict2key` sorts those
 * items, so the key is the sequence of pairs ordered by field name.
 */
module Keys {
  import opened Wrappers

  /** A keyword-argument value: a product primary key or a variant attribute. */
  datatype Value = Int(i: int) | Str(s: string)

  type Pair = (string, Value)

  /** The result of `_dict2key`: a tuple of (field, value) pairs. */
  type Key = seq<Pair>

  /** The reserved field that holds the product's primary key. */
  const PK_FIELD: string := "_pk"

  /** Python's `<` on str: code-point lexicographic order, a proper prefix first. */
  predicate StrLt(a: string, b: string)
  {
    if a == [] then b != []
    else if b == [] then false
    else if a[0] != b[0] then a[0] < b[0]
    else StrLt(a[1..], b[1..])
  }

  lemma {:induction false} StrLtIrreflexive(a: string)
    ensures !StrLt(a, a)
  {
    if a != [] {
      StrLtIrreflexive(a[1..]);
    }
  }

  lemma {:induction false} StrLtTransitive(a: string, b: string, c: string)
    requires StrLt(a, b) && StrLt(b, c)
    ensures StrLt(a, c)
  {
    if a != [] && a[0] == b[0] && b[0] == c[0] {
      StrLtTransitive(a[1..], b[1..], c[1..]);
    }
  }

  lemma {:induction false} StrLtTotal(a: string, b: string)
    requires a != b
    ensures StrLt(a, b) || StrLt(b, a)
  {
    if a != [] && b != [] && a[0] == b[0] {
      assert a == [a[0]] + a[1..] && b == [b[0]] + b[1..];
      StrLtTotal(a[1..], b[1..]);
    }
  }

  /** The items of a Python dict: no field name occurs twice. */
  ghost predicate DistinctFields(d: seq<Pair>)
  {
    forall i, j | 0 <= i < j < |d| :: d[i].0 != d[j].0
  }

  /** Ordered strictly by field name, as `sorted` leaves distinct fields. */
  ghost predicate StrictlySorted(k: seq<Pair>)
  {
    forall i, j | 0 <= i < j < |k| :: StrLt(k[i].0, k[j].0)
  }

  lemma SortedHasDistinctFields(k: seq<Pair>)
    requires StrictlySorted(k)
    ensures DistinctFields(k)
  {
    forall i, j | 0 <= i < j < |k| ensures k[i].0 != k[j].0 {
      StrLtIrreflexive(k[i].0);
    }
  }

  /** `d[f]` in Python, with `None` for a missing field. */
  function Lookup(d: seq<Pair>, f: string): (r: Option<Value>)
    ensures r.Some? ==> (f, r.value) in d
    ensures r.None? ==> forall p | p in d :: p.0 != f
  {
    if d == [] then None
    else if d[0].0 == f then Some(d[0].1)
    else Lookup(d[1..], f)
  }

  /** In a dict, a pair is present exactly when looking up its field gives its value. */
  lemma LookupFindsPair(d: seq<Pair>, p: Pair)
    requires DistinctFields(d)
    ensures p in d <==> Lookup(d, p.0) == Some(p.1)
  {
    var r := Lookup(d, p.0);
    if p in d && r.Some? {
      var i :| 0 <= i < |d| && d[i] == p;
      var j :| 0 <= j < |d| && d[j] == (p.0, r.value);
      assert i == j;
    }
  }

  /** Two dicts with the same pairs answer every lookup alike. */
  lemma SamePairsSameLookup(a: seq<Pair>, b: seq<Pair>, f: string)
    requires DistinctFields(a) && DistinctFields(b)
    requires forall p :: p in a <==> p in b
    ensures Lookup(a, f) == Lookup(b, f)
  {
    var ra, rb := Lookup(a, f), Lookup(b, f);
    if ra.Some? {
      LookupFindsPair(b, (f, ra.value));
    } else if rb.Some? {
      LookupFindsPair(a, (f, rb.value));
    }
  }

  /** A pair whose field precedes the first of a sorted sequence can go in front of it. */
  lemma {:induction false} SortedCons(p: Pair, s: seq<Pair>)
    requires StrictlySorted(s)
    requires s != [] ==> StrLt(p.0, s[0].0)
    ensures StrictlySorted([p] + s)
  {
    forall i, j | 0 <= i < j < |s| + 1 ensures StrLt(([p] + s)[i].0, ([p] + s)[j].0) {
      if i == 0 && j > 1 {
        StrLtTransitive(p.0, s[0].0, s[j - 1].0);
      }
    }
  }

  /** Inserts one pair into a strictly sorted sequence at its place. */
  function Insert(p: Pair, s: seq<Pair>): (r: seq<Pair>)
    requires StrictlySorted(s)
    requires forall q | q in s :: q.0 != p.0
    ensures StrictlySorted(r)
    ensures multiset(r) == multiset(s) + multiset{p}
  {
    if s == [] then [p]
    else if StrLt(p.0, s[0].0) then
      SortedCons(p, s);
      [p] + s
    else
      var t := Insert(p, s[1..]);
      assert s == [s[0]] + s[1..];
      assert StrLt(s[0].0, t[0].0) by {
        StrLtTotal(p.0, s[0].0);
        assert t[0] in multiset(t);
        if t[0] != p {
          assert t[0] in s[1..];
        }
      }
      SortedCons(s[0], t);
      [s[0]] + t
  }

  /**
   * `_dict2key(dct)`: `tuple(sorted(dct.items()))`.  The result is ordered
   * strictly by field name and holds exactly the items of the dict.
   */
  function Dict2Key(d: seq<Pair>): (k: Key)
    requires DistinctFields(d)
    ensures StrictlySorted(k)
    ensures multiset(k) == multiset(d)
  {
    if d == [] then []
    else
      DistinctFieldsTail(d);
      var rest := Dict2Key(d[1..]);
      FirstFieldFresh(d, rest);
      var k := Insert(d[0], rest);
      assert multiset(k) == multiset(d) by {
        assert d == [d[0]] + d[1..];
      }
      k
  }

  /** Dropping the first pair keeps the field names distinct. */
  lemma DistinctFieldsTail(d: seq<Pair>)
    requires d != [] && DistinctFields(d)
    ensures DistinctFields(d[1..])
  {
    forall i, j | 0 <= i < j < |d| - 1 ensures d[1..][i].0 != d[1..][j].0 {
      assert d[1..][i] == d[i + 1] && d[1..][j] == d[j + 1];
    }
  }

  /** The first field name occurs in no pair that holds the rest of the pairs. */
  lemma FirstFieldFresh(d: seq<Pair>, rest: seq<Pair>)
    requires d != [] && DistinctFields(d)
    requires multiset(rest) == multiset(d[1..])
    ensures forall q | q in rest :: q.0 != d[0].0
  {
    forall q | q in rest ensures q.0 != d[0].0 {
      assert q in multiset(d[1..]);
    }
  }

  /** Two strictly sorted sequences with the same pairs are equal. */
  lemma {:induction false} StrictlySortedUnique(x: seq<Pair>, y: seq<Pair>)
    requires StrictlySorted(x) && StrictlySorted(y)
    requires forall p :: p in x <==> p in y
    ensures x == y
  {
    if x != [] {
      assert x[0] in y;
    }
    if y != [] {
      assert y[0] in x;
    }
    if x != [] && y != [] {
      assert x[0] in x && y[0] in y;
      if x[0] != y[0] {
        var j :| 0 <= j < |y| && y[j] == x[0];
        var i :| 0 <= i < |x| && x[i] == y[0];
        assert StrLt(y[0].0, x[0].0) && StrLt(x[0].0, y[0].0);
        StrLtTransitive(x[0].0, y[0].0, x[0].0);
        StrLtIrreflexive(x[0].0);
        assert false;
      }
      StrLtIrreflexive(x[0].0);
      forall p | p in x[1..] ensures p in y[1..] {
        var i :| 1 <= i < |x| && x[i] == p;
        assert StrLt(x[0].0, x[i].0) && p in x;
        var j :| 0 <= j < |y| && y[j] == p;
        assert j != 0;
        assert y[j] in y[1..];
      }
      forall p | p in y[1..] ensures p in x[1..] {
        var j :| 1 <= j < |y| && y[j] == p;
        assert StrLt(y[0].0, y[j].0) && p in y;
        var i :| 0 <= i < |x| && x[i] == p;
        assert i != 0;
        assert x[i] in x[1..];
      }
      StrictlySortedUnique(x[1..], y[1..]);
    }
  }

  /**
   * Order independence of `_dict2key`: dicts with the same pairs, built in
   * any insertion order, give the same key.
   */
  lemma Dict2KeyOrderIndependent(a: seq<Pair>, b: seq<Pair>)
    requires DistinctFields(a) && DistinctFields(b)
    requires forall p :: p in a <==> p in b
    ensures Dict2Key(a) == Dict2Key(b)
  {
    var ka, kb := Dict2Key(a), Dict2Key(b);
    forall p ensures p in ka <==> p in kb {
      assert p in ka <==> p in multiset(ka);
      assert p in multiset(a) <==> p in a;
      assert p in kb <==> p in multiset(kb);
      assert p in multiset(b) <==> p in b;
    }
    StrictlySortedUnique(ka, kb);
  }

  /** A key that is already sorted is its own canonical form. */
  lemma Dict2KeyOfSorted(k: seq<Pair>)
    requires StrictlySorted(k)
    ensures DistinctFields(k)
    ensures Dict2Key(k) == k
  {
    SortedHasDistinctFields(k);
    var r := Dict2Key(k);
    forall p ensures p in r <==> p in k {
      assert p in r <==> p in multiset(r);
    }
    StrictlySortedUnique(r, k);
  }

  /** Sorting keeps every lookup: the key answers `key['f']` as the dict did. */
  lemma Dict2KeyLookup(d: seq<Pair>, f: string)
    requires DistinctFields(d)
    ensures Lookup(Dict2Key(d), f) == Lookup(d, f)
  {
    var k := Dict2Key(d);
    SortedHasDistinctFields(k);
    forall p ensures p in k <==> p in d {
      assert p in k <==> p in multiset(k);
    }
    SamePairsSameLookup(k, d, f);
  }

  /**
   * `kargs['_pk'] = product.pk`: assignment into the keyword dict.  An
   * existing `_pk` entry is overwritten in place, otherwise the entry is
   * appended.
   */
  function WithPk(attrs: seq<Pair>, pk: Value): (d: seq<Pair>)
    requires DistinctFields(attrs)
    ensures DistinctFields(d)
    ensures forall p :: p in d <==> p == (PK_FIELD, pk) || (p in attrs && p.0 != PK_FIELD)
  {
    if attrs == [] then [(PK_FIELD, pk)]
    else if attrs[0].0 == PK_FIELD then
      assert forall p | p in attrs[1..] :: p.0 != PK_FIELD;
      assert attrs == [attrs[0]] + attrs[1..];
      [(PK_FIELD, pk)] + attrs[1..]
    else
      var rest := WithPk(attrs[1..], pk);
      assert forall p | p in rest :: p.0 != attrs[0].0;
      assert attrs == [attrs[0]] + attrs[1..];
      [attrs[0]] + rest
  }

  /** A canonical line key: sorted by field and carrying `_pk`. */
  ghost predicate Canonical(k: Key)
  {
    StrictlySorted(k) && Lookup(k, PK_FIELD).Some?
  }

  /**
   * The key computed by `add`, `remove` and `remove_single` for a product
   * with primary key `pk` and the variant attributes `attrs`
   * (carton/cart.py:100-101, 114-115, 124-125).
   */
  function LineKey(attrs: seq<Pair>, pk: Value): (k: Key)
    requires DistinctFields(attrs)
    ensures Canonical(k) && Lookup(k, PK_FIELD) == Some(pk)
    ensures forall p :: p in k <==> p == (PK_FIELD, pk) || (p in attrs && p.0 != PK_FIELD)
  {
    var d := WithPk(attrs, pk);
    var k := Dict2Key(d);
    assert forall p :: p in k <==> p in d by {
      forall p ensures p in k <==> p in d {
        assert p in k <==> p in multiset(k);
      }
    }
    Dict2KeyLookup(d, PK_FIELD);
    LookupFindsPair(d, (PK_FIELD, pk));
    k
  }

  /**
   * Calls that name the same primary key and the same variant attributes
   * address the same line, whatever order the attributes were given in (a
   * caller's own `_pk` attribute is overwritten, so it does not matter).
   */
  lemma LineKeySameAttributes(a: seq<Pair>, b: seq<Pair>, pk: Value)
    requires DistinctFields(a) && DistinctFields(b)
    requires forall f | f != PK_FIELD :: Lookup(a, f) == Lookup(b, f)
    ensures LineKey(a, pk) == LineKey(b, pk)
  {
    var ka, kb := LineKey(a, pk), LineKey(b, pk);
    forall p ensures p in ka <==> p in kb {
      LookupFindsPair(a, p);
      LookupFindsPair(b, p);
    }
    StrictlySortedUnique(ka, kb);
  }

  /**
   * Distinct variants are distinct lines: equal keys mean the same primary
   * key and the same value (or absence) for every other attribute.
   */
  lemma LineKeyDistinguishes(a: seq<Pair>, pa: Value, b: seq<Pair>, pb: Value, f: string)
    requires DistinctFields(a) && DistinctFields(b)
    requires LineKey(a, pa) == LineKey(b, pb)
    ensures pa == pb
    ensures f != PK_FIELD ==> Lookup(a, f) == Lookup(b, f)
  {
    var k := LineKey(a, pa);
    if f != PK_FIELD {
      var ra, rb := Lookup(a, f), Lookup(b, f);
      if ra.Some? {
        assert (f, ra.value) in k;
        LookupFindsPair(b, (f, ra.value));
      } else if rb.Some? {
        assert (f, rb.value) in k;
        LookupFindsPair(a, (f, rb.value));
      }
    }
  }
}
