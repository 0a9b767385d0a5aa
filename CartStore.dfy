/** Option, standing for "the local-storage key may be absent". */
module Wrappers {
  datatype Option<+T> = None | Some(value: T)
}

/**
 * The local shopping-cart store shared by the home page and the cart page:
 * a map from product id to (product snapshot, quantity), persisted as one
 * serialised blob under the key 'cart' of the browser's local storage.
 * Serialising and parsing the blob is modelled as an exact round trip, so
 * the storage slot holds the map itself.
 */
module CartStore {
  import opened Wrappers

  /** A product as the remote database hands it to the pages; only `id` matters to the cart. */
  datatype Product = Product(id: string, name: string, image: string, price: real)

  /** One cart entry: the product snapshot taken when it was first added, and its quantity. */
  datatype Entry = Entry(product: Product, quantity: int)

  /** The parsed cart object: product id to entry. */
  type Cart = map<string, Entry>

  /** The cart invariant: every entry sits under its own product's id and has quantity at least 1. */
  ghost predicate WellFormed(c: Cart)
  {
    forall k :: k in c ==> c[k].quantity >= 1 && c[k].product.id == k
  }

  /** The stored blob is absent or holds a well-formed cart. */
  ghost predicate WellFormedBlob(blob: Option<Cart>)
  {
    blob.Some? ==> WellFormed(blob.value)
  }

  /** `getCart` of the home page: the stored cart, or the empty cart when no blob is stored. */
  function Load(blob: Option<Cart>): (c: Cart)
    ensures blob.None? ==> c == map[]
    ensures blob.Some? ==> c == blob.value
    ensures WellFormedBlob(blob) ==> WellFormed(c)
  {
    match blob
    case None => map[]
    case Some(m) => m
  }

  /** The browser's local storage, reduced to its 'cart' key (None: the key is absent). */
  class Storage {
    var cart: Option<Cart>

    constructor (blob: Option<Cart>)
      ensures cart == blob
    {
      cart := blob;
    }
  }

  /**
   * The values of a cart counted with multiplicity, independently of any key
   * order (the order `Object.values` yields is left unspecified).
   */
  ghost function ValuesMultiset(m: Cart): multiset<Entry>
    decreases |m|
  {
    if m == map[] then multiset{}
    else
      var k :| k in m;
      ValuesMultiset(m - {k}) + multiset{m[k]}
  }

  /** Any key may be taken out first: the multiset of values does not depend on the order of keys. */
  lemma {:induction false} ValuesMultisetRemove(m: Cart, k: string)
    requires k in m
    ensures ValuesMultiset(m) == ValuesMultiset(m - {k}) + multiset{m[k]}
    decreases |m|
  {
    var j :| j in m && ValuesMultiset(m) == ValuesMultiset(m - {j}) + multiset{m[j]};
    if j != k {
      assert (m - {j}) - {k} == (m - {k}) - {j};
      ValuesMultisetRemove(m - {j}, k);
      ValuesMultisetRemove(m - {k}, j);
    }
  }

  /** There are as many values as keys. */
  lemma {:induction false} ValuesMultisetSize(m: Cart)
    ensures |ValuesMultiset(m)| == |m|
    decreases |m|
  {
    if m != map[] {
      var k :| k in m;
      ValuesMultisetRemove(m, k);
      ValuesMultisetSize(m - {k});
    }
  }

  /** An entry is counted exactly when it is the value of some key. */
  lemma {:induction false} ValuesMultisetHas(m: Cart, e: Entry)
    ensures e in ValuesMultiset(m) <==> e in m.Values
    decreases |m|
  {
    if m != map[] {
      var k :| k in m;
      ValuesMultisetRemove(m, k);
      ValuesMultisetHas(m - {k}, e);
      assert m.Values == (m - {k}).Values + {m[k]} by {
        forall v | v in m.Values ensures v in (m - {k}).Values + {m[k]} {
          var j :| j in m && m[j] == v;
          if j != k { assert (m - {k})[j] == v; }
        }
      }
    }
  }

  /** In a well-formed cart no entry occurs twice: each is the value of exactly one key. */
  lemma {:induction false} ValuesMultisetUnique(m: Cart, e: Entry)
    requires WellFormed(m)
    ensures ValuesMultiset(m)[e] == if e in m.Values then 1 else 0
    decreases |m|
  {
    if m == map[] {
    } else {
      var k :| k in m;
      ValuesMultisetRemove(m, k);
      ValuesMultisetUnique(m - {k}, e);
      ValuesMultisetHas(m, e);
      ValuesMultisetHas(m - {k}, e);
      if e == m[k] {
        forall j | j in m - {k} ensures (m - {k})[j] != e {
          assert (m - {k})[j].product.id == j != k;
        }
      }
    }
  }
}
