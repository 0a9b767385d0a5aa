/**
 * The cart page: it shows the stored cart as a list of entries, clears the
 * cart, and removes whole entries from it.
 */
module CartView {
  import opened Wrappers
  import opened CartStore

  /** `s` lists the values of `m`, each as often as it occurs, in some order. */
  ghost predicate ListsValues(s: seq<Entry>, m: Cart)
  {
    |s| == |m| && multiset(s) == ValuesMultiset(m)
  }

  /** An entry is listed exactly when it is the value of some key. */
  lemma ListsValuesHas(s: seq<Entry>, m: Cart, e: Entry)
    requires ListsValues(s, m)
    ensures e in s <==> e in m.Values
  {
    ValuesMultisetHas(m, e);
    assert e in s <==> e in multiset(s);
  }

  /** An element found at two positions is counted at least twice. */
  lemma CountsRepeat(s: seq<Entry>, i: int, j: int)
    requires 0 <= i < j < |s|
    ensures s[i] == s[j] ==> multiset(s)[s[i]] >= 2
  {
    assert s == s[..i] + [s[i]] + s[i + 1..j] + [s[j]] + s[j + 1..];
  }

  /** Listing a well-formed cart shows each product once. */
  lemma ListsValuesDistinct(s: seq<Entry>, m: Cart, i: int, j: int)
    requires WellFormed(m) && ListsValues(s, m)
    requires 0 <= i < j < |s|
    ensures s[i].product.id != s[j].product.id
  {
    ListsValuesHas(s, m, s[i]);
    ListsValuesHas(s, m, s[j]);
    ValuesMultisetUnique(m, s[i]);
    CountsRepeat(s, i, j);
    var ki :| ki in m && m[ki] == s[i];
    var kj :| kj in m && m[kj] == s[j];
    assert s[i] == m[s[i].product.id] && s[j] == m[s[j].product.id];
  }

  /** `Object.values`: the values of a cart in some key order (the order is not specified). */
  method ValuesOf(m: Cart) returns (vs: seq<Entry>)
    ensures ListsValues(vs, m)
  {
    vs := [];
    var rest := m;
    while rest != map[]
      invariant |vs| + |rest| == |m|
      invariant multiset(vs) + ValuesMultiset(rest) == ValuesMultiset(m)
      decreases |rest|
    {
      var k :| k in rest;
      ValuesMultisetRemove(rest, k);
      vs := vs + [rest[k]];
      rest := rest - {k};
    }
  }

  /** The entry with key `id` taken out of the cart, whatever its quantity. */
  function DropEntry(c: Cart, id: string): (r: Cart)
    ensures id !in r
    ensures forall k :: k != id ==> (k in r <==> k in c)
    ensures forall k :: k != id && k in c ==> r[k] == c[k]
    ensures WellFormed(c) ==> WellFormed(r)
  {
    c - {id}
  }

  /** The cart page: the entries it displays, its loading flag, and the shared local storage. */
  class CartPage {
    var cartProducts: seq<Entry>
    var loading: bool
    const storage: Storage

    constructor (storage: Storage)
      ensures this.storage == storage && cartProducts == [] && !loading
    {
      this.storage := storage;
      cartProducts := [];
      loading := false;
    }

    /** `getCart`: show the stored entries, or none when no blob is stored; loading ends false. */
    method GetCart()
      modifies this`cartProducts, this`loading
      ensures !loading
      ensures storage.cart.None? ==> cartProducts == []
      ensures storage.cart.Some? ==> ListsValues(cartProducts, storage.cart.value)
    {
      loading := true;
      if storage.cart.Some? {
        cartProducts := ValuesOf(storage.cart.value);
      } else {
        cartProducts := [];
      }
      loading := false;
    }

    /** `clearCart`: remove the stored blob and show no entries. */
    method ClearCart()
      modifies storage, this`cartProducts
      ensures storage.cart.None? && Load(storage.cart) == map[]
      ensures cartProducts == []
    {
      storage.cart := None;
      cartProducts := [];
    }

    /**
     * `removeFromCart`: with a stored blob, delete the whole entry of
     * `product` (the `quantity` argument is not used), write the cart back and
     * refresh the displayed list; with no blob, do nothing.
     */
    method RemoveFromCart(product: Product, quantity: int)
      modifies storage, this`cartProducts, this`loading
      ensures old(storage.cart).None? ==>
                storage.cart.None? && cartProducts == old(cartProducts) && loading == old(loading)
      ensures old(storage.cart).Some? ==>
                && storage.cart == Some(DropEntry(old(storage.cart).value, product.id))
                && ListsValues(cartProducts, storage.cart.value)
                && !loading
      ensures WellFormedBlob(old(storage.cart)) ==> WellFormedBlob(storage.cart)
    {
      if storage.cart.Some? {
        var cartObject := storage.cart.value;
        cartObject := cartObject - {product.id};
        storage.cart := Some(cartObject);
        GetCart();
      }
    }
  }
}
