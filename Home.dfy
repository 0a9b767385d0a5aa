/**
 * The cart operations of the home page (the product list): adding a product
 * to the cart, removing a quantity of it, and dropping a deleted product from
 * the page's product list.
 */
module Home {
  import opened Wrappers
  import opened CartStore

  /**
   * The cart after adding `p` once: an existing entry for `p.id` gains one
   * unit and keeps its stored snapshot; otherwise `{p, 1}` is inserted.
   */
  function Add(c: Cart, p: Product): (r: Cart)
    ensures p.id in r
    ensures p.id in c ==> r[p.id] == Entry(c[p.id].product, c[p.id].quantity + 1)
    ensures p.id !in c ==> r[p.id] == Entry(p, 1)
    ensures forall k :: k != p.id ==> (k in r <==> k in c)
    ensures forall k :: k != p.id && k in c ==> r[k] == c[k]
    ensures WellFormed(c) ==> WellFormed(r)
  {
    if p.id in c then
      var e := c[p.id];
      c[p.id := e.(quantity := e.quantity + 1)]
    else
      c[p.id := Entry(p, 1)]
  }

  /**
   * The cart after taking `q` units of product `id` out of it: an absent id
   * changes nothing; a quantity that falls to zero or below deletes the entry;
   * otherwise the entry keeps its product with `q` fewer units.
   */
  function Remove(c: Cart, id: string, q: int): (r: Cart)
    ensures id !in c ==> r == c
    ensures id in c && c[id].quantity - q <= 0 ==> id !in r
    ensures id in c && c[id].quantity - q > 0 ==> id in r && r[id] == Entry(c[id].product, c[id].quantity - q)
    ensures forall k :: k != id ==> (k in r <==> k in c)
    ensures forall k :: k != id && k in c ==> r[k] == c[k]
    ensures WellFormed(c) ==> WellFormed(r)
  {
    if id !in c then c
    else
      var e := c[id];
      if e.quantity - q <= 0 then c - {id}
      else c[id := e.(quantity := e.quantity - q)]
  }

  /** Adding one unit and then removing one unit gives back a well-formed cart unchanged. */
  lemma AddThenRemoveOne(c: Cart, p: Product)
    requires WellFormed(c)
    ensures Remove(Add(c, p), p.id, 1) == c
  {
  }

  /** The product list without the products whose id is `id`, in their original order. */
  function WithoutId(ps: seq<Product>, id: string): (r: seq<Product>)
    ensures forall p :: p in r <==> p in ps && p.id != id
    ensures |r| <= |ps|
  {
    if ps == [] then []
    else if ps[0].id != id then [ps[0]] + WithoutId(ps[1..], id)
    else WithoutId(ps[1..], id)
  }

  /** Filtering a concatenation filters each part: the kept products stay in their relative order. */
  lemma {:induction false} WithoutIdAppend(a: seq<Product>, b: seq<Product>, id: string)
    ensures WithoutId(a + b, id) == WithoutId(a, id) + WithoutId(b, id)
  {
    if a != [] {
      assert (a + b)[1..] == a[1..] + b;
      WithoutIdAppend(a[1..], b, id);
    } else {
      assert a + b == b;
    }
  }

  /** Every product with another id is kept as many times as it occurred; none with `id` is kept. */
  lemma {:induction false} WithoutIdCounts(ps: seq<Product>, id: string, p: Product)
    ensures multiset(WithoutId(ps, id))[p] == if p.id == id then 0 else multiset(ps)[p]
  {
    if ps != [] {
      assert ps == [ps[0]] + ps[1..];
      WithoutIdCounts(ps[1..], id, p);
    }
  }

  /** A list holding no product with `id` is left as it is. */
  lemma {:induction false} WithoutIdNoMatch(ps: seq<Product>, id: string)
    requires forall i :: 0 <= i < |ps| ==> ps[i].id != id
    ensures WithoutId(ps, id) == ps
  {
    if ps != [] {
      WithoutIdNoMatch(ps[1..], id);
      assert ps == [ps[0]] + ps[1..];
    }
  }

  /** The home page: its product list and the shared local storage holding the cart. */
  class HomePage {
    var products: seq<Product>
    const storage: Storage

    constructor (storage: Storage)
      ensures this.storage == storage && products == []
    {
      this.storage := storage;
      products := [];
    }

    /** The handler confirmed in `addToCart`: read the cart, add one unit of `product`, write the whole cart back. */
    method AddToCart(product: Product)
      modifies storage
      ensures storage.cart == Some(Add(Load(old(storage.cart)), product))
      ensures WellFormedBlob(old(storage.cart)) ==> WellFormedBlob(storage.cart)
    {
      var cart := Load(storage.cart);
      if product.id in cart {
        var e := cart[product.id];
        cart := cart[product.id := e.(quantity := e.quantity + 1)];
      } else {
        cart := cart[product.id := Entry(product, 1)];
      }
      storage.cart := Some(cart);
    }

    /**
     * `removeFromCart`: when the product is in the cart, take `quantity`
     * units off (deleting the entry at zero or below) and write the cart
     * back; when it is not, write nothing.
     */
    method RemoveFromCart(product: Product, quantity: int)
      modifies storage
      ensures product.id !in Load(old(storage.cart)) ==> storage.cart == old(storage.cart)
      ensures product.id in Load(old(storage.cart)) ==>
                storage.cart == Some(Remove(Load(old(storage.cart)), product.id, quantity))
      ensures WellFormedBlob(old(storage.cart)) ==> WellFormedBlob(storage.cart)
    {
      var cart := Load(storage.cart);
      if product.id in cart {
        var e := cart[product.id];
        cart := cart[product.id := e.(quantity := e.quantity - quantity)];
        if cart[product.id].quantity <= 0 {
          assert cart - {product.id} == Load(old(storage.cart)) - {product.id};
          cart := cart - {product.id};
        }
        storage.cart := Some(cart);
      }
    }

    /** The list update after the product's document was deleted: drop every product with its id. */
    method ForgetDeletedProduct(product: Product)
      modifies this`products
      ensures products == WithoutId(old(products), product.id)
      ensures forall i :: 0 <= i < |products| ==> products[i].id != product.id
    {
      products := WithoutId(products, product.id);
    }
  }
}
