/**
 * The stored cart under any sequence of the user actions of both pages, each
 * applied atomically and in order to the blob in local storage.
 */
module CartHistory {
  import opened Wrappers
  import opened CartStore
  import Home
  import CartView

  /** The actions that change the stored cart. */
  datatype Action =
    | AddToCart(product: Product)                       // home page, confirmed add
    | RemoveFromHome(product: Product, quantity: int)   // home page, partial removal
    | RemoveFromCartPage(product: Product, quantity: int) // cart page, whole-entry removal
    | ClearCart                                         // cart page, confirmed clear

  /** The stored blob after one action, as the pages' methods leave it. */
  function Step(blob: Option<Cart>, a: Action): (r: Option<Cart>)
    ensures WellFormedBlob(blob) ==> WellFormedBlob(r)
    ensures a.AddToCart? ==> r.Some? && a.product.id in r.value
    ensures a.RemoveFromHome? && a.product.id !in Load(blob) ==> r == blob
    ensures a.RemoveFromCartPage? ==> r.Some? == blob.Some? && a.product.id !in Load(r)
    ensures a.ClearCart? ==> Load(r) == map[]
  {
    match a
    case AddToCart(p) => Some(Home.Add(Load(blob), p))
    case RemoveFromHome(p, q) =>
      if p.id in Load(blob) then Some(Home.Remove(Load(blob), p.id, q)) else blob
    case RemoveFromCartPage(p, _) =>
      if blob.None? then None else Some(CartView.DropEntry(blob.value, p.id))
    case ClearCart => None
  }

  /** The stored blob after the actions, applied left to right. */
  function Run(blob: Option<Cart>, actions: seq<Action>): Option<Cart>
    decreases |actions|
  {
    if actions == [] then blob else Run(Step(blob, actions[0]), actions[1..])
  }

  /** `n` copies of one action. */
  function Repeat(a: Action, n: nat): (r: seq<Action>)
    ensures |r| == n && forall i :: 0 <= i < n ==> r[i] == a
  {
    if n == 0 then [] else [a] + Repeat(a, n - 1)
  }

  /** Whatever the actions, a cart that starts well formed stays well formed. */
  lemma {:induction false} RunPreservesWellFormed(blob: Option<Cart>, actions: seq<Action>)
    requires WellFormedBlob(blob)
    ensures WellFormedBlob(Run(blob, actions))
    decreases |actions|
  {
    if actions != [] {
      RunPreservesWellFormed(Step(blob, actions[0]), actions[1..]);
    }
  }

  /**
   * Adding `p` n times leaves one entry for `p.id`, with the snapshot stored
   * first and n more units, and every other key as it was.
   */
  lemma {:induction false} AddRepeatedly(blob: Option<Cart>, p: Product, n: nat)
    requires n >= 1
    ensures var c, r := Load(blob), Load(Run(blob, Repeat(AddToCart(p), n)));
            && p.id in r
            && r[p.id].product == (if p.id in c then c[p.id].product else p)
            && r[p.id].quantity == (if p.id in c then c[p.id].quantity else 0) + n
            && (forall k :: k != p.id ==> (k in r <==> k in c))
            && (forall k :: k != p.id && k in c ==> r[k] == c[k])
    decreases n
  {
    var next := Step(blob, AddToCart(p));
    assert Repeat(AddToCart(p), n)[1..] == Repeat(AddToCart(p), n - 1);
    if n > 1 {
      AddRepeatedly(next, p, n - 1);
    }
  }

  /** Adding `p` n times and then removing n units from the home page gives back the cart that was loaded. */
  lemma AddNThenRemoveN(blob: Option<Cart>, p: Product, n: nat)
    requires WellFormedBlob(blob)
    ensures Load(Step(Run(blob, Repeat(AddToCart(p), n)), RemoveFromHome(p, n))) == Load(blob)
  {
    var c := Load(blob);
    var r := Load(Step(Run(blob, Repeat(AddToCart(p), n)), RemoveFromHome(p, n)));
    if n >= 1 {
      AddRepeatedly(blob, p, n);
    } else {
      assert Run(blob, Repeat(AddToCart(p), n)) == blob;
    }
    if p.id in c {
      assert r[p.id] == c[p.id];
    }
    assert r.Keys == c.Keys;
  }

  /**
   * The home page's partial removal and the cart page's whole-entry removal
   * leave the same blob exactly when the product is not in the cart or the
   * removed quantity covers the stored one.
   */
  lemma RemovalsAgree(blob: Option<Cart>, p: Product, q: int, q': int)
    ensures Step(blob, RemoveFromHome(p, q)) == Step(blob, RemoveFromCartPage(p, q'))
            <==> p.id !in Load(blob) || q >= Load(blob)[p.id].quantity
  {
    if blob.Some? && p.id !in blob.value {
      assert blob.value - {p.id} == blob.value;
    }
  }
}
