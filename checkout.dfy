/**
 * Checkout: the client sends its cart as a purchase request and clears it
 * when the server replies with success. This module ties the client's cart
 * invariant to the server's purchase check.
 */
module Checkout {
  import opened Catalog
  import Store
  import Cart

  /** The purchase request built from a cart: the fields of each line the server reads. */
  function Payload(cart: seq<Cart.CartItem>): (r: seq<Store.CartLine>)
    ensures |r| == |cart|
    ensures forall i :: 0 <= i < |r| ==>
      r[i].id == cart[i].product.id && r[i].name == cart[i].product.name && r[i].quantity == cart[i].quantity
  {
    seq(|cart|, i requires 0 <= i < |cart| => Store.CartLine(cart[i].product.id, cart[i].product.name, cart[i].quantity))
  }

  /** The cart once the purchase reply arrives: emptied on success, kept on failure. */
  function AfterReply(cart: seq<Cart.CartItem>, reply: Store.PurchaseReply): (r: seq<Cart.CartItem>)
    ensures reply.success ==> r == [] && Cart.TotalItems(r) == 0
    ensures !reply.success ==> r == cart
  {
    if reply.success then Cart.ClearCart() else cart
  }

  lemma PayloadDistinct(cart: seq<Cart.CartItem>)
    requires Cart.UniqueLineIds(cart)
    ensures Store.DistinctLineIds(Payload(cart))
  {
  }

  /**
   * A cart the page built never overdraws: when the server accepts its
   * request, every stock is still at 0 or above.
   */
  lemma ClientCartKeepsStock(inv: seq<Product>, products: seq<Product>)
    requires Store.AllStocked(inv)
    requires Store.FirstFailure(inv, Payload(Cart.Clicks(Cart.ClearCart(), products))).None?
    ensures Store.AllStocked(Store.Commit(inv, Payload(Cart.Clicks(Cart.ClearCart(), products))))
  {
    var cart := Cart.Clicks(Cart.ClearCart(), products);
    Cart.ClicksKeepValid(Cart.ClearCart(), products);
    PayloadDistinct(cart);
    Store.DistinctCartKeepsStock(inv, Payload(cart));
  }

  /** On such a cart the per-line check the server runs and the per-product check agree. */
  lemma ClientCartChecksAgree(inv: seq<Product>, products: seq<Product>)
    ensures Store.FirstShortfall(inv, Payload(Cart.Clicks(Cart.ClearCart(), products)))
         == Store.FirstFailure(inv, Payload(Cart.Clicks(Cart.ClearCart(), products)))
  {
    var cart := Cart.Clicks(Cart.ClearCart(), products);
    Cart.ClicksKeepValid(Cart.ClearCart(), products);
    PayloadDistinct(cart);
    Store.ShortfallAgreesOnDistinct(inv, Payload(cart));
  }
}
