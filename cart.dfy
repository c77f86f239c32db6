/**
 * The client's shopping cart: adding a product within its stock, clearing
 * the cart and counting the items in it. Every operation builds a new cart
 * value; none changes one in place.
 */
module Cart {
  import opened Catalog

  /** A cart line: the product as it was when first added, and how many are wanted. */
  datatype CartItem = CartItem(product: Product, quantity: int)

  /** An add either yields the new cart or leaves the cart alone with a notice. */
  datatype AddOutcome = Added(cart: seq<CartItem>) | NotEnoughStock(notice: string)

  const NotEnoughStockNotice := "Not enough stock for "

  /** The first line for product `id`. */
  function FindLine(cart: seq<CartItem>, id: string): (r: Option<nat>)
    ensures r.Some? ==>
      r.value < |cart| && cart[r.value].product.id == id &&
      forall j :: 0 <= j < r.value ==> cart[j].product.id != id
    ensures r.None? <==> forall j :: 0 <= j < |cart| ==> cart[j].product.id != id
  {
    First(cart, (item: CartItem) => item.product.id == id)
  }

  /** The quantity the first line for `id` holds, 0 when there is none. */
  function QuantityInCart(cart: seq<CartItem>, id: string): (r: int)
    ensures (forall k :: 0 <= k < |cart| ==> cart[k].product.id != id) ==> r == 0
    ensures UniqueLineIds(cart) ==> forall k :: 0 <= k < |cart| && cart[k].product.id == id ==> r == cart[k].quantity
  {
    match FindLine(cart, id)
    case Some(k) => cart[k].quantity
    case None => 0
  }

  /** Every line for `id` one item larger; the others as they were. */
  function IncrementLines(cart: seq<CartItem>, id: string): (r: seq<CartItem>)
    ensures |r| == |cart|
    ensures forall i :: 0 <= i < |r| ==> r[i].product == cart[i].product
    ensures forall i :: 0 <= i < |r| ==> r[i].quantity == cart[i].quantity + (if cart[i].product.id == id then 1 else 0)
    ensures FindLine(r, id) == FindLine(cart, id)
  {
    var r := seq(|cart|, i requires 0 <= i < |cart| =>
      if cart[i].product.id == id then cart[i].(quantity := cart[i].quantity + 1) else cart[i]);
    var byId := (item: CartItem) => item.product.id == id;
    FirstSameVerdicts(cart, byId, r, byId);
    r
  }

  /** Add one unit of `product`, refusing when the cart already holds its stock. */
  function AddToCart(cart: seq<CartItem>, product: Product): (r: AddOutcome)
    ensures r.NotEnoughStock? <==> QuantityInCart(cart, product.id) >= product.stock
    ensures r.NotEnoughStock? ==> r.notice == NotEnoughStockNotice + product.name
    ensures r.Added? && FindLine(cart, product.id).None? ==> r.cart == cart + [CartItem(product, 1)]
  {
    if QuantityInCart(cart, product.id) >= product.stock then
      NotEnoughStock(NotEnoughStockNotice + product.name)
    else if FindLine(cart, product.id).Some? then
      Added(IncrementLines(cart, product.id))
    else
      Added(cart + [CartItem(product, 1)])
  }

  /**
   * The cart after one `addToCart`: the old cart when the add is refused,
   * otherwise the one handed to `setCart`. Lines are never removed or
   * reordered, and at most one is added.
   */
  function CartAfter(cart: seq<CartItem>, product: Product): (r: seq<CartItem>)
    ensures AddToCart(cart, product).NotEnoughStock? ==> r == cart
    ensures |cart| <= |r| <= |cart| + 1
    ensures forall i :: 0 <= i < |cart| ==> r[i].product == cart[i].product
  {
    match AddToCart(cart, product)
    case Added(c) => c
    case NotEnoughStock(_) => cart
  }

  /** The number of items: the sum of the line quantities, accumulated left to right. */
  function TotalItems(cart: seq<CartItem>): (r: int)
    ensures (forall i :: 0 <= i < |cart| ==> cart[i].quantity >= 0) ==> r >= 0
    ensures (forall i :: 0 <= i < |cart| ==> cart[i].quantity >= 1) ==> r >= |cart|
    decreases |cart|
  {
    if cart == [] then 0 else TotalItems(cart[..|cart| - 1]) + cart[|cart| - 1].quantity
  }

  function ClearCart(): (r: seq<CartItem>)
    ensures |r| == 0 && TotalItems(r) == 0
  {
    []
  }

  predicate UniqueLineIds(cart: seq<CartItem>) {
    forall i, j :: 0 <= i < j < |cart| ==> cart[i].product.id != cart[j].product.id
  }

  /** The cart invariant: one line per product, each holding at least one item. */
  predicate ValidCart(cart: seq<CartItem>) {
    UniqueLineIds(cart) && forall i :: 0 <= i < |cart| ==> cart[i].quantity >= 1
  }

  // ---------------------------------------------------------------------
  // Properties of addToCart

  /** A refused add leaves the cart as it was. */
  lemma RefusedAddKeepsCart(cart: seq<CartItem>, product: Product)
    requires QuantityInCart(cart, product.id) >= product.stock
    ensures CartAfter(cart, product) == cart
  {
  }

  /** With one line per product, an add to a product already in the cart raises that line by 1 and nothing else. */
  lemma AddRaisesExistingLine(cart: seq<CartItem>, product: Product, k: nat)
    requires UniqueLineIds(cart)
    requires FindLine(cart, product.id) == Some(k)
    requires QuantityInCart(cart, product.id) < product.stock
    ensures AddToCart(cart, product) == Added(cart[k := cart[k].(quantity := cart[k].quantity + 1)])
  {
  }

  /**
   * A successful add leaves the first line for the product holding exactly one
   * more item, and no more than the stock it was checked against.
   */
  lemma AddWithinStock(cart: seq<CartItem>, product: Product)
    requires AddToCart(cart, product).Added?
    ensures QuantityInCart(AddToCart(cart, product).cart, product.id) == QuantityInCart(cart, product.id) + 1
    ensures QuantityInCart(AddToCart(cart, product).cart, product.id) <= product.stock
  {
    var after := AddToCart(cart, product).cart;
    match FindLine(cart, product.id)
    case Some(k) =>
      var inc := (item: CartItem) => item.product.id == product.id;
      FirstSameVerdicts(cart, inc, after, inc);
    case None =>
      var r := FindLine(after, product.id);
      assert after[|cart|].product.id == product.id;
      assert r.Some?;
  }

  /** Adding keeps one line per product, each with at least one item. */
  lemma AddKeepsValid(cart: seq<CartItem>, product: Product)
    requires ValidCart(cart)
    ensures ValidCart(CartAfter(cart, product))
  {
  }

  /**
   * The cart a run of clicks builds, one `addToCart` per product, from left
   * to right. The lines already there keep their place and product, and
   * each click adds at most one line.
   */
  function Clicks(cart: seq<CartItem>, products: seq<Product>): (r: seq<CartItem>)
    ensures |cart| <= |r| <= |cart| + |products|
    ensures forall i :: 0 <= i < |cart| ==> r[i].product == cart[i].product
    decreases |products|
  {
    if products == [] then cart
    else CartAfter(Clicks(cart, products[..|products| - 1]), products[|products| - 1])
  }

  /** Every cart the page can build from an empty one satisfies the cart invariant. */
  lemma {:induction false} ClicksKeepValid(cart: seq<CartItem>, products: seq<Product>)
    requires ValidCart(cart)
    ensures ValidCart(Clicks(cart, products))
    decreases |products|
  {
    if products != [] {
      var init := products[..|products| - 1];
      ClicksKeepValid(cart, init);
      AddKeepsValid(Clicks(cart, init), products[|products| - 1]);
    }
  }

  // ---------------------------------------------------------------------
  // Properties of totalItems

  lemma {:induction false} TotalItemsAppend(a: seq<CartItem>, b: seq<CartItem>)
    ensures TotalItems(a + b) == TotalItems(a) + TotalItems(b)
    decreases |b|
  {
    if b == [] {
      assert a + b == a;
    } else {
      var init := b[..|b| - 1];
      assert (a + b)[..|a + b| - 1] == a + init;
      TotalItemsAppend(a, init);
    }
  }

  /** Replacing one line changes the count by the difference of the two quantities. */
  lemma {:induction false} TotalItemsUpdate(cart: seq<CartItem>, k: nat, item: CartItem)
    requires k < |cart|
    ensures TotalItems(cart[k := item]) == TotalItems(cart) - cart[k].quantity + item.quantity
    decreases |cart|
  {
    var init := cart[..|cart| - 1];
    if k == |cart| - 1 {
      assert cart[k := item][..|cart| - 1] == init;
    } else {
      assert cart[k := item][..|cart| - 1] == init[k := item];
      TotalItemsUpdate(init, k, item);
    }
  }

  /** On a cart with one line per product, every successful add counts exactly one more item. */
  lemma AddCountsOne(cart: seq<CartItem>, product: Product)
    requires UniqueLineIds(cart)
    requires AddToCart(cart, product).Added?
    ensures TotalItems(AddToCart(cart, product).cart) == TotalItems(cart) + 1
  {
    match FindLine(cart, product.id)
    case Some(k) =>
      AddRaisesExistingLine(cart, product, k);
      TotalItemsUpdate(cart, k, cart[k].(quantity := cart[k].quantity + 1));
    case None =>
      TotalItemsAppend(cart, [CartItem(product, 1)]);
      assert [CartItem(product, 1)][..0] == [];
  }
}
