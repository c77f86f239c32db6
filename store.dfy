/**
 * The backend's in-memory store: the product inventory and the list of
 * registered identities, and the purchase, register and login handlers
 * that act on them.
 */
module Store {
  import opened Catalog

  /** What the server reads from each line of a purchase request. */
  datatype CartLine = CartLine(id: string, name: string, quantity: int)

  /** The purchase reply; `broadcast` records whether the new inventory is pushed to every client. */
  datatype PurchaseReply = PurchaseReply(success: bool, message: string, broadcast: bool)

  /** The reply to register and login. */
  datatype AuthReply = AuthOk(user: User) | AuthFail(message: string)

  const PurchaseSuccessful := "Purchase successful!"
  const InsufficientStock := "Insufficient stock for "
  const IdentityExists := "Identity already exists in the Aether."
  const IdentityNotFound := "Identity not found."

  /** The inventory the server starts with. */
  const SeedInventory: seq<Product> := [
    Product("1", "Quantum Core", 999.99, 12,
      "https://images.unsplash.com/photo-1550751827-4bd374c3f58b?auto=format&fit=crop&q=80&w=500", "Tech"),
    Product("2", "Neural Link V2", 1499.00, 5,
      "https://images.unsplash.com/photo-1518770660439-4636190af475?auto=format&fit=crop&q=80&w=500", "Cyber"),
    Product("3", "HyperDrive SSD", 299.50, 154,
      "https://images.unsplash.com/photo-1597872200969-2b65d56bd16b?auto=format&fit=crop&q=80&w=500", "Hardware"),
    Product("4", "Plasmic Capacitor", 450.00, 23,
      "https://images.unsplash.com/photo-1614729939124-032f0b56c9ce?auto=format&fit=crop&q=80&w=500", "Energy")
  ]

  // ---------------------------------------------------------------------
  // Inventory lookups and the purchase check

  /** The first product carrying `id`. */
  function FindProduct(inv: seq<Product>, id: string): (r: Option<nat>)
    ensures r.Some? ==> r.value < |inv| && inv[r.value].id == id && forall j :: 0 <= j < r.value ==> inv[j].id != id
    ensures r.None? <==> forall j :: 0 <= j < |inv| ==> inv[j].id != id
  {
    First(inv, (p: Product) => p.id == id)
  }

  /** Product `k` is the first carrying `id`. */
  predicate FirstWithId(inv: seq<Product>, k: nat, id: string)
    requires k < |inv|
  {
    inv[k].id == id && forall j :: 0 <= j < k ==> inv[j].id != id
  }

  /** Lookups by id see only the ids, so changing other fields does not move them. */
  lemma FindProductSameIds(a: seq<Product>, b: seq<Product>, id: string)
    requires |a| == |b|
    requires forall j :: 0 <= j < |a| ==> a[j].id == b[j].id
    ensures FindProduct(a, id) == FindProduct(b, id)
  {
  }

  /** A line passes the first pass: its product exists and holds at least the quantity asked for. */
  predicate LineFits(inv: seq<Product>, line: CartLine)
    ensures LineFits(inv, line) <==> exists k :: 0 <= k < |inv| && FirstWithId(inv, k, line.id) && inv[k].stock >= line.quantity
  {
    match FindProduct(inv, line.id)
    case None => false
    case Some(k) => !(inv[k].stock < line.quantity)
  }

  /** The first line, in cart order, that fails the first pass. */
  function FirstFailure(inv: seq<Product>, cart: seq<CartLine>): (r: Option<nat>)
    ensures r.Some? ==> r.value < |cart| && !LineFits(inv, cart[r.value]) && forall j :: 0 <= j < r.value ==> LineFits(inv, cart[j])
    ensures r.None? <==> forall j :: 0 <= j < |cart| ==> LineFits(inv, cart[j])
  {
    First(cart, (line: CartLine) => !LineFits(inv, line))
  }

  // ---------------------------------------------------------------------
  // The commit pass

  /** One step of the second pass: the first product with the line's id loses the line's quantity. */
  function Decrement(inv: seq<Product>, line: CartLine): (r: seq<Product>)
    ensures OnlyStockChanged(inv, r)
  {
    match FindProduct(inv, line.id)
    case None => inv
    case Some(k) => inv[k := inv[k].(stock := inv[k].stock - line.quantity)]
  }

  /** Product `k` loses the line's quantity if it is the first with the line's id, and nothing otherwise. */
  lemma DecrementAt(inv: seq<Product>, line: CartLine, k: nat)
    requires k < |inv|
    ensures |Decrement(inv, line)| == |inv|
    ensures Decrement(inv, line)[k] == inv[k].(stock := inv[k].stock - (if FindProduct(inv, line.id) == Some(k) then line.quantity else 0))
  {
  }

  /** The inventory after the second pass has run over every line of `cart`, in order. */
  function Commit(inv: seq<Product>, cart: seq<CartLine>): (r: seq<Product>)
    ensures OnlyStockChanged(inv, r)
    decreases |cart|
  {
    if cart == [] then inv else Decrement(Commit(inv, cart[..|cart| - 1]), cart[|cart| - 1])
  }

  /** The sum of the quantities of the lines carrying `id`. */
  function TotalFor(cart: seq<CartLine>, id: string): int
    decreases |cart|
  {
    if cart == [] then 0
    else TotalFor(cart[..|cart| - 1], id) + (if cart[|cart| - 1].id == id then cart[|cart| - 1].quantity else 0)
  }

  /** Whether some line of `cart` carries `id`. */
  predicate Named(cart: seq<CartLine>, id: string) {
    exists j :: 0 <= j < |cart| && cart[j].id == id
  }

  /** What the commit takes from product `k`: only the first product with its id is ever found. */
  function Charge(inv: seq<Product>, cart: seq<CartLine>, k: nat): int
    requires k < |inv|
  {
    if FindProduct(inv, inv[k].id) == Some(k) then TotalFor(cart, inv[k].id) else 0
  }

  /** `b` is `a` with nothing but stock fields changed, in the same order. */
  predicate OnlyStockChanged(a: seq<Product>, b: seq<Product>) {
    |a| == |b| && forall k :: 0 <= k < |a| ==> b[k] == a[k].(stock := b[k].stock)
  }

  predicate UniqueProductIds(inv: seq<Product>) {
    forall i, j :: 0 <= i < j < |inv| ==> inv[i].id != inv[j].id
  }

  predicate AllStocked(inv: seq<Product>) {
    forall k :: 0 <= k < |inv| ==> inv[k].stock >= 0
  }

  lemma {:induction false} TotalForAbsent(cart: seq<CartLine>, id: string)
    requires !Named(cart, id)
    ensures TotalFor(cart, id) == 0
  {
    if cart != [] {
      var init := cart[..|cart| - 1];
      assert !Named(init, id) by {
        forall j | 0 <= j < |init| ensures init[j].id != id {
          assert init[j] == cart[j];
        }
      }
      TotalForAbsent(init, id);
    }
  }

  /** The commit takes exactly its charge from every product and changes nothing else. */
  lemma {:induction false} CommitCharges(inv: seq<Product>, cart: seq<CartLine>)
    ensures |Commit(inv, cart)| == |inv|
    ensures forall k :: 0 <= k < |inv| ==> Commit(inv, cart)[k] == inv[k].(stock := inv[k].stock - Charge(inv, cart, k))
    decreases |cart|
  {
    if cart != [] {
      var init, line := cart[..|cart| - 1], cart[|cart| - 1];
      var mid := Commit(inv, init);
      CommitCharges(inv, init);
      FindProductSameIds(inv, mid, line.id);
      forall k | 0 <= k < |inv|
        ensures Commit(inv, cart)[k] == inv[k].(stock := inv[k].stock - Charge(inv, cart, k))
      {
        DecrementAt(mid, line, k);
        assert FindProduct(inv, line.id) == Some(k) <==> line.id == inv[k].id && FindProduct(inv, inv[k].id) == Some(k);
      }
    }
  }

  /** Purchase never adds, removes or reorders products; a product no line names keeps its stock. */
  lemma CommitShape(inv: seq<Product>, cart: seq<CartLine>)
    ensures OnlyStockChanged(inv, Commit(inv, cart))
    ensures forall k :: 0 <= k < |inv| && !Named(cart, inv[k].id) ==> Commit(inv, cart)[k] == inv[k]
  {
  }

  /** With unique product ids, each product loses the sum of the quantities of the lines carrying its id. */
  lemma CommitUniqueIds(inv: seq<Product>, cart: seq<CartLine>)
    requires UniqueProductIds(inv)
    ensures |Commit(inv, cart)| == |inv|
    ensures forall k :: 0 <= k < |inv| ==> Commit(inv, cart)[k].stock == inv[k].stock - TotalFor(cart, inv[k].id)
  {
    CommitCharges(inv, cart);
    forall k | 0 <= k < |inv| ensures FindProduct(inv, inv[k].id) == Some(k) {
      var r := FindProduct(inv, inv[k].id);
      assert r.Some?;
      assert !(r.value < k);
    }
  }

  // ---------------------------------------------------------------------
  // Carts with distinct ids, carts without

  predicate DistinctLineIds(cart: seq<CartLine>) {
    forall i, j :: 0 <= i < j < |cart| ==> cart[i].id != cart[j].id
  }

  lemma {:induction false} TotalForDistinct(cart: seq<CartLine>, j: nat)
    requires DistinctLineIds(cart) && j < |cart|
    ensures TotalFor(cart, cart[j].id) == cart[j].quantity
  {
    var init := cart[..|cart| - 1];
    if j == |cart| - 1 {
      assert !Named(init, cart[j].id) by {
        forall i | 0 <= i < |init| ensures init[i].id != cart[j].id {
          assert init[i] == cart[i];
        }
      }
      TotalForAbsent(init, cart[j].id);
    } else {
      assert init[j] == cart[j];
      TotalForDistinct(init, j);
    }
  }

  /** A product withdrawn from at all is withdrawn from by a line carrying its id. */
  lemma ChargedIsNamed(inv: seq<Product>, cart: seq<CartLine>, k: nat)
    requires k < |inv| && Charge(inv, cart, k) != 0
    ensures FindProduct(inv, inv[k].id) == Some(k) && Named(cart, inv[k].id)
  {
    if !Named(cart, inv[k].id) {
      TotalForAbsent(cart, inv[k].id);
    }
  }

  /**
   * With distinct line ids, the per-line check is enough: a successful
   * purchase leaves every stock at 0 or above.
   */
  lemma DistinctCartKeepsStock(inv: seq<Product>, cart: seq<CartLine>)
    requires AllStocked(inv)
    requires DistinctLineIds(cart)
    requires FirstFailure(inv, cart).None?
    ensures AllStocked(Commit(inv, cart))
  {
    CommitCharges(inv, cart);
    forall k | 0 <= k < |inv| ensures Commit(inv, cart)[k].stock >= 0 {
      if Charge(inv, cart, k) != 0 {
        ChargedIsNamed(inv, cart, k);
        var j :| 0 <= j < |cart| && cart[j].id == inv[k].id;
        TotalForDistinct(cart, j);
        assert LineFits(inv, cart[j]);
      }
    }
  }

  /** Two lines of the seed's "Quantum Core" at 12 each both pass the check and drive its stock to -12. */
  lemma DuplicateLinesOverdraw()
    ensures var cart := [CartLine("1", "Quantum Core", 12), CartLine("1", "Quantum Core", 12)];
      FirstFailure(SeedInventory, cart).None? &&
      |Commit(SeedInventory, cart)| == |SeedInventory| && Commit(SeedInventory, cart)[0].stock == -12
  {
    var line := CartLine("1", "Quantum Core", 12);
    var cart := [line, line];
    assert FindProduct(SeedInventory, "1") == Some(0);
    assert cart[..1] == [line] && [line][..0] == [];
    var mid := Decrement(SeedInventory, line);
    assert Commit(SeedInventory, [line]) == mid;
    FindProductSameIds(SeedInventory, mid, "1");
    assert mid[0].stock == 0;
    assert LineFits(SeedInventory, line);
    assert forall j :: 0 <= j < |cart| ==> cart[j] == line;
    assert FirstFailure(SeedInventory, cart).None?;
  }

  /** A line is covered when its product holds the whole cart's demand for that id. */
  predicate LineCovered(inv: seq<Product>, cart: seq<CartLine>, line: CartLine) {
    match FindProduct(inv, line.id)
    case None => false
    case Some(k) => TotalFor(cart, line.id) <= inv[k].stock
  }

  /** The corrected first pass: the first line whose product cannot meet the cart's total demand for it. */
  function FirstShortfall(inv: seq<Product>, cart: seq<CartLine>): (r: Option<nat>)
    ensures r.Some? ==>
      r.value < |cart| && !LineCovered(inv, cart, cart[r.value]) &&
      forall j :: 0 <= j < r.value ==> LineCovered(inv, cart, cart[j])
    ensures r.None? <==> forall j :: 0 <= j < |cart| ==> LineCovered(inv, cart, cart[j])
  {
    First(cart, (line: CartLine) => !LineCovered(inv, cart, line))
  }

  /** Under the corrected check, a successful purchase never drives a stock below 0, whatever the cart. */
  lemma CheckedCartKeepsStock(inv: seq<Product>, cart: seq<CartLine>)
    requires AllStocked(inv)
    requires FirstShortfall(inv, cart).None?
    ensures AllStocked(Commit(inv, cart))
  {
    CommitCharges(inv, cart);
    forall k | 0 <= k < |inv| ensures Commit(inv, cart)[k].stock >= 0 {
      if Charge(inv, cart, k) != 0 {
        ChargedIsNamed(inv, cart, k);
        var j :| 0 <= j < |cart| && cart[j].id == inv[k].id;
        assert LineCovered(inv, cart, cart[j]);
      }
    }
  }

  /** On carts with distinct ids the corrected check gives the same verdict as the one written. */
  lemma ShortfallAgreesOnDistinct(inv: seq<Product>, cart: seq<CartLine>)
    requires DistinctLineIds(cart)
    ensures FirstShortfall(inv, cart) == FirstFailure(inv, cart)
  {
    forall j | 0 <= j < |cart| ensures LineCovered(inv, cart, cart[j]) == LineFits(inv, cart[j]) {
      TotalForDistinct(cart, j);
    }
    FirstSameVerdicts(cart, (line: CartLine) => !LineCovered(inv, cart, line), cart, (line: CartLine) => !LineFits(inv, line));
  }

  /** The corrected check rejects the duplicate-line cart, naming its first line. */
  lemma ShortfallCatchesDuplicates()
    ensures var cart := [CartLine("1", "Quantum Core", 12), CartLine("1", "Quantum Core", 12)];
      FirstShortfall(SeedInventory, cart) == Some(0)
  {
    var cart := [CartLine("1", "Quantum Core", 12), CartLine("1", "Quantum Core", 12)];
    assert FindProduct(SeedInventory, "1") == Some(0);
    assert cart[..1] == [cart[0]];
    assert [cart[0]][..0] == [];
    assert TotalFor(cart, "1") == 24;
    assert !LineCovered(SeedInventory, cart, cart[0]);
  }

  // ---------------------------------------------------------------------
  // Identities

  /** The first identity registered under `email` (exact string match). */
  function FindUser(users: seq<User>, email: string): (r: Option<nat>)
    ensures r.Some? ==> r.value < |users| && users[r.value].email == email && forall j :: 0 <= j < r.value ==> users[j].email != email
    ensures r.None? <==> forall j :: 0 <= j < |users| ==> users[j].email != email
  {
    First(users, (u: User) => u.email == email)
  }

  predicate UniqueEmails(users: seq<User>) {
    forall i, j :: 0 <= i < j < |users| ==> users[i].email != users[j].email
  }

  /** The identity list after a register request. */
  function AfterRegister(users: seq<User>, id: string, name: string, email: string): (r: seq<User>)
    ensures (exists k :: 0 <= k < |users| && users[k].email == email) ==> r == users
    ensures (forall k :: 0 <= k < |users| ==> users[k].email != email) ==>
      |r| == |users| + 1 && r[..|users|] == users && r[|users|] == User(id, name, email)
    ensures UniqueEmails(users) ==> UniqueEmails(r)
  {
    if FindUser(users, email).Some? then users else users + [User(id, name, email)]
  }

  /** The reply to a register request. */
  function RegisterReply(users: seq<User>, id: string, name: string, email: string): (r: AuthReply)
    ensures r.AuthFail? <==> exists k :: 0 <= k < |users| && users[k].email == email
    ensures r.AuthFail? ==> r.message == IdentityExists
    ensures r.AuthOk? ==> r.user == User(id, name, email)
  {
    if FindUser(users, email).Some? then AuthFail(IdentityExists) else AuthOk(User(id, name, email))
  }

  /** The reply to a login request: no password is involved. */
  function LoginReply(users: seq<User>, email: string): (r: AuthReply)
    ensures r.AuthOk? <==> exists k :: 0 <= k < |users| && users[k].email == email
    ensures r.AuthOk? ==>
      (exists k :: 0 <= k < |users| && users[k] == r.user && r.user.email == email &&
        forall j :: 0 <= j < k ==> users[j].email != email)
    ensures r.AuthFail? ==> r.message == IdentityNotFound
  {
    match FindUser(users, email)
    case Some(k) => AuthOk(users[k])
    case None => AuthFail(IdentityNotFound)
  }

  /** Registering one email twice: the second request fails and the list grows by at most one in all. */
  lemma RegisterTwice(users: seq<User>, id1: string, name1: string, id2: string, name2: string, email: string)
    ensures var once := AfterRegister(users, id1, name1, email);
      && AfterRegister(once, id2, name2, email) == once
      && RegisterReply(once, id2, name2, email) == AuthFail(IdentityExists)
      && |once| == |users| + (if FindUser(users, email).None? then 1 else 0)
  {
    var once := AfterRegister(users, id1, name1, email);
    if FindUser(users, email).None? {
      assert once[|users|].email == email;
    }
  }

  /** A login right after a register finds the identity the register reply named, or the one already there. */
  lemma RegisterThenLogin(users: seq<User>, id: string, name: string, email: string)
    ensures var reply := RegisterReply(users, id, name, email);
      && LoginReply(AfterRegister(users, id, name, email), email).AuthOk?
      && (reply.AuthOk? ==> LoginReply(AfterRegister(users, id, name, email), email) == reply)
      && (reply.AuthFail? ==> LoginReply(AfterRegister(users, id, name, email), email) == LoginReply(users, email))
  {
    var after := AfterRegister(users, id, name, email);
    if FindUser(users, email).None? {
      assert after[|users|].email == email;
    }
  }

  // ---------------------------------------------------------------------
  // The store and its handlers

  class CatalogStore {
    var inventory: seq<Product>
    var users: seq<User>

    /** Product ids and identity emails are each unique. */
    ghost predicate Valid()
      reads this
    {
      UniqueProductIds(inventory) && UniqueEmails(users)
    }

    constructor ()
      ensures inventory == SeedInventory && users == []
      ensures Valid()
    {
      inventory := SeedInventory;
      users := [];
    }

    /** The first pass: check every line in cart order, stopping at the first that fails. */
    method CheckLines(cart: seq<CartLine>) returns (success: bool, failedItem: string)
      ensures success <==> FirstFailure(inventory, cart).None?
      ensures !success ==> failedItem == cart[FirstFailure(inventory, cart).value].name
    {
      success := true;
      failedItem := "";
      var i := 0;
      while i < |cart|
        invariant 0 <= i <= |cart|
        invariant forall j :: 0 <= j < i ==> LineFits(inventory, cart[j])
      {
        var dbItem := FindProduct(inventory, cart[i].id);
        assert LineFits(inventory, cart[i]) == (dbItem.Some? && !(inventory[dbItem.value].stock < cart[i].quantity));
        if dbItem.None? || inventory[dbItem.value].stock < cart[i].quantity {
          success := false;
          failedItem := cart[i].name;
          assert FirstFailure(inventory, cart) == Some(i);
          break;
        }
        i := i + 1;
      }
    }

    /** The second pass: take each line's quantity from the first product carrying its id, in cart order. */
    method CommitLines(cart: seq<CartLine>)
      modifies this`inventory
      ensures inventory == Commit(old(inventory), cart)
    {
      var i := 0;
      while i < |cart|
        invariant 0 <= i <= |cart|
        invariant inventory == Commit(old(inventory), cart[..i])
      {
        ghost var next := Decrement(inventory, cart[i]);
        assert cart[..i + 1][..i] == cart[..i];
        assert next == Commit(old(inventory), cart[..i + 1]);
        var dbItem := FindProduct(inventory, cart[i].id);
        if dbItem.Some? {
          inventory := inventory[dbItem.value := inventory[dbItem.value].(stock := inventory[dbItem.value].stock - cart[i].quantity)];
        }
        assert inventory == next;
        i := i + 1;
      }
      assert cart[..i] == cart;
    }

    /**
     * Check every line first; only when all pass, commit every line and
     * broadcast the new inventory. A failure names the first failing line.
     */
    method Purchase(cart: seq<CartLine>) returns (reply: PurchaseReply)
      modifies this`inventory
      ensures OnlyStockChanged(old(inventory), inventory)
      ensures match FirstFailure(old(inventory), cart)
        case None =>
          inventory == Commit(old(inventory), cart) && reply == PurchaseReply(true, PurchaseSuccessful, true)
        case Some(k) =>
          inventory == old(inventory) && reply == PurchaseReply(false, InsufficientStock + cart[k].name, false)
      ensures old(Valid()) ==> Valid()
      ensures old(Valid()) && reply.success ==>
        forall k :: 0 <= k < |inventory| ==> inventory[k].stock == old(inventory)[k].stock - TotalFor(cart, old(inventory)[k].id)
    {
      var success, failedItem := CheckLines(cart);
      CommitShape(inventory, cart);
      if UniqueProductIds(inventory) {
        CommitUniqueIds(inventory, cart);
      }
      if success {
        CommitLines(cart);
        reply := PurchaseReply(true, PurchaseSuccessful, true);
      } else {
        reply := PurchaseReply(false, InsufficientStock + failedItem, false);
      }
    }

    /** Refuse an email already registered; otherwise append the new identity and return it. */
    method Register(id: string, name: string, email: string) returns (reply: AuthReply)
      modifies this`users
      ensures users == AfterRegister(old(users), id, name, email)
      ensures reply == RegisterReply(old(users), id, name, email)
      ensures old(Valid()) ==> Valid()
    {
      var existing := FindUser(users, email);
      if existing.Some? {
        return AuthFail(IdentityExists);
      }
      var newUser := User(id, name, email);
      users := users + [newUser];
      reply := AuthOk(newUser);
    }

    /** Look the identity up by email; the password is never read. */
    method Login(email: string, password: string) returns (reply: AuthReply)
      ensures reply == LoginReply(users, email)
    {
      var user := FindUser(users, email);
      if user.Some? {
        reply := AuthOk(users[user.value]);
      } else {
        reply := AuthFail(IdentityNotFound);
      }
    }
  }

  /**
   * Worked example of a sell-out: a fresh store sells all 12 "Quantum Core",
   * leaving its stock at 0; a request for one more unit is then refused with
   * "Insufficient stock for Quantum Core" and the stock stays at 0.
   */
  method SellOutScenario() {
    var store := new CatalogStore();
    assert FindProduct(store.inventory, "1") == Some(0);
    var first := store.Purchase([CartLine("1", "Quantum Core", 12)]);
    assert first.success;
    CommitUniqueIds(SeedInventory, [CartLine("1", "Quantum Core", 12)]);
    assert store.inventory[0].stock == 0;
    FindProductSameIds(SeedInventory, store.inventory, "1");
    var second := store.Purchase([CartLine("1", "Quantum Core", 1)]);
    assert !second.success && second.message == InsufficientStock + "Quantum Core";
    assert store.inventory[0].stock == 0;
  }
}
