/** The storefront's views over its tables: the read-only pages as functions
    of the table contents, and the views that write rows as methods of
    `Store`, the object holding every table. */
module Shop {
  import opened Models
  import opened Ledger
  import opened Wishlist

  /** How a cart or wishlist view ends: it goes on (a redirect), or the lookup answers 404. */
  datatype Outcome = Done | NotFound

  /** How `place_cart_order` ends. */
  datatype CommitOutcome =
    | NotPost
    | EmptyCart
    | MissingField
    | Placed(order: Order, bill: Bill)

  /** What the cart and checkout pages show: the user's rows and their total. */
  datatype CartSummary = CartSummary(items: seq<CartItem>, total: int)

  /** How `invoice_pdf` ends. */
  datatype InvoiceOutcome = RendererUnavailable | OrderNotFound | Invoice(order: Order)

  /** The cart page: the user's rows and `sum(price * quantity)` over them. */
  function CartView(cart: seq<CartItem>, u: UserId): (r: CartSummary)
    ensures forall item :: item in r.items <==> item in cart && item.user == u
    ensures r.items == [] ==> r.total == 0
  {
    var items := OwnedBy(cart, u);
    CartSummary(items, CartSum(items))
  }

  /** The checkout page: the user's rows and `sum(total_price())` over them. */
  function CheckoutView(cart: seq<CartItem>, u: UserId): (r: CartSummary)
    ensures forall item :: item in r.items <==> item in cart && item.user == u
  {
    var items := OwnedBy(cart, u);
    CartSummary(items, CheckoutSum(items))
  }

  /** The cart page and the checkout page show the same rows and the same total. */
  lemma CartViewIsCheckoutView(cart: seq<CartItem>, u: UserId)
    ensures CartView(cart, u) == CheckoutView(cart, u)
  {
    CartSumIsCheckoutSum(OwnedBy(cart, u));
  }

  /** With the store's invariant, a user's cart total is never negative and
      covers the price of every product in the cart. */
  lemma CartTotalBounds(cart: seq<CartItem>, u: UserId)
    requires PositiveQuantities(cart)
    ensures CartView(cart, u).total >= 0
    ensures forall item :: item in CartView(cart, u).items ==> CartView(cart, u).total >= item.product.price
  {
    CartSumBounds(OwnedBy(cart, u));
  }

  predicate OrderIdsAscending(orders: seq<Order>)
  {
    forall i, j :: 0 <= i < j < |orders| ==> orders[i].id < orders[j].id
  }

  predicate BillIdsAscending(bills: seq<Bill>)
  {
    forall i, j :: 0 <= i < j < |bills| ==> bills[i].id < bills[j].id
  }

  /** `Order.objects.filter(user=u)`: the orders page. */
  function OrderHistory(orders: seq<Order>, u: UserId): (r: seq<Order>)
    ensures forall o :: o in r <==> o in orders && o.user == u
  {
    if orders == [] then []
    else (if orders[0].user == u then [orders[0]] else []) + OrderHistory(orders[1..], u)
  }

  /** `get_object_or_404(Order, id=order_id)`, the lookup of the bill and invoice
      views: by id alone, whoever the order belongs to. */
  function FindOrder(orders: seq<Order>, id: nat): (r: Option<Order>)
    ensures r.Some? ==> r.value in orders && r.value.id == id
    ensures r.None? ==> forall o :: o in orders ==> o.id != id
  {
    if orders == [] then None
    else if orders[0].id == id then Some(orders[0])
    else FindOrder(orders[1..], id)
  }

  /** Every stored order is found under its own id, by any requesting user. */
  lemma {:induction false} FindOrderFindsEveryOrder(orders: seq<Order>, o: Order)
    requires OrderIdsAscending(orders) && o in orders
    ensures FindOrder(orders, o.id) == Some(o)
  {
    if orders[0] != o {
      var tail := orders[1..];
      assert o in tail;
      var k :| 0 <= k < |tail| && tail[k] == o;
      assert orders[k + 1] == o;
      assert OrderIdsAscending(tail) by {
        forall i, j | 0 <= i < j < |tail| ensures tail[i].id < tail[j].id {
          assert tail[i] == orders[i + 1] && tail[j] == orders[j + 1];
        }
      }
      FindOrderFindsEveryOrder(tail, o);
    }
  }

  /** The PDF invoice view: the renderer check comes first, then the order lookup. */
  function InvoicePdf(rendererAvailable: bool, orders: seq<Order>, orderId: nat): (r: InvoiceOutcome)
    ensures !rendererAvailable ==> r == RendererUnavailable
    ensures rendererAvailable && (forall o :: o in orders ==> o.id != orderId) ==> r == OrderNotFound
    ensures r.Invoice? ==> rendererAvailable && r.order in orders && r.order.id == orderId
    ensures rendererAvailable && (exists o :: o in orders && o.id == orderId) ==> r.Invoice?
  {
    if !rendererAvailable then RendererUnavailable
    else match FindOrder(orders, orderId)
      case None => OrderNotFound
      case Some(o) => Invoice(o)
  }

  /** `int(request.POST.get('quantity', 1))`, with the text already parsed. */
  function RequestedQuantity(field: Option<int>): int
  {
    match field
    case None => 1
    case Some(q) => q
  }

  /** One more unit adds exactly the product's price to a row's line total. */
  lemma LineAfterIncrement(item: CartItem)
    ensures TotalPrice(item.(quantity := item.quantity + 1)) == TotalPrice(item) + item.product.price
  {
  }

  /** The cart table's share of the store invariant. */
  ghost predicate CartTableOk(cart: seq<CartItem>, next: nat, catalog: seq<Product>)
  {
    && CartIdsAscending(cart) && UniqueKeys(cart) && PositiveQuantities(cart)
    && (forall item :: item in cart ==> item.id < next && item.product in catalog)
  }

  /** Giving row `i` a positive quantity `q` keeps the invariant, changes the
      ledger at that row's pair only, and moves only its owner's total. */
  lemma SetQuantityEffects(cart: seq<CartItem>, next: nat, catalog: seq<Product>, i: nat, q: int)
    requires CartTableOk(cart, next, catalog) && i < |cart| && q >= 1
    ensures var cart' := cart[i := cart[i].(quantity := q)];
      && CartTableOk(cart', next, catalog)
      && Quantities(cart') == Quantities(cart)[KeyOf(cart[i]) := q]
      && CartView(cart', cart[i].user).total + TotalPrice(cart[i]) == CartView(cart, cart[i].user).total + TotalPrice(cart[i].(quantity := q))
      && forall v :: v != cart[i].user ==> CartView(cart', v).total == CartView(cart, v).total
  {
    var item' := cart[i].(quantity := q);
    var cart' := cart[i := item'];
    assert forall j :: 0 <= j < |cart'| ==> cart'[j] == if j == i then item' else cart[j];
    QuantitiesAfterSet(cart, i, q);
    forall v
      ensures CartSum(OwnedBy(cart', v)) + (if item'.user == v then TotalPrice(cart[i]) else 0)
           == CartSum(OwnedBy(cart, v)) + (if item'.user == v then TotalPrice(item') else 0)
    {
      OwnerSumAfterSet(cart, i, item', v);
    }
  }

  /** Deleting row `i` keeps the invariant, drops that row's pair from the
      ledger, and takes its line total off its owner's total only. */
  lemma DeleteEffects(cart: seq<CartItem>, next: nat, catalog: seq<Product>, i: nat)
    requires CartTableOk(cart, next, catalog) && i < |cart|
    ensures var cart' := cart[..i] + cart[i + 1..];
      && CartTableOk(cart', next, catalog)
      && Quantities(cart') == Quantities(cart) - {KeyOf(cart[i])}
      && CartView(cart', cart[i].user).total + TotalPrice(cart[i]) == CartView(cart, cart[i].user).total
      && forall v :: v != cart[i].user ==> CartView(cart', v).total == CartView(cart, v).total
  {
    var cart' := cart[..i] + cart[i + 1..];
    DeleteKeepsShape(cart, i);
    assert forall item :: item in cart' ==> item in cart;
    QuantitiesAfterDelete(cart, i);
    forall v
      ensures CartSum(OwnedBy(cart', v)) + (if cart[i].user == v then TotalPrice(cart[i]) else 0) == CartSum(OwnedBy(cart, v))
    {
      OwnerSumAfterDelete(cart, i, v);
    }
  }

  /** Appending a row with a fresh id and a new pair keeps the invariant,
      adds that pair to the ledger, and adds its line total to its owner's total only. */
  lemma AppendEffects(cart: seq<CartItem>, next: nat, catalog: seq<Product>, item: CartItem)
    requires CartTableOk(cart, next, catalog)
    requires item.id == next && item.quantity >= 1 && item.product in catalog
    requires FindByKey(cart, KeyOf(item)).None?
    ensures var cart' := cart + [item];
      && CartTableOk(cart', next + 1, catalog)
      && Quantities(cart') == Quantities(cart)[KeyOf(item) := item.quantity]
      && KeyOf(item) !in Quantities(cart)
      && CartView(cart', item.user).total == CartView(cart, item.user).total + TotalPrice(item)
      && forall v :: v != item.user ==> CartView(cart', v).total == CartView(cart, v).total
  {
    var cart' := cart + [item];
    assert forall j :: 0 <= j < |cart'| ==> cart'[j] == if j < |cart| then cart[j] else item;
    assert forall j :: 0 <= j < |cart| ==> cart[j] in cart;
    QuantitiesMissing(cart, KeyOf(item));
    QuantitiesAfterAppend(cart, item);
    forall v
      ensures CartSum(OwnedBy(cart', v)) == CartSum(OwnedBy(cart, v)) + (if item.user == v then TotalPrice(item) else 0)
    {
      OwnerSumAfterAppend(cart, item, v);
    }
  }

  /** Clearing user `u`'s rows keeps the invariant, drops exactly `u`'s pairs
      from the ledger, empties `u`'s cart and leaves every other cart as it was. */
  lemma ClearEffects(cart: seq<CartItem>, next: nat, catalog: seq<Product>, u: UserId)
    requires CartTableOk(cart, next, catalog)
    ensures var cart' := NotOwnedBy(cart, u);
      && CartTableOk(cart', next, catalog)
      && Quantities(cart') == WithoutUser(Quantities(cart), u)
      && CartView(cart', u) == CartSummary([], 0)
      && forall v :: v != u ==> CartView(cart', v) == CartView(cart, v)
  {
    NotOwnedByKeepsIdsAscending(cart, u);
    NotOwnedByKeepsKeysUnique(cart, u);
    QuantitiesAfterClear(cart, u);
    forall v ensures v != u ==> OwnedBy(NotOwnedBy(cart, u), v) == OwnedBy(cart, v) {
      NotOwnedByClears(cart, u, v);
    }
    NotOwnedByClears(cart, u, u);
  }

  /** The cart table after `add_to_cart(p)` by user `u`, `next` being the id the
      next new row receives: the user's row for `p` gains one unit, or, when
      there is none, a row with the default quantity is appended. */
  function CartAfterAdd(cart: seq<CartItem>, next: nat, u: UserId, p: Product): seq<CartItem>
  {
    match FindByKey(cart, (u, p.id))
    case Some(i) => cart[i := cart[i].(quantity := cart[i].quantity + 1)]
    case None => cart + [CartItem(next, u, p, DefaultQuantity)]
  }

  /** Adding a catalog product keeps the invariant; a new row uses up the next id. */
  lemma AddKeepsCartTable(cart: seq<CartItem>, next: nat, catalog: seq<Product>, u: UserId, p: Product)
    requires CartTableOk(cart, next, catalog) && ProductIdsUnique(catalog) && p in catalog
    ensures CartTableOk(CartAfterAdd(cart, next, u, p), if FindByKey(cart, (u, p.id)).Some? then next else next + 1, catalog)
  {
    match FindByKey(cart, (u, p.id)) {
    case Some(i) =>
      SetQuantityEffects(cart, next, catalog, i, cart[i].quantity + 1);
    case None =>
      AppendEffects(cart, next, catalog, CartItem(next, u, p, DefaultQuantity));
    }
  }

  /** Adding raises the ledger entry of the (user, product) pair by one, or
      creates it with the default quantity; no other entry changes. */
  lemma AddLedger(cart: seq<CartItem>, next: nat, u: UserId, p: Product)
    requires UniqueKeys(cart)
    ensures var key := (u, p.id);
      var before := Quantities(cart);
      Quantities(CartAfterAdd(cart, next, u, p)) == before[key := if key in before then before[key] + 1 else DefaultQuantity]
  {
    match FindByKey(cart, (u, p.id)) {
    case Some(i) =>
      assert CartAfterAdd(cart, next, u, p) == cart[i := cart[i].(quantity := cart[i].quantity + 1)];
      QuantitiesAt(cart, i);
      QuantitiesAfterSet(cart, i, cart[i].quantity + 1);
    case None =>
      assert CartAfterAdd(cart, next, u, p) == cart + [CartItem(next, u, p, DefaultQuantity)];
      QuantitiesMissing(cart, (u, p.id));
      QuantitiesAfterAppend(cart, CartItem(next, u, p, DefaultQuantity));
    }
  }

  /** Adding a product puts exactly its price on the user's total and leaves
      every other user's total as it was. */
  lemma AddTotals(cart: seq<CartItem>, next: nat, catalog: seq<Product>, u: UserId, p: Product)
    requires CartTableOk(cart, next, catalog) && ProductIdsUnique(catalog) && p in catalog
    ensures CartView(CartAfterAdd(cart, next, u, p), u).total == CartView(cart, u).total + p.price
    ensures forall v :: v != u ==> CartView(CartAfterAdd(cart, next, u, p), v).total == CartView(cart, v).total
  {
    match FindByKey(cart, (u, p.id)) {
    case Some(i) =>
      var item := cart[i];
      var item' := item.(quantity := item.quantity + 1);
      assert CartAfterAdd(cart, next, u, p) == cart[i := item'];
      assert item in cart;
      SameIdSameProduct(catalog, item.product, p);
      LineAfterIncrement(item);
      forall v
        ensures CartSum(OwnedBy(cart[i := item'], v)) + (if u == v then TotalPrice(item) else 0)
             == CartSum(OwnedBy(cart, v)) + (if u == v then TotalPrice(item') else 0)
      {
        OwnerSumAfterSet(cart, i, item', v);
      }
    case None =>
      var item := CartItem(next, u, p, DefaultQuantity);
      assert CartAfterAdd(cart, next, u, p) == cart + [item];
      assert TotalPrice(item) == p.price;
      forall v
        ensures CartSum(OwnedBy(cart + [item], v)) == CartSum(OwnedBy(cart, v)) + (if u == v then TotalPrice(item) else 0)
      {
        OwnerSumAfterAppend(cart, item, v);
      }
    }
  }

  /** The order and bill tables' share of the store invariant: ascending fresh
      ids, and the i-th bill belonging to the i-th order. */
  ghost predicate OrderTablesOk(orders: seq<Order>, bills: seq<Bill>, nextOrder: nat, nextBill: nat)
  {
    && OrderIdsAscending(orders) && (forall o :: o in orders ==> o.id < nextOrder)
    && BillIdsAscending(bills) && (forall b :: b in bills ==> b.id < nextBill)
    && |bills| == |orders| && (forall i :: 0 <= i < |bills| ==> bills[i].order == orders[i].id)
  }

  /** An order appended under the next id keeps the order ids ascending and below the next id. */
  lemma OrdersAppend(orders: seq<Order>, next: nat, order: Order)
    requires OrderIdsAscending(orders) && (forall o :: o in orders ==> o.id < next) && order.id == next
    ensures OrderIdsAscending(orders + [order]) && forall o :: o in orders + [order] ==> o.id < next + 1
  {
    var orders' := orders + [order];
    forall i, j | 0 <= i < j < |orders'| ensures orders'[i].id < orders'[j].id {
      assert orders'[i] == orders[i] && orders[i] in orders;
      if j < |orders| { assert orders'[j] == orders[j]; }
    }
  }

  /** A bill appended under the next id keeps the bill ids ascending and below the next id. */
  lemma BillsAppend(bills: seq<Bill>, next: nat, bill: Bill)
    requires BillIdsAscending(bills) && (forall b :: b in bills ==> b.id < next) && bill.id == next
    ensures BillIdsAscending(bills + [bill]) && forall b :: b in bills + [bill] ==> b.id < next + 1
  {
    var bills' := bills + [bill];
    forall i, j | 0 <= i < j < |bills'| ensures bills'[i].id < bills'[j].id {
      assert bills'[i] == bills[i] && bills[i] in bills;
      if j < |bills| { assert bills'[j] == bills[j]; }
    }
  }

  /** Committing an order appends one order and its bill, with fresh ids, and keeps the invariant. */
  lemma CommitKeepsOrderTables(orders: seq<Order>, bills: seq<Bill>, nextOrder: nat, nextBill: nat, order: Order, bill: Bill)
    requires OrderTablesOk(orders, bills, nextOrder, nextBill)
    requires order.id == nextOrder && bill == Bill(nextBill, order.id)
    ensures OrderTablesOk(orders + [order], bills + [bill], nextOrder + 1, nextBill + 1)
  {
    OrdersAppend(orders, nextOrder, order);
    BillsAppend(bills, nextBill, bill);
    var orders', bills' := orders + [order], bills + [bill];
    forall j | 0 <= j < |bills'| ensures bills'[j].order == orders'[j].id {
      if j < |bills| {
        assert bills'[j] == bills[j] && orders'[j] == orders[j];
      }
    }
  }

  /** With the invariant, no two bills belong to the same order. */
  lemma OneBillPerOrder(orders: seq<Order>, bills: seq<Bill>, nextOrder: nat, nextBill: nat)
    requires OrderTablesOk(orders, bills, nextOrder, nextBill)
    ensures forall i, j :: 0 <= i < j < |bills| ==> bills[i].order != bills[j].order
  {
  }

  /** The wishlist table's share of the store invariant. */
  ghost predicate WishlistTableOk(wishlist: seq<WishlistItem>, next: nat, catalog: seq<Product>)
  {
    && WishIdsAscending(wishlist) && UniqueWishKeys(wishlist)
    && (forall w :: w in wishlist ==> w.id < next && w.product in catalog)
  }

  /** Saving a new pair under a fresh id keeps the invariant and adds exactly that pair. */
  lemma WishAppendEffects(wishlist: seq<WishlistItem>, next: nat, catalog: seq<Product>, w: WishlistItem)
    requires WishlistTableOk(wishlist, next, catalog)
    requires w.id == next && w.product in catalog && WishKey(w) !in Saved(wishlist)
    ensures WishlistTableOk(wishlist + [w], next + 1, catalog)
    ensures Saved(wishlist + [w]) == Saved(wishlist) + {WishKey(w)}
  {
    var w' := wishlist + [w];
    assert forall j :: 0 <= j < |w'| ==> w'[j] == if j < |wishlist| then wishlist[j] else w;
    assert forall j :: 0 <= j < |wishlist| ==> wishlist[j] in wishlist;
  }

  /** The owner-scoped delete keeps the invariant. It removes nothing when no
      owned row has the id, and otherwise exactly that row and its saved pair. */
  lemma WishRemoveEffects(wishlist: seq<WishlistItem>, next: nat, catalog: seq<Product>, id: nat, u: UserId)
    requires WishlistTableOk(wishlist, next, catalog)
    ensures WishlistTableOk(Unmatched(wishlist, id, u), next, catalog)
    ensures FindOwnedWish(wishlist, id, u).None? ==> Unmatched(wishlist, id, u) == wishlist
    ensures FindOwnedWish(wishlist, id, u).Some? ==>
      var i := FindOwnedWish(wishlist, id, u).value;
      && Unmatched(wishlist, id, u) == wishlist[..i] + wishlist[i + 1..]
      && Saved(Unmatched(wishlist, id, u)) == Saved(wishlist) - {WishKey(wishlist[i])}
  {
    match FindOwnedWish(wishlist, id, u) {
    case None =>
      UnmatchedWhenAbsent(wishlist, id, u);
    case Some(i) =>
      UnmatchedWhenFound(wishlist, id, u);
      WishDeleteKeepsShape(wishlist, i);
      SavedAfterDelete(wishlist, i);
    }
  }

  class Store {
    /** The product table; no view here changes it. */
    const catalog: seq<Product>
    var cart: seq<CartItem>
    var orders: seq<Order>
    var bills: seq<Bill>
    var wishlist: seq<WishlistItem>
    /** The id the next insert into each table receives. */
    var nextCartItemId: nat
    var nextOrderId: nat
    var nextBillId: nat
    var nextWishlistId: nat

    /** The invariant every view keeps: ids ascending and fresh, one cart row
        and one wishlist row per (user, product) pair, positive quantities,
        rows referring to catalog products, and the i-th bill belonging to the
        i-th order. */
    ghost predicate Valid()
      reads this
    {
      && ProductIdsUnique(catalog)
      && CartTableOk(cart, nextCartItemId, catalog)
      && OrderTablesOk(orders, bills, nextOrderId, nextBillId)
      && WishlistTableOk(wishlist, nextWishlistId, catalog)
    }

    constructor (catalog: seq<Product>)
      requires ProductIdsUnique(catalog)
      ensures Valid() && this.catalog == catalog
      ensures cart == [] && orders == [] && bills == [] && wishlist == []
      ensures nextCartItemId == 0 && nextOrderId == 0 && nextBillId == 0 && nextWishlistId == 0
    {
      this.catalog := catalog;
      cart, orders, bills, wishlist := [], [], [], [];
      nextCartItemId, nextOrderId, nextBillId, nextWishlistId := 0, 0, 0, 0;
    }

    /** A cart row's `save()` with quantity `q` (at least 1): that row changes, no other. */
    method SaveQuantity(i: nat, q: int)
      requires Valid() && i < |cart| && q >= 1
      modifies this`cart
      ensures Valid()
      ensures cart == old(cart)[i := old(cart)[i].(quantity := q)]
      ensures Quantities(cart) == old(Quantities(cart))[KeyOf(old(cart)[i]) := q]
      ensures CartView(cart, old(cart)[i].user).total + TotalPrice(old(cart)[i])
           == old(CartView(cart, cart[i].user).total) + TotalPrice(old(cart)[i].(quantity := q))
      ensures forall v :: v != old(cart)[i].user ==> CartView(cart, v).total == old(CartView(cart, v).total)
    {
      SetQuantityEffects(cart, nextCartItemId, catalog, i, q);
      cart := cart[i := cart[i].(quantity := q)];
    }

    /** A cart row's `delete()`: that row goes, no other. */
    method DeleteItem(i: nat)
      requires Valid() && i < |cart|
      modifies this`cart
      ensures Valid()
      ensures cart == old(cart)[..i] + old(cart)[i + 1..]
      ensures Quantities(cart) == old(Quantities(cart)) - {KeyOf(old(cart)[i])}
      ensures CartView(cart, old(cart)[i].user).total + TotalPrice(old(cart)[i]) == old(CartView(cart, cart[i].user).total)
      ensures forall v :: v != old(cart)[i].user ==> CartView(cart, v).total == old(CartView(cart, v).total)
    {
      DeleteEffects(cart, nextCartItemId, catalog, i);
      cart := cart[..i] + cart[i + 1..];
    }

    /** `add_to_cart`: a missing product answers 404; otherwise the user's row
        for the product gains one unit, or a row with the default quantity is
        created. */
    method AddToCart(u: UserId, productId: nat) returns (outcome: Outcome)
      requires Valid()
      modifies this`cart, this`nextCartItemId
      ensures Valid()
      ensures FindProduct(catalog, productId).None? ==>
        outcome == NotFound && cart == old(cart) && nextCartItemId == old(nextCartItemId)
      ensures FindProduct(catalog, productId).Some? ==>
        && outcome == Done
        && cart == CartAfterAdd(old(cart), old(nextCartItemId), u, FindProduct(catalog, productId).value)
        && nextCartItemId == old(nextCartItemId) + (if FindByKey(old(cart), (u, productId)).Some? then 0 else 1)
    {
      match FindProduct(catalog, productId) {
      case None =>
        outcome := NotFound;
      case Some(p) =>
        outcome := Done;
        AddKeepsCartTable(cart, nextCartItemId, catalog, u, p);
        var created := FindByKey(cart, (u, productId)).None?;
        cart := CartAfterAdd(cart, nextCartItemId, u, p);
        if created {
          nextCartItemId := nextCartItemId + 1;
        }
      }
    }

    /** `update_quantity`: only a POST acts; the row is looked up by id and
        owner (404 otherwise); a quantity of 0 or less deletes it, any other
        value becomes its quantity. */
    method UpdateQuantity(u: UserId, id: nat, isPost: bool, quantityField: Option<int>) returns (outcome: Outcome)
      requires Valid()
      modifies this`cart
      ensures Valid()
      ensures !isPost ==> outcome == Done && cart == old(cart)
      ensures isPost && FindOwnedItem(old(cart), id, u).None? ==> outcome == NotFound && cart == old(cart)
      ensures isPost && FindOwnedItem(old(cart), id, u).Some? ==>
        var i := FindOwnedItem(old(cart), id, u).value;
        var row := old(cart)[i];
        var q := RequestedQuantity(quantityField);
        && outcome == Done
        && (q <= 0 ==>
             && cart == old(cart)[..i] + old(cart)[i + 1..]
             && Quantities(cart) == old(Quantities(cart)) - {KeyOf(row)}
             && CartView(cart, u).total == old(CartView(cart, u).total) - TotalPrice(row))
        && (q > 0 ==>
             && cart == old(cart)[i := row.(quantity := q)]
             && Quantities(cart) == old(Quantities(cart))[KeyOf(row) := q]
             && CartView(cart, u).total == old(CartView(cart, u).total) - TotalPrice(row) + TotalPrice(row.(quantity := q)))
        && forall v :: v != u ==> CartView(cart, v).total == old(CartView(cart, v).total)
    {
      if !isPost {
        return Done;
      }
      match FindOwnedItem(cart, id, u) {
      case None =>
        outcome := NotFound;
      case Some(i) =>
        outcome := Done;
        var quantity := RequestedQuantity(quantityField);
        if quantity <= 0 {
          DeleteItem(i);
        } else {
          SaveQuantity(i, quantity);
        }
      }
    }

    /** `remove_from_cart`: the row is looked up by id and owner (404
        otherwise) and deleted. */
    method RemoveFromCart(u: UserId, id: nat) returns (outcome: Outcome)
      requires Valid()
      modifies this`cart
      ensures Valid()
      ensures FindOwnedItem(old(cart), id, u).None? ==> outcome == NotFound && cart == old(cart)
      ensures FindOwnedItem(old(cart), id, u).Some? ==>
        var i := FindOwnedItem(old(cart), id, u).value;
        var row := old(cart)[i];
        && outcome == Done
        && cart == old(cart)[..i] + old(cart)[i + 1..]
        && Quantities(cart) == old(Quantities(cart)) - {KeyOf(row)}
        && CartView(cart, u).total == old(CartView(cart, u).total) - TotalPrice(row)
        && forall v :: v != u ==> CartView(cart, v).total == old(CartView(cart, v).total)
    {
      match FindOwnedItem(cart, id, u) {
      case None =>
        outcome := NotFound;
      case Some(i) =>
        assert cart[i].user == u;
        outcome := Done;
        DeleteItem(i);
      }
    }

    /** `Order.objects.create(...)` followed by `Bill.objects.create(order=order)`:
        one order and its bill, each under the next id of its table. */
    method CreateOrder(u: UserId, total: int, name: string, phone: string, address: string) returns (order: Order, bill: Bill)
      requires Valid()
      modifies this`orders, this`bills, this`nextOrderId, this`nextBillId
      ensures Valid()
      ensures order == Order(old(nextOrderId), u, total, name, phone, address)
      ensures bill == Bill(old(nextBillId), order.id)
      ensures orders == old(orders) + [order] && nextOrderId == old(nextOrderId) + 1
      ensures bills == old(bills) + [bill] && nextBillId == old(nextBillId) + 1
    {
      order := Order(nextOrderId, u, total, name, phone, address);
      bill := Bill(nextBillId, order.id);
      CommitKeepsOrderTables(orders, bills, nextOrderId, nextBillId, order, bill);
      orders, nextOrderId := orders + [order], nextOrderId + 1;
      bills, nextBillId := bills + [bill], nextBillId + 1;
    }

    /** `items.delete()` on the user's cart rows: every row of `u` goes, and only those. */
    method ClearCart(u: UserId)
      requires Valid()
      modifies this`cart
      ensures Valid()
      ensures cart == NotOwnedBy(old(cart), u)
      ensures Quantities(cart) == WithoutUser(old(Quantities(cart)), u)
      ensures CartView(cart, u) == CartSummary([], 0)
      ensures forall v :: v != u ==> CartView(cart, v) == old(CartView(cart, v))
    {
      ClearEffects(cart, nextCartItemId, catalog, u);
      cart := NotOwnedBy(cart, u);
    }

    /** `place_cart_order`: on a POST with a non-empty cart and all three form
        fields present, one order carrying the cart total and the submitted
        recipient, one bill for it, and the user's cart rows deleted; in every
        other case nothing is written. */
    method PlaceCartOrder(u: UserId, isPost: bool, name: Option<string>, phone: Option<string>, address: Option<string>)
      returns (outcome: CommitOutcome)
      requires Valid()
      modifies this`cart, this`orders, this`bills, this`nextOrderId, this`nextBillId
      ensures Valid()
      ensures !isPost ==> outcome == NotPost
      ensures isPost && CartView(old(cart), u).items == [] ==> outcome == EmptyCart
      ensures isPost && CartView(old(cart), u).items != [] && (name.None? || phone.None? || address.None?) ==>
        outcome == MissingField
      ensures !outcome.Placed? ==>
        && cart == old(cart) && orders == old(orders) && bills == old(bills)
        && nextOrderId == old(nextOrderId) && nextBillId == old(nextBillId)
      ensures outcome.Placed? <==>
        isPost && CartView(old(cart), u).items != [] && name.Some? && phone.Some? && address.Some?
      ensures outcome.Placed? ==>
        && outcome.order == Order(old(nextOrderId), u, old(CartView(cart, u).total), name.value, phone.value, address.value)
        && outcome.bill == Bill(old(nextBillId), outcome.order.id)
        && orders == old(orders) + [outcome.order] && nextOrderId == old(nextOrderId) + 1
        && bills == old(bills) + [outcome.bill] && nextBillId == old(nextBillId) + 1
        && cart == NotOwnedBy(old(cart), u)
        && Quantities(cart) == WithoutUser(old(Quantities(cart)), u)
        && CartView(cart, u) == CartSummary([], 0)
        && forall v :: v != u ==> CartView(cart, v) == old(CartView(cart, v))
    {
      if !isPost {
        return NotPost;
      }
      var items := OwnedBy(cart, u);
      if items == [] {
        return EmptyCart;
      }
      var total := CheckoutSum(items);
      if name.None? || phone.None? || address.None? {
        return MissingField;
      }
      CartSumIsCheckoutSum(items);
      var order, bill := CreateOrder(u, total, name.value, phone.value, address.value);
      ClearCart(u);
      outcome := Placed(order, bill);
    }

    /** `add_to_wishlist`: a missing product answers 404; otherwise the pair is
        saved, creating a row only when it is not saved yet. */
    method AddToWishlist(u: UserId, productId: nat) returns (outcome: Outcome)
      requires Valid()
      modifies this`wishlist, this`nextWishlistId
      ensures Valid()
      ensures FindProduct(catalog, productId).None? ==>
        outcome == NotFound && wishlist == old(wishlist) && nextWishlistId == old(nextWishlistId)
      ensures FindProduct(catalog, productId).Some? ==>
        && outcome == Done
        && Saved(wishlist) == old(Saved(wishlist)) + {(u, productId)}
        && ((u, productId) in old(Saved(wishlist)) ==>
             wishlist == old(wishlist) && nextWishlistId == old(nextWishlistId))
        && ((u, productId) !in old(Saved(wishlist)) ==>
             && wishlist == old(wishlist) + [WishlistItem(old(nextWishlistId), u, FindProduct(catalog, productId).value)]
             && nextWishlistId == old(nextWishlistId) + 1)
    {
      match FindProduct(catalog, productId) {
      case None =>
        outcome := NotFound;
      case Some(p) =>
        outcome := Done;
        match FindWish(wishlist, (u, productId)) {
        case Some(i) =>
          assert wishlist[i] in wishlist;
        case None =>
          var w := WishlistItem(nextWishlistId, u, p);
          WishAppendEffects(wishlist, nextWishlistId, catalog, w);
          wishlist := wishlist + [w];
          nextWishlistId := nextWishlistId + 1;
        }
      }
    }

    /** `remove_from_wishlist`: deletes the rows matching both the id and the
        user, which is one row or none; it never answers 404. */
    method RemoveFromWishlist(u: UserId, id: nat)
      requires Valid()
      modifies this`wishlist
      ensures Valid()
      ensures wishlist == Unmatched(old(wishlist), id, u)
      ensures FindOwnedWish(old(wishlist), id, u).None? ==> wishlist == old(wishlist)
      ensures FindOwnedWish(old(wishlist), id, u).Some? ==>
        var i := FindOwnedWish(old(wishlist), id, u).value;
        && wishlist == old(wishlist)[..i] + old(wishlist)[i + 1..]
        && Saved(wishlist) == old(Saved(wishlist)) - {WishKey(old(wishlist)[i])}
    {
      WishRemoveEffects(wishlist, nextWishlistId, catalog, id, u);
      wishlist := Unmatched(wishlist, id, u);
    }
  }

  /** The cart example: a widget added twice and a gadget once give two rows,
      the widget's with quantity 2, and a total of 25.00. */
  method CartScenario() returns (store: Store)
    ensures fresh(store) && store.Valid() && store.bills == [] && store.nextOrderId == 0 && store.nextBillId == 0
    ensures store.cart == [CartItem(0, 7, Product(1, "Widget", 1000, "Gadgets"), 2),
                           CartItem(1, 7, Product(2, "Gadget", 500, "Gadgets"), 1)]
    ensures CartView(store.cart, 7).total == 2500
  {
    var widget := Product(1, "Widget", 1000, "Gadgets");
    var gadget := Product(2, "Gadget", 500, "Gadgets");
    store := new Store([widget, gadget]);
    assert FindProduct(store.catalog, 1) == Some(widget);
    assert FindProduct(store.catalog, 2) == Some(gadget);
    var r := store.AddToCart(7, 1);
    assert store.cart == [CartItem(0, 7, widget, 1)];
    r := store.AddToCart(7, 1);
    assert FindByKey([CartItem(0, 7, widget, 1)], (7, 1)) == Some(0);
    assert store.cart == [CartItem(0, 7, widget, 2)];
    r := store.AddToCart(7, 2);
    assert FindByKey([CartItem(0, 7, widget, 2)], (7, 2)) == None;
    ExampleCartTotal(store.cart);
  }

  /** Two widgets at 10.00 and one gadget at 5.00 in user 7's cart total 25.00. */
  lemma ExampleCartTotal(rows: seq<CartItem>)
    requires rows == [CartItem(0, 7, Product(1, "Widget", 1000, "Gadgets"), 2),
                      CartItem(1, 7, Product(2, "Gadget", 500, "Gadgets"), 1)]
    ensures CartView(rows, 7).total == 2500
  {
    assert rows[1..] == [rows[1]] && rows[1..][1..] == [];
    assert OwnedBy(rows, 7) == rows;
    assert CartSum(rows[1..]) == 500;
  }

  /** The checkout example: ordering that cart records 25.00 with the submitted
      recipient, creates exactly its bill and leaves the cart empty. */
  method CheckoutScenario() returns (store: Store, placed: CommitOutcome)
    ensures placed.Placed? && placed.order.total == 2500
    ensures placed.order.name == "A. Buyer" && placed.order.phone == "555-0100" && placed.order.address == "1 Main St"
    ensures CartView(store.cart, 7) == CartSummary([], 0)
    ensures store.orders == [placed.order] && store.bills == [Bill(0, placed.order.id)]
  {
    store := CartScenario();
    placed := store.PlaceCartOrder(7, true, Some("A. Buyer"), Some("555-0100"), Some("1 Main St"));
  }
}
