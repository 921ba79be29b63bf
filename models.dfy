/** The rows of the storefront's tables, as values.

    Every table is modelled as a sequence of rows in ascending primary-key
    order, the order in which an auto-increment key hands them out. Prices and
    totals are whole numbers of minor currency units (paise, cents) instead of
    decimals. Users are identified by their numeric id; the user table itself
    belongs to the authentication layer and is not modelled.
 */
module Models {

  datatype Option<T> = None | Some(value: T)

  type UserId = nat

  /** A catalog product; `category` is the name of the product's category. */
  datatype Product = Product(id: nat, name: string, price: nat, category: string)

  /** A cart row: one product in one user's cart, with its quantity. */
  datatype CartItem = CartItem(id: nat, user: UserId, product: Product, quantity: int)

  /** A placed order: the total is a snapshot of the cart sum at commit time. */
  datatype Order = Order(id: nat, user: UserId, total: int, name: string, phone: string, address: string)

  /** The bill created alongside an order; it only refers to the order. */
  datatype Bill = Bill(id: nat, order: nat)

  /** A wishlist row: one product saved by one user. */
  datatype WishlistItem = WishlistItem(id: nat, user: UserId, product: Product)

  /** Quantity of a freshly created cart row (the model field's default, assumed). */
  const DefaultQuantity: int := 1

  /** `CartItem.total_price()`, assumed to be price times quantity. */
  function TotalPrice(item: CartItem): int
  {
    item.product.price * item.quantity
  }

  /** Primary keys of the product table are distinct. */
  predicate ProductIdsUnique(products: seq<Product>)
  {
    forall i, j :: 0 <= i < j < |products| ==> products[i].id != products[j].id
  }

  /** With distinct primary keys, a product is determined by its id. */
  lemma SameIdSameProduct(products: seq<Product>, a: Product, b: Product)
    requires ProductIdsUnique(products) && a in products && b in products && a.id == b.id
    ensures a == b
  {
  }

  /** `get_object_or_404(Product, id=...)`: the product with that id, if any. */
  function FindProduct(products: seq<Product>, id: nat): (r: Option<Product>)
    ensures r.Some? ==> r.value in products && r.value.id == id
    ensures r.None? ==> forall p :: p in products ==> p.id != id
  {
    if products == [] then None
    else if products[0].id == id then Some(products[0])
    else FindProduct(products[1..], id)
  }

  /** Deleting a position after the head keeps the head in front. */
  lemma DeleteAfterHead<T>(s: seq<T>, i: nat)
    requires 0 < i < |s|
    ensures s[..i] + s[i + 1..] == [s[0]] + (s[1..][..i - 1] + s[1..][i..])
  {
    assert s[..i] == [s[0]] + s[1..][..i - 1];
    assert s[i + 1..] == s[1..][i..];
  }
}
