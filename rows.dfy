/** Row shapes of the three tables the cart views touch (Product, Cart and
    Order), and the key lookups the views perform on them.

    A table is a sequence of rows in insertion order. Every table keeps its
    integer primary keys strictly ascending, which is how the store hands
    out keys: a new row gets one more than the largest key present. */
module Rows {

  datatype Option<+T> = None | Some(value: T)

  /** A catalogue row. Prices are integers in the smallest currency unit;
      `inStock` is a nullable integer column. */
  datatype Product = Product(
    id: int,
    name: string,
    currentPrice: int,
    previousPrice: Option<int>,
    inStock: Option<int>)

  /** One line of a customer's cart. */
  datatype CartItem = CartItem(id: int, quantity: int, customer: int, product: int)

  /** One paid line item, written at checkout. */
  datatype Order = Order(
    id: int,
    quantity: int,
    price: int,
    status: string,
    paymentId: string,
    customer: int,
    product: int)

  /** Position of the first occurrence of `x` in `s`. */
  function IndexOf<T(==)>(s: seq<T>, x: T): (r: Option<nat>)
    ensures r.None? <==> x !in s
    ensures r.Some? ==> r.value < |s| && s[r.value] == x && x !in s[..r.value]
  {
    if s == [] then None
    else if s[0] == x then Some(0)
    else match IndexOf(s[1..], x)
      case None => None
      case Some(k) =>
        assert s[..k + 1] == [s[0]] + s[1..][..k];
        Some(k + 1)
  }

  /** Primary keys in strictly ascending order (hence pairwise distinct). */
  ghost predicate Ascending(ids: seq<int>) {
    forall a, b :: 0 <= a < b < |ids| ==> ids[a] < ids[b]
  }

  /** The key the store gives the next inserted row: one past the last
      (largest) key, or 1 in an empty table. */
  function NextId(ids: seq<int>): (r: int)
    ensures Ascending(ids) ==> forall k :: 0 <= k < |ids| ==> ids[k] < r
    ensures Ascending(ids) ==> Ascending(ids + [r])
  {
    if ids == [] then 1 else ids[|ids| - 1] + 1
  }

  /** In an ascending key column, a key found at position k is found nowhere else. */
  lemma AscendingIndex(ids: seq<int>, k: nat)
    requires Ascending(ids) && k < |ids|
    ensures IndexOf(ids, ids[k]) == Some(k)
  {
  }

  function ProductIds(products: seq<Product>): seq<int> {
    seq(|products|, k requires 0 <= k < |products| => products[k].id)
  }

  function CartIds(carts: seq<CartItem>): seq<int> {
    seq(|carts|, k requires 0 <= k < |carts| => carts[k].id)
  }

  function OrderIds(orders: seq<Order>): seq<int> {
    seq(|orders|, k requires 0 <= k < |orders| => orders[k].id)
  }
}
