/** The database session the cart views run against: the Product, Cart and
    Order tables as fields, and one method per view that writes them. The
    logged-in customer is passed in as `customer`; the gateway's answer in
    the payment-verification view is passed in as `verified`.

    A commit is one assignment to the fields. A view that raises before its
    commit leaves every field unchanged; a view that raises after its commit
    (while building its response) keeps the committed change and answers
    with a failure. */
module Store {
  import opened Rows
  import opened Cart
  import opened Checkout

  /** How add-to-cart ends: with one of its three flash messages or, when
      the product row is missing and there is no cart row to raise, with an
      error outside its handlers. */
  datatype AddResult = QuantityUpdated(name: string) | AddedToCart(name: string) | AddFailed | Crashed

  /** The answer of the plus, minus and remove views: the JSON summary, or an
      error the view does not handle. */
  datatype Response = Json(summary: Summary) | Failed

  /** The JSON summary, or a failed response when building it raises. */
  function Reply(s: Option<Summary>): Response {
    match s
    case Some(summary) => Json(summary)
    case None => Failed
  }

  class Database {
    var products: seq<Product>
    var carts: seq<CartItem>
    var orders: seq<Order>

    /** Primary keys ascend in every table. */
    ghost predicate Valid()
      reads this
    {
      && Ascending(ProductIds(products))
      && Ascending(CartIds(carts))
      && Ascending(OrderIds(orders))
    }

    constructor (catalog: seq<Product>)
      requires Ascending(ProductIds(catalog))
      ensures Valid()
      ensures products == catalog && carts == [] && orders == []
    {
      products, carts, orders := catalog, [], [];
    }

    /** `add_to_cart`: look the (customer, product) row up first; raise its
        quantity by one if it exists, otherwise insert a row with quantity 1.
        Inserting needs the product row; raising the quantity does not, but a
        missing product makes the flash message fail after the commit, and
        the handler then flashes its failure message. */
    method AddToCart(customer: int, productId: int) returns (result: AddResult)
      requires Valid()
      modifies this
      ensures Valid() && products == old(products) && orders == old(orders)
      ensures UniquePairs(old(carts)) ==> UniquePairs(carts)
      ensures match FindPair(old(carts), customer, productId)
              case Some(i) =>
                && carts == Bumped(old(carts), i, 1)
                && result == (match IndexOf(ProductIds(products), productId)
                              case Some(k) => QuantityUpdated(products[k].name)
                              case None => AddFailed)
              case None =>
                match IndexOf(ProductIds(products), productId)
                case Some(k) => carts == Inserted(old(carts), customer, productId) && result == AddedToCart(products[k].name)
                case None => carts == old(carts) && result == Crashed
    {
      var itemToAdd := IndexOf(ProductIds(products), productId);
      var existing := FindPair(carts, customer, productId);
      match existing
      case Some(i) =>
        carts := Bumped(carts, i, 1);
        result := if itemToAdd.Some? then QuantityUpdated(products[itemToAdd.value].name) else AddFailed;
      case None =>
        if itemToAdd.None? {
          // the missing product's key is read before anything is staged, outside the handlers
          result := Crashed;
        } else {
          carts := Inserted(carts, customer, productId);
          result := AddedToCart(products[itemToAdd.value].name);
        }
    }

    /** `plus_cart`: the row with key `cartId`, whoever owns it, gains one;
        the response is the summary of the customer's cart after the commit. */
    method PlusCart(customer: int, cartId: int) returns (response: Response)
      requires Valid()
      modifies this
      ensures Valid() && products == old(products) && orders == old(orders)
      ensures UniquePairs(old(carts)) ==> UniquePairs(carts)
      ensures match FindCart(old(carts), cartId)
              case None => carts == old(carts) && response == Failed
              case Some(i) =>
                && carts == Bumped(old(carts), i, 1)
                && response == Reply(CartAmountJson(products, carts, customer))
    {
      var found := FindCart(carts, cartId);
      if found.None? {
        // no row has that key: updating its quantity raises
        return Failed;
      }
      carts := Bumped(carts, found.value, 1);
      response := Reply(CartAmountJson(products, carts, customer));
    }

    /** `minus_cart`: the row with key `cartId`, whoever owns it, loses one;
        it is kept at zero or below. */
    method MinusCart(customer: int, cartId: int) returns (response: Response)
      requires Valid()
      modifies this
      ensures Valid() && products == old(products) && orders == old(orders)
      ensures UniquePairs(old(carts)) ==> UniquePairs(carts)
      ensures match FindCart(old(carts), cartId)
              case None => carts == old(carts) && response == Failed
              case Some(i) =>
                && carts == Bumped(old(carts), i, -1)
                && response == Reply(CartAmountJson(products, carts, customer))
    {
      var found := FindCart(carts, cartId);
      if found.None? {
        // no row has that key: updating its quantity raises
        return Failed;
      }
      carts := Bumped(carts, found.value, -1);
      response := Reply(CartAmountJson(products, carts, customer));
    }

    /** `remove_cart`: the row with key `cartId`, whoever owns it, is deleted. */
    method RemoveCart(customer: int, cartId: int) returns (response: Response)
      requires Valid()
      modifies this
      ensures Valid() && products == old(products) && orders == old(orders)
      ensures UniquePairs(old(carts)) ==> UniquePairs(carts)
      ensures match FindCart(old(carts), cartId)
              case None => carts == old(carts) && response == Failed
              case Some(i) =>
                && carts == RemoveAt(old(carts), i)
                && (forall row :: row in carts <==> row in old(carts) && row.id != cartId)
                && response == Reply(CartAmountJson(products, carts, customer))
    {
      var found := FindCart(carts, cartId);
      if found.None? {
        // no row has that key: deleting it raises
        return Failed;
      }
      RemoveExactlyThatRow(carts, found.value);
      carts := RemoveAt(carts, found.value);
      response := Reply(CartAmountJson(products, carts, customer));
    }

    /** `verify_khalti`: when the gateway confirms the payment, convert the
        customer's cart into paid orders and commit once; otherwise, or when
        the conversion raises, change nothing and answer `success: False`. */
    method VerifyKhalti(customer: int, token: string, verified: bool) returns (success: bool)
      requires Valid()
      modifies this
      ensures Valid()
      ensures UniquePairs(old(carts)) ==> UniquePairs(carts)
      ensures success <==> verified && Convertible(old(products), CustomerRows(old(carts), customer))
      ensures !success ==> products == old(products) && carts == old(carts) && orders == old(orders)
      ensures success ==>
                var rows := CustomerRows(old(carts), customer);
                && products == Debited(old(products), rows)
                && carts == OtherRows(old(carts), customer)
                && orders == old(orders) + OrdersFor(old(products), rows, token, NextId(OrderIds(old(orders))))
    {
      if !verified {
        return false;
      }
      var staged := Convert(products, carts, orders, customer, token);
      if staged.None? {
        return false;
      }
      OtherRowsAscending(carts, customer);
      NewOrdersAscending(products, orders, CustomerRows(carts, customer), token);
      if UniquePairs(carts) {
        OtherRowsUnique(carts, customer);
      }
      // the single commit
      products, carts, orders := staged.value.products, staged.value.carts, staged.value.orders;
      success := true;
    }
  }
}
