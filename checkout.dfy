/** The cart-to-order conversion run by the payment-verification view once
    the gateway has confirmed the payment.

    The loop works on the pending state of the database session: it adds
    one Order per cart row of the customer, lowers the product's stock, and
    deletes the row. Nothing reaches the tables until the single commit after
    the loop; an exception inside the loop abandons the whole pending state.
    `Convert` returns that pending state, or None when the loop raises. */
module Checkout {
  import opened Rows
  import opened Cart

  /** Status written on every order the conversion creates. */
  const Paid := "Paid"

  /** The row's product exists and its stock is not NULL, so the loop can
      read the product's price and lower its stock. */
  predicate Stocked(products: seq<Product>, product: int) {
    match IndexOf(ProductIds(products), product)
    case Some(k) => products[k].inStock.Some?
    case None => false
  }

  /** No iteration of the loop over these rows raises. */
  predicate Convertible(products: seq<Product>, rows: seq<CartItem>) {
    forall j :: 0 <= j < |rows| ==> Stocked(products, rows[j].product)
  }

  /** Total quantity the rows take of one product. */
  function Demand(rows: seq<CartItem>, product: int): int {
    if rows == [] then 0
    else
      var last := rows[|rows| - 1];
      Demand(rows[..|rows| - 1], product) + (if last.product == product then last.quantity else 0)
  }

  lemma {:induction false} NoDemand(rows: seq<CartItem>, product: int)
    requires forall j :: 0 <= j < |rows| ==> rows[j].product != product
    ensures Demand(rows, product) == 0
  {
    if rows != [] {
      NoDemand(rows[..|rows| - 1], product);
    }
  }

  /** A product after the loop over the rows: its stock lowered by their
      demand for it, with no floor at zero. */
  function Debit(p: Product, rows: seq<CartItem>): Product {
    match p.inStock
    case Some(s) => p.(inStock := Some(s - Demand(rows, p.id)))
    case None => p
  }

  /** The catalogue after the loop over the rows: every product keeps its
      key, name and prices; a non-NULL stock drops by the rows' demand for
      that product, and a NULL stock stays NULL. */
  function Debited(products: seq<Product>, rows: seq<CartItem>): (r: seq<Product>)
    ensures |r| == |products| && ProductIds(r) == ProductIds(products)
    ensures forall k :: 0 <= k < |products| ==> r[k] == products[k].(inStock := r[k].inStock)
    ensures forall k :: 0 <= k < |products| ==> r[k].inStock.Some? == products[k].inStock.Some?
    ensures forall k :: 0 <= k < |products| && products[k].inStock.Some? ==>
              r[k].inStock.value == products[k].inStock.value - Demand(rows, products[k].id)
  {
    var r := seq(|products|, k requires 0 <= k < |products| => Debit(products[k], rows));
    assert forall k :: 0 <= k < |products| ==> ProductIds(r)[k] == ProductIds(products)[k];
    r
  }

  lemma DebitedNothing(products: seq<Product>)
    ensures Debited(products, []) == products
  {
  }

  /** The Order the loop creates for a cart row. */
  function NewOrder(item: CartItem, price: int, id: int, token: string): Order {
    Order(id, item.quantity, price, Paid, token, item.customer, item.product)
  }

  /** The orders created for the rows, in loop order, keyed from `first` on.
      Each copies its row's quantity, customer and product, takes the
      product's current price, and is marked paid with the payment token. */
  function OrdersFor(products: seq<Product>, rows: seq<CartItem>, token: string, first: int): (r: seq<Order>)
    ensures |r| == |rows|
    ensures forall j :: 0 <= j < |rows| ==>
              && r[j].id == first + j
              && r[j].quantity == rows[j].quantity
              && r[j].price == PriceOf(products, rows[j].product)
              && r[j].status == Paid && r[j].paymentId == token
              && r[j].customer == rows[j].customer && r[j].product == rows[j].product
  {
    seq(|rows|, j requires 0 <= j < |rows| => NewOrder(rows[j], PriceOf(products, rows[j].product), first + j, token))
  }

  /** The rows left once every row of `doomed` is deleted. */
  function Discard(rows: seq<CartItem>, doomed: seq<CartItem>): (r: seq<CartItem>)
    ensures forall row :: row in r <==> row in rows && row !in doomed
  {
    if rows == [] then []
    else (if rows[0] in doomed then [] else [rows[0]]) + Discard(rows[1..], doomed)
  }

  lemma {:induction false} DiscardNothing(rows: seq<CartItem>)
    ensures Discard(rows, []) == rows
  {
    if rows != [] {
      DiscardNothing(rows[1..]);
    }
  }

  lemma {:induction false} DiscardTwice(rows: seq<CartItem>, a: seq<CartItem>, b: seq<CartItem>)
    ensures Discard(Discard(rows, a), b) == Discard(rows, a + b)
  {
    if rows != [] {
      DiscardTwice(rows[1..], a, b);
      var head := if rows[0] in a then [] else [rows[0]];
      var rest := Discard(rows[1..], a);
      assert Discard(rows, a) == head + rest;
      if head == [] {
        assert head + rest == rest;
      } else {
        assert (head + rest)[1..] == rest;
      }
    }
  }

  /** Deleting exactly the customer's rows leaves the other customers' rows. */
  lemma {:induction false} DiscardOwned(rows: seq<CartItem>, doomed: seq<CartItem>, customer: int)
    requires forall row :: row in rows ==> (row in doomed <==> row.customer == customer)
    ensures Discard(rows, doomed) == OtherRows(rows, customer)
  {
    if rows != [] {
      assert rows[0] in rows;
      assert forall row :: row in rows[1..] ==> row in rows;
      DiscardOwned(rows[1..], doomed, customer);
    }
  }

  /** The session's pending tables at commit time. */
  datatype Staged = Staged(products: seq<Product>, carts: seq<CartItem>, orders: seq<Order>)

  /** The loop of the payment-verification view, over the customer's rows. */
  method Convert(products: seq<Product>, carts: seq<CartItem>, orders: seq<Order>, customer: int, token: string)
    returns (r: Option<Staged>)
    requires Ascending(ProductIds(products))
    ensures r.Some? <==> Convertible(products, CustomerRows(carts, customer))
    ensures r.Some? ==> r.value.products == Debited(products, CustomerRows(carts, customer))
    ensures r.Some? ==> r.value.carts == OtherRows(carts, customer)
    ensures r.Some? ==> r.value.orders
                        == orders + OrdersFor(products, CustomerRows(carts, customer), token, NextId(OrderIds(orders)))
  {
    var rows := CustomerRows(carts, customer);
    ghost var first := NextId(OrderIds(orders));
    var stock, remaining, placed := products, carts, orders;
    DiscardNothing(carts);
    DebitedNothing(products);
    for i := 0 to |rows|
      invariant Convertible(products, rows[..i])
      invariant stock == Debited(products, rows[..i])
      invariant remaining == Discard(carts, rows[..i])
      invariant placed == orders + OrdersFor(products, rows[..i], token, first)
    {
      var item := rows[i];
      ghost var done := rows[..i];
      PrefixSnoc(rows, i);
      var found := IndexOf(ProductIds(stock), item.product);
      if found.None? {
        // the row's product is missing: reading its price raises
        StepFails(products, rows, i);
        return None;
      }
      var k := found.value;
      AscendingIndex(ProductIds(products), k);
      placed := placed + [NewOrder(item, stock[k].currentPrice, NextId(OrderIds(placed)), token)];
      if stock[k].inStock.None? {
        // a NULL stock cannot be lowered: the subtraction raises
        StepFails(products, rows, i);
        return None;
      }
      StepConvertible(products, done, item);
      ghost var before := stock;
      stock := stock[k := stock[k].(inStock := Some(stock[k].inStock.value - item.quantity))];
      StepStock(products, done, item, k, before, stock);
      DiscardTwice(carts, done, [item]);
      remaining := Discard(remaining, [item]);
      StepOrders(products, orders, done, item, token, first, k);
    }
    assert rows[..|rows|] == rows;
    DiscardOwned(carts, rows, customer);
    return Some(Staged(stock, remaining, placed));
  }

  lemma PrefixSnoc(rows: seq<CartItem>, i: nat)
    requires i < |rows|
    ensures rows[..i + 1] == rows[..i] + [rows[i]]
  {
  }

  lemma StepFails(products: seq<Product>, rows: seq<CartItem>, i: nat)
    requires i < |rows| && !Stocked(products, rows[i].product)
    ensures !Convertible(products, rows)
  {
  }

  lemma StepConvertible(products: seq<Product>, done: seq<CartItem>, item: CartItem)
    requires Convertible(products, done) && Stocked(products, item.product)
    ensures Convertible(products, done + [item])
  {
  }

  /** One loop step on the products: the found product alone loses the item's quantity. */
  lemma StepStock(products: seq<Product>, done: seq<CartItem>, item: CartItem, k: nat,
                  stock: seq<Product>, updated: seq<Product>)
    requires Ascending(ProductIds(products))
    requires k < |products| && products[k].id == item.product
    requires stock == Debited(products, done) && stock[k].inStock.Some?
    requires updated == stock[k := stock[k].(inStock := Some(stock[k].inStock.value - item.quantity))]
    ensures updated == Debited(products, done + [item])
  {
    var stock' := Debited(products, done + [item]);
    assert (done + [item])[..|done|] == done;
    forall m | 0 <= m < |products| && m != k
      ensures stock'[m] == stock[m]
    {
      assert ProductIds(products)[m] != ProductIds(products)[k];
    }
    assert stock'[k] == updated[k];
  }

  /** One loop step on the orders: the new order is the next one of `OrdersFor`. */
  lemma StepOrders(products: seq<Product>, orders: seq<Order>, done: seq<CartItem>, item: CartItem,
                   token: string, first: int, k: nat)
    requires first == NextId(OrderIds(orders))
    requires k < |products| && products[k].id == item.product
    requires IndexOf(ProductIds(products), item.product) == Some(k)
    ensures var placed := orders + OrdersFor(products, done, token, first);
            placed + [NewOrder(item, Debited(products, done)[k].currentPrice, NextId(OrderIds(placed)), token)]
            == orders + OrdersFor(products, done + [item], token, first)
  {
    NextAfterPlaced(products, orders, done, token, first);
    OrdersForSnoc(products, done, item, token, first);
    assert Debited(products, done)[k].currentPrice == PriceOf(products, item.product);
  }

  lemma NextAfterPlaced(products: seq<Product>, orders: seq<Order>, done: seq<CartItem>, token: string, first: int)
    requires first == NextId(OrderIds(orders))
    ensures NextId(OrderIds(orders + OrdersFor(products, done, token, first))) == first + |done|
  {
  }

  lemma OrdersForSnoc(products: seq<Product>, done: seq<CartItem>, item: CartItem, token: string, first: int)
    ensures OrdersFor(products, done + [item], token, first)
            == OrdersFor(products, done, token, first)
               + [NewOrder(item, PriceOf(products, item.product), first + |done|, token)]
  {
  }

  /** The new orders take keys above every existing one, in loop order. */
  lemma NewOrdersAscending(products: seq<Product>, orders: seq<Order>, rows: seq<CartItem>, token: string)
    requires Ascending(OrderIds(orders))
    ensures Ascending(OrderIds(orders + OrdersFor(products, rows, token, NextId(OrderIds(orders)))))
  {
    var first := NextId(OrderIds(orders));
    var all := orders + OrdersFor(products, rows, token, first);
    forall j | 0 <= j < |all|
      ensures OrderIds(all)[j] == if j < |orders| then OrderIds(orders)[j] else first + (j - |orders|)
    {
    }
  }

  /** Orders carry the total quantity the customer's rows carried. */
  function OrderedQuantity(orders: seq<Order>): int {
    if orders == [] then 0 else orders[0].quantity + OrderedQuantity(orders[1..])
  }

  lemma {:induction false} OrdersConserveQuantity(products: seq<Product>, rows: seq<CartItem>, token: string, first: int)
    ensures OrderedQuantity(OrdersFor(products, rows, token, first)) == CartQuantity(rows)
  {
    if rows != [] {
      OrdersConserveQuantity(products, rows[1..], token, first + 1);
      assert OrdersFor(products, rows, token, first)[1..] == OrdersFor(products, rows[1..], token, first + 1);
    }
  }

  /** A product no converted row refers to keeps its stock. */
  lemma UntouchedProduct(products: seq<Product>, rows: seq<CartItem>, k: nat)
    requires k < |products|
    requires forall j :: 0 <= j < |rows| ==> rows[j].product != products[k].id
    ensures Debited(products, rows)[k] == products[k]
  {
    NoDemand(rows, products[k].id);
  }

  /** The stock column summed over the catalogue, NULL counting as 0. */
  function TotalStock(products: seq<Product>): int {
    if products == [] then 0
    else (match products[0].inStock case Some(s) => s case None => 0) + TotalStock(products[1..])
  }

  lemma {:induction false} TotalStockUpdate(products: seq<Product>, k: nat, q: int)
    requires k < |products| && products[k].inStock.Some?
    ensures TotalStock(products[k := products[k].(inStock := Some(products[k].inStock.value - q))])
            == TotalStock(products) - q
  {
    var updated := products[k := products[k].(inStock := Some(products[k].inStock.value - q))];
    if k > 0 {
      TotalStockUpdate(products[1..], k - 1, q);
      assert updated[1..] == products[1..][k - 1 := products[k].(inStock := Some(products[k].inStock.value - q))];
    } else {
      assert updated[1..] == products[1..];
    }
  }

  lemma StockStep(products: seq<Product>, done: seq<CartItem>, item: CartItem)
    requires Ascending(ProductIds(products)) && Stocked(products, item.product)
    ensures TotalStock(Debited(products, done + [item])) == TotalStock(Debited(products, done)) - item.quantity
  {
    var k := IndexOf(ProductIds(products), item.product).value;
    var stock := Debited(products, done);
    assert stock[k].inStock.Some?;
    StepTotal(products, done, item, k, stock);
  }

  lemma StepTotal(products: seq<Product>, done: seq<CartItem>, item: CartItem, k: nat, stock: seq<Product>)
    requires Ascending(ProductIds(products))
    requires k < |products| && products[k].id == item.product
    requires stock == Debited(products, done) && stock[k].inStock.Some?
    ensures TotalStock(Debited(products, done + [item])) == TotalStock(stock) - item.quantity
  {
    var updated := stock[k := stock[k].(inStock := Some(stock[k].inStock.value - item.quantity))];
    StepStock(products, done, item, k, stock, updated);
    TotalStockUpdate(stock, k, item.quantity);
  }

  /** The catalogue loses exactly as many units of stock as the converted
      rows order. */
  lemma {:induction false} StockAccounting(products: seq<Product>, rows: seq<CartItem>)
    requires Ascending(ProductIds(products)) && Convertible(products, rows)
    ensures TotalStock(Debited(products, rows)) == TotalStock(products) - CartQuantity(rows)
  {
    if rows == [] {
      DebitedNothing(products);
    } else {
      var done, item := rows[..|rows| - 1], rows[|rows| - 1];
      assert rows == done + [item];
      assert forall j :: 0 <= j < |done| ==> done[j] == rows[j];
      StockAccounting(products, done);
      assert Stocked(products, rows[|rows| - 1].product);
      StockStep(products, done, item);
      SumsAppend(products, done, [item]);
      assert [item][1..] == [];
    }
  }

  /** After the conversion the customer has no rows left and an empty
      summary, while every other customer's rows are exactly as they were. */
  lemma {:induction false} CartEmptied(products: seq<Product>, carts: seq<CartItem>, customer: int, other: int)
    ensures CustomerRows(OtherRows(carts, customer), customer) == []
    ensures CartAmountJson(products, OtherRows(carts, customer), customer) == Some(Summary(0, 0, DeliveryCharge))
    ensures other != customer ==> CustomerRows(OtherRows(carts, customer), other) == CustomerRows(carts, other)
  {
    if carts != [] {
      CartEmptied(products, carts[1..], customer, other);
      var head := if carts[0].customer != customer then [carts[0]] else [];
      var rest := OtherRows(carts[1..], customer);
      assert OtherRows(carts, customer) == head + rest;
      CustomerRowsAppend(head, rest, customer);
      CustomerRowsAppend(head, rest, other);
      if head != [] {
        assert head[1..] == [];
      }
    }
  }
}
