/** The read side of the cart views: which rows belong to a customer, the
    JSON summary and the cart page built from them, and the row updates the
    plus, minus, remove and add views apply, with what each update does to
    a customer's summary. */
module Cart {
  import opened Rows

  /** Flat delivery charge added to every cart total. */
  const DeliveryCharge := 200

  /** The customer's cart rows, in table order. */
  function CustomerRows(carts: seq<CartItem>, customer: int): (r: seq<CartItem>)
    ensures forall row :: row in r <==> row in carts && row.customer == customer
    ensures |r| <= |carts|
  {
    if carts == [] then []
    else (if carts[0].customer == customer then [carts[0]] else []) + CustomerRows(carts[1..], customer)
  }

  /** Every row that does not belong to the customer, in table order. */
  function OtherRows(carts: seq<CartItem>, customer: int): (r: seq<CartItem>)
    ensures forall row :: row in r <==> row in carts && row.customer != customer
    ensures |r| <= |carts|
  {
    if carts == [] then []
    else (if carts[0].customer != customer then [carts[0]] else []) + OtherRows(carts[1..], customer)
  }

  /** Keeping only other customers' rows keeps the key column ascending. */
  lemma {:induction false} OtherRowsAscending(carts: seq<CartItem>, customer: int)
    requires Ascending(CartIds(carts))
    ensures Ascending(CartIds(OtherRows(carts, customer)))
  {
    if carts != [] {
      var tail := carts[1..];
      AscendingTail(carts);
      OtherRowsAscending(tail, customer);
      var rest := OtherRows(tail, customer);
      if carts[0].customer != customer {
        assert OtherRows(carts, customer) == [carts[0]] + rest;
        forall b | 0 <= b < |rest|
          ensures carts[0].id < rest[b].id
        {
          assert rest[b] in tail;
        }
        AscendingCons(carts[0], rest);
      } else {
        assert OtherRows(carts, customer) == rest;
      }
    }
  }

  lemma AscendingTail(carts: seq<CartItem>)
    requires Ascending(CartIds(carts)) && carts != []
    ensures Ascending(CartIds(carts[1..]))
    ensures forall row :: row in carts[1..] ==> carts[0].id < row.id
  {
    assert forall k :: 0 <= k < |carts| - 1 ==> CartIds(carts[1..])[k] == CartIds(carts)[k + 1];
    forall row | row in carts[1..]
      ensures carts[0].id < row.id
    {
      var m :| 0 <= m < |carts| - 1 && carts[1..][m] == row;
      assert CartIds(carts)[m + 1] == row.id && CartIds(carts)[0] == carts[0].id;
    }
  }

  lemma AscendingCons(x: CartItem, rest: seq<CartItem>)
    requires Ascending(CartIds(rest)) && forall k :: 0 <= k < |rest| ==> x.id < rest[k].id
    ensures Ascending(CartIds([x] + rest))
  {
    assert forall k :: 1 <= k <= |rest| ==> CartIds([x] + rest)[k] == CartIds(rest)[k - 1];
  }

  /** Keeping only other customers' rows keeps the (customer, product) pairs unique. */
  lemma {:induction false} OtherRowsUnique(carts: seq<CartItem>, customer: int)
    requires UniquePairs(carts)
    ensures UniquePairs(OtherRows(carts, customer))
  {
    if carts != [] {
      var tail := carts[1..];
      UniqueTail(carts);
      OtherRowsUnique(tail, customer);
      var rest := OtherRows(tail, customer);
      if carts[0].customer != customer {
        assert OtherRows(carts, customer) == [carts[0]] + rest;
        forall b | 0 <= b < |rest|
          ensures Key(carts[0]) != Key(rest[b])
        {
          assert rest[b] in tail;
          var m :| 0 <= m < |tail| && tail[m] == rest[b];
          assert carts[m + 1] == rest[b];
        }
        UniqueCons(carts[0], rest);
      } else {
        assert OtherRows(carts, customer) == rest;
      }
    }
  }

  lemma UniqueTail(carts: seq<CartItem>)
    requires UniquePairs(carts) && carts != []
    ensures UniquePairs(carts[1..])
  {
  }

  lemma UniqueCons(x: CartItem, rest: seq<CartItem>)
    requires UniquePairs(rest) && forall b :: 0 <= b < |rest| ==> Key(x) != Key(rest[b])
    ensures UniquePairs([x] + rest)
  {
  }

  lemma {:induction false} CustomerRowsAppend(a: seq<CartItem>, b: seq<CartItem>, customer: int)
    ensures CustomerRows(a + b, customer) == CustomerRows(a, customer) + CustomerRows(b, customer)
  {
    if a == [] {
      assert a + b == b;
    } else {
      assert (a + b)[1..] == a[1..] + b;
      CustomerRowsAppend(a[1..], b, customer);
    }
  }

  /** The (customer, product) pair a cart row is looked up by in add-to-cart. */
  function Key(row: CartItem): (int, int) {
    (row.customer, row.product)
  }

  function Keys(carts: seq<CartItem>): seq<(int, int)> {
    seq(|carts|, k requires 0 <= k < |carts| => Key(carts[k]))
  }

  /** At most one cart row per (customer, product) pair. */
  ghost predicate UniquePairs(carts: seq<CartItem>) {
    forall a, b :: 0 <= a < b < |carts| ==> Key(carts[a]) != Key(carts[b])
  }

  /** The lookup add-to-cart starts with: the position
      of the earliest row for the pair, if there is one. */
  function FindPair(carts: seq<CartItem>, customer: int, product: int): (r: Option<nat>)
    ensures r.None? <==> forall k :: 0 <= k < |carts| ==> Key(carts[k]) != (customer, product)
    ensures r.Some? ==> r.value < |carts| && Key(carts[r.value]) == (customer, product)
    ensures r.Some? ==> forall k :: 0 <= k < r.value ==> Key(carts[k]) != (customer, product)
  {
    var r := IndexOf(Keys(carts), (customer, product));
    assert forall k :: 0 <= k < |carts| ==> Keys(carts)[k] == Key(carts[k]);
    assert r.Some? ==> forall k :: 0 <= k < r.value ==> Keys(carts)[..r.value][k] == Key(carts[k]);
    r
  }

  /** The lookup of a cart row by its primary key alone: the position of the row
      with that key, whoever owns it. */
  function FindCart(carts: seq<CartItem>, id: int): (r: Option<nat>)
    ensures r.None? <==> forall k :: 0 <= k < |carts| ==> carts[k].id != id
    ensures r.Some? ==> r.value < |carts| && carts[r.value].id == id
  {
    var r := IndexOf(CartIds(carts), id);
    assert forall k :: 0 <= k < |carts| ==> CartIds(carts)[k] == carts[k].id;
    r
  }

  /** The price the row's product relationship yields, 0 when the product row is missing. */
  function PriceOf(products: seq<Product>, product: int): int {
    match IndexOf(ProductIds(products), product)
    case Some(k) => products[k].currentPrice
    case None => 0
  }

  /** Every row's product exists, so every row has a price to read. */
  predicate Priced(products: seq<Product>, rows: seq<CartItem>) {
    forall j :: 0 <= j < |rows| ==> rows[j].product in ProductIds(products)
  }

  /** The number of items in the rows: their quantities added up. */
  function CartQuantity(rows: seq<CartItem>): int {
    if rows == [] then 0 else rows[0].quantity + CartQuantity(rows[1..])
  }

  /** What one row costs: its product's current price times its quantity. */
  function Charge(products: seq<Product>, row: CartItem): int {
    PriceOf(products, row.product) * row.quantity
  }

  /** What the rows cost together: their charges added up. */
  function Amount(products: seq<Product>, rows: seq<CartItem>): int {
    if rows == [] then 0 else Charge(products, rows[0]) + Amount(products, rows[1..])
  }

  lemma {:induction false} SumsAppend(products: seq<Product>, a: seq<CartItem>, b: seq<CartItem>)
    ensures CartQuantity(a + b) == CartQuantity(a) + CartQuantity(b)
    ensures Amount(products, a + b) == Amount(products, a) + Amount(products, b)
  {
    if a == [] {
      assert a + b == b;
    } else {
      assert (a + b)[1..] == a[1..] + b;
      SumsAppend(products, a[1..], b);
    }
  }

  /** The JSON body `{quantity, amount, total}` returned by the plus, minus
      and remove views. */
  datatype Summary = Summary(quantity: int, amount: int, total: int)

  /** `_cart_amount_json`: the summary of the customer's rows, or None when
      some row's product is missing (the generator raises, the view fails). */
  function CartAmountJson(products: seq<Product>, carts: seq<CartItem>, customer: int): (r: Option<Summary>)
    ensures r.Some? <==> Priced(products, CustomerRows(carts, customer))
    ensures r.Some? ==> r.value.quantity == CartQuantity(CustomerRows(carts, customer))
    ensures r.Some? ==> r.value.amount == Amount(products, CustomerRows(carts, customer))
    ensures r.Some? ==> r.value.total == r.value.amount + DeliveryCharge
    ensures CustomerRows(carts, customer) == [] ==> r == Some(Summary(0, 0, DeliveryCharge))
  {
    var rows := CustomerRows(carts, customer);
    if Priced(products, rows) then
      var amount := Amount(products, rows);
      Some(Summary(CartQuantity(rows), amount, amount + DeliveryCharge))
    else None
  }

  /** What the cart page is rendered with. */
  datatype CartPage = CartPage(rows: seq<CartItem>, amount: int, total: int)

  /** `show_cart`: the customer's rows with the same amount and total as the
      JSON summary, or None when some row's product is missing. */
  function ShowCart(products: seq<Product>, carts: seq<CartItem>, customer: int): (r: Option<CartPage>)
    ensures r.Some? <==> Priced(products, CustomerRows(carts, customer))
    ensures r.Some? ==> r.value.rows == CustomerRows(carts, customer)
    ensures r.Some? ==> r.value.total == r.value.amount + DeliveryCharge
    ensures r.Some? ==> CartAmountJson(products, carts, customer)
                        == Some(Summary(CartQuantity(r.value.rows), r.value.amount, r.value.total))
  {
    var rows := CustomerRows(carts, customer);
    if Priced(products, rows) then
      var amount := Amount(products, rows);
      Some(CartPage(rows, amount, amount + DeliveryCharge))
    else None
  }

  lemma {:induction false} NoRowsOf(rows: seq<CartItem>, customer: int)
    requires forall j :: 0 <= j < |rows| ==> rows[j].customer != customer
    ensures CustomerRows(rows, customer) == []
  {
    if rows != [] {
      NoRowsOf(rows[1..], customer);
    }
  }

  /** Rows of other customers, wherever they are appended, never change a
      customer's summary. */
  lemma ForeignRowsInvisible(products: seq<Product>, carts: seq<CartItem>, extra: seq<CartItem>, customer: int)
    requires forall j :: 0 <= j < |extra| ==> extra[j].customer != customer
    ensures CartAmountJson(products, carts + extra, customer) == CartAmountJson(products, carts, customer)
  {
    CustomerRowsAppend(carts, extra, customer);
    NoRowsOf(extra, customer);
    assert CustomerRows(carts, customer) + [] == CustomerRows(carts, customer);
  }

  /** Row i with its quantity raised by `delta` (lowered when negative); every other row is kept. */
  function Bumped(carts: seq<CartItem>, i: nat, delta: int): (r: seq<CartItem>)
    requires i < |carts|
    ensures |r| == |carts| && r[i].quantity == carts[i].quantity + delta
    ensures r[i] == CartItem(carts[i].id, r[i].quantity, carts[i].customer, carts[i].product)
    ensures forall j :: 0 <= j < |carts| && j != i ==> r[j] == carts[j]
    ensures CartIds(r) == CartIds(carts)
    ensures UniquePairs(carts) ==> UniquePairs(r)
  {
    var r := carts[i := carts[i].(quantity := carts[i].quantity + delta)];
    assert forall j :: 0 <= j < |carts| ==> Key(r[j]) == Key(carts[j]);
    r
  }

  /** The deletion of row i: the rows after it move down one place, the rows
      before it stay where they are. */
  function RemoveAt(carts: seq<CartItem>, i: nat): (r: seq<CartItem>)
    requires i < |carts|
    ensures |r| == |carts| - 1
    ensures forall j :: 0 <= j < |r| ==> r[j] == carts[if j < i then j else j + 1]
    ensures Ascending(CartIds(carts)) ==> Ascending(CartIds(r))
    ensures UniquePairs(carts) ==> UniquePairs(r)
  {
    var r := carts[..i] + carts[i + 1..];
    assert forall j :: 0 <= j < |r| ==> r[j] == carts[if j < i then j else j + 1];
    assert forall j :: 0 <= j < |r| ==> CartIds(r)[j] == CartIds(carts)[if j < i then j else j + 1];
    r
  }

  /** With distinct keys, deleting row i removes exactly the rows carrying its key. */
  lemma RemoveExactlyThatRow(carts: seq<CartItem>, i: nat)
    requires i < |carts| && Ascending(CartIds(carts))
    ensures forall row :: row in RemoveAt(carts, i) <==> row in carts && row.id != carts[i].id
  {
    var r := RemoveAt(carts, i);
    forall row | row in carts && row.id != carts[i].id
      ensures row in r
    {
      var m :| 0 <= m < |carts| && carts[m] == row;
      assert r[if m < i then m else m - 1] == row;
    }
    forall row | row in r
      ensures row in carts && row.id != carts[i].id
    {
      var j :| 0 <= j < |r| && r[j] == row;
      var m := if j < i then j else j + 1;
      assert CartIds(carts)[m] != CartIds(carts)[i];
    }
  }

  /** Adding a cart row with quantity 1 for the pair: one new row with a fresh key. */
  function Inserted(carts: seq<CartItem>, customer: int, product: int): (r: seq<CartItem>)
    ensures |r| == |carts| + 1 && r[..|carts|] == carts
    ensures r[|carts|] == CartItem(NextId(CartIds(carts)), 1, customer, product)
    ensures Ascending(CartIds(carts)) ==> Ascending(CartIds(r))
    ensures FindPair(carts, customer, product).None? && UniquePairs(carts) ==> UniquePairs(r)
  {
    var r := carts + [CartItem(NextId(CartIds(carts)), 1, customer, product)];
    assert CartIds(r) == CartIds(carts) + [NextId(CartIds(carts))];
    r
  }

  lemma PricedAppend(products: seq<Product>, a: seq<CartItem>, b: seq<CartItem>)
    ensures Priced(products, a + b) <==> Priced(products, a) && Priced(products, b)
  {
    assert forall j :: 0 <= j < |a| ==> (a + b)[j] == a[j];
    assert forall j :: 0 <= j < |b| ==> (a + b)[|a| + j] == b[j];
  }

  /** A customer's rows split around row i of the table. */
  lemma SplitRows(carts: seq<CartItem>, i: nat, customer: int)
    requires i < |carts|
    ensures CustomerRows(carts, customer)
            == CustomerRows(carts[..i], customer) + CustomerRows([carts[i]], customer)
               + CustomerRows(carts[i + 1..], customer)
  {
    assert carts == carts[..i] + [carts[i]] + carts[i + 1..];
    CustomerRowsAppend(carts[..i] + [carts[i]], carts[i + 1..], customer);
    CustomerRowsAppend(carts[..i], [carts[i]], customer);
  }

  lemma OneRow(row: CartItem, customer: int)
    ensures CustomerRows([row], customer) == if row.customer == customer then [row] else []
  {
  }

  /** Sums over a sequence with a middle element taken out and, optionally, another put in its place. */
  lemma SumsAround(products: seq<Product>, pre: seq<CartItem>, mid: seq<CartItem>, post: seq<CartItem>)
    ensures CartQuantity(pre + mid + post) == CartQuantity(pre + post) + CartQuantity(mid)
    ensures Amount(products, pre + mid + post) == Amount(products, pre + post) + Amount(products, mid)
    ensures Priced(products, pre + mid + post) <==> Priced(products, pre + post) && Priced(products, mid)
  {
    SumsAppend(products, pre + mid, post);
    SumsAppend(products, pre, mid);
    SumsAppend(products, pre, post);
    PricedAppend(products, pre + mid, post);
    PricedAppend(products, pre, mid);
    PricedAppend(products, pre, post);
  }

  lemma SingleRowSums(products: seq<Product>, row: CartItem)
    ensures CartQuantity([row]) == row.quantity
    ensures Amount(products, [row]) == Charge(products, row)
    ensures Priced(products, [row]) <==> row.product in ProductIds(products)
  {
  }

  /** Adding the same product twice to a cart without it yields one new row,
      with quantity 2. */
  lemma AddTwiceOneRow(carts: seq<CartItem>, customer: int, product: int)
    requires FindPair(carts, customer, product).None?
    ensures var once := Inserted(carts, customer, product);
            && FindPair(once, customer, product) == Some(|carts|)
            && var twice := Bumped(once, |carts|, 1);
               && |twice| == |carts| + 1 && twice[..|carts|] == carts
               && twice[|carts|] == CartItem(NextId(CartIds(carts)), 2, customer, product)
  {
  }

  /** Replacing one row by another for the same product, in the middle of a sequence of rows. */
  lemma SwapRow(products: seq<Product>, pre: seq<CartItem>, row: CartItem, row': CartItem, post: seq<CartItem>)
    requires row'.product == row.product
    ensures CartQuantity(pre + [row'] + post) == CartQuantity(pre + [row] + post) - row.quantity + row'.quantity
    ensures Amount(products, pre + [row'] + post)
            == Amount(products, pre + [row] + post) - Charge(products, row) + Charge(products, row')
    ensures Priced(products, pre + [row'] + post) <==> Priced(products, pre + [row] + post)
  {
    SumsAround(products, pre, [row], post);
    SumsAround(products, pre, [row'], post);
    SingleRowSums(products, row);
    SingleRowSums(products, row');
  }

  /** Taking one row out of the middle of a sequence of rows. */
  lemma DropRow(products: seq<Product>, pre: seq<CartItem>, row: CartItem, post: seq<CartItem>)
    ensures CartQuantity(pre + post) == CartQuantity(pre + [row] + post) - row.quantity
    ensures Amount(products, pre + post) == Amount(products, pre + [row] + post) - Charge(products, row)
    ensures Priced(products, pre + [row] + post) ==> Priced(products, pre + post)
  {
    SumsAround(products, pre, [row], post);
    SingleRowSums(products, row);
  }

  /** Putting one row after a sequence of rows. */
  lemma AppendRow(products: seq<Product>, rows: seq<CartItem>, row: CartItem)
    ensures CartQuantity(rows + [row]) == CartQuantity(rows) + row.quantity
    ensures Amount(products, rows + [row]) == Amount(products, rows) + Charge(products, row)
    ensures Priced(products, rows + [row]) <==> Priced(products, rows) && row.product in ProductIds(products)
  {
    SumsAppend(products, rows, [row]);
    PricedAppend(products, rows, [row]);
    SingleRowSums(products, row);
  }

  /** Changing a row's quantity by `delta` changes its charge by `delta` times its price. */
  lemma ChargeBump(products: seq<Product>, row: CartItem, row': CartItem, delta: int)
    requires row'.product == row.product && row'.quantity == row.quantity + delta
    ensures Charge(products, row') == Charge(products, row) + delta * PriceOf(products, row.product)
  {
  }

  /** Raising or lowering row i by `delta` moves its owner's summary quantity
      by `delta` and amount by `delta` times the product's price; any other
      customer's rows are exactly as before. */
  lemma BumpEffect(products: seq<Product>, carts: seq<CartItem>, i: nat, delta: int, customer: int)
    requires i < |carts|
    ensures var before, after := CustomerRows(carts, customer), CustomerRows(Bumped(carts, i, delta), customer);
            if carts[i].customer == customer then
              && CartQuantity(after) == CartQuantity(before) + delta
              && Amount(products, after) == Amount(products, before) + delta * PriceOf(products, carts[i].product)
              && (Priced(products, after) <==> Priced(products, before))
            else after == before
  {
    var bumped := Bumped(carts, i, delta);
    var row, row' := carts[i], bumped[i];
    assert bumped[..i] == carts[..i] && bumped[i + 1..] == carts[i + 1..];
    SplitRows(carts, i, customer);
    SplitRows(bumped, i, customer);
    OneRow(row, customer);
    OneRow(row', customer);
    if row.customer == customer {
      var pre, post := CustomerRows(carts[..i], customer), CustomerRows(carts[i + 1..], customer);
      SwapRow(products, pre, row, row', post);
      ChargeBump(products, row, row', delta);
    }
  }

  /** A customer's rows once row i is deleted: those before it and those after it. */
  lemma RemoveSplit(carts: seq<CartItem>, i: nat, customer: int)
    requires i < |carts|
    ensures CustomerRows(RemoveAt(carts, i), customer)
            == CustomerRows(carts[..i], customer) + CustomerRows(carts[i + 1..], customer)
  {
    assert RemoveAt(carts, i) == carts[..i] + carts[i + 1..];
    CustomerRowsAppend(carts[..i], carts[i + 1..], customer);
  }

  /** Deleting row i lowers its owner's summary quantity by the row's quantity
      and amount by the row's charge; any other customer's rows are exactly
      as before. */
  lemma RemoveEffect(products: seq<Product>, carts: seq<CartItem>, i: nat, customer: int)
    requires i < |carts|
    ensures var before, after := CustomerRows(carts, customer), CustomerRows(RemoveAt(carts, i), customer);
            if carts[i].customer == customer then
              && CartQuantity(after) == CartQuantity(before) - carts[i].quantity
              && Amount(products, after)
                 == Amount(products, before) - Charge(products, carts[i])
              && (Priced(products, before) ==> Priced(products, after))
            else after == before
  {
    SplitRows(carts, i, customer);
    RemoveSplit(carts, i, customer);
    OneRow(carts[i], customer);
    var pre, post := CustomerRows(carts[..i], customer), CustomerRows(carts[i + 1..], customer);
    if carts[i].customer == customer {
      DropRow(products, pre, carts[i], post);
    } else {
      EmptyMiddle(pre, post);
    }
  }

  lemma EmptyMiddle(pre: seq<CartItem>, post: seq<CartItem>)
    ensures pre + [] + post == pre + post
  {
  }

  /** Inserting a fresh row with quantity 1 raises its owner's summary
      quantity by 1 and amount by the product's price; any other customer's
      rows are exactly as before. */
  lemma InsertEffect(products: seq<Product>, carts: seq<CartItem>, owner: int, product: int, customer: int)
    ensures var before, after := CustomerRows(carts, customer), CustomerRows(Inserted(carts, owner, product), customer);
            if owner == customer then
              && CartQuantity(after) == CartQuantity(before) + 1
              && Amount(products, after) == Amount(products, before) + PriceOf(products, product)
              && (Priced(products, after) <==> Priced(products, before) && product in ProductIds(products))
            else after == before
  {
    var row := CartItem(NextId(CartIds(carts)), 1, owner, product);
    assert Inserted(carts, owner, product) == carts + [row];
    CustomerRowsAppend(carts, [row], customer);
    OneRow(row, customer);
    var before := CustomerRows(carts, customer);
    if owner == customer {
      AppendRow(products, before, row);
      assert Charge(products, row) == PriceOf(products, product);
    } else {
      assert before + [] == before;
    }
  }
}
