/**
 * `OrderController`: the caller's orders, turning the caller's cart into a
 * pending order (one order item per cart line, then the cart's lines are
 * deleted), and cancelling one of the caller's orders.
 */
module OrderLedger {
  import opened Wrappers
  import opened Json
  import opened Tables
  import opened Models
  import opened Envelope
  import opened CartLedger
  import Catalogue

  // ---------------------------------------------------------------- index

  function IsOrderOf(user: nat): Row<Order> -> bool
  {
    (o: Row<Order>) => o.val.userId == user
  }

  /** `Order::where('user_id', user)->get()`: exactly the caller's orders, in table order. */
  function OrdersOf(orders: seq<Row<Order>>, user: nat): (r: seq<Row<Order>>)
    ensures forall k :: 0 <= k < |r| ==> r[k] in orders && r[k].val.userId == user
    ensures forall k :: 0 <= k < |orders| && orders[k].val.userId == user ==> orders[k] in r
    ensures Ascending(orders) ==> Ascending(r)
  {
    WhereKeepsOrder(orders, IsOrderOf(user));
    Where(orders, IsOrderOf(user))
  }

  function StatusJson(s: OrderStatus): Json
  {
    match s
    case Pending => JStr("pending")
    case Completed => JStr("completed")
    case Cancelled => JStr("cancelled")
  }

  function OrderFields(o: Row<Order>): seq<(string, Json)>
  {
    [("id", JInt(o.id)), ("user_id", JInt(o.val.userId)), ("order_number", JStr(o.val.orderNumber)),
     ("status", StatusJson(o.val.status)), ("grand_total", JInt(o.val.grandTotal))]
  }

  /** A model just created serialises its filled attributes in fill order, then its id. */
  function CreatedOrderFields(o: Row<Order>): seq<(string, Json)>
  {
    [("user_id", JInt(o.val.userId)), ("order_number", JStr(o.val.orderNumber)),
     ("status", StatusJson(o.val.status)), ("grand_total", JInt(o.val.grandTotal)), ("id", JInt(o.id))]
  }

  function IsItemOf(orderId: nat): Row<OrderItem> -> bool
  {
    (i: Row<OrderItem>) => i.val.orderId == orderId
  }

  /** An order's items (`$order->items`), in table order. */
  function ItemsOf(items: seq<Row<OrderItem>>, orderId: nat): seq<Row<OrderItem>>
  {
    Where(items, IsItemOf(orderId))
  }

  /** An order item with its product loaded (`items.product`). */
  function ItemJson(i: Row<OrderItem>, products: seq<Row<Product>>): Json
  {
    var product := match ProductIndex(products, i.val.productId)
      case Some(k) => Catalogue.ProductJson(products[k])
      case None => JNull;
    JObj([("id", JInt(i.id)), ("order_id", JInt(i.val.orderId)), ("product_id", JInt(i.val.productId)),
          ("quantity", JInt(i.val.quantity)), ("unit_price", JInt(i.val.unitPrice)), ("price", JInt(i.val.price)),
          ("product", product)])
  }

  function OrderWithItemsJson(o: Row<Order>, items: seq<Row<OrderItem>>, products: seq<Row<Product>>): Json
  {
    var own := ItemsOf(items, o.id);
    JObj(OrderFields(o) + [("items", JArr(seq(|own|, k requires 0 <= k < |own| => ItemJson(own[k], products))))])
  }

  /** The key and owner an order shows in its JSON. */
  lemma OrderJsonKeys(o: Row<Order>, items: seq<Row<OrderItem>>, products: seq<Row<Product>>)
    ensures Input(OrderWithItemsJson(o, items, products), "id") == Some(JInt(o.id))
    ensures Input(OrderWithItemsJson(o, items, products), "user_id") == Some(JInt(o.val.userId))
  {
    var fields := OrderWithItemsJson(o, items, products).fields;
    assert fields[..5] == OrderFields(o);
    assert Get(fields, "id") == Get(fields[..5], "id");
    assert Get(fields, "user_id") == Get(fields[..5], "user_id");
    var f := OrderFields(o);
    assert f[..4][..3] == f[..3] && f[..3][..2] == f[..2] && f[..2][..1] == f[..1];
    assert Get(f, "id") == Get(f[..4], "id") == Get(f[..3], "id") == Get(f[..2], "id") == Get(f[..1], "id");
    assert Get(f, "user_id") == Get(f[..4], "user_id") == Get(f[..3], "user_id") == Get(f[..2], "user_id");
  }

  function OrdersJson(os: seq<Row<Order>>, items: seq<Row<OrderItem>>, products: seq<Row<Product>>): Json
  {
    JArr(seq(|os|, k requires 0 <= k < |os| => OrderWithItemsJson(os[k], items, products)))
  }

  /** `index`: the caller's orders with their items and products. */
  function Index(orders: seq<Row<Order>>, items: seq<Row<OrderItem>>, products: seq<Row<Product>>, user: nat): (r: Response)
    ensures r.status == 200
    ensures Read(r.body) == Some(Envelope(true, 200, "User Order Details",
                                          Data(OrdersJson(OrdersOf(orders, user), items, products))))
  {
    SuccessRes(200, "User Order Details", OrdersJson(OrdersOf(orders, user), items, products))
  }

  /**
   * The reply of `index` lists one order per element, each one of the
   * caller's, and every order of the caller appears in it.
   */
  lemma IndexListsOwnOrders(orders: seq<Row<Order>>, items: seq<Row<OrderItem>>, products: seq<Row<Product>>,
                            user: nat)
    ensures var listed := OrdersOf(orders, user);
            && (forall k :: 0 <= k < |listed| ==> Input(OrdersJson(listed, items, products).items[k], "user_id") == Some(JInt(user)))
            && (forall k :: 0 <= k < |orders| && orders[k].val.userId == user ==>
                  exists m :: 0 <= m < |listed| && Input(OrdersJson(listed, items, products).items[m], "id") == Some(JInt(orders[k].id)))
  {
    var listed := OrdersOf(orders, user);
    var json := OrdersJson(listed, items, products);
    forall k | 0 <= k < |listed| ensures Input(json.items[k], "user_id") == Some(JInt(user)) {
      assert json.items[k] == OrderWithItemsJson(listed[k], items, products);
      OrderJsonKeys(listed[k], items, products);
    }
    forall k | 0 <= k < |orders| && orders[k].val.userId == user
      ensures exists m :: 0 <= m < |listed| && Input(json.items[m], "id") == Some(JInt(orders[k].id))
    {
      var m :| 0 <= m < |listed| && listed[m] == orders[k];
      assert json.items[m] == OrderWithItemsJson(listed[m], items, products);
      OrderJsonKeys(listed[m], items, products);
    }
  }

  // ---------------------------------------------------------------- placeOrder

  /** PHP's `strtoupper` on one character: ASCII letters only. */
  function UpperChar(c: char): char
  {
    if 'a' <= c <= 'z' then (c as int - 32) as char else c
  }

  /** `strtoupper`: every ASCII lower-case letter becomes its capital, every other character stays. */
  function Upper(s: string): (r: string)
    ensures |r| == |s|
    ensures forall k :: 0 <= k < |r| ==> !('a' <= r[k] <= 'z')
    ensures forall k :: 0 <= k < |s| && !('a' <= s[k] <= 'z') ==> r[k] == s[k]
    ensures forall k :: 0 <= k < |s| && 'a' <= s[k] <= 'z' ==> r[k] as int == s[k] as int - 32
  {
    seq(|s|, k requires 0 <= k < |s| => UpperChar(s[k]))
  }

  /** `'ORD-' . strtoupper(token)`, where the token stands for `uniqid()`. */
  function OrderNumber(token: string): string
  {
    "ORD-" + Upper(token)
  }

  /** An order number starts with `ORD-`, has no lower-case ASCII letter, and upper-casing it again changes nothing. */
  lemma OrderNumberShape(token: string)
    ensures |OrderNumber(token)| == 4 + |token| && OrderNumber(token)[..4] == "ORD-"
    ensures forall k :: 0 <= k < |OrderNumber(token)| ==> !('a' <= OrderNumber(token)[k] <= 'z')
    ensures Upper(OrderNumber(token)) == OrderNumber(token)
  {
    var n := OrderNumber(token);
    forall k | 0 <= k < |n| ensures !('a' <= n[k] <= 'z') {
      if k >= 4 {
        assert n[k] == Upper(token)[k - 4];
      }
    }
  }

  /** The cart the caller checks out: its id when the caller has a cart with at least one line. */
  function Checkout(carts: seq<Row<Cart>>, items: seq<Row<CartItem>>, user: nat): (r: Option<nat>)
    ensures r.None? <==> CartOf(carts, user).None? || LinesOf(items, carts[CartOf(carts, user).value].id) == []
    ensures r.Some? ==> r.value == carts[CartOf(carts, user).value].id
  {
    match CartOf(carts, user)
    case None => None
    case Some(i) => if LinesOf(items, carts[i].id) == [] then None else Some(carts[i].id)
  }

  /** The order item copied from one cart line. */
  function ItemFromLine(orderId: nat, l: CartItem): OrderItem
  {
    OrderItem(orderId, l.productId, l.quantity, l.unitPrice, l.total)
  }

  /** The `foreach` of `placeOrder`: one `OrderItem::create` per cart line, in order. */
  function CopyLines(items: Table<OrderItem>, orderId: nat, lines: seq<Row<CartItem>>): Table<OrderItem>
  {
    if lines == [] then items
    else CopyLines(items, orderId, lines[..|lines| - 1]).Insert(ItemFromLine(orderId, lines[|lines| - 1].val))
  }

  /**
   * Copying appends exactly one item per line, the k-th copying the k-th line
   * and taking the k-th next key; the items already there are kept.
   */
  lemma {:induction false} CopyLinesShape(items: Table<OrderItem>, orderId: nat, lines: seq<Row<CartItem>>)
    ensures var t := CopyLines(items, orderId, lines);
            && |t.rows| == |items.rows| + |lines| && t.nextId == items.nextId + |lines|
            && t.rows[..|items.rows|] == items.rows
            && forall k :: 0 <= k < |lines| ==>
                 t.rows[|items.rows| + k] == Row(items.nextId + k, ItemFromLine(orderId, lines[k].val))
    ensures items.Valid() ==> CopyLines(items, orderId, lines).Valid()
  {
    if lines != [] {
      var init := lines[..|lines| - 1];
      CopyLinesShape(items, orderId, init);
      var t := CopyLines(items, orderId, init);
      var u := t.Insert(ItemFromLine(orderId, lines[|lines| - 1].val));
      assert u.rows[..|items.rows|] == t.rows[..|items.rows|];
      forall k | 0 <= k < |lines|
        ensures u.rows[|items.rows| + k] == Row(items.nextId + k, ItemFromLine(orderId, lines[k].val))
      {
        if k < |init| {
          assert init[k] == lines[k];
        }
      }
    }
  }

  /** `$order->items->sum('price')`. */
  function SumPrices(items: seq<Row<OrderItem>>): nat
  {
    if items == [] then 0 else SumPrices(items[..|items| - 1]) + items[|items| - 1].val.price
  }

  /** The prices of the copied items of an order add up to the totals of the cart lines they copy. */
  lemma {:induction false} CopiedPricesSum(items: Table<OrderItem>, orderId: nat, lines: seq<Row<CartItem>>)
    requires forall k :: 0 <= k < |items.rows| ==> items.rows[k].val.orderId != orderId
    ensures SumPrices(ItemsOf(CopyLines(items, orderId, lines).rows, orderId)) == SumTotals(lines)
  {
    if lines == [] {
      WhereNone(items.rows, IsItemOf(orderId));
    } else {
      var init := lines[..|lines| - 1];
      var l := lines[|lines| - 1];
      CopiedPricesSum(items, orderId, init);
      var t := CopyLines(items, orderId, init);
      var x := Row(t.nextId, ItemFromLine(orderId, l.val));
      WhereAppend(t.rows, [x], IsItemOf(orderId));
      WhereOne(x, IsItemOf(orderId));
      assert ItemsOf(t.rows + [x], orderId) == ItemsOf(t.rows, orderId) + [x];
    }
  }

  /** The order keys below the counter are exactly those an order item may refer to. */
  lemma CopyLinesIssued(items: Table<OrderItem>, orders: Table<Order>, lines: seq<Row<CartItem>>, o: Order)
    requires ItemsOfIssuedOrders(items.rows, orders)
    ensures ItemsOfIssuedOrders(CopyLines(items, orders.nextId, lines).rows, orders.Insert(o))
  {
    CopyLinesShape(items, orders.nextId, lines);
    var t := CopyLines(items, orders.nextId, lines);
    forall k | 0 <= k < |t.rows| ensures t.rows[k].val.orderId < orders.nextId + 1 {
      if k < |items.rows| {
        assert t.rows[k] == t.rows[..|items.rows|][k];
      } else {
        var m := k - |items.rows|;
        assert t.rows[|items.rows| + m] == Row(items.nextId + m, ItemFromLine(orders.nextId, lines[m].val));
      }
    }
  }

  /** The loop of `placeOrder`. */
  method CreateItems(start: Table<OrderItem>, orderId: nat, lines: seq<Row<CartItem>>) returns (items: Table<OrderItem>)
    ensures items == CopyLines(start, orderId, lines)
  {
    items := start;
    for k := 0 to |lines|
      invariant items == CopyLines(start, orderId, lines[..k])
    {
      var line := lines[k];
      assert lines[..k + 1][..k] == lines[..k] && lines[..k + 1][k] == line;
      items := items.Insert(ItemFromLine(orderId, line.val));
    }
    assert lines[..|lines|] == lines;
  }

  /** The order `placeOrder` creates. */
  function NewOrder(user: nat, token: string, lines: seq<Row<CartItem>>): Order
  {
    Order(user, OrderNumber(token), Pending, SumTotals(lines))
  }

  /**
   * `placeOrder`: with no cart, or an empty one, 403 `Cart is empty` and
   * nothing changes; otherwise a pending order for the caller whose grand
   * total is the sum of the lines, one item per line, and the cart's lines deleted.
   */
  method PlaceOrder(db: Database, user: nat, token: string) returns (reply: Reply)
    requires db.Valid()
    modifies db
    ensures db.Valid()
    ensures db.products == old(db.products) && db.carts == old(db.carts)
    ensures Checkout(old(db.carts.rows), old(db.cartItems.rows), user).None? ==>
      && reply == Sent(ErrorRes(403, "Cart is empty", JArr([])))
      && db.cartItems == old(db.cartItems) && db.orders == old(db.orders) && db.orderItems == old(db.orderItems)
    ensures Checkout(old(db.carts.rows), old(db.cartItems.rows), user).Some? ==>
      var cartId := Checkout(old(db.carts.rows), old(db.cartItems.rows), user).value;
      var lines := LinesOf(old(db.cartItems.rows), cartId);
      var order := NewOrder(user, token, lines);
      && db.orders == old(db.orders).Insert(order)
      && db.orderItems == CopyLines(old(db.orderItems), old(db.orders.nextId), lines)
      && db.cartItems == ClearLines(old(db.cartItems), cartId)
      && reply == Sent(SuccessRes(200, "Order placed successfully", JObj(CreatedOrderFields(Row(old(db.orders.nextId), order)))))
  {
    var cartId := Checkout(db.carts.rows, db.cartItems.rows, user);
    if cartId.None? {
      return Sent(ErrorRes(403, "Cart is empty", JArr([])));
    }
    reply := SaveOrder(db, user, token, cartId.value);
  }

  /**
   * The part of `placeOrder` once the cart is known: the order created, one
   * item per line of the cart, and the cart's lines deleted.
   */
  method SaveOrder(db: Database, user: nat, token: string, cartId: nat) returns (reply: Reply)
    requires db.Valid()
    modifies db
    ensures db.Valid()
    ensures db.products == old(db.products) && db.carts == old(db.carts)
    ensures var lines := LinesOf(old(db.cartItems.rows), cartId);
      var order := NewOrder(user, token, lines);
      && db.orders == old(db.orders).Insert(order)
      && db.orderItems == CopyLines(old(db.orderItems), old(db.orders.nextId), lines)
      && db.cartItems == ClearLines(old(db.cartItems), cartId)
      && reply == Sent(SuccessRes(200, "Order placed successfully", JObj(CreatedOrderFields(Row(old(db.orders.nextId), order)))))
  {
    var lines := LinesOf(db.cartItems.rows, cartId);
    var orderId := db.orders.nextId;
    var order := NewOrder(user, token, lines);
    CopyLinesIssued(db.orderItems, db.orders, lines, order);
    CopyLinesShape(db.orderItems, orderId, lines);
    var orders := db.orders.Insert(order);
    var items := CreateItems(db.orderItems, orderId, lines);
    WhereKeepsLines(db.cartItems.rows, Not(IsLineOf(cartId)));
    var cartItems := ClearLines(db.cartItems, cartId);
    assert Consistent(db.products, db.carts, cartItems, orders, items);
    db.orders, db.orderItems, db.cartItems := orders, items, cartItems;
    reply := Sent(SuccessRes(200, "Order placed successfully", JObj(CreatedOrderFields(Row(orderId, order)))));
  }

  /**
   * What a placed order holds: the caller, `pending`, an `ORD-` number, and a
   * grand total equal to the sum of its items' prices (the items themselves
   * are described by `CopyLinesShape`).
   */
  lemma PlacedOrderAgrees(orders: Table<Order>, items: Table<OrderItem>, user: nat, token: string,
                          lines: seq<Row<CartItem>>)
    requires ItemsOfIssuedOrders(items.rows, orders)
    ensures var order := NewOrder(user, token, lines);
            && order.userId == user && order.status == Pending && order.orderNumber[..4] == "ORD-"
            && SumPrices(ItemsOf(CopyLines(items, orders.nextId, lines).rows, orders.nextId)) == order.grandTotal
  {
    OrderNumberShape(token);
    assert forall k :: 0 <= k < |items.rows| ==> items.rows[k].val.orderId != orders.nextId;
    CopiedPricesSum(items, orders.nextId, lines);
  }

  /**
   * After an order is placed from a cart, that cart has no lines and every
   * other cart's lines are as they were.
   */
  lemma PlacedCartIsEmpty(items: Table<CartItem>, cartId: nat, other: nat)
    ensures LinesOf(ClearLines(items, cartId).rows, cartId) == []
    ensures other != cartId ==> LinesOf(ClearLines(items, cartId).rows, other) == LinesOf(items.rows, other)
  {
    ClearEmpties(items, cartId);
    if other != cartId {
      ClearKeepsOthers(items, cartId, other);
    }
  }

  // ---------------------------------------------------------------- cancelOrder

  function IsOwnOrder(user: nat, id: int): Row<Order> -> bool
  {
    (o: Row<Order>) => o.val.userId == user && o.id == id
  }

  /** `update(['status' => 'cancelled'])` on the order at index `i`. */
  function Cancel(orders: Table<Order>, i: nat): (t: Table<Order>)
    requires i < |orders.rows|
    ensures orders.Valid() ==> t.Valid()
    ensures t.nextId == orders.nextId && |t.rows| == |orders.rows|
    ensures t.rows[i].id == orders.rows[i].id && t.rows[i].val.status == Cancelled
    ensures t.rows[i].val.userId == orders.rows[i].val.userId
    ensures t.rows[i].val.orderNumber == orders.rows[i].val.orderNumber
    ensures t.rows[i].val.grandTotal == orders.rows[i].val.grandTotal
    ensures forall j :: 0 <= j < |orders.rows| && j != i ==> t.rows[j] == orders.rows[j]
  {
    orders.Put(i, orders.rows[i].val.(status := Cancelled))
  }

  /**
   * `cancelOrder`: the order with key `id` must be the caller's
   * (`firstOrFail`), else not-found and nothing changes; it becomes
   * `cancelled` whatever its status was.
   */
  method CancelOrder(db: Database, user: nat, id: int) returns (reply: Reply)
    requires db.Valid()
    modifies db
    ensures db.Valid()
    ensures db.products == old(db.products) && db.carts == old(db.carts) && db.cartItems == old(db.cartItems)
    ensures db.orderItems == old(db.orderItems)
    ensures Find(old(db.orders.rows), IsOwnOrder(user, id)).None? ==>
      reply == Thrown(ModelNotFound) && db.orders == old(db.orders)
    ensures Find(old(db.orders.rows), IsOwnOrder(user, id)).Some? ==>
      && db.orders == Cancel(old(db.orders), Find(old(db.orders.rows), IsOwnOrder(user, id)).value)
      && reply == Sent(SuccessRes(200, "Order cancelled successfully", JArr([])))
  {
    var found := Find(db.orders.rows, IsOwnOrder(user, id));
    if found.None? {
      return Thrown(ModelNotFound);
    }
    var i := found.value;
    db.orders := db.orders.Put(i, db.orders.rows[i].val.(status := Cancelled));
    reply := Sent(SuccessRes(200, "Order cancelled successfully", JArr([])));
  }

  /**
   * Only an order of the caller with the given key can be cancelled: no other
   * order changes, and the one that does has that key and owner.
   */
  lemma CancelTouchesOnlyOwn(orders: Table<Order>, user: nat, id: int)
    requires Find(orders.rows, IsOwnOrder(user, id)).Some?
    ensures var i := Find(orders.rows, IsOwnOrder(user, id)).value;
            && orders.rows[i].val.userId == user && orders.rows[i].id == id
            && forall j :: 0 <= j < |orders.rows| && !(orders.rows[j].val.userId == user && orders.rows[j].id == id) ==>
                 Cancel(orders, i).rows[j] == orders.rows[j]
  {
    var i := Find(orders.rows, IsOwnOrder(user, id)).value;
    assert IsOwnOrder(user, id)(orders.rows[i]);
  }

  /** Cancelling twice is cancelling once: the second call finds the same order and changes nothing. */
  lemma CancelIdempotent(orders: Table<Order>, user: nat, id: int)
    requires Find(orders.rows, IsOwnOrder(user, id)).Some?
    ensures var i := Find(orders.rows, IsOwnOrder(user, id)).value;
            && Find(Cancel(orders, i).rows, IsOwnOrder(user, id)) == Some(i)
            && Cancel(Cancel(orders, i), i) == Cancel(orders, i)
  {
    var i := Find(orders.rows, IsOwnOrder(user, id)).value;
    FindAlike(Cancel(orders, i).rows, orders.rows, IsOwnOrder(user, id), IsOwnOrder(user, id));
    assert Cancel(orders, i).rows[i := Cancel(orders, i).rows[i]] == Cancel(orders, i).rows;
  }

  /**
   * A whole checkout: a user with no cart adds three of product 7 at 1200
   * cents, pays 3600, and the order placed from that cart has grand total
   * 3600 while the cart is left without lines.
   */
  lemma CheckoutScenario()
    ensures var products := [Row(7, Product("Tea", "Green", 1200, None))];
            var carts := FirstOrCreate(Table([], 1), 5).0;
            var items := ApplyEntries(Table([], 1), 1, [Entry(7, 3)], products);
            && Payable(carts.rows, items.rows, 5) == 3600
            && Checkout(carts.rows, items.rows, 5) == Some(1)
            && NewOrder(5, "abc", LinesOf(items.rows, 1)).grandTotal == 3600
            && LinesOf(ClearLines(items, 1).rows, 1) == []
  {
    var products := [Row(7, Product("Tea", "Green", 1200, None))];
    var carts := FirstOrCreate(Table([], 1), 5).0;
    assert carts.rows == [Row(1, Cart(5))];
    assert CartOf(carts.rows, 5) == Some(0);
    assert ProductIndex(products, 7) == Some(0);
    assert [Entry(7, 3)][..0] == [];
    var items := ApplyEntries(Table([], 1), 1, [Entry(7, 3)], products);
    assert items.rows == [Row(1, CartItem(1, 7, 3, 1200, 3600))];
    var lines := LinesOf(items.rows, 1);
    WhereAll(items.rows, IsLineOf(1));
    assert SumTotals(lines) == SumTotals([]) + 3600;
    ClearEmpties(items, 1);
  }
}
