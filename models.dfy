/**
 * The five Eloquent models the ledger works on and the database that holds
 * their tables. Prices and totals are integer cents, so PHP's
 * `round(x, 2)` on them is the identity and is left implicit.
 */
module Models {
  import opened Wrappers
  import opened Tables

  datatype Product = Product(name: string, detail: string, price: nat, image: Option<string>)

  datatype Cart = Cart(userId: nat)

  datatype CartItem = CartItem(cartId: nat, productId: nat, quantity: nat, unitPrice: nat, total: nat)

  datatype OrderStatus = Pending | Completed | Cancelled

  datatype Order = Order(userId: nat, orderNumber: string, status: OrderStatus, grandTotal: nat)

  datatype OrderItem = OrderItem(orderId: nat, productId: nat, quantity: nat, unitPrice: nat, price: nat)

  /** No user owns two carts. */
  ghost predicate OneCartPerUser(carts: seq<Row<Cart>>)
  {
    forall i, j :: 0 <= i < j < |carts| ==> carts[i].val.userId != carts[j].val.userId
  }

  /** No cart holds two lines for the same product. */
  ghost predicate OneLinePerProduct(items: seq<Row<CartItem>>)
  {
    forall i, j :: 0 <= i < j < |items| ==>
      items[i].val.cartId != items[j].val.cartId || items[i].val.productId != items[j].val.productId
  }

  /** Every cart line has a quantity of at least one. */
  ghost predicate PositiveQuantities(items: seq<Row<CartItem>>)
  {
    forall i :: 0 <= i < |items| ==> items[i].val.quantity >= 1
  }

  /** Every order item belongs to an order key that has already been handed out. */
  ghost predicate ItemsOfIssuedOrders(items: seq<Row<OrderItem>>, orders: Table<Order>)
  {
    forall i :: 0 <= i < |items| ==> items[i].val.orderId < orders.nextId
  }

  /** The invariant of the five tables together. */
  ghost predicate Consistent(products: Table<Product>, carts: Table<Cart>, cartItems: Table<CartItem>,
                             orders: Table<Order>, orderItems: Table<OrderItem>)
  {
    && products.Valid() && carts.Valid() && cartItems.Valid() && orders.Valid() && orderItems.Valid()
    && OneCartPerUser(carts.rows)
    && OneLinePerProduct(cartItems.rows)
    && PositiveQuantities(cartItems.rows)
    && ItemsOfIssuedOrders(orderItems.rows, orders)
  }

  /** The application's database: one table per model. */
  class Database {
    var products: Table<Product>
    var carts: Table<Cart>
    var cartItems: Table<CartItem>
    var orders: Table<Order>
    var orderItems: Table<OrderItem>

    /** The invariant every controller action keeps. */
    ghost predicate Valid()
      reads this
    {
      Consistent(products, carts, cartItems, orders, orderItems)
    }

    /** A freshly migrated database: every table empty, every counter at 1. */
    constructor ()
      ensures Valid()
      ensures products == Table([], 1) && carts == Table([], 1) && cartItems == Table([], 1)
      ensures orders == Table([], 1) && orderItems == Table([], 1)
    {
      products := Table([], 1);
      carts := Table([], 1);
      cartItems := Table([], 1);
      orders := Table([], 1);
      orderItems := Table([], 1);
    }
  }
}
