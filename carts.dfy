/**
 * `CartController`: the caller's cart (created on first use), its lines
 * (one per product, upserted by `addToCart`, whose quantity is overwritten),
 * their totals and the payable amount, and the deletion of one line or of
 * all of a cart's lines.
 */
module CartLedger {
  import opened Wrappers
  import opened Json
  import opened Tables
  import opened Models
  import opened Envelope
  import Catalogue

  // ---------------------------------------------------------------- queries

  function IsCartOf(user: nat): Row<Cart> -> bool
  {
    (c: Row<Cart>) => c.val.userId == user
  }

  /** `Cart::where('user_id', user)->first()`, by index. */
  function CartOf(carts: seq<Row<Cart>>, user: nat): (r: Option<nat>)
    ensures r.Some? ==> r.value < |carts| && carts[r.value].val.userId == user
    ensures r.None? <==> forall k :: 0 <= k < |carts| ==> carts[k].val.userId != user
  {
    var r := Find(carts, IsCartOf(user));
    assert r.Some? ==> IsCartOf(user)(carts[r.value]);
    assert r.None? ==> forall k :: 0 <= k < |carts| ==> !IsCartOf(user)(carts[k]);
    r
  }

  function IsLineOf(cartId: nat): Row<CartItem> -> bool
  {
    (l: Row<CartItem>) => l.val.cartId == cartId
  }

  /** A cart's lines, in table order (`$cart->items`). */
  function LinesOf(items: seq<Row<CartItem>>, cartId: nat): seq<Row<CartItem>>
  {
    Where(items, IsLineOf(cartId))
  }

  function IsLineFor(cartId: nat, productId: nat): Row<CartItem> -> bool
  {
    (l: Row<CartItem>) => l.val.cartId == cartId && l.val.productId == productId
  }

  /** The line of `cartId` for `productId`, by index (`CartItem::firstOrNew([...])`). */
  function LineFor(items: seq<Row<CartItem>>, cartId: nat, productId: nat): (r: Option<nat>)
    ensures r.Some? ==>
      r.value < |items| && items[r.value].val.cartId == cartId && items[r.value].val.productId == productId
    ensures r.Some? ==> forall k :: 0 <= k < r.value ==>
      !(items[k].val.cartId == cartId && items[k].val.productId == productId)
    ensures r.None? <==> forall k :: 0 <= k < |items| ==>
      !(items[k].val.cartId == cartId && items[k].val.productId == productId)
  {
    var r := Find(items, IsLineFor(cartId, productId));
    assert r.Some? ==> IsLineFor(cartId, productId)(items[r.value]);
    assert r.Some? ==> forall k :: 0 <= k < r.value ==> !IsLineFor(cartId, productId)(items[k]);
    assert r.None? ==> forall k :: 0 <= k < |items| ==> !IsLineFor(cartId, productId)(items[k]);
    r
  }

  /** `Product::find(id)`, by index. */
  function ProductIndex(products: seq<Row<Product>>, id: nat): (r: Option<nat>)
    ensures r.Some? ==> r.value < |products| && products[r.value].id == id
    ensures r.None? <==> forall k :: 0 <= k < |products| ==> products[k].id != id
  {
    var r := Find(products, Catalogue.HasId(id));
    assert r.Some? ==> Catalogue.HasId(id)(products[r.value]);
    assert r.None? ==> forall k :: 0 <= k < |products| ==> !Catalogue.HasId(id)(products[k]);
    r
  }

  predicate ProductExists(products: seq<Row<Product>>, id: nat)
  {
    ProductIndex(products, id).Some?
  }

  /** The current price of an existing product. */
  function PriceOf(products: seq<Row<Product>>, id: nat): nat
    requires ProductExists(products, id)
  {
    products[ProductIndex(products, id).value].val.price
  }

  /** `$items->sum('total')`. */
  function SumTotals(lines: seq<Row<CartItem>>): nat
  {
    if lines == [] then 0 else SumTotals(lines[..|lines| - 1]) + lines[|lines| - 1].val.total
  }

  lemma {:induction false} SumTotalsAppend(a: seq<Row<CartItem>>, b: seq<Row<CartItem>>)
    ensures SumTotals(a + b) == SumTotals(a) + SumTotals(b)
  {
    if b != [] {
      SumTotalsAppend(a, b[..|b| - 1]);
      assert (a + b)[..|a + b| - 1] == a + b[..|b| - 1];
    } else {
      assert a + b == a;
    }
  }

  // ---------------------------------------------------------------- the request

  /** One validated element of `products`. */
  datatype Entry = Entry(productId: nat, quantity: nat)

  /** `products.*.product_id` (required, exists) and `products.*.quantity` (required, integer, min 1). */
  function ParseEntry(v: Json, products: seq<Row<Product>>): (e: Option<Entry>)
    ensures e.Some? ==> e.value.quantity >= 1 && ProductExists(products, e.value.productId)
    ensures e.Some? ==>
      Input(v, "product_id") == Some(JInt(e.value.productId)) && Input(v, "quantity") == Some(JInt(e.value.quantity))
  {
    match (Input(v, "product_id"), Input(v, "quantity"))
    case (Some(JInt(id)), Some(JInt(q))) =>
      if id >= 0 && ProductExists(products, id) && q >= 1 then Some(Entry(id, q)) else None
    case _ => None
  }

  /** A request element names an existing product and a whole quantity of at least one. */
  predicate GoodEntry(v: Json, products: seq<Row<Product>>)
  {
    && Input(v, "product_id").Some? && Input(v, "product_id").value.JInt?
    && Input(v, "product_id").value.n >= 0
    && (exists k :: 0 <= k < |products| && products[k].id == Input(v, "product_id").value.n)
    && Input(v, "quantity").Some? && Input(v, "quantity").value.JInt?
    && Input(v, "quantity").value.n >= 1
  }

  function ParseEntries(vs: seq<Json>, products: seq<Row<Product>>): (es: Option<seq<Entry>>)
    ensures es.Some? ==>
      |es.value| == |vs| && forall k :: 0 <= k < |vs| ==> ParseEntry(vs[k], products) == Some(es.value[k])
    ensures es.None? ==> exists k :: 0 <= k < |vs| && ParseEntry(vs[k], products).None?
  {
    if vs == [] then Some([])
    else
      match (ParseEntries(vs[..|vs| - 1], products), ParseEntry(vs[|vs| - 1], products))
      case (Some(es), Some(e)) => Some(es + [e])
      case (None, _) => None
      case (_, None) => None
  }

  /** The rules of `addToCart`'s `validate` call; `None` is the validation exception. */
  function ParseRequest(body: Json, products: seq<Row<Product>>): Option<seq<Entry>>
  {
    var p := Input(body, "products");
    if Present(p) && (p.value.JArr? || p.value.JObj?) then ParseEntries(Values(p.value), products)
    else None
  }

  /**
   * A request is accepted exactly when `products` is a non-empty array and
   * every one of its elements is a good entry.
   */
  lemma {:induction false} ParseRequestAccepts(body: Json, products: seq<Row<Product>>)
    ensures ParseRequest(body, products).Some? <==>
      && Present(Input(body, "products"))
      && (Input(body, "products").value.JArr? || Input(body, "products").value.JObj?)
      && forall k :: 0 <= k < |Values(Input(body, "products").value)| ==>
           GoodEntry(Values(Input(body, "products").value)[k], products)
  {
    var p := Input(body, "products");
    if Present(p) && (p.value.JArr? || p.value.JObj?) {
      var vs := Values(p.value);
      forall k | 0 <= k < |vs| ensures ParseEntry(vs[k], products).Some? <==> GoodEntry(vs[k], products) {
        var v := vs[k];
        if GoodEntry(v, products) {
          var id := Input(v, "product_id").value.n;
          var j :| 0 <= j < |products| && products[j].id == id;
          assert ProductIndex(products, id).Some?;
        }
      }
    }
  }

  /** Every accepted entry names an existing product and a quantity of at least one. */
  lemma ParsedEntriesGood(body: Json, products: seq<Row<Product>>)
    requires ParseRequest(body, products).Some?
    ensures AllExist(ParseRequest(body, products).value, products)
    ensures Positive(ParseRequest(body, products).value)
  {
    var p := Input(body, "products");
    var vs := Values(p.value);
    var es := ParseRequest(body, products).value;
    forall k | 0 <= k < |es| ensures ProductExists(products, es[k].productId) && es[k].quantity >= 1 {
      assert ParseEntry(vs[k], products) == Some(es[k]);
    }
  }

  // ---------------------------------------------------------------- the upsert

  /**
   * `firstOrCreate(['user_id' => user])`: the table and the id of the caller's
   * cart, inserting one when the caller has none.
   */
  function FirstOrCreate(carts: Table<Cart>, user: nat): (r: (Table<Cart>, nat))
    requires carts.Valid() && OneCartPerUser(carts.rows)
    ensures r.0.Valid() && OneCartPerUser(r.0.rows)
    ensures CartOf(r.0.rows, user).Some? && r.0.rows[CartOf(r.0.rows, user).value].id == r.1
    ensures CartOf(carts.rows, user).Some? ==> r.0 == carts
    ensures CartOf(carts.rows, user).None? ==> r.0 == carts.Insert(Cart(user)) && r.1 == carts.nextId
  {
    match CartOf(carts.rows, user)
    case Some(i) => (carts, carts.rows[i].id)
    case None =>
      var t := carts.Insert(Cart(user));
      assert CartOf(t.rows, user) == Some(|carts.rows|);
      (t, carts.nextId)
  }

  /**
   * One pass of the loop body: the line of `cartId` for `productId` gets the
   * quantity and `total = quantity * price`; an existing line keeps its
   * `unit_price`, a new one takes `price`.
   */
  function UpsertLine(items: Table<CartItem>, cartId: nat, productId: nat, quantity: nat, price: nat): Table<CartItem>
  {
    match LineFor(items.rows, cartId, productId)
    case Some(i) =>
      items.Put(i, CartItem(cartId, productId, quantity, items.rows[i].val.unitPrice, quantity * price))
    case None =>
      items.Insert(CartItem(cartId, productId, quantity, price, quantity * price))
  }

  predicate AllExist(entries: seq<Entry>, products: seq<Row<Product>>)
  {
    forall k :: 0 <= k < |entries| ==> ProductExists(products, entries[k].productId)
  }

  predicate Positive(entries: seq<Entry>)
  {
    forall k :: 0 <= k < |entries| ==> entries[k].quantity >= 1
  }

  /** The `foreach` over the request's entries, in order. */
  function ApplyEntries(items: Table<CartItem>, cartId: nat, entries: seq<Entry>, products: seq<Row<Product>>): Table<CartItem>
    requires AllExist(entries, products)
  {
    if entries == [] then items
    else
      var e := entries[|entries| - 1];
      UpsertLine(ApplyEntries(items, cartId, entries[..|entries| - 1], products), cartId,
                 e.productId, e.quantity, PriceOf(products, e.productId))
  }

  /** The invariants of the cart-item table that `addToCart` keeps. */
  ghost predicate LinesValid(items: Table<CartItem>)
  {
    items.Valid() && OneLinePerProduct(items.rows) && PositiveQuantities(items.rows)
  }

  lemma UpsertKeepsLinesValid(items: Table<CartItem>, cartId: nat, productId: nat, quantity: nat, price: nat)
    requires LinesValid(items) && quantity >= 1
    ensures LinesValid(UpsertLine(items, cartId, productId, quantity, price))
  {
    match LineFor(items.rows, cartId, productId)
    case Some(i) =>
      var t := items.Put(i, CartItem(cartId, productId, quantity, items.rows[i].val.unitPrice, quantity * price));
      SameLineKeys(items.rows, t.rows);
    case None =>
      var t := items.Insert(CartItem(cartId, productId, quantity, price, quantity * price));
      assert t.rows == items.rows + [t.rows[|items.rows|]];
      AppendLine(items.rows, t.rows[|items.rows|]);
  }

  /** Rows with the same cart and product at every index, and positive quantities, keep one line per product. */
  lemma SameLineKeys(rows: seq<Row<CartItem>>, rows': seq<Row<CartItem>>)
    requires OneLinePerProduct(rows) && |rows'| == |rows| && PositiveQuantities(rows')
    requires forall k :: 0 <= k < |rows| ==>
      rows'[k].val.cartId == rows[k].val.cartId && rows'[k].val.productId == rows[k].val.productId
    ensures OneLinePerProduct(rows')
  {
  }

  /** A line for a pair that has none yet, with a positive quantity, can be appended. */
  lemma AppendLine(rows: seq<Row<CartItem>>, x: Row<CartItem>)
    requires OneLinePerProduct(rows) && PositiveQuantities(rows) && x.val.quantity >= 1
    requires forall k :: 0 <= k < |rows| ==> !(rows[k].val.cartId == x.val.cartId && rows[k].val.productId == x.val.productId)
    ensures OneLinePerProduct(rows + [x]) && PositiveQuantities(rows + [x])
  {
    var s := rows + [x];
    assert forall k :: 0 <= k < |rows| ==> s[k] == rows[k];
  }

  lemma {:induction false} ApplyKeepsLinesValid(items: Table<CartItem>, cartId: nat, entries: seq<Entry>,
                                                products: seq<Row<Product>>)
    requires LinesValid(items) && AllExist(entries, products) && Positive(entries)
    ensures LinesValid(ApplyEntries(items, cartId, entries, products))
  {
    if entries != [] {
      var e := entries[|entries| - 1];
      ApplyKeepsLinesValid(items, cartId, entries[..|entries| - 1], products);
      UpsertKeepsLinesValid(ApplyEntries(items, cartId, entries[..|entries| - 1], products), cartId,
                            e.productId, e.quantity, PriceOf(products, e.productId));
    }
  }

  /** Deleting lines keeps one line per product and positive quantities. */
  lemma {:induction false} WhereKeepsLines(rows: seq<Row<CartItem>>, p: Row<CartItem> -> bool)
    requires OneLinePerProduct(rows) && PositiveQuantities(rows)
    ensures OneLinePerProduct(Where(rows, p)) && PositiveQuantities(Where(rows, p))
  {
    if |rows| > 0 {
      var tail := Where(rows[1..], p);
      WhereKeepsLines(rows[1..], p);
      if p(rows[0]) {
        forall k | 0 <= k < |tail|
          ensures rows[0].val.cartId != tail[k].val.cartId || rows[0].val.productId != tail[k].val.productId
        {
          var j :| 0 <= j < |rows[1..]| && rows[1..][j] == tail[k];
          assert rows[1 + j] == tail[k];
        }
        ConsLines(rows[0], tail);
      }
    }
  }

  /** A line that clashes with none of `tail` and has a positive quantity can be put in front of it. */
  lemma ConsLines(x: Row<CartItem>, tail: seq<Row<CartItem>>)
    requires OneLinePerProduct(tail) && PositiveQuantities(tail) && x.val.quantity >= 1
    requires forall k :: 0 <= k < |tail| ==> x.val.cartId != tail[k].val.cartId || x.val.productId != tail[k].val.productId
    ensures OneLinePerProduct([x] + tail) && PositiveQuantities([x] + tail)
  {
    var s := [x] + tail;
    assert forall k :: 0 < k < |s| ==> s[k] == tail[k - 1];
  }

  // ---------------------------------------------------------------- what the upsert leaves

  /** The column values of the line of `cartId` for `productId`, if there is one. */
  function LineValue(items: seq<Row<CartItem>>, cartId: nat, productId: nat): Option<CartItem>
  {
    match LineFor(items, cartId, productId)
    case Some(i) => Some(items[i].val)
    case None => None
  }

  /** The unit price a line for `productId` carries after an upsert: its own if it exists, else `price`. */
  function UnitAfter(items: seq<Row<CartItem>>, cartId: nat, productId: nat, price: nat): nat
  {
    match LineValue(items, cartId, productId)
    case Some(l) => l.unitPrice
    case None => price
  }

  /** The index of the last entry of the request for `productId`: the one whose quantity sticks. */
  function LastEntryFor(entries: seq<Entry>, productId: nat): (r: Option<nat>)
    ensures r.Some? ==> r.value < |entries| && entries[r.value].productId == productId
    ensures r.Some? ==> forall k :: r.value < k < |entries| ==> entries[k].productId != productId
    ensures r.None? <==> forall k :: 0 <= k < |entries| ==> entries[k].productId != productId
  {
    if entries == [] then None
    else if entries[|entries| - 1].productId == productId then Some(|entries| - 1)
    else LastEntryFor(entries[..|entries| - 1], productId)
  }

  /**
   * One upsert sets the line of its key to the new quantity, the kept or new
   * unit price and `quantity * price`, and leaves every other key's line alone.
   */
  lemma UpsertLineEffect(items: Table<CartItem>, cartId: nat, productId: nat, quantity: nat, price: nat,
                         c: nat, p: nat)
    ensures LineValue(UpsertLine(items, cartId, productId, quantity, price).rows, c, p) ==
      if c == cartId && p == productId
      then Some(CartItem(cartId, productId, quantity, UnitAfter(items.rows, cartId, productId, price), quantity * price))
      else LineValue(items.rows, c, p)
  {
    if LineFor(items.rows, cartId, productId).Some? {
      UpdateLineEffect(items, cartId, productId, quantity, price, c, p);
    } else {
      InsertLineEffect(items, cartId, productId, quantity, price, c, p);
    }
  }

  /** `UpsertLineEffect` when the line already exists. */
  lemma UpdateLineEffect(items: Table<CartItem>, cartId: nat, productId: nat, quantity: nat, price: nat,
                         c: nat, p: nat)
    requires LineFor(items.rows, cartId, productId).Some?
    ensures LineValue(UpsertLine(items, cartId, productId, quantity, price).rows, c, p) ==
      if c == cartId && p == productId
      then Some(CartItem(cartId, productId, quantity, UnitAfter(items.rows, cartId, productId, price), quantity * price))
      else LineValue(items.rows, c, p)
  {
    var rows := items.rows;
    var i := LineFor(rows, cartId, productId).value;
    var after := items.Put(i, CartItem(cartId, productId, quantity, rows[i].val.unitPrice, quantity * price)).rows;
    assert forall j :: 0 <= j < |rows| && j != i ==> after[j] == rows[j];
    if c == cartId && p == productId {
      FindFirst(after, IsLineFor(c, p), i);
    } else {
      FindAlike(after, rows, IsLineFor(c, p), IsLineFor(c, p));
    }
  }

  /** `UpsertLineEffect` when the line is new. */
  lemma InsertLineEffect(items: Table<CartItem>, cartId: nat, productId: nat, quantity: nat, price: nat,
                         c: nat, p: nat)
    requires LineFor(items.rows, cartId, productId).None?
    ensures LineValue(UpsertLine(items, cartId, productId, quantity, price).rows, c, p) ==
      if c == cartId && p == productId
      then Some(CartItem(cartId, productId, quantity, price, quantity * price))
      else LineValue(items.rows, c, p)
  {
    var rows := items.rows;
    var after := items.Insert(CartItem(cartId, productId, quantity, price, quantity * price)).rows;
    assert after == rows + [after[|rows|]];
    if c == cartId && p == productId {
      FindFirst(after, IsLineFor(c, p), |rows|);
    } else {
      match LineFor(rows, c, p)
      case Some(j) => FindFirst(after, IsLineFor(c, p), j);
      case None => assert forall j :: 0 <= j < |after| ==> !IsLineFor(c, p)(after[j]);
    }
  }

  /**
   * What `addToCart` leaves in each line: a product of the request gets the
   * quantity of its last entry, keeps an existing line's unit price or takes
   * the current price, and has `total = quantity * current price`; every other
   * line, and every line of another cart, is as it was.
   */
  lemma {:induction false} LineAfterApply(items: Table<CartItem>, cartId: nat, entries: seq<Entry>,
                                          products: seq<Row<Product>>, c: nat, p: nat)
    requires AllExist(entries, products)
    ensures LineValue(ApplyEntries(items, cartId, entries, products).rows, c, p) ==
      if c != cartId || LastEntryFor(entries, p).None? then LineValue(items.rows, c, p)
      else
        var q := entries[LastEntryFor(entries, p).value].quantity;
        var price := PriceOf(products, p);
        Some(CartItem(cartId, p, q, UnitAfter(items.rows, cartId, p, price), q * price))
  {
    if entries != [] {
      var init := entries[..|entries| - 1];
      var e := entries[|entries| - 1];
      assert AllExist(init, products) by {
        assert forall k :: 0 <= k < |init| ==> init[k] == entries[k];
      }
      var before := ApplyEntries(items, cartId, init, products);
      LineAfterApply(items, cartId, init, products, c, p);
      UpsertLineEffect(before, cartId, e.productId, e.quantity, PriceOf(products, e.productId), c, p);
      if e.productId != p {
        assert LastEntryFor(entries, p) == LastEntryFor(init, p);
      }
    }
  }

  /** Two tables have the same keys in the same places and the same counter. */
  ghost predicate SameKeys(s: Table<CartItem>, t: Table<CartItem>)
  {
    && |s.rows| == |t.rows| && s.nextId == t.nextId
    && forall j :: 0 <= j < |s.rows| ==>
         && s.rows[j].id == t.rows[j].id
         && s.rows[j].val.cartId == t.rows[j].val.cartId
         && s.rows[j].val.productId == t.rows[j].val.productId
  }

  /** When every requested product already has a line, the upserts only overwrite lines. */
  lemma {:induction false} ApplyKeepsKeys(s: Table<CartItem>, cartId: nat, entries: seq<Entry>, products: seq<Row<Product>>)
    requires AllExist(entries, products)
    requires forall k :: 0 <= k < |entries| ==> LineFor(s.rows, cartId, entries[k].productId).Some?
    ensures SameKeys(s, ApplyEntries(s, cartId, entries, products))
  {
    if entries != [] {
      var init := entries[..|entries| - 1];
      var e := entries[|entries| - 1];
      assert forall k :: 0 <= k < |init| ==> init[k] == entries[k];
      ApplyKeepsKeys(s, cartId, init, products);
      var t := ApplyEntries(s, cartId, init, products);
      FindAlike(t.rows, s.rows, IsLineFor(cartId, e.productId), IsLineFor(cartId, e.productId));
    }
  }

  /** With one line per product, the table is determined by its keys and the value of each key's line. */
  lemma KeysDetermine(s: Table<CartItem>, t: Table<CartItem>)
    requires SameKeys(s, t) && OneLinePerProduct(s.rows)
    requires forall c, p :: LineValue(s.rows, c, p) == LineValue(t.rows, c, p)
    ensures s == t
  {
    forall j | 0 <= j < |s.rows| ensures s.rows[j] == t.rows[j] {
      var c, p := s.rows[j].val.cartId, s.rows[j].val.productId;
      FindFirst(s.rows, IsLineFor(c, p), j);
      FindAlike(s.rows, t.rows, IsLineFor(c, p), IsLineFor(c, p));
      assert LineValue(s.rows, c, p) == LineValue(t.rows, c, p);
    }
    assert s.rows == t.rows;
  }

  /** With unchanged prices, sending the same request twice leaves the lines as sending it once. */
  lemma AddTwiceIsOnce(items: Table<CartItem>, cartId: nat, entries: seq<Entry>, products: seq<Row<Product>>)
    requires LinesValid(items) && AllExist(entries, products) && Positive(entries)
    ensures ApplyEntries(ApplyEntries(items, cartId, entries, products), cartId, entries, products)
         == ApplyEntries(items, cartId, entries, products)
  {
    var once := ApplyEntries(items, cartId, entries, products);
    var twice := ApplyEntries(once, cartId, entries, products);
    ApplyKeepsLinesValid(items, cartId, entries, products);
    forall k | 0 <= k < |entries| ensures LineFor(once.rows, cartId, entries[k].productId).Some? {
      LineAfterApply(items, cartId, entries, products, cartId, entries[k].productId);
    }
    ApplyKeepsKeys(once, cartId, entries, products);
    forall c, p ensures LineValue(once.rows, c, p) == LineValue(twice.rows, c, p) {
      LineAfterApply(items, cartId, entries, products, c, p);
      LineAfterApply(once, cartId, entries, products, c, p);
    }
    KeysDetermine(once, twice);
  }

  // ---------------------------------------------------------------- responses

  function LineJson(l: Row<CartItem>): Json
  {
    JObj([("id", JInt(l.id)), ("cart_id", JInt(l.val.cartId)), ("product_id", JInt(l.val.productId)),
          ("quantity", JInt(l.val.quantity)), ("unit_price", JInt(l.val.unitPrice)), ("total", JInt(l.val.total))])
  }

  function LinesJson(lines: seq<Row<CartItem>>): Json
  {
    JArr(seq(|lines|, i requires 0 <= i < |lines| => LineJson(lines[i])))
  }

  /** A line with its product loaded (`items.product`). */
  function LineWithProductJson(l: Row<CartItem>, products: seq<Row<Product>>): Json
  {
    var product := match ProductIndex(products, l.val.productId)
      case Some(k) => Catalogue.ProductJson(products[k])
      case None => JNull;
    JObj(LineJson(l).fields + [("product", product)])
  }

  /** The caller's cart with its lines and their products, or null when the caller has none. */
  function CartJson(carts: seq<Row<Cart>>, items: seq<Row<CartItem>>, products: seq<Row<Product>>, user: nat): Json
  {
    match CartOf(carts, user)
    case None => JNull
    case Some(i) =>
      var lines := LinesOf(items, carts[i].id);
      JObj([("id", JInt(carts[i].id)), ("user_id", JInt(user)),
            ("items", JArr(seq(|lines|, k requires 0 <= k < |lines| => LineWithProductJson(lines[k], products))))])
  }

  /** The payable amount of the caller's cart: the sum of its lines' totals, 0 without a cart. */
  function Payable(carts: seq<Row<Cart>>, items: seq<Row<CartItem>>, user: nat): nat
  {
    match CartOf(carts, user)
    case None => 0
    case Some(i) => SumTotals(LinesOf(items, carts[i].id))
  }

  function PayableOf(r: Response): Option<Json>
  {
    match Read(r.body)
    case Some(Envelope(_, _, _, Data(d))) => Input(d, "payable_amount")
    case _ => None
  }

  /** The body `index` and `removeFromCart` answer with: the caller's cart and its payable amount. */
  function CartReply(message: string, carts: seq<Row<Cart>>, items: seq<Row<CartItem>>, products: seq<Row<Product>>,
                     user: nat): (r: Response)
    ensures r.status == 200
    ensures PayableOf(r) == Some(JInt(
      match CartOf(carts, user)
      case None => 0
      case Some(i) => SumTotals(LinesOf(items, carts[i].id))))
  {
    SuccessRes(200, message,
      JObj([("cart_data", CartJson(carts, items, products, user)),
            ("payable_amount", JInt(Payable(carts, items, user)))]))
  }

  /** `index`: the caller's cart, and 0 to pay when the caller has none. */
  function Index(carts: seq<Row<Cart>>, items: seq<Row<CartItem>>, products: seq<Row<Product>>, user: nat): (r: Response)
    ensures r.status == 200
    ensures CartOf(carts, user).None? ==> PayableOf(r) == Some(JInt(0))
    ensures CartOf(carts, user).Some? ==>
      PayableOf(r) == Some(JInt(SumTotals(LinesOf(items, carts[CartOf(carts, user).value].id))))
  {
    CartReply("Products added to cart", carts, items, products, user)
  }

  /** The body `addToCart` answers with: the cart's lines and their sum. */
  function AddedResponse(lines: seq<Row<CartItem>>): (r: Response)
    ensures r.status == 200 && PayableOf(r) == Some(JInt(SumTotals(lines)))
  {
    SuccessRes(200, "Products added to cart",
      JObj([("cart_data", LinesJson(lines)), ("payable_amount", JInt(SumTotals(lines)))]))
  }

  // ---------------------------------------------------------------- actions

  /** The `foreach` of `addToCart`: each entry loads or creates its line and saves it. */
  method UpsertEntries(start: Table<CartItem>, cartId: nat, entries: seq<Entry>, products: seq<Row<Product>>)
    returns (items: Table<CartItem>)
    requires AllExist(entries, products)
    ensures items == ApplyEntries(start, cartId, entries, products)
  {
    items := start;
    for k := 0 to |entries|
      invariant items == ApplyEntries(start, cartId, entries[..k], products)
    {
      var e := entries[k];
      assert entries[..k + 1][..k] == entries[..k] && entries[..k + 1][k] == e;
      ghost var expected := UpsertLine(items, cartId, e.productId, e.quantity, PriceOf(products, e.productId));
      var price := PriceOf(products, e.productId);
      var found := LineFor(items.rows, cartId, e.productId);
      if found.Some? {
        var line := items.rows[found.value].val;
        items := items.Put(found.value, line.(quantity := e.quantity, total := e.quantity * price));
      } else {
        items := items.Insert(CartItem(cartId, e.productId, e.quantity, price, e.quantity * price));
      }
      assert items == expected;
    }
    assert entries[..|entries|] == entries;
  }

  /** The part of `addToCart` after validation: the cart found or created, then one upsert per entry. */
  method SaveEntries(db: Database, user: nat, entries: seq<Entry>) returns (reply: Reply)
    requires db.Valid() && AllExist(entries, db.products.rows) && Positive(entries)
    modifies db
    ensures db.Valid()
    ensures db.products == old(db.products) && db.orders == old(db.orders) && db.orderItems == old(db.orderItems)
    ensures var cartId := FirstOrCreate(old(db.carts), user).1;
            var items := ApplyEntries(old(db.cartItems), cartId, entries, old(db.products.rows));
            && db.carts == FirstOrCreate(old(db.carts), user).0 && db.cartItems == items
            && reply == Sent(AddedResponse(LinesOf(items.rows, cartId)))
  {
    var products := db.products.rows;
    var r := FirstOrCreate(db.carts, user);
    var cartId := r.1;
    var items := UpsertEntries(db.cartItems, cartId, entries, products);
    ApplyKeepsLinesValid(db.cartItems, cartId, entries, products);
    assert Consistent(db.products, r.0, items, db.orders, db.orderItems);
    db.carts, db.cartItems := r.0, items;
    reply := Sent(AddedResponse(LinesOf(items.rows, cartId)));
  }

  /**
   * `addToCart`: validate the whole request first; then find or create the
   * caller's cart and upsert one line per entry, in request order.
   */
  method AddToCart(db: Database, user: nat, body: Json) returns (reply: Reply)
    requires db.Valid()
    modifies db
    ensures db.Valid()
    ensures db.products == old(db.products) && db.orders == old(db.orders) && db.orderItems == old(db.orderItems)
    ensures ParseRequest(body, old(db.products.rows)).None? ==>
      reply == Thrown(ValidationFailed) && db.carts == old(db.carts) && db.cartItems == old(db.cartItems)
    ensures ParseRequest(body, old(db.products.rows)).Some? ==>
      var entries := ParseRequest(body, old(db.products.rows)).value;
      var (carts, cartId) := FirstOrCreate(old(db.carts), user);
      var items := ApplyEntries(old(db.cartItems), cartId, entries, old(db.products.rows));
      && db.carts == carts && db.cartItems == items
      && reply == Sent(AddedResponse(LinesOf(items.rows, cartId)))
  {
    var parsed := ParseRequest(body, db.products.rows);
    if parsed.None? {
      return Thrown(ValidationFailed);
    }
    ParsedEntriesGood(body, db.products.rows);
    reply := SaveEntries(db, user, parsed.value);
  }

  /** `removeFromCart`: `CartItem::findOrFail(id)->delete()`, then the caller's cart as `index` shows it. */
  method RemoveFromCart(db: Database, user: nat, id: int) returns (reply: Reply)
    requires db.Valid()
    modifies db
    ensures db.Valid()
    ensures db.products == old(db.products) && db.carts == old(db.carts)
    ensures db.orders == old(db.orders) && db.orderItems == old(db.orderItems)
    ensures Find(old(db.cartItems.rows), KeyIs(id)).None? ==>
      reply == Thrown(ModelNotFound) && db.cartItems == old(db.cartItems)
    ensures Find(old(db.cartItems.rows), KeyIs(id)).Some? ==>
      var i := Find(old(db.cartItems.rows), KeyIs(id)).value;
      && db.cartItems.rows == old(db.cartItems.rows[..i] + db.cartItems.rows[i + 1..])
      && db.cartItems.nextId == old(db.cartItems.nextId)
      && reply == Sent(CartReply("Item removed from cart", db.carts.rows, db.cartItems.rows, db.products.rows, user))
  {
    var found := Find(db.cartItems.rows, KeyIs(id));
    if found.None? {
      return Thrown(ModelNotFound);
    }
    DeleteKeyRemovesOne(db.cartItems, found.value);
    var items := db.cartItems.DeleteWhere(KeyIs(id));
    WhereKeepsLines(db.cartItems.rows, Not(KeyIs(id)));
    db.cartItems := items;
    reply := Sent(CartReply("Item removed from cart", db.carts.rows, db.cartItems.rows, db.products.rows, user));
  }

  /** `$cart->items()->delete()`. */
  function ClearLines(items: Table<CartItem>, cartId: nat): Table<CartItem>
  {
    items.DeleteWhere(IsLineOf(cartId))
  }

  /** `clearCart`: delete every line of the caller's cart, when the caller has one. */
  method ClearCart(db: Database, user: nat) returns (reply: Reply)
    requires db.Valid()
    modifies db
    ensures db.Valid()
    ensures db.products == old(db.products) && db.carts == old(db.carts)
    ensures db.orders == old(db.orders) && db.orderItems == old(db.orderItems)
    ensures CartOf(db.carts.rows, user).None? ==> db.cartItems == old(db.cartItems)
    ensures CartOf(db.carts.rows, user).Some? ==>
      db.cartItems == ClearLines(old(db.cartItems), db.carts.rows[CartOf(db.carts.rows, user).value].id)
    ensures reply == Sent(SuccessRes(200, "Cart cleared", JArr([])))
  {
    var found := CartOf(db.carts.rows, user);
    if found.Some? {
      var cartId := db.carts.rows[found.value].id;
      WhereKeepsLines(db.cartItems.rows, Not(IsLineOf(cartId)));
      db.cartItems := ClearLines(db.cartItems, cartId);
    }
    reply := Sent(SuccessRes(200, "Cart cleared", JArr([])));
  }

  // ---------------------------------------------------------------- laws of the actions

  /** A user with a cart, in a table with one cart per user, has exactly that one cart. */
  lemma OnlyCart(carts: seq<Row<Cart>>, user: nat)
    requires OneCartPerUser(carts) && CartOf(carts, user).Some?
    ensures Where(carts, IsCartOf(user)) == [carts[CartOf(carts, user).value]]
  {
    var i := CartOf(carts, user).value;
    var before, after := carts[..i], carts[i + 1..];
    assert carts == (before + [carts[i]]) + after;
    forall k | 0 <= k < |before| ensures !IsCartOf(user)(before[k]) {
      assert before[k] == carts[k];
    }
    forall k | 0 <= k < |after| ensures !IsCartOf(user)(after[k]) {
      assert after[k] == carts[i + 1 + k];
    }
    WhereAppend(before + [carts[i]], after, IsCartOf(user));
    WhereAppend(before, [carts[i]], IsCartOf(user));
    WhereNone(before, IsCartOf(user));
    WhereNone(after, IsCartOf(user));
    WhereOne(carts[i], IsCartOf(user));
  }

  /** After `firstOrCreate` the caller has exactly one cart, and a second call reuses it. */
  lemma FirstOrCreateReuses(carts: Table<Cart>, user: nat)
    requires carts.Valid() && OneCartPerUser(carts.rows)
    ensures |Where(FirstOrCreate(carts, user).0.rows, IsCartOf(user))| == 1
    ensures FirstOrCreate(FirstOrCreate(carts, user).0, user) == FirstOrCreate(carts, user)
  {
    OnlyCart(FirstOrCreate(carts, user).0.rows, user);
  }

  /** After `clearCart` the cart has no lines. */
  lemma ClearEmpties(items: Table<CartItem>, cartId: nat)
    ensures LinesOf(ClearLines(items, cartId).rows, cartId) == []
  {
    var left := ClearLines(items, cartId).rows;
    assert forall k :: 0 <= k < |left| ==> !IsLineOf(cartId)(left[k]);
    WhereNone(left, IsLineOf(cartId));
  }

  /** Clearing one cart leaves every other cart's lines exactly as they were. */
  lemma ClearKeepsOthers(items: Table<CartItem>, cartId: nat, other: nat)
    requires other != cartId
    ensures LinesOf(ClearLines(items, cartId).rows, other) == LinesOf(items.rows, other)
  {
    WhereWhere(items.rows, Not(IsLineOf(cartId)), IsLineOf(other));
  }

  /** Clearing a cart twice is clearing it once. */
  lemma ClearIdempotent(items: Table<CartItem>, cartId: nat)
    ensures ClearLines(ClearLines(items, cartId), cartId) == ClearLines(items, cartId)
  {
    WhereWhere(items.rows, Not(IsLineOf(cartId)), Not(IsLineOf(cartId)));
  }

  /**
   * Deleting the line at index `i` lowers the payable amount of its own cart
   * by that line's total and leaves every other cart's amount unchanged.
   */
  lemma RemovedLinePayable(rows: seq<Row<CartItem>>, i: nat, cartId: nat)
    requires i < |rows|
    ensures SumTotals(LinesOf(rows, cartId)) ==
      SumTotals(LinesOf(rows[..i] + rows[i + 1..], cartId)) + (if rows[i].val.cartId == cartId then rows[i].val.total else 0)
  {
    var p := IsLineOf(cartId);
    var before, after := rows[..i], rows[i + 1..];
    assert rows == (before + [rows[i]]) + after;
    WhereAppend(before + [rows[i]], after, p);
    WhereAppend(before, [rows[i]], p);
    WhereAppend(before, after, p);
    WhereOne(rows[i], p);
    SumTotalsAppend(Where(before, p) + Where([rows[i]], p), Where(after, p));
    SumTotalsAppend(Where(before, p), Where([rows[i]], p));
    SumTotalsAppend(Where(before, p), Where(after, p));
    assert SumTotals([rows[i]]) == SumTotals([]) + rows[i].val.total;
  }

  /**
   * An existing line keeps the unit price it was created with while its total
   * follows the current price: a line created at 100 cents with quantity 1,
   * re-added once with quantity 2 after the price rose to 120, has unit price
   * 100 and total 240.
   */
  lemma StaleUnitPrice()
    ensures var products := [Row(7, Product("Tea", "Green", 120, None))];
            var items := Table([Row(1, CartItem(3, 7, 1, 100, 100))], 2);
            ApplyEntries(items, 3, [Entry(7, 2)], products).rows == [Row(1, CartItem(3, 7, 2, 100, 240))]
  {
    var products := [Row(7, Product("Tea", "Green", 120, None))];
    var items := Table([Row(1, CartItem(3, 7, 1, 100, 100))], 2);
    assert ProductIndex(products, 7) == Some(0);
    assert LineFor(items.rows, 3, 7) == Some(0);
    assert [Entry(7, 2)][..0] == [];
  }
}
