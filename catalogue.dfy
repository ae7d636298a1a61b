/**
 * `ProductController`: the product listing (optional search, newest id
 * first, pages of 50) and the admin-only `store`, which updates the product
 * whose id the request names or creates a new one.
 */
module Catalogue {
  import opened Wrappers
  import opened Json
  import opened Tables
  import opened Models
  import opened Envelope

  /** Rows per page of the listing (`paginate(50)`). */
  const PerPage: nat := 50

  /** ASCII lower-casing, the case folding of the database's default collation. */
  function LowerChar(c: char): char
  {
    if 'A' <= c <= 'Z' then (c as int + 32) as char else c
  }

  function Fold(s: string): (r: string)
    ensures |r| == |s|
  {
    seq(|s|, i requires 0 <= i < |s| => LowerChar(s[i]))
  }

  /** `needle` occurs in `hay` starting at position `i`. */
  predicate OccursAt(hay: string, needle: string, i: nat)
  {
    i + |needle| <= |hay| && hay[i..i + |needle|] == needle
  }

  /** `needle` occurs in `hay` as a contiguous piece. */
  predicate Contains(hay: string, needle: string)
  {
    exists i: nat :: i <= |hay| && OccursAt(hay, needle, i)
  }

  /** `text LIKE '%term%'`, the term taken literally and letters compared without case. */
  predicate Like(text: string, term: string)
  {
    Contains(Fold(text), Fold(term))
  }

  /** The search condition: `name` or `detail` contains the term. */
  predicate Matches(p: Row<Product>, term: string)
  {
    Like(p.val.name, term) || Like(p.val.detail, term)
  }

  function MatchesTerm(term: string): Row<Product> -> bool
  {
    (p: Row<Product>) => Matches(p, term)
  }

  /** PHP truthiness of the `search` query value, on which `when` conditions the filter. */
  predicate Truthy(search: Option<string>)
  {
    search.Some? && search.value != "" && search.value != "0"
  }

  /** The rows the query keeps, in table order. */
  function Filtered(rows: seq<Row<Product>>, search: Option<string>): seq<Row<Product>>
  {
    if Truthy(search) then Where(rows, MatchesTerm(search.value)) else rows
  }

  /** Ids strictly decrease along the sequence (`orderBy('id', 'desc')` over unique keys). */
  ghost predicate StrictlyDescending(s: seq<Row<Product>>)
  {
    forall i, j :: 0 <= i < j < |s| ==> s[i].id > s[j].id
  }

  ghost predicate DistinctIds(s: seq<Row<Product>>)
  {
    forall i, j :: 0 <= i < j < |s| ==> s[i].id != s[j].id
  }

  /** Inserts `x` in front of the first row with a smaller or equal id. */
  function InsertDesc(x: Row<Product>, s: seq<Row<Product>>): seq<Row<Product>>
  {
    if s == [] then [x]
    else if s[0].id <= x.id then [x] + s
    else [s[0]] + InsertDesc(x, s[1..])
  }

  /** The rows ordered by id, largest first (insertion sort). */
  function SortByIdDesc(s: seq<Row<Product>>): seq<Row<Product>>
  {
    if s == [] then [] else InsertDesc(s[0], SortByIdDesc(s[1..]))
  }

  lemma {:induction false} InsertDescPermutes(x: Row<Product>, s: seq<Row<Product>>)
    ensures multiset(InsertDesc(x, s)) == multiset(s) + multiset{x}
  {
    if s != [] && s[0].id > x.id {
      InsertDescPermutes(x, s[1..]);
      assert s == [s[0]] + s[1..];
    }
  }

  /** Sorting neither loses nor duplicates a row. */
  lemma {:induction false} SortPermutes(s: seq<Row<Product>>)
    ensures multiset(SortByIdDesc(s)) == multiset(s)
  {
    if s != [] {
      SortPermutes(s[1..]);
      InsertDescPermutes(s[0], SortByIdDesc(s[1..]));
      assert s == [s[0]] + s[1..];
    }
  }

  lemma {:induction false} InsertDescSorted(x: Row<Product>, s: seq<Row<Product>>)
    requires StrictlyDescending(s)
    requires forall k :: 0 <= k < |s| ==> s[k].id != x.id
    ensures StrictlyDescending(InsertDesc(x, s))
  {
    if s != [] && s[0].id > x.id {
      InsertDescSorted(x, s[1..]);
      var tail := InsertDesc(x, s[1..]);
      InsertDescPermutes(x, s[1..]);
      forall k | 0 <= k < |tail| ensures s[0].id > tail[k].id {
        assert tail[k] in multiset(s[1..]) + multiset{x};
      }
    }
  }

  /** Sorting rows with distinct ids gives a strictly descending sequence. */
  lemma {:induction false} SortSorted(s: seq<Row<Product>>)
    requires DistinctIds(s)
    ensures StrictlyDescending(SortByIdDesc(s))
  {
    if s != [] {
      SortSorted(s[1..]);
      var sorted := SortByIdDesc(s[1..]);
      SortPermutes(s[1..]);
      forall k | 0 <= k < |sorted| ensures sorted[k].id != s[0].id {
        assert sorted[k] in multiset(s[1..]);
      }
      InsertDescSorted(s[0], sorted);
    }
  }

  /** The page number the paginator uses: a missing, non-integer or non-positive `page` means 1. */
  function CurrentPage(page: Option<int>): (p: nat)
    ensures p >= 1
    ensures page.Some? && page.value >= 1 ==> p == page.value
    ensures !(page.Some? && page.value >= 1) ==> p == 1
  {
    if page.Some? && page.value >= 1 then page.value else 1
  }

  /** Page `p` of a listing: the `PerPage` rows that start at `(p - 1) * PerPage`. */
  function Page(s: seq<Row<Product>>, p: nat): (r: seq<Row<Product>>)
    requires p >= 1
    ensures |r| <= PerPage
  {
    var start := (p - 1) * PerPage;
    if start >= |s| then [] else s[start..if start + PerPage <= |s| then start + PerPage else |s|]
  }

  /** The whole result of the query, before paging. */
  function Listing(rows: seq<Row<Product>>, search: Option<string>): seq<Row<Product>>
  {
    SortByIdDesc(Filtered(rows, search))
  }

  function ProductJson(p: Row<Product>): Json
  {
    JObj([("id", JInt(p.id)), ("name", JStr(p.val.name)), ("detail", JStr(p.val.detail)),
          ("price", JInt(p.val.price)),
          ("image", if p.val.image.Some? then JStr(p.val.image.value) else JNull)])
  }

  /**
   * The product `store` returns. One just created holds only its filled
   * attributes, in fill order, then its id; one that was updated holds its
   * loaded columns.
   */
  function StoredProductJson(p: Row<Product>, created: bool): Json
  {
    if created then
      JObj([("name", JStr(p.val.name)), ("detail", JStr(p.val.detail)), ("price", JInt(p.val.price)),
            ("id", JInt(p.id))])
    else ProductJson(p)
  }

  function ProductsJson(s: seq<Row<Product>>): Json
  {
    JArr(seq(|s|, i requires 0 <= i < |s| => ProductJson(s[i])))
  }

  /** The number of pages a listing of `total` rows has (at least one). */
  function LastPage(total: nat): nat
  {
    if total == 0 then 1 else (total + PerPage - 1) / PerPage
  }

  /**
   * The paginator as JSON: the page's rows under `data`, and `from` and `to`,
   * the 1-based positions of its first and last row in the listing (`null`
   * on an empty page).
   */
  function PageJson(listing: seq<Row<Product>>, p: nat): Json
    requires p >= 1
  {
    var rows := Page(listing, p);
    var start := (p - 1) * PerPage;
    JObj([("current_page", JInt(p)), ("data", ProductsJson(rows)),
          ("from", if rows == [] then JNull else JInt(start + 1)),
          ("last_page", JInt(LastPage(|listing|))), ("per_page", JInt(PerPage)),
          ("to", if rows == [] then JNull else JInt(start + |rows|)),
          ("total", JInt(|listing|))])
  }

  /**
   * A page has rows exactly when the listing is not empty and the page is at
   * most `last_page`; its rows are then the listing's rows `from` to `to`.
   */
  lemma PageRange(s: seq<Row<Product>>, p: nat)
    requires p >= 1
    ensures Page(s, p) != [] <==> |s| > 0 && p <= LastPage(|s|)
    ensures Page(s, p) != [] ==>
      var start := (p - 1) * PerPage;
      start + |Page(s, p)| <= |s| && Page(s, p) == s[start..start + |Page(s, p)|]
  {
    var start := (p - 1) * PerPage;
    if |s| > 0 {
      var last := LastPage(|s|);
      assert last * PerPage >= |s| > (last - 1) * PerPage;
      if p <= last {
        assert start <= (last - 1) * PerPage;
      } else {
        assert start >= last * PerPage;
      }
    }
  }

  /** `index`: one page of the listing inside the success envelope. */
  function Index(products: Table<Product>, search: Option<string>, page: Option<int>): (r: Response)
    ensures r.status == 200
    ensures Read(r.body) == Some(Envelope(true, 200, "Products fetched successfully",
                                          Data(PageJson(Listing(products.rows, search), CurrentPage(page)))))
  {
    SuccessRes(200, "Products fetched successfully", PageJson(Listing(products.rows, search), CurrentPage(page)))
  }

  /** With a search term, the listing holds exactly the rows whose name or detail contains it. */
  lemma SearchFilters(rows: seq<Row<Product>>, search: Option<string>)
    requires Truthy(search)
    ensures forall p :: p in Listing(rows, search) <==> p in rows && Matches(p, search.value)
  {
    var f := Where(rows, MatchesTerm(search.value));
    SortPermutes(f);
    forall p ensures p in Listing(rows, search) <==> p in rows && Matches(p, search.value) {
      assert p in Listing(rows, search) <==> p in multiset(f);
      if p in rows && Matches(p, search.value) {
        var k :| 0 <= k < |rows| && rows[k] == p;
        assert MatchesTerm(search.value)(rows[k]);
      }
      if p in f {
        var k :| 0 <= k < |f| && f[k] == p;
        assert MatchesTerm(search.value)(f[k]);
      }
    }
  }

  /** Without a search term (or with one PHP counts as false) every product is listed, each once. */
  lemma NoSearchListsAll(rows: seq<Row<Product>>, search: Option<string>)
    requires !Truthy(search)
    ensures multiset(Listing(rows, search)) == multiset(rows)
  {
    SortPermutes(rows);
  }

  /** Ids are unique in the product table, so the listing is strictly descending by id. */
  lemma ListingStrictlyDescending(products: Table<Product>, search: Option<string>)
    requires products.Valid()
    ensures StrictlyDescending(Listing(products.rows, search))
  {
    var f := Filtered(products.rows, search);
    WhereKeepsOrder(products.rows, MatchesTerm(if search.Some? then search.value else ""));
    assert Ascending(f);
    SortSorted(f);
  }

  /** The first `m` pages, one after another, are the listing's first `m * PerPage` rows. */
  lemma {:induction false} PagesPartition(s: seq<Row<Product>>, m: nat)
    ensures Pages(s, m) == s[..if m * PerPage <= |s| then m * PerPage else |s|]
  {
    if m > 0 {
      PagesPartition(s, m - 1);
      var lo := if (m - 1) * PerPage <= |s| then (m - 1) * PerPage else |s|;
      var hi := if m * PerPage <= |s| then m * PerPage else |s|;
      assert s[..hi] == s[..lo] + s[lo..hi];
    }
  }

  /** The concatenation of pages 1 to `m`. */
  function Pages(s: seq<Row<Product>>, m: nat): seq<Row<Product>>
  {
    if m == 0 then [] else Pages(s, m - 1) + Page(s, m)
  }

  /** Every row of the listing is on exactly the page its position says. */
  lemma RowOnItsPage(s: seq<Row<Product>>, k: nat)
    requires k < |s|
    ensures Page(s, k / PerPage + 1)[k % PerPage] == s[k]
  {
  }

  /**
   * As written, `when($search, ...)` skips the filter for the search string
   * "0", which PHP treats as false: a product that does not contain "0"
   * is listed anyway.
   */
  lemma ZeroSearchIsIgnored()
    ensures var rows := [Row(1, Product("Tea", "Green", 250, None))];
      Listing(rows, Some("0")) == rows && !Matches(rows[0], "0")
  {
    var rows := [Row(1, Product("Tea", "Green", 250, None))];
    assert Fold("0") == "0";
    assert Fold("Tea") == "tea";
    assert Fold("Green") == "green";
    forall i: nat | i <= 3 ensures !OccursAt("tea", "0", i) {
      if i + 1 <= 3 { assert "tea"[i..i + 1][0] == "tea"[i] != '0'; }
    }
    forall i: nat | i <= 5 ensures !OccursAt("green", "0", i) {
      if i + 1 <= 5 { assert "green"[i..i + 1][0] == "green"[i] != '0'; }
    }
    assert SortByIdDesc(rows) == rows;
  }

  /** The filter as evidently intended: applied for every non-empty search string. */
  function FilteredIntended(rows: seq<Row<Product>>, search: Option<string>): seq<Row<Product>>
  {
    if search.Some? && search.value != "" then Where(rows, MatchesTerm(search.value)) else rows
  }

  function ListingIntended(rows: seq<Row<Product>>, search: Option<string>): seq<Row<Product>>
  {
    SortByIdDesc(FilteredIntended(rows, search))
  }

  /** With the intended filter, a non-empty search lists exactly the matching rows, "0" included. */
  lemma IntendedSearchFilters(rows: seq<Row<Product>>, search: Option<string>)
    requires search.Some? && search.value != ""
    ensures forall p :: p in ListingIntended(rows, search) <==> p in rows && Matches(p, search.value)
  {
    var f := Where(rows, MatchesTerm(search.value));
    SortPermutes(f);
    forall p ensures p in ListingIntended(rows, search) <==> p in rows && Matches(p, search.value) {
      assert p in ListingIntended(rows, search) <==> p in multiset(f);
      if p in rows && Matches(p, search.value) {
        var k :| 0 <= k < |rows| && rows[k] == p;
        assert MatchesTerm(search.value)(rows[k]);
      }
      if p in f {
        var k :| 0 <= k < |f| && f[k] == p;
        assert MatchesTerm(search.value)(f[k]);
      }
    }
  }

  /** The validated columns of a `store` request. */
  datatype Fields = Fields(name: string, detail: string, price: nat)

  /**
   * The `store` rules: `name` required, a string of at most 255 characters;
   * `detail` required, a string; `price` required, a number of cents, at
   * least 0, sent as an integer or as a string of digits (`Natural`);
   * `image`, when sent, must be an uploaded image, which no JSON value is.
   */
  function Validated(body: Json): (f: Option<Fields>)
    ensures f.Some? ==> Input(body, "name") == Some(JStr(f.value.name)) && !Blank(f.value.name)
    ensures f.Some? ==> |f.value.name| <= 255
    ensures f.Some? ==> Input(body, "detail") == Some(JStr(f.value.detail)) && !Blank(f.value.detail)
    ensures f.Some? ==> Input(body, "price").Some? && Natural(Input(body, "price").value) == Some(f.value.price)
    ensures f.Some? ==> Input(body, "image").None?
  {
    var name, detail, price := Input(body, "name"), Input(body, "detail"), Input(body, "price");
    if Present(name) && name.value.JStr? && |name.value.s| <= 255
       && Present(detail) && detail.value.JStr?
       && price.Some? && Natural(price.value).Some?
       && Input(body, "image").None?
    then Some(Fields(name.value.s, detail.value.s, Natural(price.value).value))
    else None
  }

  /**
   * `Validated` accepts a request exactly when its `name` and `detail` are
   * filled strings, the name of at most 255 characters, its `price` a
   * non-negative whole number, and it has no `image`; these become the fields.
   */
  lemma ValidatedExactly(body: Json, name: string, detail: string, price: nat)
    ensures Validated(body) == Some(Fields(name, detail, price)) <==>
      && Input(body, "name") == Some(JStr(name)) && !Blank(name) && |name| <= 255
      && Input(body, "detail") == Some(JStr(detail)) && !Blank(detail)
      && Input(body, "price").Some? && Natural(Input(body, "price").value) == Some(price)
      && Input(body, "image").None?
  {
  }

  /** A price sent as a string of digits, as a form sends it, is accepted and read by its value. */
  lemma StringPriceAccepted(body: Json, name: string, detail: string, n: nat)
    requires Input(body, "name") == Some(JStr(name)) && !Blank(name) && |name| <= 255
    requires Input(body, "detail") == Some(JStr(detail)) && !Blank(detail)
    requires Input(body, "price") == Some(JStr(Decimal(n))) && Input(body, "image").None?
    ensures Validated(body) == Some(Fields(name, detail, n))
  {
    NaturalOfDecimal(n);
    ValidatedExactly(body, name, detail, n);
  }

  /**
   * The key `updateOrCreate` looks the product up by: the request's `id`
   * when it is a non-negative integer or a string of decimal digits, which
   * the database compares with the integer key by its value.
   */
  function Identifier(body: Json): (r: Option<nat>)
    ensures Input(body, "id").Some? && Input(body, "id").value.JInt? && Input(body, "id").value.n >= 0 ==>
      r == Some(Input(body, "id").value.n)
    ensures r.Some? ==> Input(body, "id").Some? && (Input(body, "id").value.JInt? || Input(body, "id").value.JStr?)
  {
    if Input(body, "id").Some? then Natural(Input(body, "id").value) else None
  }

  /** An `id` sent as the decimal string of `n` names the same product as the integer `n`. */
  lemma StringIdIsKey(body: Json, n: nat)
    requires Input(body, "id") == Some(JStr(Decimal(n)))
    ensures Identifier(body) == Some(n)
  {
    NaturalOfDecimal(n);
  }

  function HasId(id: nat): Row<Product> -> bool
  {
    (p: Row<Product>) => p.id == id
  }

  /**
   * `updateOrCreate(['id' => id], fields)`: the product with that id gets the
   * new columns (its image is kept); without such a product a new one is
   * inserted. Returns the table and the index of the row written.
   */
  function UpdateOrCreate(products: Table<Product>, id: Option<nat>, f: Fields): (r: (Table<Product>, nat))
    requires products.Valid()
    ensures r.0.Valid() && r.1 < |r.0.rows|
    ensures r.0.rows[r.1].val.name == f.name && r.0.rows[r.1].val.detail == f.detail
    ensures r.0.rows[r.1].val.price == f.price
    ensures id.Some? && (exists k :: 0 <= k < |products.rows| && products.rows[k].id == id.value) ==>
      && |r.0.rows| == |products.rows| && r.0.nextId == products.nextId
      && r.0.rows[r.1].id == id.value
      && r.0.rows[r.1].val.image == products.rows[r.1].val.image
      && forall k :: 0 <= k < |products.rows| && k != r.1 ==> r.0.rows[k] == products.rows[k]
    ensures !(id.Some? && (exists k :: 0 <= k < |products.rows| && products.rows[k].id == id.value)) ==>
      && r.0.rows == products.rows + [Row(products.nextId, Product(f.name, f.detail, f.price, None))]
      && r.0.nextId == products.nextId + 1 && r.1 == |products.rows|
  {
    var found := if id.Some? then Find(products.rows, HasId(id.value)) else None;
    if found.Some? then
      var i := found.value;
      assert HasId(id.value)(products.rows[i]);
      (products.Put(i, Product(f.name, f.detail, f.price, products.rows[i].val.image)), i)
    else
      assert id.Some? ==> forall k :: 0 <= k < |products.rows| ==> !HasId(id.value)(products.rows[k]);
      (products.Insert(Product(f.name, f.detail, f.price, None)), |products.rows|)
  }

  /**
   * `store`: a caller whose role is "user" is refused with 403; an invalid
   * request is thrown back by the validator; otherwise the product is
   * updated or created and returned. `recentlyCreated` is the value of the
   * model's `was_recently_created` attribute, which picks the message.
   */
  method Store(db: Database, role: string, body: Json, recentlyCreated: bool) returns (reply: Reply)
    requires db.Valid()
    modifies db
    ensures db.Valid()
    ensures db.carts == old(db.carts) && db.cartItems == old(db.cartItems)
    ensures db.orders == old(db.orders) && db.orderItems == old(db.orderItems)
    ensures role == "user" ==>
      reply == Sent(ErrorRes(403, "Unauthorize access", JArr([]))) && db.products == old(db.products)
    ensures role != "user" && Validated(body).None? ==>
      reply == Thrown(ValidationFailed) && db.products == old(db.products)
    ensures role != "user" && Validated(body).Some? ==>
      var (t, i) := UpdateOrCreate(old(db.products), Identifier(body), Validated(body).value);
      && db.products == t
      && reply == Sent(SuccessRes(200,
           if recentlyCreated then "Product created successfully" else "Product updated successfully",
           StoredProductJson(t.rows[i], i == |old(db.products.rows)|)))
  {
    if role == "user" {
      return Sent(ErrorRes(403, "Unauthorize access", JArr([])));
    }
    var fields := Validated(body);
    if fields.None? {
      return Thrown(ValidationFailed);
    }
    reply := SaveProduct(db, Identifier(body), fields.value, recentlyCreated);
  }

  /** The part of `store` once the request is valid: the upsert stored and the product returned. */
  method SaveProduct(db: Database, id: Option<nat>, fields: Fields, recentlyCreated: bool) returns (reply: Reply)
    requires db.Valid()
    modifies db
    ensures db.Valid()
    ensures db.carts == old(db.carts) && db.cartItems == old(db.cartItems)
    ensures db.orders == old(db.orders) && db.orderItems == old(db.orderItems)
    ensures var (t, i) := UpdateOrCreate(old(db.products), id, fields);
      && db.products == t
      && reply == Sent(SuccessRes(200,
           if recentlyCreated then "Product created successfully" else "Product updated successfully",
           StoredProductJson(t.rows[i], i == |old(db.products.rows)|)))
  {
    var r := UpdateOrCreate(db.products, id, fields);
    var created := r.1 == |db.products.rows|;
    assert Consistent(r.0, db.carts, db.cartItems, db.orders, db.orderItems);
    db.products := r.0;
    var message := if recentlyCreated then "Product created successfully" else "Product updated successfully";
    reply := Sent(SuccessRes(200, message, StoredProductJson(r.0.rows[r.1], created)));
  }
}
