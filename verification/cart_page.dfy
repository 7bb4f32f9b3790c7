/**
 * The cart page: the cart keys are turned back into product ids, the products
 * with those ids are fetched from the catalog, and for every fetched product the
 * page shows a line `qty * price` and adds it to the total. Keys whose product
 * no longer exists are skipped.
 */
module CartPage {
  import opened Wrappers
  import opened Decimal
  import opened CartStore

  /** A catalog row, reduced to what the cart page uses. Prices are exact integers. */
  datatype Product = Product(id: nat, name: string, price: int)

  /** One line of the cart page: the product, its quantity and `qty * price`. */
  datatype CartItem = CartItem(product: Product, qty: int, subtotal: int)

  /** The line the page shows for a fetched product: `qty = cart.get(str(p.id), 0)`, `subtotal = qty * price`. */
  function LineOf(p: Product, c: Cart): CartItem
  {
    var qty := Get(c, Show(p.id), 0);
    CartItem(p, qty, qty * p.price)
  }

  /** The lines the page builds, in the order of the fetched rows. */
  function Lines(rows: seq<Product>, c: Cart): (items: seq<CartItem>)
    ensures |items| == |rows|
    ensures forall j :: 0 <= j < |rows| ==> items[j] == LineOf(rows[j], c)
  {
    if rows == [] then []
    else Lines(rows[..|rows| - 1], c) + [LineOf(rows[|rows| - 1], c)]
  }

  /** The product table: `id` is its primary key. */
  predicate UniqueIds(table: seq<Product>) {
    forall i, j :: 0 <= i < j < |table| ==> table[i].id != table[j].id
  }

  /** Prices by product id, as the catalog answers a lookup of one id. */
  function Catalog(table: seq<Product>): (prices: map<nat, int>)
    requires UniqueIds(table)
    ensures forall i :: 0 <= i < |table| ==> table[i].id in prices && prices[table[i].id] == table[i].price
  {
    if table == [] then map[]
    else
      var last := table[|table| - 1];
      Catalog(table[..|table| - 1])[last.id := last.price]
  }

  /** Every id the catalog knows belongs to a row of the table. */
  lemma {:induction false} CatalogRow(table: seq<Product>, id: nat)
    requires UniqueIds(table) && id in Catalog(table)
    ensures exists i :: 0 <= i < |table| && table[i].id == id
  {
    var last := table[|table| - 1];
    if id != last.id {
      CatalogRow(table[..|table| - 1], id);
      var i :| 0 <= i < |table| - 1 && table[..|table| - 1][i].id == id;
      assert table[i].id == id;
    }
  }

  /** `[int(pid) for pid in cart.keys()]`, as a set: the ids the cart names. */
  function CartIds(c: Cart): (ids: set<nat>)
    ensures WellFormed(c) ==> forall id :: id in ids <==> Show(id) in c
  {
    var ids := set k | k in c && Parse(k).Some? :: Parse(k).value;
    assert WellFormed(c) ==> forall id :: id in ids <==> Show(id) in c by {
      if WellFormed(c) {
        forall id
          ensures id in ids <==> Show(id) in c
        {
          ParseShow(id);
          if id in ids {
            var k :| k in c && Parse(k) == Some(id);
            KeyDenotes(k, id);
          }
        }
      }
    }
    ids
  }

  /**
   * `Product.query.filter(Product.id.in_(ids)).all()`: the rows whose id is among
   * `ids`, each once, in table order.
   */
  function Select(table: seq<Product>, ids: set<nat>): (rows: seq<Product>)
    ensures forall p :: p in rows <==> p in table && p.id in ids
    ensures UniqueIds(table) ==> UniqueIds(rows)
  {
    if table == [] then []
    else
      var last := table[|table| - 1];
      var front := Select(table[..|table| - 1], ids);
      assert forall p :: p in table <==> p in table[..|table| - 1] || p == last;
      front + (if last.id in ids then [last] else [])
  }

  /** What the page loop adds up: `cart.get(str(p.id), 0) * p.price` over the fetched rows. */
  function RowsTotal(rows: seq<Product>, c: Cart): int {
    if rows == [] then 0
    else
      var last := rows[|rows| - 1];
      RowsTotal(rows[..|rows| - 1], c) + Get(c, Show(last.id), 0) * last.price
  }

  // ---------------------------------------------------------------------------
  // Reference definition of the total, independent of any order of the rows.

  /** Cart keys whose id `int(key)` is a product of the catalog. */
  ghost function ResolvableKeys(c: Cart, prices: map<nat, int>): set<string> {
    set k | k in c && Parse(k).Some? && Parse(k).value in prices
  }

  ghost predicate Resolvable(keys: set<string>, c: Cart, prices: map<nat, int>) {
    forall k :: k in keys ==> k in c && Parse(k).Some? && Parse(k).value in prices
  }

  /** The contribution of one resolvable key: quantity times the catalog price. */
  ghost function Term(k: string, c: Cart, prices: map<nat, int>): int
    requires k in c && Parse(k).Some? && Parse(k).value in prices
  {
    c[k] * prices[Parse(k).value]
  }

  /** Some key of a non-empty set; fixes the order in which `KeysTotal` takes keys out. */
  ghost function PickKey(keys: set<string>): (k: string)
    requires keys != {}
    ensures k in keys
  {
    var k :| k in keys; k
  }

  /** Sum of `Term` over a set of resolvable keys. */
  ghost function KeysTotal(keys: set<string>, c: Cart, prices: map<nat, int>): int
    requires Resolvable(keys, c, prices)
    decreases keys
  {
    if keys == {} then 0
    else
      var k := PickKey(keys);
      Term(k, c, prices) + KeysTotal(keys - {k}, c, prices)
  }

  /** The cart total the page should show: the sum of cart[k] * price(int(k)) over keys that resolve. */
  ghost function CartTotal(c: Cart, prices: map<nat, int>): int {
    KeysTotal(ResolvableKeys(c, prices), c, prices)
  }

  /** The sum does not depend on which key is taken out first. */
  lemma {:induction false} KeysTotalRemove(keys: set<string>, c: Cart, prices: map<nat, int>, k: string)
    requires Resolvable(keys, c, prices) && k in keys
    ensures KeysTotal(keys, c, prices) == Term(k, c, prices) + KeysTotal(keys - {k}, c, prices)
    decreases keys
  {
    var j := PickKey(keys);
    if j != k {
      KeysTotalRemove(keys - {j}, c, prices, k);
      KeysTotalRemove(keys - {k}, c, prices, j);
      assert keys - {j} - {k} == keys - {k} - {j};
    }
  }

  /** Adding one more resolvable key adds its term to the sum. */
  lemma KeysTotalAdd(rest: set<string>, key: string, c: Cart, prices: map<nat, int>)
    requires Resolvable(rest, c, prices) && key !in rest
    requires key in c && Parse(key).Some? && Parse(key).value in prices
    ensures Resolvable(rest + {key}, c, prices)
    ensures KeysTotal(rest + {key}, c, prices) == Term(key, c, prices) + KeysTotal(rest, c, prices)
    ensures |rest + {key}| == |rest| + 1
  {
    KeysTotalRemove(rest + {key}, c, prices, key);
    assert rest + {key} - {key} == rest;
  }

  /** The cart keys `str(p.id)` of the rows `p`, for the rows that have a line in the cart. */
  ghost function KeysOfRows(rows: seq<Product>, c: Cart): set<string> {
    if rows == [] then {}
    else
      var last := rows[|rows| - 1];
      KeysOfRows(rows[..|rows| - 1], c) + (if Show(last.id) in c then {Show(last.id)} else {})
  }

  /** Appending a row adds its key, if the cart has one. */
  lemma KeysOfRowsSnoc(front: seq<Product>, last: Product, c: Cart)
    ensures KeysOfRows(front + [last], c)
         == KeysOfRows(front, c) + (if Show(last.id) in c then {Show(last.id)} else {})
  {
    assert (front + [last])[..|front|] == front;
  }

  /** A key is among the keys of the rows exactly when it is in the cart and some row has it as key. */
  lemma {:induction false} KeysOfRowsMember(rows: seq<Product>, c: Cart, k: string)
    ensures k in KeysOfRows(rows, c) <==> k in c && exists i :: 0 <= i < |rows| && Show(rows[i].id) == k
  {
    if rows != [] {
      var front, last := rows[..|rows| - 1], rows[|rows| - 1];
      KeysOfRowsMember(front, c, k);
      if k in c && exists i :: 0 <= i < |rows| && Show(rows[i].id) == k {
        var i :| 0 <= i < |rows| && Show(rows[i].id) == k;
        if i < |front| {
          assert Show(front[i].id) == k;
        }
      }
      if exists i :: 0 <= i < |front| && Show(front[i].id) == k {
        var i :| 0 <= i < |front| && Show(front[i].id) == k;
        assert Show(rows[i].id) == k;
      }
    }
  }

  /** A row whose id no earlier row has brings a key no earlier row brings. */
  lemma FreshKey(front: seq<Product>, last: Product, c: Cart)
    requires forall i :: 0 <= i < |front| ==> front[i].id != last.id
    ensures Show(last.id) !in KeysOfRows(front, c)
  {
    KeysOfRowsMember(front, c, Show(last.id));
    if Show(last.id) in KeysOfRows(front, c) {
      var i :| 0 <= i < |front| && Show(front[i].id) == Show(last.id);
      ShowInjective(front[i].id, last.id);
    }
  }

  /** Fetching from a table with one more row fetches that row too, if its id is asked for. */
  lemma SelectSnoc(front: seq<Product>, last: Product, ids: set<nat>)
    ensures Select(front + [last], ids) == Select(front, ids) + (if last.id in ids then [last] else [])
  {
    assert (front + [last])[..|front|] == front;
  }

  /** One more row of a prefix. */
  lemma PrefixSnoc(rows: seq<Product>, i: nat)
    requires i < |rows|
    ensures rows[..i + 1] == rows[..i] + [rows[i]]
  {
  }

  /** The page loop adds one line per row. */
  lemma LinesSnoc(rows: seq<Product>, last: Product, c: Cart)
    ensures Lines(rows + [last], c) == Lines(rows, c) + [LineOf(last, c)]
  {
    assert (rows + [last])[..|rows|] == rows;
  }

  /** The page loop adds one row's amount. */
  lemma RowsTotalSnoc(rows: seq<Product>, last: Product, c: Cart)
    ensures RowsTotal(rows + [last], c) == RowsTotal(rows, c) + Get(c, Show(last.id), 0) * last.price
  {
    assert (rows + [last])[..|rows|] == rows;
  }

  /** A row whose key is in the cart adds one line and its term. */
  lemma SnocInCart(front: seq<Product>, last: Product, ids: set<nat>, c: Cart, prices: map<nat, int>)
    requires forall i :: 0 <= i < |front| ==> front[i].id != last.id
    requires last.id in ids && Show(last.id) in c
    requires last.id in prices && prices[last.id] == last.price
    requires Resolvable(KeysOfRows(front, c), c, prices)
    ensures Select(front + [last], ids) == Select(front, ids) + [last]
    ensures KeysOfRows(front + [last], c) == KeysOfRows(front, c) + {Show(last.id)}
    ensures Resolvable(KeysOfRows(front + [last], c), c, prices)
    ensures RowsTotal(Select(front + [last], ids), c) - RowsTotal(Select(front, ids), c)
         == KeysTotal(KeysOfRows(front + [last], c), c, prices) - KeysTotal(KeysOfRows(front, c), c, prices)
    ensures |KeysOfRows(front + [last], c)| == |KeysOfRows(front, c)| + 1
  {
    var rows, keys, key := Select(front, ids), KeysOfRows(front, c), Show(last.id);
    KeysOfRowsSnoc(front, last, c);
    SelectSnoc(front, last, ids);
    RowsTotalSnoc(rows, last, c);
    FreshKey(front, last, c);
    ParseShow(last.id);
    KeysTotalAdd(keys, key, c, prices);
    assert Term(key, c, prices) == Get(c, key, 0) * last.price;
  }

  /** A row whose key is not in the cart is not fetched and adds nothing. */
  lemma SnocNotInCart(front: seq<Product>, last: Product, ids: set<nat>, c: Cart)
    requires last.id !in ids && Show(last.id) !in c
    ensures Select(front + [last], ids) == Select(front, ids)
    ensures KeysOfRows(front + [last], c) == KeysOfRows(front, c)
  {
    KeysOfRowsSnoc(front, last, c);
    SelectSnoc(front, last, ids);
  }

  /**
   * Adding up the fetched rows gives the reference sum over the keys of those
   * rows, and there is one fetched row per such key.
   */
  lemma {:induction false} RowsTotalIsKeysTotal(t: seq<Product>, ids: set<nat>, c: Cart, prices: map<nat, int>)
    requires UniqueIds(t)
    requires forall i :: 0 <= i < |t| ==> (t[i].id in ids <==> Show(t[i].id) in c)
    requires forall i :: 0 <= i < |t| ==> t[i].id in prices && prices[t[i].id] == t[i].price
    ensures Resolvable(KeysOfRows(t, c), c, prices)
    ensures RowsTotal(Select(t, ids), c) == KeysTotal(KeysOfRows(t, c), c, prices)
    ensures |Select(t, ids)| == |KeysOfRows(t, c)|
  {
    if t != [] {
      var front, last := t[..|t| - 1], t[|t| - 1];
      assert t == front + [last];
      RowsTotalIsKeysTotal(front, ids, c, prices);
      if Show(last.id) in c {
        SnocInCart(front, last, ids, c, prices);
      } else {
        SnocNotInCart(front, last, ids, c);
      }
    }
  }

  /**
   * The page total over the fetched rows is the reference total, and the page
   * shows one line per cart key that resolves to a product.
   */
  lemma SelectTotal(table: seq<Product>, c: Cart)
    requires UniqueIds(table) && WellFormed(c)
    ensures RowsTotal(Select(table, CartIds(c)), c) == CartTotal(c, Catalog(table))
    ensures |Select(table, CartIds(c))| == |ResolvableKeys(c, Catalog(table))|
  {
    RowsTotalIsKeysTotal(table, CartIds(c), c, Catalog(table));
    RowKeysAreResolvableKeys(table, c);
  }

  /** Under the cart invariant, the keys of the table rows are exactly the cart keys that resolve. */
  lemma RowKeysAreResolvableKeys(table: seq<Product>, c: Cart)
    requires UniqueIds(table) && WellFormed(c)
    ensures KeysOfRows(table, c) == ResolvableKeys(c, Catalog(table))
  {
    forall k
      ensures k in KeysOfRows(table, c) <==> k in ResolvableKeys(c, Catalog(table))
    {
      KeysOfRowsMember(table, c, k);
      if k in ResolvableKeys(c, Catalog(table)) {
        ResolvableKeyHasRow(table, c, k);
      }
      if k in KeysOfRows(table, c) {
        var i :| 0 <= i < |table| && Show(table[i].id) == k;
        ParseShow(table[i].id);
      }
    }
  }

  /** A resolvable key is the key of the table row carrying its id. */
  lemma ResolvableKeyHasRow(table: seq<Product>, c: Cart, k: string)
    requires UniqueIds(table) && WellFormed(c) && k in ResolvableKeys(c, Catalog(table))
    ensures exists i :: 0 <= i < |table| && Show(table[i].id) == k
  {
    var id := Parse(k).value;
    CatalogRow(table, id);
    var i :| 0 <= i < |table| && table[i].id == id;
    KeyDenotes(k, id);
    assert Show(table[i].id) == k;
  }

  /**
   * Each line of `items` names a product of the table that has a line in the
   * cart `c`, shows that line's quantity (at least 1) and `qty * price`, and no
   * two lines name the same product.
   */
  ghost predicate ShowsCartLines(items: seq<CartItem>, table: seq<Product>, c: Cart) {
    && (forall i :: 0 <= i < |items| ==>
         && items[i].product in table
         && Show(items[i].product.id) in c
         && items[i].qty == c[Show(items[i].product.id)] >= 1
         && items[i].subtotal == items[i].qty * items[i].product.price)
    && (forall i, j :: 0 <= i < j < |items| ==> items[i].product.id != items[j].product.id)
  }

  /** An empty cart has no resolvable key and a total of 0. */
  lemma EmptyCartPage(prices: map<nat, int>)
    ensures ResolvableKeys(map[], prices) == {} && CartTotal(map[], prices) == 0
  {
  }

  /**
   * What the page loop computes over the fetched rows: the reference total, one
   * line per resolvable key, each naming a table product that has a line in the
   * cart with that line's quantity (at least 1), and no product twice.
   */
  lemma PageMatchesReference(table: seq<Product>, c: Cart, items: seq<CartItem>, total: int)
    requires UniqueIds(table) && WellFormed(c)
    requires items == Lines(Select(table, CartIds(c)), c)
    requires total == RowsTotal(Select(table, CartIds(c)), c)
    ensures total == CartTotal(c, Catalog(table))
    ensures |items| == |ResolvableKeys(c, Catalog(table))|
    ensures ShowsCartLines(items, table, c)
  {
    SelectTotal(table, c);
    var rows := Select(table, CartIds(c));
    forall i | 0 <= i < |items|
      ensures items[i].product in table && Show(items[i].product.id) in c
      ensures items[i].qty == c[Show(items[i].product.id)] >= 1
    {
      assert items[i] == LineOf(rows[i], c);
      assert rows[i] in rows;
    }
    forall i, j | 0 <= i < j < |items|
      ensures items[i].product.id != items[j].product.id
    {
      assert items[i] == LineOf(rows[i], c) && items[j] == LineOf(rows[j], c);
    }
  }

  /** The cart and the product table of the example below. */
  function ExampleCart(): Cart {
    map["1" := 2, "2" := 1, "9" := 4]
  }

  function ExampleTable(): seq<Product> {
    [Product(1, "A", 10), Product(2, "B", 5)]
  }

  /** Steps of `StaleKeyExample`: the example's keys, its query result and its row sum. */
  lemma ExampleCartIds()
    ensures WellFormed(ExampleCart()) && UniqueIds(ExampleTable())
    ensures 1 in CartIds(ExampleCart()) && 2 in CartIds(ExampleCart())
  {
  }

  lemma ExampleFetchesBothRows()
    ensures Select(ExampleTable(), CartIds(ExampleCart())) == ExampleTable()
  {
  }

  lemma ExampleRowsTotal()
    ensures RowsTotal(ExampleTable(), ExampleCart()) == 25
  {
  }

  /**
   * Two units of a product at 10, one at 5, and four of a product that has been
   * deleted from the catalog: the cart total is 2 * 10 + 1 * 5 = 25, over two lines.
   */
  lemma StaleKeyExample()
    ensures CartTotal(ExampleCart(), Catalog(ExampleTable())) == 25
    ensures |ResolvableKeys(ExampleCart(), Catalog(ExampleTable()))| == 2
  {
    ExampleCartIds();
    ExampleFetchesBothRows();
    ExampleRowsTotal();
    SelectTotal(ExampleTable(), ExampleCart());
  }
}
