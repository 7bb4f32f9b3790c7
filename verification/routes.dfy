/**
 * The request handlers that read and write the cart in the user's session.
 * The session is an object whose entries the handlers overwrite in place:
 * `cart` (absent until a cart handler first stores it) and the login entries
 * `user_id`, `username` and `role`.
 */
module Routes {
  import opened Wrappers
  import opened Decimal
  import opened CartStore
  import opened CartPage

  class Session {
    /** session["cart"]; None while the session has no "cart" entry. */
    var cart: Option<Cart>
    /** session["user_id"], session["username"], session["role"]. */
    var userId: Option<nat>
    var username: Option<string>
    var role: Option<string>

    /** `session.get("cart", {})`: the cart the handlers work on. */
    function CurrentCart(): (c: Cart)
      reads this
    {
      if cart.Some? then cart.value else map[]
    }

    /** The session invariant: the cart keeps the cart invariant. */
    ghost predicate Valid()
      reads this
    {
      WellFormed(CurrentCart())
    }

    /** A new session: no entries at all. */
    constructor ()
      ensures Valid()
      ensures cart == None && userId == None && username == None && role == None
    {
      cart := None;
      userId := None;
      username := None;
      role := None;
    }

    /** The session writes of a successful login; the cart is kept. */
    method Login(id: nat, name: string, userRole: string)
      requires Valid()
      modifies this
      ensures Valid()
      ensures userId == Some(id) && username == Some(name) && role == Some(userRole)
      ensures cart == old(cart)
    {
      userId := Some(id);
      username := Some(name);
      role := Some(userRole);
    }

    /** `session.clear()`: the cart goes together with the login entries. */
    method Logout()
      modifies this
      ensures Valid()
      ensures cart == None && userId == None && username == None && role == None
      ensures CurrentCart() == map[]
    {
      cart := None;
      userId := None;
      username := None;
      role := None;
    }

    /** `add_to_cart`: one more unit of the product; an absent line starts at 1. */
    method AddToCart(productId: nat)
      requires Valid()
      modifies this
      ensures Valid()
      ensures cart == Some(AddOne(old(CurrentCart()), Show(productId)))
      ensures userId == old(userId) && username == old(username) && role == old(role)
    {
      var c := CurrentCart();
      var pid := Show(productId);
      c := c[pid := Get(c, pid, 0) + 1];
      cart := Some(c);
    }

    /**
     * `update_cart`: "increase" or "decrease" one line by one unit, deleting it
     * when it drops to 0. The cart is stored back even when nothing changed.
     */
    method UpdateCart(productId: nat, action: Option<string>)
      requires Valid()
      modifies this
      ensures Valid()
      ensures cart == Some(Update(old(CurrentCart()), Show(productId), action))
      ensures userId == old(userId) && username == old(username) && role == old(role)
    {
      var c := CurrentCart();
      var pid := Show(productId);
      if pid in c {
        if action == Some(INCREASE) {
          c := c[pid := c[pid] + 1];
        } else if action == Some(DECREASE) {
          ghost var before := c;
          c := c[pid := c[pid] - 1];
          if c[pid] <= 0 {
            c := c - {pid};
            assert c == before - {pid};
          }
        }
      }
      cart := Some(c);
    }

    /**
     * `remove_from_cart`: the line is deleted; when the product has no line the
     * session is not written at all.
     */
    method RemoveFromCart(productId: nat)
      requires Valid()
      modifies this
      ensures Valid()
      ensures CurrentCart() == Remove(old(CurrentCart()), Show(productId))
      ensures Show(productId) in old(CurrentCart()) ==> cart.Some?
      ensures Show(productId) !in old(CurrentCart()) ==> cart == old(cart)
      ensures userId == old(userId) && username == old(username) && role == old(role)
    {
      var c := CurrentCart();
      var pid := Show(productId);
      if pid in c {
        c := c - {pid};
        cart := Some(c);
      }
    }

    /** `clear_cart`: the stored cart becomes empty, whatever it held. */
    method ClearCart()
      modifies this
      ensures Valid()
      ensures cart == Some(map[])
      ensures userId == old(userId) && username == old(username) && role == old(role)
    {
      cart := Some(map[]);
    }

    /**
     * The `cart` page: one line per cart product still in the catalog, with its
     * quantity and `qty * price`, and the total of those lines. An empty cart
     * shows no lines and a total of 0 without asking the catalog.
     */
    method CartView(table: seq<Product>) returns (items: seq<CartItem>, total: int)
      requires Valid() && UniqueIds(table)
      ensures CurrentCart() == map[] ==> items == [] && total == 0
      ensures total == CartTotal(CurrentCart(), Catalog(table))
      ensures |items| == |ResolvableKeys(CurrentCart(), Catalog(table))|
      ensures ShowsCartLines(items, table, CurrentCart())
    {
      var c := CurrentCart();
      if |c| == 0 {
        EmptyCartPage(Catalog(table));
        return [], 0;
      }
      var ids := CartIds(c);
      var rows := Select(table, ids);
      items, total := [], 0;
      for i := 0 to |rows|
        invariant total == RowsTotal(rows[..i], c)
        invariant items == Lines(rows[..i], c)
      {
        var product := rows[i];
        var line := LineOf(product, c);
        total := total + line.subtotal;
        items := items + [line];
        RowsTotalSnoc(rows[..i], product, c);
        LinesSnoc(rows[..i], product, c);
        PrefixSnoc(rows, i);
      }
      assert rows[..|rows|] == rows;
      PageMatchesReference(table, c, items, total);
      assert CurrentCart() == c;
    }
  }
}
