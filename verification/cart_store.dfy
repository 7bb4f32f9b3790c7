/**
 * The session cart as a value: a dictionary from the key `str(product_id)` to a
 * quantity. The functions here are the changes the cart handlers make to that
 * dictionary; the handlers themselves (reading and writing the session) are in
 * module Routes.
 */
module CartStore {
  import opened Wrappers
  import opened Decimal

  type Cart = map<string, int>

  /** The two values of the form field `action` that change a line. */
  const INCREASE: string := "increase"
  const DECREASE: string := "decrease"

  /**
   * The cart invariant: every key is the decimal text of a product id, and every
   * stored quantity is at least 1 (a line that reaches 0 is deleted, never kept).
   */
  predicate WellFormed(c: Cart) {
    forall k :: k in c ==> Canonical(k) && c[k] >= 1
  }

  /** `cart.get(k, default)`. */
  function Get(c: Cart, k: string, default: int): int {
    if k in c then c[k] else default
  }

  /** `cart[k] = cart.get(k, 0) + 1`: one more unit of the product under key k. */
  function AddOne(c: Cart, k: string): (r: Cart)
    ensures k in r && r[k] == (if k in c then c[k] + 1 else 1)
    ensures r - {k} == c - {k}
    ensures WellFormed(c) && Canonical(k) ==> WellFormed(r)
  {
    c[k := Get(c, k, 0) + 1]
  }

  /**
   * The change `update_cart` makes: on a line that exists, "increase" adds one
   * unit and "decrease" takes one away, deleting the line once it is at 0 or
   * below; any other action, and any key not in the cart, leaves it as it was.
   */
  function Update(c: Cart, k: string, action: Option<string>): (r: Cart)
    ensures r - {k} == c - {k}
    ensures k !in c ==> r == c
    ensures action != Some(INCREASE) && action != Some(DECREASE) ==> r == c
    ensures k in c && action == Some(INCREASE) ==> k in r && r[k] == c[k] + 1
    ensures k in c && action == Some(DECREASE) ==> (k in r <==> c[k] > 1) && (k in r ==> r[k] == c[k] - 1)
    ensures WellFormed(c) ==> WellFormed(r)
  {
    if k !in c then c
    else if action == Some(INCREASE) then c[k := c[k] + 1]
    else if action == Some(DECREASE) then
      var q := c[k] - 1;
      if q <= 0 then c - {k} else c[k := q]
    else c
  }

  /** The change `remove_from_cart` makes: the line under k is gone, the rest untouched. */
  function Remove(c: Cart, k: string): (r: Cart)
    ensures k !in r && r - {k} == c - {k}
    ensures k !in c ==> r == c
    ensures |r| == if k in c then |c| - 1 else |c|
    ensures WellFormed(c) ==> WellFormed(r)
  {
    if k in c then c - {k} else c
  }

  /** Pressing "+" and then "-" on a line gives back the cart one started with. */
  lemma IncreaseThenDecrease(c: Cart, k: string)
    requires WellFormed(c) && k in c
    ensures Update(Update(c, k, Some(INCREASE)), k, Some(DECREASE)) == c
  {
  }

  /** Adding one unit and then pressing "-" on that line undoes the add, whether or not the line existed. */
  lemma AddThenDecrease(c: Cart, k: string)
    requires WellFormed(c)
    ensures Update(AddOne(c, k), k, Some(DECREASE)) == c
  {
  }
}
