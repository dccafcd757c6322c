/**
 * A user's shopping cart: its items, keyed by product name, and the totals
 * computed over them. Prices are integer amounts of the smallest currency
 * unit (paise), so a two-decimal price `p` is `p * 100`.
 */
module CartModels {

  /** A cart line. `id` is the row's primary key; `price` is in paise. */
  datatype CartItem = CartItem(id: nat, productName: string, price: int, image: string, quantity: nat)

  /** `CartItem.get_total_price`: price times quantity. */
  function ItemTotal(item: CartItem): int {
    item.price * item.quantity
  }

  /** `Cart.get_total_items`: the sum of the quantities. */
  function TotalItems(items: seq<CartItem>): nat {
    if |items| == 0 then 0 else items[0].quantity + TotalItems(items[1..])
  }

  /** `Cart.get_total_price`: the sum of the line totals. */
  function TotalPrice(items: seq<CartItem>): int {
    if |items| == 0 then 0 else ItemTotal(items[0]) + TotalPrice(items[1..])
  }

  /** `unique_together = ['cart', 'product_name']`. */
  predicate NamesUnique(items: seq<CartItem>) {
    forall i, j :: 0 <= i < j < |items| ==> items[i].productName != items[j].productName
  }

  /** `ordering = ['-added_at']`: ids are handed out in creation order, so
      the newest line has the largest id and comes first. */
  predicate NewestFirst(items: seq<CartItem>) {
    forall i, j :: 0 <= i < j < |items| ==> items[j].id < items[i].id
  }

  /** The rules of a stored cart, on its lines and its id counter: one line
      per product name, newest first, and ids below the counter. The
      quantity is a `PositiveIntegerField`, which admits 0, so a line with
      quantity 0 is allowed. */
  predicate WellFormed(items: seq<CartItem>, nextId: nat) {
    && NamesUnique(items)
    && NewestFirst(items)
    && (forall i :: 0 <= i < |items| ==> items[i].id < nextId)
  }

  /** Both totals add up over a concatenation. */
  lemma {:induction false} TotalsConcat(a: seq<CartItem>, b: seq<CartItem>)
    ensures TotalItems(a + b) == TotalItems(a) + TotalItems(b)
    ensures TotalPrice(a + b) == TotalPrice(a) + TotalPrice(b)
  {
    if |a| == 0 {
      assert a + b == b;
    } else {
      assert (a + b)[1..] == a[1..] + b;
      TotalsConcat(a[1..], b);
    }
  }

  /** Replacing one line changes the totals by the difference of the two
      lines and by nothing else. */
  lemma {:induction false} TotalsReplace(items: seq<CartItem>, i: nat, x: CartItem)
    requires i < |items|
    ensures TotalItems(items[i := x]) == TotalItems(items) - items[i].quantity + x.quantity
    ensures TotalPrice(items[i := x]) == TotalPrice(items) - ItemTotal(items[i]) + ItemTotal(x)
  {
    var pre, post := items[..i], items[i + 1..];
    assert items == pre + [items[i]] + post;
    assert items[i := x] == pre + [x] + post;
    TotalsConcat(pre + [items[i]], post);
    TotalsConcat(pre, [items[i]]);
    TotalsConcat(pre + [x], post);
    TotalsConcat(pre, [x]);
  }

  /** Dropping one line takes exactly its share off the totals. */
  lemma {:induction false} TotalsRemove(items: seq<CartItem>, i: nat)
    requires i < |items|
    ensures TotalItems(items[..i] + items[i + 1..]) == TotalItems(items) - items[i].quantity
    ensures TotalPrice(items[..i] + items[i + 1..]) == TotalPrice(items) - ItemTotal(items[i])
  {
    var pre, post := items[..i], items[i + 1..];
    assert items == pre + [items[i]] + post;
    TotalsConcat(pre + [items[i]], post);
    TotalsConcat(pre, [items[i]]);
    TotalsConcat(pre, post);
  }

  /** With quantities of at least one, the item count is at least the number
      of lines. */
  lemma {:induction false} TotalItemsAtLeastLines(items: seq<CartItem>)
    requires forall i :: 0 <= i < |items| ==> items[i].quantity >= 1
    ensures TotalItems(items) >= |items|
    ensures TotalItems(items) == 0 <==> |items| == 0
  {
    if |items| > 0 {
      TotalItemsAtLeastLines(items[1..]);
    }
  }

  /** With non-negative prices the cart total is non-negative, and it is at
      least every single line total. */
  lemma {:induction false} TotalPriceNonNegative(items: seq<CartItem>)
    requires forall i :: 0 <= i < |items| ==> items[i].price >= 0
    ensures TotalPrice(items) >= 0
    ensures forall i :: 0 <= i < |items| ==> ItemTotal(items[i]) <= TotalPrice(items)
  {
    if |items| > 0 {
      TotalPriceNonNegative(items[1..]);
      assert forall i :: 1 <= i < |items| ==> items[i] == items[1..][i - 1];
    }
  }

  /** The database row of a user's cart, holding its items newest first. */
  class Cart {
    var items: seq<CartItem>
    var nextId: nat

    /** The rules every stored cart obeys. */
    ghost predicate Valid()
      reads this
    {
      WellFormed(items, nextId)
    }

    constructor ()
      ensures Valid()
      ensures items == [] && nextId == 0
    {
      items, nextId := [], 0;
    }

    /** `Cart.clear`: every line is deleted, so both totals become 0. */
    method Clear()
      requires Valid()
      modifies this
      ensures Valid()
      ensures items == [] && nextId == old(nextId)
      ensures TotalItems(items) == 0 && TotalPrice(items) == 0
    {
      items := [];
    }
  }
}
