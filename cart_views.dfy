/**
 * The cart's request handlers: adding a product (with quantity clamping,
 * merging into an existing line and the stock checks), setting a line's
 * quantity, removing a line, clearing the cart, and the cart page's totals,
 * coupon discount and stock report.
 *
 * The stock lookup in the inventory app is a parameter: `None` when the app
 * is missing or has no record for the product, otherwise its
 * `stock_quantity`.
 */
module CartViews {
  import opened Wrappers
  import opened CartModels

  // ---------------------------------------------------------------------
  // Lookups
  // ---------------------------------------------------------------------

  /** The position of the line for product `name`, if there is one. */
  function FindByName(items: seq<CartItem>, name: string): (r: Option<nat>)
    ensures r.Some? ==> r.value < |items| && items[r.value].productName == name
    ensures r.None? <==> forall i :: 0 <= i < |items| ==> items[i].productName != name
  {
    if |items| == 0 then None
    else if items[0].productName == name then Some(0)
    else
      match FindByName(items[1..], name)
      case None => None
      case Some(j) => Some(j + 1)
  }

  /** `get_object_or_404(CartItem, id=...)`: the position of the line with
      primary key `id`, if there is one. */
  function FindById(items: seq<CartItem>, id: nat): (r: Option<nat>)
    ensures r.Some? ==> r.value < |items| && items[r.value].id == id
    ensures r.None? <==> forall i :: 0 <= i < |items| ==> items[i].id != id
  {
    if |items| == 0 then None
    else if items[0].id == id then Some(0)
    else
      match FindById(items[1..], id)
      case None => None
      case Some(j) => Some(j + 1)
  }

  // ---------------------------------------------------------------------
  // The cart's rules under each kind of change
  // ---------------------------------------------------------------------

  /** Deleting a line keeps the rules and the order of the others. */
  lemma {:induction false} RemoveKeepsRules(items: seq<CartItem>, nextId: nat, k: nat)
    requires WellFormed(items, nextId)
    requires k < |items|
    ensures WellFormed(items[..k] + items[k + 1..], nextId)
  {
    var r := items[..k] + items[k + 1..];
    assert forall i :: 0 <= i < |r| ==> r[i] == items[if i < k then i else i + 1];
  }

  /** Changing a line's quantity, price or image keeps the rules. */
  lemma {:induction false} ReplaceKeepsRules(items: seq<CartItem>, nextId: nat, k: nat, x: CartItem)
    requires WellFormed(items, nextId)
    requires k < |items|
    requires x.id == items[k].id && x.productName == items[k].productName
    ensures WellFormed(items[k := x], nextId)
  {
  }

  /** A new line for a product not yet in the cart, with the next id, goes in
      front and keeps the rules. */
  lemma {:induction false} PrependKeepsRules(items: seq<CartItem>, nextId: nat, x: CartItem)
    requires WellFormed(items, nextId)
    requires FindByName(items, x.productName).None?
    requires x.id == nextId
    ensures WellFormed([x] + items, nextId + 1)
  {
    var r := [x] + items;
    assert forall i :: 1 <= i < |r| ==> r[i] == items[i - 1];
  }

  // ---------------------------------------------------------------------
  // add_to_cart
  // ---------------------------------------------------------------------

  /** The `product_price` field of the form: absent or empty, not a decimal
      number, or an amount in paise. */
  datatype PriceInput = PriceMissing | PriceMalformed | Amount(paise: int)

  /** The outcomes of `add_to_cart`, each error with the message it shows. */
  datatype AddOutcome =
    | InvalidProductData          // 'Invalid product data.'
    | ServerError                 // `Decimal` raises InvalidOperation, which is not caught
    | InvalidPriceOrQuantity      // 'Invalid price or quantity.'
    | OnlyUnitsAvailable(available: int)   // 'Only N units of P are available.'
    | CannotAddMore(available: int)        // 'Cannot add more. Only N units available.'
    | Added
    | Updated

  /** The quantity rule of `add_to_cart`: anything below 1 becomes 1. */
  function ClampQuantity(q: int): (r: nat)
    ensures r >= 1
    ensures r >= q
    ensures q >= 1 ==> r == q
  {
    if q < 1 then 1 else q
  }

  /** `add_to_cart`. `name` and `price` are the form fields, `image` the
      image field (empty when absent), `quantity` the parsed quantity field
      (`None` when `int()` rejects it), `stock` the inventory lookup. Only
      the two accepting outcomes change the cart. */
  method AddToCart(cart: Cart, name: Option<string>, price: PriceInput, image: string,
                   quantity: Option<int>, stock: Option<int>) returns (outcome: AddOutcome)
    requires cart.Valid()
    modifies cart
    ensures cart.Valid()
    ensures !outcome.Added? && !outcome.Updated? ==> cart.items == old(cart.items) && cart.nextId == old(cart.nextId)
    ensures name.None? || name.value == "" || price.PriceMissing? ==> outcome == InvalidProductData
    ensures name.Some? && name.value != "" && price.PriceMalformed? ==> outcome == ServerError
    ensures name.Some? && name.value != "" && price.Amount? && quantity.None? ==> outcome == InvalidPriceOrQuantity
    ensures name.Some? && name.value != "" && price.Amount? && quantity.Some? ==>
      var qty := ClampQuantity(quantity.value);
      var found := FindByName(old(cart.items), name.value);
      if stock.Some? && stock.value < qty then
        outcome == OnlyUnitsAvailable(stock.value)
      else if found.None? then
        && outcome == Added
        && cart.items == [CartItem(old(cart.nextId), name.value, price.paise, image, qty)] + old(cart.items)
        && cart.nextId == old(cart.nextId) + 1
        && TotalItems(cart.items) == TotalItems(old(cart.items)) + qty
      else
        var line := old(cart.items)[found.value];
        if stock.Some? && stock.value < line.quantity + qty then
          outcome == CannotAddMore(stock.value)
        else
          && outcome == Updated
          && cart.items == old(cart.items)[found.value := line.(quantity := line.quantity + qty, price := price.paise, image := image)]
          && cart.nextId == old(cart.nextId)
          && TotalItems(cart.items) == TotalItems(old(cart.items)) + qty
  {
    if name.None? || name.value == "" || price.PriceMissing? {
      return InvalidProductData;
    }
    if price.PriceMalformed? {
      return ServerError;
    }
    if quantity.None? {
      return InvalidPriceOrQuantity;
    }
    var qty := ClampQuantity(quantity.value);
    if stock.Some? && stock.value < qty {
      return OnlyUnitsAvailable(stock.value);
    }
    var found := FindByName(cart.items, name.value);
    if found.None? {
      var line := CartItem(cart.nextId, name.value, price.paise, image, qty);
      PrependKeepsRules(cart.items, cart.nextId, line);
      TotalsConcat([line], cart.items);
      cart.items := [line] + cart.items;
      cart.nextId := cart.nextId + 1;
      return Added;
    }
    var k := found.value;
    var line := cart.items[k];
    var newQuantity := line.quantity + qty;
    if stock.Some? && stock.value < newQuantity {
      return CannotAddMore(stock.value);
    }
    var updated := line.(quantity := newQuantity, price := price.paise, image := image);
    ReplaceKeepsRules(cart.items, cart.nextId, k, updated);
    TotalsReplace(cart.items, k, updated);
    cart.items := cart.items[k := updated];
    outcome := Updated;
  }

  // ---------------------------------------------------------------------
  // update_cart, remove_from_cart, clear_cart
  // ---------------------------------------------------------------------

  datatype UpdateOutcome =
    | ItemNotFound                        // status 404
    | InvalidQuantity                     // 'Invalid quantity.'
    | Removed
    | OnlyAvailable(available: int)       // 'Only N units available.'
    | QuantitySet

  /** `update_cart` on the line with primary key `itemId`. `quantity` is the
      parsed quantity field (`None` when `int()` rejects it) and `stock` the
      inventory lookup for the line's product. A quantity of 0 or less
      deletes the line; a positive one is set exactly unless known stock is
      below it. No other line changes. */
  method UpdateCart(cart: Cart, itemId: nat, quantity: Option<int>, stock: Option<int>)
    returns (outcome: UpdateOutcome)
    requires cart.Valid()
    modifies cart
    ensures cart.Valid()
    ensures cart.nextId == old(cart.nextId)
    ensures outcome != Removed && outcome != QuantitySet ==> cart.items == old(cart.items)
    ensures FindById(old(cart.items), itemId).None? <==> outcome == ItemNotFound
    ensures FindById(old(cart.items), itemId).Some? ==>
      var k := FindById(old(cart.items), itemId).value;
      if quantity.None? then
        outcome == InvalidQuantity
      else if quantity.value <= 0 then
        && outcome == Removed
        && cart.items == old(cart.items)[..k] + old(cart.items)[k + 1..]
        && TotalItems(cart.items) == TotalItems(old(cart.items)) - old(cart.items)[k].quantity
      else if stock.Some? && stock.value < quantity.value then
        outcome == OnlyAvailable(stock.value)
      else
        && outcome == QuantitySet
        && cart.items == old(cart.items)[k := old(cart.items)[k].(quantity := quantity.value)]
        && TotalItems(cart.items) == TotalItems(old(cart.items)) - old(cart.items)[k].quantity + quantity.value
  {
    var found := FindById(cart.items, itemId);
    if found.None? {
      return ItemNotFound;
    }
    var k := found.value;
    if quantity.None? {
      return InvalidQuantity;
    }
    var qty := quantity.value;
    if qty <= 0 {
      RemoveKeepsRules(cart.items, cart.nextId, k);
      TotalsRemove(cart.items, k);
      cart.items := cart.items[..k] + cart.items[k + 1..];
      return Removed;
    }
    if stock.Some? && stock.value < qty {
      return OnlyAvailable(stock.value);
    }
    var updated := cart.items[k].(quantity := qty);
    ReplaceKeepsRules(cart.items, cart.nextId, k, updated);
    TotalsReplace(cart.items, k, updated);
    cart.items := cart.items[k := updated];
    outcome := QuantitySet;
  }

  /** `remove_from_cart`: delete the line with primary key `itemId`; an
      unknown id is a 404 and changes nothing. */
  method RemoveFromCart(cart: Cart, itemId: nat) returns (found: bool)
    requires cart.Valid()
    modifies cart
    ensures cart.Valid()
    ensures cart.nextId == old(cart.nextId)
    ensures found <==> FindById(old(cart.items), itemId).Some?
    ensures !found ==> cart.items == old(cart.items)
    ensures found ==>
      var k := FindById(old(cart.items), itemId).value;
      && cart.items == old(cart.items)[..k] + old(cart.items)[k + 1..]
      && TotalItems(cart.items) == TotalItems(old(cart.items)) - old(cart.items)[k].quantity
    ensures forall i :: 0 <= i < |cart.items| ==> cart.items[i].id != itemId
  {
    var r := FindById(cart.items, itemId);
    if r.None? {
      return false;
    }
    var k := r.value;
    RemoveKeepsRules(cart.items, cart.nextId, k);
    TotalsRemove(cart.items, k);
    ghost var before := cart.items;
    cart.items := cart.items[..k] + cart.items[k + 1..];
    forall i | 0 <= i < |cart.items| ensures cart.items[i].id != itemId {
      var j := if i < k then i else i + 1;
      assert cart.items[i] == before[j];
      assert before[j].id != before[k].id;
    }
    found := true;
  }

  /** `clear_cart`: the cart is emptied. */
  method ClearCart(cart: Cart)
    requires cart.Valid()
    modifies cart
    ensures cart.Valid()
    ensures cart.items == [] && TotalItems(cart.items) == 0 && TotalPrice(cart.items) == 0
    ensures cart.nextId == old(cart.nextId)
  {
    cart.Clear();
  }

  // ---------------------------------------------------------------------
  // cart_detail
  // ---------------------------------------------------------------------

  /** `Decimal.quantize(Decimal('0.01'))` under the default context
      (ROUND_HALF_EVEN) on the value `n / 100` paise: the nearest whole
      paisa, ties to the even one. */
  function QuantizePaise(n: int): (d: int)
    ensures -50 <= n - 100 * d <= 50
    ensures n - 100 * d == 50 || n - 100 * d == -50 ==> d % 2 == 0
  {
    var q := n / 100;
    var r := n % 100;
    if r < 50 then q
    else if r > 50 then q + 1
    else if q % 2 == 0 then q
    else q + 1
  }

  /** The two properties above single out one rounding. */
  lemma {:induction false} QuantizeUnique(n: int, d: int)
    requires -50 <= n - 100 * d <= 50
    requires n - 100 * d == 50 || n - 100 * d == -50 ==> d % 2 == 0
    ensures d == QuantizePaise(n)
  {
    var e := QuantizePaise(n);
    assert -100 <= 100 * (d - e) <= 100;
  }

  /** Rounding keeps an amount between 0 and `100 * m` between 0 and `m`. */
  lemma {:induction false} QuantizeWithin(n: int, m: int)
    requires 0 <= n <= 100 * m
    ensures 0 <= QuantizePaise(n) <= m
  {
  }

  /** The discount of a coupon: `subtotal × percent / 100`, rounded to paise. */
  function Discount(subtotal: int, percent: int): (r: int)
    ensures -50 <= subtotal * percent - 100 * r <= 50
    ensures subtotal * percent - 100 * r == 50 || subtotal * percent - 100 * r == -50 ==> r % 2 == 0
  {
    QuantizePaise(subtotal * percent)
  }

  /** A percentage between 0 and 100 of a non-negative subtotal gives a
      discount between 0 and the subtotal, so the final total stays in
      `[0, subtotal]`. */
  lemma {:induction false} DiscountBounds(subtotal: int, percent: int)
    requires subtotal >= 0 && 0 <= percent <= 100
    ensures 0 <= Discount(subtotal, percent) <= subtotal
  {
    assert 0 <= subtotal * (100 - percent);
    assert 0 <= subtotal * percent;
    QuantizeWithin(subtotal * percent, subtotal);
  }

  /** Percentages that divide evenly are exact. */
  lemma {:induction false} DiscountExact(subtotal: int, percent: int)
    requires (subtotal * percent) % 100 == 0
    ensures Discount(subtotal, percent) * 100 == subtotal * percent
  {
  }

  datatype StockStatus = InStock | LowStock | OutOfStock

  /** The status shown for a line: out of stock below the quantity in the
      cart, low stock under 10 otherwise, in stock beyond. */
  function StatusOf(available: int, quantity: int): (s: StockStatus)
    ensures s == OutOfStock <==> available < quantity
    ensures s == LowStock <==> quantity <= available < 10
    ensures s == InStock <==> quantity <= available && 10 <= available
  {
    if available < quantity then OutOfStock
    else if available < 10 then LowStock
    else InStock
  }

  datatype StockInfo = StockInfo(available: int, status: StockStatus)

  /** One entry of `enhanced_items`: the line and, when the inventory knows
      the product, its stock information. */
  datatype PageLine = PageLine(item: CartItem, stockInfo: Option<StockInfo>)

  /** A stock warning; the page renders it as "<name>: Only <available>
      available, you have <quantity> in cart". */
  datatype StockWarning = StockWarning(productName: string, available: int, quantity: nat)

  /** The context of the cart page. */
  datatype CartPage = CartPage(
    subtotal: int,
    totalItems: nat,
    discount: int,
    finalTotal: int,
    lines: seq<PageLine>,
    warnings: seq<StockWarning>,
    canCheckout: bool)

  /** The inventory knows the product and has fewer units than the line wants. */
  predicate IsShort(item: CartItem, stock: map<string, int>) {
    item.productName in stock && stock[item.productName] < item.quantity
  }

  /** One line of the page: the item, with stock information exactly when
      the inventory knows the product; it shows out of stock exactly when
      the line is short. */
  function LineOf(item: CartItem, stock: map<string, int>): (r: PageLine)
    ensures r.item == item
    ensures r.stockInfo.Some? <==> item.productName in stock
    ensures r.stockInfo.Some? ==>
      && r.stockInfo.value.available == stock[item.productName]
      && (r.stockInfo.value.status == OutOfStock <==> IsShort(item, stock))
  {
    if item.productName in stock then
      PageLine(item, Some(StockInfo(stock[item.productName], StatusOf(stock[item.productName], item.quantity))))
    else PageLine(item, None)
  }

  /** The warnings for the short lines, in the cart's order. */
  function Warnings(items: seq<CartItem>, stock: map<string, int>): (r: seq<StockWarning>)
    ensures |r| <= |items|
  {
    if |items| == 0 then []
    else
      var last := items[|items| - 1];
      Warnings(items[..|items| - 1], stock)
        + (if IsShort(last, stock) then [StockWarning(last.productName, stock[last.productName], last.quantity)] else [])
  }

  /** One more line adds its warning, if any, at the end. */
  lemma {:induction false} WarningsStep(items: seq<CartItem>, stock: map<string, int>, i: nat)
    requires i < |items|
    ensures Warnings(items[..i + 1], stock) == Warnings(items[..i], stock)
      + (if IsShort(items[i], stock) then [StockWarning(items[i].productName, stock[items[i].productName], items[i].quantity)] else [])
  {
    assert items[..i + 1][..i] == items[..i];
  }

  /** There is no warning exactly when no line is short, and each warning
      names a short line. */
  lemma {:induction false} WarningsExactlyShortLines(items: seq<CartItem>, stock: map<string, int>)
    ensures Warnings(items, stock) == [] <==> forall i :: 0 <= i < |items| ==> !IsShort(items[i], stock)
    ensures forall w :: w in Warnings(items, stock) ==>
      exists i :: 0 <= i < |items| && IsShort(items[i], stock) && w.productName == items[i].productName
  {
    if |items| > 0 {
      var init := items[..|items| - 1];
      WarningsExactlyShortLines(init, stock);
      assert forall i :: 0 <= i < |init| ==> init[i] == items[i];
    }
  }

  /** One pass of the `cart_detail` loop: the page line of `item`, and its
      stock warning when the line is short. */
  method EnhanceItem(item: CartItem, stock: map<string, int>) returns (line: PageLine, warning: Option<StockWarning>)
    ensures line == LineOf(item, stock)
    ensures warning.Some? <==> IsShort(item, stock)
    ensures warning.Some? ==>
      warning.value == StockWarning(item.productName, stock[item.productName], item.quantity)
  {
    var info: Option<StockInfo> := None;
    warning := None;
    if item.productName in stock {
      var available := stock[item.productName];
      var status := if available >= item.quantity then InStock else OutOfStock;
      if available < item.quantity {
        warning := Some(StockWarning(item.productName, available, item.quantity));
      } else if available < 10 {
        status := LowStock;
      }
      info := Some(StockInfo(available, status));
    }
    line := PageLine(item, info);
  }

  /** `cart_detail`. `coupon` is the session's applied coupon: `None` when
      there is none (or it is empty), otherwise its `discount` percentage
      (0 when the coupon has no such field). `stock` holds the inventory's
      stock for the products it knows. */
  method CartDetail(cart: Cart, coupon: Option<int>, stock: map<string, int>) returns (page: CartPage)
    requires cart.Valid()
    ensures page.subtotal == TotalPrice(cart.items) && page.totalItems == TotalItems(cart.items)
    ensures coupon.None? ==> page.discount == 0 && page.finalTotal == page.subtotal
    ensures coupon.Some? ==> page.discount == Discount(page.subtotal, coupon.value)
                             && page.finalTotal == page.subtotal - page.discount
    ensures |page.lines| == |cart.items|
    ensures forall i :: 0 <= i < |cart.items| ==> page.lines[i] == LineOf(cart.items[i], stock)
    ensures page.warnings == Warnings(cart.items, stock)
    ensures page.canCheckout <==> forall i :: 0 <= i < |cart.items| ==> !IsShort(cart.items[i], stock)
  {
    var items := cart.items;
    var subtotal := TotalPrice(items);
    var totalItems := TotalItems(items);
    var discount, finalTotal := 0, subtotal;
    if coupon.Some? {
      discount := Discount(subtotal, coupon.value);
      finalTotal := subtotal - discount;
    }
    var warnings := [];
    var canCheckout := true;
    var lines := [];
    for i := 0 to |items|
      invariant |lines| == i
      invariant forall k :: 0 <= k < i ==> lines[k] == LineOf(items[k], stock)
      invariant warnings == Warnings(items[..i], stock)
      invariant canCheckout <==> forall k :: 0 <= k < i ==> !IsShort(items[k], stock)
    {
      var line, warning := EnhanceItem(items[i], stock);
      if warning.Some? {
        warnings := warnings + [warning.value];
        canCheckout := false;
      }
      WarningsStep(items, stock, i);
      lines := lines + [line];
    }
    assert items[..|items|] == items;
    page := CartPage(subtotal, totalItems, discount, finalTotal, lines, warnings, canCheckout);
  }
}
