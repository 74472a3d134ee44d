/**
 * Checkout (`createOrder`): from the items sent with the request, or else from the
 * user's generic cart; the product stock checks, the order total, the stock
 * decrement and the cart clear.
 */
module Orders {
  import opened Wrappers
  import opened Tables

  /** An item sent with the request; `""` and `0` are the falsy values the check rejects. `price` is in cents. */
  datatype DirectItem = DirectItem(productId: ProductId, quantity: int, price: int)

  /** `orderItems` as sent: absent (or another falsy value), an array, or a truthy non-array. */
  datatype OrderItemsField = NoItems | ItemList(items: seq<DirectItem>) | NotAList

  datatype OrderRequest = OrderRequest(shippingAddress: string, orderNotes: string, orderItems: OrderItemsField, total: Option<int>)

  datatype OrderError =
    | UserNotFound
    | InvalidItem
    | ProductNotFound(productId: ProductId)
    | InsufficientStock(name: string, available: int, requested: int)
    | CartEmpty
    | NoValidProducts
    | CartInsufficientStock(name: string)

  function OrderStatus(e: OrderError): int {
    if e.UserNotFound? then 404 else 400
  }

  /** The direct path is taken for a non-empty array. */
  predicate UsesDirectItems(f: OrderItemsField) {
    f.ItemList? && |f.items| > 0
  }

  // ------------------------------------------------------- direct path

  /** The direct-item checks of one item, in the handler's order. */
  function DirectItemError(products: map<ProductId, Product>, it: DirectItem): Option<OrderError> {
    if it.productId == "" || it.quantity == 0 || it.price == 0 then Some(InvalidItem)
    else if it.productId !in products || !products[it.productId].isActive then Some(ProductNotFound(it.productId))
    else if products[it.productId].stock < it.quantity then
      Some(InsufficientStock(products[it.productId].name, products[it.productId].stock, it.quantity))
    else None
  }

  function ToOrderItem(it: DirectItem): OrderItem {
    OrderItem(it.productId, it.quantity, Some(it.price), it.price * it.quantity)
  }

  /**
   * The direct-item loop: the first failing item rejects the whole order; otherwise
   * one order item per sent item. Every item is checked against the stock as read
   * before any decrement.
   */
  function ValidateDirect(products: map<ProductId, Product>, items: seq<DirectItem>): (r: Result<seq<OrderItem>, OrderError>)
    ensures r.Ok? ==> |r.value| == |items| && forall i | 0 <= i < |items| :: r.value[i] == ToOrderItem(items[i])
    ensures r.Ok? <==> forall i | 0 <= i < |items| :: DirectItemError(products, items[i]).None?
    decreases |items|
  {
    if items == [] then Ok([])
    else
      match ValidateDirect(products, items[..|items| - 1])
      case Err(e) => Err(e)
      case Ok(built) =>
        match DirectItemError(products, items[|items| - 1])
        case Some(e) => Err(e)
        case None => Ok(built + [ToOrderItem(items[|items| - 1])])
  }

  /** Sum of the item totals. */
  function ItemsTotal(items: seq<OrderItem>): int {
    if items == [] then 0 else ItemsTotal(items[..|items| - 1]) + items[|items| - 1].total
  }

  /** Appending one order item adds its line total. */
  lemma ItemsTotalAppend(items: seq<OrderItem>, it: OrderItem)
    ensures ItemsTotal(items + [it]) == ItemsTotal(items) + it.total
  {
    assert (items + [it])[..|items|] == items;
  }

  /** The direct-item loop as the handler runs it, accumulating the order items and `calculatedTotal`. */
  method CheckDirectItems(db: Store, items: seq<DirectItem>) returns (r: Result<(seq<OrderItem>, int), OrderError>)
    ensures r == match ValidateDirect(db.products, items)
                 case Err(e) => Err(e)
                 case Ok(built) => Ok((built, ItemsTotal(built)))
  {
    var built: seq<OrderItem> := [];
    var total := 0;
    var i := 0;
    while i < |items|
      invariant 0 <= i <= |items|
      invariant ValidateDirect(db.products, items[..i]) == Ok(built)
      invariant total == ItemsTotal(built)
    {
      var e := DirectItemError(db.products, items[i]);
      DirectStep(db.products, items, i, built);
      if e.Some? {
        FailedPrefix(db.products, items, i + 1);
        return Err(e.value);
      }
      var it := ToOrderItem(items[i]);
      ItemsTotalAppend(built, it);
      built := built + [it];
      total := total + it.total;
      i := i + 1;
    }
    assert items[..|items|] == items;
    return Ok((built, total));
  }

  /** One more item of the direct loop: the prefix result extended by that item's check. */
  lemma DirectStep(products: map<ProductId, Product>, items: seq<DirectItem>, i: nat, built: seq<OrderItem>)
    requires i < |items| && ValidateDirect(products, items[..i]) == Ok(built)
    ensures DirectItemError(products, items[i]).Some? ==>
              ValidateDirect(products, items[..i + 1]) == Err(DirectItemError(products, items[i]).value)
    ensures DirectItemError(products, items[i]).None? ==>
              ValidateDirect(products, items[..i + 1]) == Ok(built + [ToOrderItem(items[i])])
  {
    assert items[..i + 1][..i] == items[..i];
  }

  /** Once a prefix fails, the whole list fails with the same error. */
  lemma {:induction false} FailedPrefix(products: map<ProductId, Product>, items: seq<DirectItem>, k: nat)
    requires k <= |items| && ValidateDirect(products, items[..k]).Err?
    ensures ValidateDirect(products, items) == ValidateDirect(products, items[..k])
    decreases |items| - k
  {
    if k < |items| {
      assert items[..k + 1][..k] == items[..k];
      FailedPrefix(products, items, k + 1);
    } else {
      assert items[..k] == items;
    }
  }

  // --------------------------------------------------------- cart path

  /** `cartItem.findMany({ where: { userId } })` in storage order. */
  function UserCartItems(items: seq<CartItem>, user: UserId): (r: seq<CartItem>)
    ensures forall i | 0 <= i < |r| :: r[i] in items && r[i].userId == user
    ensures forall c | c in items && c.userId == user :: c in r
  {
    if items == [] then []
    else (if items[0].userId == user then [items[0]] else []) + UserCartItems(items[1..], user)
  }

  /** The other users' cart items, in storage order. */
  function OtherCartItems(items: seq<CartItem>, user: UserId): (r: seq<CartItem>)
    ensures forall i | 0 <= i < |r| :: r[i] in items && r[i].userId != user
    ensures forall c | c in items && c.userId != user :: c in r
  {
    if items == [] then []
    else (if items[0].userId != user then [items[0]] else []) + OtherCartItems(items[1..], user)
  }

  predicate ValidCartItem(c: CartItem) {
    c.productId != "" && c.productId != "unknown"
  }

  /** `cartItems.filter(item => item.productId && item.productId !== "unknown")`. */
  function ValidCartItems(items: seq<CartItem>): (r: seq<CartItem>)
    ensures forall i | 0 <= i < |r| :: r[i] in items && ValidCartItem(r[i])
    ensures forall c | c in items && ValidCartItem(c) :: c in r
    ensures |r| <= |items|
  {
    if items == [] then []
    else (if ValidCartItem(items[0]) then [items[0]] else []) + ValidCartItems(items[1..])
  }

  /** The cart stock test: only items whose product exists are checked; inactive products are too. */
  predicate CartItemShort(products: map<ProductId, Product>, c: CartItem) {
    c.productId in products && products[c.productId].stock < c.quantity
  }

  function FirstShort(products: map<ProductId, Product>, items: seq<CartItem>): (r: Option<nat>)
    ensures r.Some? ==> r.value < |items| && CartItemShort(products, items[r.value])
                        && forall j | 0 <= j < r.value :: !CartItemShort(products, items[j])
    ensures r.None? <==> forall j | 0 <= j < |items| :: !CartItemShort(products, items[j])
  {
    if items == [] then None
    else if CartItemShort(products, items[0]) then Some(0)
    else
      match FirstShort(products, items[1..])
      case None => None
      case Some(k) => Some(k + 1)
  }

  /** Cart-derived order items carry the cart total; their float unit price is not modelled. */
  function CartOrderItem(c: CartItem): OrderItem {
    OrderItem(c.productId, c.quantity, None, c.total)
  }

  /** The cart path: empty cart, no valid product, a short item, or the order items. */
  function CartPlan(products: map<ProductId, Product>, cart: seq<CartItem>, user: UserId): Result<seq<OrderItem>, OrderError> {
    var mine := UserCartItems(cart, user);
    if mine == [] then Err(CartEmpty)
    else
      var valid := ValidCartItems(mine);
      if valid == [] then Err(NoValidProducts)
      else
        match FirstShort(products, valid)
        case Some(k) => Err(CartInsufficientStock(products[valid[k].productId].name))
        case None => Ok(seq(|valid|, i requires 0 <= i < |valid| => CartOrderItem(valid[i])))
  }

  /**
   * What the cart path promises: it needs at least one item with a real product id,
   * and a planned order lists exactly the user's valid items, in cart order, each with
   * enough stock where its product exists.
   */
  lemma CartPlanLaw(products: map<ProductId, Product>, cart: seq<CartItem>, user: UserId)
    ensures UserCartItems(cart, user) == [] ==> CartPlan(products, cart, user) == Err(CartEmpty)
    ensures UserCartItems(cart, user) != [] && ValidCartItems(UserCartItems(cart, user)) == [] ==>
              CartPlan(products, cart, user) == Err(NoValidProducts)
    ensures CartPlan(products, cart, user).Ok? ==>
              var valid := ValidCartItems(UserCartItems(cart, user));
              var items := CartPlan(products, cart, user).value;
              && |items| == |valid| >= 1
              && forall i | 0 <= i < |items| ::
                   && items[i].productId == valid[i].productId && items[i].productId != "" && items[i].productId != "unknown"
                   && items[i].quantity == valid[i].quantity && items[i].total == valid[i].total
                   && valid[i] in cart && valid[i].userId == user
                   && (valid[i].productId in products ==> products[valid[i].productId].stock >= valid[i].quantity)
    ensures var valid := ValidCartItems(UserCartItems(cart, user));
            valid != [] && (forall i | 0 <= i < |valid| :: !CartItemShort(products, valid[i])) ==>
              CartPlan(products, cart, user).Ok?
    ensures var valid := ValidCartItems(UserCartItems(cart, user));
            valid != [] && FirstShort(products, valid).Some? ==>
              var k := FirstShort(products, valid).value;
              CartPlan(products, cart, user) == Err(CartInsufficientStock(products[valid[k].productId].name))
  {
    var valid := ValidCartItems(UserCartItems(cart, user));
    forall i | 0 <= i < |valid|
      ensures valid[i] in cart && valid[i].userId == user
    {
      assert valid[i] in UserCartItems(cart, user);
    }
  }

  /** The cart stock loop as the handler runs it. */
  method FindCartShortfall(db: Store, items: seq<CartItem>) returns (r: Option<nat>)
    ensures r == FirstShort(db.products, items)
  {
    var i := 0;
    while i < |items|
      invariant 0 <= i <= |items|
      invariant forall j | 0 <= j < i :: !CartItemShort(db.products, items[j])
    {
      if CartItemShort(db.products, items[i]) {
        FirstShortIs(db.products, items, i);
        return Some(i);
      }
      i := i + 1;
    }
    return None;
  }

  lemma {:induction false} FirstShortIs(products: map<ProductId, Product>, items: seq<CartItem>, k: nat)
    requires k < |items| && CartItemShort(products, items[k])
    requires forall j | 0 <= j < k :: !CartItemShort(products, items[j])
    ensures FirstShort(products, items) == Some(k)
  {
    if k > 0 {
      FirstShortIs(products, items[1..], k - 1);
    }
  }

  // ------------------------------------------------------------ order

  /** The order items and `calculatedTotal` of either path. */
  function Plan(products: map<ProductId, Product>, cart: seq<CartItem>, user: UserId, f: OrderItemsField)
    : Result<(seq<OrderItem>, int), OrderError>
  {
    if UsesDirectItems(f) then
      match ValidateDirect(products, f.items)
      case Err(e) => Err(e)
      case Ok(items) => Ok((items, ItemsTotal(items)))
    else
      match CartPlan(products, cart, user)
      case Err(e) => Err(e)
      case Ok(items) => Ok((items, ItemsTotal(items)))
  }

  /** `requestTotal || calculatedTotal`: a sent total wins unless it is absent or 0. */
  function FinalTotal(requestTotal: Option<int>, calculated: int): int {
    if requestTotal.Some? && requestTotal.value != 0 then requestTotal.value else calculated
  }

  /** `!orderItems || orderItems.length === 0`: a truthy non-array has no `length` 0. */
  predicate ClearsCart(f: OrderItemsField) {
    f.NoItems? || (f.ItemList? && |f.items| == 0)
  }

  /** The cart is cleared whenever the cart path was taken. */
  predicate ClearsCartCorrected(f: OrderItemsField) {
    !UsesDirectItems(f)
  }

  /**
   * The stock after the decrement loop: each order item takes its quantity off its
   * product; a missing product is skipped (the failed update is only logged).
   */
  function Decremented(products: map<ProductId, Product>, items: seq<OrderItem>): (r: map<ProductId, Product>)
    ensures r.Keys == products.Keys
    decreases |items|
  {
    if items == [] then products
    else
      var before := Decremented(products, items[..|items| - 1]);
      var it := items[|items| - 1];
      if it.productId in before then before[it.productId := before[it.productId].(stock := before[it.productId].stock - it.quantity)]
      else before
  }

  /** Total quantity ordered of product `p`. */
  function QuantityOf(items: seq<OrderItem>, p: ProductId): int {
    if items == [] then 0
    else QuantityOf(items[..|items| - 1], p) + (if items[|items| - 1].productId == p then items[|items| - 1].quantity else 0)
  }

  /** The decrement is cumulative: each product loses the total quantity ordered of it, nothing else changes. */
  lemma {:induction false} DecrementedAt(products: map<ProductId, Product>, items: seq<OrderItem>, p: ProductId)
    requires p in products
    ensures Decremented(products, items)[p] == products[p].(stock := products[p].stock - QuantityOf(items, p))
    decreases |items|
  {
    if items != [] {
      DecrementedAt(products, items[..|items| - 1], p);
    }
  }

  /** The decrement loop as the handler runs it. */
  method DecrementStock(db: Store, items: seq<OrderItem>)
    modifies db`products
    ensures db.products == Decremented(old(db.products), items)
  {
    var start := db.products;
    var i := 0;
    while i < |items|
      invariant 0 <= i <= |items|
      invariant db.products == Decremented(start, items[..i])
    {
      assert items[..i + 1][..i] == items[..i];
      var it := items[i];
      if it.productId in db.products {
        db.products := db.products[it.productId := db.products[it.productId].(stock := db.products[it.productId].stock - it.quantity)];
      }
      i := i + 1;
    }
    assert items[..|items|] == items;
  }

  /** Both checking paths as the handler runs them; nothing is written. */
  method PlanOrder(db: Store, user: UserId, f: OrderItemsField) returns (r: Result<(seq<OrderItem>, int), OrderError>)
    ensures r == Plan(db.products, db.cartItems, user, f)
  {
    if UsesDirectItems(f) {
      var checked := CheckDirectItems(db, f.items);
      return checked;
    }
    var mine := UserCartItems(db.cartItems, user);
    if mine == [] {
      return Err(CartEmpty);
    }
    var valid := ValidCartItems(mine);
    if valid == [] {
      return Err(NoValidProducts);
    }
    var short := FindCartShortfall(db, valid);
    if short.Some? {
      return Err(CartInsufficientStock(db.products[valid[short.value].productId].name));
    }
    var items := seq(|valid|, i requires 0 <= i < |valid| => CartOrderItem(valid[i]));
    return Ok((items, ItemsTotal(items)));
  }

  /**
   * `createOrder`: a missing user is a 404; a failed check creates nothing and changes
   * no stock; otherwise the order is appended, stock is decremented, and the user's
   * cart items are deleted when `orderItems` is absent or an empty array.
   */
  method CreateOrder(db: Store, user: UserId, req: OrderRequest) returns (r: Result<Order, OrderError>)
    modifies db`products, db`orders, db`cartItems
    ensures user !in old(db.users) ==> r == Err(UserNotFound)
    ensures user in old(db.users) && Plan(old(db.products), old(db.cartItems), user, req.orderItems).Err? ==>
              r == Err(Plan(old(db.products), old(db.cartItems), user, req.orderItems).error)
    ensures r.Err? ==> db.products == old(db.products) && db.orders == old(db.orders) && db.cartItems == old(db.cartItems)
    ensures user in old(db.users) && Plan(old(db.products), old(db.cartItems), user, req.orderItems).Ok? ==>
              var (items, calculated) := Plan(old(db.products), old(db.cartItems), user, req.orderItems).value;
              var order := Order(user, FinalTotal(req.total, calculated), req.shippingAddress, req.orderNotes, items);
              && r == Ok(order)
              && db.orders == old(db.orders) + [order]
              && db.products == Decremented(old(db.products), items)
              && db.cartItems == (if ClearsCart(req.orderItems) then OtherCartItems(old(db.cartItems), user) else old(db.cartItems))
  {
    if user !in db.users {
      return Err(UserNotFound);
    }
    var planned := PlanOrder(db, user, req.orderItems);
    if planned.Err? {
      return Err(planned.error);
    }
    var (items, calculated) := planned.value;
    var order := Order(user, FinalTotal(req.total, calculated), req.shippingAddress, req.orderNotes, items);
    db.orders := db.orders + [order];
    DecrementStock(db, items);
    if ClearsCart(req.orderItems) {
      db.cartItems := OtherCartItems(db.cartItems, user);
    }
    return Ok(order);
  }

  /**
   * The cart clearing test as written: it clears exactly for a missing list or `[]`,
   * never on the direct path, and the one cart-path request it misses is a
   * non-array `orderItems`.
   */
  lemma ClearCartLaw(f: OrderItemsField)
    ensures ClearsCart(f) <==> f.NoItems? || f == ItemList([])
    ensures ClearsCart(f) ==> !UsesDirectItems(f)
    ensures !UsesDirectItems(f) && !ClearsCart(f) <==> f == NotAList
  {
  }

  /** A direct order with distinct products never drives a product's stock below zero. */
  lemma DirectDistinctKeepsStock(products: map<ProductId, Product>, items: seq<DirectItem>, p: ProductId)
    requires ValidateDirect(products, items).Ok? && p in products
    requires forall i, j | 0 <= i < j < |items| :: items[i].productId != items[j].productId
    requires products[p].stock >= 0
    ensures Decremented(products, ValidateDirect(products, items).value)[p].stock >= 0
  {
    var ois := ValidateDirect(products, items).value;
    DecrementedAt(products, ois, p);
    QuantityOfDistinct(products, items, ois, p);
  }

  /** With distinct products the quantity ordered of `p` is that of its one item, which passed the stock test. */
  lemma {:induction false} QuantityOfDistinct(products: map<ProductId, Product>, items: seq<DirectItem>, ois: seq<OrderItem>, p: ProductId)
    requires |ois| == |items| && forall i | 0 <= i < |items| :: ois[i] == ToOrderItem(items[i])
    requires forall i | 0 <= i < |items| :: DirectItemError(products, items[i]).None?
    requires forall i, j | 0 <= i < j < |items| :: items[i].productId != items[j].productId
    requires p in products && products[p].stock >= 0
    ensures QuantityOf(ois, p) <= products[p].stock
    decreases |items|
  {
    if items != [] {
      var n := |items| - 1;
      QuantityOfDistinct(products, items[..n], ois[..n], p);
      if items[n].productId == p {
        QuantityOfNone(ois[..n], p);
      }
    }
  }

  lemma {:induction false} QuantityOfNone(ois: seq<OrderItem>, p: ProductId)
    requires forall i | 0 <= i < |ois| :: ois[i].productId != p
    ensures QuantityOf(ois, p) == 0
    decreases |ois|
  {
    if ois != [] {
      QuantityOfNone(ois[..|ois| - 1], p);
    }
  }

  /**
   * The repeated-product oversell: stock 5 and two items of 3 for the same product
   * both pass the check against the stock read first, and the decrement leaves -1.
   */
  lemma DirectRepeatedProductOversells()
    ensures var products := map["p" := Product("p", "Gummies", "", 100, 5, "candy", "G-1", true)];
            var items := [DirectItem("p", 3, 100), DirectItem("p", 3, 100)];
            && ValidateDirect(products, items).Ok?
            && Decremented(products, ValidateDirect(products, items).value)["p"].stock == -1
            && ValidateDirectCumulative(products, items) == Err(InsufficientStock("Gummies", 5, 6))
  {
    var products := map["p" := Product("p", "Gummies", "", 100, 5, "candy", "G-1", true)];
    var items := [DirectItem("p", 3, 100), DirectItem("p", 3, 100)];
    assert items[..1] == [items[0]];
    var ois := ValidateDirect(products, items).value;
    assert ois[..1] == [ois[0]] && ois[..1][..0] == [];
    assert QuantityOf(ois[..1], "p") == 3;
    assert QuantityOf(ois, "p") == 6;
    DecrementedAt(products, ois, "p");
    assert items[..1][..0] == [];
    assert QuantityOfCumulativeCheck(items, 0) == 3;
    assert items[..2] == items;
    assert DirectQuantityOf(items, "p") == 6;
    assert QuantityOfCumulativeCheck(items, 1) == 6;
  }

  /** Total quantity of `p` over the first `k + 1` items: what item `k` must fit into. */
  function QuantityOfCumulativeCheck(items: seq<DirectItem>, k: nat): int
    requires k < |items|
  {
    DirectQuantityOf(items[..k + 1], items[k].productId)
  }

  function DirectQuantityOf(items: seq<DirectItem>, p: ProductId): int {
    if items == [] then 0
    else DirectQuantityOf(items[..|items| - 1], p) + (if items[|items| - 1].productId == p then items[|items| - 1].quantity else 0)
  }

  /** The checks of one item with the stock test against everything ordered of its product so far. */
  function CumulativeItemError(products: map<ProductId, Product>, items: seq<DirectItem>, k: nat): Option<OrderError>
    requires k < |items|
  {
    var it := items[k];
    if it.productId == "" || it.quantity == 0 || it.price == 0 then Some(InvalidItem)
    else if it.productId !in products || !products[it.productId].isActive then Some(ProductNotFound(it.productId))
    else if products[it.productId].stock < QuantityOfCumulativeCheck(items, k) then
      Some(InsufficientStock(products[it.productId].name, products[it.productId].stock, QuantityOfCumulativeCheck(items, k)))
    else None
  }

  /** The direct-item check as intended: repeated products are added up before the stock test. */
  function ValidateDirectCumulative(products: map<ProductId, Product>, items: seq<DirectItem>): (r: Result<seq<OrderItem>, OrderError>)
    ensures r.Ok? ==> |r.value| == |items| && forall i | 0 <= i < |items| :: r.value[i] == ToOrderItem(items[i])
    ensures r.Ok? <==> forall i | 0 <= i < |items| :: CumulativeItemError(products, items, i).None?
    decreases |items|
  {
    if items == [] then Ok([])
    else
      var n := |items| - 1;
      var init := items[..n];
      assert forall i | 0 <= i < n :: CumulativeItemError(products, init, i) == CumulativeItemError(products, items, i) by {
        forall i | 0 <= i < n
          ensures CumulativeItemError(products, init, i) == CumulativeItemError(products, items, i)
        {
          assert init[..i + 1] == items[..i + 1];
        }
      }
      match ValidateDirectCumulative(products, init)
      case Err(e) => Err(e)
      case Ok(built) =>
        match CumulativeItemError(products, items, n)
        case Some(e) => Err(e)
        case None => Ok(built + [ToOrderItem(items[n])])
  }

  /**
   * With the cumulative check, a non-negative stock stays non-negative after the
   * decrement whatever the items repeat.
   */
  lemma DirectCumulativeKeepsStock(products: map<ProductId, Product>, items: seq<DirectItem>, p: ProductId)
    requires ValidateDirectCumulative(products, items).Ok? && p in products && products[p].stock >= 0
    ensures Decremented(products, ValidateDirectCumulative(products, items).value)[p].stock >= 0
  {
    var ois := ValidateDirectCumulative(products, items).value;
    DecrementedAt(products, ois, p);
    QuantityOfMatches(items, ois, p, |items|);
    assert ois[..|items|] == ois && items[..|items|] == items;
    if DirectQuantityOf(items, p) > 0 {
      CumulativeTotalFits(products, items, p);
    }
  }

  /** The last item of `p` was checked against the whole quantity ordered of `p`. */
  lemma CumulativeTotalFits(products: map<ProductId, Product>, items: seq<DirectItem>, p: ProductId)
    requires ValidateDirectCumulative(products, items).Ok? && DirectQuantityOf(items, p) != 0
    ensures p in products && DirectQuantityOf(items, p) <= products[p].stock
  {
    var k := LastOf(items, p);
    TailHasNo(items, p, k);
    assert CumulativeItemError(products, items, k).None?;
  }

  lemma {:induction false} QuantityOfMatches(items: seq<DirectItem>, ois: seq<OrderItem>, p: ProductId, k: nat)
    requires |ois| == |items| && forall i | 0 <= i < |items| :: ois[i] == ToOrderItem(items[i])
    requires k <= |items|
    ensures QuantityOf(ois[..k], p) == DirectQuantityOf(items[..k], p)
  {
    if k > 0 {
      assert ois[..k][..k - 1] == ois[..k - 1];
      assert items[..k][..k - 1] == items[..k - 1];
      QuantityOfMatches(items, ois, p, k - 1);
    }
    if k == |items| {
      assert ois[..k] == ois;
      assert items[..k] == items;
    }
  }

  /** The position of the last item of product `p`, when some quantity of it is ordered. */
  function LastOf(items: seq<DirectItem>, p: ProductId): (k: nat)
    requires DirectQuantityOf(items, p) != 0
    ensures k < |items| && items[k].productId == p
    ensures forall j | k < j < |items| :: items[j].productId != p
  {
    if items[|items| - 1].productId == p then |items| - 1 else LastOf(items[..|items| - 1], p)
  }

  lemma {:induction false} TailHasNo(items: seq<DirectItem>, p: ProductId, k: nat)
    requires k < |items| && forall j | k < j < |items| :: items[j].productId != p
    ensures DirectQuantityOf(items, p) == DirectQuantityOf(items[..k + 1], p)
    decreases |items|
  {
    if |items| - 1 > k {
      assert items[..|items| - 1][..k + 1] == items[..k + 1];
      TailHasNo(items[..|items| - 1], p, k);
    } else {
      assert items[..k + 1] == items;
    }
  }

  /**
   * The cart-clear slip: a truthy `orderItems` that is not an array sends the order
   * down the cart path, but the cart is not cleared afterwards.
   */
  lemma NonArrayItemsKeepCart()
    ensures !UsesDirectItems(NotAList) && !ClearsCart(NotAList) && ClearsCartCorrected(NotAList)
  {
  }
}
