/**
 * The relational tables the controllers read and write, held in memory by one
 * `Store` object: each database query becomes a read of a field, each
 * `create`/`update`/`delete` an assignment to it.
 */
module Tables {
  import opened Wrappers

  type FlavorId = string
  type RecipeId = string
  type UserId = string
  type ProductId = string
  /** Cart lines are numbered by the store in creation order. */
  type LineId = nat

  datatype Flavor = Flavor(id: FlavorId, name: string, aliases: seq<string>, active: bool)

  /** One flavor's stock counters (a `FlavorInventory` row). */
  datatype InventoryRecord = InventoryRecord(onHand: int, reserved: int, safetyStock: int)

  datatype RecipeItem = RecipeItem(flavorId: FlavorId, quantity: int)

  datatype PackRecipe = PackRecipe(id: RecipeId, title: string, kind: string, active: bool, items: seq<RecipeItem>)

  /** A 3-pack cart line; `unitPrice` is in cents. */
  datatype CartLine = CartLine(
    id: LineId, userId: UserId, productId: ProductId, recipeId: RecipeId,
    quantity: int, unitPrice: int, sku: string)

  /** A catalog product; `price` is in cents. */
  datatype Product = Product(
    id: ProductId, name: string, description: string, price: int, stock: int,
    category: string, sku: string, isActive: bool)

  /** A line of the generic (non-3-pack) cart; an empty `productId` is a missing one. */
  datatype CartItem = CartItem(userId: UserId, productId: string, quantity: int, total: int)

  /** `price` is the unit price sent with a direct order item; cart-derived items carry none. */
  datatype OrderItem = OrderItem(productId: ProductId, quantity: int, price: Option<int>, total: int)

  datatype Order = Order(userId: UserId, total: int, shippingAddress: string, orderNotes: string, items: seq<OrderItem>)

  type Inventory = map<FlavorId, InventoryRecord>

  /** `flavor.findUnique({ where: { id } })` over a table in storage order, as a position. */
  function FlavorIndex(flavors: seq<Flavor>, id: FlavorId): (r: Option<nat>)
    ensures r.Some? ==> r.value < |flavors| && flavors[r.value].id == id
    ensures r.None? <==> forall i | 0 <= i < |flavors| :: flavors[i].id != id
  {
    if flavors == [] then None
    else if flavors[0].id == id then Some(0)
    else
      match FlavorIndex(flavors[1..], id)
      case None => None
      case Some(k) => Some(k + 1)
  }

  /** The flavor row `FlavorIndex` finds. */
  function FindFlavor(flavors: seq<Flavor>, id: FlavorId): (r: Option<Flavor>)
    ensures r.Some? ==> r.value in flavors && r.value.id == id
    ensures r.None? ==> forall i | 0 <= i < |flavors| :: flavors[i].id != id
  {
    match FlavorIndex(flavors, id)
    case None => None
    case Some(i) => Some(flavors[i])
  }

  /** The flavor name a recipe item joins to; an absent flavor has the empty name. */
  function FlavorName(flavors: seq<Flavor>, id: FlavorId): string {
    match FindFlavor(flavors, id)
    case Some(f) => f.name
    case None => ""
  }

  /** `packRecipe.findUnique({ where: { id } })`. */
  function FindRecipe(recipes: seq<PackRecipe>, id: RecipeId): (r: Option<PackRecipe>)
    ensures r.Some? ==> r.value in recipes && r.value.id == id
    ensures r.None? ==> forall i | 0 <= i < |recipes| :: recipes[i].id != id
  {
    if recipes == [] then None
    else if recipes[0].id == id then Some(recipes[0])
    else FindRecipe(recipes[1..], id)
  }

  predicate FlavorIdsUnique(flavors: seq<Flavor>) {
    forall i, j | 0 <= i < j < |flavors| :: flavors[i].id != flavors[j].id
  }

  /** Flavor names are a unique key of the flavor table. */
  predicate FlavorNamesUnique(flavors: seq<Flavor>) {
    forall i, j | 0 <= i < j < |flavors| :: flavors[i].name != flavors[j].name
  }

  predicate LineIdsUnique(lines: seq<CartLine>) {
    forall i, j | 0 <= i < j < |lines| :: lines[i].id != lines[j].id
  }

  predicate LineIdsBelow(lines: seq<CartLine>, next: nat) {
    forall i | 0 <= i < |lines| :: lines[i].id < next
  }

  predicate LinesPositive(lines: seq<CartLine>) {
    forall i | 0 <= i < |lines| :: lines[i].quantity >= 1
  }

  /** Every flavor of the recipe has an inventory row. */
  predicate Stocked(items: seq<RecipeItem>, inv: Inventory) {
    forall k | 0 <= k < |items| :: items[k].flavorId in inv
  }

  /** Every cart line points at an existing recipe whose flavors all have inventory rows. */
  predicate LinesBacked(lines: seq<CartLine>, recipes: seq<PackRecipe>, inv: Inventory) {
    forall i | 0 <= i < |lines| ::
      FindRecipe(recipes, lines[i].recipeId).Some? && Stocked(FindRecipe(recipes, lines[i].recipeId).value.items, inv)
  }

  /** At most one cart line per (user, product, recipe). */
  predicate NoDuplicateLines(lines: seq<CartLine>) {
    forall i, j | 0 <= i < j < |lines| ::
      !(lines[i].userId == lines[j].userId && lines[i].productId == lines[j].productId && lines[i].recipeId == lines[j].recipeId)
  }

  class Store {
    var users: set<UserId>
    var flavors: seq<Flavor>
    var inventory: Inventory
    var recipes: seq<PackRecipe>
    var cartLines: seq<CartLine>
    var nextLineId: nat
    var products: map<ProductId, Product>
    /** `ProductFlavor` rows keyed by their composite unique key (productId, flavorId), valued by quantity. */
    var productFlavors: map<(ProductId, FlavorId), int>
    var cartItems: seq<CartItem>
    var orders: seq<Order>

    /**
     * The store's referential facts: key uniqueness, and that a cart line's recipe and
     * the inventory rows of its flavors exist (add checks this; nothing deletes either).
     */
    ghost predicate Valid()
      reads this
    {
      && FlavorIdsUnique(flavors)
      && FlavorNamesUnique(flavors)
      && LineIdsUnique(cartLines)
      && LineIdsBelow(cartLines, nextLineId)
      && LinesPositive(cartLines)
      && LinesBacked(cartLines, recipes, inventory)
    }

    constructor (users: set<UserId>, flavors: seq<Flavor>, inventory: Inventory, recipes: seq<PackRecipe>,
                 products: map<ProductId, Product>)
      requires FlavorIdsUnique(flavors) && FlavorNamesUnique(flavors)
      ensures Valid()
      ensures this.users == users && this.flavors == flavors && this.inventory == inventory
      ensures this.recipes == recipes && this.products == products
      ensures cartLines == [] && nextLineId == 0 && productFlavors == map[] && cartItems == [] && orders == []
    {
      this.users := users;
      this.flavors := flavors;
      this.inventory := inventory;
      this.recipes := recipes;
      this.products := products;
      cartLines := [];
      nextLineId := 0;
      productFlavors := map[];
      cartItems := [];
      orders := [];
    }
  }
}
