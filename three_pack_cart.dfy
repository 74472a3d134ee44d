/**
 * The 3-pack cart: adding a recipe, changing a line's quantity, removing a line,
 * clearing the cart, and the cart view. Every handler validates before it writes;
 * its inventory writes go through `Ledger.Written`, which reads the rows as they
 * were when the request started.
 */
module ThreePackCart {
  import opened Wrappers
  import opened Text
  import opened Sku
  import opened Tables
  import opened Ledger

  /** The only product id the 3-pack cart accepts. */
  const ThreePackId: ProductId := "3-pack"
  /** A pack holds exactly this many pieces. */
  const PackSize: int := 3
  /** The fixed unit price, 27.00, in cents. */
  const UnitPriceCents: int := 2700

  /** The add body; an empty string or `None` is an absent field, an integer `qty` a parsed one. */
  datatype AddRequest = AddRequest(productId: string, recipeId: string, qty: Option<int>)

  datatype CartError =
    | MissingFields
    | NotThreePack
    | InvalidQuantity
    | RecipeNotFound
    | RecipeInactive
    | InvalidComposition(total: int)
    | NoInventory(flavorName: string)
    | InsufficientStock(flavorName: string, available: int, required: int)
    | LineNotFound
      /** A `TypeError` on a missing row, answered by the catch-all. */
    | Internal

  /** The HTTP status each error is answered with. */
  function Status(e: CartError): int {
    match e
    case RecipeNotFound => 404
    case LineNotFound => 404
    case Internal => 500
    case _ => 400
  }

  /** `items.reduce((sum, item) => sum + item.quantity, 0)`. */
  function RecipeTotal(items: seq<RecipeItem>): int {
    if items == [] then 0 else RecipeTotal(items[..|items| - 1]) + items[|items| - 1].quantity
  }

  /** An item the stock loop stops at: no inventory row, or too little sellable stock for `n` packs. */
  predicate Problem(item: RecipeItem, inv: Inventory, n: int) {
    item.flavorId !in inv || !Fits(inv[item.flavorId], item.quantity * n)
  }

  /** Position of the first item, in recipe order, the stock loop stops at. */
  function FirstProblem(items: seq<RecipeItem>, inv: Inventory, n: int): (r: Option<nat>)
    ensures r.Some? ==> r.value < |items| && Problem(items[r.value], inv, n)
                        && forall j | 0 <= j < r.value :: !Problem(items[j], inv, n)
    ensures r.None? <==> forall j | 0 <= j < |items| :: !Problem(items[j], inv, n)
  {
    if items == [] then None
    else if Problem(items[0], inv, n) then Some(0)
    else
      match FirstProblem(items[1..], inv, n)
      case None => None
      case Some(k) => Some(k + 1)
  }

  /** The message of the add loop: no row, or the sellable figure against the requirement. */
  function AddStockError(flavors: seq<Flavor>, inv: Inventory, item: RecipeItem, n: int): CartError {
    if item.flavorId !in inv then NoInventory(FlavorName(flavors, item.flavorId))
    else InsufficientStock(FlavorName(flavors, item.flavorId), AvailableAfterSafety(inv[item.flavorId]), item.quantity * n)
  }

  function SkuItems(flavors: seq<Flavor>, items: seq<RecipeItem>): seq<SkuItem> {
    seq(|items|, i requires 0 <= i < |items| => SkuItem(FlavorName(flavors, items[i].flavorId), items[i].quantity))
  }

  /** The SKU a new cart line of this recipe is given. */
  function RecipeSku(flavors: seq<Flavor>, recipe: PackRecipe): string {
    GenerateSku(recipe.kind, SkuItems(flavors, recipe.items))
  }

  /**
   * The add checks in the handler's order; on success the recipe and the parsed
   * quantity. `qty` 0 is falsy and so reported as a missing field.
   */
  function ValidateAdd(recipes: seq<PackRecipe>, flavors: seq<Flavor>, inv: Inventory, req: AddRequest)
    : Result<(PackRecipe, int), CartError>
  {
    if req.productId == "" || req.recipeId == "" || req.qty == None || req.qty == Some(0) then Err(MissingFields)
    else if req.productId != ThreePackId then Err(NotThreePack)
    else if req.qty.value <= 0 then Err(InvalidQuantity)
    else
      match FindRecipe(recipes, req.recipeId)
      case None => Err(RecipeNotFound)
      case Some(recipe) =>
        if !recipe.active then Err(RecipeInactive)
        else if RecipeTotal(recipe.items) != PackSize then Err(InvalidComposition(RecipeTotal(recipe.items)))
        else
          match FirstProblem(recipe.items, inv, req.qty.value)
          case Some(k) => Err(AddStockError(flavors, inv, recipe.items[k], req.qty.value))
          case None => Ok((recipe, req.qty.value))
  }

  /** `cartLine.findFirst({ where: { userId, productId, recipeId } })`, as a position. */
  function FindLine(lines: seq<CartLine>, user: UserId, product: ProductId, recipe: RecipeId): (r: Option<nat>)
    ensures r.Some? ==> r.value < |lines| && lines[r.value].userId == user
                        && lines[r.value].productId == product && lines[r.value].recipeId == recipe
    ensures r.None? <==> forall i | 0 <= i < |lines| ::
                           !(lines[i].userId == user && lines[i].productId == product && lines[i].recipeId == recipe)
  {
    if lines == [] then None
    else if lines[0].userId == user && lines[0].productId == product && lines[0].recipeId == recipe then Some(0)
    else
      match FindLine(lines[1..], user, product, recipe)
      case None => None
      case Some(k) => Some(k + 1)
  }

  /**
   * The cart after a successful add, the next free line id, and the line returned:
   * the existing line's quantity grows by `n` (its SKU kept), or a new line is appended.
   */
  function AddLine(lines: seq<CartLine>, next: nat, user: UserId, recipe: PackRecipe, n: int, sku: string)
    : (seq<CartLine>, nat, CartLine)
  {
    match FindLine(lines, user, ThreePackId, recipe.id)
    case Some(i) =>
      var l := lines[i].(quantity := lines[i].quantity + n, unitPrice := UnitPriceCents);
      (lines[i := l], next, l)
    case None =>
      var l := CartLine(next, user, ThreePackId, recipe.id, n, UnitPriceCents, sku);
      (lines + [l], next + 1, l)
  }

  /** Same flavors in both tables: what `Targets` and `Stocked` look at. */
  lemma StockedSameKeys(items: seq<RecipeItem>, inv: Inventory, inv2: Inventory)
    requires Stocked(items, inv) && inv.Keys == inv2.Keys
    ensures Stocked(items, inv2)
  {
  }

  /** `ItemWrites` targets rows that the items' recipe has. */
  lemma StockedTargets(items: seq<RecipeItem>, inv: Inventory, n: int)
    requires Stocked(items, inv)
    ensures Targets(ItemWrites(items, n), inv)
  {
    ItemWritesTargets(items, n, inv);
  }

  /**
   * The stock loop of add and update: the position of the first item that stops it,
   * read from the current inventory; nothing is written.
   */
  method FindProblem(db: Store, items: seq<RecipeItem>, n: int) returns (r: Option<nat>)
    ensures r == FirstProblem(items, db.inventory, n)
  {
    var i := 0;
    while i < |items|
      invariant 0 <= i <= |items|
      invariant forall j | 0 <= j < i :: !Problem(items[j], db.inventory, n)
    {
      if Problem(items[i], db.inventory, n) {
        FirstProblemIs(items, db.inventory, n, i);
        return Some(i);
      }
      i := i + 1;
    }
    return None;
  }

  lemma {:induction false} FirstProblemIs(items: seq<RecipeItem>, inv: Inventory, n: int, k: nat)
    requires k < |items| && Problem(items[k], inv, n)
    requires forall j | 0 <= j < k :: !Problem(items[j], inv, n)
    ensures FirstProblem(items, inv, n) == Some(k)
  {
    if k > 0 {
      FirstProblemIs(items[1..], inv, n, k - 1);
    }
  }

  /**
   * The per-row write loop: each write sets the row's `reserved` from the value the
   * row had when the loop started.
   */
  method WriteRows(db: Store, ws: seq<Write>, mode: Mode)
    requires Targets(ws, db.inventory)
    modifies db`inventory
    ensures db.inventory == Written(old(db.inventory), ws, mode)
  {
    var snap := db.inventory;
    var i := 0;
    while i < |ws|
      invariant 0 <= i <= |ws|
      invariant Targets(ws[..i], snap)
      invariant db.inventory == Written(snap, ws[..i], mode)
    {
      var w := ws[i];
      db.inventory := db.inventory[w.flavor := snap[w.flavor].(reserved := NewReserved(mode, snap[w.flavor].reserved, w.amount))];
      assert ws[..i + 1][..i] == ws[..i];
      i := i + 1;
    }
    assert ws[..|ws|] == ws;
  }

  /** The intended write loop: each write reads the row's current `reserved`. */
  method AccumulateRows(db: Store, ws: seq<Write>, mode: Mode)
    requires Targets(ws, db.inventory)
    modifies db`inventory
    ensures db.inventory == Accumulated(old(db.inventory), ws, mode)
  {
    var start := db.inventory;
    var i := 0;
    while i < |ws|
      invariant 0 <= i <= |ws|
      invariant Targets(ws[..i], start)
      invariant db.inventory == Accumulated(start, ws[..i], mode)
    {
      var w := ws[i];
      db.inventory := db.inventory[w.flavor := db.inventory[w.flavor].(reserved := NewReserved(mode, db.inventory[w.flavor].reserved, w.amount))];
      assert ws[..i + 1][..i] == ws[..i];
      i := i + 1;
    }
    assert ws[..|ws|] == ws;
  }

  /** A store update that keeps the inventory keys keeps the lines backed. */
  lemma BackedSameKeys(lines: seq<CartLine>, recipes: seq<PackRecipe>, inv: Inventory, inv2: Inventory)
    requires LinesBacked(lines, recipes, inv) && inv.Keys == inv2.Keys
    ensures LinesBacked(lines, recipes, inv2)
  {
    forall i | 0 <= i < |lines|
      ensures FindRecipe(recipes, lines[i].recipeId).Some? && Stocked(FindRecipe(recipes, lines[i].recipeId).value.items, inv2)
    {
      StockedSameKeys(FindRecipe(recipes, lines[i].recipeId).value.items, inv, inv2);
    }
  }

  /** The read-only part of `addToCart`: the field checks, the recipe lookup and the stock loop. */
  method CheckAdd(db: Store, req: AddRequest) returns (v: Result<(PackRecipe, int), CartError>)
    requires db.Valid()
    ensures v == ValidateAdd(db.recipes, db.flavors, db.inventory, req)
  {
    if req.productId == "" || req.recipeId == "" || req.qty == None || req.qty == Some(0) {
      return Err(MissingFields);
    }
    if req.productId != ThreePackId {
      return Err(NotThreePack);
    }
    var n := req.qty.value;
    if n <= 0 {
      return Err(InvalidQuantity);
    }
    var found := FindRecipe(db.recipes, req.recipeId);
    if found.None? {
      return Err(RecipeNotFound);
    }
    var recipe := found.value;
    if !recipe.active {
      return Err(RecipeInactive);
    }
    var total := RecipeTotal(recipe.items);
    if total != PackSize {
      return Err(InvalidComposition(total));
    }
    var problem := FindProblem(db, recipe.items, n);
    if problem.Some? {
      return Err(AddStockError(db.flavors, db.inventory, recipe.items[problem.value], n));
    }
    return Ok((recipe, n));
  }

  /**
   * `addToCart`: validate, then merge or create the line, then reserve
   * `item.quantity * qty` per recipe item. On any error nothing is written.
   */
  method AddToCart(db: Store, user: UserId, req: AddRequest) returns (r: Result<CartLine, CartError>)
    requires db.Valid()
    modifies db`inventory, db`cartLines, db`nextLineId
    ensures db.Valid()
    ensures var v := ValidateAdd(old(db.recipes), old(db.flavors), old(db.inventory), req);
            v.Err? ==>
              && r == Err(v.error)
              && db.inventory == old(db.inventory) && db.cartLines == old(db.cartLines) && db.nextLineId == old(db.nextLineId)
    ensures var v := ValidateAdd(old(db.recipes), old(db.flavors), old(db.inventory), req);
            v.Ok? ==>
              var (recipe, n) := v.value;
              var (lines, next, line) := AddLine(old(db.cartLines), old(db.nextLineId), user, recipe, n, RecipeSku(old(db.flavors), recipe));
              && r == Ok(line)
              && db.cartLines == lines && db.nextLineId == next
              && db.inventory == Written(old(db.inventory), ItemWrites(recipe.items, n), Reserve)
  {
    var v := CheckAdd(db, req);
    if v.Err? {
      return Err(v.error);
    }
    var (recipe, n) := v.value;
    r := ReserveLine(db, user, recipe, n);
  }

  /** The writing part of `addToCart` once the checks have passed: the line, then the reservations. */
  method ReserveLine(db: Store, user: UserId, recipe: PackRecipe, n: int) returns (r: Result<CartLine, CartError>)
    requires db.Valid() && n >= 1
    requires FindRecipe(db.recipes, recipe.id) == Some(recipe) && Stocked(recipe.items, db.inventory)
    modifies db`inventory, db`cartLines, db`nextLineId
    ensures db.Valid()
    ensures var (lines, next, line) := AddLine(old(db.cartLines), old(db.nextLineId), user, recipe, n, RecipeSku(old(db.flavors), recipe));
            && r == Ok(line)
            && db.cartLines == lines && db.nextLineId == next
            && db.inventory == Written(old(db.inventory), ItemWrites(recipe.items, n), Reserve)
  {
    var sku := RecipeSku(db.flavors, recipe);
    AddLineKeepsValid(db.cartLines, db.nextLineId, user, recipe, n, sku, db.recipes, db.inventory);
    var (lines, next, line) := AddLine(db.cartLines, db.nextLineId, user, recipe, n, sku);
    db.cartLines, db.nextLineId := lines, next;
    StockedTargets(recipe.items, db.inventory, n);
    var before := db.inventory;
    WriteRows(db, ItemWrites(recipe.items, n), Reserve);
    BackedSameKeys(db.cartLines, db.recipes, before, db.inventory);
    return Ok(line);
  }

  /** Merging or appending a line keeps the store's line facts. */
  lemma AddLineKeepsValid(lines: seq<CartLine>, next: nat, user: UserId, recipe: PackRecipe, n: int, sku: string,
                          recipes: seq<PackRecipe>, inv: Inventory)
    requires LineIdsUnique(lines) && LineIdsBelow(lines, next) && LinesPositive(lines) && LinesBacked(lines, recipes, inv)
    requires n >= 1 && FindRecipe(recipes, recipe.id) == Some(recipe) && Stocked(recipe.items, inv)
    ensures var (lines2, next2, _) := AddLine(lines, next, user, recipe, n, sku);
            LineIdsUnique(lines2) && LineIdsBelow(lines2, next2) && LinesPositive(lines2) && LinesBacked(lines2, recipes, inv)
  {
  }

  /** `cartLine.findFirst({ where: { id, userId } })`, as a position. */
  function FindOwnLine(lines: seq<CartLine>, id: LineId, user: UserId): (r: Option<nat>)
    ensures r.Some? ==> r.value < |lines| && lines[r.value].id == id && lines[r.value].userId == user
    ensures r.None? <==> forall i | 0 <= i < |lines| :: !(lines[i].id == id && lines[i].userId == user)
  {
    if lines == [] then None
    else if lines[0].id == id && lines[0].userId == user then Some(0)
    else
      match FindOwnLine(lines[1..], id, user)
      case None => None
      case Some(k) => Some(k + 1)
  }

  /**
   * The row writes of a quantity change: reserve `item.quantity * delta` when the line
   * grows, release `item.quantity * |delta|` when it shrinks, nothing when it stays.
   */
  function ChangeWrites(items: seq<RecipeItem>, delta: int): (seq<Write>, Mode) {
    if delta > 0 then (ItemWrites(items, delta), Reserve)
    else if delta < 0 then (ItemWrites(items, -delta), Release)
    else ([], Reserve)
  }

  /** The stock error of the update loop: a missing row is a `TypeError`. */
  function UpdateStockError(flavors: seq<Flavor>, inv: Inventory, item: RecipeItem, delta: int): CartError {
    if item.flavorId !in inv then Internal
    else InsufficientStock(FlavorName(flavors, item.flavorId), AvailableAfterSafety(inv[item.flavorId]), item.quantity * delta)
  }

  /**
   * The checks of `updateCartLine`; on success the line's position, its recipe and the
   * new quantity. `qty` 0 is falsy and so rejected like a negative one.
   */
  function ValidateUpdate(lines: seq<CartLine>, recipes: seq<PackRecipe>, flavors: seq<Flavor>, inv: Inventory,
                          user: UserId, id: LineId, qty: Option<int>)
    : (r: Result<(nat, PackRecipe, int), CartError>)
    ensures r.Ok? ==>
              && r.value.0 < |lines| && lines[r.value.0].id == id && lines[r.value.0].userId == user
              && FindRecipe(recipes, lines[r.value.0].recipeId) == Some(r.value.1)
              && qty.Some? && r.value.2 == qty.value && r.value.2 >= 1
  {
    if qty.None? || qty.value <= 0 then Err(InvalidQuantity)
    else
      match FindOwnLine(lines, id, user)
      case None => Err(LineNotFound)
      case Some(i) =>
        match FindRecipe(recipes, lines[i].recipeId)
        case None => Err(Internal)
        case Some(recipe) =>
          var delta := qty.value - lines[i].quantity;
          if delta > 0 then
            match FirstProblem(recipe.items, inv, delta)
            case Some(k) => Err(UpdateStockError(flavors, inv, recipe.items[k], delta))
            case None => Ok((i, recipe, qty.value))
          else if delta < 0 && !Stocked(recipe.items, inv) then Err(Internal)
          else Ok((i, recipe, qty.value))
  }

  /**
   * The read-only part of `updateCartLine`: the quantity check, the owner lookup and,
   * for an increase only, the stock loop over the current rows.
   */
  method CheckUpdate(db: Store, user: UserId, id: LineId, qty: Option<int>) returns (v: Result<(nat, PackRecipe, int), CartError>)
    requires db.Valid()
    ensures v == ValidateUpdate(db.cartLines, db.recipes, db.flavors, db.inventory, user, id, qty)
  {
    if qty.None? || qty.value <= 0 {
      return Err(InvalidQuantity);
    }
    var at := FindOwnLine(db.cartLines, id, user);
    if at.None? {
      return Err(LineNotFound);
    }
    var i := at.value;
    var found := FindRecipe(db.recipes, db.cartLines[i].recipeId);
    assert found.Some?;
    var recipe := found.value;
    assert Stocked(recipe.items, db.inventory);
    var delta := qty.value - db.cartLines[i].quantity;
    if delta > 0 {
      var problem := FindProblem(db, recipe.items, delta);
      if problem.Some? {
        return Err(UpdateStockError(db.flavors, db.inventory, recipe.items[problem.value], delta));
      }
    }
    return Ok((i, recipe, qty.value));
  }

  /**
   * `updateCartLine`: check the quantity and the owner, check stock for the increase
   * only, write the difference, then set the line's quantity.
   */
  method UpdateCartLine(db: Store, user: UserId, id: LineId, qty: Option<int>) returns (r: Result<CartLine, CartError>)
    requires db.Valid()
    modifies db`inventory, db`cartLines
    ensures db.Valid()
    ensures var v := ValidateUpdate(old(db.cartLines), old(db.recipes), old(db.flavors), old(db.inventory), user, id, qty);
            v.Err? ==> r == Err(v.error) && db.inventory == old(db.inventory) && db.cartLines == old(db.cartLines)
    ensures var v := ValidateUpdate(old(db.cartLines), old(db.recipes), old(db.flavors), old(db.inventory), user, id, qty);
            v.Ok? ==>
              var (i, recipe, newQty) := v.value;
              var (ws, mode) := ChangeWrites(recipe.items, newQty - old(db.cartLines)[i].quantity);
              && r == Ok(old(db.cartLines)[i].(quantity := newQty))
              && r.value.id == id && r.value.userId == user && qty == Some(r.value.quantity)
              && db.cartLines == old(db.cartLines)[i := old(db.cartLines)[i].(quantity := newQty)]
              && db.inventory == Written(old(db.inventory), ws, mode)
  {
    var v := CheckUpdate(db, user, id, qty);
    if v.Err? {
      return Err(v.error);
    }
    var (i, recipe, newQty) := v.value;
    var line := db.cartLines[i];
    assert FindRecipe(db.recipes, line.recipeId) == Some(recipe);
    var delta := newQty - line.quantity;
    var (ws, mode) := ChangeWrites(recipe.items, delta);
    StockedTargets(recipe.items, db.inventory, if delta > 0 then delta else -delta);
    var before := db.inventory;
    WriteRows(db, ws, mode);
    BackedSameKeys(db.cartLines, db.recipes, before, db.inventory);
    line := line.(quantity := newQty);
    db.cartLines := db.cartLines[i := line];
    return Ok(line);
  }

  /** The checks of `removeCartLine`; on success the line's position and its recipe. */
  function ValidateRemove(lines: seq<CartLine>, recipes: seq<PackRecipe>, inv: Inventory, user: UserId, id: LineId)
    : (r: Result<(nat, PackRecipe), CartError>)
    ensures r.Ok? ==>
              && r.value.0 < |lines| && lines[r.value.0].id == id && lines[r.value.0].userId == user
              && FindRecipe(recipes, lines[r.value.0].recipeId) == Some(r.value.1)
              && Stocked(r.value.1.items, inv)
  {
    match FindOwnLine(lines, id, user)
    case None => Err(LineNotFound)
    case Some(i) =>
      match FindRecipe(recipes, lines[i].recipeId)
      case None => Err(Internal)
      case Some(recipe) =>
        if !Stocked(recipe.items, inv) then Err(Internal) else Ok((i, recipe))
  }

  /** The cart without its `i`-th line. */
  function RemoveAt(lines: seq<CartLine>, i: nat): (r: seq<CartLine>)
    requires i < |lines|
    ensures |r| == |lines| - 1
    ensures forall j | 0 <= j < |r| :: r[j] == lines[if j < i then j else j + 1]
  {
    lines[..i] + lines[i + 1..]
  }

  /**
   * `removeCartLine`: release `item.quantity * line.quantity` per recipe item, clamped
   * at zero, and delete the line.
   */
  method RemoveCartLine(db: Store, user: UserId, id: LineId) returns (r: Result<(), CartError>)
    requires db.Valid()
    modifies db`inventory, db`cartLines
    ensures db.Valid()
    ensures var v := ValidateRemove(old(db.cartLines), old(db.recipes), old(db.inventory), user, id);
            v.Err? ==> r == Err(v.error) && db.inventory == old(db.inventory) && db.cartLines == old(db.cartLines)
    ensures var v := ValidateRemove(old(db.cartLines), old(db.recipes), old(db.inventory), user, id);
            v.Ok? ==>
              && r == Ok(())
              && db.cartLines == RemoveAt(old(db.cartLines), v.value.0)
              && db.inventory == Written(old(db.inventory), ItemWrites(v.value.1.items, old(db.cartLines)[v.value.0].quantity), Release)
  {
    var at := FindOwnLine(db.cartLines, id, user);
    if at.None? {
      return Err(LineNotFound);
    }
    var i := at.value;
    var found := FindRecipe(db.recipes, db.cartLines[i].recipeId);
    assert found.Some?;
    var recipe := found.value;
    assert Stocked(recipe.items, db.inventory);
    StockedTargets(recipe.items, db.inventory, db.cartLines[i].quantity);
    var before := db.inventory;
    WriteRows(db, ItemWrites(recipe.items, db.cartLines[i].quantity), Release);
    BackedSameKeys(db.cartLines, db.recipes, before, db.inventory);
    db.cartLines := RemoveAt(db.cartLines, i);
    return Ok(());
  }

  /** The user's lines, in storage order. */
  function UserLines(lines: seq<CartLine>, user: UserId): (r: seq<CartLine>)
    ensures forall i | 0 <= i < |r| :: r[i] in lines && r[i].userId == user
    ensures forall l | l in lines && l.userId == user :: l in r
    ensures |r| <= |lines|
  {
    if lines == [] then []
    else (if lines[0].userId == user then [lines[0]] else []) + UserLines(lines[1..], user)
  }

  /** The other users' lines, in storage order. */
  function OtherLines(lines: seq<CartLine>, user: UserId): (r: seq<CartLine>)
    ensures forall i | 0 <= i < |r| :: r[i] in lines && r[i].userId != user
    ensures forall l | l in lines && l.userId != user :: l in r
  {
    if lines == [] then []
    else (if lines[0].userId != user then [lines[0]] else []) + OtherLines(lines[1..], user)
  }

  /** The release writes of the clear loops, line by line and item by item. */
  function ClearWrites(lines: seq<CartLine>, recipes: seq<PackRecipe>): seq<Write> {
    if lines == [] then []
    else
      var items := match FindRecipe(recipes, lines[0].recipeId) case Some(rc) => rc.items case None => [];
      ItemWrites(items, lines[0].quantity) + ClearWrites(lines[1..], recipes)
  }

  lemma {:induction false} ClearWritesTargets(lines: seq<CartLine>, recipes: seq<PackRecipe>, inv: Inventory)
    requires LinesBacked(lines, recipes, inv)
    ensures Targets(ClearWrites(lines, recipes), inv)
  {
    if lines != [] {
      assert LinesBacked(lines[1..], recipes, inv) by {
        forall i | 0 <= i < |lines| - 1
          ensures FindRecipe(recipes, lines[1..][i].recipeId).Some?
        {
          assert lines[1..][i] == lines[i + 1];
        }
      }
      ClearWritesTargets(lines[1..], recipes, inv);
      var items := FindRecipe(recipes, lines[0].recipeId).value.items;
      ItemWritesTargets(items, lines[0].quantity, inv);
    }
  }

  lemma {:induction false} UserLinesBacked(lines: seq<CartLine>, recipes: seq<PackRecipe>, inv: Inventory, user: UserId)
    requires LinesBacked(lines, recipes, inv)
    ensures LinesBacked(UserLines(lines, user), recipes, inv) && LinesBacked(OtherLines(lines, user), recipes, inv)
  {
  }

  /**
   * `clearCart`: release every item of every line of the user, each write computed
   * from the rows loaded once at the start, then delete the user's lines.
   */
  method ClearCart(db: Store, user: UserId)
    requires db.Valid()
    modifies db`inventory, db`cartLines
    ensures db.Valid()
    ensures db.cartLines == OtherLines(old(db.cartLines), user)
    ensures Targets(ClearWrites(UserLines(old(db.cartLines), user), db.recipes), old(db.inventory))
    ensures db.inventory == Written(old(db.inventory), ClearWrites(UserLines(old(db.cartLines), user), db.recipes), Release)
  {
    var mine := UserLines(db.cartLines, user);
    UserLinesBacked(db.cartLines, db.recipes, db.inventory, user);
    ClearWritesTargets(mine, db.recipes, db.inventory);
    var before := db.inventory;
    WriteRows(db, ClearWrites(mine, db.recipes), Release);
    db.cartLines := OtherLines(db.cartLines, user);
    BackedSameKeys(db.cartLines, db.recipes, before, db.inventory);
    OtherLinesValid(old(db.cartLines), user, old(db.nextLineId));
  }

  /** Clearing as intended: each release reads the row's current `reserved`, so releases add up. */
  method ClearCartCorrected(db: Store, user: UserId)
    requires db.Valid()
    modifies db`inventory, db`cartLines
    ensures db.Valid()
    ensures db.cartLines == OtherLines(old(db.cartLines), user)
    ensures Targets(ClearWrites(UserLines(old(db.cartLines), user), db.recipes), old(db.inventory))
    ensures db.inventory == Accumulated(old(db.inventory), ClearWrites(UserLines(old(db.cartLines), user), db.recipes), Release)
  {
    var mine := UserLines(db.cartLines, user);
    UserLinesBacked(db.cartLines, db.recipes, db.inventory, user);
    ClearWritesTargets(mine, db.recipes, db.inventory);
    var before := db.inventory;
    AccumulateRows(db, ClearWrites(mine, db.recipes), Release);
    db.cartLines := OtherLines(db.cartLines, user);
    BackedSameKeys(db.cartLines, db.recipes, before, db.inventory);
    OtherLinesValid(old(db.cartLines), user, old(db.nextLineId));
  }

  /** Keeping a subsequence of the lines keeps ids unique, below the counter, and positive. */
  lemma {:induction false} OtherLinesValid(lines: seq<CartLine>, user: UserId, next: nat)
    requires LineIdsUnique(lines) && LineIdsBelow(lines, next) && LinesPositive(lines)
    ensures LineIdsUnique(OtherLines(lines, user)) && LineIdsBelow(OtherLines(lines, user), next)
    ensures LinesPositive(OtherLines(lines, user))
  {
    if lines != [] {
      OtherLinesValid(lines[1..], user, next);
      var rest := OtherLines(lines[1..], user);
      forall i | 0 <= i < |rest|
        ensures rest[i].id != lines[0].id
      {
        var j :| 0 <= j < |lines[1..]| && lines[1..][j] == rest[i];
        assert lines[j + 1] == rest[i];
      }
    }
  }

  datatype ViewItem = ViewItem(flavorId: FlavorId, flavorName: string, quantity: int)

  /** One line of the cart view; `total` is `quantity * unitPrice`, in cents. */
  datatype LineView = LineView(
    id: LineId, productId: ProductId, recipeId: RecipeId, recipeTitle: string, recipeKind: string,
    quantity: int, unitPrice: int, total: int, sku: string, items: seq<ViewItem>)

  /** The body of `getUserCart`. */
  datatype CartView = CartView(cart: seq<LineView>, totalItems: int, cartTotal: int)

  function ViewItems(flavors: seq<Flavor>, items: seq<RecipeItem>): seq<ViewItem> {
    seq(|items|, i requires 0 <= i < |items| => ViewItem(items[i].flavorId, FlavorName(flavors, items[i].flavorId), items[i].quantity))
  }

  /** A line joined to its recipe; `None` when the recipe is gone (a `TypeError`). */
  function ViewLine(recipes: seq<PackRecipe>, flavors: seq<Flavor>, line: CartLine): Option<LineView> {
    match FindRecipe(recipes, line.recipeId)
    case None => None
    case Some(rc) =>
      Some(LineView(line.id, line.productId, line.recipeId, rc.title, rc.kind, line.quantity, line.unitPrice,
                    line.quantity * line.unitPrice, line.sku, ViewItems(flavors, rc.items)))
  }

  function ViewLines(recipes: seq<PackRecipe>, flavors: seq<Flavor>, lines: seq<CartLine>): Option<seq<LineView>> {
    if lines == [] then Some([])
    else
      match (ViewLine(recipes, flavors, lines[0]), ViewLines(recipes, flavors, lines[1..]))
      case (Some(v), Some(vs)) => Some([v] + vs)
      case _ => None
  }

  function Reverse<T>(s: seq<T>): (r: seq<T>)
    ensures |r| == |s| && forall i | 0 <= i < |s| :: r[i] == s[|s| - 1 - i]
  {
    if s == [] then [] else Reverse(s[1..]) + [s[0]]
  }

  /** `cart.reduce((sum, line) => sum + line.total, 0)`. */
  function SumTotals(vs: seq<LineView>): int {
    if vs == [] then 0 else vs[0].total + SumTotals(vs[1..])
  }

  /**
   * `getUserCart`: the user's lines newest first (lines are stored in creation order),
   * the number of lines, and the sum of the line totals.
   */
  function UserCart(lines: seq<CartLine>, recipes: seq<PackRecipe>, flavors: seq<Flavor>, user: UserId)
    : Result<CartView, CartError>
  {
    match ViewLines(recipes, flavors, Reverse(UserLines(lines, user)))
    case None => Err(Internal)
    case Some(vs) => Ok(CartView(vs, |UserLines(lines, user)|, SumTotals(vs)))
  }
}
