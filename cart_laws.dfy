/**
 * What the 3-pack cart handlers promise, stated over the functions their methods are
 * proved against: which requests add succeeds on, what one add, update, remove or
 * clear does to the inventory rows, that a request sequence keeps the rows sound,
 * the add/remove round trip, the clear lost update, and the cart view's totals.
 */
module CartLaws {
  import opened Wrappers
  import opened Tables
  import opened Ledger
  import opened ThreePackCart

  /** Recipe quantities are counts; the handlers never check this themselves. */
  predicate ItemsNonNegative(items: seq<RecipeItem>) {
    forall k | 0 <= k < |items| :: items[k].quantity >= 0
  }

  predicate RecipesNonNegative(recipes: seq<PackRecipe>) {
    forall i | 0 <= i < |recipes| :: ItemsNonNegative(recipes[i].items)
  }

  // ---------------------------------------------------------------- add

  /**
   * Add succeeds exactly when every field is present, the product is the 3-pack, the
   * quantity is positive, the recipe exists, is active, sums to 3, and every item has a
   * row with enough sellable stock for `item.quantity * qty`.
   */
  lemma AddAccepted(recipes: seq<PackRecipe>, flavors: seq<Flavor>, inv: Inventory, req: AddRequest)
    ensures ValidateAdd(recipes, flavors, inv, req).Ok? <==>
              && req.productId == ThreePackId && req.recipeId != "" && req.qty.Some? && req.qty.value >= 1
              && FindRecipe(recipes, req.recipeId).Some?
              && FindRecipe(recipes, req.recipeId).value.active
              && RecipeTotal(FindRecipe(recipes, req.recipeId).value.items) == PackSize
              && forall k | 0 <= k < |FindRecipe(recipes, req.recipeId).value.items| ::
                   var item := FindRecipe(recipes, req.recipeId).value.items[k];
                   item.flavorId in inv && Fits(inv[item.flavorId], item.quantity * req.qty.value)
    ensures ValidateAdd(recipes, flavors, inv, req).Ok? ==>
              ValidateAdd(recipes, flavors, inv, req).value == (FindRecipe(recipes, req.recipeId).value, req.qty.value)
  {
  }

  /**
   * The rejections of add, in the handler's order; a stock failure names the first
   * item in recipe order that has no row or too little stock.
   */
  lemma AddRejections(recipes: seq<PackRecipe>, flavors: seq<Flavor>, inv: Inventory, req: AddRequest)
    ensures (req.productId == "" || req.recipeId == "" || req.qty.None? || req.qty == Some(0)) ==>
              ValidateAdd(recipes, flavors, inv, req) == Err(MissingFields)
    ensures req.productId != "" && req.productId != ThreePackId && req.recipeId != "" && req.qty.Some? && req.qty.value != 0 ==>
              ValidateAdd(recipes, flavors, inv, req) == Err(NotThreePack)
    ensures req.productId == ThreePackId && req.recipeId != "" && req.qty.Some? && req.qty.value < 0 ==>
              ValidateAdd(recipes, flavors, inv, req) == Err(InvalidQuantity)
    ensures req.productId == ThreePackId && req.recipeId != "" && req.qty.Some? && req.qty.value > 0
            && FindRecipe(recipes, req.recipeId).None? ==>
              ValidateAdd(recipes, flavors, inv, req) == Err(RecipeNotFound)
              && Status(ValidateAdd(recipes, flavors, inv, req).error) == 404
    ensures ValidateAdd(recipes, flavors, inv, req).Err? && ValidateAdd(recipes, flavors, inv, req).error.InsufficientStock? ==>
              var rc := FindRecipe(recipes, req.recipeId).value;
              var k := FirstProblem(rc.items, inv, req.qty.value).value;
                && FirstProblem(rc.items, inv, req.qty.value).Some?
                && rc.items[k].flavorId in inv
                && ValidateAdd(recipes, flavors, inv, req).error.available == AvailableAfterSafety(inv[rc.items[k].flavorId])
                && ValidateAdd(recipes, flavors, inv, req).error.required == rc.items[k].quantity * req.qty.value
                && ValidateAdd(recipes, flavors, inv, req).error.available < ValidateAdd(recipes, flavors, inv, req).error.required
  {
    var v := ValidateAdd(recipes, flavors, inv, req);
    if v.Err? && v.error.InsufficientStock? {
      var rc := FindRecipe(recipes, req.recipeId).value;
      assert FirstProblem(rc.items, inv, req.qty.value).Some?;
    }
  }

  /**
   * With distinct recipe flavors, a successful add raises each recipe flavor's
   * `reserved` by `item.quantity * qty` and leaves every other row as it was.
   */
  lemma AddReserves(recipes: seq<PackRecipe>, flavors: seq<Flavor>, inv: Inventory, req: AddRequest, f: FlavorId)
    requires ValidateAdd(recipes, flavors, inv, req).Ok? && f in inv
    ensures var (rc, n) := ValidateAdd(recipes, flavors, inv, req).value;
            && Targets(ItemWrites(rc.items, n), inv)
            && ((forall k | 0 <= k < |rc.items| :: rc.items[k].flavorId != f) ==>
                  Written(inv, ItemWrites(rc.items, n), Reserve)[f] == inv[f])
            && (DistinctFlavors(rc.items) ==>
                  forall k | 0 <= k < |rc.items| && rc.items[k].flavorId == f ::
                    Written(inv, ItemWrites(rc.items, n), Reserve)[f] == inv[f].(reserved := inv[f].reserved + rc.items[k].quantity * n))
  {
    var (rc, n) := ValidateAdd(recipes, flavors, inv, req).value;
    ItemWritesEffect(inv, rc.items, n, Reserve, f);
  }

  /**
   * The merge rule: an existing `(user, "3-pack", recipe)` line grows by `n` and keeps its
   * id and SKU; otherwise one new line with quantity `n`, the fixed price and the SKU is
   * appended. Either way no second line for the same triple appears.
   */
  lemma AddLineMerges(lines: seq<CartLine>, next: nat, user: UserId, recipe: PackRecipe, n: int, sku: string)
    ensures var (lines2, next2, line) := AddLine(lines, next, user, recipe, n, sku);
            match FindLine(lines, user, ThreePackId, recipe.id)
            case Some(i) =>
              && |lines2| == |lines| && next2 == next && line == lines2[i]
              && line.id == lines[i].id && line.sku == lines[i].sku && line.quantity == lines[i].quantity + n
              && line.unitPrice == UnitPriceCents
              && forall j | 0 <= j < |lines| && j != i :: lines2[j] == lines[j]
            case None =>
              && lines2 == lines + [line] && next2 == next + 1
              && line == CartLine(next, user, ThreePackId, recipe.id, n, UnitPriceCents, sku)
    ensures NoDuplicateLines(lines) ==> NoDuplicateLines(AddLine(lines, next, user, recipe, n, sku).0)
  {
  }

  /** A request that passed add's stock check leaves sound rows sound. */
  lemma AddKeepsSound(recipes: seq<PackRecipe>, flavors: seq<Flavor>, inv: Inventory, req: AddRequest)
    requires Sound(inv) && ValidateAdd(recipes, flavors, inv, req).Ok?
    requires ItemsNonNegative(ValidateAdd(recipes, flavors, inv, req).value.0.items)
    ensures var (rc, n) := ValidateAdd(recipes, flavors, inv, req).value;
            Targets(ItemWrites(rc.items, n), inv) && Sound(Written(inv, ItemWrites(rc.items, n), Reserve))
  {
    var (rc, n) := ValidateAdd(recipes, flavors, inv, req).value;
    var ws := ItemWrites(rc.items, n);
    forall i | 0 <= i < |ws|
      ensures ws[i].flavor in inv && ws[i].amount >= 0 && Fits(inv[ws[i].flavor], ws[i].amount)
    {
      assert !Problem(rc.items[i], inv, n);
    }
    ReserveKeepsSound(inv, ws);
  }

  // ------------------------------------------------------------- update

  /**
   * A successful update writes the quantity difference only: nothing when the quantity
   * is unchanged and, with distinct flavors, `reserved + item.quantity * delta` when it
   * grows or `max(0, reserved - item.quantity * |delta|)` when it shrinks.
   */
  lemma UpdateWritesDifference(lines: seq<CartLine>, recipes: seq<PackRecipe>, flavors: seq<Flavor>, inv: Inventory,
                               user: UserId, id: LineId, qty: Option<int>, f: FlavorId)
    requires ValidateUpdate(lines, recipes, flavors, inv, user, id, qty).Ok? && f in inv
    ensures var (i, rc, newQty) := ValidateUpdate(lines, recipes, flavors, inv, user, id, qty).value;
            var delta := newQty - lines[i].quantity;
            var (ws, mode) := ChangeWrites(rc.items, delta);
            && Targets(ws, inv)
            && (delta == 0 ==> Written(inv, ws, mode) == inv)
            && (DistinctFlavors(rc.items) ==>
                  forall k | 0 <= k < |rc.items| && rc.items[k].flavorId == f ::
                    Written(inv, ws, mode)[f].reserved ==
                      if delta >= 0 then inv[f].reserved + rc.items[k].quantity * delta
                      else Max0(inv[f].reserved - rc.items[k].quantity * -delta))
  {
    UpdateAccepted(lines, recipes, flavors, inv, user, id, qty);
    var (i, rc, newQty) := ValidateUpdate(lines, recipes, flavors, inv, user, id, qty).value;
    ChangeWritesEffect(inv, rc.items, newQty - lines[i].quantity, f);
  }

  /** An accepted change has rows for its recipe's items, and an increase passed the stock check for every item. */
  lemma UpdateAccepted(lines: seq<CartLine>, recipes: seq<PackRecipe>, flavors: seq<Flavor>, inv: Inventory,
                       user: UserId, id: LineId, qty: Option<int>)
    requires ValidateUpdate(lines, recipes, flavors, inv, user, id, qty).Ok?
    ensures var (i, rc, newQty) := ValidateUpdate(lines, recipes, flavors, inv, user, id, qty).value;
            var delta := newQty - lines[i].quantity;
            && (delta != 0 ==> Stocked(rc.items, inv))
            && (delta > 0 ==> forall k | 0 <= k < |rc.items| :: !Problem(rc.items[k], inv, delta))
  {
    var (i, rc, newQty) := ValidateUpdate(lines, recipes, flavors, inv, user, id, qty).value;
    var delta := newQty - lines[i].quantity;
    if delta > 0 {
      assert FirstProblem(rc.items, inv, delta).None?;
      forall k | 0 <= k < |rc.items|
        ensures rc.items[k].flavorId in inv
      {
        assert !Problem(rc.items[k], inv, delta);
      }
    }
  }

  /** The rows the difference writes of `ChangeWrites` leave, for recipe items that all have rows. */
  lemma ChangeWritesEffect(inv: Inventory, items: seq<RecipeItem>, delta: int, f: FlavorId)
    requires f in inv && (delta != 0 ==> Stocked(items, inv))
    ensures var (ws, mode) := ChangeWrites(items, delta);
            && Targets(ws, inv)
            && (delta == 0 ==> Written(inv, ws, mode) == inv)
            && (DistinctFlavors(items) ==>
                  forall k | 0 <= k < |items| && items[k].flavorId == f ::
                    Written(inv, ws, mode)[f].reserved ==
                      if delta >= 0 then inv[f].reserved + items[k].quantity * delta
                      else Max0(inv[f].reserved - items[k].quantity * -delta))
  {
    if delta > 0 {
      ItemWritesEffect(inv, items, delta, Reserve, f);
    } else if delta < 0 {
      ItemWritesEffect(inv, items, -delta, Release, f);
    }
  }

  /**
   * Update succeeds exactly when: `qty` is at least 1; the user owns a line with that
   * id; its recipe exists; and, for an increase, every item has a row with enough
   * sellable stock, or, for a decrease, every item has a row.
   */
  lemma UpdateAcceptedIff(lines: seq<CartLine>, recipes: seq<PackRecipe>, flavors: seq<Flavor>, inv: Inventory,
                          user: UserId, id: LineId, qty: Option<int>)
    ensures ValidateUpdate(lines, recipes, flavors, inv, user, id, qty).Ok? <==>
              && qty.Some? && qty.value >= 1
              && FindOwnLine(lines, id, user).Some?
              && FindRecipe(recipes, lines[FindOwnLine(lines, id, user).value].recipeId).Some?
              && var line := lines[FindOwnLine(lines, id, user).value];
                 var items := FindRecipe(recipes, line.recipeId).value.items;
                 var delta := qty.value - line.quantity;
                 && (delta > 0 ==> forall k | 0 <= k < |items| :: !Problem(items[k], inv, delta))
                 && (delta < 0 ==> Stocked(items, inv))
  {
  }

  /**
   * The rejections of update, in the handler's order: an absent or non-positive `qty`;
   * a line the user does not own (404, whoever owns it); a stock failure on an increase,
   * which names the first item in recipe order without enough sellable stock.
   */
  lemma UpdateRejections(lines: seq<CartLine>, recipes: seq<PackRecipe>, flavors: seq<Flavor>, inv: Inventory,
                         user: UserId, id: LineId, qty: Option<int>)
    ensures (qty.None? || qty.value <= 0) ==> ValidateUpdate(lines, recipes, flavors, inv, user, id, qty) == Err(InvalidQuantity)
    ensures qty.Some? && qty.value > 0 && (forall j | 0 <= j < |lines| :: !(lines[j].id == id && lines[j].userId == user)) ==>
              && ValidateUpdate(lines, recipes, flavors, inv, user, id, qty) == Err(LineNotFound)
              && Status(ValidateUpdate(lines, recipes, flavors, inv, user, id, qty).error) == 404
    ensures ValidateUpdate(lines, recipes, flavors, inv, user, id, qty).Err?
            && ValidateUpdate(lines, recipes, flavors, inv, user, id, qty).error.InsufficientStock? ==>
              && qty.Some? && FindOwnLine(lines, id, user).Some?
              && var line := lines[FindOwnLine(lines, id, user).value];
                 var rc := FindRecipe(recipes, line.recipeId).value;
                 var delta := qty.value - line.quantity;
                 var k := FirstProblem(rc.items, inv, delta).value;
                 && FindRecipe(recipes, line.recipeId).Some? && delta > 0
                 && FirstProblem(rc.items, inv, delta).Some?
                 && rc.items[k].flavorId in inv
                 && ValidateUpdate(lines, recipes, flavors, inv, user, id, qty).error.available == AvailableAfterSafety(inv[rc.items[k].flavorId])
                 && ValidateUpdate(lines, recipes, flavors, inv, user, id, qty).error.required == rc.items[k].quantity * delta
                 && ValidateUpdate(lines, recipes, flavors, inv, user, id, qty).error.available
                    < ValidateUpdate(lines, recipes, flavors, inv, user, id, qty).error.required
  {
    var v := ValidateUpdate(lines, recipes, flavors, inv, user, id, qty);
    if v.Err? && v.error.InsufficientStock? {
      var line := lines[FindOwnLine(lines, id, user).value];
      var rc := FindRecipe(recipes, line.recipeId).value;
      assert FirstProblem(rc.items, inv, qty.value - line.quantity).Some?;
    }
  }

  /** An accepted update leaves sound rows sound: increases passed the stock check, decreases clamp. */
  lemma UpdateKeepsSound(lines: seq<CartLine>, recipes: seq<PackRecipe>, flavors: seq<Flavor>, inv: Inventory,
                         user: UserId, id: LineId, qty: Option<int>)
    requires Sound(inv) && ValidateUpdate(lines, recipes, flavors, inv, user, id, qty).Ok?
    requires ItemsNonNegative(ValidateUpdate(lines, recipes, flavors, inv, user, id, qty).value.1.items)
    ensures var (i, rc, newQty) := ValidateUpdate(lines, recipes, flavors, inv, user, id, qty).value;
            var (ws, mode) := ChangeWrites(rc.items, newQty - lines[i].quantity);
            Targets(ws, inv) && Sound(Written(inv, ws, mode))
  {
    UpdateAccepted(lines, recipes, flavors, inv, user, id, qty);
    var (i, rc, newQty) := ValidateUpdate(lines, recipes, flavors, inv, user, id, qty).value;
    var delta := newQty - lines[i].quantity;
    if delta > 0 {
      var ws := ItemWrites(rc.items, delta);
      forall k | 0 <= k < |ws|
        ensures ws[k].flavor in inv && ws[k].amount >= 0 && Fits(inv[ws[k].flavor], ws[k].amount)
      {
        assert !Problem(rc.items[k], inv, delta);
      }
      ReserveKeepsSound(inv, ws);
    } else if delta < 0 {
      ReleaseKeepsSound(inv, ItemWrites(rc.items, -delta));
    }
  }

  // ------------------------------------------------------------- remove

  /**
   * Remove succeeds exactly when the user owns a line with that id whose recipe exists
   * and has a row for every item; a line the user does not own is a 404, whoever owns it.
   */
  lemma RemoveRejections(lines: seq<CartLine>, recipes: seq<PackRecipe>, inv: Inventory, user: UserId, id: LineId)
    ensures ValidateRemove(lines, recipes, inv, user, id).Ok? <==>
              && FindOwnLine(lines, id, user).Some?
              && FindRecipe(recipes, lines[FindOwnLine(lines, id, user).value].recipeId).Some?
              && Stocked(FindRecipe(recipes, lines[FindOwnLine(lines, id, user).value].recipeId).value.items, inv)
    ensures (forall j | 0 <= j < |lines| :: !(lines[j].id == id && lines[j].userId == user)) ==>
              && ValidateRemove(lines, recipes, inv, user, id) == Err(LineNotFound)
              && Status(ValidateRemove(lines, recipes, inv, user, id).error) == 404
  {
  }

  /**
   * An accepted remove deletes the user's own line with that id and nothing else:
   * every other line, in particular every other user's line, stays; with unique ids
   * no line with that id remains.
   */
  lemma RemoveDeletesOwnLine(lines: seq<CartLine>, recipes: seq<PackRecipe>, inv: Inventory, user: UserId, id: LineId)
    requires ValidateRemove(lines, recipes, inv, user, id).Ok?
    ensures var i := ValidateRemove(lines, recipes, inv, user, id).value.0;
            && lines[i].id == id && lines[i].userId == user
            && (forall j | 0 <= j < |lines| && j != i :: lines[j] in RemoveAt(lines, i))
            && (LineIdsUnique(lines) ==> forall l | l in RemoveAt(lines, i) :: l.id != id)
  {
    var i := ValidateRemove(lines, recipes, inv, user, id).value.0;
    var r := RemoveAt(lines, i);
    forall j | 0 <= j < |lines| && j != i
      ensures lines[j] in r
    {
      if j < i {
        assert r[j] == lines[j];
      } else {
        assert r[j - 1] == lines[j];
      }
    }
    if LineIdsUnique(lines) {
      forall l | l in r
        ensures l.id != id
      {
        var k :| 0 <= k < |r| && r[k] == l;
        var j := if k < i then k else k + 1;
        assert r[k] == lines[j] && j != i;
      }
    }
  }

  /** Releasing `item.quantity * line.quantity` with the clamp leaves sound rows sound. */
  lemma RemoveKeepsSound(lines: seq<CartLine>, recipes: seq<PackRecipe>, inv: Inventory, user: UserId, id: LineId)
    requires Sound(inv) && LinesPositive(lines) && ValidateRemove(lines, recipes, inv, user, id).Ok?
    requires ItemsNonNegative(ValidateRemove(lines, recipes, inv, user, id).value.1.items)
    ensures var (i, rc) := ValidateRemove(lines, recipes, inv, user, id).value;
            Targets(ItemWrites(rc.items, lines[i].quantity), inv)
            && Sound(Written(inv, ItemWrites(rc.items, lines[i].quantity), Release))
  {
    var (i, rc) := ValidateRemove(lines, recipes, inv, user, id).value;
    ItemWritesTargets(rc.items, lines[i].quantity, inv);
    ReleaseKeepsSound(inv, ItemWrites(rc.items, lines[i].quantity));
  }

  /** A line whose id is the store's next id is found at the end of the cart. */
  lemma FindAppended(lines: seq<CartLine>, next: nat, l: CartLine)
    requires LineIdsBelow(lines, next) && l.id == next
    ensures FindOwnLine(lines + [l], next, l.userId) == Some(|lines|)
  {
    var s := lines + [l];
    assert s[|lines|] == l;
  }

  /**
   * Round trip: adding a recipe the user has no line for, then removing the line the
   * add created, gives back the cart and every inventory row.
   */
  lemma AddThenRemove(lines: seq<CartLine>, next: nat, recipes: seq<PackRecipe>, flavors: seq<Flavor>, inv: Inventory,
                      user: UserId, req: AddRequest)
    requires ValidateAdd(recipes, flavors, inv, req).Ok?
    requires FindLine(lines, user, ThreePackId, req.recipeId).None?
    requires LineIdsBelow(lines, next) && NoNegativeReserved(inv)
    ensures var (rc, n) := ValidateAdd(recipes, flavors, inv, req).value;
            var (lines2, next2, line) := AddLine(lines, next, user, rc, n, RecipeSku(flavors, rc));
            && Targets(ItemWrites(rc.items, n), inv)
            && var inv2 := Written(inv, ItemWrites(rc.items, n), Reserve);
               && ValidateRemove(lines2, recipes, inv2, user, line.id) == Ok((|lines|, rc))
               && RemoveAt(lines2, |lines|) == lines
               && Written(inv2, ItemWrites(rc.items, line.quantity), Release) == inv
  {
    var (rc, n) := ValidateAdd(recipes, flavors, inv, req).value;
    var (lines2, next2, line) := AddLine(lines, next, user, rc, n, RecipeSku(flavors, rc));
    var ws := ItemWrites(rc.items, n);
    assert Stocked(rc.items, inv) by {
      forall k | 0 <= k < |rc.items|
        ensures rc.items[k].flavorId in inv
      {
        assert !Problem(rc.items[k], inv, n);
      }
    }
    ItemWritesTargets(rc.items, n, inv);
    assert lines2 == lines + [line];
    FindAppended(lines, next, line);
    assert RemoveAt(lines2, |lines|) == lines;
    ReserveThenRelease(inv, ws);
  }

  // -------------------------------------------------------------- clear

  lemma {:induction false} ClearWritesNonNegative(lines: seq<CartLine>, recipes: seq<PackRecipe>)
    requires LinesPositive(lines) && RecipesNonNegative(recipes)
    ensures forall i | 0 <= i < |ClearWrites(lines, recipes)| :: ClearWrites(lines, recipes)[i].amount >= 0
  {
    if lines != [] {
      assert LinesPositive(lines[1..]) by {
        forall i | 0 <= i < |lines| - 1
          ensures lines[1..][i].quantity >= 1
        {
          assert lines[1..][i] == lines[i + 1];
        }
      }
      ClearWritesNonNegative(lines[1..], recipes);
      var found := FindRecipe(recipes, lines[0].recipeId);
      if found.Some? {
        var j :| 0 <= j < |recipes| && recipes[j] == found.value;
        assert ItemsNonNegative(found.value.items);
      }
    }
  }

  lemma UserLinesPositive(lines: seq<CartLine>, user: UserId)
    requires LinesPositive(lines)
    ensures LinesPositive(UserLines(lines, user))
  {
    var m := UserLines(lines, user);
    forall i | 0 <= i < |m|
      ensures m[i].quantity >= 1
    {
      var j :| 0 <= j < |lines| && lines[j] == m[i];
    }
  }

  /** Clearing releases with the clamp, so sound rows stay sound. */
  lemma ClearKeepsSound(lines: seq<CartLine>, recipes: seq<PackRecipe>, inv: Inventory, user: UserId)
    requires Sound(inv) && LinesPositive(lines) && LinesBacked(lines, recipes, inv) && RecipesNonNegative(recipes)
    ensures Targets(ClearWrites(UserLines(lines, user), recipes), inv)
    ensures Sound(Written(inv, ClearWrites(UserLines(lines, user), recipes), Release))
  {
    UserLinesBacked(lines, recipes, inv, user);
    ClearWritesTargets(UserLines(lines, user), recipes, inv);
    UserLinesPositive(lines, user);
    ClearWritesNonNegative(UserLines(lines, user), recipes);
    ReleaseKeepsSound(inv, ClearWrites(UserLines(lines, user), recipes));
  }

  /**
   * When no flavor is written twice, clearing as written releases cumulatively, i.e. it
   * leaves exactly what the corrected clear leaves.
   */
  lemma ClearCumulativeWhenDistinct(lines: seq<CartLine>, recipes: seq<PackRecipe>, inv: Inventory, user: UserId)
    requires LinesBacked(lines, recipes, inv)
    requires DistinctTargets(ClearWrites(UserLines(lines, user), recipes))
    ensures Targets(ClearWrites(UserLines(lines, user), recipes), inv)
    ensures Written(inv, ClearWrites(UserLines(lines, user), recipes), Release)
         == Accumulated(inv, ClearWrites(UserLines(lines, user), recipes), Release)
  {
    UserLinesBacked(lines, recipes, inv, user);
    ClearWritesTargets(UserLines(lines, user), recipes, inv);
    WrittenIsAccumulated(inv, ClearWrites(UserLines(lines, user), recipes), Release);
  }

  /**
   * The corrected clear takes from each row the total the user's lines held of that
   * flavor, clamped once at zero, and touches no other field.
   */
  lemma ClearCorrectedReleasesTotal(lines: seq<CartLine>, recipes: seq<PackRecipe>, inv: Inventory, user: UserId, f: FlavorId)
    requires LinesPositive(lines) && LinesBacked(lines, recipes, inv) && RecipesNonNegative(recipes)
    requires f in inv && inv[f].reserved >= 0
    ensures Targets(ClearWrites(UserLines(lines, user), recipes), inv)
    ensures ReleasedTotal(inv, ClearWrites(UserLines(lines, user), recipes), f)
  {
    ClearWritesReleasable(lines, recipes, inv, user);
    AccumulatedReleaseAt(inv, ClearWrites(UserLines(lines, user), recipes), f);
  }

  /** The clear writes of a user's lines target existing rows and release non-negative amounts. */
  lemma ClearWritesReleasable(lines: seq<CartLine>, recipes: seq<PackRecipe>, inv: Inventory, user: UserId)
    requires LinesPositive(lines) && LinesBacked(lines, recipes, inv) && RecipesNonNegative(recipes)
    ensures var ws := ClearWrites(UserLines(lines, user), recipes);
            Targets(ws, inv) && forall i | 0 <= i < |ws| :: ws[i].amount >= 0
  {
    UserLinesBacked(lines, recipes, inv, user);
    ClearWritesTargets(UserLines(lines, user), recipes, inv);
    UserLinesPositive(lines, user);
    ClearWritesNonNegative(UserLines(lines, user), recipes);
  }

  /** A store with one flavor F, reserved 4 by two lines of one user: three F, and one F plus two G. */
  function LostUpdateRecipes(): seq<PackRecipe> {
    [PackRecipe("r1", "Triple F", "Sour", true, [RecipeItem("F", 3)]),
     PackRecipe("r2", "F and G", "Sour", true, [RecipeItem("F", 1), RecipeItem("G", 2)])]
  }

  function LostUpdateLines(): seq<CartLine> {
    [CartLine(0, "u", ThreePackId, "r1", 1, UnitPriceCents, "3P-SOR-UNKx3"),
     CartLine(1, "u", ThreePackId, "r2", 1, UnitPriceCents, "3P-SOR-UNK-UNKx2")]
  }

  function LostUpdateInventory(): Inventory {
    map["F" := InventoryRecord(10, 4, 0), "G" := InventoryRecord(10, 2, 0)]
  }

  /**
   * The lost update of `clearCart`: after the user's only two lines are cleared, F still
   * shows 3 reserved, because the second write to F starts from the loaded 4 again; the
   * corrected clear leaves F at 0, and G is 0 either way.
   */
  lemma ClearLostUpdate()
    ensures Targets(ClearWrites(UserLines(LostUpdateLines(), "u"), LostUpdateRecipes()), LostUpdateInventory())
    ensures Written(LostUpdateInventory(), ClearWrites(UserLines(LostUpdateLines(), "u"), LostUpdateRecipes()), Release)["F"].reserved == 3
    ensures Accumulated(LostUpdateInventory(), ClearWrites(UserLines(LostUpdateLines(), "u"), LostUpdateRecipes()), Release)["F"].reserved == 0
    ensures Written(LostUpdateInventory(), ClearWrites(UserLines(LostUpdateLines(), "u"), LostUpdateRecipes()), Release)["G"].reserved == 0
    ensures OtherLines(LostUpdateLines(), "u") == []
  {
    LostUpdateWrites();
    LostUpdateWrittenF();
    LostUpdateWrittenG();
    LostUpdateAccumulatedF();
  }

  function LostUpdateWriteList(): seq<Write> {
    [Write("F", 3), Write("F", 1), Write("G", 2)]
  }

  /** The snapshot release leaves F at 4 - 1: only the last write to F counts. */
  lemma LostUpdateWrittenF()
    ensures Targets(LostUpdateWriteList(), LostUpdateInventory())
    ensures Written(LostUpdateInventory(), LostUpdateWriteList(), Release)["F"].reserved == 3
  {
    var ws := LostUpdateWriteList();
    assert ws[2].flavor != ws[1].flavor;
    LastAmountIs(ws, 1);
    WrittenAt(LostUpdateInventory(), ws, Release, "F");
  }

  /** G's one write releases both of its reserved units. */
  lemma LostUpdateWrittenG()
    ensures Targets(LostUpdateWriteList(), LostUpdateInventory())
    ensures Written(LostUpdateInventory(), LostUpdateWriteList(), Release)["G"].reserved == 0
  {
    var ws := LostUpdateWriteList();
    LastAmountIs(ws, 2);
    WrittenAt(LostUpdateInventory(), ws, Release, "G");
  }

  /** The cumulative release takes all four from F. */
  lemma LostUpdateAccumulatedF()
    ensures Targets(LostUpdateWriteList(), LostUpdateInventory())
    ensures Accumulated(LostUpdateInventory(), LostUpdateWriteList(), Release)["F"].reserved == 0
  {
    LostUpdateTotal();
    AccumulatedReleaseAt(LostUpdateInventory(), LostUpdateWriteList(), "F");
  }

  /** F is released four in all by the example's writes. */
  lemma LostUpdateTotal()
    ensures TotalFor(LostUpdateWriteList(), "F") == 4
  {
    var ws := LostUpdateWriteList();
    assert ws[..2] == [Write("F", 3), Write("F", 1)];
    assert ws[..2][..1] == [Write("F", 3)];
    assert ws[..2][..1][..0] == [];
    assert TotalFor(ws[..2][..1], "F") == 3;
  }

  /** The clear writes of the two-line example: F for three, F for one, G for two. */
  lemma LostUpdateWrites()
    ensures UserLines(LostUpdateLines(), "u") == LostUpdateLines()
    ensures OtherLines(LostUpdateLines(), "u") == []
    ensures ClearWrites(UserLines(LostUpdateLines(), "u"), LostUpdateRecipes()) == LostUpdateWriteList()
  {
    var lines := LostUpdateLines();
    var recipes := LostUpdateRecipes();
    assert UserLines(lines, "u") == lines;
    assert FindRecipe(recipes, "r1") == Some(recipes[0]);
    assert FindRecipe(recipes, "r2") == Some(recipes[1]);
    assert ClearWrites(lines[1..], recipes) == [Write("F", 1), Write("G", 2)];
  }

  // ---------------------------------------------------------- cart view

  /** Sum of `quantity * unitPrice` over lines. */
  function LineSum(lines: seq<CartLine>): int {
    if lines == [] then 0 else lines[0].quantity * lines[0].unitPrice + LineSum(lines[1..])
  }

  /** Number of packs over lines. */
  function PackCount(lines: seq<CartLine>): int {
    if lines == [] then 0 else lines[0].quantity + PackCount(lines[1..])
  }

  lemma {:induction false} LineSumSnoc(lines: seq<CartLine>, l: CartLine)
    ensures LineSum(lines + [l]) == LineSum(lines) + l.quantity * l.unitPrice
  {
    if lines != [] {
      assert (lines + [l])[1..] == lines[1..] + [l];
      LineSumSnoc(lines[1..], l);
    }
  }

  lemma {:induction false} LineSumReverse(lines: seq<CartLine>)
    ensures LineSum(Reverse(lines)) == LineSum(lines)
  {
    if lines != [] {
      LineSumReverse(lines[1..]);
      LineSumSnoc(Reverse(lines[1..]), lines[0]);
    }
  }

  /** Viewing lines keeps their order, ids and quantities, and each total is `quantity * unitPrice`. */
  lemma {:induction false} ViewLinesShape(recipes: seq<PackRecipe>, flavors: seq<Flavor>, lines: seq<CartLine>)
    requires ViewLines(recipes, flavors, lines).Some?
    ensures var vs := ViewLines(recipes, flavors, lines).value;
            && |vs| == |lines|
            && (forall i | 0 <= i < |lines| ::
                  vs[i].id == lines[i].id && vs[i].quantity == lines[i].quantity && vs[i].total == lines[i].quantity * lines[i].unitPrice)
            && SumTotals(vs) == LineSum(lines)
  {
    if lines != [] {
      ViewLinesShape(recipes, flavors, lines[1..]);
    }
  }

  /** Every line whose recipe exists can be viewed. */
  lemma {:induction false} ViewLinesSome(recipes: seq<PackRecipe>, flavors: seq<Flavor>, lines: seq<CartLine>)
    requires forall i | 0 <= i < |lines| :: FindRecipe(recipes, lines[i].recipeId).Some?
    ensures ViewLines(recipes, flavors, lines).Some?
  {
    if lines != [] {
      ViewLinesSome(recipes, flavors, lines[1..]);
    }
  }

  /**
   * `getUserCart`: for a store whose lines are backed, the view lists the user's lines
   * newest first; `total_items` counts lines and `cart_total` is the sum of
   * `quantity * unitPrice` over them.
   */
  lemma UserCartTotals(lines: seq<CartLine>, recipes: seq<PackRecipe>, flavors: seq<Flavor>, inv: Inventory, user: UserId)
    requires LinesBacked(lines, recipes, inv)
    ensures UserCart(lines, recipes, flavors, user).Ok?
    ensures var v := UserCart(lines, recipes, flavors, user).value;
            var m := UserLines(lines, user);
            && |v.cart| == |m| == v.totalItems
            && (forall i | 0 <= i < |m| :: v.cart[i].id == m[|m| - 1 - i].id)
            && v.cartTotal == LineSum(m)
  {
    UserLinesViewable(lines, recipes, flavors, inv, user);
    var m := UserLines(lines, user);
    var rm := Reverse(m);
    ViewLinesShape(recipes, flavors, rm);
    LineSumReverse(m);
  }

  /** Each of a user's backed lines has its recipe, so the newest-first view exists. */
  lemma UserLinesViewable(lines: seq<CartLine>, recipes: seq<PackRecipe>, flavors: seq<Flavor>, inv: Inventory, user: UserId)
    requires LinesBacked(lines, recipes, inv)
    ensures ViewLines(recipes, flavors, Reverse(UserLines(lines, user))).Some?
  {
    var m := UserLines(lines, user);
    UserLinesBacked(lines, recipes, inv, user);
    var rm := Reverse(m);
    forall i | 0 <= i < |rm|
      ensures FindRecipe(recipes, rm[i].recipeId).Some?
    {
      assert rm[i] == m[|m| - 1 - i];
    }
    ViewLinesSome(recipes, flavors, rm);
  }

  lemma {:induction false} LineSumUniform(lines: seq<CartLine>, price: int)
    requires forall i | 0 <= i < |lines| :: lines[i].unitPrice == price
    ensures LineSum(lines) == price * PackCount(lines)
  {
    if lines != [] {
      LineSumUniform(lines[1..], price);
      assert LineSum(lines) == lines[0].quantity * price + price * PackCount(lines[1..]);
    }
  }

  /**
   * With every line at the fixed 27.00, the cart total is 27.00 per pack while
   * `total_items` counts lines: one line of two packs reports total_items 1, 54.00.
   */
  lemma FixedPriceCart(lines: seq<CartLine>)
    requires forall i | 0 <= i < |lines| :: lines[i].unitPrice == UnitPriceCents
    ensures LineSum(lines) == UnitPriceCents * PackCount(lines)
    ensures var one := [CartLine(0, "u", ThreePackId, "r", 2, UnitPriceCents, "s")];
            |one| == 1 && LineSum(one) == 5400 && PackCount(one) == 2
  {
    LineSumUniform(lines, UnitPriceCents);
  }
}
