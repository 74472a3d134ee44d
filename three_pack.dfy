/**
 * The 3-pack catalog handlers: the availability check of a recipe, the product with
 * its active variants, and the flavor registry (create, update, delete).
 */
module ThreePack {
  import opened Wrappers
  import opened Text
  import opened Sku
  import opened Tables
  import opened Ledger
  import ThreePackCart

  // ------------------------------------------------------ availability

  /** One item of the availability answer; every counter is 0 for a flavor without a row. */
  datatype AvailabilityEntry = AvailabilityEntry(
    flavorId: FlavorId, flavorName: string, required: int, available: int,
    onHand: int, reserved: int, safetyStock: int, availableAfterSafety: int)

  datatype LimitingFactor = LimitingFactor(flavorName: string, available: int, required: int)

  datatype AvailabilityReport = AvailabilityReport(
    recipeId: RecipeId, requestedQty: int, isPurchasable: bool,
    limitingFactor: Option<LimitingFactor>, availability: seq<AvailabilityEntry>)

  datatype AvailabilityError = RecipeIdRequired | RecipeNotFound

  function AvailabilityStatus(e: AvailabilityError): int {
    match e
    case RecipeIdRequired => 400
    case RecipeNotFound => 404
  }

  /** The entry pushed for one recipe item when `n` packs are asked for. */
  function Entry(flavors: seq<Flavor>, inv: Inventory, item: RecipeItem, n: int): (e: AvailabilityEntry)
    ensures e.required == item.quantity * n
    ensures item.flavorId in inv ==> e.availableAfterSafety == AvailableAfterSafety(inv[item.flavorId])
                                     && e.available == Available(inv[item.flavorId])
    ensures item.flavorId !in inv ==> e.available == e.onHand == e.reserved == e.safetyStock == e.availableAfterSafety == 0
  {
    var name := FlavorName(flavors, item.flavorId);
    if item.flavorId !in inv then AvailabilityEntry(item.flavorId, name, item.quantity * n, 0, 0, 0, 0, 0)
    else
      var r := inv[item.flavorId];
      AvailabilityEntry(item.flavorId, name, item.quantity * n, Available(r), r.onHand, r.reserved, r.safetyStock,
                        AvailableAfterSafety(r))
  }

  /** One entry per recipe item, in recipe order. */
  function Entries(flavors: seq<Flavor>, inv: Inventory, items: seq<RecipeItem>, n: int): (es: seq<AvailabilityEntry>)
    ensures |es| == |items| && forall i | 0 <= i < |items| :: es[i] == Entry(flavors, inv, items[i], n)
  {
    seq(|items|, i requires 0 <= i < |items| => Entry(flavors, inv, items[i], n))
  }

  predicate Passes(e: AvailabilityEntry) {
    e.availableAfterSafety >= e.required
  }

  /** `availability.find(item => item.available_after_safety < item.required)`, as a position. */
  function FirstFailing(es: seq<AvailabilityEntry>): (r: Option<nat>)
    ensures r.Some? ==> r.value < |es| && !Passes(es[r.value]) && forall j | 0 <= j < r.value :: Passes(es[j])
    ensures r.None? <==> forall j | 0 <= j < |es| :: Passes(es[j])
  {
    if es == [] then None
    else if !Passes(es[0]) then Some(0)
    else
      match FirstFailing(es[1..])
      case None => None
      case Some(k) => Some(k + 1)
  }

  function Limiting(e: AvailabilityEntry): LimitingFactor {
    LimitingFactor(e.flavorName, e.availableAfterSafety, e.required)
  }

  /**
   * `getInventoryAvailability`: a missing `recipe_id` is a 400, an unknown one a 404;
   * `qty` defaults to 1. There is no active or sum-to-3 check, and nothing is written.
   */
  method CheckAvailability(db: Store, recipeId: RecipeId, qty: Option<int>) returns (r: Result<AvailabilityReport, AvailabilityError>)
    ensures recipeId == "" ==> r == Err(RecipeIdRequired)
    ensures recipeId != "" && FindRecipe(db.recipes, recipeId).None? ==> r == Err(RecipeNotFound)
    ensures recipeId != "" && FindRecipe(db.recipes, recipeId).Some? ==>
              var items := FindRecipe(db.recipes, recipeId).value.items;
              var n := qty.GetOr(1);
              && r.Ok? && r.value.recipeId == recipeId && r.value.requestedQty == n
              && r.value.availability == Entries(db.flavors, db.inventory, items, n)
              && (r.value.isPurchasable <==> forall i | 0 <= i < |items| :: Passes(r.value.availability[i]))
              && (r.value.limitingFactor.None? <==> r.value.isPurchasable)
              && (r.value.limitingFactor.Some? ==>
                    exists k | 0 <= k < |items| ::
                      && !Passes(r.value.availability[k])
                      && (forall j | 0 <= j < k :: Passes(r.value.availability[j]))
                      && r.value.limitingFactor.value == Limiting(r.value.availability[k]))
  {
    if recipeId == "" {
      return Err(RecipeIdRequired);
    }
    var found := FindRecipe(db.recipes, recipeId);
    if found.None? {
      return Err(RecipeNotFound);
    }
    var items := found.value.items;
    var n := qty.GetOr(1);
    var availability: seq<AvailabilityEntry> := [];
    var i := 0;
    while i < |items|
      invariant 0 <= i <= |items|
      invariant availability == Entries(db.flavors, db.inventory, items[..i], n)
    {
      availability := availability + [Entry(db.flavors, db.inventory, items[i], n)];
      i := i + 1;
    }
    assert items[..|items|] == items;
    var failing := FirstFailing(availability);
    var limiting := if failing.Some? then Some(Limiting(availability[failing.value])) else None;
    return Ok(AvailabilityReport(recipeId, n, failing.None?, limiting, availability));
  }

  /**
   * On a recipe whose flavors all have rows, the availability check and the add's stock
   * check agree: purchasable exactly when add's stock loop passes, and the limiting
   * factor is the item add would name.
   */
  lemma AvailabilityAgreesWithAdd(flavors: seq<Flavor>, inv: Inventory, items: seq<RecipeItem>, n: int)
    requires Stocked(items, inv)
    ensures (forall i | 0 <= i < |items| :: Passes(Entries(flavors, inv, items, n)[i]))
            <==> ThreePackCart.FirstProblem(items, inv, n).None?
    ensures FirstFailing(Entries(flavors, inv, items, n)) == ThreePackCart.FirstProblem(items, inv, n)
  {
    var es := Entries(flavors, inv, items, n);
    forall i | 0 <= i < |items|
      ensures Passes(es[i]) <==> !ThreePackCart.Problem(items[i], inv, n)
    {
      assert es[i] == Entry(flavors, inv, items[i], n);
      assert items[i].flavorId in inv;
    }
    var a := FirstFailing(es);
    if a.Some? {
      ThreePackCart.FirstProblemIs(items, inv, n, a.value);
    }
  }

  /** Without a row, an item is reported as passing only when nothing is required of it. */
  lemma MissingRowEntry(flavors: seq<Flavor>, inv: Inventory, item: RecipeItem, n: int)
    requires item.flavorId !in inv
    ensures Passes(Entry(flavors, inv, item, n)) <==> item.quantity * n <= 0
  {
  }

  // ----------------------------------------------------------- variants

  /** `orderBy: [{ kind: "asc" }, { title: "asc" }]`, with text compared by character code. */
  predicate KeyLe(a: PackRecipe, b: PackRecipe) {
    if a.kind == b.kind then LexLe(a.title, b.title) else LexLe(a.kind, b.kind)
  }

  lemma KeyLeTotal(a: PackRecipe, b: PackRecipe)
    ensures KeyLe(a, b) || KeyLe(b, a)
  {
    LexLeTotal(a.title, b.title);
    LexLeTotal(a.kind, b.kind);
  }

  lemma KeyLeTransitive(a: PackRecipe, b: PackRecipe, c: PackRecipe)
    requires KeyLe(a, b) && KeyLe(b, c)
    ensures KeyLe(a, c)
  {
    if a.kind == b.kind && b.kind == c.kind {
      LexLeTransitive(a.title, b.title, c.title);
    } else if a.kind != b.kind && b.kind != c.kind {
      LexLeTransitive(a.kind, b.kind, c.kind);
      if a.kind == c.kind {
        LexLeAntisymmetric(a.kind, b.kind);
      }
    }
  }

  predicate SortedByKey(s: seq<PackRecipe>) {
    forall i, j | 0 <= i < j < |s| :: KeyLe(s[i], s[j])
  }

  function Insert(x: PackRecipe, s: seq<PackRecipe>): seq<PackRecipe> {
    if s == [] then [x]
    else if KeyLe(x, s[0]) then [x] + s
    else [s[0]] + Insert(x, s[1..])
  }

  /** The database's sort of the selected recipes, as an insertion sort. */
  function SortByKey(s: seq<PackRecipe>): seq<PackRecipe> {
    if s == [] then [] else Insert(s[0], SortByKey(s[1..]))
  }

  lemma {:induction false} InsertPermutes(x: PackRecipe, s: seq<PackRecipe>)
    ensures multiset(Insert(x, s)) == multiset(s) + multiset{x}
  {
    if s != [] && !KeyLe(x, s[0]) {
      InsertPermutes(x, s[1..]);
      assert s == [s[0]] + s[1..];
    }
  }

  lemma {:induction false} InsertSorted(x: PackRecipe, s: seq<PackRecipe>)
    requires SortedByKey(s)
    ensures SortedByKey(Insert(x, s))
  {
    if s == [] {
    } else if KeyLe(x, s[0]) {
      forall k | 0 <= k < |s|
        ensures KeyLe(x, s[k])
      {
        if k > 0 {
          KeyLeTransitive(x, s[0], s[k]);
        }
      }
      ConsSorted(x, s);
    } else {
      KeyLeTotal(x, s[0]);
      var t := Insert(x, s[1..]);
      InsertSorted(x, s[1..]);
      InsertPermutes(x, s[1..]);
      forall k | 0 <= k < |t|
        ensures KeyLe(s[0], t[k])
      {
        var y := t[k];
        assert y in multiset(t);
        if y != x {
          assert y in multiset(s[1..]);
          var m :| 0 <= m < |s[1..]| && s[1..][m] == y;
          assert s[m + 1] == y;
        }
      }
      ConsSorted(s[0], t);
    }
  }

  /** A first element at or below every later one extends a sorted list. */
  lemma ConsSorted(y: PackRecipe, t: seq<PackRecipe>)
    requires SortedByKey(t) && forall k | 0 <= k < |t| :: KeyLe(y, t[k])
    ensures SortedByKey([y] + t)
  {
    var r := [y] + t;
    forall i, j | 0 <= i < j < |r|
      ensures KeyLe(r[i], r[j])
    {
      assert r[j] == t[j - 1];
      if i > 0 {
        assert r[i] == t[i - 1];
      }
    }
  }

  lemma {:induction false} SortByKeyCorrect(s: seq<PackRecipe>)
    ensures SortedByKey(SortByKey(s)) && multiset(SortByKey(s)) == multiset(s)
  {
    if s != [] {
      SortByKeyCorrect(s[1..]);
      InsertSorted(s[0], SortByKey(s[1..]));
      InsertPermutes(s[0], SortByKey(s[1..]));
      assert s == [s[0]] + s[1..];
    }
  }

  /** `packRecipe.findMany({ where: { active: true } })` in storage order. */
  function ActiveRecipes(recipes: seq<PackRecipe>): (r: seq<PackRecipe>)
    ensures forall i | 0 <= i < |r| :: r[i].active && r[i] in recipes
    ensures forall x | x in recipes && x.active :: x in r
  {
    if recipes == [] then []
    else (if recipes[0].active then [recipes[0]] else []) + ActiveRecipes(recipes[1..])
  }

  datatype VariantItem = VariantItem(flavorId: FlavorId, flavorName: string, qty: int)

  datatype Variant = Variant(id: RecipeId, title: string, kind: string, items: seq<VariantItem>, active: bool, sku: string)

  /** The body of `getThreePackProduct`; `price` is in cents. */
  datatype ThreePackProduct = ThreePackProduct(
    id: ProductId, title: string, price: int, currency: string, taxCode: string, optionsUi: string,
    variants: seq<Variant>)

  function ToVariant(flavors: seq<Flavor>, rc: PackRecipe): Variant {
    Variant(rc.id, rc.title, rc.kind,
            seq(|rc.items|, i requires 0 <= i < |rc.items| => VariantItem(rc.items[i].flavorId, FlavorName(flavors, rc.items[i].flavorId), rc.items[i].quantity)),
            rc.active, GenerateSku(rc.kind, ThreePackCart.SkuItems(flavors, rc.items)))
  }

  /** `getThreePackProduct`: `None` is the 404 for a missing "3-pack" product. */
  function GetThreePackProduct(products: map<ProductId, Product>, recipes: seq<PackRecipe>, flavors: seq<Flavor>)
    : Option<ThreePackProduct>
  {
    if ThreePackCart.ThreePackId !in products then None
    else
      var p := products[ThreePackCart.ThreePackId];
      var sorted := SortByKey(ActiveRecipes(recipes));
      Some(ThreePackProduct(p.id, p.name, p.price, "USD", "candy", "cards",
                            seq(|sorted|, i requires 0 <= i < |sorted| => ToVariant(flavors, sorted[i]))))
  }

  /** The sorted selection holds exactly the active recipes, each as often as stored, in (kind, title) order. */
  lemma SortedActiveRecipes(recipes: seq<PackRecipe>)
    ensures var sorted := SortByKey(ActiveRecipes(recipes));
            && multiset(sorted) == multiset(ActiveRecipes(recipes))
            && SortedByKey(sorted)
            && (forall x | x in recipes && x.active :: x in sorted)
            && (forall x | x in sorted :: x in recipes && x.active)
  {
    var active := ActiveRecipes(recipes);
    var sorted := SortByKey(active);
    SortByKeyCorrect(active);
    forall x | x in recipes && x.active
      ensures x in sorted
    {
      assert x in multiset(active);
    }
    forall x | x in sorted
      ensures x in recipes && x.active
    {
      assert x in multiset(active);
    }
  }

  /**
   * `getThreePackProduct` answers 404 exactly when the "3-pack" product is missing;
   * otherwise its variants are the sorted active recipes, one each, in that order, each
   * active and carrying the SKU of its kind and items.
   */
  lemma VariantsAreActiveSorted(products: map<ProductId, Product>, recipes: seq<PackRecipe>, flavors: seq<Flavor>)
    ensures GetThreePackProduct(products, recipes, flavors).None? <==> ThreePackCart.ThreePackId !in products
    ensures GetThreePackProduct(products, recipes, flavors).Some? ==>
              var vs := GetThreePackProduct(products, recipes, flavors).value.variants;
              var sorted := SortByKey(ActiveRecipes(recipes));
              && |vs| == |sorted|
              && forall i | 0 <= i < |vs| ::
                   && vs[i].active && vs[i].id == sorted[i].id && vs[i].kind == sorted[i].kind && vs[i].title == sorted[i].title
                   && vs[i].sku == GenerateSku(sorted[i].kind, ThreePackCart.SkuItems(flavors, sorted[i].items))
  {
    var sorted := SortByKey(ActiveRecipes(recipes));
    SortedActiveRecipes(recipes);
    forall i | 0 <= i < |sorted|
      ensures sorted[i].active
    {
      assert sorted[i] in sorted;
    }
  }

  // ---------------------------------------------------- flavor registry

  datatype FlavorError =
    | NameRequired
    | NameTaken
    | InUse
      /** A failed database write (missing id, unique violation), answered by the catch-all. */
    | Internal

  function FlavorStatus(e: FlavorError): int {
    match e
    case Internal => 500
    case _ => 400
  }

  /** `aliases` as sent: absent, an array, or some other value. */
  datatype AliasField = AliasesAbsent | AliasList(list: seq<string>) | AliasesNotList

  /** `Array.isArray(aliases) ? aliases : []`. */
  function AliasesOrEmpty(a: AliasField): seq<string> {
    match a
    case AliasList(l) => l
    case _ => []
  }

  /** `flavor.findUnique({ where: { name } })`, as a position. */
  function FindFlavorByName(flavors: seq<Flavor>, name: string): (r: Option<nat>)
    ensures r.Some? ==> r.value < |flavors| && flavors[r.value].name == name
    ensures r.None? <==> forall i | 0 <= i < |flavors| :: flavors[i].name != name
  {
    if flavors == [] then None
    else if flavors[0].name == name then Some(0)
    else
      match FindFlavorByName(flavors[1..], name)
      case None => None
      case Some(k) => Some(k + 1)
  }

  /**
   * The flavor `createFlavor` stores, or its error: the name is required after
   * trimming and must not exist yet; aliases default to `[]`, `active` to true.
   * `newId` is the id the database generates; a clash is a failed write.
   */
  function NewFlavor(flavors: seq<Flavor>, name: Option<string>, aliases: AliasField, active: Option<bool>, newId: FlavorId)
    : Result<Flavor, FlavorError>
  {
    if name.None? || Trim(name.value) == "" then Err(NameRequired)
    else if FindFlavorByName(flavors, Trim(name.value)).Some? then Err(NameTaken)
    else if FlavorIndex(flavors, newId).Some? then Err(Internal)
    else Ok(Flavor(newId, Trim(name.value), AliasesOrEmpty(aliases), active.GetOr(true)))
  }

  /**
   * What `createFlavor` promises: a blank or absent name is the only reason for
   * "name is required"; a created flavor has the trimmed, non-blank name that no
   * flavor had, and takes the aliases only when they are an array.
   */
  lemma NewFlavorLaw(flavors: seq<Flavor>, name: Option<string>, aliases: AliasField, active: Option<bool>, newId: FlavorId)
    ensures NewFlavor(flavors, name, aliases, active, newId) == Err(NameRequired) <==> name.None? || IsBlank(name.value)
    ensures NewFlavor(flavors, name, aliases, active, newId).Ok? ==>
              var f := NewFlavor(flavors, name, aliases, active, newId).value;
              && name.Some? && f.name == Trim(name.value) && f.name != []
              && !IsJsWhitespace(f.name[0]) && !IsJsWhitespace(f.name[|f.name| - 1])
              && (forall i | 0 <= i < |flavors| :: flavors[i].name != f.name && flavors[i].id != f.id)
              && f.aliases == (if aliases.AliasList? then aliases.list else [])
              && f.active == (active != Some(false))
    ensures name.Some? && !IsBlank(name.value) && FindFlavorByName(flavors, Trim(name.value)).Some? ==>
              NewFlavor(flavors, name, aliases, active, newId) == Err(NameTaken)
  {
    if name.Some? {
      TrimEmptyIffBlank(name.value);
      var t := Trim(name.value);
      if t != "" && FindFlavorByName(flavors, t).None? && FlavorIndex(flavors, newId).None? {
        NewFlavorCreated(flavors, name.value, aliases, active, newId);
      }
    }
  }

  /** The flavor `createFlavor` makes once the checks pass: trimmed, unused name and id. */
  lemma NewFlavorCreated(flavors: seq<Flavor>, name: string, aliases: AliasField, active: Option<bool>, newId: FlavorId)
    requires Trim(name) != [] && FindFlavorByName(flavors, Trim(name)).None? && FlavorIndex(flavors, newId).None?
    ensures NewFlavor(flavors, Some(name), aliases, active, newId).Ok?
    ensures var f := NewFlavor(flavors, Some(name), aliases, active, newId).value;
            && f.name == Trim(name) && f.name != []
            && !IsJsWhitespace(f.name[0]) && !IsJsWhitespace(f.name[|f.name| - 1])
            && (forall i | 0 <= i < |flavors| :: flavors[i].name != f.name && flavors[i].id != f.id)
            && f.aliases == (if aliases.AliasList? then aliases.list else [])
            && f.active == (active != Some(false))
  {
    TrimEnds(name);
    assert NewFlavor(flavors, Some(name), aliases, active, newId) == Ok(Flavor(newId, Trim(name), AliasesOrEmpty(aliases), active.GetOr(true)));
  }

  /** Appending a flavor whose id and name are both new keeps both keys unique. */
  lemma AppendKeepsUnique(flavors: seq<Flavor>, f: Flavor)
    requires FlavorIdsUnique(flavors) && FlavorNamesUnique(flavors)
    requires forall i | 0 <= i < |flavors| :: flavors[i].name != f.name && flavors[i].id != f.id
    ensures FlavorIdsUnique(flavors + [f]) && FlavorNamesUnique(flavors + [f])
  {
  }

  /** Replacing a row by one with the same id and a name no other row has keeps both keys unique. */
  lemma ReplaceKeepsUnique(flavors: seq<Flavor>, i: nat, g: Flavor)
    requires FlavorIdsUnique(flavors) && FlavorNamesUnique(flavors)
    requires i < |flavors| && g.id == flavors[i].id
    requires forall j | 0 <= j < |flavors| && j != i :: flavors[j].name != g.name
    ensures FlavorIdsUnique(flavors[i := g]) && FlavorNamesUnique(flavors[i := g])
  {
  }

  /** `createFlavor`: append the new flavor, or change nothing. */
  method CreateFlavor(db: Store, name: Option<string>, aliases: AliasField, active: Option<bool>, newId: FlavorId)
    returns (r: Result<Flavor, FlavorError>)
    requires db.Valid()
    modifies db`flavors
    ensures db.Valid()
    ensures r == NewFlavor(old(db.flavors), name, aliases, active, newId)
    ensures r.Ok? ==> db.flavors == old(db.flavors) + [r.value]
    ensures r.Err? ==> db.flavors == old(db.flavors)
  {
    if name.None? || Trim(name.value) == "" {
      return Err(NameRequired);
    }
    var trimmed := Trim(name.value);
    if FindFlavorByName(db.flavors, trimmed).Some? {
      return Err(NameTaken);
    }
    if FlavorIndex(db.flavors, newId).Some? {
      return Err(Internal);
    }
    var flavor := Flavor(newId, trimmed, AliasesOrEmpty(aliases), active.GetOr(true));
    AppendKeepsUnique(db.flavors, flavor);
    db.flavors := db.flavors + [flavor];
    return Ok(flavor);
  }

  /** The update data of `updateFlavor` applied to a row: only supplied fields change. */
  function PatchFlavor(f: Flavor, name: Option<string>, aliases: AliasField, active: Option<bool>): (g: Flavor)
    ensures g.id == f.id
    ensures g.name == (if name.Some? then Trim(name.value) else f.name)
    ensures g.aliases == (if aliases.AliasesAbsent? then f.aliases else AliasesOrEmpty(aliases))
    ensures g.active == active.GetOr(f.active)
  {
    f.(name := if name.Some? then Trim(name.value) else f.name,
       aliases := if aliases.AliasesAbsent? then f.aliases else AliasesOrEmpty(aliases),
       active := active.GetOr(f.active))
  }

  /** Nothing supplied, nothing changed. */
  lemma PatchNothing(f: Flavor)
    ensures PatchFlavor(f, None, AliasesAbsent, None) == f
  {
  }

  /** The outcome of `updateFlavor`: the patched row, or a failed write for a missing id or a taken name. */
  function UpdatedFlavor(flavors: seq<Flavor>, id: FlavorId, name: Option<string>, aliases: AliasField, active: Option<bool>)
    : Result<(nat, Flavor), FlavorError>
  {
    match FlavorIndex(flavors, id)
    case None => Err(Internal)
    case Some(i) =>
      var g := PatchFlavor(flavors[i], name, aliases, active);
      if exists j | 0 <= j < |flavors| && j != i :: flavors[j].name == g.name then Err(Internal)
      else Ok((i, g))
  }

  /**
   * The update fails exactly when no row has the id or another row already has the
   * patched name; otherwise it names that row and its patched value.
   */
  lemma UpdatedFlavorLaw(flavors: seq<Flavor>, id: FlavorId, name: Option<string>, aliases: AliasField, active: Option<bool>)
    requires FlavorIdsUnique(flavors)
    ensures var u := UpdatedFlavor(flavors, id, name, aliases, active);
            && (u.Ok? ==>
                  && u.value.0 < |flavors| && flavors[u.value.0].id == id
                  && u.value.1 == PatchFlavor(flavors[u.value.0], name, aliases, active)
                  && forall j | 0 <= j < |flavors| && j != u.value.0 :: flavors[j].name != u.value.1.name)
            && (u.Err? <==>
                  || (forall k | 0 <= k < |flavors| :: flavors[k].id != id)
                  || exists k, j | 0 <= k < |flavors| && 0 <= j < |flavors| && j != k && flavors[k].id == id ::
                       flavors[j].name == PatchFlavor(flavors[k], name, aliases, active).name)
  {
    var u := UpdatedFlavor(flavors, id, name, aliases, active);
    var at := FlavorIndex(flavors, id);
    if at.Some? {
      var i := at.value;
      if u.Err? {
        var j :| 0 <= j < |flavors| && j != i && flavors[j].name == PatchFlavor(flavors[i], name, aliases, active).name;
        assert flavors[i].id == id;
      } else {
        forall k, j | 0 <= k < |flavors| && 0 <= j < |flavors| && j != k && flavors[k].id == id
          ensures flavors[j].name != PatchFlavor(flavors[k], name, aliases, active).name
        {
          assert k == i;
        }
      }
    }
  }

  /** `updateFlavor`: replace the row in place, or change nothing. */
  method UpdateFlavor(db: Store, id: FlavorId, name: Option<string>, aliases: AliasField, active: Option<bool>)
    returns (r: Result<Flavor, FlavorError>)
    requires db.Valid()
    modifies db`flavors
    ensures db.Valid()
    ensures var u := UpdatedFlavor(old(db.flavors), id, name, aliases, active);
            && (u.Err? ==> r == Err(u.error) && db.flavors == old(db.flavors))
            && (u.Ok? ==> r == Ok(u.value.1) && db.flavors == old(db.flavors)[u.value.0 := u.value.1])
  {
    var u := UpdatedFlavor(db.flavors, id, name, aliases, active);
    if u.Err? {
      return Err(u.error);
    }
    var (i, g) := u.value;
    UpdatedFlavorLaw(db.flavors, id, name, aliases, active);
    ReplaceKeepsUnique(db.flavors, i, g);
    db.flavors := db.flavors[i := g];
    return Ok(g);
  }

  /** A product-flavor link or a recipe item refers to the flavor. */
  predicate FlavorInUse(links: map<(ProductId, FlavorId), int>, recipes: seq<PackRecipe>, id: FlavorId) {
    (exists k | k in links :: k.1 == id)
    || (exists i, k | 0 <= i < |recipes| && 0 <= k < |recipes[i].items| :: recipes[i].items[k].flavorId == id)
  }

  /** The flavor table without the flavor `id`, others in order. */
  function RemoveFlavor(flavors: seq<Flavor>, id: FlavorId): (r: seq<Flavor>)
    ensures forall i | 0 <= i < |r| :: r[i] in flavors && r[i].id != id
    ensures forall g | g in flavors && g.id != id :: g in r
    ensures |r| <= |flavors|
  {
    if flavors == [] then []
    else (if flavors[0].id != id then [flavors[0]] else []) + RemoveFlavor(flavors[1..], id)
  }

  lemma {:induction false} RemoveFlavorKeepsUnique(flavors: seq<Flavor>, id: FlavorId)
    requires FlavorIdsUnique(flavors) && FlavorNamesUnique(flavors)
    ensures FlavorIdsUnique(RemoveFlavor(flavors, id)) && FlavorNamesUnique(RemoveFlavor(flavors, id))
  {
    if flavors != [] {
      RemoveFlavorKeepsUnique(flavors[1..], id);
      var rest := RemoveFlavor(flavors[1..], id);
      if flavors[0].id != id {
        forall i | 0 <= i < |rest|
          ensures rest[i].id != flavors[0].id && rest[i].name != flavors[0].name
        {
          var j :| 0 <= j < |flavors[1..]| && flavors[1..][j] == rest[i];
          assert flavors[j + 1] == rest[i];
        }
        ConsKeepsUnique(flavors[0], rest);
      }
    }
  }

  /** A first row whose id and name no later row has keeps both keys unique. */
  lemma ConsKeepsUnique(g: Flavor, rest: seq<Flavor>)
    requires FlavorIdsUnique(rest) && FlavorNamesUnique(rest)
    requires forall i | 0 <= i < |rest| :: rest[i].id != g.id && rest[i].name != g.name
    ensures FlavorIdsUnique([g] + rest) && FlavorNamesUnique([g] + rest)
  {
  }

  /**
   * `deleteFlavor`: refused while anything refers to the flavor; deleting a missing
   * id is a failed write; otherwise exactly that flavor leaves the table.
   */
  method DeleteFlavor(db: Store, id: FlavorId) returns (r: Result<(), FlavorError>)
    requires db.Valid()
    modifies db`flavors
    ensures db.Valid()
    ensures FlavorInUse(db.productFlavors, db.recipes, id) ==> r == Err(InUse) && db.flavors == old(db.flavors)
    ensures !FlavorInUse(db.productFlavors, db.recipes, id) && FlavorIndex(old(db.flavors), id).None? ==>
              r == Err(Internal) && db.flavors == old(db.flavors)
    ensures !FlavorInUse(db.productFlavors, db.recipes, id) && FlavorIndex(old(db.flavors), id).Some? ==>
              r == Ok(()) && db.flavors == RemoveFlavor(old(db.flavors), id)
  {
    if FlavorInUse(db.productFlavors, db.recipes, id) {
      return Err(InUse);
    }
    if FlavorIndex(db.flavors, id).None? {
      return Err(Internal);
    }
    RemoveFlavorKeepsUnique(db.flavors, id);
    db.flavors := RemoveFlavor(db.flavors, id);
    return Ok(());
  }
}
