/**
 * The product catalogue's admin operations: resolving a flavor by name or alias,
 * the product-flavor links written by `createProduct` and `updateProduct`, the
 * admin guard, and the listing's page arithmetic.
 */
module Products {
  import opened Wrappers
  import opened Text
  import opened Tables

  // ------------------------------------------------------- flavor lookup

  /** A flavor answers to a candidate by its name, ignoring case, or by one of its aliases exactly. */
  predicate Matches(f: Flavor, candidate: string) {
    EqualsIgnoreCase(f.name, candidate) || candidate in f.aliases
  }

  /** `findFirst` over the flavor table, in storage order. */
  function FirstMatch(flavors: seq<Flavor>, candidate: string): (r: Option<nat>)
    ensures r.Some? ==> r.value < |flavors| && Matches(flavors[r.value], candidate)
                        && forall j | 0 <= j < r.value :: !Matches(flavors[j], candidate)
    ensures r.None? <==> forall j | 0 <= j < |flavors| :: !Matches(flavors[j], candidate)
  {
    if flavors == [] then None
    else if Matches(flavors[0], candidate) then Some(0)
    else
      match FirstMatch(flavors[1..], candidate)
      case None => None
      case Some(k) => Some(k + 1)
  }

  /**
   * `resolveFlavorByNameOrAlias`: nothing for a blank name; otherwise the first flavor
   * that answers to the trimmed name.
   */
  function ResolveFlavor(flavors: seq<Flavor>, nameLike: string): (r: Option<Flavor>)
    ensures r.Some? ==> r.value in flavors
  {
    var candidate := Trim(nameLike);
    if candidate == [] then None
    else
      match FirstMatch(flavors, candidate)
      case None => None
      case Some(k) => Some(flavors[k])
  }

  /**
   * A blank name resolves to nothing; a flavor found answers to the trimmed name and
   * no earlier flavor does; nothing is found only when no flavor answers.
   */
  lemma ResolveFlavorLaw(flavors: seq<Flavor>, nameLike: string)
    ensures IsBlank(nameLike) ==> ResolveFlavor(flavors, nameLike).None?
    ensures ResolveFlavor(flavors, nameLike).Some? ==>
              exists k | 0 <= k < |flavors| :: flavors[k] == ResolveFlavor(flavors, nameLike).value
                && Matches(flavors[k], Trim(nameLike)) && forall j | 0 <= j < k :: !Matches(flavors[j], Trim(nameLike))
    ensures !IsBlank(nameLike) && (exists i | 0 <= i < |flavors| :: Matches(flavors[i], Trim(nameLike))) ==>
              ResolveFlavor(flavors, nameLike).Some?
  {
    TrimEmptyIffBlank(nameLike);
    if ResolveFlavor(flavors, nameLike).Some? {
      var k := FirstMatch(flavors, Trim(nameLike)).value;
      assert flavors[k] == ResolveFlavor(flavors, nameLike).value;
    }
  }

  /** The handlers trim a name before resolving it; trimming again changes nothing. */
  lemma ResolveTrimmed(flavors: seq<Flavor>, nameLike: string)
    ensures ResolveFlavor(flavors, Trim(nameLike)) == ResolveFlavor(flavors, nameLike)
  {
    TrimIdempotent(nameLike);
  }

  // --------------------------------------------------------- flavor links

  /** A link entry's `quantity`: absent or null, a finite number, or a value `Number` makes non-finite. */
  datatype QuantityField = QuantityAbsent | QuantityNumber(n: int) | QuantityNotFinite

  /** An entry of `flavors`; a missing or falsy name is `""` (other coercions of `String(...)` are left out). */
  datatype FlavorEntry = FlavorEntry(name: string, quantity: QuantityField)

  /**
   * `flavors` as sent: absent; text that does not parse, or parses to a falsy value;
   * a truthy value that is not an array; or an array of entries.
   */
  datatype FlavorsField = FlavorsAbsent | FlavorsUnparseable | FlavorsNotList | FlavorsGiven(entries: seq<FlavorEntry>)

  /** A link quantity is the given positive number, and 1 otherwise. */
  function LinkQuantity(q: QuantityField): (r: int)
    ensures r >= 1
    ensures q.QuantityNumber? && q.n > 0 ==> r == q.n
    ensures !(q.QuantityNumber? && q.n > 0) ==> r == 1
  {
    match q
    case QuantityNumber(n) => if n > 0 then n else 1
    case _ => 1
  }

  /** The link an entry asks for, or nothing when its name is blank or resolves to no flavor. */
  function ResolveEntry(flavors: seq<Flavor>, e: FlavorEntry): (r: Option<(FlavorId, int)>)
    ensures r.Some? ==> r.value.1 >= 1
  {
    var name := Trim(e.name);
    if name == [] then None
    else
      match ResolveFlavor(flavors, name)
      case None => None
      case Some(f) => Some((f.id, LinkQuantity(e.quantity)))
  }

  /**
   * An entry is skipped exactly when its name is blank or resolves to no flavor;
   * otherwise it links the resolved flavor with its normalised quantity.
   */
  lemma ResolveEntryLaw(flavors: seq<Flavor>, e: FlavorEntry)
    ensures ResolveEntry(flavors, e).None? <==> IsBlank(e.name) || ResolveFlavor(flavors, e.name).None?
    ensures ResolveEntry(flavors, e).Some? ==>
              ResolveEntry(flavors, e).value == (ResolveFlavor(flavors, e.name).value.id, LinkQuantity(e.quantity))
  {
    TrimEmptyIffBlank(e.name);
    ResolveTrimmed(flavors, e.name);
  }

  /** The lookup of each entry, position by position. */
  function Lookups(flavors: seq<Flavor>, es: seq<FlavorEntry>): (r: seq<Option<(FlavorId, int)>>)
    ensures |r| == |es| && forall i | 0 <= i < |es| :: r[i] == ResolveEntry(flavors, es[i])
  {
    seq(|es|, i requires 0 <= i < |es| => ResolveEntry(flavors, es[i]))
  }

  /** The links found, in order; entries that found nothing are dropped. */
  function Links(os: seq<Option<(FlavorId, int)>>): (r: seq<(FlavorId, int)>)
    ensures |r| <= |os|
  {
    if os == [] then []
    else Links(os[..|os| - 1]) + (if os[|os| - 1].Some? then [os[|os| - 1].value] else [])
  }

  /** The links the entries ask for, in order. */
  function Resolved(flavors: seq<Flavor>, es: seq<FlavorEntry>): seq<(FlavorId, int)> {
    Links(Lookups(flavors, es))
  }

  lemma LinksSnoc(os: seq<Option<(FlavorId, int)>>, i: nat)
    requires i < |os|
    ensures os[i].Some? ==> Links(os[..i + 1]) == Links(os[..i]) + [os[i].value]
    ensures os[i].None? ==> Links(os[..i + 1]) == Links(os[..i])
  {
    assert os[..i + 1][..i] == os[..i];
    assert Links(os[..i]) + [] == Links(os[..i]);
  }

  /** Every link found is kept, and nothing else is. */
  lemma {:induction false} LinksLaw(os: seq<Option<(FlavorId, int)>>)
    ensures forall i | 0 <= i < |os| && os[i].Some? :: os[i].value in Links(os)
    ensures forall x | x in Links(os) :: Some(x) in os
  {
    if os != [] {
      var init := os[..|os| - 1];
      LinksLaw(init);
      assert forall i | 0 <= i < |init| :: init[i] == os[i];
      assert forall o | o in init :: o in os;
    }
  }

  /** The links of a longer lookup list extend those of its prefix. */
  lemma {:induction false} LinksPrefix(os: seq<Option<(FlavorId, int)>>, k: nat)
    requires k <= |os|
    ensures Links(os[..k]) <= Links(os)
    decreases |os| - k
  {
    if k < |os| {
      assert os[..k + 1][..k] == os[..k];
      LinksPrefix(os, k + 1);
    } else {
      assert os[..k] == os;
    }
  }

  /**
   * Every entry that resolves gives a link, and every link comes from an entry
   * that resolves: skipped entries leave no trace and abort nothing.
   */
  lemma ResolvedLaw(flavors: seq<Flavor>, es: seq<FlavorEntry>)
    ensures forall i | 0 <= i < |es| && ResolveEntry(flavors, es[i]).Some? :: ResolveEntry(flavors, es[i]).value in Resolved(flavors, es)
    ensures forall x | x in Resolved(flavors, es) :: exists i | 0 <= i < |es| :: ResolveEntry(flavors, es[i]) == Some(x)
  {
    var os := Lookups(flavors, es);
    LinksLaw(os);
    forall x | x in Resolved(flavors, es)
      ensures exists i | 0 <= i < |es| :: ResolveEntry(flavors, es[i]) == Some(x)
    {
      var i :| 0 <= i < |os| && os[i] == Some(x);
    }
  }

  /** `upsert` on `(product, flavor)` for each link in turn. */
  function Upserts(links: map<(ProductId, FlavorId), int>, pid: ProductId, rs: seq<(FlavorId, int)>)
    : (r: map<(ProductId, FlavorId), int>)
    ensures links.Keys <= r.Keys
    decreases |rs|
  {
    if rs == [] then links
    else Upserts(links, pid, rs[..|rs| - 1])[(pid, rs[|rs| - 1].0) := rs[|rs| - 1].1]
  }

  lemma UpsertsSnoc(links: map<(ProductId, FlavorId), int>, pid: ProductId, rs: seq<(FlavorId, int)>, x: (FlavorId, int))
    ensures Upserts(links, pid, rs + [x]) == Upserts(links, pid, rs)[(pid, x.0) := x.1]
  {
    assert (rs + [x])[..|rs|] == rs;
  }

  /** The upserts add exactly one key per flavor named, under product `pid`. */
  lemma {:induction false} UpsertsKeys(links: map<(ProductId, FlavorId), int>, pid: ProductId, rs: seq<(FlavorId, int)>, k: (ProductId, FlavorId))
    ensures k in Upserts(links, pid, rs) <==> k in links || (k.0 == pid && exists j | 0 <= j < |rs| :: rs[j].0 == k.1)
    decreases |rs|
  {
    if rs != [] {
      var init := rs[..|rs| - 1];
      UpsertsKeys(links, pid, init, k);
      assert forall j | 0 <= j < |init| :: init[j] == rs[j];
    }
  }

  /** The last link for a flavor wins: later entries for the same flavor overwrite its quantity. */
  lemma {:induction false} UpsertsLastWins(links: map<(ProductId, FlavorId), int>, pid: ProductId, rs: seq<(FlavorId, int)>, i: nat)
    requires i < |rs| && forall j | i < j < |rs| :: rs[j].0 != rs[i].0
    ensures (pid, rs[i].0) in Upserts(links, pid, rs) && Upserts(links, pid, rs)[(pid, rs[i].0)] == rs[i].1
    decreases |rs|
  {
    if i < |rs| - 1 {
      var init := rs[..|rs| - 1];
      assert forall j | i < j < |init| :: init[j] == rs[j];
      UpsertsLastWins(links, pid, init, i);
    }
  }

  /** A link of another product, or of a flavor no entry names, is left as it was. */
  lemma {:induction false} UpsertsElsewhere(links: map<(ProductId, FlavorId), int>, pid: ProductId, rs: seq<(FlavorId, int)>, k: (ProductId, FlavorId))
    requires k in links && (k.0 != pid || forall j | 0 <= j < |rs| :: rs[j].0 != k.1)
    ensures k in Upserts(links, pid, rs) && Upserts(links, pid, rs)[k] == links[k]
    decreases |rs|
  {
    if rs != [] {
      UpsertsElsewhere(links, pid, rs[..|rs| - 1], k);
    }
  }

  /** No two links name the same flavor. */
  predicate DistinctFlavors(rs: seq<(FlavorId, int)>) {
    forall i, j | 0 <= i < j < |rs| :: rs[i].0 != rs[j].0
  }

  /** All links of product `pid` removed (`deleteMany`). */
  function WithoutProduct(links: map<(ProductId, FlavorId), int>, pid: ProductId): (r: map<(ProductId, FlavorId), int>)
    ensures forall k | k in r :: k.0 != pid
    ensures forall k | k in links && k.0 != pid :: k in r && r[k] == links[k]
    ensures r.Keys <= links.Keys
  {
    map k | k in links && k.0 != pid :: links[k]
  }

  // --------------------------------------------------------------- create

  datatype ProductError = BodyRequired | FieldsMissing | AdminRequired | Internal

  function ProductStatus(e: ProductError): int {
    match e
    case BodyRequired => 400
    case FieldsMissing => 400
    case AdminRequired => 403
    case Internal => 500
  }

  /** A create request; `""` and `0` are the falsy values the field check rejects. Prices are in cents. */
  datatype CreateBody = CreateBody(name: string, description: string, price: int, stock: int, category: string, flavors: FlavorsField)

  predicate FieldsAbsent(b: CreateBody) {
    b.name == "" || b.price == 0 || b.stock == 0 || b.category == ""
  }

  /** The entries `createProduct` links: only an array contributes; unparseable input counts as none. */
  function CreateEntries(f: FlavorsField): seq<FlavorEntry> {
    if f.FlavorsGiven? then f.entries else []
  }

  function NewProduct(id: ProductId, sku: string, b: CreateBody): Product {
    Product(id, b.name, b.description, b.price, b.stock, b.category, sku, true)
  }

  /** The link loop of `createProduct`: one upsert per entry that resolves. */
  method UpsertLinks(db: Store, pid: ProductId, es: seq<FlavorEntry>)
    modifies db`productFlavors
    ensures db.productFlavors == Upserts(old(db.productFlavors), pid, Resolved(db.flavors, es))
  {
    ghost var os := Lookups(db.flavors, es);
    var i := 0;
    while i < |es|
      invariant 0 <= i <= |es|
      invariant db.productFlavors == Upserts(old(db.productFlavors), pid, Links(os[..i]))
    {
      LinksSnoc(os, i);
      var link := ResolveEntry(db.flavors, es[i]);
      assert link == os[i];
      if link.Some? {
        UpsertsSnoc(old(db.productFlavors), pid, Links(os[..i]), link.value);
        db.productFlavors := db.productFlavors[(pid, link.value.0) := link.value.1];
      }
      i := i + 1;
    }
    assert os[..|es|] == os;
  }

  /**
   * `createProduct`: the body check, the field check and the admin guard, in that
   * order, change nothing; otherwise the product is stored and every entry that
   * resolves is upserted as a link, the last entry for a flavor winning. The id and
   * the generated SKU are supplied by the caller; an id already taken fails the write.
   */
  method CreateProduct(db: Store, body: Option<CreateBody>, isAdmin: bool, newId: ProductId, sku: string)
    returns (r: Result<Product, ProductError>)
    modifies db`products, db`productFlavors
    ensures body.None? ==> r == Err(BodyRequired)
    ensures body.Some? && FieldsAbsent(body.value) ==> r == Err(FieldsMissing)
    ensures body.Some? && !FieldsAbsent(body.value) && !isAdmin ==> r == Err(AdminRequired)
    ensures body.Some? && !FieldsAbsent(body.value) && isAdmin && newId in old(db.products) ==> r == Err(Internal)
    ensures r.Err? ==> db.products == old(db.products) && db.productFlavors == old(db.productFlavors)
    ensures body.Some? && !FieldsAbsent(body.value) && isAdmin && newId !in old(db.products) ==>
              && r == Ok(NewProduct(newId, sku, body.value))
              && db.products == old(db.products)[newId := r.value]
              && db.productFlavors == Upserts(old(db.productFlavors), newId, Resolved(db.flavors, CreateEntries(body.value.flavors)))
  {
    if body.None? {
      return Err(BodyRequired);
    }
    var b := body.value;
    if FieldsAbsent(b) {
      return Err(FieldsMissing);
    }
    if !isAdmin {
      return Err(AdminRequired);
    }
    if newId in db.products {
      return Err(Internal);
    }
    var product := NewProduct(newId, sku, b);
    db.products := db.products[newId := product];
    UpsertLinks(db, newId, CreateEntries(b.flavors));
    return Ok(product);
  }

  /**
   * What `createProduct` leaves in the links of the new product: for each flavor,
   * the quantity of the last entry that resolved to it; flavors no entry resolved to
   * and other products keep their links.
   */
  lemma CreateLinksLaw(links: map<(ProductId, FlavorId), int>, pid: ProductId, flavors: seq<Flavor>, es: seq<FlavorEntry>, i: nat)
    requires var rs := Resolved(flavors, es);
             i < |rs| && forall j | i < j < |rs| :: rs[j].0 != rs[i].0
    ensures var rs := Resolved(flavors, es);
            && (pid, rs[i].0) in Upserts(links, pid, rs) && Upserts(links, pid, rs)[(pid, rs[i].0)] == rs[i].1
            && rs[i].1 >= 1
            && exists e | 0 <= e < |es| :: ResolveEntry(flavors, es[e]) == Some(rs[i])
  {
    var rs := Resolved(flavors, es);
    UpsertsLastWins(links, pid, rs, i);
    ResolvedLaw(flavors, es);
    assert rs[i] in rs;
  }

  /**
   * A product with no links before `createProduct` ends with a link for exactly the
   * flavors some entry resolved to, and for no other flavor.
   */
  lemma CreateLinksExactly(links: map<(ProductId, FlavorId), int>, pid: ProductId, flavors: seq<Flavor>, es: seq<FlavorEntry>, fid: FlavorId)
    ensures (forall k | k in links :: k.0 != pid) ==>
              ((pid, fid) in Upserts(links, pid, Resolved(flavors, es)) <==>
                 exists e | 0 <= e < |es| :: ResolveEntry(flavors, es[e]).Some? && ResolveEntry(flavors, es[e]).value.0 == fid)
  {
    var rs := Resolved(flavors, es);
    if forall k | k in links :: k.0 != pid {
      UpsertsKeys(links, pid, rs, (pid, fid));
      assert (pid, fid) !in links;
      if (pid, fid) in Upserts(links, pid, rs) {
        var j :| 0 <= j < |rs| && rs[j].0 == fid;
        ResolvedFrom(flavors, es, rs[j]);
      } else {
        forall e | 0 <= e < |es| && ResolveEntry(flavors, es[e]).Some?
          ensures ResolveEntry(flavors, es[e]).value.0 != fid
        {
          ResolvedTo(flavors, es, e);
        }
      }
    }
  }

  /** A link in `Resolved` comes from some entry. */
  lemma ResolvedFrom(flavors: seq<Flavor>, es: seq<FlavorEntry>, x: (FlavorId, int))
    requires x in Resolved(flavors, es)
    ensures exists e | 0 <= e < |es| :: ResolveEntry(flavors, es[e]) == Some(x)
  {
    ResolvedLaw(flavors, es);
  }

  /** An entry that resolves contributes its link to `Resolved`. */
  lemma ResolvedTo(flavors: seq<Flavor>, es: seq<FlavorEntry>, e: nat)
    requires e < |es| && ResolveEntry(flavors, es[e]).Some?
    ensures exists j | 0 <= j < |Resolved(flavors, es)| :: Resolved(flavors, es)[j] == ResolveEntry(flavors, es[e]).value
  {
    ResolvedLaw(flavors, es);
  }

  // --------------------------------------------------------------- update

  /** An update request: `None`, `""`-price and 0-stock leave the field as it was. */
  datatype UpdateBody = UpdateBody(
    name: Option<string>, description: Option<string>, price: int, stock: int,
    category: Option<string>, isActive: Option<bool>, flavors: FlavorsField)

  /** The product after an update: each supplied field takes its new value. */
  function Patched(p: Product, b: UpdateBody): (r: Product)
    ensures r.id == p.id && r.sku == p.sku
  {
    p.(name := b.name.GetOr(p.name),
       description := b.description.GetOr(p.description),
       price := if b.price != 0 then b.price else p.price,
       stock := if b.stock != 0 then b.stock else p.stock,
       category := b.category.GetOr(p.category),
       isActive := b.isActive.GetOr(p.isActive))
  }

  /** Updating with the same body twice is the same as once, and an empty body changes nothing. */
  lemma PatchedLaw(p: Product, b: UpdateBody)
    ensures Patched(Patched(p, b), b) == Patched(p, b)
    ensures b.name.None? && b.description.None? && b.price == 0 && b.stock == 0 && b.category.None? && b.isActive.None? ==>
              Patched(p, b) == p
    ensures b.name.Some? ==> Patched(p, b).name == b.name.value
    ensures b.isActive.Some? ==> Patched(p, b).isActive == b.isActive.value
    ensures b.stock != 0 ==> Patched(p, b).stock == b.stock
    ensures b.stock == 0 ==> Patched(p, b).stock == p.stock
    ensures b.price != 0 ==> Patched(p, b).price == b.price
    ensures b.price == 0 ==> Patched(p, b).price == p.price
    ensures b.description.Some? ==> Patched(p, b).description == b.description.value
    ensures b.category.Some? ==> Patched(p, b).category == b.category.value
    ensures b.name.None? ==> Patched(p, b).name == p.name
    ensures b.description.None? ==> Patched(p, b).description == p.description
    ensures b.category.None? ==> Patched(p, b).category == p.category
    ensures b.isActive.None? ==> Patched(p, b).isActive == p.isActive
  {
  }

  /**
   * The links after an update: absent or unparseable flavors leave them untouched; an
   * array replaces all links of the product by the entries that resolve; a non-array
   * fails, and so does a second entry for the same flavor, whose `create` would
   * collide with the first on the `(product, flavor)` key.
   */
  function Relinked(links: map<(ProductId, FlavorId), int>, pid: ProductId, flavors: seq<Flavor>, f: FlavorsField)
    : Result<map<(ProductId, FlavorId), int>, ProductError>
  {
    match f
    case FlavorsAbsent => Ok(links)
    case FlavorsUnparseable => Ok(links)
    case FlavorsNotList => Err(Internal)
    case FlavorsGiven(es) =>
      var rs := Resolved(flavors, es);
      if DistinctFlavors(rs) then Ok(Upserts(WithoutProduct(links, pid), pid, rs)) else Err(Internal)
  }

  /**
   * The replacement is wholesale: afterwards the product's links are exactly the
   * resolved entries, and every other product's links are as before.
   */
  lemma RelinkedLaw(links: map<(ProductId, FlavorId), int>, pid: ProductId, flavors: seq<Flavor>, es: seq<FlavorEntry>)
    requires Relinked(links, pid, flavors, FlavorsGiven(es)).Ok?
    ensures var after := Relinked(links, pid, flavors, FlavorsGiven(es)).value;
            var rs := Resolved(flavors, es);
            && (forall k: (ProductId, FlavorId) | k.0 != pid :: (k in after <==> k in links) && (k in links ==> after[k] == links[k]))
            && (forall fid :: (pid, fid) in after <==> exists i | 0 <= i < |rs| :: rs[i].0 == fid)
            && (forall i | 0 <= i < |rs| :: after[(pid, rs[i].0)] == rs[i].1)
  {
    var rs := Resolved(flavors, es);
    var w := WithoutProduct(links, pid);
    var after := Upserts(w, pid, rs);
    forall k: (ProductId, FlavorId) | k.0 != pid
      ensures (k in after <==> k in links) && (k in links ==> after[k] == links[k])
    {
      UpsertsKeys(w, pid, rs, k);
      if k in links {
        UpsertsElsewhere(w, pid, rs, k);
      }
    }
    forall fid
      ensures (pid, fid) in after <==> exists i | 0 <= i < |rs| :: rs[i].0 == fid
    {
      UpsertsKeys(w, pid, rs, (pid, fid));
    }
    forall i | 0 <= i < |rs|
      ensures after[(pid, rs[i].0)] == rs[i].1
    {
      UpsertsLastWins(w, pid, rs, i);
    }
  }

  /** Absent or unparseable flavors leave the links untouched. */
  lemma RelinkedUntouched(links: map<(ProductId, FlavorId), int>, pid: ProductId, flavors: seq<Flavor>, f: FlavorsField)
    requires f.FlavorsAbsent? || f.FlavorsUnparseable?
    ensures Relinked(links, pid, flavors, f) == Ok(links)
  {
  }

  /** A repeated flavor in a prefix repeats in the whole list. */
  lemma DuplicateExtends(os: seq<Option<(FlavorId, int)>>, k: nat)
    requires k <= |os| && !DistinctFlavors(Links(os[..k]))
    ensures !DistinctFlavors(Links(os))
  {
    LinksPrefix(os, k);
    var pre := Links(os[..k]);
    var i, j :| 0 <= i < j < |pre| && pre[i].0 == pre[j].0;
    assert Links(os)[i] == pre[i] && Links(os)[j] == pre[j];
  }

  lemma DistinctSnoc(rs: seq<(FlavorId, int)>, x: (FlavorId, int))
    requires DistinctFlavors(rs) && forall j | 0 <= j < |rs| :: rs[j].0 != x.0
    ensures DistinctFlavors(rs + [x])
  {
  }

  /** A lookup that names a flavor an earlier link already names makes the links repeat. */
  lemma RepeatedLink(os: seq<Option<(FlavorId, int)>>, i: nat)
    requires i < |os| && os[i].Some?
    requires exists j | 0 <= j < |Links(os[..i])| :: Links(os[..i])[j].0 == os[i].value.0
    ensures !DistinctFlavors(Links(os))
  {
    var pre := Links(os[..i]);
    var j :| 0 <= j < |pre| && pre[j].0 == os[i].value.0;
    LinksSnoc(os, i);
    var grown := Links(os[..i + 1]);
    assert grown[j] == pre[j] && grown[|pre|] == os[i].value;
    DuplicateExtends(os, i + 1);
    assert os[..|os|] == os;
  }

  /**
   * The link loop of `updateProduct`, after the product's links were deleted: one
   * `create` per entry that resolves, failing at the first flavor already linked.
   */
  method CreateLinks(db: Store, pid: ProductId, es: seq<FlavorEntry>) returns (ok: bool)
    modifies db`productFlavors
    requires forall k | k in db.productFlavors :: k.0 != pid
    ensures ok <==> DistinctFlavors(Resolved(db.flavors, es))
    ensures ok ==> db.productFlavors == Upserts(old(db.productFlavors), pid, Resolved(db.flavors, es))
  {
    var w := db.productFlavors;
    ghost var os := Lookups(db.flavors, es);
    var i := 0;
    while i < |es|
      invariant 0 <= i <= |es|
      invariant DistinctFlavors(Links(os[..i]))
      invariant db.productFlavors == Upserts(w, pid, Links(os[..i]))
    {
      LinksSnoc(os, i);
      var link := ResolveEntry(db.flavors, es[i]);
      assert link == os[i];
      if link.Some? {
        ghost var pre := Links(os[..i]);
        UpsertsKeys(w, pid, pre, (pid, link.value.0));
        if (pid, link.value.0) in db.productFlavors {
          RepeatedLink(os, i);
          return false;
        }
        DistinctSnoc(pre, link.value);
        UpsertsSnoc(w, pid, pre, link.value);
        db.productFlavors := db.productFlavors[(pid, link.value.0) := link.value.1];
      }
      i := i + 1;
    }
    assert os[..|es|] == os;
    return true;
  }

  /**
   * `updateProduct`: the body check and the admin guard change nothing; a missing
   * product, a non-array `flavors` or a repeated flavor fail as a whole (the
   * transaction is rolled back); otherwise the supplied fields are written and the
   * links replaced or kept as `Relinked` says.
   */
  method UpdateProduct(db: Store, id: ProductId, body: Option<UpdateBody>, isAdmin: bool)
    returns (r: Result<Product, ProductError>)
    modifies db`products, db`productFlavors
    ensures body.None? ==> r == Err(BodyRequired)
    ensures body.Some? && !isAdmin ==> r == Err(AdminRequired)
    ensures body.Some? && isAdmin && id !in old(db.products) ==> r == Err(Internal)
    ensures r.Err? ==> db.products == old(db.products) && db.productFlavors == old(db.productFlavors)
    ensures body.Some? && isAdmin && id in old(db.products) ==>
              var after := Relinked(old(db.productFlavors), id, db.flavors, body.value.flavors);
              && (r.Ok? <==> after.Ok?)
              && (r.Ok? ==>
                    && r.value == Patched(old(db.products)[id], body.value)
                    && db.products == old(db.products)[id := r.value]
                    && db.productFlavors == after.value)
  {
    if body.None? {
      return Err(BodyRequired);
    }
    var b := body.value;
    if !isAdmin {
      return Err(AdminRequired);
    }
    if id !in db.products {
      return Err(Internal);
    }
    var oldProducts, oldLinks := db.products, db.productFlavors;
    var updated := Patched(db.products[id], b);
    db.products := db.products[id := updated];
    match b.flavors {
      case FlavorsAbsent =>
      case FlavorsUnparseable =>
      case FlavorsNotList =>
        db.productFlavors := WithoutProduct(db.productFlavors, id);
        db.products, db.productFlavors := oldProducts, oldLinks;
        return Err(Internal);
      case FlavorsGiven(es) =>
        db.productFlavors := WithoutProduct(db.productFlavors, id);
        var created := CreateLinks(db, id, es);
        if !created {
          db.products, db.productFlavors := oldProducts, oldLinks;
          return Err(Internal);
        }
    }
    return Ok(updated);
  }

  // --------------------------------------------------------------- delete

  /** `deleteProduct`: admins only; a missing product fails the delete. */
  method DeleteProduct(db: Store, id: ProductId, isAdmin: bool) returns (r: Result<(), ProductError>)
    modifies db`products
    ensures !isAdmin ==> r == Err(AdminRequired)
    ensures isAdmin && id !in old(db.products) ==> r == Err(Internal)
    ensures r.Err? ==> db.products == old(db.products)
    ensures isAdmin && id in old(db.products) ==> r == Ok(()) && db.products == old(db.products) - {id}
  {
    if !isAdmin {
      return Err(AdminRequired);
    }
    if id !in db.products {
      return Err(Internal);
    }
    db.products := db.products - {id};
    return Ok(());
  }

  // ---------------------------------------------------------- pagination

  /** Rows skipped before page `page` (counting from 1). */
  function Skip(page: int, limit: int): int {
    (page - 1) * limit
  }

  /** `Math.ceil(total / limit)` for a positive limit. */
  function Pages(total: nat, limit: nat): (r: nat)
    requires limit > 0
    ensures (r - 1) * limit < total <= r * limit || (total == 0 && r == 0)
  {
    (total + limit - 1) / limit
  }

  lemma MulLe(a: int, b: int, c: nat)
    requires a <= b
    ensures a * c <= b * c
  {
    var d := b - a;
    assert b * c == a * c + d * c;
    assert d * c >= 0;
  }

  /** `k` lies on page `m + 1` exactly when `k / limit == m`. */
  lemma DivExact(k: nat, m: int, limit: nat)
    requires limit > 0
    ensures m * limit <= k < m * limit + limit <==> k / limit == m
  {
    var q, r := k / limit, k % limit;
    assert k == q * limit + r && 0 <= r < limit;
    if m * limit <= k < m * limit + limit {
      if q < m {
        MulLe(q + 1, m, limit);
      } else if q > m {
        MulLe(m + 1, q, limit);
      }
    }
  }

  /**
   * The pages partition the rows: row `k` appears on exactly page `k / limit + 1`,
   * which is one of the `Pages` pages.
   */
  lemma PagesCoverRows(total: nat, limit: nat, k: nat)
    requires limit > 0 && k < total
    ensures 1 <= k / limit + 1 <= Pages(total, limit)
    ensures forall q: int | 1 <= q :: Skip(q, limit) <= k < Skip(q, limit) + limit <==> q == k / limit + 1
  {
    var page := k / limit + 1;
    DivExact(k, page - 1, limit);
    if page > Pages(total, limit) {
      MulLe(Pages(total, limit), page - 1, limit);
    }
    forall q: int | 1 <= q
      ensures Skip(q, limit) <= k < Skip(q, limit) + limit <==> q == page
    {
      DivExact(k, q - 1, limit);
    }
  }
}
