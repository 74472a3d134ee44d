/**
 * The inventory admin handlers: the availability projection of a row, the single
 * and bulk stock updates, and the low-stock alerts.
 */
module InventoryAdmin {
  import opened Wrappers
  import opened Tables
  import opened Ledger

  /** A row as the handlers answer it, with both availability figures. */
  datatype InventoryView = InventoryView(
    flavorId: FlavorId, flavorName: string, onHand: int, reserved: int, safetyStock: int,
    available: int, availableAfterSafety: int)

  function View(flavors: seq<Flavor>, id: FlavorId, r: InventoryRecord): (v: InventoryView)
    ensures v.onHand == r.onHand && v.reserved == r.reserved && v.safetyStock == r.safetyStock
    ensures v.available == v.onHand - v.reserved
    ensures v.availableAfterSafety == v.available - v.safetyStock
  {
    InventoryView(id, FlavorName(flavors, id), r.onHand, r.reserved, r.safetyStock, Available(r), AvailableAfterSafety(r))
  }

  /** `getAllInventory`, keyed by flavor (the name ordering of the list is not modelled). */
  function AllInventory(flavors: seq<Flavor>, inv: Inventory): (m: map<FlavorId, InventoryView>)
    ensures m.Keys == inv.Keys
  {
    map f | f in inv :: View(flavors, f, inv[f])
  }

  /** `getFlavorInventory`: `None` is the 404. */
  function FlavorInventory(flavors: seq<Flavor>, inv: Inventory, id: FlavorId): (r: Option<InventoryView>)
    ensures r.None? <==> id !in inv
  {
    if id in inv then Some(View(flavors, id, inv[id])) else None
  }

  // ---------------------------------------------------------- updates

  /** A numeric body field: absent, a number, or a value of another type. */
  datatype NumField = Absent | Num(n: int) | NotNumber

  /** Absent, or a number that is not negative. */
  predicate Acceptable(f: NumField) {
    f.Absent? || (f.Num? && f.n >= 0)
  }

  datatype UpdateError = OnHandInvalid | SafetyStockInvalid | RowMissing

  function UpdateStatus(e: UpdateError): int {
    match e
    case RowMissing => 500
    case _ => 400
  }

  /** The update data applied to a row: only supplied fields; `reserved` is never written. */
  function Patch(r: InventoryRecord, onHand: NumField, safetyStock: NumField): InventoryRecord {
    r.(onHand := if onHand.Num? then onHand.n else r.onHand,
       safetyStock := if safetyStock.Num? then safetyStock.n else r.safetyStock)
  }

  /** `updateInventory` on one row: `on_hand` is checked before `safety_stock`; a missing row fails the write. */
  function UpdatedRow(inv: Inventory, id: FlavorId, onHand: NumField, safetyStock: NumField): Result<InventoryRecord, UpdateError> {
    if !Acceptable(onHand) then Err(OnHandInvalid)
    else if !Acceptable(safetyStock) then Err(SafetyStockInvalid)
    else if id !in inv then Err(RowMissing)
    else Ok(Patch(inv[id], onHand, safetyStock))
  }

  /**
   * What `updateInventory` promises: it fails exactly on an unacceptable field or a
   * missing row, reporting `on_hand` first; on success only the supplied fields change.
   * It does not check `on_hand` against `reserved`, so it can leave a row unsound.
   */
  lemma UpdatedRowLaw(inv: Inventory, id: FlavorId, onHand: NumField, safetyStock: NumField)
    ensures UpdatedRow(inv, id, onHand, safetyStock).Ok? <==> Acceptable(onHand) && Acceptable(safetyStock) && id in inv
    ensures !Acceptable(onHand) ==> UpdatedRow(inv, id, onHand, safetyStock) == Err(OnHandInvalid)
    ensures UpdatedRow(inv, id, onHand, safetyStock).Ok? ==>
              var r := UpdatedRow(inv, id, onHand, safetyStock).value;
              && r.reserved == inv[id].reserved
              && r.onHand == (if onHand.Num? then onHand.n else inv[id].onHand)
              && r.safetyStock == (if safetyStock.Num? then safetyStock.n else inv[id].safetyStock)
              && (onHand.Absent? && safetyStock.Absent? ==> r == inv[id])
  {
  }

  /**
   * `on_hand` is checked only for being a non-negative number, never against
   * `reserved`: any such count below the reserved units is accepted and leaves a row
   * holding less than it reserves, unsound, whose answered `available` is negative.
   */
  lemma UpdateBelowReserved(flavors: seq<Flavor>, inv: Inventory, id: FlavorId, n: int, safetyStock: NumField)
    requires id in inv && Acceptable(safetyStock) && n >= 0
    ensures UpdatedRow(inv, id, Num(n), safetyStock).Ok?
    ensures var v := View(flavors, id, UpdatedRow(inv, id, Num(n), safetyStock).value);
            v.available < 0 <==> n < inv[id].reserved
    ensures var r := UpdatedRow(inv, id, Num(n), safetyStock).value;
            n < inv[id].reserved ==> r.onHand < r.reserved && (r.safetyStock >= 0 ==> !RowSound(r))
  {
  }

  /** `updateInventory`: write the row, or change nothing. */
  method UpdateInventory(db: Store, id: FlavorId, onHand: NumField, safetyStock: NumField)
    returns (r: Result<InventoryView, UpdateError>)
    requires db.Valid()
    modifies db`inventory
    ensures db.Valid()
    ensures var u := UpdatedRow(old(db.inventory), id, onHand, safetyStock);
            && (u.Err? ==> r == Err(u.error) && db.inventory == old(db.inventory))
            && (u.Ok? ==> r == Ok(View(db.flavors, id, u.value)) && db.inventory == old(db.inventory)[id := u.value])
  {
    if !Acceptable(onHand) {
      return Err(OnHandInvalid);
    }
    if !Acceptable(safetyStock) {
      return Err(SafetyStockInvalid);
    }
    if id !in db.inventory {
      return Err(RowMissing);
    }
    var row := Patch(db.inventory[id], onHand, safetyStock);
    KeysKept(db, db.inventory, db.inventory[id := row]);
    db.inventory := db.inventory[id := row];
    return Ok(View(db.flavors, id, row));
  }

  /** Rewriting an existing row keeps the cart lines backed. */
  lemma KeysKept(db: Store, inv: Inventory, inv2: Inventory)
    requires LinesBacked(db.cartLines, db.recipes, inv) && inv.Keys == inv2.Keys
    ensures LinesBacked(db.cartLines, db.recipes, inv2)
  {
    forall i | 0 <= i < |db.cartLines|
      ensures Stocked(FindRecipe(db.recipes, db.cartLines[i].recipeId).value.items, inv2)
    {
    }
  }

  /** One element of `updates`; an empty `flavorId` is an absent one. */
  datatype BulkEntry = BulkEntry(flavorId: FlavorId, onHand: NumField, safetyStock: NumField)

  /** `updates` as sent: an array of entries or something else. */
  datatype BulkInput = Updates(entries: seq<BulkEntry>) | NotAnArray

  datatype BulkFailure = FlavorIdRequired | EntryOnHandInvalid | EntrySafetyStockInvalid | WriteFailed

  /** One pushed result; a failure without a flavor id is reported under "unknown". */
  datatype BulkResult = Succeeded(flavorId: FlavorId, inventory: InventoryView) | Failed(flavorId: FlavorId, failure: BulkFailure)

  datatype BulkReport = BulkReport(results: seq<BulkResult>, successCount: nat, failureCount: nat)

  /** One entry against the current table: the result it pushes and the table after it. */
  function BulkStep(flavors: seq<Flavor>, inv: Inventory, e: BulkEntry): (BulkResult, Inventory) {
    if e.flavorId == "" then (Failed("unknown", FlavorIdRequired), inv)
    else
      match UpdatedRow(inv, e.flavorId, e.onHand, e.safetyStock)
      case Err(OnHandInvalid) => (Failed(e.flavorId, EntryOnHandInvalid), inv)
      case Err(SafetyStockInvalid) => (Failed(e.flavorId, EntrySafetyStockInvalid), inv)
      case Err(RowMissing) => (Failed(e.flavorId, WriteFailed), inv)
      case Ok(row) => (Succeeded(e.flavorId, View(flavors, e.flavorId, row)), inv[e.flavorId := row])
  }

  /** The entries in order, each seeing the writes of the ones before it. */
  function BulkFold(flavors: seq<Flavor>, inv: Inventory, es: seq<BulkEntry>): (r: (seq<BulkResult>, Inventory))
    ensures |r.0| == |es|
    ensures r.1.Keys == inv.Keys
    decreases |es|
  {
    if es == [] then ([], inv)
    else
      var (results, mid) := BulkFold(flavors, inv, es[..|es| - 1]);
      var (res, after) := BulkStep(flavors, mid, es[|es| - 1]);
      (results + [res], after)
  }

  function CountSucceeded(rs: seq<BulkResult>): nat {
    if rs == [] then 0 else (if rs[0].Succeeded? then 1 else 0) + CountSucceeded(rs[1..])
  }

  function CountFailed(rs: seq<BulkResult>): nat {
    if rs == [] then 0 else (if rs[0].Failed? then 1 else 0) + CountFailed(rs[1..])
  }

  lemma {:induction false} CountsAddUp(rs: seq<BulkResult>)
    ensures CountSucceeded(rs) + CountFailed(rs) == |rs|
  {
    if rs != [] {
      CountsAddUp(rs[1..]);
    }
  }

  /**
   * Each result answers the entry at the same position: failures name the entry's
   * flavor (or "unknown"), on_hand is checked first, and a success needs both fields
   * acceptable and the row present (what each entry writes is `BulkEntryEffect`).
   */
  lemma {:induction false} BulkFoldResults(flavors: seq<Flavor>, inv: Inventory, es: seq<BulkEntry>, i: nat)
    requires i < |es|
    ensures var rs := BulkFold(flavors, inv, es).0;
            && rs[i].flavorId == (if es[i].flavorId == "" then "unknown" else es[i].flavorId)
            && (rs[i].Succeeded? <==> es[i].flavorId != "" && Acceptable(es[i].onHand) && Acceptable(es[i].safetyStock)
                                      && es[i].flavorId in inv)
            && (es[i].flavorId != "" && !Acceptable(es[i].onHand) ==> rs[i] == Failed(es[i].flavorId, EntryOnHandInvalid))
    decreases |es|
  {
    var init := es[..|es| - 1];
    var (rs0, mid) := BulkFold(flavors, inv, init);
    assert mid.Keys == inv.Keys;
    if i < |es| - 1 {
      BulkFoldResults(flavors, inv, init, i);
      assert init[i] == es[i];
    }
  }

  /** The results of a prefix of the entries are the prefix of the results. */
  lemma {:induction false} BulkFoldPrefix(flavors: seq<Flavor>, inv: Inventory, es: seq<BulkEntry>, n: nat)
    requires n <= |es|
    ensures BulkFold(flavors, inv, es).0[..n] == BulkFold(flavors, inv, es[..n]).0
    decreases |es|
  {
    if n < |es| {
      var init := es[..|es| - 1];
      BulkFoldPrefix(flavors, inv, init, n);
      assert init[..n] == es[..n];
    } else {
      assert es[..n] == es;
    }
  }

  /**
   * The table around entry `i`: a failed entry leaves it as the entries before it
   * left it; a success changes only the entry's row and reports that row as written.
   */
  lemma BulkEntryEffect(flavors: seq<Flavor>, inv: Inventory, es: seq<BulkEntry>, i: nat)
    requires i < |es|
    ensures var before := BulkFold(flavors, inv, es[..i]).1;
            var after := BulkFold(flavors, inv, es[..i + 1]).1;
            var res := BulkFold(flavors, inv, es).0[i];
            && (res.Failed? ==> after == before)
            && (res.Succeeded? ==>
                  && es[i].flavorId in after
                  && after == before[es[i].flavorId := after[es[i].flavorId]]
                  && res.inventory == View(flavors, es[i].flavorId, after[es[i].flavorId]))
  {
    BulkFoldPrefix(flavors, inv, es, i + 1);
    assert es[..i + 1][..i] == es[..i];
    assert BulkFold(flavors, inv, es).0[i] == BulkFold(flavors, inv, es[..i + 1]).0[i];
  }

  /**
   * `bulkUpdateInventory`: a non-array is a 400; otherwise one result per entry, in
   * order, the rows written as the entries succeed, and the two counts.
   */
  method BulkUpdateInventory(db: Store, input: BulkInput) returns (r: Option<BulkReport>)
    requires db.Valid()
    modifies db`inventory
    ensures db.Valid()
    ensures input.NotAnArray? ==> r.None? && db.inventory == old(db.inventory)
    ensures input.Updates? ==>
              var (results, after) := BulkFold(db.flavors, old(db.inventory), input.entries);
              && r == Some(BulkReport(results, CountSucceeded(results), CountFailed(results)))
              && db.inventory == after
  {
    if input.NotAnArray? {
      return None;
    }
    var es := input.entries;
    var start := db.inventory;
    var results: seq<BulkResult> := [];
    var i := 0;
    while i < |es|
      invariant 0 <= i <= |es|
      invariant (results, db.inventory) == BulkFold(db.flavors, start, es[..i])
      invariant db.inventory.Keys == start.Keys
    {
      assert es[..i + 1][..i] == es[..i];
      var (res, after) := BulkStep(db.flavors, db.inventory, es[i]);
      results := results + [res];
      db.inventory := after;
      i := i + 1;
    }
    assert es[..|es|] == es;
    KeysKept(db, old(db.inventory), db.inventory);
    return Some(BulkReport(results, CountSucceeded(results), CountFailed(results)));
  }

  /** The counts of a bulk report cover every entry. */
  lemma BulkCounts(flavors: seq<Flavor>, inv: Inventory, es: seq<BulkEntry>)
    ensures var rs := BulkFold(flavors, inv, es).0;
            CountSucceeded(rs) + CountFailed(rs) == |es|
  {
    CountsAddUp(BulkFold(flavors, inv, es).0);
  }

  // ----------------------------------------------------------- alerts

  /** `threshold ? parseInt(threshold) : 10`; `None` is an absent or empty query value. */
  function AlertThreshold(threshold: Option<int>): int {
    threshold.GetOr(10)
  }

  /** The row filter: at or below the threshold on hand, or everything on hand reserved. */
  predicate Selected(r: InventoryRecord, t: int) {
    r.onHand <= t || r.reserved >= r.onHand
  }

  datatype AlertType = OutOfStock | LowStock | NormalStock
  datatype Severity = Critical | Warning | Info

  function AlertTypeFor(aas: int, t: int): AlertType {
    if aas <= 0 then OutOfStock else if aas <= t then LowStock else NormalStock
  }

  function SeverityFor(aas: int, t: int): Severity {
    if aas <= 0 then Critical else if aas <= t then Warning else Info
  }

  /** The type and the severity of an alert always name the same band. */
  lemma TypeAndSeverityAgree(aas: int, t: int)
    ensures AlertTypeFor(aas, t) == OutOfStock <==> SeverityFor(aas, t) == Critical
    ensures AlertTypeFor(aas, t) == LowStock <==> SeverityFor(aas, t) == Warning
    ensures AlertTypeFor(aas, t) == NormalStock <==> SeverityFor(aas, t) == Info
    ensures SeverityFor(aas, t) == Critical <==> aas <= 0
    ensures SeverityFor(aas, t) == Warning <==> 0 < aas <= t
  {
  }

  datatype Alert = Alert(view: InventoryView, alertType: AlertType, severity: Severity)

  datatype AlertReport = AlertReport(threshold: int, totalAlerts: nat, criticalAlerts: nat, warningAlerts: nat,
                                     alerts: map<FlavorId, Alert>)

  function MakeAlert(flavors: seq<Flavor>, id: FlavorId, r: InventoryRecord, t: int): Alert {
    var v := View(flavors, id, r);
    Alert(v, AlertTypeFor(v.availableAfterSafety, t), SeverityFor(v.availableAfterSafety, t))
  }

  /** `getLowStockAlerts`, keyed by flavor (the `onHand` ordering of the list is not modelled). */
  function LowStockAlerts(flavors: seq<Flavor>, inv: Inventory, threshold: Option<int>): AlertReport {
    var t := AlertThreshold(threshold);
    var alerts := map f | f in inv && Selected(inv[f], t) :: MakeAlert(flavors, f, inv[f], t);
    AlertReport(t, |alerts.Keys|,
                |set f | f in alerts && alerts[f].severity == Critical|,
                |set f | f in alerts && alerts[f].severity == Warning|,
                alerts)
  }

  /**
   * The alerts are exactly the selected rows, the threshold defaults to 10, and the
   * critical and warning counts never exceed the total.
   */
  lemma AlertsLaw(flavors: seq<Flavor>, inv: Inventory, threshold: Option<int>)
    ensures var rep := LowStockAlerts(flavors, inv, threshold);
            && rep.threshold == (if threshold.Some? then threshold.value else 10)
            && (forall f :: f in rep.alerts <==> f in inv && Selected(inv[f], rep.threshold))
            && rep.totalAlerts == |rep.alerts.Keys|
            && rep.criticalAlerts + rep.warningAlerts <= rep.totalAlerts
  {
    var rep := LowStockAlerts(flavors, inv, threshold);
    var crit := set f | f in rep.alerts && rep.alerts[f].severity == Critical;
    var warn := set f | f in rep.alerts && rep.alerts[f].severity == Warning;
    assert crit * warn == {};
    assert crit + warn <= rep.alerts.Keys;
    SubsetCard(crit + warn, rep.alerts.Keys);
  }

  lemma SubsetCard<T>(a: set<T>, b: set<T>)
    requires a <= b
    ensures |a| <= |b|
    decreases |b|
  {
    if a != {} {
      var x :| x in a;
      SubsetCard(a - {x}, b - {x});
    }
  }

  /** A selected row whose counters are not negative is never reported as normal. */
  lemma SelectedRowsAlert(r: InventoryRecord, t: int)
    requires Selected(r, t) && r.reserved >= 0 && r.safetyStock >= 0
    ensures SeverityFor(AvailableAfterSafety(r), t) != Info
  {
  }
}
