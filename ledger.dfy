/**
 * The inventory ledger arithmetic shared by every stock path: availability,
 * the fit test, and the per-flavor `reserved` writes. The 3-pack handlers load
 * every inventory row once when the request starts and then write
 * `reserved: snapshot.reserved + amount` (or the clamped release) row by row;
 * `Written` models exactly that, so a later write to the same flavor replaces
 * an earlier one instead of adding to it.
 */
module Ledger {
  import opened Wrappers
  import opened Tables

  /** `available = onHand - reserved`; may be negative. */
  function Available(r: InventoryRecord): int {
    r.onHand - r.reserved
  }

  /** `available_after_safety = available - safetyStock`; may be negative. */
  function AvailableAfterSafety(r: InventoryRecord): int {
    Available(r) - r.safetyStock
  }

  /** The stock test of add and update: the request fails when `available < required`. */
  predicate Fits(r: InventoryRecord, required: int) {
    AvailableAfterSafety(r) >= required
  }

  /** The bookkeeping a single request sequence keeps: nothing negative, nothing sold from safety stock. */
  predicate RowSound(r: InventoryRecord) {
    0 <= r.reserved && r.reserved + r.safetyStock <= r.onHand
  }

  predicate Sound(inv: Inventory) {
    forall f | f in inv :: RowSound(inv[f])
  }

  datatype Mode = Reserve | Release

  /** One row write: `amount` units for `flavor`. */
  datatype Write = Write(flavor: FlavorId, amount: int)

  function Max0(x: int): int {
    if x < 0 then 0 else x
  }

  /** `reserved + amount` when reserving, `Math.max(0, reserved - amount)` when releasing. */
  function NewReserved(mode: Mode, reserved: int, amount: int): int {
    match mode
    case Reserve => reserved + amount
    case Release => Max0(reserved - amount)
  }

  predicate Targets(ws: seq<Write>, inv: Inventory) {
    forall i | 0 <= i < |ws| :: ws[i].flavor in inv
  }

  /** One write per recipe item: `item.quantity * n` units of the item's flavor, in recipe order. */
  function ItemWrites(items: seq<RecipeItem>, n: int): seq<Write> {
    seq(|items|, i requires 0 <= i < |items| => Write(items[i].flavorId, items[i].quantity * n))
  }

  lemma ItemWritesTargets(items: seq<RecipeItem>, n: int, inv: Inventory)
    requires Stocked(items, inv)
    ensures Targets(ItemWrites(items, n), inv)
  {
  }

  /**
   * The writes as the handlers perform them: each one sets the row's `reserved` from
   * the value in `snap`, the table as loaded when the request started.
   */
  function Written(snap: Inventory, ws: seq<Write>, mode: Mode): (r: Inventory)
    requires Targets(ws, snap)
    ensures r.Keys == snap.Keys
    decreases |ws|
  {
    if ws == [] then snap
    else
      var w := ws[|ws| - 1];
      Written(snap, ws[..|ws| - 1], mode)[w.flavor := snap[w.flavor].(reserved := NewReserved(mode, snap[w.flavor].reserved, w.amount))]
  }

  /** The amount of the last write to `f`, if any. */
  function LastAmount(ws: seq<Write>, f: FlavorId): Option<int> {
    if ws == [] then None
    else if ws[|ws| - 1].flavor == f then Some(ws[|ws| - 1].amount)
    else LastAmount(ws[..|ws| - 1], f)
  }

  /** What one request's writes leave in a row: the last write to it wins; untouched rows stay. */
  lemma {:induction false} WrittenAt(snap: Inventory, ws: seq<Write>, mode: Mode, f: FlavorId)
    requires Targets(ws, snap) && f in snap
    ensures Written(snap, ws, mode)[f] ==
              match LastAmount(ws, f)
              case None => snap[f]
              case Some(a) => snap[f].(reserved := NewReserved(mode, snap[f].reserved, a))
    decreases |ws|
  {
    if ws != [] && ws[|ws| - 1].flavor != f {
      WrittenAt(snap, ws[..|ws| - 1], mode, f);
    }
  }

  lemma {:induction false} LastAmountNone(ws: seq<Write>, f: FlavorId)
    requires forall i | 0 <= i < |ws| :: ws[i].flavor != f
    ensures LastAmount(ws, f) == None
    decreases |ws|
  {
    if ws != [] {
      LastAmountNone(ws[..|ws| - 1], f);
    }
  }

  lemma {:induction false} LastAmountIs(ws: seq<Write>, k: nat)
    requires k < |ws|
    requires forall j | k < j < |ws| :: ws[j].flavor != ws[k].flavor
    ensures LastAmount(ws, ws[k].flavor) == Some(ws[k].amount)
    decreases |ws|
  {
    if k < |ws| - 1 {
      LastAmountIs(ws[..|ws| - 1], k);
    }
  }

  predicate DistinctFlavors(items: seq<RecipeItem>) {
    forall i, j | 0 <= i < j < |items| :: items[i].flavorId != items[j].flavorId
  }

  /**
   * With distinct recipe flavors each item's row ends at `snapshot ± quantity * n`
   * (clamped at zero on release), and rows of other flavors are untouched.
   */
  lemma ItemWritesEffect(snap: Inventory, items: seq<RecipeItem>, n: int, mode: Mode, f: FlavorId)
    requires Stocked(items, snap) && f in snap
    ensures Targets(ItemWrites(items, n), snap)
    ensures (forall k | 0 <= k < |items| :: items[k].flavorId != f) ==> Written(snap, ItemWrites(items, n), mode)[f] == snap[f]
    ensures DistinctFlavors(items) ==>
              forall k | 0 <= k < |items| && items[k].flavorId == f ::
                Written(snap, ItemWrites(items, n), mode)[f] ==
                snap[f].(reserved := NewReserved(mode, snap[f].reserved, items[k].quantity * n))
  {
    var ws := ItemWrites(items, n);
    WrittenAt(snap, ws, mode, f);
    if forall k | 0 <= k < |items| :: items[k].flavorId != f {
      LastAmountNone(ws, f);
    }
    if DistinctFlavors(items) {
      forall k | 0 <= k < |items| && items[k].flavorId == f
        ensures LastAmount(ws, f) == Some(items[k].quantity * n)
      {
        LastAmountIs(ws, k);
      }
    }
  }

  /** Releases never break soundness: the clamp keeps `reserved` in [0, old reserved]. */
  lemma {:induction false} ReleaseKeepsSound(snap: Inventory, ws: seq<Write>)
    requires Targets(ws, snap) && Sound(snap)
    requires forall i | 0 <= i < |ws| :: ws[i].amount >= 0
    ensures Sound(Written(snap, ws, Release))
    decreases |ws|
  {
    if ws != [] {
      ReleaseKeepsSound(snap, ws[..|ws| - 1]);
    }
  }

  /** Reservations keep soundness when every write passed the fit test against the snapshot. */
  lemma {:induction false} ReserveKeepsSound(snap: Inventory, ws: seq<Write>)
    requires Targets(ws, snap) && Sound(snap)
    requires forall i | 0 <= i < |ws| :: ws[i].amount >= 0 && Fits(snap[ws[i].flavor], ws[i].amount)
    ensures Sound(Written(snap, ws, Reserve))
    decreases |ws|
  {
    if ws != [] {
      ReserveKeepsSound(snap, ws[..|ws| - 1]);
    }
  }

  /**
   * The writes as intended: each reads the row's CURRENT value, so releases to the
   * same flavor add up. Used by the corrected cart clear.
   */
  function Accumulated(inv: Inventory, ws: seq<Write>, mode: Mode): (r: Inventory)
    requires Targets(ws, inv)
    ensures r.Keys == inv.Keys
    decreases |ws|
  {
    if ws == [] then inv
    else
      var base := Accumulated(inv, ws[..|ws| - 1], mode);
      var w := ws[|ws| - 1];
      base[w.flavor := base[w.flavor].(reserved := NewReserved(mode, base[w.flavor].reserved, w.amount))]
  }

  /** Sum of the amounts written to `f`. */
  function TotalFor(ws: seq<Write>, f: FlavorId): int {
    if ws == [] then 0
    else TotalFor(ws[..|ws| - 1], f) + (if ws[|ws| - 1].flavor == f then ws[|ws| - 1].amount else 0)
  }

  /**
   * Row `f` after cumulative releases: `reserved` less the total released from it,
   * clamped once at zero; `onHand` and `safetyStock` as they were.
   */
  predicate ReleasedTotal(inv: Inventory, ws: seq<Write>, f: FlavorId)
    requires Targets(ws, inv) && f in inv
  {
    Accumulated(inv, ws, Release)[f] == inv[f].(reserved := Max0(inv[f].reserved - TotalFor(ws, f)))
  }

  /** Cumulative releases subtract the total for the flavor, clamped once at zero. */
  lemma {:induction false} AccumulatedReleaseAt(inv: Inventory, ws: seq<Write>, f: FlavorId)
    requires Targets(ws, inv) && f in inv && inv[f].reserved >= 0
    requires forall i | 0 <= i < |ws| :: ws[i].amount >= 0
    ensures ReleasedTotal(inv, ws, f)
    decreases |ws|
  {
    if ws != [] {
      var init := ws[..|ws| - 1];
      AccumulatedReleaseAt(inv, init, f);
      var w := ws[|ws| - 1];
      if w.flavor == f {
        var t := TotalFor(init, f);
        assert Max0(Max0(inv[f].reserved - t) - w.amount) == Max0(inv[f].reserved - (t + w.amount));
      }
    }
  }

  lemma {:induction false} AccumulatedReleaseKeepsSound(inv: Inventory, ws: seq<Write>)
    requires Targets(ws, inv) && Sound(inv)
    requires forall i | 0 <= i < |ws| :: ws[i].amount >= 0
    ensures Sound(Accumulated(inv, ws, Release))
    decreases |ws|
  {
    if ws != [] {
      AccumulatedReleaseKeepsSound(inv, ws[..|ws| - 1]);
    }
  }

  /** No two writes of the list target the same flavor. */
  predicate DistinctTargets(ws: seq<Write>) {
    forall i, j | 0 <= i < j < |ws| :: ws[i].flavor != ws[j].flavor
  }

  lemma {:induction false} AccumulatedUntouched(inv: Inventory, ws: seq<Write>, mode: Mode, f: FlavorId)
    requires Targets(ws, inv) && f in inv
    requires forall i | 0 <= i < |ws| :: ws[i].flavor != f
    ensures Accumulated(inv, ws, mode)[f] == inv[f]
    decreases |ws|
  {
    if ws != [] {
      AccumulatedUntouched(inv, ws[..|ws| - 1], mode, f);
    }
  }

  /**
   * Reading the snapshot is harmless exactly when no flavor is written twice: then the
   * request's writes leave the same table as writes that read current values.
   */
  lemma {:induction false} WrittenIsAccumulated(inv: Inventory, ws: seq<Write>, mode: Mode)
    requires Targets(ws, inv) && DistinctTargets(ws)
    ensures Written(inv, ws, mode) == Accumulated(inv, ws, mode)
    decreases |ws|
  {
    if ws != [] {
      var init := ws[..|ws| - 1];
      WrittenIsAccumulated(inv, init, mode);
      AccumulatedUntouched(inv, init, mode, ws[|ws| - 1].flavor);
    }
  }

  predicate NoNegativeReserved(inv: Inventory) {
    forall f | f in inv :: inv[f].reserved >= 0
  }

  /**
   * Releasing what a request reserved, with the same writes, gives every row back:
   * both passes keep only the last write to a flavor, and they undo each other.
   */
  lemma ReserveThenRelease(inv: Inventory, ws: seq<Write>)
    requires Targets(ws, inv) && NoNegativeReserved(inv)
    ensures Targets(ws, Written(inv, ws, Reserve))
    ensures Written(Written(inv, ws, Reserve), ws, Release) == inv
  {
    var mid := Written(inv, ws, Reserve);
    var back := Written(mid, ws, Release);
    forall f | f in inv
      ensures back[f] == inv[f]
    {
      WrittenAt(inv, ws, Reserve, f);
      WrittenAt(mid, ws, Release, f);
    }
  }
}
