/** What is shipped against what is packed, over whole runs. */
module Dispatches {
  import opened Wrappers
  import opened Domain
  import opened Stock
  import opened Release
  import opened Picking
  import opened Inbound
  import opened Counting
  import opened Shipping
  import opened Machine
  import opened History

  // ---------- Sums ----------

  /** Quantity of a product in all handling units. */
  function PackedOf(units: seq<HandlingUnit>, product: Id): real {
    if units == [] then 0.0 else
    PackedOf(units[..|units| - 1], product) + ContentsOfUnit(units[|units| - 1].lines, product)
  }

  /** Quantity of a product on the movement lines of the first n shipments. */
  function ShippedOf(moves: seq<Movement>, n: nat, product: Id): real {
    if n == 0 then 0.0 else ShippedOf(moves, n - 1, product) + Tally(moves, ShippedBy(n - 1, product))
  }

  ghost predicate LinesPositive(lines: seq<PackedLine>) {
    forall i | 0 <= i < |lines| :: 0.0 < lines[i].qty
  }

  ghost predicate UnitsPositive(units: seq<HandlingUnit>) {
    forall i | 0 <= i < |units| :: LinesPositive(units[i].lines)
  }

  /** Units keep their lines, and gain some. */
  ghost predicate UnitsGrow(before: seq<HandlingUnit>, after: seq<HandlingUnit>) {
    |before| <= |after| && forall i | 0 <= i < |before| :: before[i].lines <= after[i].lines
  }

  lemma {:induction false} UnitContentsGrow(before: seq<PackedLine>, after: seq<PackedLine>, product: Id)
    requires before <= after && LinesPositive(after)
    ensures 0.0 <= ContentsOfUnit(before, product) <= ContentsOfUnit(after, product)
    decreases |after|
  {
    if after != [] {
      var n := |after| - 1;
      UnitContentsGrow(if |before| > n then before[..n] else before, after[..n], product);
      assert |before| > n ==> before == after;
    }
  }

  lemma {:induction false} ContentsGrow(
    links: seq<(Id, Id)>, before: seq<HandlingUnit>, after: seq<HandlingUnit>, product: Id)
    requires UnitsGrow(before, after) && UnitsPositive(after)
    ensures 0.0 <= Contents(links, before, product) <= Contents(links, after, product)
    decreases |after|
  {
    if after != [] {
      var n := |after| - 1;
      if |before| > n {
        ContentsGrow(links, before[..n], after[..n], product);
        UnitContentsGrow(before[n].lines, after[n].lines, product);
      } else {
        ContentsGrow(links, before, after[..n], product);
        UnitContentsGrow([], after[n].lines, product);
      }
    }
  }

  // ---------- Every shipment ships at most what its units hold ----------

  function Loaded(shipment: Shipment, units: seq<HandlingUnit>, product: Id): real {
    if shipment.status == Dispatched then Contents(shipment.links, units, product) else 0.0
  }

  ghost predicate ShipsItsUnits(db: Db, s: Id, product: Id) {
    Tally(db.moves, ShippedBy(s, product))
      <= if s < |db.shipments| then Loaded(db.shipments[s], db.units, product) else 0.0
  }

  ghost predicate ShippingOk(db: Db) {
    UnitsPositive(db.units) && forall s, product :: ShipsItsUnits(db, s, product)
  }

  ghost predicate NoShipmentLogged(before: seq<Movement>, after: seq<Movement>) {
    before <= after && forall i | |before| <= i < |after| :: !after[i].reference.ShipmentRef?
  }

  /** Dispatched shipments are frozen, and no other shipment becomes dispatched. */
  ghost predicate ShipmentsKept(before: seq<Shipment>, after: seq<Shipment>) {
    && |before| <= |after|
    && (forall i | 0 <= i < |before| && before[i].status == Dispatched :: after[i] == before[i])
    && (forall i | 0 <= i < |after| && after[i].status == Dispatched :: i < |before| && before[i].status == Dispatched)
  }

  lemma {:induction false} TallySkips(before: seq<Movement>, after: seq<Movement>, s: Id, product: Id)
    requires NoShipmentLogged(before, after)
    ensures Tally(after, ShippedBy(s, product)) == Tally(before, ShippedBy(s, product))
    decreases |after|
  {
    if |before| < |after| {
      TallySkips(before, after[..|after| - 1], s, product);
    } else {
      assert after == before;
    }
  }

  lemma QuietStepKeepsShipping(before: Db, after: Db)
    requires ShippingOk(before) && UnitsPositive(after.units)
    requires NoShipmentLogged(before.moves, after.moves) && UnitsGrow(before.units, after.units)
    requires ShipmentsKept(before.shipments, after.shipments)
    ensures ShippingOk(after)
  {
    hide Tally, Contents, NoShipmentLogged, UnitsGrow, UnitsPositive;
    forall s: Id, product ensures ShipsItsUnits(after, s, product) {
      assert ShipsItsUnits(before, s, product);
      TallySkips(before.moves, after.moves, s, product);
      if s < |before.shipments| && before.shipments[s].status == Dispatched {
        ContentsGrow(before.shipments[s].links, before.units, after.units, product);
      }
    }
  }

  lemma DispatchKeepsShipping(db: Db, id: Id)
    requires ShippingOk(db)
    ensures var r := Dispatch(db, id);
            r.Ok? ==> ShippingOk(r.value)
  {
    hide Tally, Contents, DispatchLog, UnitsPositive;
    var r := Dispatch(db, id);
    if r.Ok? {
      var links := db.shipments[id].links;
      forall s: Id, product ensures ShipsItsUnits(r.value, s, product) {
        assert ShipsItsUnits(db, s, product);
        TallyOfConcatenation(db.moves, DispatchLog(id, links, db.units), ShippedBy(s, product));
        DispatchLogReads(id, links, db.units, ShippedBy(s, product));
      }
    }
  }

  // ---------- Every other call is quiet ----------

  lemma {:induction false} PackingGrowsUnits(
    units: seq<HandlingUnit>, unit: Id, order: Id, lines: seq<OrderLine>, items: seq<PackItem>)
    requires unit < |units| && UnitsPositive(units)
    ensures var r := PackAll(units, unit, order, lines, items);
            r.Ok? ==> UnitsGrow(units, r.value) && UnitsPositive(r.value)
    decreases |items|
  {
    hide Packed;
    if items != [] {
      var next := PackOne(units, unit, order, lines, items[0]);
      if next.Ok? {
        PackOneGrowsUnits(units, unit, order, lines, items[0]);
        PackingGrowsUnits(next.value, unit, order, lines, items[1..]);
        var r := PackAll(next.value, unit, order, lines, items[1..]);
        if r.Ok? {
          UnitsGrowInTurn(units, next.value, r.value);
        }
      }
    }
  }

  lemma PackOneGrowsUnits(units: seq<HandlingUnit>, unit: Id, order: Id, lines: seq<OrderLine>, item: PackItem)
    requires unit < |units| && UnitsPositive(units)
    ensures var r := PackOne(units, unit, order, lines, item);
            r.Ok? ==> UnitsGrow(units, r.value) && UnitsPositive(r.value)
  {
    hide Packed;
    var r := PackOne(units, unit, order, lines, item);
    if r.Ok? {
      forall i | 0 <= i < |units| ensures units[i].lines <= r.value[i].lines && LinesPositive(r.value[i].lines) {
        assert LinesPositive(units[i].lines);
      }
    }
  }

  lemma UnitsGrowInTurn(a: seq<HandlingUnit>, b: seq<HandlingUnit>, c: seq<HandlingUnit>)
    requires UnitsGrow(a, b) && UnitsGrow(b, c)
    ensures UnitsGrow(a, c)
  {
    forall i | 0 <= i < |a| ensures a[i].lines <= c[i].lines {
      assert a[i].lines <= b[i].lines && b[i].lines <= c[i].lines;
    }
  }

  predicate IsShipping(step: Step) {
    step.CreateUnitStep? || step.AddItemsStep? || step.CreateShipmentStep? || step.AssignUnitsStep?
        || step.DispatchStep?
  }

  lemma ShippingStepKeepsShipping(cat: Catalog, db: Db, step: Step)
    requires ShippingOk(db) && IsShipping(step)
    ensures ShippingOk(After(cat, db, step))
  {
    hide ShipsItsUnits, LinkUnits, RepeatsId, PackAll;
    var after := After(cat, db, step);
    match step
    case DispatchStep(s) => DispatchKeepsShipping(db, s);
    case AddItemsStep(u, o, i) =>
      if Apply(cat, db, step).Ok? {
        PackingGrowsUnits(db.units, u, o, db.orders[o].lines, i);
        QuietStepKeepsShipping(db, after);
      }
    case CreateUnitStep(_) => QuietStepKeepsShipping(db, after);
    case CreateShipmentStep(_) => QuietStepKeepsShipping(db, after);
    case AssignUnitsStep(s, u) => QuietStepKeepsShipping(db, after);
  }

  lemma ConfirmReceiptLogs(cat: Catalog, db: Db, id: Id, location: Id, submitted: Option<seq<Payload>>)
    ensures var r := ConfirmReceipt(cat, db, id, location, submitted);
            r.Ok? ==> NoShipmentLogged(db.moves, r.value.moves)
  {
    hide ReceiveAll;
    if ConfirmReceipt(cat, db, id, location, submitted).Ok? {
      var receipt := db.receipts[id];
      ReceivingExtendsLog(cat, id, receipt.warehouse, location, receipt.lines,
        ReceiveState(db.rows, db.batches, receipt.lines, db.moves), PayloadsFor(receipt.lines, submitted));
    }
  }

  lemma SubmitCountLogs(cat: Catalog, db: Db, id: Id, entries: seq<CountEntry>)
    ensures var r := SubmitCount(cat, db, id, entries);
            r.Ok? ==> NoShipmentLogged(db.moves, r.value.moves)
  {
    hide AdjustAll, MarkAll;
    if SubmitCount(cat, db, id, entries).Ok? {
      var task := db.counts[id];
      CountingExtendsLog(cat, db.batches, db.rows, db.moves, task.warehouse, CountRef(id),
        MarkAll(task.lines, entries, {}).value, entries);
    }
  }

  lemma ConfirmTaskLogs(db: Db, id: Id, entries: seq<PickEntry>)
    ensures var r := ConfirmTask(db, id, entries);
            r.Ok? ==> NoShipmentLogged(db.moves, r.value.moves)
  {
    hide PickAll;
    if ConfirmTask(db, id, entries).Ok? {
      var task := db.tasks[id];
      PicksExtendLog(
        task.order, task.lines, PickState(db.rows, task.lines, db.orders[task.order].lines, db.moves), entries);
    }
  }

  lemma OtherStepLogs(cat: Catalog, db: Db, step: Step)
    requires !IsShipping(step)
    ensures NoShipmentLogged(db.moves, After(cat, db, step).moves)
  {
    hide ConfirmReceipt, SubmitCount, ConfirmTask, AllocateLines, LinesForOrder, NewCountLines, IncreaseStock;
    match step
    case ConfirmReceiptStep(r, l, s) => ConfirmReceiptLogs(cat, db, r, l, s);
    case SubmitCountStep(c, e) => SubmitCountLogs(cat, db, c, e);
    case ConfirmTaskStep(t, e) => ConfirmTaskLogs(db, t, e);
    case _ =>
  }

  lemma OtherStepLeavesUnits(cat: Catalog, db: Db, step: Step)
    requires !IsShipping(step)
    ensures After(cat, db, step).units == db.units && After(cat, db, step).shipments == db.shipments
  {
    hide AllocateLines, LinesForOrder, NewCountLines, ReceiveAll, TopUp, PickAll, MarkAll, AdjustAll;
  }

  lemma StepKeepsShipping(cat: Catalog, db: Db, step: Step)
    requires ShippingOk(db)
    ensures ShippingOk(After(cat, db, step))
  {
    hide Apply, ShipsItsUnits;
    if IsShipping(step) {
      ShippingStepKeepsShipping(cat, db, step);
    } else {
      OtherStepLogs(cat, db, step);
      OtherStepLeavesUnits(cat, db, step);
      QuietStepKeepsShipping(db, After(cat, db, step));
    }
  }

  lemma {:induction false} RunKeepsShipping(cat: Catalog, db: Db, steps: seq<Step>)
    requires ShippingOk(db)
    ensures ShippingOk(Run(cat, db, steps))
    decreases |steps|
  {
    hide After, ShippingOk;
    if steps != [] {
      StepKeepsShipping(cat, db, steps[0]);
      RunKeepsShipping(cat, After(cat, db, steps[0]), steps[1..]);
    }
  }

  // ---------- No unit dispatched twice: nothing is shipped that was not packed ----------

  ghost predicate Ships(shipments: seq<Shipment>, s: nat, unit: Id) {
    s < |shipments| && shipments[s].status == Dispatched && Linked(shipments[s].links, unit)
  }

  ghost predicate NoUnitShipsTwice(shipments: seq<Shipment>) {
    forall s: nat, t: nat, unit: Id | s < t :: !(Ships(shipments, s, unit) && Ships(shipments, t, unit))
  }

  /** Contents of the dispatched ones among the first n shipments. */
  function LoadedIn(shipments: seq<Shipment>, n: nat, units: seq<HandlingUnit>, product: Id): real
    requires n <= |shipments|
  {
    if n == 0 then 0.0 else LoadedIn(shipments, n - 1, units, product) + Loaded(shipments[n - 1], units, product)
  }

  lemma {:induction false} ShippedWithinLoaded(db: Db, n: nat, product: Id)
    requires ShippingOk(db) && n <= |db.shipments|
    ensures ShippedOf(db.moves, n, product) <= LoadedIn(db.shipments, n, db.units, product)
  {
    hide Tally, Loaded, UnitsPositive;
    if n > 0 {
      ShippedWithinLoaded(db, n - 1, product);
      assert ShipsItsUnits(db, n - 1, product);
    }
  }

  /** One unit more: it adds its contents at most once, for the one shipment that took it. */
  lemma {:induction false} OneMoreUnit(shipments: seq<Shipment>, n: nat, units: seq<HandlingUnit>, product: Id)
    requires n <= |shipments| && units != [] && NoUnitShipsTwice(shipments)
    ensures var u := |units| - 1;
            LoadedIn(shipments, n, units, product) == LoadedIn(shipments, n, units[..u], product)
              + (if exists s: nat | s < n ::
                  Ships(shipments, s, u) then ContentsOfUnit(units[u].lines, product) else 0.0)
  {
    hide ContentsOfUnit, Linked;
    if n > 0 {
      var u := |units| - 1;
      OneMoreUnit(shipments, n - 1, units, product);
      assert Loaded(shipments[n - 1], units, product) == Loaded(shipments[n - 1], units[..u], product)
        + (if Ships(shipments, n - 1, u) then ContentsOfUnit(units[u].lines, product) else 0.0);
      if Ships(shipments, n - 1, u) {
        assert forall s: nat | s < n - 1 :: !Ships(shipments, s, u);
      } else {
        assert forall s: nat | s < n && Ships(shipments, s, u) :: s < n - 1;
      }
    }
  }

  lemma {:induction false} NothingLoaded(shipments: seq<Shipment>, n: nat, product: Id)
    requires n <= |shipments|
    ensures LoadedIn(shipments, n, [], product) == 0.0
  {
    if n > 0 {
      NothingLoaded(shipments, n - 1, product);
    }
  }

  lemma {:induction false} LoadedWithinPacked(shipments: seq<Shipment>, units: seq<HandlingUnit>, product: Id)
    requires NoUnitShipsTwice(shipments) && UnitsPositive(units)
    ensures LoadedIn(shipments, |shipments|, units, product) <= PackedOf(units, product)
  {
    hide NoUnitShipsTwice, Ships;
    if units == [] {
      NothingLoaded(shipments, |shipments|, product);
    } else {
      LoadedWithinPacked(shipments, units[..|units| - 1], product);
      OneMoreUnit(shipments, |shipments|, units, product);
      UnitContentsGrow([], units[|units| - 1].lines, product);
    }
  }

  /**
   * After any sequence of calls no shipment has shipped more than its units hold now, and if no unit went out with
   * two shipments, no more of a product has been shipped than packed.
   */
  lemma ShippedWithinPacked(cat: Catalog, steps: seq<Step>, product: Id)
    ensures var db := Run(cat, EMPTY_DB, steps);
            && (forall s: Id | s < |db.shipments| ::
                  Tally(db.moves, ShippedBy(s, product)) <= Loaded(db.shipments[s], db.units, product))
            && (NoUnitShipsTwice(db.shipments) ==>
                  ShippedOf(db.moves, |db.shipments|, product) <= PackedOf(db.units, product))
  {
    hide Run, Loaded, NoUnitShipsTwice, UnitsPositive;
    EmptyDbShips();
    RunKeepsShipping(cat, EMPTY_DB, steps);
    var db := Run(cat, EMPTY_DB, steps);
    forall s: Id | s < |db.shipments|
      ensures Tally(db.moves, ShippedBy(s, product)) <= Loaded(db.shipments[s], db.units, product)
    {
      assert ShipsItsUnits(db, s, product);
    }
    if NoUnitShipsTwice(db.shipments) {
      ShippedWithinLoaded(db, |db.shipments|, product);
      LoadedWithinPacked(db.shipments, db.units, product);
    }
  }

  lemma EmptyDbShips()
    ensures ShippingOk(EMPTY_DB)
  {
    forall s: Id, product ensures ShipsItsUnits(EMPTY_DB, s, product) {
    }
  }
}
