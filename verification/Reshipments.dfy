/** When a dispatch ships exactly what was packed and still waiting, and when it ships something again. */
module Reshipments {
  import opened Domain
  import opened Stock
  import opened Shipping
  import opened Machine
  import opened Dispatches
  import opened RunBounds

  /** The unit has left with some shipment. */
  predicate Gone(shipments: seq<Shipment>, unit: Id) {
    exists s | 0 <= s < |shipments| :: shipments[s].status == Dispatched && Linked(shipments[s].links, unit)
  }

  /** Quantity of a product packed in units that have not left yet. */
  function Waiting(shipments: seq<Shipment>, units: seq<HandlingUnit>, product: Id): real {
    if units == [] then 0.0 else
    var n := |units| - 1;
    Waiting(shipments, units[..n], product)
    + (if Gone(shipments, n) then 0.0 else ContentsOfUnit(units[n].lines, product))
  }

  /** Quantity of a product in the linked units that have left before. */
  function Again(
      links: seq<(Id, Id)>, shipments: seq<Shipment>, units: seq<HandlingUnit>, product: Id): (r: real)
  {
    if units == [] then 0.0 else
    var n := |units| - 1;
    Again(links, shipments, units[..n], product)
    + (if Linked(links, n) && Gone(shipments, n) then ContentsOfUnit(units[n].lines, product) else 0.0)
  }

  lemma GoneAfter(shipments: seq<Shipment>, id: Id, unit: Id)
    requires id < |shipments| && shipments[id].status != Dispatched
    ensures Gone(shipments[id := shipments[id].(status := Dispatched)], unit)
        <==> Gone(shipments, unit) || Linked(shipments[id].links, unit)
  {
    hide Linked;
    var after := shipments[id := shipments[id].(status := Dispatched)];
    if Gone(shipments, unit) {
      var s :| 0 <= s < |shipments| && shipments[s].status == Dispatched && Linked(shipments[s].links, unit);
      assert after[s] == shipments[s];
    }
    if Linked(shipments[id].links, unit) {
      assert after[id].status == Dispatched && Linked(after[id].links, unit);
    }
  }

  /** What a dispatch ships either was waiting or had left before. */
  lemma {:induction false} ShippedWasWaitingOrGone(
    shipments: seq<Shipment>, id: Id, units: seq<HandlingUnit>, product: Id)
    requires id < |shipments| && shipments[id].status != Dispatched
    ensures var after := shipments[id := shipments[id].(status := Dispatched)];
            var links := shipments[id].links;
            Contents(links, units, product) == Waiting(shipments, units, product) - Waiting(after, units, product)
                                               + Again(links, shipments, units, product)
  {
    hide Linked, Gone, ContentsOfUnit;
    if units != [] {
      ShippedWasWaitingOrGone(shipments, id, units[..|units| - 1], product);
      GoneAfter(shipments, id, |units| - 1);
    }
  }

  ghost predicate LinksHoldLines(links: seq<(Id, Id)>, units: seq<HandlingUnit>) {
    forall i | 0 <= i < |links| :: links[i].0 < |units| && units[links[i].0].lines != []
  }

  lemma {:induction false} AgainIsNotNegative(
    links: seq<(Id, Id)>, shipments: seq<Shipment>, units: seq<HandlingUnit>, product: Id)
    requires UnitsPositive(units)
    ensures 0.0 <= Again(links, shipments, units, product)
    ensures forall u | 0 <= u < |units| && Linked(links, u) && Gone(shipments, u) ::
              ContentsOfUnit(units[u].lines, product) <= Again(links, shipments, units, product)
  {
    hide Linked, Gone, ContentsOfUnit;
    if units != [] {
      var n := |units| - 1;
      AgainIsNotNegative(links, shipments, units[..n], product);
      UnitContentsGrow([], units[n].lines, product);
      EmptyUnitHoldsNothing(product);
    }
  }

  lemma EmptyUnitHoldsNothing(product: Id)
    ensures ContentsOfUnit([], product) == 0.0
  {
  }

  lemma {:induction false} NothingAgain(
    links: seq<(Id, Id)>, shipments: seq<Shipment>, units: seq<HandlingUnit>, product: Id)
    requires forall u: nat | Linked(links, u) :: !Gone(shipments, u)
    ensures Again(links, shipments, units, product) == 0.0
  {
    hide Linked, Gone, ContentsOfUnit;
    if units != [] {
      NothingAgain(links, shipments, units[..|units| - 1], product);
    }
  }

  /** Something of some product is shipped again exactly when a linked unit has left before. */
  lemma NothingAgainIff(links: seq<(Id, Id)>, shipments: seq<Shipment>, units: seq<HandlingUnit>)
    requires UnitsPositive(units) && LinksHoldLines(links, units)
    ensures (forall product: Id :: Again(links, shipments, units, product) == 0.0)
        <==> (forall u: nat | Linked(links, u) :: !Gone(shipments, u))
  {
    hide Gone, ContentsOfUnit, Again, UnitsPositive;
    if forall u: nat | Linked(links, u) :: !Gone(shipments, u) {
      forall product: Id ensures Again(links, shipments, units, product) == 0.0 {
        NothingAgain(links, shipments, units, product);
      }
    } else {
      var u: nat :| Linked(links, u) && Gone(shipments, u);
      var lines := units[u].lines;
      var product := lines[|lines| - 1].product;
      AgainIsNotNegative(links, shipments, units, product);
      UnitHoldsItsLast(units, u);
      assert Again(links, shipments, units, product) > 0.0;
    }
  }

  lemma UnitHoldsItsLast(units: seq<HandlingUnit>, u: Id)
    requires UnitsPositive(units) && u < |units| && units[u].lines != []
    ensures 0.0 < ContentsOfUnit(units[u].lines, units[u].lines[|units[u].lines| - 1].product)
  {
    var lines := units[u].lines;
    assert LinesPositive(lines);
    UnitContentsGrow([], lines[..|lines| - 1], lines[|lines| - 1].product);
    EmptyUnitHoldsNothing(lines[|lines| - 1].product);
  }

  // ---------- Linked units hold lines in every state ----------

  ghost predicate LinksOk(db: Db) {
    forall s | 0 <= s < |db.shipments| :: LinksHoldLines(db.shipments[s].links, db.units)
  }

  lemma {:induction false} LinkUnitKeepsLinks(
    links: seq<(Id, Id)>, before: seq<(Id, Id)>, units: seq<HandlingUnit>, unit: Id, lines: seq<PackedLine>)
    requires LinksHoldLines(links, units) && unit < |units| && units[unit].lines != []
    ensures LinksHoldLines(LinkUnit(links, before, unit, lines), units)
  {
    if lines != [] {
      LinkUnitKeepsLinks(links, before, units, unit, lines[..|lines| - 1]);
    }
  }

  lemma {:induction false} LinkUnitsKeepsLinks(
    links: seq<(Id, Id)>, before: seq<(Id, Id)>, units: seq<HandlingUnit>, ids: seq<Id>)
    requires forall i | 0 <= i < |ids| :: ids[i] < |units|
    requires LinksHoldLines(links, units)
    ensures var r := LinkUnits(links, before, units, ids);
            r.Ok? ==> LinksHoldLines(r.value, units)
    decreases |ids|
  {
    hide LinksHoldLines, LinkUnit;
    if ids != [] && units[ids[0]].lines != [] {
      LinkUnitKeepsLinks(links, before, units, ids[0], units[ids[0]].lines);
      LinkUnitsKeepsLinks(LinkUnit(links, before, ids[0], units[ids[0]].lines), before, units, ids[1..]);
    }
  }

  lemma LinksOutliveGrowth(links: seq<(Id, Id)>, before: seq<HandlingUnit>, after: seq<HandlingUnit>)
    requires LinksHoldLines(links, before) && UnitsGrow(before, after)
    ensures LinksHoldLines(links, after)
  {
    forall i | 0 <= i < |links| ensures links[i].0 < |after| && after[links[i].0].lines != [] {
      assert before[links[i].0].lines <= after[links[i].0].lines;
    }
  }

  lemma PackingKeepsLinks(db: Db, unit: Id, order: Id, items: seq<PackItem>)
    requires UnitsPositive(db.units) && LinksOk(db)
    ensures var r := AddItems(db, unit, order, items);
            r.Ok? ==> LinksOk(r.value)
  {
    hide PackAll, UnitsPositive, LinksHoldLines;
    var r := AddItems(db, unit, order, items);
    if r.Ok? {
      PackingGrowsUnits(db.units, unit, order, db.orders[order].lines, items);
      forall s | 0 <= s < |db.shipments| ensures LinksHoldLines(r.value.shipments[s].links, r.value.units) {
        LinksOutliveGrowth(db.shipments[s].links, db.units, r.value.units);
      }
    }
  }

  lemma CreatingKeepsLinks(cat: Catalog, db: Db, warehouse: Id)
    requires LinksOk(db)
    ensures var r := CreateUnit(cat, db, warehouse);
            r.Ok? ==> LinksOk(r.value)
  {
    hide LinksHoldLines;
    var r := CreateUnit(cat, db, warehouse);
    if r.Ok? {
      forall s | 0 <= s < |db.shipments| ensures LinksHoldLines(r.value.shipments[s].links, r.value.units) {
        LinksOutliveGrowth(db.shipments[s].links, db.units, r.value.units);
      }
    }
  }

  lemma AssigningKeepsLinks(db: Db, id: Id, ids: seq<Id>)
    requires LinksOk(db)
    ensures var r := AssignUnits(db, id, ids);
            r.Ok? ==> LinksOk(r.value)
  {
    hide LinkUnits, LinksHoldLines, RepeatsId;
    if AssignUnits(db, id, ids).Ok? {
      LinkUnitsKeepsLinks(db.shipments[id].links, db.shipments[id].links, db.units, ids);
    }
  }

  lemma StepKeepsLinks(cat: Catalog, db: Db, step: Step)
    requires UnitsPositive(db.units) && LinksOk(db)
    ensures LinksOk(After(cat, db, step))
  {
    hide UnitsPositive, AddItems, AssignUnits, CreateUnit, DispatchLog, Linked;
    if IsShipping(step) {
      match step
      case AddItemsStep(u, o, i) => PackingKeepsLinks(db, u, o, i);
      case AssignUnitsStep(s, u) => AssigningKeepsLinks(db, s, u);
      case CreateUnitStep(w) => CreatingKeepsLinks(cat, db, w);
      case CreateShipmentStep(_) =>
      case DispatchStep(_) =>
    } else {
      OtherStepLeavesUnits(cat, db, step);
    }
  }

  lemma {:induction false} RunKeepsLinks(cat: Catalog, db: Db, steps: seq<Step>)
    requires ShippingOk(db) && LinksOk(db)
    ensures ShippingOk(Run(cat, db, steps)) && LinksOk(Run(cat, db, steps))
    decreases |steps|
  {
    hide After, ShipsItsUnits, LinksOk, UnitsPositive;
    if steps != [] {
      StepKeepsShipping(cat, db, steps[0]);
      StepKeepsLinks(cat, db, steps[0]);
      RunKeepsLinks(cat, After(cat, db, steps[0]), steps[1..]);
    }
  }

  // ---------- Main result ----------

  /** What an accepted dispatch logs as shipped. */
  function NewlyShipped(before: Db, after: Db, id: Id, product: Id): real {
    Tally(after.moves, ShippedBy(id, product)) - Tally(before.moves, ShippedBy(id, product))
  }

  /** What it takes out of the packed goods that still wait. */
  function NoLongerWaiting(before: Db, after: Db, product: Id): real {
    Waiting(before.shipments, before.units, product) - Waiting(after.shipments, after.units, product)
  }

  lemma OneDispatch(db: Db, id: Id, product: Id)
    ensures var r := Dispatch(db, id);
            r.Ok? ==>
              NewlyShipped(db, r.value, id, product) - NoLongerWaiting(db, r.value, product)
              == Again(db.shipments[id].links, db.shipments, db.units, product)
  {
    hide DispatchLog, Linked;
    if Dispatch(db, id).Ok? {
      DispatchShipsTheContents(db, id, product);
      ShippedWasWaitingOrGone(db.shipments, id, db.units, product);
    }
  }

  /**
   * After any sequence of calls: an accepted dispatch ships, product by product, exactly what leaves the goods that
   * wait, if and only if none of the units linked to the shipment has left before.
   */
  lemma DispatchShipsWhatWaitsIff(cat: Catalog, steps: seq<Step>, id: Id)
    ensures var db := Run(cat, EMPTY_DB, steps);
            var r := Dispatch(db, id);
            r.Ok? ==>
              ((forall product: Id ::
                  NewlyShipped(db, r.value, id, product) == NoLongerWaiting(db, r.value, product))
               <==> (forall u: nat | Linked(db.shipments[id].links, u) :: !Gone(db.shipments, u)))
  {
    hide Run, ShipsItsUnits, UnitsPositive, LinksHoldLines, Linked, Gone, DispatchLog, NewlyShipped, NoLongerWaiting,
      Again, Waiting;
    EmptyDbShips();
    RunKeepsLinks(cat, EMPTY_DB, steps);
    var db := Run(cat, EMPTY_DB, steps);
    var r := Dispatch(db, id);
    if r.Ok? {
      var links := db.shipments[id].links;
      NothingAgainIff(links, db.shipments, db.units);
      forall product: Id
        ensures NewlyShipped(db, r.value, id, product) - NoLongerWaiting(db, r.value, product)
             == Again(links, db.shipments, db.units, product)
      {
        OneDispatch(db, id, product);
      }
      if forall product: Id :: NewlyShipped(db, r.value, id, product) == NoLongerWaiting(db, r.value, product) {
        forall product: Id ensures Again(links, db.shipments, db.units, product) == 0.0 {
          assert NewlyShipped(db, r.value, id, product) == NoLongerWaiting(db, r.value, product);
        }
      } else {
        var product: Id :| NewlyShipped(db, r.value, id, product) != NoLongerWaiting(db, r.value, product);
        if forall u: nat | Linked(links, u) :: !Gone(db.shipments, u) {
          NothingAgain(links, db.shipments, db.units, product);
          assert false;
        }
      }
    }
  }

  // ---------- Whole runs ----------

  /** A dispatch, as it can be checked before it is made, carries no unit that has left before. */
  ghost predicate CarriesNoGoneUnit(db: Db, step: Step) {
    step.DispatchStep? && step.shipment < |db.shipments| ==>
      forall u: nat | Linked(db.shipments[step.shipment].links, u) :: !Gone(db.shipments, u)
  }

  lemma ShipsTwiceIfGone(shipments: seq<Shipment>, id: Id, unit: Id)
    requires id < |shipments| && shipments[id].status != Dispatched
    requires Gone(shipments, unit) && Linked(shipments[id].links, unit)
    ensures !NoUnitShipsTwice(shipments[id := shipments[id].(status := Dispatched)])
  {
    hide Linked;
    var after := shipments[id := shipments[id].(status := Dispatched)];
    var s: nat :| s < |shipments| && shipments[s].status == Dispatched && Linked(shipments[s].links, unit);
    assert Ships(after, s, unit) && Ships(after, id, unit);
  }

  lemma DispatchShipsOnceIff(db: Db, id: Id)
    requires NoUnitShipsTwice(db.shipments)
    ensures var r := Dispatch(db, id);
            r.Ok? ==>
              (NoUnitShipsTwice(r.value.shipments)
               <==> forall u: nat | Linked(db.shipments[id].links, u) :: !Gone(db.shipments, u))
  {
    hide Linked, DispatchLog;
    var r := Dispatch(db, id);
    if r.Ok? {
      var before, after := db.shipments, r.value.shipments;
      assert forall s: nat, u: nat ::
        Ships(after, s, u) <==> Ships(before, s, u) || (s == id && Linked(before[id].links, u));
      if NoUnitShipsTwice(after) {
        forall u: nat | Linked(before[id].links, u) ensures !Gone(before, u) {
          if Gone(before, u) {
            ShipsTwiceIfGone(before, id, u);
          }
        }
      }
      if forall u: nat | Linked(before[id].links, u) :: !Gone(before, u) {
        forall s: nat, t: nat, u: Id | s < t ensures !(Ships(after, s, u) && Ships(after, t, u)) {
          assert !(Ships(before, s, u) && Ships(before, t, u));
        }
      }
    }
  }

  lemma KeptShipmentsShipOnce(before: seq<Shipment>, after: seq<Shipment>)
    requires NoUnitShipsTwice(before) && ShipmentsKept(before, after)
    ensures NoUnitShipsTwice(after)
  {
    hide Linked;
    forall s: nat, t: nat, u: Id | s < t ensures !(Ships(after, s, u) && Ships(after, t, u)) {
      assert !(Ships(before, s, u) && Ships(before, t, u));
    }
  }

  lemma OtherStepKeepsShipments(cat: Catalog, db: Db, step: Step)
    requires !step.DispatchStep?
    ensures ShipmentsKept(db.shipments, After(cat, db, step).shipments)
  {
    hide PackAll, LinkUnits, RepeatsId;
    if !IsShipping(step) {
      hide Apply;
      OtherStepLeavesUnits(cat, db, step);
    }
  }

  lemma StepShipsOnceIff(cat: Catalog, db: Db, step: Step)
    requires NoUnitShipsTwice(db.shipments)
    ensures NoUnitShipsTwice(After(cat, db, step).shipments)
        <==> (Apply(cat, db, step).Ok? ==> CarriesNoGoneUnit(db, step))
  {
    hide NoUnitShipsTwice, Linked, Gone, DispatchLog;
    if step.DispatchStep? {
      DispatchShipsOnceIff(db, step.shipment);
    } else {
      hide Apply;
      OtherStepKeepsShipments(cat, db, step);
      KeptShipmentsShipOnce(db.shipments, After(cat, db, step).shipments);
    }
  }

  ghost function ShippedOnce(): Db -> bool {
    (db: Db) => NoUnitShipsTwice(db.shipments)
  }

  ghost function ShipOnceRule(): (Db, Step) -> bool {
    (db: Db, step: Step) => CarriesNoGoneUnit(db, step)
  }

  /**
   * A run from an empty tenant never has a unit shipped with two shipments, in any of its states, exactly when no
   * accepted dispatch carries a unit that has left before.
   */
  lemma UnitsShipOnceIff(cat: Catalog, steps: seq<Step>)
    ensures Throughout(cat, EMPTY_DB, steps, ShippedOnce()) <==> AllRespect(cat, EMPTY_DB, steps, ShipOnceRule())
  {
    forall db, step | Inv(cat, db) && ShippedOnce()(db)
      ensures ShippedOnce()(After(cat, db, step)) <==> (Apply(cat, db, step).Ok? ==> ShipOnceRule()(db, step))
    {
      StepShipsOnceIff(cat, db, step);
    }
    RunKeepsIff(cat, steps, ShippedOnce(), ShipOnceRule());
  }
}
