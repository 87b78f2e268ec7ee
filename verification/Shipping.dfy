/** Outbound orders, packing into handling units, and dispatch. */
module Shipping {
  import opened Wrappers
  import opened Domain
  import opened Stock

  // ---------- Orders ----------

  datatype OrderInput = OrderInput(product: Id, qty: real, uom: string)

  function NewOrderLine(input: OrderInput): OrderLine {
    OrderLine(input.product, input.qty, 0.0, 0.0, input.uom)
  }

  function NewOrderLines(inputs: seq<OrderInput>): (r: seq<OrderLine>)
    ensures |r| == |inputs| && forall i | 0 <= i < |r| :: r[i] == NewOrderLine(inputs[i])
  {
    if inputs == [] then [] else NewOrderLines(inputs[..|inputs| - 1]) + [NewOrderLine(inputs[|inputs| - 1])]
  }

  function CreateOrder(cat: Catalog, db: Db, warehouse: Id, inputs: seq<OrderInput>): Result<Db, Error> {
    if warehouse !in cat.warehouses then Err(NotFound) else
    if inputs == [] then Err(BadRequest) else
    if exists i | 0 <= i < |inputs| :: inputs[i].product !in cat.products then Err(BadRequest) else
    Ok(db.(orders := db.orders + [Order(warehouse, OrderDraft, NewOrderLines(inputs))]))
  }

  // ---------- Packing ----------

  datatype PackItem = PackItem(orderLine: Id, product: Id, batch: Option<Id>, qty: real, uom: string)

  function PackedInUnit(lines: seq<PackedLine>, order: Id, orderLine: Id): real {
    if lines == [] then 0.0 else
    var n := |lines| - 1;
    PackedInUnit(lines[..n], order, orderLine)
    + (if lines[n].order == order && lines[n].orderLine == orderLine then lines[n].qty else 0.0)
  }

  /** Quantity packed for an order line over all handling units. */
  function Packed(units: seq<HandlingUnit>, order: Id, orderLine: Id): real {
    if units == [] then 0.0 else
    var n := |units| - 1;
    Packed(units[..n], order, orderLine) + PackedInUnit(units[n].lines, order, orderLine)
  }

  function CreateUnit(cat: Catalog, db: Db, warehouse: Id): Result<Db, Error> {
    if warehouse !in cat.warehouses then Err(NotFound)
    else Ok(db.(units := db.units + [HandlingUnit(warehouse, [])]))
  }

  function PackOne(
      units: seq<HandlingUnit>, unit: Id, order: Id, lines: seq<OrderLine>, item: PackItem)
    : (r: Result<seq<HandlingUnit>, Error>)
    requires unit < |units|
    ensures r.Ok? ==> |r.value| == |units|
  {
    if item.orderLine >= |lines| then Err(BadRequest) else
    if lines[item.orderLine].product != item.product then Err(BadRequest) else
    if item.qty <= 0.0 then Err(BadRequest) else
    if Packed(units, order, item.orderLine) + item.qty > lines[item.orderLine].pickedQty then Err(BadRequest) else
    var line := PackedLine(order, item.orderLine, item.product, item.batch, item.qty, item.uom);
    Ok(units[unit := units[unit].(lines := units[unit].lines + [line])])
  }

  function PackAll(
      units: seq<HandlingUnit>, unit: Id, order: Id, lines: seq<OrderLine>, items: seq<PackItem>)
    : (r: Result<seq<HandlingUnit>, Error>)
    requires unit < |units|
    ensures r.Ok? ==> |r.value| == |units|
    decreases |items|
  {
    if items == [] then Ok(units) else
    match PackOne(units, unit, order, lines, items[0])
    case Err(e) => Err(e)
    case Ok(next) => PackAll(next, unit, order, lines, items[1..])
  }

  function AddItems(db: Db, unit: Id, order: Id, items: seq<PackItem>): Result<Db, Error> {
    if unit >= |db.units| then Err(NotFound) else
    if order >= |db.orders| then Err(NotFound) else
    if db.orders[order].warehouse != db.units[unit].warehouse then Err(BadRequest) else
    match PackAll(db.units, unit, order, db.orders[order].lines, items)
    case Err(e) => Err(e)
    case Ok(units) => Ok(db.(units := units))
  }

  lemma {:induction false} PackedOfUpdated(
      units: seq<HandlingUnit>, unit: Id, line: PackedLine, order: Id, orderLine: Id)
    requires unit < |units|
    ensures Packed(units[unit := units[unit].(lines := units[unit].lines + [line])], order, orderLine)
         == Packed(units, order, orderLine)
             + (if line.order == order && line.orderLine == orderLine then line.qty else 0.0)
  {
    var n := |units| - 1;
    var grown := units[unit].(lines := units[unit].lines + [line]);
    assert grown.lines[..|units[unit].lines|] == units[unit].lines;
    if unit == n {
      assert units[unit := grown][..n] == units[..n];
    } else {
      assert units[unit := grown][..n] == units[..n][unit := grown];
      PackedOfUpdated(units[..n], unit, line, order, orderLine);
    }
  }

  lemma PackOneStaysWithinPicked(
    units: seq<HandlingUnit>, unit: Id, order: Id, lines: seq<OrderLine>, item: PackItem, other: Id, at: Id)
    requires unit < |units|
    ensures var r := PackOne(units, unit, order, lines, item);
            r.Ok? ==>
              if other == order && at == item.orderLine
              then at < |lines| && Packed(units, other, at) < Packed(r.value, other, at) <= lines[at].pickedQty
              else Packed(r.value, other, at) == Packed(units, other, at)
  {
    PackedOfUpdated(units, unit, PackedLine(order, item.orderLine, item.product, item.batch, item.qty, item.uom),
        other, at);
  }

  predicate Names(items: seq<PackItem>, at: Id) {
    exists i | 0 <= i < |items| :: items[i].orderLine == at
  }

  /**
   * An accepted packing call takes the lines it names up to their picked quantity at most, and no other line anywhere.
   */
  lemma {:induction false} PackingStaysWithinPicked(
    units: seq<HandlingUnit>, unit: Id, order: Id, lines: seq<OrderLine>, items: seq<PackItem>, other: Id, at: Id)
    requires unit < |units|
    ensures var r := PackAll(units, unit, order, lines, items);
            r.Ok? ==>
              if other == order && Names(items, at)
              then at < |lines| && Packed(units, other, at) < Packed(r.value, other, at) <= lines[at].pickedQty
              else Packed(r.value, other, at) == Packed(units, other, at)
    decreases |items|
  {
    if items != [] {
      var next := PackOne(units, unit, order, lines, items[0]);
      if next.Ok? {
        PackOneStaysWithinPicked(units, unit, order, lines, items[0], other, at);
        PackingStaysWithinPicked(next.value, unit, order, lines, items[1..], other, at);
        NamesInTurn(items, at);
      }
    }
  }

  lemma NamesInTurn(items: seq<PackItem>, at: Id)
    requires items != []
    ensures Names(items, at) <==> items[0].orderLine == at || Names(items[1..], at)
  {
    assert forall i | 0 < i < |items| :: items[i] == items[1..][i - 1];
    if Names(items[1..], at) {
      var i :| 0 <= i < |items[1..]| && items[1..][i].orderLine == at;
      assert items[i + 1].orderLine == at;
    }
  }

  // ---------- Shipments ----------

  function CreateShipment(cat: Catalog, db: Db, warehouse: Id): Result<Db, Error> {
    if warehouse !in cat.warehouses then Err(NotFound)
    else Ok(db.(shipments := db.shipments + [Shipment(warehouse, Planned, [])]))
  }

  /** Link the unit to every order it holds lines of, once. */
  function LinkUnit(links: seq<(Id, Id)>, before: seq<(Id, Id)>, unit: Id, lines: seq<PackedLine>): seq<(Id, Id)> {
    if lines == [] then links else
    var n := |lines| - 1;
    var earlier := LinkUnit(links, before, unit, lines[..n]);
    if (unit, lines[n].order) in before || (unit, lines[n].order) in earlier then earlier
        else earlier + [(unit, lines[n].order)]
  }

  function LinkUnits(
      links: seq<(Id, Id)>, before: seq<(Id, Id)>, units: seq<HandlingUnit>, ids: seq<Id>): Result<seq<(Id, Id)>, Error>
    requires forall i | 0 <= i < |ids| :: ids[i] < |units|
    decreases |ids|
  {
    if ids == [] then Ok(links) else
    if units[ids[0]].lines == [] then Err(BadRequest) else
    LinkUnits(LinkUnit(links, before, ids[0], units[ids[0]].lines), before, units, ids[1..])
  }

  predicate RepeatsId(ids: seq<Id>) {
    exists i, j | 0 <= i < j < |ids| :: ids[i] == ids[j]
  }

  function AssignUnits(db: Db, id: Id, ids: seq<Id>): Result<Db, Error> {
    if id >= |db.shipments| then Err(NotFound) else
    var shipment := db.shipments[id];
    if shipment.status == Dispatched then Err(BadRequest) else
    if (exists i | 0 <= i < |ids| :: ids[i] >= |db.units|) || RepeatsId(ids) then Err(NotFound) else
    if exists i | 0 <= i < |ids| :: db.units[ids[i]].warehouse != shipment.warehouse then Err(BadRequest) else
    match LinkUnits(shipment.links, shipment.links, db.units, ids)
    case Err(e) => Err(e)
    case Ok(links) => Ok(db.(shipments := db.shipments[id := shipment.(links := links, status := Loading)]))
  }

  // ---------- Dispatch ----------

  predicate Linked(links: seq<(Id, Id)>, unit: Id) {
    exists i | 0 <= i < |links| :: links[i].0 == unit
  }

  function LogOfUnit(id: Id, lines: seq<PackedLine>): seq<Movement> {
    if lines == [] then [] else
    var n := |lines| - 1;
    LogOfUnit(id, lines[..n])
    + [Movement(OutboundShipment, ShipmentRef(id), lines[n].product, lines[n].batch, None, None, lines[n].qty,
        lines[n].uom)]
  }

  /** One movement line per packed line of every linked unit. */
  function DispatchLog(id: Id, links: seq<(Id, Id)>, units: seq<HandlingUnit>): seq<Movement> {
    if units == [] then [] else
    var n := |units| - 1;
    DispatchLog(id, links, units[..n]) + (if Linked(links, n) then LogOfUnit(id, units[n].lines) else [])
  }

  function Dispatch(db: Db, id: Id): Result<Db, Error> {
    if id >= |db.shipments| then Err(NotFound) else
    var shipment := db.shipments[id];
    if shipment.status != Planned && shipment.status != Loading then Err(BadRequest) else
    if shipment.links == [] then Err(BadRequest) else
    Ok(db.(moves := db.moves + DispatchLog(id, shipment.links, db.units),
           shipments := db.shipments[id := shipment.(status := Dispatched)]))
  }

  function ContentsOfUnit(lines: seq<PackedLine>, product: Id): real {
    if lines == [] then 0.0 else
    var n := |lines| - 1;
    ContentsOfUnit(lines[..n], product) + (if lines[n].product == product then lines[n].qty else 0.0)
  }

  /** Quantity of a product in the linked units. */
  function Contents(links: seq<(Id, Id)>, units: seq<HandlingUnit>, product: Id): real {
    if units == [] then 0.0 else
    var n := |units| - 1;
    Contents(links, units[..n], product) + (if Linked(links, n) then ContentsOfUnit(units[n].lines, product) else 0.0)
  }

  lemma {:induction false} UnitLogReads(id: Id, lines: seq<PackedLine>, meter: Meter)
    requires meter.NetInto? || meter.ReceivedBy? || meter.ShippedBy?
    ensures Tally(LogOfUnit(id, lines), meter)
         == if meter.ShippedBy? && meter.shipment == id then ContentsOfUnit(lines, meter.shipped) else 0.0
  {
    if lines != [] {
      var n := |lines| - 1;
      UnitLogReads(id, lines[..n], meter);
      TallyOfAppended(LogOfUnit(id, lines[..n]),
        Movement(OutboundShipment, ShipmentRef(id), lines[n].product, lines[n].batch, None, None, lines[n].qty,
            lines[n].uom), meter);
    }
  }

  /**
   * Dispatch logs exactly the contents of the linked units, for its shipment, and none of it enters or leaves a
   * location.
   */
  lemma {:induction false} DispatchLogReads(id: Id, links: seq<(Id, Id)>, units: seq<HandlingUnit>, meter: Meter)
    requires meter.NetInto? || meter.ReceivedBy? || meter.ShippedBy?
    ensures Tally(DispatchLog(id, links, units), meter)
         == if meter.ShippedBy? && meter.shipment == id then Contents(links, units, meter.shipped) else 0.0
  {
    if units != [] {
      var n := |units| - 1;
      DispatchLogReads(id, links, units[..n], meter);
      UnitLogReads(id, units[n].lines, meter);
      TallyOfConcatenation(DispatchLog(id, links, units[..n]),
                           if Linked(links, n) then LogOfUnit(id, units[n].lines) else [], meter);
    }
  }

  lemma DispatchShipsTheContents(db: Db, id: Id, product: Id)
    ensures var r := Dispatch(db, id);
            r.Ok? ==>
              && r.value.rows == db.rows
              && Tally(r.value.moves, ShippedBy(id, product)) - Tally(db.moves, ShippedBy(id, product))
                 == Contents(db.shipments[id].links, db.units, product)
  {
    if Dispatch(db, id).Ok? {
      var log := DispatchLog(id, db.shipments[id].links, db.units);
      TallyOfConcatenation(db.moves, log, ShippedBy(id, product));
      DispatchLogReads(id, db.shipments[id].links, db.units, ShippedBy(id, product));
    }
  }

  lemma DispatchKeepsStock(db: Db, id: Id)
    requires StockOk(db.rows, db.moves)
    ensures var r := Dispatch(db, id);
            r.Ok? ==> StockOk(r.value.rows, r.value.moves)
  {
    var r := Dispatch(db, id);
    if r.Ok? {
      var log := DispatchLog(id, db.shipments[id].links, db.units);
      forall k ensures InBalance(r.value.rows, r.value.moves, k) {
        assert InBalance(db.rows, db.moves, k);
        TallyOfConcatenation(db.moves, log, NetInto(k));
        DispatchLogReads(id, db.shipments[id].links, db.units, NetInto(k));
      }
    }
  }
}
