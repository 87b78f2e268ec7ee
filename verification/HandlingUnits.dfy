/** What packing and loading accept, and exactly what they add to a handling unit and to a shipment. */
module HandlingUnits {
  import opened Wrappers
  import opened Domain
  import opened Sorting
  import opened Shipping

  // ---------- Packing ----------

  /** Sum of the items for an order line. */
  function ItemsOn(items: seq<PackItem>, orderLine: Id): real {
    if items == [] then 0.0 else
    (if items[0].orderLine == orderLine then items[0].qty else 0.0) + ItemsOn(items[1..], orderLine)
  }

  /** The n-th item is of its order line's product, positive, and fits under what is picked beside all packed before. */
  ghost predicate ItemFits(
      units: seq<HandlingUnit>, order: Id, lines: seq<OrderLine>, items: seq<PackItem>, n: nat)
    requires n < |items|
  {
    && items[n].orderLine < |lines|
    && lines[items[n].orderLine].product == items[n].product
    && 0.0 < items[n].qty
    && Packed(units, order, items[n].orderLine) + ItemsOn(items[..n], items[n].orderLine) + items[n].qty
       <= lines[items[n].orderLine].pickedQty
  }

  ghost predicate AllFit(units: seq<HandlingUnit>, order: Id, lines: seq<OrderLine>, items: seq<PackItem>) {
    forall n | 0 <= n < |items| :: ItemFits(units, order, lines, items, n)
  }

  /** The lines the items become. */
  function LinesOf(order: Id, items: seq<PackItem>): seq<PackedLine> {
    if items == [] then [] else
    [PackedLine(order, items[0].orderLine, items[0].product, items[0].batch, items[0].qty, items[0].uom)]
    + LinesOf(order, items[1..])
  }

  lemma {:induction false} LineOfItem(order: Id, items: seq<PackItem>, n: nat)
    requires n < |items|
    ensures |LinesOf(order, items)| == |items|
    ensures var line, item := LinesOf(order, items)[n], items[n];
            && line.order == order && line.orderLine == item.orderLine && line.product == item.product
            && line.batch == item.batch && line.qty == item.qty && line.uom == item.uom
  {
    if |items| > 1 {
      LineOfItem(order, items[1..], if n == 0 then 0 else n - 1);
    }
  }

  lemma LaterItemFits(
      units: seq<HandlingUnit>, unit: Id, order: Id, lines: seq<OrderLine>, items: seq<PackItem>, n: nat)
    requires unit < |units| && 0 < n < |items| && PackOne(units, unit, order, lines, items[0]).Ok?
    ensures var next := PackOne(units, unit, order, lines, items[0]).value;
            ItemFits(units, order, lines, items, n) <==> ItemFits(next, order, lines, items[1..], n - 1)
  {
    hide Packed;
    var first := items[0];
    assert items[1..][n - 1] == items[n];
    assert items[..n][1..] == items[1..][..n - 1] && items[..n][0] == first;
    PackedOfUpdated(units, unit, PackedLine(order, first.orderLine, first.product, first.batch, first.qty, first.uom),
        order, items[n].orderLine);
  }

  /** Items are accepted exactly when each fits beside those before it. */
  lemma {:induction false} PackAllAcceptsIff(
      units: seq<HandlingUnit>, unit: Id, order: Id, lines: seq<OrderLine>, items: seq<PackItem>)
    requires unit < |units|
    ensures PackAll(units, unit, order, lines, items).Ok? <==> AllFit(units, order, lines, items)
    decreases |items|
  {
    hide ItemFits;
    if items != [] {
      var rest := items[1..];
      var next := PackOne(units, unit, order, lines, items[0]);
      FirstItemFits(units, unit, order, lines, items);
      if next.Ok? {
        PackAllAcceptsIff(next.value, unit, order, lines, rest);
        forall n | 0 < n < |items|
          ensures ItemFits(units, order, lines, items, n) <==> ItemFits(next.value, order, lines, rest, n - 1)
        {
          LaterItemFits(units, unit, order, lines, items, n);
        }
        if AllFit(units, order, lines, items) {
          forall m | 0 <= m < |rest| ensures ItemFits(next.value, order, lines, rest, m) {
            assert ItemFits(units, order, lines, items, m + 1);
          }
        }
        if AllFit(next.value, order, lines, rest) {
          forall n | 0 <= n < |items| ensures ItemFits(units, order, lines, items, n) {
            assert n > 0 ==> ItemFits(next.value, order, lines, rest, n - 1);
          }
        }
      }
    }
  }

  lemma FirstItemFits(
      units: seq<HandlingUnit>, unit: Id, order: Id, lines: seq<OrderLine>, items: seq<PackItem>)
    requires unit < |units| && items != []
    ensures PackOne(units, unit, order, lines, items[0]).Ok? <==> ItemFits(units, order, lines, items, 0)
  {
    hide Packed;
    assert items[..0] == [];
  }

  lemma {:induction false} PackAllAppends(
      units: seq<HandlingUnit>, unit: Id, order: Id, lines: seq<OrderLine>, items: seq<PackItem>)
    requires unit < |units|
    ensures var r := PackAll(units, unit, order, lines, items);
            r.Ok? ==> r.value == units[unit := units[unit].(lines := units[unit].lines + LinesOf(order, items))]
    decreases |items|
  {
    hide PackOne, LinesOf;
    var r := PackAll(units, unit, order, lines, items);
    if items == [] {
      NoLines(order);
      assert units[unit].lines + [] == units[unit].lines;
    } else if r.Ok? {
      var next := PackOne(units, unit, order, lines, items[0]).value;
      PackAllAppends(next, unit, order, lines, items[1..]);
      FirstLine(units, unit, order, lines, items);
      AppendedTwice(units, unit, LineFor(order, items[0]), LinesOf(order, items[1..]));
    }
  }

  function LineFor(order: Id, item: PackItem): PackedLine {
    PackedLine(order, item.orderLine, item.product, item.batch, item.qty, item.uom)
  }

  function Extended(units: seq<HandlingUnit>, unit: Id, lines: seq<PackedLine>): seq<HandlingUnit>
    requires unit < |units|
  {
    units[unit := units[unit].(lines := units[unit].lines + lines)]
  }

  lemma NoLines(order: Id)
    ensures LinesOf(order, []) == []
  {
  }

  lemma FirstLine(units: seq<HandlingUnit>, unit: Id, order: Id, lines: seq<OrderLine>, items: seq<PackItem>)
    requires unit < |units| && items != [] && PackOne(units, unit, order, lines, items[0]).Ok?
    ensures PackOne(units, unit, order, lines, items[0]).value == Extended(units, unit, [LineFor(order, items[0])])
    ensures LinesOf(order, items) == [LineFor(order, items[0])] + LinesOf(order, items[1..])
  {
    hide Packed;
  }

  lemma AppendedTwice(units: seq<HandlingUnit>, unit: Id, line: PackedLine, rest: seq<PackedLine>)
    requires unit < |units|
    ensures Extended(Extended(units, unit, [line]), unit, rest) == Extended(units, unit, [line] + rest)
  {
    assert units[unit].lines + ([line] + rest) == (units[unit].lines + [line]) + rest;
  }

  /**
   * Packing is accepted exactly for a unit and an order of one warehouse and items that fit one after the other; it
   * appends one line per item to the unit, in their order, and changes nothing else.
   */
  lemma PackingOutcome(db: Db, unit: Id, order: Id, items: seq<PackItem>)
    ensures var r := AddItems(db, unit, order, items);
            && (r.Ok? <==>
                  && unit < |db.units| && order < |db.orders| && db.orders[order].warehouse == db.units[unit].warehouse
                  && AllFit(db.units, order, db.orders[order].lines, items))
            && (r.Ok? ==>
                  && |LinesOf(order, items)| == |items|
                  && r.value == db.(units := db.units[unit :=
                       db.units[unit].(lines := db.units[unit].lines + LinesOf(order, items))]))
  {
    hide PackAll, AllFit;
    if unit < |db.units| && order < |db.orders| {
      PackAllAcceptsIff(db.units, unit, order, db.orders[order].lines, items);
      PackAllAppends(db.units, unit, order, db.orders[order].lines, items);
      if items != [] {
        LineOfItem(order, items, 0);
      }
    }
  }

  // ---------- Loading ----------

  /** The unit holds a line of the order. */
  predicate Holds(lines: seq<PackedLine>, order: Id) {
    exists i | 0 <= i < |lines| :: lines[i].order == order
  }

  lemma {:induction false} LinkUnitLinks(
      links: seq<(Id, Id)>, before: seq<(Id, Id)>, unit: Id, lines: seq<PackedLine>, link: (Id, Id))
    requires forall i | 0 <= i < |before| :: before[i] in links
    ensures link in LinkUnit(links, before, unit, lines) <==> link in links || (link.0 == unit && Holds(lines, link.1))
    ensures (forall i | 0 <= i < |links| && links[i].0 == unit :: links[i] in before) && Distinct(links) ==>
              Distinct(LinkUnit(links, before, unit, lines))
    ensures forall i | 0 <= i < |LinkUnit(links, before, unit, lines)| ::
              LinkUnit(links, before, unit, lines)[i] in links || LinkUnit(links, before, unit, lines)[i].0 == unit
  {
    if lines != [] {
      var n := |lines| - 1;
      LinkUnitLinks(links, before, unit, lines[..n], link);
      LinkUnitLinks(links, before, unit, lines[..n], (unit, lines[n].order));
      HoldsInTurn(lines, link.1);
    }
  }

  lemma HoldsInTurn(lines: seq<PackedLine>, order: Id)
    requires lines != []
    ensures var n := |lines| - 1;
            Holds(lines, order) <==> Holds(lines[..n], order) || lines[n].order == order
  {
    var n := |lines| - 1;
    if Holds(lines[..n], order) {
      var i :| 0 <= i < n && lines[..n][i].order == order;
      assert lines[i].order == order;
    }
  }

  lemma {:induction false} LinkUnitsLinks(
      links: seq<(Id, Id)>, before: seq<(Id, Id)>, units: seq<HandlingUnit>, ids: seq<Id>, link: (Id, Id))
    requires forall i | 0 <= i < |ids| :: ids[i] < |units|
    requires forall i | 0 <= i < |before| :: before[i] in links
    ensures var r := LinkUnits(links, before, units, ids);
            && (r.Ok? <==> forall i | 0 <= i < |ids| :: units[ids[i]].lines != [])
            && (r.Ok? ==> (link in r.value <==>
                  link in links || (link.0 in ids && Holds(units[link.0].lines, link.1))))
    decreases |ids|
  {
    hide LinkUnit, Holds;
    if ids != [] {
      assert forall i | 0 < i < |ids| :: ids[i] == ids[1..][i - 1];
      if units[ids[0]].lines != [] {
        var next := LinkUnit(links, before, ids[0], units[ids[0]].lines);
        LinkUnitLinks(links, before, ids[0], units[ids[0]].lines, link);
        forall i | 0 <= i < |before| ensures before[i] in next {
          LinkUnitLinks(links, before, ids[0], units[ids[0]].lines, before[i]);
        }
        LinkUnitsLinks(next, before, units, ids[1..], link);
        assert link.0 in ids <==> link.0 == ids[0] || link.0 in ids[1..];
      }
    }
  }

  /** No unit still to come has been linked since the links were read. */
  ghost predicate Pending(links: seq<(Id, Id)>, before: seq<(Id, Id)>, ids: seq<Id>) {
    forall i | 0 <= i < |links| && links[i].0 in ids :: links[i] in before
  }

  lemma {:induction false} LinkUnitsOnce(
      links: seq<(Id, Id)>, before: seq<(Id, Id)>, units: seq<HandlingUnit>, ids: seq<Id>)
    requires forall i | 0 <= i < |ids| :: ids[i] < |units|
    requires forall i | 0 <= i < |before| :: before[i] in links
    requires Distinct(links) && Distinct(ids) && Pending(links, before, ids)
    ensures var r := LinkUnits(links, before, units, ids);
            r.Ok? ==> Distinct(r.value)
    decreases |ids|
  {
    hide LinkUnit;
    if ids != [] && units[ids[0]].lines != [] {
      var next := LinkUnit(links, before, ids[0], units[ids[0]].lines);
      LinkUnitLinks(links, before, ids[0], units[ids[0]].lines, (0, 0));
      forall i | 0 <= i < |before| ensures before[i] in next {
        LinkUnitLinks(links, before, ids[0], units[ids[0]].lines, before[i]);
      }
      forall i | 0 <= i < |next| && next[i].0 in ids[1..] ensures next[i] in before {
        assert next[i].0 != ids[0];
        assert next[i] in links;
      }
      LinkUnitsOnce(next, before, units, ids[1..]);
    }
  }

  /**
   * Loading is accepted exactly for a shipment that has not left and distinct, packed units of its warehouse. It links
   * each of them to every order it holds a line of, beside the links there are, and each pair once.
   */
  lemma LoadingOutcome(db: Db, id: Id, ids: seq<Id>, link: (Id, Id))
    ensures var r := AssignUnits(db, id, ids);
            && (r.Ok? <==>
                  && id < |db.shipments| && db.shipments[id].status != Dispatched
                  && Distinct(ids)
                  && forall i | 0 <= i < |ids| ::
                       && ids[i] < |db.units| && db.units[ids[i]].warehouse == db.shipments[id].warehouse
                       && db.units[ids[i]].lines != [])
            && (r.Ok? ==>
                  var before, after := db.shipments[id], r.value.shipments[id];
                  && r.value == db.(shipments := db.shipments[id := after])
                  && after == Shipment(before.warehouse, Loading, after.links)
                  && (link in after.links <==>
                        link in before.links || (link.0 in ids && Holds(db.units[link.0].lines, link.1)))
                  && (Distinct(before.links) ==> Distinct(after.links)))
  {
    hide LinkUnits, Holds;
    if id < |db.shipments| && forall i | 0 <= i < |ids| :: ids[i] < |db.units| {
      var links := db.shipments[id].links;
      LinkUnitsLinks(links, links, db.units, ids, link);
      if Distinct(links) && Distinct(ids) {
        LinkUnitsOnce(links, links, db.units, ids);
      }
    }
  }

  // ---------- Dispatch ----------

  /** All lines of the linked units, unit by unit. */
  function Contained(links: seq<(Id, Id)>, units: seq<HandlingUnit>): seq<PackedLine> {
    if units == [] then [] else
    var n := |units| - 1;
    Contained(links, units[..n]) + (if exists l | 0 <= l < |links| :: links[l].0 == n then units[n].lines else [])
  }

  /** The movement line a packed line leaves with. */
  function Leaving(id: Id, line: PackedLine): Movement {
    Movement(OutboundShipment, ShipmentRef(id), line.product, line.batch, None, None, line.qty, line.uom)
  }

  lemma {:induction false} UnitIsLogged(id: Id, lines: seq<PackedLine>)
    ensures |LogOfUnit(id, lines)| == |lines|
    ensures forall i | 0 <= i < |lines| :: LogOfUnit(id, lines)[i] == Leaving(id, lines[i])
  {
    if lines != [] {
      UnitIsLogged(id, lines[..|lines| - 1]);
    }
  }

  lemma {:induction false} ContainedIsLogged(id: Id, links: seq<(Id, Id)>, units: seq<HandlingUnit>)
    ensures |DispatchLog(id, links, units)| == |Contained(links, units)|
    ensures forall i | 0 <= i < |Contained(links, units)| ::
              DispatchLog(id, links, units)[i] == Leaving(id, Contained(links, units)[i])
  {
    hide Leaving;
    if units != [] {
      var n := |units| - 1;
      ContainedIsLogged(id, links, units[..n]);
      UnitIsLogged(id, units[n].lines);
    }
  }

  /**
   * A dispatch is accepted exactly for a shipment with units that has not left. It logs one movement line for each line
   * packed in them, marks the shipment, and changes nothing else.
   */
  lemma DispatchOutcome(db: Db, id: Id)
    ensures var r := Dispatch(db, id);
            && (r.Ok? <==>
                  && id < |db.shipments| && db.shipments[id].status != Dispatched
                  && db.shipments[id].links != [])
            && (r.Ok? ==>
                  var links := db.shipments[id].links;
                  && r.value == db.(moves := r.value.moves,
                                    shipments := db.shipments[id := db.shipments[id].(status := Dispatched)])
                  && db.moves <= r.value.moves
                  && |r.value.moves| == |db.moves| + |Contained(links, db.units)|
                  && forall i | 0 <= i < |Contained(links, db.units)| ::
                       r.value.moves[|db.moves| + i] == Leaving(id, Contained(links, db.units)[i]))
  {
    hide DispatchLog, Contained, Leaving;
    if id < |db.shipments| {
      ContainedIsLogged(id, db.shipments[id].links, db.units);
    }
  }
}
