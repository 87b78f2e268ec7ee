/** Units of measure in a release: which stock a line may reserve, and when that is all in the line's own unit. */
module Units {
  import opened Domain
  import opened Stock
  import opened Allocation
  import opened Release

  /** RESERVED stock in other units is as it was, key by key. */
  ghost predicate ReservesOnly(before: seq<Row>, after: seq<Row>, uom: string) {
    forall k: Key | k.uom != uom :: Total(after, OnKeyStatus(k, Reserved)) == Total(before, OnKeyStatus(k, Reserved))
  }

  /** A row that holds stock in another unit. */
  predicate Foreign(row: Row, uom: string) {
    0.0 < row.qty && row.key.uom != uom
  }

  predicate ListsForeign(rows: seq<Row>, ids: seq<nat>, uom: string)
    requires Within(ids, |rows|)
  {
    exists i | 0 <= i < |ids| :: Foreign(rows[ids[i]], uom)
  }

  /** Stock listed before the first row in another unit. */
  function OwnStockFirst(rows: seq<Row>, ids: seq<nat>, uom: string): (r: real)
    requires Within(ids, |rows|)
    ensures 0.0 <= r
  {
    if ids == [] || Foreign(rows[ids[0]], uom) then 0.0 else
    OwnStockFirst(rows, ids[1..], uom) + (if 0.0 < rows[ids[0]].qty then rows[ids[0]].qty else 0.0)
  }

  lemma ListsForeignInTurn(rows: seq<Row>, ids: seq<nat>, uom: string)
    requires Within(ids, |rows|) && ids != []
    ensures ListsForeign(rows, ids, uom) <==> Foreign(rows[ids[0]], uom) || ListsForeign(rows, ids[1..], uom)
  {
    var rest := ids[1..];
    assert forall i | 0 <= i < |rest| :: rest[i] == ids[i + 1];
    if i :| 0 < i < |ids| && Foreign(rows[ids[i]], uom) {
      assert Foreign(rows[rest[i - 1]], uom);
    }
  }

  /** Taking from a row in another unit reserves some of it, and nothing later gives that back. */
  lemma ForeignRowIsReserved(p: Progress, rows: seq<Row>, ids: seq<nat>, uom: string)
    requires RowsOk(p.rows) && Fresh(p.rows, rows, ids) && ids != [] && 0.0 < p.remaining
    requires Foreign(rows[ids[0]], uom)
    ensures !ReservesOnly(p.rows, AllocateRows(p, rows, ids).rows, uom)
  {
    hide Total;
    var next, k := TakeFrom(p, rows, ids[0]), rows[ids[0]].key;
    TakeKeepsRows(p, rows, ids);
    TakeShifts(p, rows, ids[0], OnKeyStatus(k, Reserved));
    AllocateRowsCrosses(next, rows, ids[1..], k);
  }

  lemma OwnRowKeepsUnits(p: Progress, rows: seq<Row>, ids: seq<nat>, uom: string)
    requires RowsOk(p.rows) && Fresh(p.rows, rows, ids) && ids != [] && 0.0 < p.remaining
    requires !Foreign(rows[ids[0]], uom)
    ensures ReservesOnly(p.rows, TakeFrom(p, rows, ids[0]).rows, uom)
  {
    hide Total;
    forall k: Key | k.uom != uom
      ensures Total(TakeFrom(p, rows, ids[0]).rows, OnKeyStatus(k, Reserved)) == Total(p.rows, OnKeyStatus(k, Reserved))
    {
      if 0.0 < rows[ids[0]].qty {
        TakeShifts(p, rows, ids[0], OnKeyStatus(k, Reserved));
      }
    }
  }

  /** A pass over listed rows reserves one unit only exactly when it is satisfied before it meets another one. */
  lemma {:induction false} PassReservesOnlyIff(p: Progress, rows: seq<Row>, ids: seq<nat>, uom: string)
    requires RowsOk(p.rows) && Fresh(p.rows, rows, ids)
    ensures ReservesOnly(p.rows, AllocateRows(p, rows, ids).rows, uom)
            <==> p.remaining <= OwnStockFirst(rows, ids, uom) || !ListsForeign(rows, ids, uom)
    decreases |ids|
  {
    hide Total;
    if ids != [] && 0.0 < p.remaining {
      ListsForeignInTurn(rows, ids, uom);
      if Foreign(rows[ids[0]], uom) {
        ForeignRowIsReserved(p, rows, ids, uom);
      } else {
        TakeKeepsRows(p, rows, ids);
        OwnRowKeepsUnits(p, rows, ids, uom);
        PassReservesOnlyIff(TakeFrom(p, rows, ids[0]), rows, ids[1..], uom);
      }
    }
  }

  /**
   * The release ignores the unit of an order line: all stock the line reserves is in its own unit exactly when
   * no listed row holds stock in another unit, or the stock listed before the first such row covers the line.
   */
  lemma LineReservesItsUnitIff(cat: Catalog, batches: seq<Batch>, rows: seq<Row>, warehouse: Id, line: OrderLine)
    requires RowsOk(rows)
    ensures var ids :=
        AllocationOrder(rows, batches, Supply(cat, line.product, warehouse), UsesFefo(cat, line.product));
            ReservesOnly(rows, AllocateLine(cat, batches, rows, warehouse, line).0, line.uom)
            <==> line.requestedQty - line.allocatedQty <= OwnStockFirst(rows, ids, line.uom)
                 || !ListsForeign(rows, ids, line.uom)
  {
    hide Total, AllocateRows, Candidates, ListsForeign;
    var f, fefo := Supply(cat, line.product, warehouse), UsesFefo(cat, line.product);
    var remaining := line.requestedQty - line.allocatedQty;
    if 0.0 < remaining {
      ListedRowsAreFresh(rows, batches, f, fefo);
      PassReservesOnlyIff(
        Progress(rows, remaining, line.allocatedQty), rows, AllocationOrder(rows, batches, f, fefo), line.uom);
    }
  }
}
