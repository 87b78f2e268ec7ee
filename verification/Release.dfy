/** Release of a whole outbound order, line after line, inside one transaction. */
module Release {
  import opened Wrappers
  import opened Domain
  import opened Stock
  import opened Sorting
  import opened Allocation

  /** The stock an order line of this product may draw on; the line's unit of measure plays no part. */
  function Supply(cat: Catalog, product: Id, warehouse: Id): Filter {
    AvailableIn(product, warehouse, cat.locations)
  }

  predicate UsesFefo(cat: Catalog, product: Id) {
    product in cat.products && cat.products[product].requiresExpiry
  }

  function AllocateLine(
      cat: Catalog, batches: seq<Batch>, rows: seq<Row>, warehouse: Id, line: OrderLine): (seq<Row>, OrderLine)
  {
    var remaining := line.requestedQty - line.allocatedQty;
    if remaining <= 0.0 then (rows, line) else
    var ids := AllocationOrder(rows, batches, Supply(cat, line.product, warehouse), UsesFefo(cat, line.product));
    var done := AllocateRows(Progress(rows, remaining, line.allocatedQty), rows, ids);
    (done.rows, line.(allocatedQty := done.credited))
  }

  function AllocateLines(
      cat: Catalog, batches: seq<Batch>, rows: seq<Row>, warehouse: Id, lines: seq<OrderLine>)
    : (r: (seq<Row>, seq<OrderLine>))
    ensures |r.1| == |lines|
  {
    if lines == [] then (rows, []) else
    var n := |lines| - 1;
    var earlier := AllocateLines(cat, batches, rows, warehouse, lines[..n]);
    var last := AllocateLine(cat, batches, earlier.0, warehouse, lines[n]);
    (last.0, earlier.1 + [last.1])
  }

  predicate AllAllocated(lines: seq<OrderLine>) {
    forall i | 0 <= i < |lines| :: lines[i].allocatedQty == lines[i].requestedQty
  }

  predicate AnyAllocated(lines: seq<OrderLine>) {
    exists i | 0 <= i < |lines| :: lines[i].allocatedQty > 0.0
  }

  function ReleasedStatus(lines: seq<OrderLine>): OrderStatus {
    if AllAllocated(lines) then FullyAllocated
    else if AnyAllocated(lines) then PartiallyAllocated
    else Released
  }

  /** The warehouse's rule forbids releasing an order that is short of stock. */
  predicate InsistsOnFull(cat: Catalog, warehouse: Id) {
    warehouse in cat.rules
    && (cat.rules[warehouse].enforceFullAllocation || !cat.rules[warehouse].allowPartialShipments)
  }

  function ReleaseOrder(cat: Catalog, db: Db, id: Id): Result<Db, Error> {
    if id >= |db.orders| then Err(NotFound) else
    var order := db.orders[id];
    if order.status != OrderDraft then Err(BadRequest) else
    var (rows, lines) := AllocateLines(cat, db.batches, db.rows, order.warehouse, order.lines);
    if InsistsOnFull(cat, order.warehouse) && !AllAllocated(lines) then Err(BadRequest) else
    Ok(db.(rows := rows, orders := db.orders[id := order.(status := ReleasedStatus(lines), lines := lines)]))
  }

  // ---------- One line ----------

  /** What a line is entitled to when this much stock is left at its turn. */
  function FairShare(line: OrderLine, stock: real): real {
    if line.requestedQty <= line.allocatedQty then line.allocatedQty
    else Min(line.requestedQty, line.allocatedQty + stock)
  }

  lemma {:induction false} DrainedSupplyIsEmpty(rows: seq<Row>, f: Filter)
    requires forall i | 0 <= i < |rows| && Matches(f, rows[i].key, rows[i].status) :: rows[i].qty == 0.0
    ensures Total(rows, f) == 0.0
  {
    if rows != [] {
      DrainedSupplyIsEmpty(rows[..|rows| - 1], f);
    }
  }

  /** The rows listed for a line are fresh: nothing has been written since they were read. */
  lemma ListedRowsAreFresh(rows: seq<Row>, batches: seq<Batch>, f: Filter, fefo: bool)
    requires f.AvailableIn?
    ensures var ids := AllocationOrder(rows, batches, f, fefo);
            && Fresh(rows, rows, ids)
            && (forall i | 0 <= i < |ids| ::
                Matches(f, rows[ids[i]].key, Available) && !Matches(f, rows[ids[i]].key, Reserved))
  {
    AllocationOrderIsTheQuery(rows, batches, f, fefo);
  }

  /** If the line is still short, nothing it could draw on is left. */
  lemma ShortLineEmptiesSupply(rows: seq<Row>, batches: seq<Batch>, f: Filter, fefo: bool, p: Progress)
    requires RowsOk(rows) && f.AvailableIn? && p.rows == rows
    ensures var r := AllocateRows(p, rows, AllocationOrder(rows, batches, f, fefo));
            0.0 < r.remaining ==> Total(r.rows, f) == 0.0
  {
    var ids := AllocationOrder(rows, batches, f, fefo);
    ListedRowsAreFresh(rows, batches, f, fefo);
    AllocateRowsIsGreedy(p, rows, ids);
    AllocateRowsKeepsRows(p, rows, ids);
    AllocateRowsDraws(p, rows, ids, f);
    AllocationOrderIsTheQuery(rows, batches, f, fefo);
    var r := AllocateRows(p, rows, ids);
    if 0.0 < r.remaining {
      AppendedRowsAreReserved(p, rows, ids);
      forall i: nat | i < |r.rows| && Matches(f, r.rows[i].key, r.rows[i].status) ensures r.rows[i].qty == 0.0 {
        assert i < |rows| && SameIdentity(rows[i], r.rows[i]);
        assert i in ids;
      }
      DrainedSupplyIsEmpty(r.rows, f);
    }
  }

  lemma {:induction false} AppendedRowsAreReserved(p: Progress, snapshot: seq<Row>, ids: seq<nat>)
    requires RowsOk(p.rows) && Fresh(p.rows, snapshot, ids)
    ensures var r := AllocateRows(p, snapshot, ids);
            forall i | |p.rows| <= i < |r.rows| :: r.rows[i].status == Reserved
    decreases |ids|
  {
    if ids != [] && 0.0 < p.remaining {
      var next := TakeFrom(p, snapshot, ids[0]);
      TakeKeepsRows(p, snapshot, ids);
      AppendedRowsAreReserved(next, snapshot, ids[1..]);
      AllocateRowsKeepsRows(next, snapshot, ids[1..]);
      var r := AllocateRows(next, snapshot, ids[1..]);
      forall i | |p.rows| <= i < |r.rows| ensures r.rows[i].status == Reserved {
        if i < |next.rows| {
          assert SameIdentity(next.rows[i], r.rows[i]);
        }
      }
    }
  }

  /** The books of one pass over the listed rows. */
  lemma PassDrawsOnSupply(rows: seq<Row>, batches: seq<Batch>, f: Filter, fefo: bool, p: Progress)
    requires RowsOk(rows) && f.AvailableIn? && p.rows == rows && 0.0 <= p.remaining
    ensures var r := AllocateRows(p, rows, AllocationOrder(rows, batches, f, fefo));
            && RowsOk(r.rows)
            && p.remaining - r.remaining == r.credited - p.credited
            && Total(r.rows, f) == Total(rows, f) - (r.credited - p.credited)
            && 0.0 <= Total(r.rows, f) && 0.0 <= r.remaining
            && (0.0 < r.remaining ==> Total(r.rows, f) == 0.0)
  {
    var ids := AllocationOrder(rows, batches, f, fefo);
    ListedRowsAreFresh(rows, batches, f, fefo);
    AllocateRowsKeepsRows(p, rows, ids);
    AllocateRowsDraws(p, rows, ids, f);
    ShortLineEmptiesSupply(rows, batches, f, fefo, p);
    TotalIsNonNegative(AllocateRows(p, rows, ids).rows, f);
  }

  /** One line gets exactly min(requested, prior + stock), and that much leaves the supply of its product. */
  lemma LineGetsItsShare(cat: Catalog, batches: seq<Batch>, rows: seq<Row>, warehouse: Id, line: OrderLine)
    requires RowsOk(rows)
    ensures var (after, done) := AllocateLine(cat, batches, rows, warehouse, line);
            var f := Supply(cat, line.product, warehouse);
            && RowsOk(after)
            && done == line.(allocatedQty := FairShare(line, Total(rows, f)))
            && Total(after, f) == Total(rows, f) - (done.allocatedQty - line.allocatedQty)
  {
    var remaining := line.requestedQty - line.allocatedQty;
    if 0.0 < remaining {
      var f := Supply(cat, line.product, warehouse);
      var r := PassOfLine(cat, batches, rows, warehouse, line);
      ShareArithmetic(line, Total(rows, f), Total(r.rows, f), r.credited, r.remaining);
    }
  }

  lemma PassOfLine(
      cat: Catalog, batches: seq<Batch>, rows: seq<Row>, warehouse: Id, line: OrderLine) returns (r: Progress)
    requires RowsOk(rows) && line.allocatedQty < line.requestedQty
    ensures AllocateLine(cat, batches, rows, warehouse, line) == (r.rows, line.(allocatedQty := r.credited))
    ensures RowsOk(r.rows)
    ensures var f := Supply(cat, line.product, warehouse);
            && line.requestedQty - line.allocatedQty - r.remaining == r.credited - line.allocatedQty
            && Total(r.rows, f) == Total(rows, f) - (r.credited - line.allocatedQty)
            && 0.0 <= Total(r.rows, f) && 0.0 <= r.remaining
            && (0.0 < r.remaining ==> Total(r.rows, f) == 0.0)
  {
    var f, fefo := Supply(cat, line.product, warehouse), UsesFefo(cat, line.product);
    var p := Progress(rows, line.requestedQty - line.allocatedQty, line.allocatedQty);
    r := AllocateRows(p, rows, AllocationOrder(rows, batches, f, fefo));
    assert AllocateLine(cat, batches, rows, warehouse, line) == (r.rows, line.(allocatedQty := r.credited));
    PassDrawsOnSupply(rows, batches, f, fefo, p);
  }

  lemma ShareArithmetic(line: OrderLine, before: real, after: real, credited: real, remaining: real)
    requires line.allocatedQty < line.requestedQty
    requires line.requestedQty - line.allocatedQty - remaining == credited - line.allocatedQty
    requires after == before - (credited - line.allocatedQty)
    requires 0.0 <= after && 0.0 <= remaining && (0.0 < remaining ==> after == 0.0)
    ensures credited == FairShare(line, before)
  {
  }

  /** A sum no listed row takes part in, or in which AVAILABLE and RESERVED weigh the same, is left alone by a line. */
  lemma LineLeavesAlone(cat: Catalog, batches: seq<Batch>, rows: seq<Row>, warehouse: Id, line: OrderLine, f: Filter)
    requires RowsOk(rows)
    requires match f
             case OnKey(_) => true
             case OnKeyStatus(_, s) => s != Available && s != Reserved
             case AvailableIn(product, _, _) => product != line.product
    ensures Total(AllocateLine(cat, batches, rows, warehouse, line).0, f) == Total(rows, f)
  {
    hide AllocateRows, SortBy, Candidates;
    var remaining := line.requestedQty - line.allocatedQty;
    if 0.0 < remaining {
      var supply, fefo := Supply(cat, line.product, warehouse), UsesFefo(cat, line.product);
      var ids := AllocationOrder(rows, batches, supply, fefo);
      var p := Progress(rows, remaining, line.allocatedQty);
      ListedRowsAreFresh(rows, batches, supply, fefo);
      forall i | 0 <= i < |ids|
        ensures Matches(f, rows[ids[i]].key, Available) == Matches(f, rows[ids[i]].key, Reserved)
      {
        assert Matches(supply, rows[ids[i]].key, Available);
      }
      AllocateRowsIsNeutral(p, rows, ids, f);
    }
  }

  /** One line moves stock across from AVAILABLE to RESERVED. */
  lemma LineCrosses(cat: Catalog, batches: seq<Batch>, rows: seq<Row>, warehouse: Id, line: OrderLine, k: Key)
    requires RowsOk(rows)
    ensures var after := AllocateLine(cat, batches, rows, warehouse, line).0;
            Total(rows, OnKeyStatus(k, Available)) - Total(after, OnKeyStatus(k, Available))
            == Total(after, OnKeyStatus(k, Reserved)) - Total(rows, OnKeyStatus(k, Reserved)) >= 0.0
  {
    hide AllocateRows, AllocationOrder, Total;
    var remaining := line.requestedQty - line.allocatedQty;
    if 0.0 < remaining {
      var supply, fefo := Supply(cat, line.product, warehouse), UsesFefo(cat, line.product);
      ListedRowsAreFresh(rows, batches, supply, fefo);
      AllocateRowsCrosses(
        Progress(rows, remaining, line.allocatedQty), rows, AllocationOrder(rows, batches, supply, fefo), k);
    }
  }

  // ---------- The whole order ----------

  /** Rise in allocated quantity of one product over corresponding lines. */
  function Rise(product: Id, before: seq<OrderLine>, after: seq<OrderLine>): real
    requires |before| == |after|
  {
    if before == [] then 0.0 else
    var n := |before| - 1;
    Rise(product, before[..n], after[..n])
    + (if before[n].product == product then after[n].allocatedQty - before[n].allocatedQty else 0.0)
  }

  /** What the lines of one product still ask for. */
  function Demand(product: Id, lines: seq<OrderLine>): real {
    if lines == [] then 0.0 else
    var n := |lines| - 1;
    Demand(product, lines[..n])
    + (if lines[n].product == product && lines[n].allocatedQty < lines[n].requestedQty
       then lines[n].requestedQty - lines[n].allocatedQty else 0.0)
  }

  lemma {:induction false} OrderDrawsItsRise(
    cat: Catalog, batches: seq<Batch>, rows: seq<Row>, warehouse: Id, lines: seq<OrderLine>, product: Id)
    requires RowsOk(rows)
    ensures var (after, done) := AllocateLines(cat, batches, rows, warehouse, lines);
            && RowsOk(after)
            && Total(after, Supply(cat, product, warehouse))
               == Total(rows, Supply(cat, product, warehouse)) - Rise(product, lines, done)
  {
    if lines != [] {
      var n := |lines| - 1;
      OrderDrawsItsRise(cat, batches, rows, warehouse, lines[..n], product);
      var (mid, earlier) := AllocateLines(cat, batches, rows, warehouse, lines[..n]);
      LineGetsItsShare(cat, batches, mid, warehouse, lines[n]);
      if product != lines[n].product {
        LineLeavesAlone(cat, batches, mid, warehouse, lines[n], Supply(cat, product, warehouse));
      }
      var done := AllocateLines(cat, batches, rows, warehouse, lines).1;
      assert done[..n] == earlier;
    }
  }

  /** Stock left for line i: what there was, less what earlier lines of the same product took. */
  function LeftFor(
      cat: Catalog, rows: seq<Row>, warehouse: Id, lines: seq<OrderLine>, done: seq<OrderLine>, i: nat): real
    requires i < |lines| == |done|
  {
    Total(rows, Supply(cat, lines[i].product, warehouse)) - Rise(lines[i].product, lines[..i], done[..i])
  }

  lemma LeftForEarlier(
    cat: Catalog, rows: seq<Row>, warehouse: Id, lines: seq<OrderLine>, done: seq<OrderLine>, n: nat, i: nat)
    requires i < n <= |lines| == |done|
    ensures LeftFor(cat, rows, warehouse, lines[..n], done[..n], i) == LeftFor(cat, rows, warehouse, lines, done, i)
  {
    hide Total, Rise;
    assert lines[..n][..i] == lines[..i] && done[..n][..i] == done[..i];
  }

  lemma LastLineGetsItsShare(cat: Catalog, batches: seq<Batch>, rows: seq<Row>, warehouse: Id, lines: seq<OrderLine>)
    requires RowsOk(rows) && lines != []
    ensures var n, done := |lines| - 1, AllocateLines(cat, batches, rows, warehouse, lines).1;
            && done[..n] == AllocateLines(cat, batches, rows, warehouse, lines[..n]).1
            && done[n] == lines[n].(allocatedQty := FairShare(lines[n], LeftFor(cat, rows, warehouse, lines, done, n)))
  {
    hide AllocateLine, Total, Rise, FairShare, Supply, RowsOk;
    var n := |lines| - 1;
    var (mid, earlier) := AllocateLines(cat, batches, rows, warehouse, lines[..n]);
    OrderDrawsItsRise(cat, batches, rows, warehouse, lines[..n], lines[n].product);
    LineGetsItsShare(cat, batches, mid, warehouse, lines[n]);
    assert AllocateLines(cat, batches, rows, warehouse, lines).1[..n] == earlier;
  }

  /** Every line ends with exactly its fair share of the stock left at its turn. */
  lemma {:induction false} ReleaseAllocatesExactly(
    cat: Catalog, batches: seq<Batch>, rows: seq<Row>, warehouse: Id, lines: seq<OrderLine>)
    requires RowsOk(rows)
    ensures var done := AllocateLines(cat, batches, rows, warehouse, lines).1;
            forall i | 0 <= i < |lines| ::
              done[i] == lines[i].(allocatedQty := FairShare(lines[i], LeftFor(cat, rows, warehouse, lines, done, i)))
  {
    hide AllocateLines, FairShare, LeftFor, RowsOk;
    if lines != [] {
      var n, done := |lines| - 1, AllocateLines(cat, batches, rows, warehouse, lines).1;
      ReleaseAllocatesExactly(cat, batches, rows, warehouse, lines[..n]);
      LastLineGetsItsShare(cat, batches, rows, warehouse, lines);
      forall i | 0 <= i < |lines|
        ensures done[i] == lines[i].(allocatedQty := FairShare(lines[i], LeftFor(cat, rows, warehouse, lines, done, i)))
      {
        if i < n {
          LeftForEarlier(cat, rows, warehouse, lines, done, n, i);
          assert done[i] == done[..n][i] && lines[i] == lines[..n][i];
        }
      }
    }
  }

  /** Over the whole order a product receives min(demand, supply). */
  lemma {:induction false} ReleaseMeetsDemandOrEmptiesSupply(
    cat: Catalog, batches: seq<Batch>, rows: seq<Row>, warehouse: Id, lines: seq<OrderLine>, product: Id)
    requires RowsOk(rows)
    ensures var done := AllocateLines(cat, batches, rows, warehouse, lines).1;
            Rise(product, lines, done) == Min(Demand(product, lines), Total(rows, Supply(cat, product, warehouse)))
  {
    hide AllocateLine, Supply;
    TotalIsNonNegative(rows, Supply(cat, product, warehouse));
    if lines != [] {
      var n := |lines| - 1;
      ReleaseMeetsDemandOrEmptiesSupply(cat, batches, rows, warehouse, lines[..n], product);
      OrderDrawsItsRise(cat, batches, rows, warehouse, lines[..n], product);
      var (mid, earlier) := AllocateLines(cat, batches, rows, warehouse, lines[..n]);
      LineGetsItsShare(cat, batches, mid, warehouse, lines[n]);
      DemandIsNonNegative(product, lines[..n]);
      var done := AllocateLines(cat, batches, rows, warehouse, lines).1;
      assert done[..n] == earlier;
    }
  }

  lemma {:induction false} DemandIsNonNegative(product: Id, lines: seq<OrderLine>)
    ensures Demand(product, lines) >= 0.0
  {
    if lines != [] {
      DemandIsNonNegative(product, lines[..|lines| - 1]);
    }
  }

  /** Between equal line lists, no line is over-served; the rise equals the demand only if every line is full. */
  lemma {:induction false} RiseReachesDemand(product: Id, lines: seq<OrderLine>, done: seq<OrderLine>)
    requires |lines| == |done|
    requires forall i | 0 <= i < |lines| ::
               && done[i].product == lines[i].product && done[i].requestedQty == lines[i].requestedQty
               && (lines[i].requestedQty <= lines[i].allocatedQty ==> done[i].allocatedQty == lines[i].allocatedQty)
               && (lines[i].allocatedQty < lines[i].requestedQty ==> done[i].allocatedQty <= lines[i].requestedQty)
    ensures Rise(product, lines, done) <= Demand(product, lines)
    ensures Rise(product, lines, done) == Demand(product, lines) <==>
            forall i | 0 <= i < |lines| && lines[i].product == product
                && lines[i].allocatedQty < lines[i].requestedQty ::
              done[i].allocatedQty == lines[i].requestedQty
  {
    if lines != [] {
      var n := |lines| - 1;
      RiseReachesDemand(product, lines[..n], done[..n]);
      assert forall i | 0 <= i < n :: lines[i] == lines[..n][i] && done[i] == done[..n][i];
    }
  }

  /** No line asks for less than it already has. */
  ghost predicate NoneOverAllocated(lines: seq<OrderLine>) {
    forall i | 0 <= i < |lines| :: lines[i].allocatedQty <= lines[i].requestedQty
  }

  ghost predicate SupplyCovers(cat: Catalog, rows: seq<Row>, warehouse: Id, lines: seq<OrderLine>) {
    forall i | 0 <= i < |lines| ::
      Demand(lines[i].product, lines) <= Total(rows, Supply(cat, lines[i].product, warehouse))
  }

  lemma SharesAreBounded(cat: Catalog, batches: seq<Batch>, rows: seq<Row>, warehouse: Id, lines: seq<OrderLine>)
    requires RowsOk(rows)
    ensures var done := AllocateLines(cat, batches, rows, warehouse, lines).1;
            forall i | 0 <= i < |lines| ::
              && done[i].product == lines[i].product && done[i].requestedQty == lines[i].requestedQty
              && done[i].pickedQty == lines[i].pickedQty
              && (lines[i].requestedQty <= lines[i].allocatedQty ==> done[i].allocatedQty == lines[i].allocatedQty)
              && (lines[i].allocatedQty < lines[i].requestedQty ==> done[i].allocatedQty <= lines[i].requestedQty)
  {
    ReleaseAllocatesExactly(cat, batches, rows, warehouse, lines);
  }

  /**
   * An order comes out fully allocated exactly when, product by product, the stock covers what its lines still ask
   * for.
   */
  lemma FullyAllocatedIffSupplyCovers(
    cat: Catalog, batches: seq<Batch>, rows: seq<Row>, warehouse: Id, lines: seq<OrderLine>)
    requires RowsOk(rows)
    ensures AllAllocated(AllocateLines(cat, batches, rows, warehouse, lines).1)
            <==> NoneOverAllocated(lines) && SupplyCovers(cat, rows, warehouse, lines)
  {
    var done := AllocateLines(cat, batches, rows, warehouse, lines).1;
    SharesAreBounded(cat, batches, rows, warehouse, lines);
    forall product: Id
      ensures Rise(product, lines, done) == Min(Demand(product, lines), Total(rows, Supply(cat, product, warehouse)))
      ensures Rise(product, lines, done) == Demand(product, lines) <==>
              forall i | 0 <= i < |lines| && lines[i].product == product
                  && lines[i].allocatedQty < lines[i].requestedQty ::
                done[i].allocatedQty == lines[i].requestedQty
    {
      ReleaseMeetsDemandOrEmptiesSupply(cat, batches, rows, warehouse, lines, product);
      RiseReachesDemand(product, lines, done);
    }
    if AllAllocated(done) {
      forall i | 0 <= i < |lines|
        ensures Demand(lines[i].product, lines) <= Total(rows, Supply(cat, lines[i].product, warehouse))
      {
        assert Rise(lines[i].product, lines, done) == Demand(lines[i].product, lines);
      }
      assert NoneOverAllocated(lines);
    }
    if NoneOverAllocated(lines) && SupplyCovers(cat, rows, warehouse, lines) {
      forall i | 0 <= i < |lines| ensures done[i].allocatedQty == done[i].requestedQty {
        assert Rise(lines[i].product, lines, done) == Demand(lines[i].product, lines);
      }
    }
  }

  /** Release moves stock from AVAILABLE to RESERVED, key by key, and leaves every other status alone. */
  lemma {:induction false} ReleaseOnlyReserves(
    cat: Catalog, batches: seq<Batch>, rows: seq<Row>, warehouse: Id, lines: seq<OrderLine>, k: Key, s: StockStatus)
    requires RowsOk(rows)
    ensures var after := AllocateLines(cat, batches, rows, warehouse, lines).0;
            && RowsOk(after)
            && Total(after, OnKey(k)) == Total(rows, OnKey(k))
            && (s != Available && s != Reserved ==> Total(after, OnKeyStatus(k, s)) == Total(rows, OnKeyStatus(k, s)))
            && Total(rows, OnKeyStatus(k, Available)) - Total(after, OnKeyStatus(k, Available))
               == Total(after, OnKeyStatus(k, Reserved)) - Total(rows, OnKeyStatus(k, Reserved)) >= 0.0
  {
    if lines != [] {
      var n := |lines| - 1;
      ReleaseOnlyReserves(cat, batches, rows, warehouse, lines[..n], k, s);
      var mid := AllocateLines(cat, batches, rows, warehouse, lines[..n]).0;
      LineLeavesAlone(cat, batches, mid, warehouse, lines[n], OnKey(k));
      if s != Available && s != Reserved {
        LineLeavesAlone(cat, batches, mid, warehouse, lines[n], OnKeyStatus(k, s));
      }
      LineCrosses(cat, batches, mid, warehouse, lines[n], k);
      LineGetsItsShare(cat, batches, mid, warehouse, lines[n]);
    }
  }

  /** Row a comes before row b in the query of a line. */
  ghost predicate ListedBefore(rows: seq<Row>, batches: seq<Batch>, f: Filter, fefo: bool, a: nat, b: nat) {
    && a < |rows| && b < |rows| && a != b
    && Matches(f, rows[a].key, rows[a].status) && Matches(f, rows[b].key, rows[b].status)
    && Precedes(rows, batches, fefo, a, b)
  }

  /** If b was touched although a is listed before it, a is drained; rows outside the query are not touched. */
  lemma QueryOrderIsFollowed(
    ids: seq<nat>, rows: seq<Row>, after: seq<Row>, batches: seq<Batch>, f: Filter, fefo: bool, a: nat, b: nat)
    requires IsQuery(ids, rows, batches, f, fefo) && Touches(rows, after, ids) && Greedy(rows, after, ids)
    requires a < |rows| && b < |rows|
    ensures ListedBefore(rows, batches, f, fefo, a, b) && after[b] != rows[b] ==> after[a].qty == 0.0
    ensures rows[b].status == Available && !Matches(f, rows[b].key, rows[b].status) ==> after[b] == rows[b]
  {
    if ListedBefore(rows, batches, f, fefo, a, b) && after[b] != rows[b] {
      var i: nat :| i < |ids| && ids[i] == a;
      var j: nat :| j < |ids| && ids[j] == b;
      assert j < i ==> Precedes(rows, batches, fefo, ids[j], ids[i]);
    }
  }

  /** Each line drains the rows it was offered in the FEFO or FIFO order of the query, and no other AVAILABLE row. */
  lemma LineFollowsTheQueryOrder(
    cat: Catalog, batches: seq<Batch>, rows: seq<Row>, warehouse: Id, line: OrderLine, a: nat, b: nat)
    requires RowsOk(rows) && a < |rows| && b < |rows|
    ensures var after := AllocateLine(cat, batches, rows, warehouse, line).0;
            var f, fefo := Supply(cat, line.product, warehouse), UsesFefo(cat, line.product);
            && |rows| <= |after|
            && (ListedBefore(rows, batches, f, fefo, a, b) && after[b] != rows[b] ==> after[a].qty == 0.0)
            && (rows[b].status == Available && !Matches(f, rows[b].key, rows[b].status) ==> after[b] == rows[b])
  {
    hide AllocateRows, AllocationOrder, RowsOk, Precedes;
    var remaining := line.requestedQty - line.allocatedQty;
    if 0.0 < remaining {
      var f, fefo := Supply(cat, line.product, warehouse), UsesFefo(cat, line.product);
      PassFollowsTheQueryOrder(rows, batches, f, fefo, Progress(rows, remaining, line.allocatedQty), a, b);
    }
  }

  lemma PassFollowsTheQueryOrder(
    rows: seq<Row>, batches: seq<Batch>, f: Filter, fefo: bool, p: Progress, a: nat, b: nat)
    requires RowsOk(rows) && f.AvailableIn? && p.rows == rows && a < |rows| && b < |rows|
    ensures var after := AllocateRows(p, rows, AllocationOrder(rows, batches, f, fefo)).rows;
            && (ListedBefore(rows, batches, f, fefo, a, b) && after[b] != rows[b] ==> after[a].qty == 0.0)
            && (rows[b].status == Available && !Matches(f, rows[b].key, rows[b].status) ==> after[b] == rows[b])
  {
    var ids := AllocationOrder(rows, batches, f, fefo);
    ListedRowsAreFresh(rows, batches, f, fefo);
    AllocateRowsKeepsRows(p, rows, ids);
    AllocateRowsIsGreedy(p, rows, ids);
    AllocationOrderIsTheQuery(rows, batches, f, fefo);
    QueryOrderIsFollowed(ids, rows, AllocateRows(p, rows, ids).rows, batches, f, fefo, a, b);
  }
}
