/** What an accepted release takes, and in what order, in terms of rows, dates and rules. */
module ReleaseOutcome {
  import opened Wrappers
  import opened Domain
  import opened Stock
  import opened Allocation
  import opened Release
  import opened ReceiptLifecycle
  import opened Counting
  import opened Machine

  /** A row an order of the warehouse may draw on for a product. */
  predicate Offered(cat: Catalog, warehouse: Id, product: Id, row: Row) {
    && row.status == Available && row.key.product == product
    && row.key.location in cat.locations && cat.locations[row.key.location] == warehouse
  }

  // ---------- Rows only lose ----------

  /** AVAILABLE rows keep their place and identity, and lose stock at most. */
  ghost predicate Lowers(before: seq<Row>, after: seq<Row>) {
    && |before| <= |after|
    && forall i | 0 <= i < |before| ::
         SameIdentity(before[i], after[i]) && (before[i].status == Available ==> after[i].qty <= before[i].qty)
  }

  lemma TakeLowers(p: Progress, snapshot: seq<Row>, ids: seq<nat>)
    requires RowsOk(p.rows) && Fresh(p.rows, snapshot, ids) && ids != [] && 0.0 < p.remaining
    ensures Lowers(p.rows, TakeFrom(p, snapshot, ids[0]).rows)
  {
    hide UniqueRows;
    var record := snapshot[ids[0]];
    if 0.0 < record.qty {
      var qty := Min(record.qty, p.remaining);
      var lowered := p.rows[ids[0] := p.rows[ids[0]].(qty := record.qty - qty)];
      assert Lowers(p.rows, lowered);
      AddingReservedLowers(p.rows, lowered, record.key, qty);
    }
  }

  lemma AddingReservedLowers(before: seq<Row>, rows: seq<Row>, k: Key, qty: real)
    requires Lowers(before, rows)
    ensures Lowers(before, AddTo(rows, k, Reserved, qty))
  {
    var after := AddTo(rows, k, Reserved, qty);
    forall i | 0 <= i < |before|
      ensures SameIdentity(before[i], after[i]) && (before[i].status == Available ==> after[i].qty <= before[i].qty)
    {
      assert SameIdentity(before[i], rows[i]) && SameIdentity(rows[i], after[i]);
    }
  }

  lemma LowersInTurn(a: seq<Row>, b: seq<Row>, c: seq<Row>)
    requires Lowers(a, b) && Lowers(b, c)
    ensures Lowers(a, c)
  {
    forall i | 0 <= i < |a|
      ensures SameIdentity(a[i], c[i]) && (a[i].status == Available ==> c[i].qty <= a[i].qty)
    {
      assert SameIdentity(a[i], b[i]) && SameIdentity(b[i], c[i]);
    }
  }

  lemma {:induction false} AllocateRowsLowers(p: Progress, snapshot: seq<Row>, ids: seq<nat>)
    requires RowsOk(p.rows) && Fresh(p.rows, snapshot, ids)
    ensures Lowers(p.rows, AllocateRows(p, snapshot, ids).rows)
    decreases |ids|
  {
    hide Lowers;
    if ids == [] || p.remaining <= 0.0 {
      LowersItself(p.rows);
    } else {
      var next := TakeFrom(p, snapshot, ids[0]);
      TakeKeepsRows(p, snapshot, ids);
      TakeLowers(p, snapshot, ids);
      AllocateRowsLowers(next, snapshot, ids[1..]);
      LowersInTurn(p.rows, next.rows, AllocateRows(next, snapshot, ids[1..]).rows);
    }
  }

  lemma LowersItself(rows: seq<Row>)
    ensures Lowers(rows, rows)
  {
  }

  lemma LineLowers(cat: Catalog, batches: seq<Batch>, rows: seq<Row>, warehouse: Id, line: OrderLine)
    requires RowsOk(rows)
    ensures var after := AllocateLine(cat, batches, rows, warehouse, line).0;
            RowsOk(after) && Lowers(rows, after)
  {
    hide AllocateRows, AllocationOrder, RowsOk, Lowers;
    LowersItself(rows);
    LineGetsItsShare(cat, batches, rows, warehouse, line);
    var remaining := line.requestedQty - line.allocatedQty;
    if 0.0 < remaining {
      var f, fefo := Supply(cat, line.product, warehouse), UsesFefo(cat, line.product);
      ListedRowsAreFresh(rows, batches, f, fefo);
      AllocateRowsLowers(Progress(rows, remaining, line.allocatedQty), rows, AllocationOrder(rows, batches, f, fefo));
    }
  }

  lemma {:induction false} OrderLowers(
      cat: Catalog, batches: seq<Batch>, rows: seq<Row>, warehouse: Id, lines: seq<OrderLine>)
    requires RowsOk(rows)
    ensures var after := AllocateLines(cat, batches, rows, warehouse, lines).0;
            RowsOk(after) && Lowers(rows, after)
  {
    hide RowsOk, Lowers, AllocateLine;
    if lines == [] {
      LowersItself(rows);
    } else {
      var n := |lines| - 1;
      OrderLowers(cat, batches, rows, warehouse, lines[..n]);
      var mid := AllocateLines(cat, batches, rows, warehouse, lines[..n]).0;
      LineLowers(cat, batches, mid, warehouse, lines[n]);
      LowersInTurn(rows, mid, AllocateLine(cat, batches, mid, warehouse, lines[n]).0);
    }
  }

  // ---------- The order in which rows are taken ----------

  /** A drained row of the order stays drained, and so does what is said about the dates of two rows. */
  lemma SamePlaces(
    cat: Catalog, batches: seq<Batch>, rows: seq<Row>, mid: seq<Row>, f: Filter, fefo: bool, a: nat, b: nat)
    requires Lowers(rows, mid) && ListedBefore(rows, batches, f, fefo, a, b)
    ensures ListedBefore(mid, batches, f, fefo, a, b)
  {
    hide Sooner;
    assert SameIdentity(rows[a], mid[a]) && SameIdentity(rows[b], mid[b]);
    SoonerDependsOnKey(batches, rows[a], rows[b], mid[a], mid[b]);
    SoonerDependsOnKey(batches, rows[b], rows[a], mid[b], mid[a]);
  }

  lemma SoonerDependsOnKey(batches: seq<Batch>, a: Row, b: Row, c: Row, d: Row)
    requires a.key == c.key && b.key == d.key
    ensures Sooner(batches, a, b) <==> Sooner(batches, c, d)
  {
    assert forall date :: Dated(batches, a, date) <==> Dated(batches, c, date);
    assert forall date :: Dated(batches, b, date) <==> Dated(batches, d, date);
  }

  lemma {:induction false} OrderDrainsInTurn(
    cat: Catalog, batches: seq<Batch>, rows: seq<Row>, warehouse: Id, lines: seq<OrderLine>, product: Id, a: nat,
    b: nat)
    requires RowsOk(rows)
    requires ListedBefore(rows, batches, Supply(cat, product, warehouse), UsesFefo(cat, product), a, b)
    ensures var after := AllocateLines(cat, batches, rows, warehouse, lines).0;
            |rows| <= |after| && (after[b] != rows[b] ==> after[a].qty == 0.0)
  {
    hide RowsOk, AllocateLine, UsesFefo, Precedes;
    if lines != [] {
      var n := |lines| - 1;
      var f, fefo := Supply(cat, product, warehouse), UsesFefo(cat, product);
      OrderDrainsInTurn(cat, batches, rows, warehouse, lines[..n], product, a, b);
      OrderLowers(cat, batches, rows, warehouse, lines[..n]);
      var mid := AllocateLines(cat, batches, rows, warehouse, lines[..n]).0;
      SamePlaces(cat, batches, rows, mid, f, fefo, a, b);
      LineLowers(cat, batches, mid, warehouse, lines[n]);
      LineFollowsTheQueryOrder(cat, batches, mid, warehouse, lines[n], a, b);
      var after := AllocateLine(cat, batches, mid, warehouse, lines[n]).0;
      NotBelowZero(after, a);
    }
  }

  lemma NotBelowZero(rows: seq<Row>, i: nat)
    requires RowsOk(rows) && i < |rows|
    ensures 0.0 <= rows[i].qty
  {
  }

  /** Both rows carry the same date, or neither carries one. */
  ghost predicate SameDate(batches: seq<Batch>, a: Row, b: Row) {
    forall date :: Dated(batches, a, date) <==> Dated(batches, b, date)
  }

  /**
   * An accepted release takes the stock that expires first. Of two rows of a product in the order's warehouse, the
   * second is touched only if the first is drained: for a product with expiry dates, when the first expires earlier,
   * or only the first expires, or the dates are equal and the first is older; for others, when the first is older.
   */
  lemma ReleaseTakesWhatExpiresFirst(cat: Catalog, db: Db, id: Id, product: Id, a: nat, b: nat)
    requires RowsOk(db.rows) && a < |db.rows| && b < |db.rows|
    ensures var r := ReleaseOrder(cat, db, id);
            r.Ok? && Offered(cat, db.orders[id].warehouse, product, db.rows[a])
                && Offered(cat, db.orders[id].warehouse, product, db.rows[b]) ==>
              && |db.rows| <= |r.value.rows|
              && var first, second := db.rows[a], db.rows[b];
                 var taken, drained := r.value.rows[b] != second, r.value.rows[a].qty == 0.0;
                 var dated := product in cat.products && cat.products[product].requiresExpiry;
                 && (dated ==> forall d, e | Dated(db.batches, first, d) && Dated(db.batches, second, e) && d < e ::
                       taken ==> drained)
                 && (dated ==> forall d | Dated(db.batches, first, d) && (forall e :: !Dated(db.batches, second, e)) ::
                       taken ==> drained)
                 && (a < b && (dated ==> SameDate(db.batches, first, second)) ==> (taken ==> drained))
  {
    hide AllocateLines, RowsOk, Precedes;
    var r := ReleaseOrder(cat, db, id);
    if r.Ok? && Offered(cat, db.orders[id].warehouse, product, db.rows[a])
        && Offered(cat, db.orders[id].warehouse, product, db.rows[b])
    {
      var order := db.orders[id];
      var f, fefo := Supply(cat, product, order.warehouse), UsesFefo(cat, product);
      OrderLowers(cat, db.batches, db.rows, order.warehouse, order.lines);
      DatesDecide(db.rows, db.batches, fefo, a, b);
      if ListedBefore(db.rows, db.batches, f, fefo, a, b) {
        OrderDrainsInTurn(cat, db.batches, db.rows, order.warehouse, order.lines, product, a, b);
      }
    }
  }

  lemma DatesDecide(rows: seq<Row>, batches: seq<Batch>, fefo: bool, a: nat, b: nat)
    requires a < |rows| && b < |rows|
    ensures fefo ==> forall d, e | Dated(batches, rows[a], d) && Dated(batches, rows[b], e) && d < e ::
              Precedes(rows, batches, fefo, a, b) && a != b
    ensures fefo ==> forall d | Dated(batches, rows[a], d) && (forall e :: !Dated(batches, rows[b], e)) ::
              Precedes(rows, batches, fefo, a, b) && a != b
    ensures a < b && (fefo ==> SameDate(batches, rows[a], rows[b])) ==> Precedes(rows, batches, fefo, a, b)
  {
  }

  // ---------- Which rows are taken, and how far ----------

  /** An AVAILABLE row that changes is of a product of the order, in its warehouse, and loses stock. */
  lemma {:induction false} OrderTouchesItsOwn(
      cat: Catalog, batches: seq<Batch>, rows: seq<Row>, warehouse: Id, lines: seq<OrderLine>, i: nat)
    requires RowsOk(rows) && i < |rows| && rows[i].status == Available
    ensures var after := AllocateLines(cat, batches, rows, warehouse, lines).0;
            |rows| <= |after| && (after[i] != rows[i] ==>
              exists j | 0 <= j < |lines| :: Offered(cat, warehouse, lines[j].product, rows[i]))
  {
    hide RowsOk, AllocateLine;
    if lines != [] {
      var n := |lines| - 1;
      OrderTouchesItsOwn(cat, batches, rows, warehouse, lines[..n], i);
      OrderLowers(cat, batches, rows, warehouse, lines[..n]);
      var mid := AllocateLines(cat, batches, rows, warehouse, lines[..n]).0;
      if mid[i] != rows[i] {
        var j: nat :| j < n && Offered(cat, warehouse, lines[..n][j].product, rows[i]);
        assert lines[j] == lines[..n][j];
      }
      LineFollowsTheQueryOrder(cat, batches, mid, warehouse, lines[n], i, i);
      assert SameIdentity(rows[i], mid[i]);
    }
  }

  lemma {:induction false} ShortLineLeavesNothing(
      cat: Catalog, batches: seq<Batch>, rows: seq<Row>, warehouse: Id, lines: seq<OrderLine>, i: nat)
    requires RowsOk(rows) && i < |lines|
    ensures var (after, done) := AllocateLines(cat, batches, rows, warehouse, lines);
            && RowsOk(after) && done[i].requestedQty == lines[i].requestedQty
            && (done[i].allocatedQty < lines[i].requestedQty ==>
                  Total(after, Supply(cat, lines[i].product, warehouse)) == 0.0)
  {
    hide RowsOk, AllocateLine, Supply;
    var n := |lines| - 1;
    var f := Supply(cat, lines[i].product, warehouse);
    OrderLowers(cat, batches, rows, warehouse, lines[..n]);
    var (mid, earlier) := AllocateLines(cat, batches, rows, warehouse, lines[..n]);
    LineGetsItsShare(cat, batches, mid, warehouse, lines[n]);
    if i < n {
      ShortLineLeavesNothing(cat, batches, rows, warehouse, lines[..n], i);
      if lines[n].product != lines[i].product {
        OtherLineLeavesSupply(cat, batches, mid, warehouse, lines[n], lines[i].product);
      }
    }
  }

  lemma OtherLineLeavesSupply(
    cat: Catalog, batches: seq<Batch>, rows: seq<Row>, warehouse: Id, line: OrderLine, product: Id)
    requires RowsOk(rows) && line.product != product
    ensures Total(AllocateLine(cat, batches, rows, warehouse, line).0, Supply(cat, product, warehouse))
         == Total(rows, Supply(cat, product, warehouse))
  {
    LineLeavesAlone(cat, batches, rows, warehouse, line, Supply(cat, product, warehouse));
  }

  lemma {:induction false} RowWithinTotal(rows: seq<Row>, f: Filter, i: nat)
    requires NonNegative(rows) && i < |rows| && Matches(f, rows[i].key, rows[i].status)
    ensures rows[i].qty <= Total(rows, f)
  {
    var n := |rows| - 1;
    TotalIsNonNegative(rows[..n], f);
    if i < n {
      RowWithinTotal(rows[..n], f, i);
    }
  }

  /** Only AVAILABLE rows of the order's products in its warehouse lose stock; a short line leaves none of its own. */
  lemma ReleaseTakesItsOwnStock(cat: Catalog, db: Db, id: Id)
    requires RowsOk(db.rows)
    ensures var r := ReleaseOrder(cat, db, id);
            r.Ok? ==>
              var warehouse, before, after := db.orders[id].warehouse, db.orders[id].lines, r.value.orders[id].lines;
              && |after| == |before| && |db.rows| <= |r.value.rows|
              && (forall i | 0 <= i < |db.rows| && db.rows[i].status == Available && r.value.rows[i] != db.rows[i] ::
                    r.value.rows[i].qty <= db.rows[i].qty
                    && exists j | 0 <= j < |before| :: Offered(cat, warehouse, before[j].product, db.rows[i]))
              && (forall i, j | 0 <= i < |before| && after[i].allocatedQty < before[i].requestedQty
                      && 0 <= j < |r.value.rows| && Offered(cat, warehouse, before[i].product, r.value.rows[j]) ::
                    r.value.rows[j].qty == 0.0)
  {
    hide AllocateLines, Total;
    var r := ReleaseOrder(cat, db, id);
    if r.Ok? {
      var order, after := db.orders[id], r.value.orders[id].lines;
      OrderLowers(cat, db.batches, db.rows, order.warehouse, order.lines);
      forall i | 0 <= i < |db.rows| && db.rows[i].status == Available && r.value.rows[i] != db.rows[i]
        ensures exists j | 0 <= j < |order.lines| ::
                  Offered(cat, order.warehouse, order.lines[j].product, db.rows[i])
      {
        OrderTouchesItsOwn(cat, db.batches, db.rows, order.warehouse, order.lines, i);
      }
      forall i, j | 0 <= i < |order.lines| && after[i].allocatedQty < order.lines[i].requestedQty
          && 0 <= j < |r.value.rows| && Offered(cat, order.warehouse, order.lines[i].product, r.value.rows[j])
        ensures r.value.rows[j].qty == 0.0
      {
        ShortLineLeavesNothing(cat, db.batches, db.rows, order.warehouse, order.lines, i);
        RowWithinTotal(r.value.rows, Supply(cat, order.lines[i].product, order.warehouse), j);
      }
    }
  }

  // ---------- Acceptance and status ----------

  /** Some line still asks for a product of which there is stock. */
  ghost predicate SomethingToReserve(cat: Catalog, rows: seq<Row>, warehouse: Id, lines: seq<OrderLine>) {
    exists i, j | 0 <= i < |lines| && 0 <= j < |rows| ::
      0.0 < lines[i].requestedQty && Offered(cat, warehouse, lines[i].product, rows[j]) && 0.0 < rows[j].qty
  }

  lemma {:induction false} PositiveTotalHasRow(rows: seq<Row>, f: Filter) returns (j: nat)
    requires 0.0 < Total(rows, f)
    ensures j < |rows| && Matches(f, rows[j].key, rows[j].status) && 0.0 < rows[j].qty
  {
    var n := |rows| - 1;
    if 0.0 < Total(rows[..n], f) {
      j := PositiveTotalHasRow(rows[..n], f);
    } else {
      j := n;
    }
  }

  lemma {:induction false} DemandOfUnserved(product: Id, lines: seq<OrderLine>, i: nat)
    requires i < |lines| && lines[i].product == product && lines[i].allocatedQty < lines[i].requestedQty
    ensures 0.0 < Demand(product, lines)
  {
    var n := |lines| - 1;
    DemandIsNonNegative(product, lines[..n]);
    if i < n {
      DemandOfUnserved(product, lines[..n], i);
    }
  }

  lemma {:induction false} RiseHasLine(product: Id, before: seq<OrderLine>, after: seq<OrderLine>) returns (i: nat)
    requires |before| == |after| && 0.0 < Rise(product, before, after)
    ensures i < |before| && before[i].product == product && before[i].allocatedQty < after[i].allocatedQty
  {
    var n := |before| - 1;
    if 0.0 < Rise(product, before[..n], after[..n]) {
      i := RiseHasLine(product, before[..n], after[..n]);
    } else {
      i := n;
    }
  }

  lemma {:induction false} RiseCoversLine(product: Id, before: seq<OrderLine>, after: seq<OrderLine>, i: nat)
    requires |before| == |after| && i < |before| && before[i].product == product
    requires forall j | 0 <= j < |before| :: before[j].allocatedQty <= after[j].allocatedQty
    ensures 0.0 <= after[i].allocatedQty - before[i].allocatedQty <= Rise(product, before, after)
  {
    var n := |before| - 1;
    RiseIsNonNegative(product, before[..n], after[..n]);
    if i < n {
      RiseCoversLine(product, before[..n], after[..n], i);
    }
  }

  lemma {:induction false} RiseIsNonNegative(product: Id, before: seq<OrderLine>, after: seq<OrderLine>)
    requires |before| == |after|
    requires forall j | 0 <= j < |before| :: before[j].allocatedQty <= after[j].allocatedQty
    ensures 0.0 <= Rise(product, before, after)
  {
    if before != [] {
      RiseIsNonNegative(product, before[..|before| - 1], after[..|after| - 1]);
    }
  }

  ghost predicate Untouched(lines: seq<OrderLine>) {
    forall i | 0 <= i < |lines| :: lines[i].allocatedQty == 0.0
  }

  /** Of a draft, something is allocated exactly when there is something to reserve. */
  lemma AnyAllocatedIff(cat: Catalog, batches: seq<Batch>, rows: seq<Row>, warehouse: Id, lines: seq<OrderLine>)
    requires RowsOk(rows) && Untouched(lines)
    requires var done := AllocateLines(cat, batches, rows, warehouse, lines).1;
             forall i | 0 <= i < |lines| :: lines[i].allocatedQty <= done[i].allocatedQty
    ensures AnyAllocated(AllocateLines(cat, batches, rows, warehouse, lines).1)
            <==> SomethingToReserve(cat, rows, warehouse, lines)
  {
    hide AllocateLines, Rise, Demand, Total;
    var done := AllocateLines(cat, batches, rows, warehouse, lines).1;
    SharesAreBounded(cat, batches, rows, warehouse, lines);
    if i: nat :| i < |done| && done[i].allocatedQty > 0.0 {
      var product := lines[i].product;
      RiseCoversLine(product, lines, done, i);
      ReleaseMeetsDemandOrEmptiesSupply(cat, batches, rows, warehouse, lines, product);
      var j := PositiveTotalHasRow(rows, Supply(cat, product, warehouse));
      assert 0.0 < lines[i].requestedQty && Offered(cat, warehouse, product, rows[j]);
    }
    if SomethingToReserve(cat, rows, warehouse, lines) {
      var i, j :| 0 <= i < |lines| && 0 <= j < |rows|
        && 0.0 < lines[i].requestedQty && Offered(cat, warehouse, lines[i].product, rows[j]) && 0.0 < rows[j].qty;
      var product := lines[i].product;
      RowWithinTotal(rows, Supply(cat, product, warehouse), j);
      DemandOfUnserved(product, lines, i);
      ReleaseMeetsDemandOrEmptiesSupply(cat, batches, rows, warehouse, lines, product);
      var at := RiseHasLine(product, lines, done);
    }
  }

  /** The lines can be served in full from stock. */
  ghost predicate Covered(cat: Catalog, rows: seq<Row>, warehouse: Id, lines: seq<OrderLine>) {
    NoneOverAllocated(lines) && SupplyCovers(cat, rows, warehouse, lines)
  }

  ghost function StatusFor(cat: Catalog, rows: seq<Row>, order: Order): OrderStatus {
    if Covered(cat, rows, order.warehouse, order.lines) then FullyAllocated
    else if SomethingToReserve(cat, rows, order.warehouse, order.lines) then PartiallyAllocated
    else Released
  }

  /** The warehouse refuses to release an order that is short of stock. */
  predicate WantsAll(cat: Catalog, warehouse: Id) {
    && warehouse in cat.rules
    && (cat.rules[warehouse].enforceFullAllocation || !cat.rules[warehouse].allowPartialShipments)
  }

  /**
   * After any sequence of calls: when a release is accepted, which error it gives otherwise, and which status the
   * order gets, all read off the order, the stock and the rules before the call.
   */
  lemma ReleaseOutcomeInEveryState(cat: Catalog, steps: seq<Step>, id: Id)
    ensures var db := Run(cat, EMPTY_DB, steps);
            var r := ReleaseOrder(cat, db, id);
            && (r == Err(NotFound) <==> |db.orders| <= id)
            && (id < |db.orders| ==>
                  var order := db.orders[id];
                  var covered := Covered(cat, db.rows, order.warehouse, order.lines);
                  && (r.Ok? <==> order.status == OrderDraft && (WantsAll(cat, order.warehouse) ==> covered))
                  && (r.Ok? ==> r.value.orders[id].status == StatusFor(cat, db.rows, order)))
  {
    hide Run, AllocateLines, Total, UniqueRows, NonNegative, TasksOk, Covered, SomethingToReserve, AnyAllocated,
        AllAllocated, InboundOk, CountsOk;
    EmptyDbIsFine(cat);
    RunKeepsInv(cat, EMPTY_DB, steps);
    var db := Run(cat, EMPTY_DB, steps);
    if id < |db.orders| {
      var order := db.orders[id];
      ReachableRowsAreOk(cat, db);
      assert OrderOk(order);
      CoveredIff(cat, db.batches, db.rows, order.warehouse, order.lines);
      if order.status == OrderDraft {
        SharesNeverFall(cat, db.batches, db.rows, order.warehouse, order.lines);
        AnyAllocatedIff(cat, db.batches, db.rows, order.warehouse, order.lines);
      }
    }
  }

  lemma CoveredIff(cat: Catalog, batches: seq<Batch>, rows: seq<Row>, warehouse: Id, lines: seq<OrderLine>)
    requires RowsOk(rows)
    ensures AllAllocated(AllocateLines(cat, batches, rows, warehouse, lines).1)
        <==> Covered(cat, rows, warehouse, lines)
  {
    FullyAllocatedIffSupplyCovers(cat, batches, rows, warehouse, lines);
  }
}
