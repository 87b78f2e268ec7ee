/** All service calls on one tenant's tables as one step machine, and what holds on every run of it. */
module Machine {
  import opened Wrappers
  import opened Domain
  import opened Stock
  import opened Allocation
  import opened Release
  import opened Picking
  import opened Inbound
  import opened ReceiptLifecycle
  import opened Counting
  import opened CountResults
  import opened Shipping

  datatype Step =
    | CreateReceiptStep(warehouse: Id)
    | AddLineStep(receipt: Id, product: Id, expected: real, uom: string, code: Option<string>, expiry: Option<int>)
    | ConfirmReceiptStep(receipt: Id, location: Id, submitted: Option<seq<Payload>>)
    | ReceiveLineStep(receipt: Id, at: Id, quantity: real, code: Option<string>, place: Option<Id>)
    | CompleteReceiptStep(receipt: Id)
    | AdjustStep(warehouse: Id, product: Id, batch: Option<Id>, location: Id, unit: Option<string>, newQty: real)
    | CreateCountStep(warehouse: Id, inputs: seq<CountInput>)
    | AddCountLinesStep(count: Id, inputs: seq<CountInput>)
    | StartCountStep(count: Id)
    | SubmitCountStep(count: Id, counted: seq<CountEntry>)
    | ReviewCountStep(count: Id, approve: bool)
    | CreateOrderStep(warehouse: Id, ordered: seq<OrderInput>)
    | ReleaseStep(order: Id)
    | CreateTaskStep(order: Id, hasPicker: bool)
    | StartTaskStep(task: Id)
    | ConfirmTaskStep(task: Id, picks: seq<PickEntry>)
    | CreateUnitStep(warehouse: Id)
    | AddItemsStep(handlingUnit: Id, order: Id, items: seq<PackItem>)
    | CreateShipmentStep(warehouse: Id)
    | AssignUnitsStep(shipment: Id, handlingUnits: seq<Id>)
    | DispatchStep(shipment: Id)

  function Apply(cat: Catalog, db: Db, step: Step): Result<Db, Error> {
    match step
    case CreateReceiptStep(w) => CreateReceipt(cat, db, w)
    case AddLineStep(r, p, q, u, c, e) => AddLine(cat, db, r, p, q, u, c, e)
    case ConfirmReceiptStep(r, l, s) => ConfirmReceipt(cat, db, r, l, s)
    case ReceiveLineStep(r, a, q, c, l) => ReceiveLine(cat, db, r, a, q, c, l)
    case CompleteReceiptStep(r) => CompleteReceipt(db, r)
    case AdjustStep(w, p, b, l, u, q) => Adjust(cat, db, w, p, b, l, u, q)
    case CreateCountStep(w, i) => CreateCount(cat, db, w, i)
    case AddCountLinesStep(c, i) => AddCountLines(cat, db, c, i)
    case StartCountStep(c) => StartCount(db, c)
    case SubmitCountStep(c, e) => SubmitCount(cat, db, c, e)
    case ReviewCountStep(c, a) => ReviewCount(db, c, a)
    case CreateOrderStep(w, i) => CreateOrder(cat, db, w, i)
    case ReleaseStep(o) => ReleaseOrder(cat, db, o)
    case CreateTaskStep(o, h) => CreateTask(cat, db, o, h)
    case StartTaskStep(t) => StartTask(db, t)
    case ConfirmTaskStep(t, e) => ConfirmTask(db, t, e)
    case CreateUnitStep(w) => CreateUnit(cat, db, w)
    case AddItemsStep(u, o, i) => AddItems(db, u, o, i)
    case CreateShipmentStep(w) => CreateShipment(cat, db, w)
    case AssignUnitsStep(s, u) => AssignUnits(db, s, u)
    case DispatchStep(s) => Dispatch(db, s)
  }

  /** A rejected call leaves every table as it was. */
  function After(cat: Catalog, db: Db, step: Step): Db {
    var r := Apply(cat, db, step);
    if r.Ok? then r.value else db
  }

  function Run(cat: Catalog, db: Db, steps: seq<Step>): Db
    decreases |steps|
  {
    if steps == [] then db else Run(cat, After(cat, db, steps[0]), steps[1..])
  }

  // ---------- The invariant ----------

  ghost predicate TaskOk(task: Task) {
    NotOverPicked(task.lines) && (task.status == TaskCompleted ==> AllPicked(task.lines))
  }

  ghost predicate TasksOk(tasks: seq<Task>) {
    forall i | 0 <= i < |tasks| :: TaskOk(tasks[i])
  }

  /** An order line is never allocated more than it asks for, and a draft has nothing allocated. */
  ghost predicate OrderOk(order: Order) {
    forall i | 0 <= i < |order.lines| ::
      var line := order.lines[i];
      && 0.0 <= line.allocatedQty
      && (0.0 < line.allocatedQty ==> line.allocatedQty <= line.requestedQty)
      && (order.status == OrderDraft ==> line.allocatedQty == 0.0)
  }

  ghost predicate OrdersOk(orders: seq<Order>) {
    forall i | 0 <= i < |orders| :: OrderOk(orders[i])
  }

  ghost predicate Inv(cat: Catalog, db: Db) {
    InboundOk(cat, db) && CountsOk(db.counts) && TasksOk(db.tasks) && OrdersOk(db.orders)
  }

  lemma EmptyDbIsFine(cat: Catalog)
    ensures Inv(cat, EMPTY_DB)
  {
    forall k ensures InBalance([], [], k) {
    }
  }

  // ---------- Stock-changing steps ----------

  /** Receipts only see movement lines of receipts. */
  lemma NewMovesKeepInbound(cat: Catalog, db: Db, after: Db)
    requires InboundOk(cat, db) && after.batches == db.batches && after.receipts == db.receipts
    requires StockOk(after.rows, after.moves)
    requires forall id: Id, product, uom ::
        Tally(after.moves, ReceivedBy(id, product, uom)) == Tally(db.moves, ReceivedBy(id, product, uom))
    ensures InboundOk(cat, after)
  {
    ForeignMovesKeepReceipts(cat, db.moves, after.moves, db.receipts);
  }

  lemma ReleaseKeepsInv(cat: Catalog, db: Db, id: Id)
    requires Inv(cat, db)
    ensures var r := ReleaseOrder(cat, db, id);
            r.Ok? ==> Inv(cat, r.value)
  {
    hide AllocateLines, Total, Tally, UniqueRows, NonNegative, CountOk, TaskOk, Rise, Supply;
    var r := ReleaseOrder(cat, db, id);
    if r.Ok? {
      var order := db.orders[id];
      var (rows, lines) := AllocateLines(cat, db.batches, db.rows, order.warehouse, order.lines);
      assert RowsOk(db.rows) && OrderOk(order);
      SharesAreBounded(cat, db.batches, db.rows, order.warehouse, order.lines);
      SharesNeverFall(cat, db.batches, db.rows, order.warehouse, order.lines);
      OrderDrawsItsRise(cat, db.batches, db.rows, order.warehouse, order.lines, 0);
      forall k ensures InBalance(rows, db.moves, k) {
        assert InBalance(db.rows, db.moves, k);
        ReleaseOnlyReserves(cat, db.batches, db.rows, order.warehouse, order.lines, k, Scrap);
      }
      NewMovesKeepInbound(cat, db, r.value);
    }
  }

  lemma ShareNeverFalls(cat: Catalog, batches: seq<Batch>, rows: seq<Row>, warehouse: Id, line: OrderLine)
    requires RowsOk(rows)
    ensures line.allocatedQty <= AllocateLine(cat, batches, rows, warehouse, line).1.allocatedQty
  {
    hide AllocateLine, Total, Supply;
    LineGetsItsShare(cat, batches, rows, warehouse, line);
    TotalIsNonNegative(rows, Supply(cat, line.product, warehouse));
  }

  lemma {:induction false} SharesNeverFall(
    cat: Catalog, batches: seq<Batch>, rows: seq<Row>, warehouse: Id, lines: seq<OrderLine>)
    requires RowsOk(rows)
    ensures var done := AllocateLines(cat, batches, rows, warehouse, lines).1;
            forall i | 0 <= i < |lines| :: lines[i].allocatedQty <= done[i].allocatedQty
  {
    hide AllocateLine, RowsOk, Total, Supply, Rise;
    if lines != [] {
      var n := |lines| - 1;
      SharesNeverFall(cat, batches, rows, warehouse, lines[..n]);
      OrderDrawsItsRise(cat, batches, rows, warehouse, lines[..n], lines[n].product);
      ShareNeverFalls(cat, batches, AllocateLines(cat, batches, rows, warehouse, lines[..n]).0, warehouse, lines[n]);
    }
  }

  lemma {:induction false} PicksAreNoReceipts(
      order: Id, snapshot: seq<TaskLine>, st: PickState, entries: seq<PickEntry>, meter: Meter)
    requires |st.lines| == |snapshot| && meter.ReceivedBy?
    ensures var r := PickAll(order, snapshot, st, entries);
            r.Ok? ==> Tally(r.value.moves, meter) == Tally(st.moves, meter)
    decreases |entries|
  {
    if entries != [] {
      var next := PickOne(order, snapshot, st, entries[0]);
      if next.Ok? {
        TallyOfAppended(st.moves, PickMovement(order, snapshot[entries[0].line].key, entries[0].qty), meter);
        PicksAreNoReceipts(order, snapshot, next.value, entries[1..], meter);
      }
    }
  }

  lemma {:induction false} PicksLeaveAllocations(
      order: Id, snapshot: seq<TaskLine>, st: PickState, entries: seq<PickEntry>)
    requires |st.lines| == |snapshot|
    ensures var r := PickAll(order, snapshot, st, entries);
            r.Ok? ==> forall i | 0 <= i < |st.orderLines| ::
              r.value.orderLines[i].(pickedQty := st.orderLines[i].pickedQty) == st.orderLines[i]
    decreases |entries|
  {
    if entries != [] {
      var next := PickOne(order, snapshot, st, entries[0]);
      if next.Ok? {
        PicksLeaveAllocations(order, snapshot, next.value, entries[1..]);
      }
    }
  }

  lemma ConfirmTaskKeepsInv(cat: Catalog, db: Db, id: Id, entries: seq<PickEntry>)
    requires Inv(cat, db)
    ensures var r := ConfirmTask(db, id, entries);
            r.Ok? ==> Inv(cat, r.value)
  {
    var r := ConfirmTask(db, id, entries);
    if r.Ok? {
      var task := db.tasks[id];
      var order := db.orders[task.order];
      assert TaskOk(task) && OrderOk(order);
      var st := PickState(db.rows, task.lines, order.lines, db.moves);
      PickAllKeepsStock(task.order, task.lines, st, entries);
      PickAllNeverOverPicks(task.order, task.lines, st, entries);
      PicksLeaveAllocations(task.order, task.lines, st, entries);
      forall other: Id, product, uom
        ensures Tally(r.value.moves, ReceivedBy(other, product, uom))
            == Tally(db.moves, ReceivedBy(other, product, uom))
      {
        PicksAreNoReceipts(task.order, task.lines, st, entries, ReceivedBy(other, product, uom));
      }
      NewMovesKeepInbound(cat, db, r.value);
    }
  }

  lemma AdjustKeepsInv(
      cat: Catalog, db: Db, warehouse: Id, product: Id, batch: Option<Id>, location: Id, uom: Option<string>,
      newQty: real)
    requires Inv(cat, db)
    ensures var r := Adjust(cat, db, warehouse, product, batch, location, uom, newQty);
            r.Ok? ==> Inv(cat, r.value)
  {
    var r := Adjust(cat, db, warehouse, product, batch, location, uom, newQty);
    if r.Ok? {
      var k := Key(product, batch, location, if uom.Some? then uom.value else cat.products[product].defaultUom);
      var s := StatusToCount(cat.groupOrder, db.rows, k);
      SetRowKeepsStock(db.rows, db.moves, k, s, newQty, NoRef);
      forall id: Id, p, u ensures Tally(r.value.moves, ReceivedBy(id, p, u)) == Tally(db.moves, ReceivedBy(id, p, u)) {
        SettingIsNoReceipt(db.rows, db.moves, k, s, newQty, NoRef, ReceivedBy(id, p, u));
      }
      NewMovesKeepInbound(cat, db, r.value);
    }
  }

  lemma SettingIsNoReceipt(
      rows: seq<Row>, moves: seq<Movement>, k: Key, s: StockStatus, newQty: real, reference: Reference, meter: Meter)
    requires meter.ReceivedBy?
    ensures Tally(SetRow(rows, moves, k, s, newQty, reference).1, meter) == Tally(moves, meter)
  {
    var found := Find(rows, k, s);
    var previous := if found.Some? then rows[found.value].qty else 0.0;
    TallyOfAppended(moves, AdjustMovement(reference, k, newQty - previous), meter);
  }

  lemma {:induction false} CountsAreNoReceipts(
    cat: Catalog, batches: seq<Batch>, rows: seq<Row>, moves: seq<Movement>, warehouse: Id, reference: Reference,
    lines: seq<CountLine>, entries: seq<CountEntry>, meter: Meter)
    requires meter.ReceivedBy?
    ensures var r := AdjustAll(cat, batches, rows, moves, warehouse, reference, lines, entries);
            r.Ok? ==> Tally(r.value.1, meter) == Tally(moves, meter)
    decreases |entries|
  {
    if entries != [] {
      if !Differs(lines, entries[0]) {
        CountsAreNoReceipts(cat, batches, rows, moves, warehouse, reference, lines, entries[1..], meter);
      } else {
        var key := lines[entries[0].line].key;
        var one := AdjustStock(cat, batches, rows, moves, warehouse, key, entries[0].counted, reference);
        if one.Ok? {
          SettingIsNoReceipt(rows, moves, key, StatusToCount(cat.groupOrder, rows, key), entries[0].counted,
              reference, meter);
          CountsAreNoReceipts(cat, batches, one.value.0, one.value.1, warehouse, reference, lines, entries[1..], meter);
        }
      }
    }
  }

  lemma SubmitCountKeepsInv(cat: Catalog, db: Db, id: Id, entries: seq<CountEntry>)
    requires Inv(cat, db)
    ensures var r := SubmitCount(cat, db, id, entries);
            r.Ok? ==> Inv(cat, r.value)
  {
    var r := SubmitCount(cat, db, id, entries);
    if r.Ok? {
      var task := db.counts[id];
      assert CountOk(task);
      SubmitCoversAndCompletes(cat, db, id, entries);
      SubmitSetsChosenRows(cat, db, id, entries, Key(0, None, 0, ""), Available);
      var marked := MarkAll(task.lines, entries, {}).value;
      forall other: Id, p, u
        ensures Tally(r.value.moves, ReceivedBy(other, p, u)) == Tally(db.moves, ReceivedBy(other, p, u))
      {
        CountsAreNoReceipts(cat, db.batches, db.rows, db.moves, task.warehouse, CountRef(id), marked, entries,
            ReceivedBy(other, p, u));
      }
      NewMovesKeepInbound(cat, db, r.value);
    }
  }

  lemma DispatchKeepsInv(cat: Catalog, db: Db, id: Id)
    requires Inv(cat, db)
    ensures var r := Dispatch(db, id);
            r.Ok? ==> Inv(cat, r.value)
  {
    var r := Dispatch(db, id);
    if r.Ok? {
      DispatchKeepsStock(db, id);
      var links := db.shipments[id].links;
      forall other: Id, p, u
        ensures Tally(r.value.moves, ReceivedBy(other, p, u)) == Tally(db.moves, ReceivedBy(other, p, u))
      {
        TallyOfConcatenation(db.moves, DispatchLog(id, links, db.units), ReceivedBy(other, p, u));
        DispatchLogReads(id, links, db.units, ReceivedBy(other, p, u));
      }
      NewMovesKeepInbound(cat, db, r.value);
    }
  }

  // ---------- Every step ----------

  lemma TaskStepsKeepInv(cat: Catalog, db: Db, order: Id, hasPicker: bool, task: Id)
    requires Inv(cat, db)
    ensures var r := CreateTask(cat, db, order, hasPicker);
            r.Ok? ==> Inv(cat, r.value)
    ensures var r := StartTask(db, task);
            r.Ok? ==> Inv(cat, r.value)
  {
    hide LinesForOrder, StockOk, ReceiptsOk, UniqueBatches, CountOk;
    var r := CreateTask(cat, db, order, hasPicker);
    if r.Ok? {
      assert OrderOk(db.orders[order]);
    }
    if StartTask(db, task).Ok? {
      assert TaskOk(db.tasks[task]);
    }
  }

  lemma CountStepsKeepInv(cat: Catalog, db: Db, warehouse: Id, id: Id, inputs: seq<CountInput>)
    requires Inv(cat, db)
    ensures var r := CreateCount(cat, db, warehouse, inputs);
            r.Ok? ==> Inv(cat, r.value)
    ensures var r := AddCountLines(cat, db, id, inputs);
            r.Ok? ==> Inv(cat, r.value)
    ensures var r := StartCount(db, id);
            r.Ok? ==> Inv(cat, r.value)
  {
    CreateCountKeepsDistinct(cat, db, warehouse, inputs);
    AddCountLinesKeepsDistinct(cat, db, id, inputs);
    if StartCount(db, id).Ok? {
      assert CountOk(db.counts[id]);
    }
  }

  lemma ReviewKeepsInv(cat: Catalog, db: Db, id: Id, approve: bool)
    requires Inv(cat, db)
    ensures var r := ReviewCount(db, id, approve);
            r.Ok? ==> Inv(cat, r.value)
  {
    hide StockOk, ReceiptsOk, UniqueBatches, TaskOk, OrderOk;
    var r := ReviewCount(db, id, approve);
    if r.Ok? && !approve {
      assert CountOk(db.counts[id]);
    }
  }

  predicate IsInbound(step: Step) {
    step.CreateReceiptStep? || step.AddLineStep? || step.ConfirmReceiptStep? || step.ReceiveLineStep?
        || step.CompleteReceiptStep?
  }

  predicate IsCounting(step: Step) {
    || step.AdjustStep? || step.CreateCountStep? || step.AddCountLinesStep? || step.StartCountStep?
    || step.SubmitCountStep? || step.ReviewCountStep?
  }

  lemma InboundStepKeepsInv(cat: Catalog, db: Db, step: Step)
    requires Inv(cat, db) && IsInbound(step)
    ensures Inv(cat, After(cat, db, step))
  {
    hide CountsOk, TasksOk, OrdersOk, InboundOk;
    match step
    case CreateReceiptStep(w) => CreateReceiptKeepsInbound(cat, db, w);
    case AddLineStep(r, p, q, u, c, e) => AddLineKeepsInbound(cat, db, r, p, q, u, c, e);
    case ConfirmReceiptStep(r, l, s) => ConfirmKeepsInbound(cat, db, r, l, s);
    case ReceiveLineStep(r, a, q, c, l) => ReceiveLineKeepsInbound(cat, db, r, a, q, c, l);
    case CompleteReceiptStep(r) => CompleteKeepsInbound(cat, db, r);
  }

  lemma StepKeepsInv(cat: Catalog, db: Db, step: Step)
    requires Inv(cat, db)
    ensures Inv(cat, After(cat, db, step))
  {
    hide Adjust, CreateCount, AddCountLines, StartCount, SubmitCount, ReleaseOrder, CreateTask, StartTask,
        ConfirmTask, Dispatch;
    match step
    case AdjustStep(w, p, b, l, u, q) => AdjustKeepsInv(cat, db, w, p, b, l, u, q);
    case CreateCountStep(w, i) => CountStepsKeepInv(cat, db, w, 0, i);
    case AddCountLinesStep(c, i) => CountStepsKeepInv(cat, db, 0, c, i);
    case StartCountStep(c) => CountStepsKeepInv(cat, db, 0, c, []);
    case SubmitCountStep(c, e) => SubmitCountKeepsInv(cat, db, c, e);
    case ReviewCountStep(c, a) => ReviewKeepsInv(cat, db, c, a);
    case ReleaseStep(o) => ReleaseKeepsInv(cat, db, o);
    case CreateTaskStep(o, h) => TaskStepsKeepInv(cat, db, o, h, 0);
    case StartTaskStep(t) => TaskStepsKeepInv(cat, db, 0, false, t);
    case ConfirmTaskStep(t, e) => ConfirmTaskKeepsInv(cat, db, t, e);
    case DispatchStep(s) => DispatchKeepsInv(cat, db, s);
    case CreateOrderStep(w, i) =>
    case CreateUnitStep(w) =>
    case AddItemsStep(u, o, i) =>
    case CreateShipmentStep(w) =>
    case AssignUnitsStep(s, u) =>
    case _ => InboundStepKeepsInv(cat, db, step);
  }

  lemma {:induction false} RunKeepsInv(cat: Catalog, db: Db, steps: seq<Step>)
    requires Inv(cat, db)
    ensures Inv(cat, Run(cat, db, steps))
    decreases |steps|
  {
    if steps != [] {
      StepKeepsInv(cat, db, steps[0]);
      RunKeepsInv(cat, After(cat, db, steps[0]), steps[1..]);
    }
  }

  function StateAt(cat: Catalog, db: Db, steps: seq<Step>, n: nat): Db
    requires n <= |steps|
  {
    Run(cat, db, steps[..n])
  }

  lemma {:induction false} RunOneMore(cat: Catalog, db: Db, steps: seq<Step>, step: Step)
    ensures Run(cat, db, steps + [step]) == After(cat, Run(cat, db, steps), step)
    decreases |steps|
  {
    hide After;
    var all := steps + [step];
    if steps == [] {
      assert Run(cat, db, all) == Run(cat, After(cat, db, step), []);
    } else {
      assert all[1..] == steps[1..] + [step];
      RunOneMore(cat, After(cat, db, steps[0]), steps[1..], step);
    }
  }

  lemma StateAfter(cat: Catalog, db: Db, steps: seq<Step>, n: nat)
    requires n < |steps|
    ensures StateAt(cat, db, steps, n + 1) == After(cat, StateAt(cat, db, steps, n), steps[n])
  {
    hide After;
    assert steps[..n + 1] == steps[..n] + [steps[n]];
    RunOneMore(cat, db, steps[..n], steps[n]);
  }

  /** On every run from an empty tenant: balanced books, no negative row, one row per identity. */
  lemma LedgerHoldsOnEveryRun(cat: Catalog, steps: seq<Step>)
    ensures var db := Run(cat, EMPTY_DB, steps);
            && (forall k :: Total(db.rows, OnKey(k)) == Tally(db.moves, NetInto(k)))
            && (forall i | 0 <= i < |db.rows| :: 0.0 <= db.rows[i].qty)
            && (forall i, j | 0 <= i < j < |db.rows| ::
                !(db.rows[i].key == db.rows[j].key && db.rows[i].status == db.rows[j].status))
  {
    EmptyDbIsFine(cat);
    RunKeepsInv(cat, EMPTY_DB, steps);
    var db := Run(cat, EMPTY_DB, steps);
    forall k ensures Total(db.rows, OnKey(k)) == Tally(db.moves, NetInto(k)) {
      assert InBalance(db.rows, db.moves, k);
    }
    assert forall i, j | 0 <= i < j < |db.rows| :: !SameIdentity(db.rows[i], db.rows[j]);
  }

  /** On every run: receipt status, tolerances and the movement log tell the same story. */
  lemma ReceiptsAreSoundOnEveryRun(cat: Catalog, steps: seq<Step>, id: Id)
    requires id < |Run(cat, EMPTY_DB, steps).receipts|
    ensures var db := Run(cat, EMPTY_DB, steps);
            var receipt := db.receipts[id];
            && (receipt.status == Draft ==> forall i | 0 <= i < |receipt.lines| :: receipt.lines[i].received == 0.0)
            && (receipt.status == Received ==>
                forall i | 0 <= i < |receipt.lines| :: receipt.lines[i].expected <= receipt.lines[i].received)
            && (receipt.status == PartiallyReceived ==>
                  (exists i | 0 <= i < |receipt.lines| :: 0.0 < receipt.lines[i].received)
                  && (exists i | 0 <= i < |receipt.lines| :: receipt.lines[i].received < receipt.lines[i].expected))
            && (forall i | 0 <= i < |receipt.lines| ::
                  var pct := OverPct(cat, receipt.warehouse, receipt.lines[i].product);
                  && 0.0 <= receipt.lines[i].received
                  && (0.0 <= pct ==> receipt.lines[i].received <= receipt.lines[i].expected * (1.0 + pct / 100.0))
                  && (pct < 0.0 ==> receipt.lines[i].received <= receipt.lines[i].expected))
            && (forall product, uom ::
                  ReceivedOf(receipt.lines, product, Some(uom)) == Tally(db.moves, ReceivedBy(id, product, uom)))
  {
    hide Run, Tally, ReceivedOf, Total, CountOk, TaskOk, OrderOk;
    EmptyDbIsFine(cat);
    RunKeepsInv(cat, EMPTY_DB, steps);
    var db := Run(cat, EMPTY_DB, steps);
    var receipt := db.receipts[id];
    assert ReceiptOk(cat, db.moves, id, receipt);
    forall i | 0 <= i < |receipt.lines| ensures LineOk(cat, receipt.warehouse, receipt.lines[i]) {
    }
    forall product, uom
      ensures ReceivedOf(receipt.lines, product, Some(uom)) == Tally(db.moves, ReceivedBy(id, product, uom))
    {
      assert Logged(db.moves, id, receipt.lines, product, uom);
    }
  }

  /**
   * In every reachable state an accepted release is exact: each line gets its share of the stock left at its turn, and
   * the order its status.
   */
  lemma ReleaseIsExactInEveryState(cat: Catalog, steps: seq<Step>, id: Id)
    ensures var db := Run(cat, EMPTY_DB, steps);
            var r := ReleaseOrder(cat, db, id);
            r.Ok? ==>
              var before, after := db.orders[id], r.value.orders[id];
              && |after.lines| == |before.lines|
              && (forall i | 0 <= i < |before.lines| ::
                    after.lines[i] == before.lines[i].(
                      allocatedQty := FairShare(before.lines[i],
                          LeftFor(cat, db.rows, before.warehouse, before.lines, after.lines, i))))
              && (after.status == FullyAllocated <==>
                    NoneOverAllocated(before.lines) && SupplyCovers(cat, db.rows, before.warehouse, before.lines))
  {
    hide Run, AllocateLines, InboundOk;
    EmptyDbIsFine(cat);
    RunKeepsInv(cat, EMPTY_DB, steps);
    var db := Run(cat, EMPTY_DB, steps);
    if ReleaseOrder(cat, db, id).Ok? {
      ReachableRowsAreOk(cat, db);
      var order := db.orders[id];
      ReleaseAllocatesExactly(cat, db.batches, db.rows, order.warehouse, order.lines);
      FullyAllocatedIffSupplyCovers(cat, db.batches, db.rows, order.warehouse, order.lines);
    }
  }

  lemma ReachableRowsAreOk(cat: Catalog, db: Db)
    requires Inv(cat, db)
    ensures RowsOk(db.rows) && StockOk(db.rows, db.moves)
  {
  }

  /**
   * In every reachable state an accepted count covers the pending lines, completes its task and books exactly the
   * counts.
   */
  lemma CountIsExactInEveryState(
      cat: Catalog, steps: seq<Step>, id: Id, entries: seq<CountEntry>, k: Key, s: StockStatus)
    ensures var db := Run(cat, EMPTY_DB, steps);
            var r := SubmitCount(cat, db, id, entries);
            r.Ok? ==>
              && CoversPending(db.counts[id].lines, entries)
              && r.value.counts[id].status == CountCompleted
              && Held(r.value.rows, k, s)
                 == CountedStock(cat.groupOrder, db.rows, ChangeOn(db.counts[id].lines, entries, k), k, s)
  {
    hide Run, InboundOk, MarkAll, AdjustAll, CountOk;
    EmptyDbIsFine(cat);
    RunKeepsInv(cat, EMPTY_DB, steps);
    var db := Run(cat, EMPTY_DB, steps);
    if SubmitCount(cat, db, id, entries).Ok? {
      ReachableRowsAreOk(cat, db);
      SubmitCoversAndCompletes(cat, db, id, entries);
      SubmitSetsChosenRows(cat, db, id, entries, k, s);
    }
  }

  /** In every reachable state, for every entry of an accepted count: when the stock on hand ends at the count. */
  lemma CountMatchesOnHandIffInEveryState(cat: Catalog, steps: seq<Step>, id: Id, entries: seq<CountEntry>, a: nat)
    requires a < |entries|
    ensures var db := Run(cat, EMPTY_DB, steps);
            var r := SubmitCount(cat, db, id, entries);
            r.Ok? ==>
              && entries[a].line < |db.counts[id].lines|
              && var line := db.counts[id].lines[entries[a].line];
                 (Total(r.value.rows, OnKey(line.key)) == entries[a].counted
                  <==> WillMatch(cat.groupOrder, db.rows, line, entries[a].counted))
  {
    hide Run, InboundOk, MarkAll, AdjustAll, CountOk, WillMatch, Total;
    EmptyDbIsFine(cat);
    RunKeepsInv(cat, EMPTY_DB, steps);
    var db := Run(cat, EMPTY_DB, steps);
    if SubmitCount(cat, db, id, entries).Ok? {
      ReachableRowsAreOk(cat, db);
      OnHandMatchesCountIff(cat, db, id, entries, a);
    }
  }
}
