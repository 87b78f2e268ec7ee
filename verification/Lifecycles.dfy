/** Which call moves which document on, from which status to which; and that no document ever goes back. */
module Lifecycles {
  import opened Wrappers
  import opened Domain
  import opened Release
  import opened Picking
  import opened Inbound
  import opened Counting
  import opened Shipping
  import opened Machine

  // ---------- One step ----------

  predicate ReceiptMoves(step: Step, i: nat, a: ReceiptStatus, b: ReceiptStatus) {
    || a == b
    || (step.ConfirmReceiptStep? && step.receipt == i && (a == Draft || a == PartiallyReceived)
        && (b == PartiallyReceived || b == Received))
    || (step.ReceiveLineStep? && step.receipt == i && (a == Draft || a == PartiallyReceived)
        && (b == PartiallyReceived || b == Received))
    || (step.CompleteReceiptStep? && step.receipt == i && b == Received)
  }

  predicate TaskMoves(step: Step, i: nat, a: TaskStatus, b: TaskStatus) {
    || a == b
    || (step.StartTaskStep? && step.task == i && (a == TaskCreated || a == TaskAssigned) && b == TaskInProgress)
    || (step.ConfirmTaskStep? && step.task == i && a == TaskInProgress && b == TaskCompleted)
  }

  predicate CountMoves(step: Step, i: nat, a: CountStatus, b: CountStatus) {
    || a == b
    || (step.StartCountStep? && step.count == i && a == CountPending && b == CountInProgress)
    || (step.SubmitCountStep? && step.count == i && a == CountInProgress && b == CountCompleted)
    || (step.ReviewCountStep? && step.count == i && !step.approve && b == CountCancelled)
  }

  predicate OrderMoves(tasks: seq<Task>, step: Step, i: nat, a: OrderStatus, b: OrderStatus) {
    || a == b
    || (step.ReleaseStep? && step.order == i && a == OrderDraft
        && (b == Released || b == PartiallyAllocated || b == FullyAllocated))
    || (step.CreateTaskStep? && step.order == i && (a == PartiallyAllocated || a == FullyAllocated) && b == InPicking)
    || (step.ConfirmTaskStep? && step.task < |tasks| && tasks[step.task].order == i
        && (b == PartiallyPicked || b == Picked))
  }

  predicate ShipmentMoves(step: Step, i: nat, a: ShipmentStatus, b: ShipmentStatus) {
    || a == b
    || (step.AssignUnitsStep? && step.shipment == i && a == Planned && b == Loading)
    || (step.DispatchStep? && step.shipment == i && a != Dispatched && b == Dispatched)
  }

  ghost predicate ReceiptsMove(step: Step, before: seq<Receipt>, after: seq<Receipt>) {
    && |before| <= |after|
    && (forall i | 0 <= i < |before| :: ReceiptMoves(step, i, before[i].status, after[i].status))
    && (forall i | |before| <= i < |after| :: after[i].status == Draft)
  }

  ghost predicate TasksMove(step: Step, before: seq<Task>, after: seq<Task>) {
    && |before| <= |after|
    && (forall i | 0 <= i < |before| :: TaskMoves(step, i, before[i].status, after[i].status))
    && (forall i | |before| <= i < |after| :: after[i].status == TaskCreated || after[i].status == TaskAssigned)
  }

  ghost predicate CountsMove(step: Step, before: seq<CountTask>, after: seq<CountTask>) {
    && |before| <= |after|
    && (forall i | 0 <= i < |before| :: CountMoves(step, i, before[i].status, after[i].status))
    && (forall i | |before| <= i < |after| :: after[i].status == CountPending)
  }

  ghost predicate OrdersMove(tasks: seq<Task>, step: Step, before: seq<Order>, after: seq<Order>) {
    && |before| <= |after|
    && (forall i | 0 <= i < |before| :: OrderMoves(tasks, step, i, before[i].status, after[i].status))
    && (forall i | |before| <= i < |after| :: after[i].status == OrderDraft)
  }

  ghost predicate ShipmentsMove(step: Step, before: seq<Shipment>, after: seq<Shipment>) {
    && |before| <= |after|
    && (forall i | 0 <= i < |before| :: ShipmentMoves(step, i, before[i].status, after[i].status))
    && (forall i | |before| <= i < |after| :: after[i].status == Planned)
  }

  ghost predicate DocumentsMove(before: Db, step: Step, after: Db) {
    && ReceiptsMove(step, before.receipts, after.receipts)
    && TasksMove(step, before.tasks, after.tasks)
    && CountsMove(step, before.counts, after.counts)
    && OrdersMove(before.tasks, step, before.orders, after.orders)
    && ShipmentsMove(step, before.shipments, after.shipments)
  }

  lemma InboundStepMoves(cat: Catalog, db: Db, step: Step)
    requires IsInbound(step)
    ensures DocumentsMove(db, step, After(cat, db, step))
  {
    hide ReceiveAll, TopUp;
  }

  /** Everything but the counts is left alone by a counting call. */
  lemma CountStepMoves(cat: Catalog, db: Db, step: Step)
    requires IsCounting(step)
    ensures DocumentsMove(db, step, After(cat, db, step))
  {
    hide CountsMove, Apply;
    CountStepLeavesOthers(cat, db, step);
    CountStepMovesCounts(cat, db, step);
  }

  lemma CountStepLeavesOthers(cat: Catalog, db: Db, step: Step)
    requires IsCounting(step)
    ensures var after := After(cat, db, step);
            && after.receipts == db.receipts && after.tasks == db.tasks && after.orders == db.orders
            && after.shipments == db.shipments
  {
    hide MarkAll, AdjustAll, NewCountLines, Suggested, AdjustStock;
  }

  lemma CountStepMovesCounts(cat: Catalog, db: Db, step: Step)
    requires IsCounting(step)
    ensures CountsMove(step, db.counts, After(cat, db, step).counts)
  {
    hide MarkAll, AdjustAll, NewCountLines, Suggested, AdjustStock, AlreadyListed, RepeatsKey;
  }

  predicate IsOrdering(step: Step) {
    || step.CreateOrderStep? || step.ReleaseStep? || step.CreateTaskStep? || step.StartTaskStep?
    || step.ConfirmTaskStep?
  }

  lemma OrderStepMoves(cat: Catalog, db: Db, step: Step)
    requires IsOrdering(step)
    ensures DocumentsMove(db, step, After(cat, db, step))
  {
    hide AllocateLines, LinesForOrder, PickAll;
  }

  lemma OtherStepMoves(cat: Catalog, db: Db, step: Step)
    requires !IsInbound(step) && !IsCounting(step) && !IsOrdering(step)
    ensures DocumentsMove(db, step, After(cat, db, step))
  {
    hide PackAll, LinkUnits, DispatchLog;
  }

  /** Every call moves only the documents it names, along the lines above; new ones start at the beginning. */
  lemma StepMovesDocuments(cat: Catalog, db: Db, step: Step)
    ensures DocumentsMove(db, step, After(cat, db, step))
  {
    hide After, DocumentsMove;
    if IsInbound(step) {
      InboundStepMoves(cat, db, step);
    } else if IsCounting(step) {
      CountStepMoves(cat, db, step);
    } else if IsOrdering(step) {
      OrderStepMoves(cat, db, step);
    } else {
      OtherStepMoves(cat, db, step);
    }
  }

  /** The calls without loops are accepted exactly in these statuses. */
  lemma SimpleCallsAcceptIff(cat: Catalog, db: Db, id: Id, approve: bool)
    ensures StartTask(db, id).Ok? <==>
              id < |db.tasks| && (db.tasks[id].status == TaskCreated || db.tasks[id].status == TaskAssigned)
    ensures StartCount(db, id).Ok? <==> id < |db.counts| && db.counts[id].status == CountPending
    ensures ReviewCount(db, id, approve).Ok? <==> approve || id < |db.counts|
    ensures CompleteReceipt(db, id).Ok? <==>
              id < |db.receipts| && forall i | 0 <= i < |db.receipts[id].lines| ::
                !(db.receipts[id].lines[i].received < db.receipts[id].lines[i].expected)
  {
  }

  /** Orders open with nothing allocated or picked, receipts empty, and receipt lines with nothing received. */
  lemma OpeningCalls(
    cat: Catalog, db: Db, warehouse: Id, inputs: seq<OrderInput>, id: Id, product: Id, expected: real, uom: string,
    code: Option<string>, expiry: Option<int>)
    ensures var r := CreateOrder(cat, db, warehouse, inputs);
            && (r.Ok? <==>
                  && warehouse in cat.warehouses && inputs != []
                  && forall i | 0 <= i < |inputs| :: inputs[i].product in cat.products)
            && (r.Ok? ==>
                  var order := r.value.orders[|db.orders|];
                  && order.warehouse == warehouse && order.status == OrderDraft && |order.lines| == |inputs|
                  && forall i | 0 <= i < |inputs| ::
                       var line := order.lines[i];
                       && line.product == inputs[i].product && line.uom == inputs[i].uom
                       && line.requestedQty == inputs[i].qty && line.allocatedQty == line.pickedQty == 0.0)
    ensures var r := AddLine(cat, db, id, product, expected, uom, code, expiry);
            r.Ok? ==>
              var before, after := db.receipts[id], r.value.receipts[id];
              && before.status == Draft
              && after == before.(lines := before.lines
                                           + [ReceiptLine(product, expected, 0.0, uom, code, expiry, None)])
    ensures CreateReceipt(cat, db, warehouse).Ok? <==> warehouse in cat.warehouses
  {
  }

  // ---------- Whole runs ----------

  function ReceiptRank(s: ReceiptStatus): nat {
    match s case Draft => 0 case PartiallyReceived => 1 case Received => 2 case Cancelled => 2
  }

  function TaskRank(s: TaskStatus): nat {
    match s case TaskCreated => 0 case TaskAssigned => 0 case TaskInProgress => 1 case TaskCompleted => 2
  }

  function CountRank(s: CountStatus): nat {
    match s case CountPending => 0 case CountInProgress => 1 case CountCompleted => 2 case CountCancelled => 3
  }

  function OrderRank(s: OrderStatus): nat {
    match s
    case OrderDraft => 0
    case Released => 1 case PartiallyAllocated => 1 case FullyAllocated => 1
    case InPicking => 2
    case PartiallyPicked => 3 case Picked => 3
  }

  function ShipmentRank(s: ShipmentStatus): nat {
    match s case Planned => 0 case Loading => 1 case Dispatched => 2
  }

  ghost predicate ReceiptsAdvance(before: seq<Receipt>, after: seq<Receipt>) {
    |before| <= |after| && forall i | 0 <= i < |before| ::
      ReceiptRank(before[i].status) <= ReceiptRank(after[i].status)
  }

  ghost predicate TasksAdvance(before: seq<Task>, after: seq<Task>) {
    |before| <= |after| && forall i | 0 <= i < |before| :: TaskRank(before[i].status) <= TaskRank(after[i].status)
  }

  ghost predicate CountsAdvance(before: seq<CountTask>, after: seq<CountTask>) {
    |before| <= |after| && forall i | 0 <= i < |before| :: CountRank(before[i].status) <= CountRank(after[i].status)
  }

  ghost predicate OrdersAdvance(before: seq<Order>, after: seq<Order>) {
    |before| <= |after| && forall i | 0 <= i < |before| :: OrderRank(before[i].status) <= OrderRank(after[i].status)
  }

  ghost predicate ShipmentsAdvance(before: seq<Shipment>, after: seq<Shipment>) {
    |before| <= |after| && forall i | 0 <= i < |before| ::
      ShipmentRank(before[i].status) <= ShipmentRank(after[i].status)
  }

  /** No document has gone back. */
  ghost predicate DocumentsAdvance(before: Db, after: Db) {
    && ReceiptsAdvance(before.receipts, after.receipts) && TasksAdvance(before.tasks, after.tasks)
    && CountsAdvance(before.counts, after.counts) && OrdersAdvance(before.orders, after.orders)
    && ShipmentsAdvance(before.shipments, after.shipments)
  }

  lemma AdvanceInTurn(a: Db, b: Db, c: Db)
    requires DocumentsAdvance(a, b) && DocumentsAdvance(b, c)
    ensures DocumentsAdvance(a, c)
  {
    hide ReceiptRank, TaskRank, CountRank, OrderRank, ShipmentRank;
  }

  lemma StepAdvancesDocuments(cat: Catalog, db: Db, step: Step)
    ensures DocumentsAdvance(db, After(cat, db, step))
  {
    hide After;
    StepMovesDocuments(cat, db, step);
    var after := After(cat, db, step);
    assert ReceiptsAdvance(db.receipts, after.receipts) by {
      hide TasksMove, CountsMove, OrdersMove, ShipmentsMove;
    }
    assert TasksAdvance(db.tasks, after.tasks) by {
      hide ReceiptsMove, CountsMove, OrdersMove, ShipmentsMove;
    }
    assert CountsAdvance(db.counts, after.counts) by {
      hide ReceiptsMove, TasksMove, OrdersMove, ShipmentsMove;
    }
    assert OrdersAdvance(db.orders, after.orders) by {
      hide ReceiptsMove, TasksMove, CountsMove, ShipmentsMove;
    }
    assert ShipmentsAdvance(db.shipments, after.shipments) by {
      hide ReceiptsMove, TasksMove, CountsMove, OrdersMove;
    }
  }

  lemma NoneGoesBack(db: Db)
    ensures DocumentsAdvance(db, db)
  {
  }

  /** Over any sequence of calls no document goes back to an earlier status. */
  lemma {:induction false} NoDocumentGoesBack(cat: Catalog, db: Db, steps: seq<Step>)
    ensures DocumentsAdvance(db, Run(cat, db, steps))
    decreases |steps|
  {
    hide After, DocumentsAdvance;
    if steps == [] {
      NoneGoesBack(db);
    } else {
      StepAdvancesDocuments(cat, db, steps[0]);
      NoDocumentGoesBack(cat, After(cat, db, steps[0]), steps[1..]);
      AdvanceInTurn(db, After(cat, db, steps[0]), Run(cat, db, steps));
    }
  }

  // ---------- Codes and dates on receipt lines ----------

  /** A line of a product with batches names one, and a line of a product with expiry dates carries one. */
  predicate HasPapers(cat: Catalog, line: ReceiptLine) {
    && line.product in cat.products
    && (cat.products[line.product].requiresBatch ==> line.batchCode.Some? && line.batchCode.value != "")
    && (cat.products[line.product].requiresExpiry ==> line.expiry.Some?)
  }

  ghost predicate LinesHavePapers(cat: Catalog, lines: seq<ReceiptLine>) {
    forall i | 0 <= i < |lines| :: HasPapers(cat, lines[i])
  }

  ghost predicate ReceiptsHavePapers(cat: Catalog, receipts: seq<Receipt>) {
    forall i | 0 <= i < |receipts| :: LinesHavePapers(cat, receipts[i].lines)
  }

  lemma {:induction false} ReceivingKeepsPapers(
    cat: Catalog, id: Id, warehouse: Id, location: Id, snapshot: seq<ReceiptLine>, st: ReceiveState,
    payloads: seq<Payload>)
    requires |st.lines| == |snapshot| && LinesHavePapers(cat, st.lines)
    ensures var r := ReceiveAll(cat, id, warehouse, location, snapshot, st, payloads);
            r.Ok? ==> LinesHavePapers(cat, r.value.lines)
    decreases |payloads|
  {
    if payloads != [] {
      var next := ReceiveOne(cat, id, warehouse, location, snapshot, st, payloads[0]);
      if next.Ok? {
        OnePayloadKeepsPapers(cat, id, warehouse, location, snapshot, st, payloads[0]);
        hide ReceiveOne;
        ReceivingKeepsPapers(cat, id, warehouse, location, snapshot, next.value, payloads[1..]);
      }
    }
  }

  lemma OnePayloadKeepsPapers(
    cat: Catalog, id: Id, warehouse: Id, location: Id, snapshot: seq<ReceiptLine>, st: ReceiveState, payload: Payload)
    requires |st.lines| == |snapshot| && LinesHavePapers(cat, st.lines)
    ensures var r := ReceiveOne(cat, id, warehouse, location, snapshot, st, payload);
            r.Ok? ==> LinesHavePapers(cat, r.value.lines)
  {
    hide FindBatch, WithinTolerance, IncreaseStock;
  }

  lemma ReceiptStepKeepsPapers(cat: Catalog, db: Db, step: Step)
    requires ReceiptsHavePapers(cat, db.receipts) && IsInbound(step)
    ensures ReceiptsHavePapers(cat, After(cat, db, step).receipts)
  {
    hide ReceiveAll, TopUp, HasPapers;
    match step
    case ConfirmReceiptStep(id, location, submitted) =>
      if Apply(cat, db, step).Ok? {
        var receipt := db.receipts[id];
        ReceivingKeepsPapers(cat, id, receipt.warehouse, location, receipt.lines,
          ReceiveState(db.rows, db.batches, receipt.lines, db.moves), PayloadsFor(receipt.lines, submitted));
      }
    case ReceiveLineStep(id, at, quantity, code, location) => FloorKeepsPapers(cat, db, step);
    case AddLineStep(id, product, expected, uom, code, expiry) => DraftHasPapers(cat, db, step);
    case _ =>
  }

  lemma FloorKeepsPapers(cat: Catalog, db: Db, step: Step)
    requires ReceiptsHavePapers(cat, db.receipts) && step.ReceiveLineStep?
    ensures ReceiptsHavePapers(cat, After(cat, db, step).receipts)
  {
    hide FindBatch, IncreaseStock;
  }

  lemma DraftHasPapers(cat: Catalog, db: Db, step: Step)
    requires ReceiptsHavePapers(cat, db.receipts) && step.AddLineStep?
    ensures ReceiptsHavePapers(cat, After(cat, db, step).receipts)
  {
  }

  lemma OtherStepKeepsReceipts(cat: Catalog, db: Db, step: Step)
    requires !IsInbound(step)
    ensures After(cat, db, step).receipts == db.receipts
  {
    hide MarkAll, AdjustAll, NewCountLines, Suggested, AdjustStock, AllocateLines, LinesForOrder, PickAll, PackAll,
        LinkUnits, DispatchLog;
  }

  lemma {:induction false} RunKeepsPapers(cat: Catalog, db: Db, steps: seq<Step>)
    requires ReceiptsHavePapers(cat, db.receipts)
    ensures ReceiptsHavePapers(cat, Run(cat, db, steps).receipts)
    decreases |steps|
  {
    hide After, ReceiptsHavePapers;
    if steps != [] {
      if IsInbound(steps[0]) {
        ReceiptStepKeepsPapers(cat, db, steps[0]);
      } else {
        OtherStepKeepsReceipts(cat, db, steps[0]);
      }
      RunKeepsPapers(cat, After(cat, db, steps[0]), steps[1..]);
    }
  }

  /** After any sequence of calls every receipt line names a batch, and carries a date, where its product needs one. */
  lemma LinesHavePapersOnEveryRun(cat: Catalog, steps: seq<Step>, id: Id, at: Id)
    requires id < |Run(cat, EMPTY_DB, steps).receipts|
    requires at < |Run(cat, EMPTY_DB, steps).receipts[id].lines|
    ensures HasPapers(cat, Run(cat, EMPTY_DB, steps).receipts[id].lines[at])
  {
    RunKeepsPapers(cat, EMPTY_DB, steps);
    assert LinesHavePapers(cat, Run(cat, EMPTY_DB, steps).receipts[id].lines);
  }
}
