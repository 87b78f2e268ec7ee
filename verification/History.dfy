/** What never changes again: finished documents and the movement log. */
module History {
  import opened Wrappers
  import opened Domain
  import opened Release
  import opened Picking
  import opened Inbound
  import opened Counting
  import opened Shipping
  import opened Machine

  /** A completed count keeps its lines; a review can only move it on to cancelled, and that is final. */
  ghost predicate CountFrozen(before: CountTask, after: CountTask) {
    && after.lines == before.lines && after.warehouse == before.warehouse
    && (after.status == before.status || after.status == CountCancelled)
  }

  ghost predicate Finished(count: CountTask) {
    count.status == CountCompleted || count.status == CountCancelled
  }

  ghost predicate DocumentsFrozen(before: Db, after: Db) {
    && |before.tasks| <= |after.tasks| && |before.receipts| <= |after.receipts| && |before.counts| <= |after.counts|
    && (forall i | 0 <= i < |before.tasks| && before.tasks[i].status == TaskCompleted ::
        after.tasks[i] == before.tasks[i])
    && (forall i | 0 <= i < |before.receipts| && before.receipts[i].status == Received ::
          after.receipts[i] == before.receipts[i])
    && (forall i | 0 <= i < |before.counts| && Finished(before.counts[i]) ::
        CountFrozen(before.counts[i], after.counts[i]))
  }

  /** Finished documents are frozen, and the movement log only grows. */
  ghost predicate Preserves(before: Db, after: Db) {
    before.moves <= after.moves && DocumentsFrozen(before, after)
  }

  /** The log grows, by lines of one reference only. */
  ghost predicate LogsUnder(before: seq<Movement>, after: seq<Movement>, reference: Reference) {
    before <= after && forall i | |before| <= i < |after| :: after[i].reference == reference
  }

  lemma {:induction false} PicksExtendLog(order: Id, snapshot: seq<TaskLine>, st: PickState, entries: seq<PickEntry>)
    requires |st.lines| == |snapshot|
    ensures var r := PickAll(order, snapshot, st, entries);
            r.Ok? ==> LogsUnder(st.moves, r.value.moves, OrderRef(order))
    decreases |entries|
  {
    if entries != [] {
      var next := PickOne(order, snapshot, st, entries[0]);
      if next.Ok? {
        PicksExtendLog(order, snapshot, next.value, entries[1..]);
      }
    }
  }

  lemma {:induction false} ReceivingExtendsLog(
    cat: Catalog, id: Id, warehouse: Id, location: Id, snapshot: seq<ReceiptLine>, st: ReceiveState,
    payloads: seq<Payload>)
    requires |st.lines| == |snapshot|
    ensures var r := ReceiveAll(cat, id, warehouse, location, snapshot, st, payloads);
            r.Ok? ==> LogsUnder(st.moves, r.value.moves, ReceiptRef(id))
    decreases |payloads|
  {
    if payloads != [] {
      var next := ReceiveOne(cat, id, warehouse, location, snapshot, st, payloads[0]);
      if next.Ok? {
        assert LogsUnder(st.moves, next.value.moves, ReceiptRef(id));
        ReceivingExtendsLog(cat, id, warehouse, location, snapshot, next.value, payloads[1..]);
      }
    }
  }

  lemma {:induction false} CountingExtendsLog(
    cat: Catalog, batches: seq<Batch>, rows: seq<Row>, moves: seq<Movement>, warehouse: Id, reference: Reference,
    lines: seq<CountLine>, entries: seq<CountEntry>)
    ensures var r := AdjustAll(cat, batches, rows, moves, warehouse, reference, lines, entries);
            r.Ok? ==> LogsUnder(moves, r.value.1, reference)
    decreases |entries|
  {
    if entries != [] {
      if !Differs(lines, entries[0]) {
        CountingExtendsLog(cat, batches, rows, moves, warehouse, reference, lines, entries[1..]);
      } else {
        var one := AdjustStock(cat, batches, rows, moves, warehouse, lines[entries[0].line].key, entries[0].counted,
            reference);
        if one.Ok? {
          CountingExtendsLog(cat, batches, one.value.0, one.value.1, warehouse, reference, lines, entries[1..]);
        }
      }
    }
  }

  lemma ConfirmReceiptPreserves(cat: Catalog, db: Db, id: Id, location: Id, submitted: Option<seq<Payload>>)
    ensures var r := ConfirmReceipt(cat, db, id, location, submitted);
            r.Ok? ==> Preserves(db, r.value)
  {
    if ConfirmReceipt(cat, db, id, location, submitted).Ok? {
      var receipt := db.receipts[id];
      ReceivingExtendsLog(cat, id, receipt.warehouse, location, receipt.lines,
        ReceiveState(db.rows, db.batches, receipt.lines, db.moves), PayloadsFor(receipt.lines, submitted));
    }
  }

  lemma ReceiveLinePreserves(
      cat: Catalog, db: Db, id: Id, at: Id, quantity: real, code: Option<string>, location: Option<Id>)
    ensures var r := ReceiveLine(cat, db, id, at, quantity, code, location);
            r.Ok? ==> Preserves(db, r.value)
  {
  }

  lemma SubmitCountPreserves(cat: Catalog, db: Db, id: Id, entries: seq<CountEntry>)
    ensures var r := SubmitCount(cat, db, id, entries);
            r.Ok? ==> Preserves(db, r.value)
  {
    if SubmitCount(cat, db, id, entries).Ok? {
      var task := db.counts[id];
      CountingExtendsLog(cat, db.batches, db.rows, db.moves, task.warehouse, CountRef(id),
        MarkAll(task.lines, entries, {}).value, entries);
    }
  }

  lemma ConfirmTaskPreserves(db: Db, id: Id, entries: seq<PickEntry>)
    ensures var r := ConfirmTask(db, id, entries);
            r.Ok? ==> Preserves(db, r.value)
  {
    if ConfirmTask(db, id, entries).Ok? {
      var task := db.tasks[id];
      PicksExtendLog(task.order, task.lines, PickState(db.rows, task.lines, db.orders[task.order].lines, db.moves),
          entries);
    }
  }

  predicate IsOutbound(step: Step) {
    || step.CreateOrderStep? || step.ReleaseStep? || step.CreateTaskStep? || step.StartTaskStep?
        || step.ConfirmTaskStep?
  }

  lemma InboundStepPreserves(cat: Catalog, db: Db, step: Step)
    requires IsInbound(step)
    ensures Preserves(db, After(cat, db, step))
  {
    hide ConfirmReceipt, ReceiveLine;
    match step
    case ConfirmReceiptStep(r, l, s) => ConfirmReceiptPreserves(cat, db, r, l, s);
    case ReceiveLineStep(r, a, q, c, l) => ReceiveLinePreserves(cat, db, r, a, q, c, l);
    case _ =>
  }

  lemma CountStepPreserves(cat: Catalog, db: Db, step: Step)
    requires IsCounting(step)
    ensures Preserves(db, After(cat, db, step))
  {
    hide SubmitCount, NewCountLines, Suggested, AdjustMovement, StatusToCount;
    match step
    case SubmitCountStep(c, e) => SubmitCountPreserves(cat, db, c, e);
    case _ =>
  }

  lemma OutboundStepPreserves(cat: Catalog, db: Db, step: Step)
    requires IsOutbound(step)
    ensures Preserves(db, After(cat, db, step))
  {
    hide ConfirmTask, AllocateLines, LinesForOrder;
    match step
    case ConfirmTaskStep(t, e) => ConfirmTaskPreserves(db, t, e);
    case _ =>
  }

  lemma StepPreserves(cat: Catalog, db: Db, step: Step)
    ensures Preserves(db, After(cat, db, step))
  {
    hide Apply, Preserves;
    if IsInbound(step) {
      InboundStepPreserves(cat, db, step);
    } else if IsCounting(step) {
      CountStepPreserves(cat, db, step);
    } else if IsOutbound(step) {
      OutboundStepPreserves(cat, db, step);
    } else {
      ShippingStepPreserves(cat, db, step);
    }
  }

  lemma ShippingStepPreserves(cat: Catalog, db: Db, step: Step)
    requires !IsInbound(step) && !IsCounting(step) && !IsOutbound(step)
    ensures Preserves(db, After(cat, db, step))
  {
    hide PackAll, LinkUnits, DispatchLog;
  }

  lemma PreservesInTurn(a: Db, b: Db, c: Db)
    requires Preserves(a, b) && Preserves(b, c)
    ensures Preserves(a, c)
  {
  }

  /**
   * Completed tasks and received receipts never change again, a completed count keeps its lines and can only be
   * cancelled by a review, and no movement line is ever rewritten.
   */
  lemma {:induction false} HistoryIsNeverRewritten(cat: Catalog, db: Db, steps: seq<Step>)
    ensures Preserves(db, Run(cat, db, steps))
    decreases |steps|
  {
    if steps != [] {
      hide After, Preserves;
      StepPreserves(cat, db, steps[0]);
      HistoryIsNeverRewritten(cat, After(cat, db, steps[0]), steps[1..]);
      PreservesInTurn(db, After(cat, db, steps[0]), Run(cat, db, steps));
    }
  }
}
