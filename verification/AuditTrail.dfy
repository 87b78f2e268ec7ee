/** Every movement line says which call wrote it, and stock moves between the ends that call may name. */
module AuditTrail {
  import opened Wrappers
  import opened Domain
  import opened Inbound
  import opened Picking
  import opened Counting
  import opened Shipping
  import opened Machine
  import opened Release

  /** The line is one this call may write in this state. */
  predicate WrittenBy(db: Db, step: Step, m: Movement) {
    match step
    case ConfirmReceiptStep(id, location, _) =>
      m.kind == InboundReceipt && m.reference == ReceiptRef(id) && m.source == None && m.target == Some(location)
      && 0.0 < m.qty
    case ReceiveLineStep(id, _, _, _, location) =>
      m.kind == InboundReceipt && m.reference == ReceiptRef(id) && m.source == None && m.target == location
      && 0.0 < m.qty
    case AdjustStep(_, product, batch, location, _, _) =>
      m.kind == Adjustment && m.reference == NoRef && m.product == product && m.batch == batch
      && OneEnd(m) && (m.source == Some(location) || m.target == Some(location)) && 0.0 < m.qty
    case SubmitCountStep(id, _) =>
      m.kind == Adjustment && m.reference == CountRef(id) && OneEnd(m) && 0.0 < m.qty
    case ConfirmTaskStep(id, _) =>
      id < |db.tasks| && m.kind == OutboundShipment && m.reference == OrderRef(db.tasks[id].order)
      && m.source.Some? && m.target == None
    case DispatchStep(id) =>
      m.kind == OutboundShipment && m.reference == ShipmentRef(id) && m.source == None && m.target == None
    case _ => false
  }

  predicate OneEnd(m: Movement) {
    m.source.None? != m.target.None?
  }

  /** The log grows by lines of this call only. */
  ghost predicate Attributed(db: Db, step: Step, after: seq<Movement>) {
    db.moves <= after && forall i | |db.moves| <= i < |after| :: WrittenBy(db, step, after[i])
  }

  ghost predicate Appends(before: seq<Movement>, after: seq<Movement>, db: Db, step: Step) {
    before <= after && forall i | |before| <= i < |after| :: WrittenBy(db, step, after[i])
  }

  lemma AppendsInTurn(a: seq<Movement>, b: seq<Movement>, c: seq<Movement>, db: Db, step: Step)
    requires Appends(a, b, db, step) && Appends(b, c, db, step)
    ensures Appends(a, c, db, step)
  {
    hide WrittenBy;
  }

  lemma {:induction false} ReceivingIsAttributed(
    cat: Catalog, warehouse: Id, snapshot: seq<ReceiptLine>, st: ReceiveState, payloads: seq<Payload>, db: Db,
    step: Step)
    requires |st.lines| == |snapshot| && step.ConfirmReceiptStep?
    ensures var r := ReceiveAll(cat, step.receipt, warehouse, step.location, snapshot, st, payloads);
            r.Ok? ==> Appends(st.moves, r.value.moves, db, step)
    decreases |payloads|
  {
    hide Appends;
    if payloads == [] {
      AppendsNothing(st.moves, db, step);
    } else {
      var next := ReceiveOne(cat, step.receipt, warehouse, step.location, snapshot, st, payloads[0]);
      if next.Ok? {
        OneReceiptIsAttributed(cat, warehouse, snapshot, st, payloads[0], db, step);
        ReceivingIsAttributed(cat, warehouse, snapshot, next.value, payloads[1..], db, step);
        var r := ReceiveAll(cat, step.receipt, warehouse, step.location, snapshot, next.value, payloads[1..]);
        if r.Ok? {
          AppendsInTurn(st.moves, next.value.moves, r.value.moves, db, step);
        }
      }
    }
  }

  lemma AppendsNothing(moves: seq<Movement>, db: Db, step: Step)
    ensures Appends(moves, moves, db, step)
  {
  }

  lemma OneReceiptIsAttributed(
    cat: Catalog, warehouse: Id, snapshot: seq<ReceiptLine>, st: ReceiveState, payload: Payload, db: Db, step: Step)
    requires |st.lines| == |snapshot| && step.ConfirmReceiptStep?
    ensures var r := ReceiveOne(cat, step.receipt, warehouse, step.location, snapshot, st, payload);
            r.Ok? ==> Appends(st.moves, r.value.moves, db, step)
  {
    hide FindBatch, WithinTolerance;
  }

  lemma {:induction false} CountingIsAttributed(
    cat: Catalog, batches: seq<Batch>, rows: seq<Row>, moves: seq<Movement>, warehouse: Id, lines: seq<CountLine>,
    entries: seq<CountEntry>, db: Db, step: Step)
    requires step.SubmitCountStep?
    ensures var r := AdjustAll(cat, batches, rows, moves, warehouse, CountRef(step.count), lines, entries);
            r.Ok? ==> Appends(moves, r.value.1, db, step)
    decreases |entries|
  {
    hide Appends, StatusToCount;
    if entries == [] {
      AppendsNothing(moves, db, step);
    } else if !Differs(lines, entries[0]) {
      CountingIsAttributed(cat, batches, rows, moves, warehouse, lines, entries[1..], db, step);
    } else {
      var reference := CountRef(step.count);
      var key := lines[entries[0].line].key;
      var one := AdjustStock(cat, batches, rows, moves, warehouse, key, entries[0].counted, reference);
      if one.Ok? {
        OneCountIsAttributed(
          rows, moves, key, StatusToCount(cat.groupOrder, rows, key), entries[0].counted, db, step);
        CountingIsAttributed(cat, batches, one.value.0, one.value.1, warehouse, lines, entries[1..], db, step);
        var r := AdjustAll(cat, batches, one.value.0, one.value.1, warehouse, reference, lines, entries[1..]);
        if r.Ok? {
          AppendsInTurn(moves, one.value.1, r.value.1, db, step);
        }
      }
    }
  }

  lemma OneCountIsAttributed(
      rows: seq<Row>, moves: seq<Movement>, k: Key, s: StockStatus, newQty: real, db: Db, step: Step)
    requires step.SubmitCountStep?
    ensures Appends(moves, SetRow(rows, moves, k, s, newQty, CountRef(step.count)).1, db, step)
  {
  }

  lemma {:induction false} PickingIsAttributed(
      snapshot: seq<TaskLine>, st: PickState, entries: seq<PickEntry>, db: Db, step: Step)
    requires |st.lines| == |snapshot| && step.ConfirmTaskStep? && step.task < |db.tasks|
    ensures var r := PickAll(db.tasks[step.task].order, snapshot, st, entries);
            r.Ok? ==> Appends(st.moves, r.value.moves, db, step)
    decreases |entries|
  {
    hide Appends;
    if entries == [] {
      AppendsNothing(st.moves, db, step);
    } else {
      var order := db.tasks[step.task].order;
      var next := PickOne(order, snapshot, st, entries[0]);
      if next.Ok? {
        OnePickIsAttributed(snapshot, st, entries[0], db, step);
        PickingIsAttributed(snapshot, next.value, entries[1..], db, step);
        var r := PickAll(order, snapshot, next.value, entries[1..]);
        if r.Ok? {
          AppendsInTurn(st.moves, next.value.moves, r.value.moves, db, step);
        }
      }
    }
  }

  lemma OnePickIsAttributed(snapshot: seq<TaskLine>, st: PickState, entry: PickEntry, db: Db, step: Step)
    requires |st.lines| == |snapshot| && step.ConfirmTaskStep? && step.task < |db.tasks|
    ensures var r := PickOne(db.tasks[step.task].order, snapshot, st, entry);
            r.Ok? ==> Appends(st.moves, r.value.moves, db, step)
  {
  }

  lemma {:induction false} UnitLogIsAttributed(lines: seq<PackedLine>, db: Db, step: Step)
    requires step.DispatchStep?
    ensures forall i | 0 <= i < |LogOfUnit(step.shipment, lines)| ::
              WrittenBy(db, step, LogOfUnit(step.shipment, lines)[i])
  {
    if lines != [] {
      UnitLogIsAttributed(lines[..|lines| - 1], db, step);
    }
  }

  lemma {:induction false} DispatchIsAttributed(links: seq<(Id, Id)>, units: seq<HandlingUnit>, db: Db, step: Step)
    requires step.DispatchStep?
    ensures forall i | 0 <= i < |DispatchLog(step.shipment, links, units)| ::
              WrittenBy(db, step, DispatchLog(step.shipment, links, units)[i])
  {
    hide WrittenBy, Linked;
    if units != [] {
      var n := |units| - 1;
      DispatchIsAttributed(links, units[..n], db, step);
      UnitLogIsAttributed(units[n].lines, db, step);
    }
  }

  lemma ConfirmReceiptIsAttributed(cat: Catalog, db: Db, step: Step)
    requires step.ConfirmReceiptStep?
    ensures Attributed(db, step, After(cat, db, step).moves)
  {
    hide ReceiveAll, WrittenBy;
    if Apply(cat, db, step).Ok? {
      var receipt := db.receipts[step.receipt];
      ReceivingIsAttributed(cat, receipt.warehouse, receipt.lines,
        ReceiveState(db.rows, db.batches, receipt.lines, db.moves), PayloadsFor(receipt.lines, step.submitted), db,
        step);
    }
  }

  lemma SubmitCountIsAttributed(cat: Catalog, db: Db, step: Step)
    requires step.SubmitCountStep?
    ensures Attributed(db, step, After(cat, db, step).moves)
  {
    hide AdjustAll, MarkAll, WrittenBy;
    if Apply(cat, db, step).Ok? {
      var task := db.counts[step.count];
      CountingIsAttributed(cat, db.batches, db.rows, db.moves, task.warehouse,
        MarkAll(task.lines, step.counted, {}).value, step.counted, db, step);
    }
  }

  lemma ConfirmTaskIsAttributed(cat: Catalog, db: Db, step: Step)
    requires step.ConfirmTaskStep?
    ensures Attributed(db, step, After(cat, db, step).moves)
  {
    hide PickAll, WrittenBy;
    if Apply(cat, db, step).Ok? {
      var task := db.tasks[step.task];
      PickingIsAttributed(
        task.lines, PickState(db.rows, task.lines, db.orders[task.order].lines, db.moves), step.picks, db, step);
    }
  }

  lemma DispatchStepIsAttributed(cat: Catalog, db: Db, step: Step)
    requires step.DispatchStep?
    ensures Attributed(db, step, After(cat, db, step).moves)
  {
    hide DispatchLog, WrittenBy;
    if Apply(cat, db, step).Ok? {
      DispatchIsAttributed(db.shipments[step.shipment].links, db.units, db, step);
    }
  }

  lemma AdjustIsAttributed(cat: Catalog, db: Db, step: Step)
    requires step.AdjustStep?
    ensures Attributed(db, step, After(cat, db, step).moves)
  {
    hide StatusToCount;
  }

  lemma ReceiveLineIsAttributed(cat: Catalog, db: Db, step: Step)
    requires step.ReceiveLineStep?
    ensures Attributed(db, step, After(cat, db, step).moves)
  {
    hide FindBatch;
  }

  predicate WritesNothing(step: Step) {
    !(step.ConfirmReceiptStep? || step.ReceiveLineStep? || step.AdjustStep? || step.SubmitCountStep?
      || step.ConfirmTaskStep? || step.DispatchStep?)
  }

  lemma OtherStepsWriteNothing(cat: Catalog, db: Db, step: Step)
    requires WritesNothing(step)
    ensures After(cat, db, step).moves == db.moves
  {
    hide AllocateLines, LinesForOrder, NewCountLines, Suggested, PackAll, LinkUnits;
  }

  /** Each call only appends to the log, and only lines that name it. */
  lemma StepIsAttributed(cat: Catalog, db: Db, step: Step)
    ensures Attributed(db, step, After(cat, db, step).moves)
  {
    hide After, Attributed;
    match step
    case ConfirmReceiptStep(_, _, _) => ConfirmReceiptIsAttributed(cat, db, step);
    case ReceiveLineStep(_, _, _, _, _) => ReceiveLineIsAttributed(cat, db, step);
    case AdjustStep(_, _, _, _, _, _) => AdjustIsAttributed(cat, db, step);
    case SubmitCountStep(_, _) => SubmitCountIsAttributed(cat, db, step);
    case ConfirmTaskStep(_, _) => ConfirmTaskIsAttributed(cat, db, step);
    case DispatchStep(_) => DispatchStepIsAttributed(cat, db, step);
    case _ =>
      OtherStepsWriteNothing(cat, db, step);
      NothingIsAttributed(db, step);
  }

  lemma NothingIsAttributed(db: Db, step: Step)
    ensures Attributed(db, step, db.moves)
  {
  }

  /** On any run every movement line was written by one of its calls, in the state that call met. */
  lemma {:induction false} EveryLineHasItsCall(cat: Catalog, steps: seq<Step>, i: nat)
    requires i < |Run(cat, EMPTY_DB, steps).moves|
    ensures exists n | 0 <= n < |steps| ::
              WrittenBy(StateAt(cat, EMPTY_DB, steps, n), steps[n], Run(cat, EMPTY_DB, steps).moves[i])
    decreases |steps|
  {
    hide After, WrittenBy, Run;
    if steps == [] {
      NothingHasRun(cat);
    } else {
      var n := |steps| - 1;
      var init := steps[..n];
      assert steps == init + [steps[n]];
      var before := Run(cat, EMPTY_DB, init);
      RunOneMore(cat, EMPTY_DB, init, steps[n]);
      StepIsAttributed(cat, before, steps[n]);
      if i < |before.moves| {
        EveryLineHasItsCall(cat, init, i);
        var m :| 0 <= m < n && WrittenBy(StateAt(cat, EMPTY_DB, init, m), init[m], before.moves[i]);
        assert init[..m] == steps[..m] && init[m] == steps[m];
        assert WrittenBy(StateAt(cat, EMPTY_DB, steps, m), steps[m], Run(cat, EMPTY_DB, steps).moves[i]);
      } else {
        assert StateAt(cat, EMPTY_DB, steps, n) == before;
        assert WrittenBy(StateAt(cat, EMPTY_DB, steps, n), steps[n], Run(cat, EMPTY_DB, steps).moves[i]);
      }
    }
  }

  lemma NothingHasRun(cat: Catalog)
    ensures Run(cat, EMPTY_DB, []).moves == []
  {
  }
}
