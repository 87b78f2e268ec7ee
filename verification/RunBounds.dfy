/** Bounds that not every accepted call respects, and the exact condition under which a run stays within them. */
module RunBounds {
  import opened Wrappers
  import opened Domain
  import opened Stock
  import opened Allocation
  import opened Picking
  import opened Inbound
  import opened ReceiptLifecycle
  import opened Counting
  import opened Release
  import opened Shipping
  import opened Machine

  // ---------- Picked quantities ----------

  ghost predicate TasksWithinBounds(tasks: seq<Task>) {
    forall i | 0 <= i < |tasks| :: WithinBounds(tasks[i].lines)
  }

  /** The call, as it can be checked before it is made, takes back no more than was picked. */
  ghost predicate RespectsPicks(db: Db, step: Step) {
    step.ConfirmTaskStep? && step.task < |db.tasks| ==> TakesBackNoMore(db.tasks[step.task].lines, step.picks)
  }

  lemma ConfirmKeepsBoundsIff(db: Db, id: Id, picks: seq<PickEntry>)
    requires TasksWithinBounds(db.tasks)
    ensures var r := ConfirmTask(db, id, picks);
            r.Ok? ==> (TasksWithinBounds(r.value.tasks) <==> TakesBackNoMore(db.tasks[id].lines, picks))
  {
    hide PickAll, WithinBounds, TakesBackNoMore;
    var r := ConfirmTask(db, id, picks);
    if r.Ok? {
      var task := db.tasks[id];
      assert WithinBounds(task.lines);
      PickedWithinBoundsIff(task.order, task.lines,
          PickState(db.rows, task.lines, db.orders[task.order].lines, db.moves), picks);
      forall i | 0 <= i < |db.tasks| && i != id ensures WithinBounds(r.value.tasks[i].lines) {
        assert r.value.tasks[i] == db.tasks[i];
      }
      if TasksWithinBounds(r.value.tasks) {
        assert WithinBounds(r.value.tasks[id].lines);
      }
    }
  }

  lemma OtherStepsKeepBounds(cat: Catalog, db: Db, step: Step)
    requires TasksWithinBounds(db.tasks) && !step.ConfirmTaskStep?
    ensures TasksWithinBounds(After(cat, db, step).tasks)
  {
    hide ReceiveAll, AllocateLines, MarkAll, AdjustAll, PackAll, LinkUnits, DispatchLog, TopUp, NewCountLines;
  }

  lemma StepKeepsBoundsIff(cat: Catalog, db: Db, step: Step)
    requires TasksWithinBounds(db.tasks)
    ensures TasksWithinBounds(After(cat, db, step).tasks) <==> (Apply(cat, db, step).Ok? ==> RespectsPicks(db, step))
  {
    hide ConfirmTask, TasksWithinBounds, TakesBackNoMore;
    if step.ConfirmTaskStep? {
      ConfirmKeepsBoundsIff(db, step.task, step.picks);
      ConfirmNamesTask(db, step.task, step.picks);
    } else {
      hide Apply;
      OtherStepsKeepBounds(cat, db, step);
    }
  }

  lemma ConfirmNamesTask(db: Db, id: Id, picks: seq<PickEntry>)
    ensures ConfirmTask(db, id, picks).Ok? ==> id < |db.tasks|
  {
  }

  /** Every accepted call of the run respects a rule in the state it meets. */
  ghost predicate AllRespect(cat: Catalog, db: Db, steps: seq<Step>, rule: (Db, Step) -> bool) {
    forall n | 0 <= n < |steps| && Apply(cat, StateAt(cat, db, steps, n), steps[n]).Ok? ::
      rule(StateAt(cat, db, steps, n), steps[n])
  }

  /** Every state the run passes through has a property. */
  ghost predicate Throughout(cat: Catalog, db: Db, steps: seq<Step>, property: Db -> bool) {
    forall n | 0 <= n <= |steps| :: property(StateAt(cat, db, steps, n))
  }

  /** If one call keeps a property exactly when it respects a rule, so does a run. */
  lemma RunKeepsIff(cat: Catalog, steps: seq<Step>, property: Db -> bool, rule: (Db, Step) -> bool)
    requires property(EMPTY_DB)
    requires forall db, step | Inv(cat, db) && property(db) ::
               property(After(cat, db, step)) <==> (Apply(cat, db, step).Ok? ==> rule(db, step))
    ensures Throughout(cat, EMPTY_DB, steps, property) <==> AllRespect(cat, EMPTY_DB, steps, rule)
  {
    hide Inv, After, Apply, Run;
    if Throughout(cat, EMPTY_DB, steps, property) {
      forall n | 0 <= n < |steps| && Apply(cat, StateAt(cat, EMPTY_DB, steps, n), steps[n]).Ok?
        ensures rule(StateAt(cat, EMPTY_DB, steps, n), steps[n])
      {
        StateAfter(cat, EMPTY_DB, steps, n);
        ReachableKeepsInv(cat, steps, n);
        assert property(StateAt(cat, EMPTY_DB, steps, n)) && property(StateAt(cat, EMPTY_DB, steps, n + 1));
      }
    }
    if AllRespect(cat, EMPTY_DB, steps, rule) {
      forall n | 0 <= n <= |steps| ensures property(StateAt(cat, EMPTY_DB, steps, n)) {
        RespectingRunKeeps(cat, steps, property, rule, n);
      }
    }
  }

  lemma ReachableKeepsInv(cat: Catalog, steps: seq<Step>, n: nat)
    requires n <= |steps|
    ensures Inv(cat, StateAt(cat, EMPTY_DB, steps, n))
  {
    hide Inv, Run;
    EmptyDbIsFine(cat);
    RunKeepsInv(cat, EMPTY_DB, steps[..n]);
  }

  lemma {:induction false} RespectingRunKeeps(
    cat: Catalog, steps: seq<Step>, property: Db -> bool, rule: (Db, Step) -> bool, n: nat)
    requires n <= |steps| && property(EMPTY_DB) && AllRespect(cat, EMPTY_DB, steps, rule)
    requires forall db, step | Inv(cat, db) && property(db) ::
               property(After(cat, db, step)) <==> (Apply(cat, db, step).Ok? ==> rule(db, step))
    ensures property(StateAt(cat, EMPTY_DB, steps, n))
  {
    hide Inv, After, Apply;
    if n > 0 {
      RespectingRunKeeps(cat, steps, property, rule, n - 1);
      ReachableKeepsInv(cat, steps, n - 1);
      StateAfter(cat, EMPTY_DB, steps, n - 1);
    }
  }

  ghost function PicksBounded(): Db -> bool {
    (db: Db) => TasksWithinBounds(db.tasks)
  }

  ghost function PickRule(): (Db, Step) -> bool {
    (db: Db, step: Step) => RespectsPicks(db, step)
  }

  /**
   * A run from an empty tenant keeps 0 <= picked <= to pick on every task line in all its states exactly when no
   * accepted confirmation takes back more of a line than was picked.
   */
  lemma PickingStaysWithinBoundsIff(cat: Catalog, steps: seq<Step>)
    ensures Throughout(cat, EMPTY_DB, steps, PicksBounded()) <==> AllRespect(cat, EMPTY_DB, steps, PickRule())
  {
    forall db, step | Inv(cat, db) && PicksBounded()(db)
      ensures PicksBounded()(After(cat, db, step)) <==> (Apply(cat, db, step).Ok? ==> PickRule()(db, step))
    {
      StepKeepsBoundsIff(cat, db, step);
    }
    RunKeepsIff(cat, steps, PicksBounded(), PickRule());
  }

  /** On every run a completed task is fully picked, and nothing is picked beyond the quantity to pick. */
  lemma CompletedTasksArePicked(cat: Catalog, steps: seq<Step>)
    ensures var after := Run(cat, EMPTY_DB, steps);
            && (forall t | 0 <= t < |after.tasks| && after.tasks[t].status == TaskCompleted ::
                  AllPicked(after.tasks[t].lines))
            && (forall t | 0 <= t < |after.tasks| :: NotOverPicked(after.tasks[t].lines))
  {
    hide Run, InboundOk, AllPicked, NotOverPicked;
    EmptyDbIsFine(cat);
    RunKeepsInv(cat, EMPTY_DB, steps);
    var after := Run(cat, EMPTY_DB, steps);
    forall t | 0 <= t < |after.tasks| ensures TaskOk(after.tasks[t]) {
    }
  }

  // ---------- Packed quantities ----------

  function PickedOn(orders: seq<Order>, o: Id, l: Id): real {
    if o < |orders| && l < |orders[o].lines| then orders[o].lines[l].pickedQty else 0.0
  }

  /** No order line has more packed than picked, and nothing is packed for a line that does not exist. */
  ghost predicate PackedWithinPicked(db: Db) {
    forall o: Id, l: Id :: Packed(db.units, o, l) <= PickedOn(db.orders, o, l)
  }

  /** What a confirmation leaves as picked on an order line: what the last entry for one of its task lines says. */
  function LeftPicked(snapshot: seq<TaskLine>, entries: seq<PickEntry>, l: Id): Option<real> {
    if entries == [] then None else
    var later := LeftPicked(snapshot, entries[1..], l);
    if later.Some? then later
    else if entries[0].line < |snapshot| && snapshot[entries[0].line].orderLine == l
    then Some(snapshot[entries[0].line].picked + entries[0].qty)
    else None
  }

  predicate LeavesPacked(units: seq<HandlingUnit>, task: Task, entries: seq<PickEntry>, l: Id) {
    var left := LeftPicked(task.lines, entries, l);
    left.Some? ==> Packed(units, task.order, l) <= left.value
  }

  /** The call, as it can be checked before it is made, leaves no order line with less picked than is packed. */
  ghost predicate RespectsPacked(db: Db, step: Step) {
    step.ConfirmTaskStep? && step.task < |db.tasks| ==>
      forall l: Id :: LeavesPacked(db.units, db.tasks[step.task], step.picks, l)
  }

  lemma {:induction false} PicksOverwriteOrderLines(
      order: Id, snapshot: seq<TaskLine>, st: PickState, entries: seq<PickEntry>, l: Id)
    requires |st.lines| == |snapshot|
    ensures var r := PickAll(order, snapshot, st, entries);
            var left := LeftPicked(snapshot, entries, l);
            r.Ok? ==>
              if l < |st.orderLines|
              then r.value.orderLines[l].pickedQty
                   == if left.Some? then left.value else st.orderLines[l].pickedQty
              else left.None?
    decreases |entries|
  {
    hide Find;
    if entries != [] {
      var next := PickOne(order, snapshot, st, entries[0]);
      if next.Ok? {
        PicksOverwriteOrderLines(order, snapshot, next.value, entries[1..], l);
      }
    }
  }

  lemma ConfirmSetsPicked(db: Db, id: Id, picks: seq<PickEntry>, o: Id, l: Id)
    requires ConfirmTask(db, id, picks).Ok?
    ensures var task := db.tasks[id];
            var left := LeftPicked(task.lines, picks, l);
            PickedOn(ConfirmTask(db, id, picks).value.orders, o, l)
              == if o == task.order && left.Some? then left.value else PickedOn(db.orders, o, l)
    ensures LeftPicked(db.tasks[id].lines, picks, l).Some? ==> l < |db.orders[db.tasks[id].order].lines|
  {
    hide PickAll, LeftPicked;
    var task := db.tasks[id];
    PicksOverwriteOrderLines(
      task.order, task.lines, PickState(db.rows, task.lines, db.orders[task.order].lines, db.moves), picks, l);
  }

  lemma ConfirmKeepsPackedIff(db: Db, id: Id, picks: seq<PickEntry>)
    requires PackedWithinPicked(db)
    ensures var r := ConfirmTask(db, id, picks);
            r.Ok? ==>
              (PackedWithinPicked(r.value) <==> forall l: Id :: LeavesPacked(db.units, db.tasks[id], picks, l))
  {
    var r := ConfirmTask(db, id, picks);
    if r.Ok? {
      ConfirmLeavesUnits(db, id, picks);
      hide Packed, PickedOn, ConfirmTask, LeftPicked;
      var order := db.tasks[id].order;
      if PackedWithinPicked(r.value) {
        forall l: Id ensures LeavesPacked(db.units, db.tasks[id], picks, l) {
          ConfirmSetsPicked(db, id, picks, order, l);
          assert Packed(r.value.units, order, l) <= PickedOn(r.value.orders, order, l);
        }
      }
      if forall l: Id :: LeavesPacked(db.units, db.tasks[id], picks, l) {
        forall o: Id, l: Id ensures Packed(r.value.units, o, l) <= PickedOn(r.value.orders, o, l) {
          ConfirmSetsPicked(db, id, picks, o, l);
          assert LeavesPacked(db.units, db.tasks[id], picks, l);
          assert Packed(db.units, o, l) <= PickedOn(db.orders, o, l);
        }
      }
    }
  }

  lemma ConfirmLeavesUnits(db: Db, id: Id, picks: seq<PickEntry>)
    ensures var r := ConfirmTask(db, id, picks);
            r.Ok? ==> r.value.units == db.units
  {
    hide PickAll;
  }

  lemma {:induction false} AllocatingLeavesPicked(
    cat: Catalog, batches: seq<Batch>, rows: seq<Row>, warehouse: Id, lines: seq<OrderLine>)
    ensures var done := AllocateLines(cat, batches, rows, warehouse, lines).1;
            forall i | 0 <= i < |lines| :: done[i].pickedQty == lines[i].pickedQty
  {
    hide AllocateRows, AllocationOrder;
    if lines != [] {
      AllocatingLeavesPicked(cat, batches, rows, warehouse, lines[..|lines| - 1]);
    }
  }

  lemma PackingKeepsPacked(db: Db, unit: Id, order: Id, items: seq<PackItem>)
    requires PackedWithinPicked(db)
    ensures var r := AddItems(db, unit, order, items);
            r.Ok? ==> PackedWithinPicked(r.value)
  {
    hide PackAll, Packed, Names;
    var r := AddItems(db, unit, order, items);
    if r.Ok? {
      forall o: Id, l: Id ensures Packed(r.value.units, o, l) <= PickedOn(r.value.orders, o, l) {
        assert Packed(db.units, o, l) <= PickedOn(db.orders, o, l);
        PackingStaysWithinPicked(db.units, unit, order, db.orders[order].lines, items, o, l);
      }
    }
  }

  lemma ReleasingLeavesPicked(cat: Catalog, db: Db, id: Id, o: Id, l: Id)
    ensures var r := ReleaseOrder(cat, db, id);
            r.Ok? ==> r.value.units == db.units && PickedOn(r.value.orders, o, l) == PickedOn(db.orders, o, l)
  {
    hide AllocateLines;
    if ReleaseOrder(cat, db, id).Ok? {
      var order := db.orders[id];
      AllocatingLeavesPicked(cat, db.batches, db.rows, order.warehouse, order.lines);
    }
  }

  lemma OpeningUnitKeepsPacked(units: seq<HandlingUnit>, warehouse: Id, o: Id, l: Id)
    ensures Packed(units + [HandlingUnit(warehouse, [])], o, l) == Packed(units, o, l)
  {
    assert (units + [HandlingUnit(warehouse, [])])[..|units|] == units;
  }

  lemma OtherStepLeavesOrders(cat: Catalog, db: Db, step: Step)
    requires !step.ConfirmTaskStep? && !step.AddItemsStep? && !step.ReleaseStep? && !step.CreateUnitStep?
    requires !step.CreateOrderStep? && !step.CreateTaskStep?
    ensures After(cat, db, step).orders == db.orders && After(cat, db, step).units == db.units
  {
    hide ReceiveAll, MarkAll, AdjustAll, LinkUnits, DispatchLog, TopUp, NewCountLines;
  }

  /** Of the other calls only packing and opening a unit touch units, and none touches picked quantities. */
  lemma OtherStepLeavesPicked(cat: Catalog, db: Db, step: Step, o: Id, l: Id)
    requires !step.ConfirmTaskStep? && !step.AddItemsStep?
    ensures PickedOn(After(cat, db, step).orders, o, l) == PickedOn(db.orders, o, l)
    ensures Packed(After(cat, db, step).units, o, l) == Packed(db.units, o, l)
  {
    hide ReleaseOrder, LinesForOrder, Packed;
    match step
    case ReleaseStep(id) => ReleasingLeavesPicked(cat, db, id, o, l);
    case CreateUnitStep(w) => OpeningUnitKeepsPacked(db.units, w, o, l);
    case CreateOrderStep(w, i) =>
    case CreateTaskStep(id, h) =>
    case _ => OtherStepLeavesOrders(cat, db, step);
  }

  lemma StepKeepsPackedIff(cat: Catalog, db: Db, step: Step)
    requires PackedWithinPicked(db)
    ensures PackedWithinPicked(After(cat, db, step)) <==> (Apply(cat, db, step).Ok? ==> RespectsPacked(db, step))
  {
    hide ConfirmTask, AddItems, LeavesPacked, PackedWithinPicked;
    match step
    case ConfirmTaskStep(id, picks) =>
      ConfirmKeepsPackedIff(db, id, picks);
      ConfirmNamesTask(db, id, picks);
    case AddItemsStep(unit, order, items) => PackingKeepsPacked(db, unit, order, items);
    case _ => OtherStepKeepsPacked(cat, db, step);
  }

  lemma OtherStepKeepsPacked(cat: Catalog, db: Db, step: Step)
    requires PackedWithinPicked(db) && !step.ConfirmTaskStep? && !step.AddItemsStep?
    ensures PackedWithinPicked(After(cat, db, step))
  {
    hide After, Packed, PickedOn;
    var after := After(cat, db, step);
    forall o: Id, l: Id ensures Packed(after.units, o, l) <= PickedOn(after.orders, o, l) {
      OtherStepLeavesPicked(cat, db, step, o, l);
      assert Packed(db.units, o, l) <= PickedOn(db.orders, o, l);
    }
  }

  ghost function PackedBounded(): Db -> bool {
    (db: Db) => PackedWithinPicked(db)
  }

  ghost function PackedRule(): (Db, Step) -> bool {
    (db: Db, step: Step) => RespectsPacked(db, step)
  }

  /**
   * A run from an empty tenant never has more packed than picked on an order line, in any of its states, exactly when
   * no accepted confirmation leaves an order line with less picked than is packed for it already.
   */
  lemma PackingStaysWithinPickedIff(cat: Catalog, steps: seq<Step>)
    ensures Throughout(cat, EMPTY_DB, steps, PackedBounded()) <==> AllRespect(cat, EMPTY_DB, steps, PackedRule())
  {
    forall db, step | Inv(cat, db) && PackedBounded()(db)
      ensures PackedBounded()(After(cat, db, step)) <==> (Apply(cat, db, step).Ok? ==> PackedRule()(db, step))
    {
      StepKeepsPackedIff(cat, db, step);
    }
    RunKeepsIff(cat, steps, PackedBounded(), PackedRule());
  }
}
