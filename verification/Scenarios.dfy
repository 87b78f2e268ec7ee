/** Concrete runs from an empty tenant that show where a property one might expect does not hold. */
module Scenarios {
  import opened Wrappers
  import opened Domain
  import opened Stock
  import opened Allocation
  import opened Release
  import opened Picking
  import opened Inbound
  import opened Counting
  import opened Shipping
  import opened Machine
  import opened Tolerances
  import opened Dispatches

  /** One product counted in EA, one location in one warehouse, and an over-receipt percentage of -10. */
  const CATALOG := Catalog(
    map[1 := Product(false, false, "EA")], map[1 := 1], {1}, map[(1, 1) := Policy(Some(-10.0), None)], map[], true, {},
    [Available, Reserved, Picking, InTransitInternal, Quarantine, Scrap, Blocked])

  const KEY := Key(1, None, 1, "EA")

  /** If a run reaches a state and a call leads on from it, the longer run reaches the next one. */
  lemma LeadsOn(steps: seq<Step>, db: Db, step: Step, next: Db)
    requires Run(CATALOG, EMPTY_DB, steps) == db && After(CATALOG, db, step) == next
    ensures Run(CATALOG, EMPTY_DB, steps + [step]) == next
  {
    hide Run, After;
    RunOneMore(CATALOG, EMPTY_DB, steps, step);
  }

  // ---------- Five units in stock, an order for q of them, released and picked from ----------

  const STOCKED := EMPTY_DB.(rows := [Row(KEY, Available, 5.0)], moves := [AdjustMovement(NoRef, KEY, 5.0)])

  function Ordered(q: real, uom: string): Db {
    STOCKED.(orders := [Order(1, OrderDraft, [OrderLine(1, q, 0.0, 0.0, uom)])])
  }

  function Allotted(q: real, uom: string): Db {
    STOCKED.(
      rows := [Row(KEY, Available, 5.0 - q), Row(KEY, Reserved, q)],
      orders := [Order(1, FullyAllocated, [OrderLine(1, q, q, 0.0, uom)])])
  }

  function Tasked(q: real, uom: string, status: TaskStatus): Db {
    Allotted(q, uom).(
      orders := [Order(1, InPicking, [OrderLine(1, q, q, 0.0, uom)])],
      tasks := [Task(0, 1, status, [TaskLine(0, KEY, q, 0.0)])])
  }

  function ReleaseSteps(q: real, uom: string): seq<Step> {
    [AdjustStep(1, 1, None, 1, None, 5.0)] + [CreateOrderStep(1, [OrderInput(1, q, uom)])] + [ReleaseStep(0)]
  }

  function TaskSteps(q: real, uom: string): seq<Step> {
    ReleaseSteps(q, uom) + [CreateTaskStep(0, false)] + [StartTaskStep(0)]
  }

  lemma StockingStocks()
    ensures After(CATALOG, EMPTY_DB, AdjustStep(1, 1, None, 1, None, 5.0)) == STOCKED
  {
    assert Find([], KEY, Available) == None;
    NothingIsCountedOnAvailable();
  }

  lemma NothingIsCountedOnAvailable()
    ensures StatusToCount(CATALOG.groupOrder, [], KEY) == Available
  {
    NoGroups(CATALOG.groupOrder);
  }

  lemma {:induction false} NoGroups(order: seq<StockStatus>)
    ensures Groups(order, [], KEY) == []
  {
    if order != [] {
      NoGroups(order[..|order| - 1]);
    }
  }

  lemma OrderingOrders(q: real, uom: string)
    ensures After(CATALOG, STOCKED, CreateOrderStep(1, [OrderInput(1, q, uom)])) == Ordered(q, uom)
  {
    assert [OrderInput(1, q, uom)][..0] == [];
    assert NewOrderLines([OrderInput(1, q, uom)]) == [OrderLine(1, q, 0.0, 0.0, uom)];
  }

  lemma LineIsReserved(q: real, uom: string)
    requires 0.0 < q <= 5.0
    ensures var line := OrderLine(1, q, 0.0, 0.0, uom);
            AllocateLine(CATALOG, [], STOCKED.rows, 1, line) == (Allotted(q, uom).rows, line.(allocatedQty := q))
  {
    var rows := STOCKED.rows;
    assert rows[..0] == [];
    assert Candidates(rows, Supply(CATALOG, 1, 1)) == [0];
    assert AllocationOrder(rows, [], Supply(CATALOG, 1, 1), false) == [0];
    var lowered := [Row(KEY, Available, 5.0 - q)];
    assert rows[0 := rows[0].(qty := 5.0 - q)] == lowered;
    assert lowered[..0] == [] && Find(lowered, KEY, Reserved) == None;
    assert lowered + [Row(KEY, Reserved, q)] == Allotted(q, uom).rows;
    assert TakeFrom(Progress(rows, q, 0.0), rows, 0) == Progress(Allotted(q, uom).rows, 0.0, q);
    assert [0][1..] == [];
    assert AllocateRows(Progress(rows, q, 0.0), rows, [0]) == Progress(Allotted(q, uom).rows, 0.0, q);
  }

  lemma ReleaseReserves(q: real, uom: string)
    requires 0.0 < q <= 5.0
    ensures After(CATALOG, Ordered(q, uom), ReleaseStep(0)) == Allotted(q, uom)
  {
    hide AllocateLine;
    LineIsReserved(q, uom);
    var line := OrderLine(1, q, 0.0, 0.0, uom);
    assert [line][..0] == [];
    assert AllocateLines(CATALOG, [], STOCKED.rows, 1, []) == (STOCKED.rows, []);
    assert [line][|[line]| - 1] == line && [] + [line.(allocatedQty := q)] == [line.(allocatedQty := q)];
    assert AllocateLines(CATALOG, [], STOCKED.rows, 1, [line])
        == (Allotted(q, uom).rows, [line.(allocatedQty := q)]);
  }

  lemma TaskTakesReservation(q: real, uom: string)
    requires 0.0 < q <= 5.0
    ensures After(CATALOG, Allotted(q, uom), CreateTaskStep(0, false)) == Tasked(q, uom, TaskCreated)
  {
    var rows, lines := Allotted(q, uom).rows, [OrderLine(1, q, q, 0.0, uom)];
    ReservationIsListed(q, uom);
    assert lines[..0] == [];
    hide LinesForReservations;
    assert LinesForOrder(CATALOG, rows, 1, []) == [];
    assert [] + [TaskLine(0, KEY, q, 0.0)] == [TaskLine(0, KEY, q, 0.0)];
    assert LinesForOrder(CATALOG, rows, 1, lines) == [TaskLine(0, KEY, q, 0.0)];
  }

  lemma ReservationIsListed(q: real, uom: string)
    requires 0.0 < q <= 5.0
    ensures LinesForReservations(CATALOG, Allotted(q, uom).rows, 1, 1, 0) == [TaskLine(0, KEY, q, 0.0)]
  {
    var rows := Allotted(q, uom).rows;
    assert rows[..1] == [rows[0]] && [rows[0]][..0] == [];
    assert LinesForReservations(CATALOG, [rows[0]], 1, 1, 0) == [];
  }

  lemma TaskStarts(q: real, uom: string)
    ensures After(CATALOG, Tasked(q, uom, TaskCreated), StartTaskStep(0)) == Tasked(q, uom, TaskInProgress)
  {
  }

  lemma ReleaseRuns(q: real, uom: string)
    requires 0.0 < q <= 5.0
    ensures Run(CATALOG, EMPTY_DB, ReleaseSteps(q, uom)) == Allotted(q, uom)
  {
    hide After, Run;
    StartsEmpty();
    StockingStocks();
    OrderingOrders(q, uom);
    ReleaseReserves(q, uom);
    var first, second := [AdjustStep(1, 1, None, 1, None, 5.0)], CreateOrderStep(1, [OrderInput(1, q, uom)]);
    LeadsOn([], EMPTY_DB, first[0], STOCKED);
    assert [] + first == first;
    LeadsOn(first, STOCKED, second, Ordered(q, uom));
    LeadsOn(first + [second], Ordered(q, uom), ReleaseStep(0), Allotted(q, uom));
  }

  lemma StartsEmpty()
    ensures Run(CATALOG, EMPTY_DB, []) == EMPTY_DB
  {
  }

  lemma TaskRuns(q: real, uom: string)
    requires 0.0 < q <= 5.0
    ensures Run(CATALOG, EMPTY_DB, TaskSteps(q, uom)) == Tasked(q, uom, TaskInProgress)
  {
    hide After, Run;
    ReleaseRuns(q, uom);
    TaskTakesReservation(q, uom);
    TaskStarts(q, uom);
    LeadsOn(ReleaseSteps(q, uom), Allotted(q, uom), CreateTaskStep(0, false), Tasked(q, uom, TaskCreated));
    LeadsOn(ReleaseSteps(q, uom) + [CreateTaskStep(0, false)], Tasked(q, uom, TaskCreated), StartTaskStep(0),
            Tasked(q, uom, TaskInProgress));
  }

  // ---------- Picking ----------

  /** The open task for five units after some picks: what was taken last, what is left, and the log of it. */
  function Taken(picked: real, left: real, status: OrderStatus, log: seq<Movement>): Db {
    Tasked(5.0, "EA", TaskInProgress).(
      rows := [Row(KEY, Available, 0.0), Row(KEY, Reserved, left)],
      orders := [Order(1, status, [OrderLine(1, 5.0, 5.0, picked, "EA")])],
      tasks := [Task(0, 1, TaskInProgress, [TaskLine(0, KEY, 5.0, picked)])],
      moves := STOCKED.moves + log)
  }

  lemma NothingTakenYet()
    ensures Tasked(5.0, "EA", TaskInProgress) == Taken(0.0, 5.0, InPicking, [])
  {
    assert STOCKED.moves + [] == STOCKED.moves;
  }

  function TaskLines(picked: real): seq<TaskLine> {
    [TaskLine(0, KEY, 5.0, picked)]
  }

  function PickStateOf(picked: real, left: real, log: seq<Movement>): PickState {
    PickState([Row(KEY, Available, 0.0), Row(KEY, Reserved, left)], TaskLines(picked),
              [OrderLine(1, 5.0, 5.0, picked, "EA")], STOCKED.moves + log)
  }

  /** One entry for the task line, read with prior picked: it replaces the picked quantity and comes off the row. */
  lemma PickTakes(prior: real, picked: real, left: real, log: seq<Movement>, qty: real)
    requires qty <= left && qty <= 5.0 - prior
    ensures PickOne(0, TaskLines(prior), PickStateOf(picked, left, log), PickEntry(0, qty))
         == Ok(PickStateOf(prior + qty, left - qty, log + [PickMovement(0, KEY, qty)]))
  {
    var rows, now := PickStateOf(picked, left, log).rows, prior + qty;
    assert rows[..1] == [rows[0]] && [rows[0]][..0] == [];
    assert Find([rows[0]], KEY, Reserved) == None;
    assert Find(rows, KEY, Reserved) == Some(1);
    assert rows[1 := Row(KEY, Reserved, left - qty)] == PickStateOf(now, left - qty, log).rows;
    assert TaskLines(picked)[0 := TaskLine(0, KEY, 5.0, now)] == TaskLines(now);
    assert [OrderLine(1, 5.0, 5.0, picked, "EA")][0 := OrderLine(1, 5.0, 5.0, now, "EA")]
        == [OrderLine(1, 5.0, 5.0, now, "EA")];
    assert (STOCKED.moves + log) + [PickMovement(0, KEY, qty)] == STOCKED.moves + (log + [PickMovement(0, KEY, qty)]);
  }

  /** A confirmation of the open task that leaves it open. */
  lemma ConfirmTakes(
    prior: real, had: real, was: OrderStatus, done: seq<Movement>, units: seq<HandlingUnit>, entries: seq<PickEntry>,
    picked: real, left: real, log: seq<Movement>)
    requires PickAll(0, TaskLines(prior), PickStateOf(prior, had, done), entries) == Ok(PickStateOf(picked, left, log))
    requires picked != 5.0
    ensures ConfirmTask(Taken(prior, had, was, done).(units := units), 0, entries)
         == Ok(Taken(picked, left, if picked > 0.0 then PartiallyPicked else was, log).(units := units))
  {
    hide PickAll;
    var db := Taken(prior, had, was, done);
    assert PickState(db.rows, db.tasks[0].lines, db.orders[0].lines, db.moves) == PickStateOf(prior, had, done);
    var lines, taskLines := [OrderLine(1, 5.0, 5.0, picked, "EA")], TaskLines(picked);
    assert lines[0].pickedQty == picked && taskLines[0].picked == picked;
    var status := if picked > 0.0 then PartiallyPicked else was;
    assert PickedOrderStatus(lines, was) == status && !AllPicked(taskLines);
    assert db.tasks[0 := Task(0, 1, TaskInProgress, taskLines)] == [Task(0, 1, TaskInProgress, taskLines)];
    assert db.orders[0 := Order(1, status, lines)] == [Order(1, status, lines)];
  }

  /** A negative pick is accepted on a reachable task: picked falls below zero, and reserved stock grows to six. */
  lemma NegativePickIsAccepted()
    ensures ConfirmTask(Run(CATALOG, EMPTY_DB, TaskSteps(5.0, "EA")), 0, [PickEntry(0, -1.0)])
         == Ok(Taken(-1.0, 6.0, InPicking, [PickMovement(0, KEY, -1.0)]))
  {
    hide Run, ConfirmTask, PickOne, TaskSteps;
    TaskRuns(5.0, "EA");
    NothingTakenYet();
    PickTakes(0.0, 0.0, 5.0, [], -1.0);
    var log := [PickMovement(0, KEY, -1.0)];
    assert [] + log == log && [PickEntry(0, -1.0)][1..] == [];
    ConfirmTakes(0.0, 5.0, InPicking, [], [], [PickEntry(0, -1.0)], -1.0, 6.0, log);
  }

  /** Naming a line twice on a reachable task: five units leave stock, three are recorded as picked, two forgotten. */
  lemma RepeatedLineForgets()
    ensures var entries := [PickEntry(0, 2.0), PickEntry(0, 3.0)];
            && ConfirmTask(Run(CATALOG, EMPTY_DB, TaskSteps(5.0, "EA")), 0, entries)
               == Ok(Taken(3.0, 0.0, PartiallyPicked, [PickMovement(0, KEY, 2.0), PickMovement(0, KEY, 3.0)]))
            && ForgottenOn(TaskLines(0.0), entries, KEY) == 2.0
  {
    hide Run, ConfirmTask, PickOne, TaskSteps;
    var first, second := PickEntry(0, 2.0), PickEntry(0, 3.0);
    var one, two := PickMovement(0, KEY, 2.0), PickMovement(0, KEY, 3.0);
    TaskRuns(5.0, "EA");
    NothingTakenYet();
    PickTakes(0.0, 0.0, 5.0, [], 2.0);
    PickTakes(0.0, 2.0, 3.0, [one], 3.0);
    assert [] + [one] == [one] && [one] + [two] == [one, two];
    assert [first, second][1..] == [second] && [second][1..] == [];
    assert PickAll(0, TaskLines(0.0), PickStateOf(2.0, 3.0, [one]), [second]) == Ok(PickStateOf(3.0, 0.0, [one, two]));
    ConfirmTakes(0.0, 5.0, InPicking, [], [], [first, second], 3.0, 0.0, [one, two]);
    assert LastFor([], 0) == None && LastFor([second], 0) == Some(3.0);
    assert ForgottenOn(TaskLines(0.0), [second], KEY) == 0.0;
  }

  // ---------- Packing what is taken back ----------

  const THREE := PackedLine(0, 0, 1, None, 3.0, "EA")

  /** Three of the five units are picked; then they are packed; then one is taken back. */
  function TakeBackSteps(): seq<Step> {
    TaskSteps(5.0, "EA") + [ConfirmTaskStep(0, [PickEntry(0, 3.0)])] + [CreateUnitStep(1)]
    + [AddItemsStep(0, 0, [PackItem(0, 1, None, 3.0, "EA")])]
  }

  function ThreePicked(units: seq<HandlingUnit>): Db {
    Taken(3.0, 2.0, PartiallyPicked, [PickMovement(0, KEY, 3.0)]).(units := units)
  }

  lemma ThreeArePicked()
    ensures After(CATALOG, Tasked(5.0, "EA", TaskInProgress), ConfirmTaskStep(0, [PickEntry(0, 3.0)]))
         == ThreePicked([])
  {
    hide ConfirmTask, PickOne;
    NothingTakenYet();
    PickTakes(0.0, 0.0, 5.0, [], 3.0);
    var log := [PickMovement(0, KEY, 3.0)];
    assert [] + log == log && [PickEntry(0, 3.0)][1..] == [];
    ConfirmTakes(0.0, 5.0, InPicking, [], [], [PickEntry(0, 3.0)], 3.0, 2.0, log);
  }

  lemma UnitOpensForThree()
    ensures After(CATALOG, ThreePicked([]), CreateUnitStep(1)) == ThreePicked([HandlingUnit(1, [])])
  {
    assert [] + [HandlingUnit(1, [])] == [HandlingUnit(1, [])];
  }

  lemma ThreeFit()
    ensures PackAll([HandlingUnit(1, [])], 0, 0, [OrderLine(1, 5.0, 5.0, 3.0, "EA")], [PackItem(0, 1, None, 3.0, "EA")])
         == Ok([HandlingUnit(1, [THREE])])
  {
    var units, item := [HandlingUnit(1, [])], PackItem(0, 1, None, 3.0, "EA");
    var lines := [OrderLine(1, 5.0, 5.0, 3.0, "EA")];
    assert units[..0] == [] && [item][1..] == [];
    assert Packed(units, 0, 0) == 0.0;
    assert [] + [THREE] == [THREE] && units[0 := HandlingUnit(1, [THREE])] == [HandlingUnit(1, [THREE])];
    assert PackOne(units, 0, 0, lines, item) == Ok([HandlingUnit(1, [THREE])]);
  }

  lemma ThreeArePacked()
    ensures After(CATALOG, ThreePicked([HandlingUnit(1, [])]), AddItemsStep(0, 0, [PackItem(0, 1, None, 3.0, "EA")]))
         == ThreePicked([HandlingUnit(1, [THREE])])
  {
    hide PackAll;
    ThreeFit();
  }

  lemma TakeBackRuns()
    ensures Run(CATALOG, EMPTY_DB, TakeBackSteps()) == ThreePicked([HandlingUnit(1, [THREE])])
  {
    hide After, Run, TaskSteps, Tasked, ThreePicked;
    TaskRuns(5.0, "EA");
    ThreeArePicked();
    UnitOpensForThree();
    ThreeArePacked();
    var steps, confirm := TaskSteps(5.0, "EA"), ConfirmTaskStep(0, [PickEntry(0, 3.0)]);
    LeadsOn(steps, Tasked(5.0, "EA", TaskInProgress), confirm, ThreePicked([]));
    LeadsOn(steps + [confirm], ThreePicked([]), CreateUnitStep(1), ThreePicked([HandlingUnit(1, [])]));
    LeadsOn(steps + [confirm] + [CreateUnitStep(1)], ThreePicked([HandlingUnit(1, [])]),
            AddItemsStep(0, 0, [PackItem(0, 1, None, 3.0, "EA")]), ThreePicked([HandlingUnit(1, [THREE])]));
  }

  /** One of three packed units is taken back on a reachable task: three stay packed, two are picked. */
  lemma PackedIsTakenBack()
    ensures var r := ConfirmTask(Run(CATALOG, EMPTY_DB, TakeBackSteps()), 0, [PickEntry(0, -1.0)]);
            && r.Ok?
            && r.value.orders == [Order(1, PartiallyPicked, [OrderLine(1, 5.0, 5.0, 2.0, "EA")])]
            && Packed(r.value.units, 0, 0) == 3.0
  {
    hide Run, ConfirmTask, PickOne, TakeBackSteps;
    TakeBackRuns();
    var one, two := PickMovement(0, KEY, 3.0), PickMovement(0, KEY, -1.0);
    PickTakes(3.0, 3.0, 2.0, [one], -1.0);
    assert [one] + [two] == [one, two] && [PickEntry(0, -1.0)][1..] == [];
    ConfirmTakes(3.0, 2.0, PartiallyPicked, [one], [HandlingUnit(1, [THREE])], [PickEntry(0, -1.0)], 2.0, 3.0,
        [one, two]);
    assert [HandlingUnit(1, [THREE])][..0] == [] && [THREE][..0] == [];
    assert PackedInUnit([THREE], 0, 0) == 3.0 && Packed([], 0, 0) == 0.0;
    assert Packed([HandlingUnit(1, [THREE])], 0, 0) == 3.0;
  }

  // ---------- Units of measure ----------

  /** A reachable release fills an order line in BOX with stock in EA. */
  lemma OtherUnitIsReserved()
    ensures Run(CATALOG, EMPTY_DB, ReleaseSteps(2.0, "BOX"))
         == STOCKED.(
              rows := [Row(KEY, Available, 3.0), Row(KEY, Reserved, 2.0)],
              orders := [Order(1, FullyAllocated, [OrderLine(1, 2.0, 2.0, 0.0, "BOX")])])
  {
    ReleaseRuns(2.0, "BOX");
  }

  // ---------- Counting ----------

  function CountSteps(): seq<Step> {
    ReleaseSteps(2.0, "EA") + [CreateCountStep(1, [CountInput(KEY, None)])] + [StartCountStep(0)]
  }

  /** Three units available and two reserved, with an open count that expects all five. */
  function Counted(status: CountStatus): Db {
    Allotted(2.0, "EA").(counts := [CountTask(1, status, [CountLine(KEY, 5.0, None, None)])])
  }

  lemma CountOpens()
    ensures After(CATALOG, Allotted(2.0, "EA"), CreateCountStep(1, [CountInput(KEY, None)])) == Counted(CountPending)
  {
    var created, line :=
        Allotted(2.0, "EA").(counts := [CountTask(1, CountPending, [])]), CountLine(KEY, 5.0, None, None);
    LineIsAdded(created);
    hide NewCountLines;
    assert [] + [CountTask(1, CountPending, [])] == created.counts;
    assert [] + [line] == [line]
        && created.counts[0 := Counted(CountPending).counts[0]] == Counted(CountPending).counts;
    assert AddCountLines(CATALOG, created, 0, [CountInput(KEY, None)]) == Ok(Counted(CountPending));
  }

  lemma LineIsAdded(created: Db)
    requires created.rows == Allotted(2.0, "EA").rows
    ensures NewCountLines(CATALOG, created, 1, [CountInput(KEY, None)]) == Ok([CountLine(KEY, 5.0, None, None)])
  {
    hide ExpectedOn;
    var input, line := CountInput(KEY, None), CountLine(KEY, 5.0, None, None);
    HeldInScenario();
    assert NewCountLine(CATALOG, created, 1, input) == Ok(line);
    assert [input][1..] == [] && [line] + [] == [line];
  }

  lemma CountBegins()
    ensures After(CATALOG, Counted(CountPending), StartCountStep(0)) == Counted(CountInProgress)
  {
    assert Counted(CountPending).counts[0 := Counted(CountInProgress).counts[0]] == Counted(CountInProgress).counts;
  }

  lemma HeldInScenario()
    ensures var rows := Allotted(2.0, "EA").rows;
            && ExpectedOn(rows, KEY) == 5.0
            && Held(rows, KEY, Available) == 3.0
  {
    var rows := Allotted(2.0, "EA").rows;
    assert rows[..1] == [rows[0]] && [rows[0]][..0] == [];
    forall s: StockStatus
      ensures Total(rows, OnKeyStatus(KEY, s)) == if s == Available then 3.0 else if s == Reserved then 2.0 else 0.0
    {
      assert Total([rows[0]], OnKeyStatus(KEY, s)) == if s == Available then 3.0 else 0.0;
    }
  }

  lemma CountRuns()
    ensures Run(CATALOG, EMPTY_DB, CountSteps()) == Counted(CountInProgress)
  {
    hide After, Run;
    ReleaseRuns(2.0, "EA");
    CountOpens();
    CountBegins();
    LeadsOn(ReleaseSteps(2.0, "EA"), Allotted(2.0, "EA"), CreateCountStep(1, [CountInput(KEY, None)]),
            Counted(CountPending));
    LeadsOn(ReleaseSteps(2.0, "EA") + [CreateCountStep(1, [CountInput(KEY, None)])], Counted(CountPending),
            StartCountStep(0), Counted(CountInProgress));
  }

  lemma StatusInScenario()
    ensures StatusToCount(CATALOG.groupOrder, Allotted(2.0, "EA").rows, KEY) == Available
  {
    var rows := Allotted(2.0, "EA").rows;
    HeldInScenario();
    assert rows[..1] == [rows[0]] && [rows[0]][..0] == [];
    assert Find([rows[0]], KEY, Available) == Some(0) && Find(rows, KEY, Available) == Some(0);
    assert CATALOG.groupOrder[0] == Available;
    assert Available in CATALOG.groupOrder;
    assert Available in Groups(CATALOG.groupOrder, rows, KEY);
  }

  const COUNTED_ROWS := [Row(KEY, Available, 4.0), Row(KEY, Reserved, 2.0)]

  lemma CountIsBooked()
    ensures AdjustStock(CATALOG, [], Allotted(2.0, "EA").rows, STOCKED.moves, 1, KEY, 4.0, CountRef(0))
         == Ok((COUNTED_ROWS, STOCKED.moves + [AdjustMovement(CountRef(0), KEY, 1.0)]))
  {
    var rows := Allotted(2.0, "EA").rows;
    StatusInScenario();
    hide StatusToCount;
    assert rows[..1] == [rows[0]] && [rows[0]][..0] == [];
    assert Find([rows[0]], KEY, Available) == Some(0) && Find(rows, KEY, Available) == Some(0);
    assert rows[0 := Row(KEY, Available, 4.0)] == COUNTED_ROWS;
  }

  lemma CountIsMarked()
    ensures var line, entry := CountLine(KEY, 5.0, None, None), CountEntry(0, 4.0);
            && !MissesPending([line], [entry])
            && MarkAll([line], [entry], {}) == Ok([CountLine(KEY, 5.0, Some(4.0), Some(-1.0))])
  {
    var line, entry, marked :=
        CountLine(KEY, 5.0, None, None), CountEntry(0, 4.0), CountLine(KEY, 5.0, Some(4.0), Some(-1.0));
    assert [entry][1..] == [] && [entry][0].line == 0;
    assert MarkOne([line], entry) == [marked];
    assert MarkAll([line], [entry], {}) == MarkAll([marked], [], {} + {0});
  }

  /** Four units are counted, the count is accepted and completes its task, and six units are on hand. */
  lemma CountIsMissed()
    ensures SubmitCount(CATALOG, Run(CATALOG, EMPTY_DB, CountSteps()), 0, [CountEntry(0, 4.0)])
         == Ok(Counted(CountInProgress).(
                 rows := COUNTED_ROWS,
                 moves := STOCKED.moves + [AdjustMovement(CountRef(0), KEY, 1.0)],
                 counts := [CountTask(1, CountCompleted, [CountLine(KEY, 5.0, Some(4.0), Some(-1.0))])]))
    ensures Total(COUNTED_ROWS, OnKey(KEY)) == 6.0
  {
    hide Run, AdjustStock, MarkAll, MissesPending, Total;
    CountRuns();
    CountIsBooked();
    CountIsMarked();
    CountedTotal();
    var rows, marked, entry := Allotted(2.0, "EA").rows, CountLine(KEY, 5.0, Some(4.0), Some(-1.0)), CountEntry(0, 4.0);
    var log := STOCKED.moves + [AdjustMovement(CountRef(0), KEY, 1.0)];
    assert [entry][1..] == [];
    assert AdjustAll(CATALOG, [], rows, STOCKED.moves, 1, CountRef(0), [marked], [entry])
        == AdjustAll(CATALOG, [], COUNTED_ROWS, log, 1, CountRef(0), [marked], []);
    assert Counted(CountInProgress).counts[0 := CountTask(1, CountCompleted, [marked])]
        == [CountTask(1, CountCompleted, [marked])];
  }

  lemma CountedTotal()
    ensures Total(COUNTED_ROWS, OnKey(KEY)) == 6.0
  {
    assert COUNTED_ROWS[..1] == [COUNTED_ROWS[0]] && [COUNTED_ROWS[0]][..0] == [];
    assert Total([COUNTED_ROWS[0]], OnKey(KEY)) == 4.0;
  }

  // ---------- Counting against a stale expectation ----------

  const STOCKING := AdjustStep(1, 1, None, 1, None, 5.0)

  const OPENING := CreateCountStep(1, [CountInput(KEY, None)])

  const RESTOCKING := AdjustStep(1, 1, None, 1, None, 7.0)

  function StaleSteps(): seq<Step> {
    [STOCKING] + [OPENING] + [StartCountStep(0)] + [RESTOCKING]
  }

  /** Five units available, with a count that expects them. */
  function Expecting(status: CountStatus): Db {
    STOCKED.(counts := [CountTask(1, status, [CountLine(KEY, 5.0, None, None)])])
  }

  /** Two units have been added since. */
  const STALE := Expecting(CountInProgress).(
    rows := [Row(KEY, Available, 7.0)], moves := STOCKED.moves + [AdjustMovement(NoRef, KEY, 2.0)])

  lemma HeldWhenStocked(q: real)
    ensures var rows := [Row(KEY, Available, q)];
            && (forall s: StockStatus :: Held(rows, KEY, s) == if s == Available then q else 0.0)
            && ExpectedOn(rows, KEY) == q && Total(rows, OnKey(KEY)) == q
            && Find(rows, KEY, Available) == Some(0)
  {
    assert [Row(KEY, Available, q)][..0] == [];
    forall s: StockStatus
      ensures Total([Row(KEY, Available, q)], OnKeyStatus(KEY, s)) == if s == Available then q else 0.0
    {
    }
  }

  lemma StaleCountOpens()
    ensures After(CATALOG, STOCKED, OPENING) == Expecting(CountPending)
  {
    var created, input := STOCKED.(counts := [CountTask(1, CountPending, [])]), CountInput(KEY, None);
    var line := CountLine(KEY, 5.0, None, None);
    StockedLine(created);
    hide NewCountLines;
    assert [] + [CountTask(1, CountPending, [])] == created.counts && [] + [line] == [line];
    assert created.counts[0 := Expecting(CountPending).counts[0]] == Expecting(CountPending).counts;
    assert AddCountLines(CATALOG, created, 0, [input]) == Ok(Expecting(CountPending));
    hide AddCountLines;
  }

  lemma StaleCountBegins()
    ensures After(CATALOG, Expecting(CountPending), StartCountStep(0)) == Expecting(CountInProgress)
  {
    assert Expecting(CountPending).counts[0 := Expecting(CountInProgress).counts[0]]
        == Expecting(CountInProgress).counts;
  }

  lemma StockedLine(created: Db)
    requires created.rows == STOCKED.rows
    ensures NewCountLines(CATALOG, created, 1, [CountInput(KEY, None)]) == Ok([CountLine(KEY, 5.0, None, None)])
  {
    hide ExpectedOn;
    var input, line := CountInput(KEY, None), CountLine(KEY, 5.0, None, None);
    HeldWhenStocked(5.0);
    assert NewCountLine(CATALOG, created, 1, input) == Ok(line);
    assert [input][1..] == [] && [line] + [] == [line];
  }

  lemma StockMovesOn()
    ensures After(CATALOG, Expecting(CountInProgress), RESTOCKING) == STALE
  {
    var rows := STOCKED.rows;
    HeldWhenStocked(5.0);
    assert CATALOG.groupOrder[0] == Available;
    assert Available in CATALOG.groupOrder;
    assert Available in Groups(CATALOG.groupOrder, rows, KEY);
    assert StatusToCount(CATALOG.groupOrder, rows, KEY) == Available;
    hide StatusToCount;
    assert rows[0 := Row(KEY, Available, 7.0)] == STALE.rows;
  }

  lemma StaleRuns()
    ensures Run(CATALOG, EMPTY_DB, StaleSteps()) == STALE
  {
    hide After, Run, Expecting;
    StartsEmpty();
    StockingStocks();
    StaleCountOpens();
    StaleCountBegins();
    StockMovesOn();
    LeadsOn([], EMPTY_DB, STOCKING, STOCKED);
    assert [] + [STOCKING] == [STOCKING];
    LeadsOn([STOCKING], STOCKED, OPENING, Expecting(CountPending));
    LeadsOn([STOCKING] + [OPENING], Expecting(CountPending), StartCountStep(0), Expecting(CountInProgress));
    LeadsOn([STOCKING] + [OPENING] + [StartCountStep(0)], Expecting(CountInProgress), RESTOCKING, STALE);
  }

  /**
   * Five units are counted as expected, the count is accepted and completes its task, and seven units stay on hand,
   * all of them available.
   */
  lemma StaleCountIsNotBooked()
    ensures SubmitCount(CATALOG, Run(CATALOG, EMPTY_DB, StaleSteps()), 0, [CountEntry(0, 5.0)])
         == Ok(STALE.(counts := [CountTask(1, CountCompleted, [CountLine(KEY, 5.0, Some(5.0), Some(0.0))])]))
    ensures Total(STALE.rows, OnKey(KEY)) == Held(STALE.rows, KEY, Available) == 7.0
  {
    hide Run, Total;
    StaleRuns();
    HeldWhenStocked(7.0);
    StaleCountIsMarked();
    hide MarkAll, MissesPending;
    var marked, entry := CountLine(KEY, 5.0, Some(5.0), Some(0.0)), CountEntry(0, 5.0);
    assert [entry][1..] == [] && !Differs([marked], entry);
    assert AdjustAll(CATALOG, [], STALE.rows, STALE.moves, 1, CountRef(0), [marked], [entry])
        == AdjustAll(CATALOG, [], STALE.rows, STALE.moves, 1, CountRef(0), [marked], []);
    assert STALE.counts[0 := CountTask(1, CountCompleted, [marked])] == [CountTask(1, CountCompleted, [marked])];
  }

  lemma StaleCountIsMarked()
    ensures var line, entry := CountLine(KEY, 5.0, None, None), CountEntry(0, 5.0);
            && !MissesPending([line], [entry])
            && MarkAll([line], [entry], {}) == Ok([CountLine(KEY, 5.0, Some(5.0), Some(0.0))])
  {
    var line, entry, marked :=
        CountLine(KEY, 5.0, None, None), CountEntry(0, 5.0), CountLine(KEY, 5.0, Some(5.0), Some(0.0));
    assert [entry][1..] == [] && [entry][0].line == 0;
    assert MarkOne([line], entry) == [marked];
    assert MarkAll([line], [entry], {}) == MarkAll([marked], [], {} + {0});
  }

  // ---------- Receiving ----------

  function ReceiptSteps(): seq<Step> {
    [CreateReceiptStep(1)] + [AddLineStep(0, 1, 10.0, "EA", None, None)]
  }

  const DRAFTED := EMPTY_DB.(receipts := [Receipt(1, Draft, [ReceiptLine(1, 10.0, 0.0, "EA", None, None, None)])])

  lemma ReceiptRuns()
    ensures Run(CATALOG, EMPTY_DB, ReceiptSteps()) == DRAFTED
  {
    var created := EMPTY_DB.(receipts := [Receipt(1, Draft, [])]);
    assert After(CATALOG, EMPTY_DB, CreateReceiptStep(1)) == created;
    var line := ReceiptLine(1, 10.0, 0.0, "EA", None, None, None);
    assert [] + [line] == [line] && created.receipts[0 := Receipt(1, Draft, [line])] == DRAFTED.receipts;
    assert After(CATALOG, created, AddLineStep(0, 1, 10.0, "EA", None, None)) == DRAFTED;
    hide Run, After;
    StartsEmpty();
    LeadsOn([], EMPTY_DB, CreateReceiptStep(1), created);
    assert [] + [CreateReceiptStep(1)] == [CreateReceiptStep(1)];
    LeadsOn([CreateReceiptStep(1)], created, AddLineStep(0, 1, 10.0, "EA", None, None), DRAFTED);
  }

  /** With a percentage of -10 at most nine of ten may be received; receiving ten from the floor is accepted. */
  lemma FloorReceiptExceedsLimit()
    ensures var r := ReceiveLine(CATALOG, Run(CATALOG, EMPTY_DB, ReceiptSteps()), 0, 0, 10.0, None, Some(1));
            var line := ReceiptLine(1, 10.0, 10.0, "EA", None, None, None);
            && r.Ok? && r.value.receipts == [Receipt(1, Received, [line])]
            && Limit(CATALOG, 1, line) == 9.0 && !UnderLimit(CATALOG, 1, line)
  {
    hide Run;
    ReceiptRuns();
    var line := ReceiptLine(1, 10.0, 10.0, "EA", None, None, None);
    var st := ReceiveState([], [], DRAFTED.receipts[0].lines, []);
    assert Find([], KEY, Available) == None;
    assert [] + [Row(KEY, Available, 10.0)] == [Row(KEY, Available, 10.0)];
    assert IncreaseStock(CATALOG, [], [], 1, KEY, 10.0) == Ok([Row(KEY, Available, 10.0)]);
    assert TopUp(CATALOG, 0, 1, 1, st, 0, 10.0, None).value.lines == [line];
  }

  // ---------- Shipping ----------

  const PACKED := PackedLine(0, 0, 1, None, 5.0, "EA")

  /** Everything picked, then packed into one unit that both shipments carry. */
  function Carried(units: seq<HandlingUnit>, shipments: seq<Shipment>, log: seq<Movement>): Db {
    Tasked(5.0, "EA", TaskCompleted).(
      rows := [Row(KEY, Available, 0.0), Row(KEY, Reserved, 0.0)],
      orders := [Order(1, Picked, [OrderLine(1, 5.0, 5.0, 5.0, "EA")])],
      tasks := [Task(0, 1, TaskCompleted, [TaskLine(0, KEY, 5.0, 5.0)])],
      moves := STOCKED.moves + [PickMovement(0, KEY, 5.0)] + log,
      units := units, shipments := shipments)
  }

  const UNIT := HandlingUnit(1, [PACKED])

  function Carrying(status: ShipmentStatus): Shipment {
    Shipment(1, status, [(0, 0)])
  }

  function ShippedLine(shipment: Id): Movement {
    Movement(OutboundShipment, ShipmentRef(shipment), 1, None, None, None, 5.0, "EA")
  }

  function PackSteps(): seq<Step> {
    TaskSteps(5.0, "EA") + [ConfirmTaskStep(0, [PickEntry(0, 5.0)])] + [CreateUnitStep(1)]
    + [AddItemsStep(0, 0, [PackItem(0, 1, None, 5.0, "EA")])]
  }

  function ShipSteps(): seq<Step> {
    PackSteps() + [CreateShipmentStep(1)] + [CreateShipmentStep(1)] + [AssignUnitsStep(0, [0])]
        + [AssignUnitsStep(1, [0])]
    + [DispatchStep(0)] + [DispatchStep(1)]
  }

  lemma PickingCompletes()
    ensures After(CATALOG, Tasked(5.0, "EA", TaskInProgress), ConfirmTaskStep(0, [PickEntry(0, 5.0)]))
        == Carried([], [], [])
  {
    hide PickOne;
    var db, log := Tasked(5.0, "EA", TaskInProgress), [PickMovement(0, KEY, 5.0)];
    PickTakes(0.0, 0.0, 5.0, [], 5.0);
    assert [] + log == log && [PickEntry(0, 5.0)][1..] == [] && db.moves + [] == db.moves;
    assert PickState(db.rows, db.tasks[0].lines, db.orders[0].lines, db.moves) == PickStateOf(0.0, 5.0, []);
    assert PickAll(0, TaskLines(0.0), PickStateOf(0.0, 5.0, []), [PickEntry(0, 5.0)]) == Ok(PickStateOf(5.0, 0.0, log));
    var after := Carried([], [], []);
    assert STOCKED.moves + log + [] == STOCKED.moves + log;
    assert db.tasks[0 := after.tasks[0]] == after.tasks && db.orders[0 := after.orders[0]] == after.orders;
  }

  lemma UnitOpens()
    ensures After(CATALOG, Carried([], [], []), CreateUnitStep(1)) == Carried([HandlingUnit(1, [])], [], [])
  {
    assert [] + [HandlingUnit(1, [])] == [HandlingUnit(1, [])];
  }

  lemma UnitIsPacked()
    ensures After(CATALOG, Carried([HandlingUnit(1, [])], [], []),
        AddItemsStep(0, 0, [PackItem(0, 1, None, 5.0, "EA")]))
         == Carried([UNIT], [], [])
  {
    ItemIsPacked();
    hide PackAll;
  }

  lemma ItemIsPacked()
    ensures PackAll([HandlingUnit(1, [])], 0, 0, [OrderLine(1, 5.0, 5.0, 5.0, "EA")], [PackItem(0, 1, None, 5.0, "EA")])
         == Ok([UNIT])
  {
    var units, item := [HandlingUnit(1, [])], PackItem(0, 1, None, 5.0, "EA");
    var lines := [OrderLine(1, 5.0, 5.0, 5.0, "EA")];
    assert units[..0] == [] && [item][1..] == [];
    assert Packed(units, 0, 0) == 0.0;
    assert [] + [PACKED] == [PACKED] && units[0 := UNIT] == [UNIT];
    assert PackOne(units, 0, 0, lines, item) == Ok([UNIT]);
    assert PackAll(units, 0, 0, lines, [item]) == PackAll([UNIT], 0, 0, lines, []);
  }

  lemma ShipmentsOpen()
    ensures After(CATALOG, Carried([UNIT], [], []), CreateShipmentStep(1))
        == Carried([UNIT], [Shipment(1, Planned, [])], [])
    ensures After(CATALOG, Carried([UNIT], [Shipment(1, Planned, [])], []), CreateShipmentStep(1))
         == Carried([UNIT], [Shipment(1, Planned, []), Shipment(1, Planned, [])], [])
  {
    assert [] + [Shipment(1, Planned, [])] == [Shipment(1, Planned, [])];
  }

  lemma UnitIsLinked()
    ensures LinkUnits([], [], [UNIT], [0]) == Ok([(0, 0)])
  {
    assert [PACKED][..0] == [] && [] + [(0, 0)] == [(0, 0)];
    assert LinkUnit([], [], 0, [PACKED]) == [(0, 0)];
    assert [0][1..] == [];
  }

  lemma ShipmentsLoad()
    ensures After(CATALOG, Carried([UNIT], [Shipment(1, Planned, []), Shipment(1, Planned, [])], []),
        AssignUnitsStep(0, [0]))
         == Carried([UNIT], [Carrying(Loading), Shipment(1, Planned, [])], [])
    ensures After(CATALOG, Carried([UNIT], [Carrying(Loading), Shipment(1, Planned, [])], []), AssignUnitsStep(1, [0]))
         == Carried([UNIT], [Carrying(Loading), Carrying(Loading)], [])
  {
    UnitIsLinked();
  }

  lemma UnitIsLogged(shipment: Id)
    ensures DispatchLog(shipment, [(0, 0)], [UNIT]) == [ShippedLine(shipment)]
  {
    assert [PACKED][..0] == [] && [UNIT][..0] == [] && [] + [ShippedLine(shipment)] == [ShippedLine(shipment)];
    assert LogOfUnit(shipment, [PACKED]) == [ShippedLine(shipment)];
    assert [(0, 0)][0] == (0, 0) && Linked([(0, 0)], 0);
  }

  lemma ShipmentsLeave()
    ensures After(CATALOG, Carried([UNIT], [Carrying(Loading), Carrying(Loading)], []), DispatchStep(0))
         == Carried([UNIT], [Carrying(Dispatched), Carrying(Loading)], [ShippedLine(0)])
    ensures After(CATALOG, Carried([UNIT], [Carrying(Dispatched), Carrying(Loading)], [ShippedLine(0)]),
        DispatchStep(1))
         == Carried([UNIT], [Carrying(Dispatched), Carrying(Dispatched)], [ShippedLine(0), ShippedLine(1)])
  {
    UnitIsLogged(0);
    UnitIsLogged(1);
    var moves := STOCKED.moves + [PickMovement(0, KEY, 5.0)];
    assert moves + [] + [ShippedLine(0)] == moves + [ShippedLine(0)];
    assert moves + [ShippedLine(0)] + [ShippedLine(1)] == moves + [ShippedLine(0), ShippedLine(1)];
  }

  lemma PackingRuns()
    ensures Run(CATALOG, EMPTY_DB, PackSteps()) == Carried([UNIT], [], [])
  {
    hide After, Run, TaskSteps, Tasked, Carried;
    TaskRuns(5.0, "EA");
    PickingCompletes();
    UnitOpens();
    UnitIsPacked();
    var steps, confirm := TaskSteps(5.0, "EA"), ConfirmTaskStep(0, [PickEntry(0, 5.0)]);
    LeadsOn(steps, Tasked(5.0, "EA", TaskInProgress), confirm, Carried([], [], []));
    LeadsOn(steps + [confirm], Carried([], [], []), CreateUnitStep(1), Carried([HandlingUnit(1, [])], [], []));
    LeadsOn(steps + [confirm] + [CreateUnitStep(1)], Carried([HandlingUnit(1, [])], [], []),
            AddItemsStep(0, 0, [PackItem(0, 1, None, 5.0, "EA")]), Carried([UNIT], [], []));
  }

  lemma ShippingRuns()
    ensures Run(CATALOG, EMPTY_DB, ShipSteps())
         == Carried([UNIT], [Carrying(Dispatched), Carrying(Dispatched)], [ShippedLine(0), ShippedLine(1)])
  {
    hide After, Run, PackSteps, Carried, Carrying, ShippedLine;
    PackingRuns();
    ShipmentsOpen();
    ShipmentsLoad();
    ShipmentsLeave();
    var planned, loading, first := Shipment(1, Planned, []), Carrying(Loading), ShippedLine(0);
    var steps := PackSteps();
    LeadsOn(steps, Carried([UNIT], [], []), CreateShipmentStep(1), Carried([UNIT], [planned], []));
    steps := steps + [CreateShipmentStep(1)];
    LeadsOn(steps, Carried([UNIT], [planned], []), CreateShipmentStep(1), Carried([UNIT], [planned, planned], []));
    steps := steps + [CreateShipmentStep(1)];
    LeadsOn(steps, Carried([UNIT], [planned, planned], []), AssignUnitsStep(0, [0]),
        Carried([UNIT], [loading, planned], []));
    steps := steps + [AssignUnitsStep(0, [0])];
    LeadsOn(steps, Carried([UNIT], [loading, planned], []), AssignUnitsStep(1, [0]),
        Carried([UNIT], [loading, loading], []));
    steps := steps + [AssignUnitsStep(1, [0])];
    LeadsOn(steps, Carried([UNIT], [loading, loading], []), DispatchStep(0),
            Carried([UNIT], [Carrying(Dispatched), loading], [first]));
    steps := steps + [DispatchStep(0)];
    LeadsOn(steps, Carried([UNIT], [Carrying(Dispatched), loading], [first]), DispatchStep(1),
            Carried([UNIT], [Carrying(Dispatched), Carrying(Dispatched)], [first, ShippedLine(1)]));
  }

  /** One unit joins two shipments and both are dispatched: five units are packed, ten are logged as shipped. */
  lemma UnitShipsTwice()
    ensures var db := Run(CATALOG, EMPTY_DB, ShipSteps());
            && PackedOf(db.units, 1) == 5.0
            && |db.shipments| == 2 && ShippedOf(db.moves, 2, 1) == 10.0
  {
    hide Run, ShipSteps;
    ShippingRuns();
    var db := Carried([UNIT], [Carrying(Dispatched), Carrying(Dispatched)], [ShippedLine(0), ShippedLine(1)]);
    assert [UNIT][..0] == [] && [PACKED][..0] == [];
    assert ContentsOfUnit([PACKED], 1) == 5.0;
    ShippedInScenario(0);
    ShippedInScenario(1);
    assert ShippedOf(db.moves, 0, 1) == 0.0;
    assert ShippedOf(db.moves, 1, 1) == 5.0;
  }

  lemma ShippedInScenario(shipment: Id)
    requires shipment < 2
    ensures var moves := STOCKED.moves + [PickMovement(0, KEY, 5.0)] + [ShippedLine(0), ShippedLine(1)];
            Tally(moves, ShippedBy(shipment, 1)) == 5.0
  {
    var meter, a, b := ShippedBy(shipment, 1), STOCKED.moves, STOCKED.moves + [PickMovement(0, KEY, 5.0)];
    assert a[..0] == [];
    assert Tally(a, meter) == 0.0;
    TallyOfAppended(a, PickMovement(0, KEY, 5.0), meter);
    TallyOfAppended(b, ShippedLine(0), meter);
    TallyOfAppended(b + [ShippedLine(0)], ShippedLine(1), meter);
    assert b + [ShippedLine(0), ShippedLine(1)] == b + [ShippedLine(0)] + [ShippedLine(1)];
  }
}
