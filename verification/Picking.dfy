/** Picking tasks: one line per reservation, confirmed against the reserved stock. */
module Picking {
  import opened Wrappers
  import opened Domain
  import opened Stock

  // ---------- Creating a task ----------

  predicate IsReservation(cat: Catalog, row: Row, product: Id, warehouse: Id) {
    && row.key.product == product && row.status == Reserved && 0.0 < row.qty
    && row.key.location in cat.locations && cat.locations[row.key.location] == warehouse
  }

  /** Task lines for one order line: all stock of its product reserved in the warehouse. */
  function LinesForReservations(
      cat: Catalog, rows: seq<Row>, product: Id, warehouse: Id, orderLine: Id): (r: seq<TaskLine>)
    ensures forall i | 0 <= i < |r| :: r[i].orderLine == orderLine && r[i].picked == 0.0 && 0.0 < r[i].toPick
  {
    if rows == [] then [] else
    var n := |rows| - 1;
    var earlier := LinesForReservations(cat, rows[..n], product, warehouse, orderLine);
    if IsReservation(cat, rows[n], product, warehouse)
    then earlier + [TaskLine(orderLine, rows[n].key, rows[n].qty, 0.0)]
    else earlier
  }

  function LinesForOrder(cat: Catalog, rows: seq<Row>, warehouse: Id, lines: seq<OrderLine>): (r: seq<TaskLine>)
    ensures forall i | 0 <= i < |r| :: r[i].orderLine < |lines| && r[i].picked == 0.0 && 0.0 < r[i].toPick
  {
    if lines == [] then [] else
    var n := |lines| - 1;
    LinesForOrder(cat, rows, warehouse, lines[..n]) + LinesForReservations(cat, rows, lines[n].product, warehouse, n)
  }

  function CreateTask(cat: Catalog, db: Db, id: Id, hasPicker: bool): Result<Db, Error> {
    if id >= |db.orders| then Err(NotFound) else
    var order := db.orders[id];
    if order.status != FullyAllocated && order.status != PartiallyAllocated then Err(BadRequest) else
    var task := Task(id, order.warehouse, if hasPicker then TaskAssigned else TaskCreated,
                     LinesForOrder(cat, db.rows, order.warehouse, order.lines));
    Ok(db.(tasks := db.tasks + [task], orders := db.orders[id := order.(status := InPicking)]))
  }

  function StartTask(db: Db, id: Id): Result<Db, Error> {
    if id >= |db.tasks| then Err(NotFound)
    else if db.tasks[id].status != TaskCreated && db.tasks[id].status != TaskAssigned then Err(BadRequest)
    else Ok(db.(tasks := db.tasks[id := db.tasks[id].(status := TaskInProgress)]))
  }

  // ---------- Confirming picks ----------

  datatype PickEntry = PickEntry(line: Id, qty: real)

  datatype PickState = PickState(rows: seq<Row>, lines: seq<TaskLine>, orderLines: seq<OrderLine>, moves: seq<Movement>)

  function PickMovement(order: Id, key: Key, qty: real): Movement {
    Movement(OutboundShipment, OrderRef(order), key.product, key.batch, Some(key.location), None, qty, key.uom)
  }

  /** One submitted entry; snapshot holds the task lines as read before the transaction. */
  function PickOne(order: Id, snapshot: seq<TaskLine>, st: PickState, entry: PickEntry): (r: Result<PickState, Error>)
    requires |st.lines| == |snapshot|
    ensures r.Ok? ==> |r.value.lines| == |snapshot| && |r.value.orderLines| == |st.orderLines|
  {
    if entry.line >= |snapshot| then Err(NotFound) else
    var line := snapshot[entry.line];
    if entry.qty > line.toPick - line.picked then Err(BadRequest) else
    var found := Find(st.rows, line.key, Reserved);
    if found.None? then Err(BadRequest) else
    var row := st.rows[found.value];
    if row.qty < entry.qty then Err(BadRequest) else
    if line.orderLine >= |st.orderLines| then Err(NotFound) else
    Ok(PickState(
      st.rows[found.value := row.(qty := row.qty - entry.qty)],
      st.lines[entry.line := st.lines[entry.line].(picked := line.picked + entry.qty)],
      st.orderLines[line.orderLine := st.orderLines[line.orderLine].(pickedQty := line.picked + entry.qty)],
      st.moves + [PickMovement(order, line.key, entry.qty)]))
  }

  function PickAll(
      order: Id, snapshot: seq<TaskLine>, st: PickState, entries: seq<PickEntry>): (r: Result<PickState, Error>)
    requires |st.lines| == |snapshot|
    ensures r.Ok? ==> |r.value.lines| == |snapshot| && |r.value.orderLines| == |st.orderLines|
    decreases |entries|
  {
    if entries == [] then Ok(st) else
    match PickOne(order, snapshot, st, entries[0])
    case Err(e) => Err(e)
    case Ok(next) => PickAll(order, snapshot, next, entries[1..])
  }

  predicate AllPicked(lines: seq<TaskLine>) {
    forall i | 0 <= i < |lines| :: lines[i].picked == lines[i].toPick
  }

  function PickedOrderStatus(lines: seq<OrderLine>, current: OrderStatus): OrderStatus {
    if forall i | 0 <= i < |lines| :: lines[i].pickedQty == lines[i].requestedQty then Picked
    else if exists i | 0 <= i < |lines| :: lines[i].pickedQty > 0.0 then PartiallyPicked
    else current
  }

  function ConfirmTask(db: Db, id: Id, entries: seq<PickEntry>): Result<Db, Error> {
    if id >= |db.tasks| then Err(NotFound) else
    var task := db.tasks[id];
    if task.order >= |db.orders| then Err(BadRequest) else
    var order := db.orders[task.order];
    if task.status != TaskInProgress then Err(BadRequest) else
    match PickAll(task.order, task.lines, PickState(db.rows, task.lines, order.lines, db.moves), entries)
    case Err(e) => Err(e)
    case Ok(st) =>
      var status := if AllPicked(st.lines) then TaskCompleted else task.status;
      Ok(db.(
        rows := st.rows,
        moves := st.moves,
        tasks := db.tasks[id := task.(lines := st.lines, status := status)],
        orders := db.orders[task.order := order.(lines := st.orderLines,
            status := PickedOrderStatus(st.orderLines, order.status))]))
  }

  // ---------- What a confirmation does ----------

  /** Sum of all entries submitted for task lines on key k. */
  function SubmittedOn(snapshot: seq<TaskLine>, entries: seq<PickEntry>, k: Key): real {
    if entries == [] then 0.0 else
    SubmittedOn(snapshot, entries[1..], k)
    + (if entries[0].line < |snapshot| && snapshot[entries[0].line].key == k then entries[0].qty else 0.0)
  }

  /** The last entry for task line i: the only one its picked quantity remembers. */
  function LastFor(entries: seq<PickEntry>, i: Id): Option<real> {
    if entries == [] then None else
    var later := LastFor(entries[1..], i);
    if later.Some? then later
    else if entries[0].line == i then Some(entries[0].qty)
    else None
  }

  lemma PickOneShifts(order: Id, snapshot: seq<TaskLine>, st: PickState, entry: PickEntry, f: Filter)
    requires |st.lines| == |snapshot|
    ensures var r := PickOne(order, snapshot, st, entry);
            r.Ok? ==>
              Total(r.value.rows, f) == Total(st.rows, f)
                - (if Matches(f, snapshot[entry.line].key, Reserved) then entry.qty else 0.0)
  {
    var r := PickOne(order, snapshot, st, entry);
    if r.Ok? {
      var at := Find(st.rows, snapshot[entry.line].key, Reserved).value;
      TotalOfUpdated(st.rows, at, st.rows[at].(qty := st.rows[at].qty - entry.qty), f);
    }
  }

  lemma PickOneKeepsRows(order: Id, snapshot: seq<TaskLine>, st: PickState, entry: PickEntry)
    requires |st.lines| == |snapshot| && UniqueRows(st.rows) && NonNegative(st.rows)
    ensures var r := PickOne(order, snapshot, st, entry);
            r.Ok? ==> UniqueRows(r.value.rows) && NonNegative(r.value.rows)
  {
    var r := PickOne(order, snapshot, st, entry);
    if r.Ok? {
      forall i, j | 0 <= i < j < |r.value.rows| ensures !SameIdentity(r.value.rows[i], r.value.rows[j]) {
        assert !SameIdentity(st.rows[i], st.rows[j]);
      }
    }
  }

  lemma PickOneKeepsBalance(order: Id, snapshot: seq<TaskLine>, st: PickState, entry: PickEntry, k: Key)
    requires |st.lines| == |snapshot| && InBalance(st.rows, st.moves, k)
    ensures var r := PickOne(order, snapshot, st, entry);
            r.Ok? ==> InBalance(r.value.rows, r.value.moves, k)
  {
    hide Total, Tally;
    if PickOne(order, snapshot, st, entry).Ok? {
      PickOneShifts(order, snapshot, st, entry, OnKey(k));
      TallyOfAppended(st.moves, PickMovement(order, snapshot[entry.line].key, entry.qty), NetInto(k));
    }
  }

  lemma PickOneKeepsStock(order: Id, snapshot: seq<TaskLine>, st: PickState, entry: PickEntry)
    requires |st.lines| == |snapshot| && StockOk(st.rows, st.moves)
    ensures var r := PickOne(order, snapshot, st, entry);
            r.Ok? ==> StockOk(r.value.rows, r.value.moves)
  {
    hide PickOne, InBalance, UniqueRows, NonNegative;
    var r := PickOne(order, snapshot, st, entry);
    PickOneKeepsRows(order, snapshot, st, entry);
    if r.Ok? {
      forall k ensures InBalance(r.value.rows, r.value.moves, k) {
        PickOneKeepsBalance(order, snapshot, st, entry, k);
      }
    }
  }

  /** The books stay balanced whatever is submitted: repeated lines and negative corrections included. */
  lemma {:induction false} PickAllKeepsStock(order: Id, snapshot: seq<TaskLine>, st: PickState, entries: seq<PickEntry>)
    requires |st.lines| == |snapshot| && StockOk(st.rows, st.moves)
    ensures var r := PickAll(order, snapshot, st, entries);
            r.Ok? ==> StockOk(r.value.rows, r.value.moves)
    decreases |entries|
  {
    if entries != [] {
      var next := PickOne(order, snapshot, st, entries[0]);
      PickOneKeepsStock(order, snapshot, st, entries[0]);
      if next.Ok? {
        PickAllKeepsStock(order, snapshot, next.value, entries[1..]);
      }
    }
  }

  /** Reserved stock of a key falls by what was submitted for it. */
  lemma {:induction false} PickAllTakesWhatIsSubmitted(
    order: Id, snapshot: seq<TaskLine>, st: PickState, entries: seq<PickEntry>, k: Key)
    requires |st.lines| == |snapshot|
    ensures var r := PickAll(order, snapshot, st, entries);
            r.Ok? ==> Total(st.rows, OnKeyStatus(k, Reserved)) - Total(r.value.rows, OnKeyStatus(k, Reserved))
                      == SubmittedOn(snapshot, entries, k)
    decreases |entries|
  {
    if entries != [] {
      var next := PickOne(order, snapshot, st, entries[0]);
      if next.Ok? {
        PickOneShifts(order, snapshot, st, entries[0], OnKeyStatus(k, Reserved));
        PickAllTakesWhatIsSubmitted(order, snapshot, next.value, entries[1..], k);
      }
    }
  }

  /** The movement lines take out of a key what was submitted for it. */
  lemma {:induction false} PickAllMovesWhatIsSubmitted(
    order: Id, snapshot: seq<TaskLine>, st: PickState, entries: seq<PickEntry>, k: Key)
    requires |st.lines| == |snapshot|
    ensures var r := PickAll(order, snapshot, st, entries);
            r.Ok? ==>
              Tally(r.value.moves, TakenOut(k)) - Tally(st.moves, TakenOut(k))
              == SubmittedOn(snapshot, entries, k)
    decreases |entries|
  {
    if entries != [] {
      var next := PickOne(order, snapshot, st, entries[0]);
      if next.Ok? {
        TallyOfAppended(st.moves, PickMovement(order, snapshot[entries[0].line].key, entries[0].qty), TakenOut(k));
        PickAllMovesWhatIsSubmitted(order, snapshot, next.value, entries[1..], k);
      }
    }
  }

  /** No other status moves. */
  lemma {:induction false} PickAllOnlyTakesReserved(
    order: Id, snapshot: seq<TaskLine>, st: PickState, entries: seq<PickEntry>, k: Key, s: StockStatus)
    requires |st.lines| == |snapshot| && s != Reserved
    ensures var r := PickAll(order, snapshot, st, entries);
            r.Ok? ==> Total(r.value.rows, OnKeyStatus(k, s)) == Total(st.rows, OnKeyStatus(k, s))
    decreases |entries|
  {
    if entries != [] {
      var next := PickOne(order, snapshot, st, entries[0]);
      if next.Ok? {
        PickOneShifts(order, snapshot, st, entries[0], OnKeyStatus(k, s));
        PickAllOnlyTakesReserved(order, snapshot, next.value, entries[1..], k, s);
      }
    }
  }

  /** Each task line ends at its picked quantity before the call plus the last entry submitted for it. */
  lemma {:induction false} PickAllRemembersTheLast(
    order: Id, snapshot: seq<TaskLine>, st: PickState, entries: seq<PickEntry>, i: Id)
    requires |st.lines| == |snapshot| && i < |snapshot|
    ensures var r := PickAll(order, snapshot, st, entries);
            r.Ok? ==>
              var last := LastFor(entries, i);
              && r.value.lines[i]
                  == (if last.Some? then st.lines[i].(picked := snapshot[i].picked + last.value) else st.lines[i])
              && (last.Some? ==> last.value <= snapshot[i].toPick - snapshot[i].picked)
    decreases |entries|
  {
    if entries != [] {
      var next := PickOne(order, snapshot, st, entries[0]);
      if next.Ok? {
        PickAllRemembersTheLast(order, snapshot, next.value, entries[1..], i);
      }
    }
  }

  // ---------- Picked quantities ----------

  ghost predicate NotOverPicked(lines: seq<TaskLine>) {
    forall i | 0 <= i < |lines| :: lines[i].picked <= lines[i].toPick
  }

  ghost predicate WithinBounds(lines: seq<TaskLine>) {
    forall i | 0 <= i < |lines| :: 0.0 <= lines[i].picked <= lines[i].toPick
  }

  /** A caller can see this before submitting: no line's last entry takes back more than was picked. */
  ghost predicate TakesBackNoMore(lines: seq<TaskLine>, entries: seq<PickEntry>) {
    forall i: Id | i < |lines| && LastFor(entries, i).Some? :: 0.0 <= lines[i].picked + LastFor(entries, i).value
  }

  lemma PickAllNeverOverPicks(order: Id, lines: seq<TaskLine>, st: PickState, entries: seq<PickEntry>)
    requires st.lines == lines && NotOverPicked(lines)
    ensures var r := PickAll(order, lines, st, entries);
            r.Ok? ==> NotOverPicked(r.value.lines)
  {
    var r := PickAll(order, lines, st, entries);
    if r.Ok? {
      forall i: Id | i < |lines| ensures r.value.lines[i].picked <= r.value.lines[i].toPick {
        PickAllRemembersTheLast(order, lines, st, entries, i);
      }
    }
  }

  /**
   * From lines within bounds, an accepted submission stays within bounds exactly when it takes back no more than was
   * picked.
   */
  lemma PickedWithinBoundsIff(order: Id, lines: seq<TaskLine>, st: PickState, entries: seq<PickEntry>)
    requires st.lines == lines && WithinBounds(lines)
    ensures var r := PickAll(order, lines, st, entries);
            r.Ok? ==> (WithinBounds(r.value.lines) <==> TakesBackNoMore(lines, entries))
  {
    var r := PickAll(order, lines, st, entries);
    if r.Ok? {
      forall i: Id | i < |lines|
        ensures 0.0 <= r.value.lines[i].picked <= r.value.lines[i].toPick
                <==> (LastFor(entries, i).Some? ==> 0.0 <= lines[i].picked + LastFor(entries, i).value)
      {
        PickAllRemembersTheLast(order, lines, st, entries, i);
      }
    }
  }

  // ---------- Picked quantities against stock ----------

  /** Rise of picked quantities over the task lines on key k. */
  function PickedRise(before: seq<TaskLine>, after: seq<TaskLine>, k: Key): real
    requires |before| == |after|
  {
    if before == [] then 0.0 else
    var n := |before| - 1;
    PickedRise(before[..n], after[..n], k) + (if before[n].key == k then after[n].picked - before[n].picked else 0.0)
  }

  /** What the entries overwritten by a later entry for the same task line sum to, over the task lines on key k. */
  function ForgottenOn(lines: seq<TaskLine>, entries: seq<PickEntry>, k: Key): real {
    if entries == [] then 0.0 else
    var i, later := entries[0].line, entries[1..];
    ForgottenOn(lines, later, k)
    + (if i < |lines| && lines[i].key == k && LastFor(later, i).Some? then entries[0].qty else 0.0)
  }

  /** Sum of the last entries of the task lines on key k. */
  function RememberedOn(lines: seq<TaskLine>, entries: seq<PickEntry>, k: Key): real {
    if lines == [] then 0.0 else
    var n := |lines| - 1;
    var last := LastFor(entries, n);
    RememberedOn(lines[..n], entries, k) + (if lines[n].key == k && last.Some? then last.value else 0.0)
  }

  lemma {:induction false} RememberedWithFirst(lines: seq<TaskLine>, entries: seq<PickEntry>, k: Key)
    requires entries != []
    ensures var i := entries[0].line;
            RememberedOn(lines, entries, k) == RememberedOn(lines, entries[1..], k)
              + (if i < |lines| && lines[i].key == k && LastFor(entries[1..], i).None? then entries[0].qty else 0.0)
  {
    if lines != [] {
      RememberedWithFirst(lines[..|lines| - 1], entries, k);
    }
  }

  /** Everything submitted on a key is either remembered or forgotten. */
  lemma {:induction false} RememberedOrForgotten(lines: seq<TaskLine>, entries: seq<PickEntry>, k: Key)
    ensures SubmittedOn(lines, entries, k) == RememberedOn(lines, entries, k) + ForgottenOn(lines, entries, k)
  {
    if entries == [] {
      NothingRemembered(lines, k);
    } else {
      RememberedOrForgotten(lines, entries[1..], k);
      RememberedWithFirst(lines, entries, k);
    }
  }

  lemma {:induction false} NothingRemembered(lines: seq<TaskLine>, k: Key)
    ensures RememberedOn(lines, [], k) == 0.0
  {
    if lines != [] {
      NothingRemembered(lines[..|lines| - 1], k);
    }
  }

  lemma {:induction false} RiseIsRemembered(
    lines: seq<TaskLine>, after: seq<TaskLine>, entries: seq<PickEntry>, k: Key)
    requires |lines| == |after|
    requires forall i: Id | i < |lines| ::
               after[i].picked == lines[i].picked
                   + (if LastFor(entries, i).Some? then LastFor(entries, i).value else 0.0)
    ensures PickedRise(lines, after, k) == RememberedOn(lines, entries, k)
  {
    if lines != [] {
      var n := |lines| - 1;
      RiseIsRemembered(lines[..n], after[..n], entries, k);
    }
  }

  /** On every key picked quantities fall behind what was submitted by what was forgotten. */
  lemma PickedFallsBehind(order: Id, lines: seq<TaskLine>, st: PickState, entries: seq<PickEntry>, k: Key)
    requires st.lines == lines
    ensures var r := PickAll(order, lines, st, entries);
            r.Ok? ==>
              PickedRise(lines, r.value.lines, k)
              == SubmittedOn(lines, entries, k) - ForgottenOn(lines, entries, k)
  {
    var r := PickAll(order, lines, st, entries);
    if r.Ok? {
      forall i: Id | i < |lines|
        ensures r.value.lines[i].picked
             == lines[i].picked + (if LastFor(entries, i).Some? then LastFor(entries, i).value else 0.0)
      {
        PickAllRemembersTheLast(order, lines, st, entries, i);
      }
      RiseIsRemembered(lines, r.value.lines, entries, k);
      RememberedOrForgotten(lines, entries, k);
    }
  }

  /**
   * Key by key, for every accepted submission: the rise in picked quantities equals the RESERVED drop, and equals
   * the movement quantity, exactly when the overwritten entries sum to nothing; otherwise it falls short by that sum.
   */
  lemma PickedAgreesWithStockIff(order: Id, lines: seq<TaskLine>, st: PickState, entries: seq<PickEntry>, k: Key)
    requires st.lines == lines
    ensures var r := PickAll(order, lines, st, entries);
            r.Ok? ==>
              var rise := PickedRise(lines, r.value.lines, k);
              var drop := Total(st.rows, OnKeyStatus(k, Reserved)) - Total(r.value.rows, OnKeyStatus(k, Reserved));
              var moved := Tally(r.value.moves, TakenOut(k)) - Tally(st.moves, TakenOut(k));
              && (rise == drop <==> ForgottenOn(lines, entries, k) == 0.0)
              && (rise == moved <==> ForgottenOn(lines, entries, k) == 0.0)
              && drop == moved == rise + ForgottenOn(lines, entries, k)
  {
    PickAllTakesWhatIsSubmitted(order, lines, st, entries, k);
    PickAllMovesWhatIsSubmitted(order, lines, st, entries, k);
    PickedFallsBehind(order, lines, st, entries, k);
  }

  ghost predicate DistinctLines(entries: seq<PickEntry>) {
    forall a, b | 0 <= a < b < |entries| :: entries[a].line != entries[b].line
  }

  lemma {:induction false} UnnamedHasNoLast(entries: seq<PickEntry>, i: Id)
    requires forall a | 0 <= a < |entries| :: entries[a].line != i
    ensures LastFor(entries, i).None?
  {
    if entries != [] {
      assert forall a | 0 <= a < |entries[1..]| :: entries[1..][a] == entries[a + 1];
      UnnamedHasNoLast(entries[1..], i);
    }
  }

  /** A submission that names each task line once forgets nothing. */
  lemma {:induction false} DistinctLinesForgetNothing(lines: seq<TaskLine>, entries: seq<PickEntry>, k: Key)
    requires DistinctLines(entries)
    ensures ForgottenOn(lines, entries, k) == 0.0
  {
    if entries != [] {
      var later := entries[1..];
      assert forall a | 0 <= a < |later| :: later[a] == entries[a + 1] && later[a].line != entries[0].line;
      UnnamedHasNoLast(later, entries[0].line);
      DistinctLinesForgetNothing(lines, later, k);
    }
  }

  /** With each line submitted once: reserved drop, rise in picked and movement quantity are one number, key by key. */
  lemma DistinctLinesAgreeWithStock(order: Id, lines: seq<TaskLine>, st: PickState, entries: seq<PickEntry>, k: Key)
    requires st.lines == lines && DistinctLines(entries)
    ensures var r := PickAll(order, lines, st, entries);
            r.Ok? ==>
              var rise := PickedRise(lines, r.value.lines, k);
              && rise == Total(st.rows, OnKeyStatus(k, Reserved)) - Total(r.value.rows, OnKeyStatus(k, Reserved))
              && rise == Tally(r.value.moves, TakenOut(k)) - Tally(st.moves, TakenOut(k))
  {
    PickedAgreesWithStockIff(order, lines, st, entries, k);
    DistinctLinesForgetNothing(lines, entries, k);
  }
}
