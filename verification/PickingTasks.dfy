/** What a new picking task asks for, against the reserved stock it is made from; and what a confirmation accepts. */
module PickingTasks {
  import opened Wrappers
  import opened Domain
  import opened Stock
  import opened Picking
  import opened Machine
  import opened RunBounds

  // ---------- The lines of a new task ----------

  /** Sum over the task lines of an order line on key k. */
  function ToPickOn(lines: seq<TaskLine>, orderLine: Id, k: Key): real {
    if lines == [] then 0.0 else
    var n := |lines| - 1;
    ToPickOn(lines[..n], orderLine, k)
    + (if lines[n].orderLine == orderLine && lines[n].key == k then lines[n].toPick else 0.0)
  }

  lemma {:induction false} ToPickOfConcatenation(a: seq<TaskLine>, b: seq<TaskLine>, orderLine: Id, k: Key)
    ensures ToPickOn(a + b, orderLine, k) == ToPickOn(a, orderLine, k) + ToPickOn(b, orderLine, k)
  {
    if b == [] {
      assert a + b == a;
    } else {
      var n := |b| - 1;
      assert (a + b)[..|a + b| - 1] == a + b[..n];
      ToPickOfConcatenation(a, b[..n], orderLine, k);
    }
  }

  lemma {:induction false} NothingOfOtherLines(lines: seq<TaskLine>, orderLine: Id, k: Key)
    requires forall i | 0 <= i < |lines| :: lines[i].orderLine != orderLine
    ensures ToPickOn(lines, orderLine, k) == 0.0
  {
    if lines != [] {
      NothingOfOtherLines(lines[..|lines| - 1], orderLine, k);
    }
  }

  /** Stock of the key counts for an order line of this product and warehouse. */
  predicate Concerned(cat: Catalog, product: Id, warehouse: Id, k: Key) {
    k.product == product && k.location in cat.locations && cat.locations[k.location] == warehouse
  }

  function ReservedFor(cat: Catalog, rows: seq<Row>, product: Id, warehouse: Id, k: Key): real {
    if Concerned(cat, product, warehouse, k) then Total(rows, OnKeyStatus(k, Reserved)) else 0.0
  }

  lemma {:induction false} ReservationsAreListed(
      cat: Catalog, rows: seq<Row>, product: Id, warehouse: Id, orderLine: Id, k: Key)
    requires NonNegative(rows)
    ensures ToPickOn(LinesForReservations(cat, rows, product, warehouse, orderLine), orderLine, k)
         == ReservedFor(cat, rows, product, warehouse, k)
  {
    if rows != [] {
      var n := |rows| - 1;
      ReservationsAreListed(cat, rows[..n], product, warehouse, orderLine, k);
      var earlier := LinesForReservations(cat, rows[..n], product, warehouse, orderLine);
      ToPickOfConcatenation(earlier, [TaskLine(orderLine, rows[n].key, rows[n].qty, 0.0)], orderLine, k);
      assert [TaskLine(orderLine, rows[n].key, rows[n].qty, 0.0)][..0] == [];
    }
  }

  lemma {:induction false} OrderLinesAreServed(
      cat: Catalog, rows: seq<Row>, warehouse: Id, lines: seq<OrderLine>, orderLine: Id, k: Key)
    requires NonNegative(rows)
    ensures ToPickOn(LinesForOrder(cat, rows, warehouse, lines), orderLine, k)
         == if orderLine < |lines| then ReservedFor(cat, rows, lines[orderLine].product, warehouse, k) else 0.0
  {
    hide LinesForReservations, Total;
    if lines != [] {
      var n := |lines| - 1;
      var earlier := LinesForOrder(cat, rows, warehouse, lines[..n]);
      var last := LinesForReservations(cat, rows, lines[n].product, warehouse, n);
      OrderLinesAreServed(cat, rows, warehouse, lines[..n], orderLine, k);
      ToPickOfConcatenation(earlier, last, orderLine, k);
      if orderLine == n {
        ReservationsAreListed(cat, rows, lines[n].product, warehouse, n, k);
      } else {
        NothingOfOtherLines(last, orderLine, k);
      }
    }
  }

  /** No order line has two task lines on one key. */
  ghost predicate OneLinePerKey(lines: seq<TaskLine>) {
    forall i, j | 0 <= i < j < |lines| :: !(lines[i].orderLine == lines[j].orderLine && lines[i].key == lines[j].key)
  }

  /** Every line stands for a row. */
  ghost predicate FromRows(rows: seq<Row>, lines: seq<TaskLine>) {
    forall i | 0 <= i < |lines| :: HasReserved(rows, lines[i].key)
  }

  ghost predicate HasReserved(rows: seq<Row>, k: Key) {
    exists j | 0 <= j < |rows| :: rows[j].key == k && rows[j].status == Reserved
  }

  lemma {:induction false} ReservationsAreDistinct(
      cat: Catalog, rows: seq<Row>, product: Id, warehouse: Id, orderLine: Id)
    requires UniqueRows(rows)
    ensures var lines := LinesForReservations(cat, rows, product, warehouse, orderLine);
            OneLinePerKey(lines) && FromRows(rows, lines)
  {
    if rows != [] {
      var n := |rows| - 1;
      ReservationsAreDistinct(cat, rows[..n], product, warehouse, orderLine);
      var earlier := LinesForReservations(cat, rows[..n], product, warehouse, orderLine);
      forall i | 0 <= i < |earlier|
        ensures exists j | 0 <= j < n :: rows[j].key == earlier[i].key && rows[j].status == Reserved
      {
        assert HasReserved(rows[..n], earlier[i].key);
        var j :| 0 <= j < |rows[..n]| && rows[..n][j].key == earlier[i].key && rows[..n][j].status == Reserved;
        assert rows[j] == rows[..n][j];
      }
      forall i | 0 <= i < |earlier| && rows[n].status == Reserved ensures earlier[i].key != rows[n].key {
        var j :| 0 <= j < n && rows[j].key == earlier[i].key && rows[j].status == Reserved;
        assert !SameIdentity(rows[j], rows[n]);
      }
    }
  }

  lemma {:induction false} OrderLinesAreDistinct(cat: Catalog, rows: seq<Row>, warehouse: Id, lines: seq<OrderLine>)
    requires UniqueRows(rows)
    ensures OneLinePerKey(LinesForOrder(cat, rows, warehouse, lines))
  {
    hide LinesForReservations;
    if lines != [] {
      var n := |lines| - 1;
      OrderLinesAreDistinct(cat, rows, warehouse, lines[..n]);
      ReservationsAreDistinct(cat, rows, lines[n].product, warehouse, n);
    }
  }

  /**
   * A task is made exactly for an allocated order. For every order line and key it asks for all stock reserved on the
   * key if that is of the line's product and in the order's warehouse, and for nothing otherwise, in one line per key
   * with nothing picked yet.
   */
  lemma TaskAsksForReservedStock(cat: Catalog, db: Db, id: Id, hasPicker: bool)
    requires UniqueRows(db.rows) && NonNegative(db.rows)
    ensures var r := CreateTask(cat, db, id, hasPicker);
            && (r == Err(NotFound) <==> |db.orders| <= id)
            && (r.Ok? <==>
                  && id < |db.orders|
                  && (db.orders[id].status == FullyAllocated || db.orders[id].status == PartiallyAllocated))
            && (r.Ok? ==>
                  var order, task := db.orders[id], r.value.tasks[|db.tasks|];
                  && r.value == db.(tasks := db.tasks + [task], orders := db.orders[id := order.(status := InPicking)])
                  && task.order == id && task.warehouse == order.warehouse
                  && task.status == (if hasPicker then TaskAssigned else TaskCreated)
                  && OneLinePerKey(task.lines)
                  && (forall i | 0 <= i < |task.lines| ::
                        task.lines[i].orderLine < |order.lines| && task.lines[i].picked == 0.0 < task.lines[i].toPick)
                  && (forall l: Id, k | l < |order.lines| :: ToPickOn(task.lines, l, k)
                        == if k.product == order.lines[l].product
                              && k.location in cat.locations && cat.locations[k.location] == order.warehouse
                           then Total(db.rows, OnKeyStatus(k, Reserved)) else 0.0))
  {
    hide LinesForOrder, ToPickOn, Total;
    var r := CreateTask(cat, db, id, hasPicker);
    if r.Ok? {
      var order := db.orders[id];
      OrderLinesAreDistinct(cat, db.rows, order.warehouse, order.lines);
      forall l: Id, k | l < |order.lines|
        ensures ToPickOn(r.value.tasks[|db.tasks|].lines, l, k)
             == ReservedFor(cat, db.rows, order.lines[l].product, order.warehouse, k)
      {
        OrderLinesAreServed(cat, db.rows, order.warehouse, order.lines, l, k);
      }
    }
  }

  // ---------- When a confirmation is accepted ----------

  /**
   * The n-th entry names a line of the task for a line of the order, asks for no more than is left to pick, and for
   * no more than the reserved row holds after the entries before it.
   */
  ghost predicate EntryFits(task: Task, orderLines: nat, rows: seq<Row>, entries: seq<PickEntry>, n: nat)
    requires n < |entries|
  {
    && entries[n].line < |task.lines|
    && var line := task.lines[entries[n].line];
       && line.orderLine < orderLines
       && entries[n].qty <= line.toPick - line.picked
       && HasReserved(rows, line.key)
       && SubmittedOn(task.lines, entries[..n], line.key) + entries[n].qty
          <= Total(rows, OnKeyStatus(line.key, Reserved))
  }

  ghost predicate AllFit(task: Task, orderLines: nat, rows: seq<Row>, entries: seq<PickEntry>) {
    forall n | 0 <= n < |entries| :: EntryFits(task, orderLines, rows, entries, n)
  }

  lemma {:induction false} SubmittedFirst(snapshot: seq<TaskLine>, entries: seq<PickEntry>, k: Key)
    requires entries != []
    ensures SubmittedOn(snapshot, entries, k) == SubmittedOn(snapshot, [entries[0]], k)
                                                 + SubmittedOn(snapshot, entries[1..], k)
  {
    assert [entries[0]][1..] == [];
  }

  /** One entry: its reserved row exists and holds it, and afterwards holds that much less. */
  lemma PickOneFits(task: Task, st: PickState, entry: PickEntry)
    requires |st.lines| == |task.lines| && UniqueRows(st.rows)
    ensures PickOne(task.order, task.lines, st, entry).Ok?
            <==> EntryFits(task, |st.orderLines|, st.rows, [entry], 0)
  {
    hide Total;
    assert SubmittedOn(task.lines, [entry][..0], Key(0, None, 0, "")) == 0.0;
    if entry.line < |task.lines| {
      var key := task.lines[entry.line].key;
      assert [entry][..0] == [];
      FoundRowIsTheGroup(st.rows, key, Reserved);
    }
  }

  lemma RowsKeepIdentity(task: Task, st: PickState, entry: PickEntry, k: Key)
    requires |st.lines| == |task.lines|
    ensures var r := PickOne(task.order, task.lines, st, entry);
            r.Ok? ==> (HasReserved(st.rows, k) <==> HasReserved(r.value.rows, k))
  {
    hide Find;
    var r := PickOne(task.order, task.lines, st, entry);
    if r.Ok? {
      assert |r.value.rows| == |st.rows|;
      assert forall j | 0 <= j < |st.rows| ::
        r.value.rows[j].key == st.rows[j].key && r.value.rows[j].status == st.rows[j].status;
    }
  }

  lemma LaterEntryFits(task: Task, st: PickState, entries: seq<PickEntry>, n: nat)
    requires |st.lines| == |task.lines| && UniqueRows(st.rows) && 0 < n < |entries|
    requires PickOne(task.order, task.lines, st, entries[0]).Ok?
    ensures var next := PickOne(task.order, task.lines, st, entries[0]).value;
            EntryFits(task, |st.orderLines|, st.rows, entries, n)
            <==> EntryFits(task, |next.orderLines|, next.rows, entries[1..], n - 1)
  {
    hide Total, SubmittedOn, PickOne, HasReserved;
    assert entries[1..][n - 1] == entries[n];
    if entries[n].line < |task.lines| {
      var key := task.lines[entries[n].line].key;
      RowsKeepIdentity(task, st, entries[0], key);
      assert entries[..n][1..] == entries[1..][..n - 1] && entries[..n][0] == entries[0];
      SubmittedFirst(task.lines, entries[..n], key);
      OneEntryTakes(task, st, entries[0], key);
    }
  }

  lemma OneEntryTakes(task: Task, st: PickState, entry: PickEntry, k: Key)
    requires |st.lines| == |task.lines| && UniqueRows(st.rows) && PickOne(task.order, task.lines, st, entry).Ok?
    ensures var next := PickOne(task.order, task.lines, st, entry).value;
            && |next.orderLines| == |st.orderLines|
            && Total(next.rows, OnKeyStatus(k, Reserved))
               == Total(st.rows, OnKeyStatus(k, Reserved)) - SubmittedOn(task.lines, [entry], k)
  {
    PickOneShifts(task.order, task.lines, st, entry, OnKeyStatus(k, Reserved));
    assert [entry][1..] == [];
  }

  lemma {:induction false} PickAllAcceptsIff(task: Task, st: PickState, entries: seq<PickEntry>)
    requires |st.lines| == |task.lines| && UniqueRows(st.rows)
    ensures PickAll(task.order, task.lines, st, entries).Ok?
            <==> AllFit(task, |st.orderLines|, st.rows, entries)
    decreases |entries|
  {
    hide PickOne, EntryFits;
    if entries != [] {
      var rest := entries[1..];
      var next := PickOne(task.order, task.lines, st, entries[0]);
      PickOneFits(task, st, entries[0]);
      FirstEntryFits(task, |st.orderLines|, st.rows, entries);
      if next.Ok? {
        PickOneKeepsUnique(task, st, entries[0]);
        PickAllAcceptsIff(task, next.value, rest);
        forall n | 0 < n < |entries|
          ensures EntryFits(task, |st.orderLines|, st.rows, entries, n)
              <==> EntryFits(task, |next.value.orderLines|, next.value.rows, rest, n - 1)
        {
          LaterEntryFits(task, st, entries, n);
        }
        if AllFit(task, |st.orderLines|, st.rows, entries) {
          forall m | 0 <= m < |rest| ensures EntryFits(task, |next.value.orderLines|, next.value.rows, rest, m) {
            assert EntryFits(task, |st.orderLines|, st.rows, entries, m + 1);
          }
        }
        if AllFit(task, |next.value.orderLines|, next.value.rows, rest) {
          forall n | 0 <= n < |entries| ensures EntryFits(task, |st.orderLines|, st.rows, entries, n) {
            assert n > 0 ==> EntryFits(task, |next.value.orderLines|, next.value.rows, rest, n - 1);
          }
        }
      }
    }
  }

  lemma FirstEntryFits(task: Task, orderLines: nat, rows: seq<Row>, entries: seq<PickEntry>)
    requires entries != []
    ensures EntryFits(task, orderLines, rows, entries, 0) <==> EntryFits(task, orderLines, rows, [entries[0]], 0)
  {
    assert entries[..0] == [entries[0]][..0];
  }

  lemma PickOneKeepsUnique(task: Task, st: PickState, entry: PickEntry)
    requires |st.lines| == |task.lines| && UniqueRows(st.rows)
    ensures var r := PickOne(task.order, task.lines, st, entry);
            r.Ok? ==> UniqueRows(r.value.rows)
  {
    hide Find;
    var r := PickOne(task.order, task.lines, st, entry);
    if r.Ok? {
      forall i, j | 0 <= i < j < |r.value.rows| ensures !SameIdentity(r.value.rows[i], r.value.rows[j]) {
        assert !SameIdentity(st.rows[i], st.rows[j]);
      }
    }
  }

  /** A confirmation is accepted exactly for a started task whose entries fit, one after the other. */
  lemma ConfirmAcceptsIff(db: Db, id: Id, entries: seq<PickEntry>)
    requires UniqueRows(db.rows)
    ensures ConfirmTask(db, id, entries).Ok? <==>
              && id < |db.tasks| && db.tasks[id].order < |db.orders| && db.tasks[id].status == TaskInProgress
              && AllFit(db.tasks[id], |db.orders[db.tasks[id].order].lines|, db.rows, entries)
  {
    hide PickAll, AllFit;
    if id < |db.tasks| && db.tasks[id].order < |db.orders| {
      var task := db.tasks[id];
      PickAllAcceptsIff(task, PickState(db.rows, task.lines, db.orders[task.order].lines, db.moves), entries);
    }
  }

  // ---------- What a confirmation leaves on the task and the order ----------

  /** What task line i is left with: its picked quantity before the call plus the last entry for it. */
  function PickedAfter(task: Task, entries: seq<PickEntry>, i: Id): real
    requires i < |task.lines|
  {
    task.lines[i].picked + (if LastFor(entries, i).Some? then LastFor(entries, i).value else 0.0)
  }

  /** What order line l is left with: what the last entry for one of its task lines says. */
  function OrderedPicked(task: Task, order: Order, entries: seq<PickEntry>, l: Id): real
    requires l < |order.lines|
  {
    var left := LeftPicked(task.lines, entries, l);
    if left.Some? then left.value else order.lines[l].pickedQty
  }

  /**
   * An accepted confirmation completes the task exactly when every line is picked in full, and makes the order picked
   * exactly when every order line is, partially picked when that is not so but something is picked, and leaves its
   * status otherwise; nothing else of task and order changes.
   */
  lemma ConfirmationSetsStatus(db: Db, id: Id, entries: seq<PickEntry>)
    ensures var r := ConfirmTask(db, id, entries);
            r.Ok? ==>
              var task, order := db.tasks[id], db.orders[db.tasks[id].order];
              var task', order' := r.value.tasks[id], r.value.orders[task.order];
              && |task'.lines| == |task.lines| && |order'.lines| == |order.lines|
              && (forall i: Id | i < |task.lines| ::
                    task'.lines[i] == task.lines[i].(picked := PickedAfter(task, entries, i)))
              && (forall l: Id | l < |order.lines| ::
                    order'.lines[l] == order.lines[l].(pickedQty := OrderedPicked(task, order, entries, l)))
              && task' == task.(lines := task'.lines, status := task'.status)
              && order' == order.(lines := order'.lines, status := order'.status)
              && (task'.status == TaskCompleted <==>
                    forall i: Id | i < |task.lines| :: PickedAfter(task, entries, i) == task.lines[i].toPick)
              && (task'.status != TaskCompleted ==> task'.status == TaskInProgress)
              && (if forall l: Id | l < |order.lines| ::
                    OrderedPicked(task, order, entries, l) == order.lines[l].requestedQty
                  then order'.status == Picked
                  else if exists l: Id | l < |order.lines| :: 0.0 < OrderedPicked(task, order, entries, l)
                  then order'.status == PartiallyPicked
                  else order'.status == order.status)
  {
    hide PickAll, LastFor, LeftPicked;
    var r := ConfirmTask(db, id, entries);
    if r.Ok? {
      var task, order := db.tasks[id], db.orders[db.tasks[id].order];
      var st := PickState(db.rows, task.lines, order.lines, db.moves);
      forall i: Id | i < |task.lines|
        ensures r.value.tasks[id].lines[i] == task.lines[i].(picked := PickedAfter(task, entries, i))
      {
        PickAllRemembersTheLast(task.order, task.lines, st, entries, i);
      }
      PicksLeaveAllocations(task.order, task.lines, st, entries);
      forall l: Id | l < |order.lines|
        ensures r.value.orders[task.order].lines[l]
             == order.lines[l].(pickedQty := OrderedPicked(task, order, entries, l))
      {
        PicksOverwriteOrderLines(task.order, task.lines, st, entries, l);
        var now := r.value.orders[task.order].lines[l];
        assert now.(pickedQty := order.lines[l].pickedQty) == order.lines[l];
      }
    }
  }
}
