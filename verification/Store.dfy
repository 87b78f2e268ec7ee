/** The services as they run: loops over working copies of the tables, saved together when nothing was thrown. */
module Store {
  import opened Wrappers
  import opened Domain
  import opened Allocation
  import opened Release
  import opened Picking
  import opened Inbound
  import opened Counting
  import opened Shipping
  import opened Machine
  import opened Tables

  /** A call either fails and changes nothing, or leaves exactly the specified tables. */
  ghost predicate Settled(spec: Result<Db, Error>, before: Db, after: Db, failure: Option<Error>) {
    match spec
    case Ok(db) => failure.None? && after == db
    case Err(e) => failure == Some(e) && after == before
  }

  ghost function Prefixed(done: seq<CountLine>, rest: Result<seq<CountLine>, Error>): Result<seq<CountLine>, Error> {
    if rest.Ok? then Ok(done + rest.value) else rest
  }

  lemma PrefixedByNothing(r: Result<seq<CountLine>, Error>)
    ensures Prefixed([], r) == r
  {
    assert r.Ok? ==> [] + r.value == r.value;
  }

  /** Building one more line moves it from the rest to what is done; its error is the error of the whole. */
  lemma OneMorePrefixed(cat: Catalog, db: Db, warehouse: Id, inputs: seq<CountInput>, done: seq<CountLine>)
    requires inputs != []
    ensures var line := NewCountLine(cat, db, warehouse, inputs[0]);
            Prefixed(done, NewCountLines(cat, db, warehouse, inputs))
            == match line
               case Err(e) => Err(e)
               case Ok(l) => Prefixed(done + [l], NewCountLines(cat, db, warehouse, inputs[1..]))
  {
    hide NewCountLine;
    var line, rest := NewCountLine(cat, db, warehouse, inputs[0]), NewCountLines(cat, db, warehouse, inputs[1..]);
    if line.Ok? && rest.Ok? {
      assert done + ([line.value] + rest.value) == (done + [line.value]) + rest.value;
    }
  }

  class TenantStore {
    const cat: Catalog
    var rows: seq<Row>
    var moves: seq<Movement>
    var batches: seq<Batch>
    var receipts: seq<Receipt>
    var orders: seq<Order>
    var tasks: seq<Task>
    var counts: seq<CountTask>
    var units: seq<HandlingUnit>
    var shipments: seq<Shipment>

    constructor (cat: Catalog)
      ensures this.cat == cat && State() == EMPTY_DB
    {
      this.cat := cat;
      rows, moves, batches, receipts, orders, tasks, counts, units, shipments := [], [], [], [], [], [], [], [], [];
    }

    ghost function State(): Db
      reads this
    {
      Db(rows, moves, batches, receipts, orders, tasks, counts, units, shipments)
    }

    // ---------- Inbound ----------

    method OpenReceipt(warehouse: Id) returns (failure: Option<Error>)
      modifies this`receipts
      ensures Settled(CreateReceipt(cat, old(State()), warehouse), old(State()), State(), failure)
    {
      if warehouse !in cat.warehouses { return Some(NotFound); }
      receipts := receipts + [Receipt(warehouse, Draft, [])];
      return None;
    }

    method AddReceiptLine(id: Id, product: Id, expected: real, uom: string, code: Option<string>, expiry: Option<int>)
      returns (failure: Option<Error>)
      modifies this`receipts
      ensures Settled(AddLine(cat, old(State()), id, product, expected, uom, code, expiry), old(State()), State(),
          failure)
    {
      if expected < 0.0001 { return Some(BadRequest); }
      if id >= |receipts| { return Some(NotFound); }
      var receipt := receipts[id];
      if receipt.status != Draft { return Some(BadRequest); }
      if product !in cat.products { return Some(NotFound); }
      if cat.products[product].requiresBatch && Blank(code) { return Some(BadRequest); }
      if cat.products[product].requiresExpiry && expiry.None? { return Some(BadRequest); }
      var line := ReceiptLine(product, expected, 0.0, uom, code, expiry, None);
      receipts := receipts[id := receipt.(lines := receipt.lines + [line])];
      return None;
    }

    /** The set of line ids seen so far detects a repeated line. */
    static method FindRepeatedLine(payloads: seq<Payload>) returns (repeated: bool)
      ensures repeated <==> RepeatsLine(payloads)
    {
      var seen: set<Id> := {};
      for i := 0 to |payloads|
        invariant forall id :: id in seen <==> exists j | 0 <= j < i :: payloads[j].line == id
        invariant !RepeatsLine(payloads[..i])
      {
        if payloads[i].line in seen { return true; }
        seen := seen + {payloads[i].line};
      }
      assert payloads[..|payloads|] == payloads;
      return false;
    }

    method Confirm(id: Id, location: Id, submitted: Option<seq<Payload>>) returns (failure: Option<Error>)
      modifies this
      ensures Settled(ConfirmReceipt(cat, old(State()), id, location, submitted), old(State()), State(), failure)
    {
      hide ReceiveOne;
      if id >= |receipts| { return Some(NotFound); }
      var receipt := receipts[id];
      if receipt.status != Draft && receipt.status != PartiallyReceived { return Some(BadRequest); }
      if receipt.lines == [] { return Some(BadRequest); }
      if location !in cat.locations { return Some(NotFound); }
      if cat.locations[location] != receipt.warehouse { return Some(BadRequest); }
      if submitted.Some? {
        if submitted.value == [] { return Some(BadRequest); }
        var repeated := FindRepeatedLine(submitted.value);
        if repeated { return Some(BadRequest); }
      }
      var payloads := PayloadsFor(receipt.lines, submitted);
      var tx := ReceiveState(rows, batches, receipt.lines, moves);
      var i := 0;
      while i < |payloads|
        invariant State() == old(State())
        invariant 0 <= i <= |payloads| && |tx.lines| == |receipt.lines|
        invariant ReceiveAll(cat, id, receipt.warehouse, location, receipt.lines, tx, payloads[i..])
               == ReceiveAll(cat, id, receipt.warehouse, location, receipt.lines,
                             ReceiveState(rows, batches, receipt.lines, moves), payloads)
      {
        var next := ReceivePayload(cat, id, receipt.warehouse, location, receipt.lines, tx, payloads[i]);
        if next.Err? { return Some(next.error); }
        tx := next.value;
        i := i + 1;
      }
      rows, batches, moves := tx.rows, tx.batches, tx.moves;
      receipts := receipts[id := receipt.(lines := tx.lines, status := ReceivedStatus(tx.lines))];
      return None;
    }

    method ReceiveSingleLine(
        id: Id, at: Id, quantity: real, code: Option<string>, location: Option<Id>) returns (failure: Option<Error>)
      modifies this
      ensures Settled(ReceiveLine(cat, old(State()), id, at, quantity, code, location), old(State()), State(), failure)
    {
      hide TopUp;
      if id >= |receipts| { return Some(NotFound); }
      var receipt := receipts[id];
      if receipt.status == Received || receipt.status == Cancelled { return Some(BadRequest); }
      if at >= |receipt.lines| { return Some(NotFound); }
      if location.None? { return Some(BadRequest); }
      if location.value !in cat.locations
          || cat.locations[location.value] != receipt.warehouse { return Some(NotFound); }
      var line := receipt.lines[at];
      var total := line.received + quantity;
      if line.expected < total { total := line.expected; }
      var next := FillLine(
        cat, id, receipt.warehouse, location.value, ReceiveState(rows, batches, receipt.lines, moves), at, total, code);
      if next.Err? { return Some(next.error); }
      var tx := next.value;
      rows, batches, moves := tx.rows, tx.batches, tx.moves;
      receipts := receipts[id := receipt.(lines := tx.lines, status := ReceivedStatus(tx.lines))];
      return None;
    }

    method Complete(id: Id) returns (failure: Option<Error>)
      modifies this`receipts
      ensures Settled(CompleteReceipt(old(State()), id), old(State()), State(), failure)
    {
      if id >= |receipts| { return Some(NotFound); }
      if !AllReceived(receipts[id].lines) { return Some(BadRequest); }
      receipts := receipts[id := receipts[id].(status := Received)];
      return None;
    }

    // ---------- Adjustments and cycle counts ----------

    method AdjustInventory(
        warehouse: Id, product: Id, batch: Option<Id>, location: Id, uom: Option<string>, newQty: real)
      returns (failure: Option<Error>)
      modifies this`rows, this`moves
      ensures Settled(Adjust(cat, old(State()), warehouse, product, batch, location, uom, newQty), old(State()),
          State(), failure)
    {
      if product !in cat.products { return Some(NotFound); }
      var k := Key(product, batch, location, if uom.Some? then uom.value else cat.products[product].defaultUom);
      var adjusted := ApplyAdjustment(cat, batches, rows, moves, warehouse, k, newQty, NoRef);
      if adjusted.Err? { return Some(adjusted.error); }
      rows, moves := adjusted.value.0, adjusted.value.1;
      return None;
    }

    /** The set of combinations seen so far detects a repeated key. */
    static method FindRepeatedKey(inputs: seq<CountInput>) returns (repeated: bool)
      ensures repeated <==> RepeatsKey(inputs)
    {
      var seen: set<Key> := {};
      for i := 0 to |inputs|
        invariant forall k :: k in seen <==> exists j | 0 <= j < i :: inputs[j].key == k
        invariant !RepeatsKey(inputs[..i])
      {
        if inputs[i].key in seen { return true; }
        seen := seen + {inputs[i].key};
      }
      assert inputs[..|inputs|] == inputs;
      return false;
    }

    method AddLinesToCount(id: Id, inputs: seq<CountInput>) returns (failure: Option<Error>)
      modifies this`counts
      ensures Settled(AddCountLines(cat, old(State()), id, inputs), old(State()), State(), failure)
    {
      if id >= |counts| { return Some(NotFound); }
      var task := counts[id];
      if task.status != CountPending && task.status != CountInProgress { return Some(BadRequest); }
      var repeated := FindRepeatedKey(inputs);
      if repeated { return Some(BadRequest); }
      if AlreadyListed(task.lines, inputs) { return Some(BadRequest); }
      var lines := BuildCountLines(task.warehouse, inputs);
      if lines.Err? { return Some(lines.error); }
      counts := counts[id := task.(lines := task.lines + lines.value)];
      return None;
    }

    method BuildCountLines(warehouse: Id, inputs: seq<CountInput>) returns (r: Result<seq<CountLine>, Error>)
      ensures r == NewCountLines(cat, State(), warehouse, inputs)
    {
      hide NewCountLine;
      var linesToCreate: seq<CountLine> := [];
      var i := 0;
      PrefixedByNothing(NewCountLines(cat, State(), warehouse, inputs));
      while i < |inputs|
        invariant 0 <= i <= |inputs|
        invariant Prefixed(linesToCreate, NewCountLines(cat, State(), warehouse, inputs[i..]))
               == NewCountLines(cat, State(), warehouse, inputs)
      {
        var line := BuildCountLine(cat, batches, rows, State(), warehouse, inputs[i]);
        OneMorePrefixed(cat, State(), warehouse, inputs[i..], linesToCreate);
        assert inputs[i..][1..] == inputs[i + 1..];
        if line.Err? { return Err(line.error); }
        linesToCreate := linesToCreate + [line.value];
        i := i + 1;
      }
      assert linesToCreate + [] == linesToCreate;
      return Ok(linesToCreate);
    }

    method OpenCount(warehouse: Id, inputs: seq<CountInput>) returns (failure: Option<Error>)
      modifies this`counts
      ensures Settled(CreateCount(cat, old(State()), warehouse, inputs), old(State()), State(), failure)
    {
      if warehouse !in cat.warehouses { return Some(NotFound); }
      if !cat.countingEnabled { return Some(BadRequest); }
      var before := counts;
      counts := counts + [CountTask(warehouse, CountPending, [])];
      var lines := if inputs != [] then inputs
          else if warehouse in cat.suggestCounts then Suggested(cat, rows, warehouse) else [];
      if lines == [] { return None; }
      failure := AddLinesToCount(|before|, lines);
      if failure.Some? { counts := before; }
    }

    method Start(id: Id) returns (failure: Option<Error>)
      modifies this`counts
      ensures Settled(StartCount(old(State()), id), old(State()), State(), failure)
    {
      if id >= |counts| { return Some(NotFound); }
      if counts[id].status != CountPending { return Some(BadRequest); }
      counts := counts[id := counts[id].(status := CountInProgress)];
      return None;
    }

    method Review(id: Id, approve: bool) returns (failure: Option<Error>)
      modifies this`counts
      ensures Settled(ReviewCount(old(State()), id, approve), old(State()), State(), failure)
    {
      if approve { return None; }
      if id >= |counts| { return Some(NotFound); }
      counts := counts[id := counts[id].(status := CountCancelled)];
      return None;
    }

    method Submit(id: Id, entries: seq<CountEntry>) returns (failure: Option<Error>)
      modifies this
      ensures Settled(SubmitCount(cat, old(State()), id, entries), old(State()), State(), failure)
    {
      hide AdjustStock;
      if id >= |counts| { return Some(NotFound); }
      var task := counts[id];
      if task.status != CountInProgress { return Some(BadRequest); }
      if MissesPending(task.lines, entries) { return Some(BadRequest); }

      var seen: set<Id> := {};
      var lines := task.lines;
      var i := 0;
      while i < |entries|
        invariant 0 <= i <= |entries| && |lines| == |task.lines|
        invariant MarkAll(lines, entries[i..], seen) == MarkAll(task.lines, entries, {})
      {
        var at := entries[i].line;
        if at in seen { return Some(BadRequest); }
        if at >= |lines| { return Some(NotFound); }
        if lines[at].counted.Some? { return Some(BadRequest); }
        var difference := entries[i].counted - lines[at].expected;
        lines := lines[at := CountLine(lines[at].key, lines[at].expected, Some(entries[i].counted), Some(difference))];
        seen := seen + {at};
        i := i + 1;
      }

      var tx, log := rows, moves;
      i := 0;
      while i < |entries|
        invariant State() == old(State())
        invariant 0 <= i <= |entries|
        invariant AdjustAll(cat, batches, tx, log, task.warehouse, CountRef(id), lines, entries[i..])
               == AdjustAll(cat, batches, rows, moves, task.warehouse, CountRef(id), lines, entries)
      {
        var at := entries[i].line;
        if at < |lines| && entries[i].counted != lines[at].expected {
          var one := ApplyAdjustment(
            cat, batches, tx, log, task.warehouse, lines[at].key, entries[i].counted, CountRef(id));
          if one.Err? { return Some(one.error); }
          tx, log := one.value.0, one.value.1;
        }
        i := i + 1;
      }
      rows, moves := tx, log;
      counts := counts[id := task.(lines := lines, status := if AllCounted(lines) then CountCompleted
          else task.status)];
      return None;
    }

    // ---------- Outbound ----------

    method OpenOrder(warehouse: Id, inputs: seq<OrderInput>) returns (failure: Option<Error>)
      modifies this`orders
      ensures Settled(CreateOrder(cat, old(State()), warehouse, inputs), old(State()), State(), failure)
    {
      if warehouse !in cat.warehouses { return Some(NotFound); }
      if inputs == [] { return Some(BadRequest); }
      var lines: seq<OrderLine> := [];
      for i := 0 to |inputs|
        invariant forall j | 0 <= j < i :: inputs[j].product in cat.products
        invariant lines == NewOrderLines(inputs[..i])
      {
        if inputs[i].product !in cat.products { return Some(BadRequest); }
        assert inputs[..i + 1][..i] == inputs[..i];
        lines := lines + [NewOrderLine(inputs[i])];
      }
      assert inputs[..|inputs|] == inputs;
      orders := orders + [Order(warehouse, OrderDraft, lines)];
      return None;
    }

    method AllocateOneLine(tx: seq<Row>, warehouse: Id, line: OrderLine) returns (after: seq<Row>, done: OrderLine)
      ensures (after, done) == AllocateLine(cat, batches, tx, warehouse, line)
    {
      hide AllocateRows, Candidates;
      var remaining := line.requestedQty - line.allocatedQty;
      if remaining <= 0.0 { return tx, line; }
      var ids := AllocationOrder(tx, batches, Supply(cat, line.product, warehouse), UsesFefo(cat, line.product));
      var p := AllocateFrom(tx, ids, remaining, line.allocatedQty);
      return p.rows, line.(allocatedQty := p.credited);
    }

    /** The inner loop over the listed rows. */
    static method AllocateFrom(listed: seq<Row>, ids: seq<nat>, requested: real, prior: real) returns (p: Progress)
      requires Within(ids, |listed|)
      ensures p == AllocateRows(Progress(listed, requested, prior), listed, ids)
    {
      hide TakeFrom;
      var tx, remaining, credited := listed, requested, prior;
      var i := 0;
      while i < |ids| && 0.0 < remaining
        invariant 0 <= i <= |ids| && |listed| <= |tx|
        invariant AllocateRows(Progress(tx, remaining, credited), listed, ids[i..])
               == AllocateRows(Progress(listed, requested, prior), listed, ids)
      {
        tx, remaining, credited := ReserveFrom(tx, listed[ids[i]], ids[i], remaining, credited, listed);
        i := i + 1;
      }
      p := Progress(tx, remaining, credited);
    }

    method ReleaseOutboundOrder(id: Id) returns (failure: Option<Error>)
      modifies this`rows, this`orders
      ensures Settled(ReleaseOrder(cat, old(State()), id), old(State()), State(), failure)
    {
      hide AllocateLine, AllAllocated, AnyAllocated, InsistsOnFull;
      if id >= |orders| { return Some(NotFound); }
      var order := orders[id];
      if order.status != OrderDraft { return Some(BadRequest); }
      var tx, lines := rows, [];
      for i := 0 to |order.lines|
        invariant State() == old(State())
        invariant (tx, lines) == AllocateLines(cat, batches, rows, order.warehouse, order.lines[..i])
      {
        assert order.lines[..i + 1][..i] == order.lines[..i];
        var done;
        tx, done := AllocateOneLine(tx, order.warehouse, order.lines[i]);
        lines := lines + [done];
      }
      assert order.lines[..|order.lines|] == order.lines;
      if InsistsOnFull(cat, order.warehouse) && !AllAllocated(lines) { return Some(BadRequest); }
      rows := tx;
      orders := orders[id := order.(status := ReleasedStatus(lines), lines := lines)];
      return None;
    }

    method CreatePickingTask(id: Id, hasPicker: bool) returns (failure: Option<Error>)
      modifies this`tasks, this`orders
      ensures Settled(CreateTask(cat, old(State()), id, hasPicker), old(State()), State(), failure)
    {
      if id >= |orders| { return Some(NotFound); }
      var order := orders[id];
      if order.status != FullyAllocated && order.status != PartiallyAllocated { return Some(BadRequest); }
      var lines: seq<TaskLine> := [];
      for i := 0 to |order.lines|
        invariant lines == LinesForOrder(cat, rows, order.warehouse, order.lines[..i])
      {
        assert order.lines[..i + 1][..i] == order.lines[..i];
        var product := order.lines[i].product;
        var found: seq<TaskLine> := [];
        for j := 0 to |rows|
          invariant found == LinesForReservations(cat, rows[..j], product, order.warehouse, i)
        {
          assert rows[..j + 1][..j] == rows[..j];
          if IsReservation(cat, rows[j], product, order.warehouse) {
            found := found + [TaskLine(i, rows[j].key, rows[j].qty, 0.0)];
          }
        }
        assert rows[..|rows|] == rows;
        lines := lines + found;
      }
      assert order.lines[..|order.lines|] == order.lines;
      tasks := tasks + [Task(id, order.warehouse, if hasPicker then TaskAssigned else TaskCreated, lines)];
      orders := orders[id := order.(status := InPicking)];
      return None;
    }

    method StartPickingTask(id: Id) returns (failure: Option<Error>)
      modifies this`tasks
      ensures Settled(StartTask(old(State()), id), old(State()), State(), failure)
    {
      if id >= |tasks| { return Some(NotFound); }
      if tasks[id].status != TaskCreated && tasks[id].status != TaskAssigned { return Some(BadRequest); }
      tasks := tasks[id := tasks[id].(status := TaskInProgress)];
      return None;
    }

    method ConfirmPickingTask(id: Id, entries: seq<PickEntry>) returns (failure: Option<Error>)
      modifies this
      ensures Settled(ConfirmTask(old(State()), id, entries), old(State()), State(), failure)
    {
      hide PickOne;
      if id >= |tasks| { return Some(NotFound); }
      var task := tasks[id];
      if task.order >= |orders| { return Some(BadRequest); }
      var order := orders[task.order];
      if task.status != TaskInProgress { return Some(BadRequest); }
      var tx := PickState(rows, task.lines, order.lines, moves);
      var i := 0;
      while i < |entries|
        invariant State() == old(State())
        invariant 0 <= i <= |entries| && |tx.lines| == |task.lines|
        invariant PickAll(task.order, task.lines, tx, entries[i..])
               == PickAll(task.order, task.lines, PickState(rows, task.lines, order.lines, moves), entries)
      {
        var next := PickLine(task.order, task.lines, tx, entries[i]);
        if next.Err? { return Some(next.error); }
        tx := next.value;
        i := i + 1;
      }
      rows, moves := tx.rows, tx.moves;
      tasks := tasks[id := task.(lines := tx.lines, status := if AllPicked(tx.lines) then TaskCompleted
          else task.status)];
      orders := orders[task.order := order.(lines := tx.orderLines,
          status := PickedOrderStatus(tx.orderLines, order.status))];
      return None;
    }

    // ---------- Packing and shipping ----------

    method OpenUnit(warehouse: Id) returns (failure: Option<Error>)
      modifies this`units
      ensures Settled(CreateUnit(cat, old(State()), warehouse), old(State()), State(), failure)
    {
      if warehouse !in cat.warehouses { return Some(NotFound); }
      units := units + [HandlingUnit(warehouse, [])];
      return None;
    }

    method AddItemsToUnit(unit: Id, order: Id, items: seq<PackItem>) returns (failure: Option<Error>)
      modifies this`units
      ensures Settled(AddItems(old(State()), unit, order, items), old(State()), State(), failure)
    {
      hide PackOne;
      if unit >= |units| { return Some(NotFound); }
      if order >= |orders| { return Some(NotFound); }
      if orders[order].warehouse != units[unit].warehouse { return Some(BadRequest); }
      var lines := orders[order].lines;
      var tx := units;
      var i := 0;
      while i < |items|
        invariant State() == old(State())
        invariant 0 <= i <= |items| && |tx| == |units|
        invariant PackAll(tx, unit, order, lines, items[i..]) == PackAll(units, unit, order, lines, items)
      {
        var next := PackLine(tx, unit, order, lines, items[i]);
        if next.Err? { return Some(next.error); }
        tx := next.value;
        i := i + 1;
      }
      units := tx;
      return None;
    }

    method OpenShipment(warehouse: Id) returns (failure: Option<Error>)
      modifies this`shipments
      ensures Settled(CreateShipment(cat, old(State()), warehouse), old(State()), State(), failure)
    {
      if warehouse !in cat.warehouses { return Some(NotFound); }
      shipments := shipments + [Shipment(warehouse, Planned, [])];
      return None;
    }

    method AssignUnitsToShipment(id: Id, ids: seq<Id>) returns (failure: Option<Error>)
      modifies this`shipments
      ensures Settled(AssignUnits(old(State()), id, ids), old(State()), State(), failure)
    {
      hide LinkUnit, RepeatsId;
      if id >= |shipments| { return Some(NotFound); }
      var shipment := shipments[id];
      if shipment.status == Dispatched { return Some(BadRequest); }
      if (exists i | 0 <= i < |ids| :: ids[i] >= |units|) || RepeatsId(ids) { return Some(NotFound); }
      if exists i | 0 <= i < |ids| :: units[ids[i]].warehouse != shipment.warehouse { return Some(BadRequest); }
      var links := shipment.links;
      var i := 0;
      while i < |ids|
        invariant State() == old(State())
        invariant 0 <= i <= |ids|
        invariant LinkUnits(links, shipment.links, units, ids[i..])
            == LinkUnits(shipment.links, shipment.links, units, ids)
      {
        if units[ids[i]].lines == [] { return Some(BadRequest); }
        links := LinkOrders(links, shipment.links, ids[i], units[ids[i]].lines);
        i := i + 1;
      }
      shipments := shipments[id := shipment.(links := links, status := Loading)];
      return None;
    }

    method DispatchShipment(id: Id) returns (failure: Option<Error>)
      modifies this`moves, this`shipments
      ensures Settled(Dispatch(old(State()), id), old(State()), State(), failure)
    {
      if id >= |shipments| { return Some(NotFound); }
      var shipment := shipments[id];
      if shipment.status != Planned && shipment.status != Loading { return Some(BadRequest); }
      if shipment.links == [] { return Some(BadRequest); }
      var log: seq<Movement> := [];
      for i := 0 to |units|
        invariant log == DispatchLog(id, shipment.links, units[..i])
      {
        assert units[..i + 1][..i] == units[..i];
        if Linked(shipment.links, i) {
          var lines := units[i].lines;
          var logged: seq<Movement> := [];
          for j := 0 to |lines|
            invariant logged == LogOfUnit(id, lines[..j])
          {
            assert lines[..j + 1][..j] == lines[..j];
            logged := logged + [Movement(OutboundShipment, ShipmentRef(id), lines[j].product, lines[j].batch, None,
                None, lines[j].qty, lines[j].uom)];
          }
          assert lines[..|lines|] == lines;
          log := log + logged;
        }
      }
      assert units[..|units|] == units;
      moves := moves + log;
      shipments := shipments[id := shipment.(status := Dispatched)];
      return None;
    }

    method ExecuteInbound(step: Step) returns (failure: Option<Error>)
      requires IsInbound(step)
      modifies this
      ensures State() == After(cat, old(State()), step)
      ensures failure.None? <==> Apply(cat, old(State()), step).Ok?
    {
      hide CreateReceipt, AddLine, ConfirmReceipt, ReceiveLine, CompleteReceipt;
      match step
      case CreateReceiptStep(w) => failure := OpenReceipt(w);
      case AddLineStep(r, p, q, u, c, e) => failure := AddReceiptLine(r, p, q, u, c, e);
      case ConfirmReceiptStep(r, l, s) => failure := Confirm(r, l, s);
      case ReceiveLineStep(r, a, q, c, l) => failure := ReceiveSingleLine(r, a, q, c, l);
      case CompleteReceiptStep(r) => failure := Complete(r);
    }

    method ExecuteCounting(step: Step) returns (failure: Option<Error>)
      requires IsCounting(step)
      modifies this
      ensures State() == After(cat, old(State()), step)
      ensures failure.None? <==> Apply(cat, old(State()), step).Ok?
    {
      hide Adjust, CreateCount, AddCountLines, StartCount, SubmitCount, ReviewCount;
      match step
      case AdjustStep(w, p, b, l, u, q) => failure := AdjustInventory(w, p, b, l, u, q);
      case CreateCountStep(w, i) => failure := OpenCount(w, i);
      case AddCountLinesStep(c, i) => failure := AddLinesToCount(c, i);
      case StartCountStep(c) => failure := Start(c);
      case SubmitCountStep(c, e) => failure := Submit(c, e);
      case ReviewCountStep(c, a) => failure := Review(c, a);
    }

    method ExecuteOutbound(step: Step) returns (failure: Option<Error>)
      requires !IsInbound(step) && !IsCounting(step)
      modifies this
      ensures State() == After(cat, old(State()), step)
      ensures failure.None? <==> Apply(cat, old(State()), step).Ok?
    {
      hide CreateOrder, ReleaseOrder, CreateTask, StartTask, ConfirmTask, CreateUnit, AddItems, CreateShipment,
          AssignUnits, Dispatch;
      match step
      case CreateOrderStep(w, i) => failure := OpenOrder(w, i);
      case ReleaseStep(o) => failure := ReleaseOutboundOrder(o);
      case CreateTaskStep(o, h) => failure := CreatePickingTask(o, h);
      case StartTaskStep(t) => failure := StartPickingTask(t);
      case ConfirmTaskStep(t, e) => failure := ConfirmPickingTask(t, e);
      case CreateUnitStep(w) => failure := OpenUnit(w);
      case AddItemsStep(u, o, i) => failure := AddItemsToUnit(u, o, i);
      case CreateShipmentStep(w) => failure := OpenShipment(w);
      case AssignUnitsStep(s, u) => failure := AssignUnitsToShipment(s, u);
      case DispatchStep(s) => failure := DispatchShipment(s);
    }

    /** One service call: the tables move as the step machine does, and its invariant survives. */
    method Execute(step: Step) returns (failure: Option<Error>)
      requires Inv(cat, State())
      modifies this
      ensures State() == After(cat, old(State()), step)
      ensures failure.None? <==> Apply(cat, old(State()), step).Ok?
      ensures Inv(cat, State())
    {
      hide Inv, After, Apply;
      StepKeepsInv(cat, State(), step);
      if IsInbound(step) {
        failure := ExecuteInbound(step);
      } else if IsCounting(step) {
        failure := ExecuteCounting(step);
      } else {
        failure := ExecuteOutbound(step);
      }
    }
  }
}
