/** Finding, updating and creating single records inside a transaction, on working copies of the tables. */
module Tables {
  import opened Wrappers
  import opened Domain
  import opened Stock
  import opened Allocation
  import opened Picking
  import opened Inbound
  import opened Counting
  import opened Shipping

  // ---------- Stock rows ----------

  method FindRow(rows: seq<Row>, k: Key, s: StockStatus) returns (at: Option<nat>)
    ensures at == Find(rows, k, s)
  {
    for i := 0 to |rows|
      invariant Find(rows[..i], k, s) == None
    {
      assert rows[..i + 1][..i] == rows[..i];
      if rows[i].key == k && rows[i].status == s {
        FoundEarly(rows, i, k, s);
        return Some(i);
      }
    }
    assert rows[..|rows|] == rows;
    return None;
  }

  lemma {:induction false} FoundEarly(rows: seq<Row>, i: nat, k: Key, s: StockStatus)
    requires i < |rows| && Find(rows[..i], k, s) == None && rows[i].key == k && rows[i].status == s
    ensures Find(rows, k, s) == Some(i)
  {
    if i == |rows| - 1 {
      assert rows[..|rows| - 1] == rows[..i];
    } else {
      var init := rows[..|rows| - 1];
      assert init[..i] == rows[..i];
      FoundEarly(init, i, k, s);
    }
  }

  /** Find the row of a key and status and raise it, or create it. */
  method AddStock(rows: seq<Row>, k: Key, s: StockStatus, qty: real) returns (after: seq<Row>)
    ensures after == AddTo(rows, k, s, qty)
  {
    var at := FindRow(rows, k, s);
    if at.Some? {
      var row := rows[at.value];
      after := rows[at.value := Row(row.key, row.status, row.qty + qty)];
    } else {
      after := rows + [Row(k, s, qty)];
    }
  }

  /** One listed row of a release: lower it, and raise or create the reserved row of its key. */
  method ReserveFrom(tx: seq<Row>, record: Row, id: nat, remaining: real, credited: real, ghost listed: seq<Row>)
    returns (after: seq<Row>, left: real, total: real)
    requires id < |listed| <= |tx| && listed[id] == record
    ensures Progress(after, left, total) == TakeFrom(Progress(tx, remaining, credited), listed, id)
  {
    var availableQty := record.qty;
    if availableQty <= 0.0 { return tx, remaining, credited; }
    var allocateQty := if availableQty < remaining then availableQty else remaining;
    after := tx[id := tx[id].(qty := availableQty - allocateQty)];
    after := AddStock(after, record.key, Reserved, allocateQty);
    left, total := remaining - allocateQty, credited + allocateQty;
  }

  // ---------- Batches and receipt lines ----------

  method FindBatchByCode(batches: seq<Batch>, product: Id, code: string) returns (at: Option<Id>)
    ensures at == FindBatch(batches, product, code)
  {
    for i := 0 to |batches|
      invariant FindBatch(batches[..i], product, code) == None
    {
      assert batches[..i + 1][..i] == batches[..i];
      if batches[i].product == product && batches[i].code == code {
        BatchFoundEarly(batches, i, product, code);
        return Some(i);
      }
    }
    assert batches[..|batches|] == batches;
    return None;
  }

  lemma {:induction false} BatchFoundEarly(batches: seq<Batch>, i: nat, product: Id, code: string)
    requires i < |batches| && FindBatch(batches[..i], product, code) == None
    requires batches[i].product == product && batches[i].code == code
    ensures FindBatch(batches, product, code) == Some(i)
  {
    if i == |batches| - 1 {
      assert batches[..|batches| - 1] == batches[..i];
    } else {
      var init := batches[..|batches| - 1];
      assert init[..i] == batches[..i];
      BatchFoundEarly(init, i, product, code);
    }
  }

  /** Find the batch of a code or create it. */
  method ResolveBatch(batches: seq<Batch>, tracked: bool, product: Id, code: string, expiry: Option<int>)
    returns (after: seq<Batch>, batch: Option<Id>)
    ensures (after, batch) == BatchFor(batches, tracked, product, code, expiry)
  {
    if !tracked { return batches, None; }
    batch := FindBatchByCode(batches, product, code);
    after := batches;
    if batch.None? {
      after, batch := batches + [Batch(product, code, expiry)], Some(|batches|);
    }
  }

  method ReceiveStock(cat: Catalog, rows: seq<Row>, batches: seq<Batch>, warehouse: Id, key: Key, qty: real)
    returns (r: Result<seq<Row>, Error>)
    ensures r == IncreaseStock(cat, rows, batches, warehouse, key, qty)
  {
    if key.product !in cat.products { return Err(NotFound); }
    if key.batch.Some? && key.batch.value >= |batches| { return Err(NotFound); }
    if key.location !in cat.locations { return Err(NotFound); }
    if cat.locations[key.location] != warehouse { return Err(BadRequest); }
    if qty <= 0.0 { return Err(BadRequest); }
    var after := AddStock(rows, key, Available, qty);
    return Ok(after);
  }

  /** One payload of a confirmation: guards, batch, receipt line, stock and movement line in turn. */
  method ReceivePayload(
    cat: Catalog, id: Id, warehouse: Id, location: Id, snapshot: seq<ReceiptLine>, st: ReceiveState, payload: Payload)
    returns (r: Result<ReceiveState, Error>)
    requires |st.lines| == |snapshot|
    ensures r == ReceiveOne(cat, id, warehouse, location, snapshot, st, payload)
  {
    if payload.line >= |snapshot| { return Err(NotFound); }
    var line := snapshot[payload.line];
    var pending := line.expected - line.received;
    var qty := if payload.received.Some? then payload.received.value else pending;
    if qty <= 0.0 { return Err(BadRequest); }
    var code := OrElse(payload.batchCode, line.batchCode);
    var expiry := OrElse(payload.expiry, line.expiry);
    if line.product !in cat.products { return Err(NotFound); }
    var product := cat.products[line.product];
    if product.requiresBatch && Blank(code) { return Err(BadRequest); }
    if product.requiresExpiry && expiry.None? { return Err(BadRequest); }
    var newTotal := line.received + qty;
    if newTotal > line.expected * (1.0 + OverPct(cat, warehouse, line.product) / 100.0) { return Err(BadRequest); }
    var under, remaining := UnderPct(cat, warehouse, line.product), line.expected - newTotal;
    if under.Some? && 0.0 < remaining && remaining > line.expected * (under.value / 100.0) { return Err(BadRequest); }
    var batches, batch := ResolveBatch(
      st.batches, product.requiresBatch, line.product, if code.Some? then code.value else "", expiry);
    var updated := ReceiptLine(
      line.product, line.expected, newTotal, line.uom, code, expiry, if batch.Some? then batch else line.batch);
    var key := Key(line.product, batch, location, line.uom);
    var rows := ReceiveStock(cat, st.rows, batches, warehouse, key, qty);
    if rows.Err? { return Err(rows.error); }
    var log := Movement(
      InboundReceipt, ReceiptRef(id), line.product, batch, None, Some(location), qty, line.uom);
    return Ok(ReceiveState(rows.value, batches, st.lines[payload.line := updated], st.moves + [log]));
  }

  /** The floor protocol: bring one line up to a total. */
  method FillLine(
    cat: Catalog, id: Id, warehouse: Id, location: Id, st: ReceiveState, at: Id, total: real, code: Option<string>)
    returns (r: Result<ReceiveState, Error>)
    requires at < |st.lines|
    ensures r == TopUp(cat, id, warehouse, location, st, at, total, code)
  {
    var line := st.lines[at];
    if line.product !in cat.products { return Err(NotFound); }
    var delta := total - line.received;
    if delta <= 0.0 { return Err(BadRequest); }
    var batchCode := OrElse(code, line.batchCode);
    var tracked := cat.products[line.product].requiresBatch;
    if tracked && Blank(batchCode) { return Err(BadRequest); }
    var batches, batch := ResolveBatch(
      st.batches, tracked, line.product, if batchCode.Some? then batchCode.value else "", None);
    var updated := ReceiptLine(
      line.product, line.expected, total, line.uom, batchCode, line.expiry, if batch.Some? then batch else line.batch);
    var rows := ReceiveStock(cat, st.rows, batches, warehouse, Key(line.product, batch, location, line.uom), delta);
    if rows.Err? { return Err(rows.error); }
    var log := Movement(InboundReceipt, ReceiptRef(id), line.product, batch, None, Some(location), delta, line.uom);
    return Ok(ReceiveState(rows.value, batches, st.lines[at := updated], st.moves + [log]));
  }

  // ---------- Picking ----------

  /** One submitted entry: the reserved row, the task line, the order line and the movement line in turn. */
  method PickLine(
      order: Id, snapshot: seq<TaskLine>, st: PickState, entry: PickEntry) returns (r: Result<PickState, Error>)
    requires |st.lines| == |snapshot|
    ensures r == PickOne(order, snapshot, st, entry)
  {
    if entry.line >= |snapshot| { return Err(NotFound); }
    var line := snapshot[entry.line];
    if entry.qty > line.toPick - line.picked { return Err(BadRequest); }
    var at := FindRow(st.rows, line.key, Reserved);
    if at.None? { return Err(BadRequest); }
    var reservation := st.rows[at.value];
    if reservation.qty < entry.qty { return Err(BadRequest); }
    if line.orderLine >= |st.orderLines| { return Err(NotFound); }
    var picked := line.picked + entry.qty;
    var rows := st.rows[at.value := Row(reservation.key, reservation.status, reservation.qty - entry.qty)];
    var lines := st.lines[entry.line := st.lines[entry.line].(picked := picked)];
    var orderLines := st.orderLines[line.orderLine := st.orderLines[line.orderLine].(pickedQty := picked)];
    var log := Movement(
      OutboundShipment, OrderRef(order), line.key.product, line.key.batch, Some(line.key.location), None, entry.qty,
      line.key.uom);
    return Ok(PickState(rows, lines, orderLines, st.moves + [log]));
  }

  // ---------- Adjusting and counting ----------

  /** The reduce over the status groups that the database returns for a key. */
  method DetermineStatus(order: seq<StockStatus>, rows: seq<Row>, k: Key) returns (status: StockStatus)
    ensures status == StatusToCount(order, rows, k)
  {
    var groups := Groups(order, rows, k);
    if Available in groups && 0.0 < Total(rows, OnKeyStatus(k, Available)) { return Available; }
    var predominant: Option<(StockStatus, real)> := None;
    for i := 0 to |groups|
      invariant var p := Predominant(groups[..i], rows, k);
                if predominant.None? then p.None?
                else p == Some(predominant.value.0) && predominant.value.1 == Held(rows, k, predominant.value.0)
    {
      assert groups[..i + 1][..i] == groups[..i];
      var qty := Total(rows, OnKeyStatus(k, groups[i]));
      if predominant.None? || predominant.value.1 < qty {
        predominant := Some((groups[i], qty));
      }
    }
    assert groups[..|groups|] == groups;
    return if predominant.Some? then predominant.value.0 else Available;
  }

  /** Guards, status, then find the row and set it or create it, with the movement line for the difference. */
  method ApplyAdjustment(
    cat: Catalog, batches: seq<Batch>, rows: seq<Row>, moves: seq<Movement>, warehouse: Id, k: Key, newQty: real,
    reference: Reference) returns (r: Result<(seq<Row>, seq<Movement>), Error>)
    ensures r == AdjustStock(cat, batches, rows, moves, warehouse, k, newQty, reference)
  {
    if k.product !in cat.products { return Err(NotFound); }
    if k.batch.Some? && k.batch.value >= |batches| { return Err(NotFound); }
    if k.location !in cat.locations { return Err(NotFound); }
    if cat.locations[k.location] != warehouse { return Err(BadRequest); }
    if newQty < 0.0 { return Err(BadRequest); }
    var status := DetermineStatus(cat.groupOrder, rows, k);
    var at := FindRow(rows, k, status);
    var previous := if at.Some? then rows[at.value].qty else 0.0;
    var difference := newQty - previous;
    if difference == 0.0 { return Ok((rows, moves)); }
    var after;
    if at.Some? {
      after := rows[at.value := Row(rows[at.value].key, rows[at.value].status, newQty)];
    } else {
      after := rows + [Row(k, status, newQty)];
    }
    var source := if difference < 0.0 then Some(k.location) else None;
    var target := if difference > 0.0 then Some(k.location) else None;
    var log := Movement(
      Adjustment, reference, k.product, k.batch, source, target, if difference < 0.0 then -difference else difference,
      k.uom);
    return Ok((after, moves + [log]));
  }

  /** Look up product, batch and location of a count line, then what is expected on its key. */
  method BuildCountLine(
    cat: Catalog, batches: seq<Batch>, rows: seq<Row>, ghost db: Db, warehouse: Id, input: CountInput)
    returns (r: Result<CountLine, Error>)
    requires db.batches == batches && db.rows == rows
    ensures r == NewCountLine(cat, db, warehouse, input)
  {
    var k := input.key;
    if k.product !in cat.products { return Err(BadRequest); }
    if k.batch.Some? {
      if k.batch.value >= |batches| { return Err(BadRequest); }
      if batches[k.batch.value].product != k.product { return Err(BadRequest); }
    }
    if k.location !in cat.locations { return Err(BadRequest); }
    if cat.locations[k.location] != warehouse { return Err(BadRequest); }
    if input.expected.Some? { return Ok(CountLine(k, input.expected.value, None, None)); }
    var expected := SumExpected(rows, k);
    return Ok(CountLine(k, expected, None, None));
  }

  predicate Counts(s: StockStatus) {
    s != Scrap
  }

  /** One pass over the rows of a key, leaving out scrap. */
  method SumExpected(rows: seq<Row>, k: Key) returns (sum: real)
    ensures sum == ExpectedOn(rows, k)
  {
    sum := 0.0;
    for i := 0 to |rows|
      invariant sum == ExpectedOn(rows[..i], k)
    {
      assert rows[..i + 1][..i] == rows[..i];
      if rows[i].key == k && Counts(rows[i].status) {
        sum := sum + rows[i].qty;
      }
    }
    assert rows[..|rows|] == rows;
  }

  // ---------- Packing and loading ----------

  /** The aggregate over the lines of all handling units. */
  method SumPacked(units: seq<HandlingUnit>, order: Id, orderLine: Id) returns (sum: real)
    ensures sum == Packed(units, order, orderLine)
  {
    sum := 0.0;
    for u := 0 to |units|
      invariant sum == Packed(units[..u], order, orderLine)
    {
      assert units[..u + 1][..u] == units[..u];
      var lines, inUnit := units[u].lines, 0.0;
      for i := 0 to |lines|
        invariant inUnit == PackedInUnit(lines[..i], order, orderLine)
      {
        assert lines[..i + 1][..i] == lines[..i];
        if lines[i].order == order && lines[i].orderLine == orderLine {
          inUnit := inUnit + lines[i].qty;
        }
      }
      assert lines[..|lines|] == lines;
      sum := sum + inUnit;
    }
    assert units[..|units|] == units;
  }

  /** One item: guards against the order line and what is packed already, then a new line in the unit. */
  method PackLine(units: seq<HandlingUnit>, unit: Id, order: Id, lines: seq<OrderLine>, item: PackItem)
    returns (r: Result<seq<HandlingUnit>, Error>)
    requires unit < |units|
    ensures r == PackOne(units, unit, order, lines, item)
  {
    if item.orderLine >= |lines| { return Err(BadRequest); }
    if lines[item.orderLine].product != item.product { return Err(BadRequest); }
    var packed := SumPacked(units, order, item.orderLine);
    if item.qty <= 0.0 { return Err(BadRequest); }
    if packed + item.qty > lines[item.orderLine].pickedQty { return Err(BadRequest); }
    var line := PackedLine(order, item.orderLine, item.product, item.batch, item.qty, item.uom);
    return Ok(units[unit := HandlingUnit(units[unit].warehouse, units[unit].lines + [line])]);
  }

  /** Link a unit to each of its orders that is not linked yet. */
  method LinkOrders(links: seq<(Id, Id)>, before: seq<(Id, Id)>, unit: Id, lines: seq<PackedLine>)
    returns (after: seq<(Id, Id)>)
    ensures after == LinkUnit(links, before, unit, lines)
  {
    after := links;
    for i := 0 to |lines|
      invariant after == LinkUnit(links, before, unit, lines[..i])
    {
      assert lines[..i + 1][..i] == lines[..i];
      var link := (unit, lines[i].order);
      if link in before || link in after { continue; }
      after := after + [link];
    }
    assert lines[..|lines|] == lines;
  }
}
