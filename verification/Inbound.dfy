/** Inbound receipts: lines are received against expectations, into stock and into the movement log. */
module Inbound {
  import opened Wrappers
  import opened Domain
  import opened Stock

  // ---------- Stock and batches ----------

  function IncreaseStock(
      cat: Catalog, rows: seq<Row>, batches: seq<Batch>, warehouse: Id, key: Key, qty: real): Result<seq<Row>, Error> {
    if key.product !in cat.products then Err(NotFound) else
    if key.batch.Some? && key.batch.value >= |batches| then Err(NotFound) else
    if key.location !in cat.locations then Err(NotFound) else
    if cat.locations[key.location] != warehouse then Err(BadRequest) else
    if qty <= 0.0 then Err(BadRequest) else
    Ok(AddTo(rows, key, Available, qty))
  }

  function FindBatch(batches: seq<Batch>, product: Id, code: string): (r: Option<Id>)
    ensures r.Some? ==> r.value < |batches| && batches[r.value].product == product && batches[r.value].code == code
    ensures r.None? ==> forall i | 0 <= i < |batches| :: !(batches[i].product == product && batches[i].code == code)
  {
    if batches == [] then None else
    var n := |batches| - 1;
    var earlier := FindBatch(batches[..n], product, code);
    if earlier.Some? then earlier
    else if batches[n].product == product && batches[n].code == code then Some(n)
    else None
  }

  /** The batch a line is received into, created on first use; products without batches have none. */
  function BatchFor(
      batches: seq<Batch>, tracked: bool, product: Id, code: string, expiry: Option<int>): (seq<Batch>, Option<Id>) {
    if !tracked then (batches, None) else
    var found := FindBatch(batches, product, code);
    if found.Some? then (batches, found) else (batches + [Batch(product, code, expiry)], Some(|batches|))
  }

  ghost predicate UniqueBatches(batches: seq<Batch>) {
    forall i, j | 0 <= i < j < |batches| ::
        !(batches[i].product == batches[j].product && batches[i].code == batches[j].code)
  }

  predicate Blank(code: Option<string>) {
    code.None? || code.value == ""
  }

  function OrElse<T>(a: Option<T>, b: Option<T>): Option<T> {
    if a.Some? then a else b
  }

  function OverPct(cat: Catalog, warehouse: Id, product: Id): real {
    if (warehouse, product) in cat.policies && cat.policies[(warehouse, product)].maxOverPct.Some?
    then cat.policies[(warehouse, product)].maxOverPct.value
    else 0.0
  }

  function UnderPct(cat: Catalog, warehouse: Id, product: Id): Option<real> {
    if (warehouse, product) in cat.policies then cat.policies[(warehouse, product)].maxUnderPct else None
  }

  // ---------- Drafting ----------

  function CreateReceipt(cat: Catalog, db: Db, warehouse: Id): Result<Db, Error> {
    if warehouse !in cat.warehouses then Err(NotFound)
    else Ok(db.(receipts := db.receipts + [Receipt(warehouse, Draft, [])]))
  }

  function AddLine(
    cat: Catalog, db: Db, id: Id, product: Id, expected: real, uom: string, code: Option<string>, expiry: Option<int>)
    : Result<Db, Error>
  {
    if expected < 0.0001 then Err(BadRequest) else  // request validation
    if id >= |db.receipts| then Err(NotFound) else
    var receipt := db.receipts[id];
    if receipt.status != Draft then Err(BadRequest) else
    if product !in cat.products then Err(NotFound) else
    if cat.products[product].requiresBatch && Blank(code) then Err(BadRequest) else
    if cat.products[product].requiresExpiry && expiry.None? then Err(BadRequest) else
    var line := ReceiptLine(product, expected, 0.0, uom, code, expiry, None);
    Ok(db.(receipts := db.receipts[id := receipt.(lines := receipt.lines + [line])]))
  }

  // ---------- Confirming ----------

  datatype Payload = Payload(line: Id, received: Option<real>, batchCode: Option<string>, expiry: Option<int>)

  datatype ReceiveState = ReceiveState(rows: seq<Row>, batches: seq<Batch>, lines: seq<ReceiptLine>,
      moves: seq<Movement>)

  function ReceiptMovement(id: Id, key: Key, qty: real): Movement {
    Movement(InboundReceipt, ReceiptRef(id), key.product, key.batch, None, Some(key.location), qty, key.uom)
  }

  /** The tolerances of the policy, for a line that would reach newTotal. */
  predicate WithinTolerance(cat: Catalog, warehouse: Id, line: ReceiptLine, newTotal: real) {
    var remaining := line.expected - newTotal;
    var under := UnderPct(cat, warehouse, line.product);
    && newTotal <= line.expected * (1.0 + OverPct(cat, warehouse, line.product) / 100.0)
    && !(under.Some? && 0.0 < remaining && line.expected * (under.value / 100.0) < remaining)
  }

  /** Book qty of a receipt line: line, stock and movement line together. */
  function Book(
    cat: Catalog, id: Id, warehouse: Id, location: Id, st: ReceiveState, at: Id, line: ReceiptLine, qty: real,
    batches: seq<Batch>, batch: Option<Id>) : (r: Result<ReceiveState, Error>)
    requires at < |st.lines|
    ensures r.Ok? ==> |r.value.lines| == |st.lines|
  {
    var key := Key(line.product, batch, location, line.uom);
    match IncreaseStock(cat, st.rows, batches, warehouse, key, qty)
    case Err(e) => Err(e)
    case Ok(rows) =>
      Ok(ReceiveState(rows, batches, st.lines[at := line], st.moves + [ReceiptMovement(id, key, qty)]))
  }

  /** One payload of a confirmation; snapshot holds the receipt lines as read at its start. */
  function ReceiveOne(
    cat: Catalog, id: Id, warehouse: Id, location: Id, snapshot: seq<ReceiptLine>, st: ReceiveState, payload: Payload)
    : (r: Result<ReceiveState, Error>)
    requires |st.lines| == |snapshot|
    ensures r.Ok? ==> |r.value.lines| == |snapshot|
  {
    if payload.line >= |snapshot| then Err(NotFound) else
    var line := snapshot[payload.line];
    var qty := if payload.received.Some? then payload.received.value else line.expected - line.received;
    if qty <= 0.0 then Err(BadRequest) else
    var code := OrElse(payload.batchCode, line.batchCode);
    var expiry := OrElse(payload.expiry, line.expiry);
    if line.product !in cat.products then Err(NotFound) else
    var product := cat.products[line.product];
    if product.requiresBatch && Blank(code) then Err(BadRequest) else
    if product.requiresExpiry && expiry.None? then Err(BadRequest) else
    if !WithinTolerance(cat, warehouse, line, line.received + qty) then Err(BadRequest) else
    var (batches, batch) :=
        BatchFor(st.batches, product.requiresBatch, line.product, if code.Some? then code.value else "", expiry);
    Book(cat, id, warehouse, location, st, payload.line,
         line.(received := line.received + qty, batchCode := code, expiry := expiry,
               batch := OrElse(batch, line.batch)),
         qty, batches, batch)
  }

  function ReceiveAll(
    cat: Catalog, id: Id, warehouse: Id, location: Id, snapshot: seq<ReceiptLine>, st: ReceiveState,
    payloads: seq<Payload>)
    : (r: Result<ReceiveState, Error>)
    requires |st.lines| == |snapshot|
    ensures r.Ok? ==> |r.value.lines| == |snapshot|
    decreases |payloads|
  {
    if payloads == [] then Ok(st) else
    match ReceiveOne(cat, id, warehouse, location, snapshot, st, payloads[0])
    case Err(e) => Err(e)
    case Ok(next) => ReceiveAll(cat, id, warehouse, location, snapshot, next, payloads[1..])
  }

  predicate AllReceived(lines: seq<ReceiptLine>) {
    forall i | 0 <= i < |lines| :: lines[i].expected <= lines[i].received
  }

  function ReceivedStatus(lines: seq<ReceiptLine>): ReceiptStatus {
    if AllReceived(lines) then Received else PartiallyReceived
  }

  predicate RepeatsLine(payloads: seq<Payload>) {
    exists i, j | 0 <= i < j < |payloads| :: payloads[i].line == payloads[j].line
  }

  /** Without explicit lines, every line is received in full. */
  function PayloadsFor(lines: seq<ReceiptLine>, submitted: Option<seq<Payload>>): seq<Payload> {
    if submitted.Some? then submitted.value else seq(|lines|, (i: nat) => Payload(i, None, None, None))
  }

  function ConfirmReceipt(
      cat: Catalog, db: Db, id: Id, location: Id, submitted: Option<seq<Payload>>): Result<Db, Error> {
    if id >= |db.receipts| then Err(NotFound) else
    var receipt := db.receipts[id];
    if receipt.status != Draft && receipt.status != PartiallyReceived then Err(BadRequest) else
    if receipt.lines == [] then Err(BadRequest) else
    if location !in cat.locations then Err(NotFound) else
    if cat.locations[location] != receipt.warehouse then Err(BadRequest) else
    if submitted.Some? && (submitted.value == [] || RepeatsLine(submitted.value)) then Err(BadRequest) else
    match ReceiveAll(cat, id, receipt.warehouse, location, receipt.lines,
                     ReceiveState(db.rows, db.batches, receipt.lines, db.moves), PayloadsFor(receipt.lines, submitted))
    case Err(e) => Err(e)
    case Ok(st) => Ok(SaveReceipt(db, id, st, ReceivedStatus(st.lines)))
  }

  function SaveReceipt(db: Db, id: Id, st: ReceiveState, status: ReceiptStatus): Db
    requires id < |db.receipts|
  {
    db.(rows := st.rows, batches := st.batches, moves := st.moves,
        receipts := db.receipts[id := db.receipts[id].(lines := st.lines, status := status)])
  }

  // ---------- The line-by-line protocol ----------

  /** Bring a line up to total, into the batch named by the call or by the line. */
  function TopUp(
    cat: Catalog, id: Id, warehouse: Id, location: Id, st: ReceiveState, at: Id, total: real, code: Option<string>)
    : (r: Result<ReceiveState, Error>)
    requires at < |st.lines|
    ensures r.Ok? ==> |r.value.lines| == |st.lines|
  {
    var line := st.lines[at];
    if line.product !in cat.products then Err(NotFound) else
    if total - line.received <= 0.0 then Err(BadRequest) else
    var batchCode := OrElse(code, line.batchCode);
    var tracked := cat.products[line.product].requiresBatch;
    if tracked && Blank(batchCode) then Err(BadRequest) else
    var (batches, batch) :=
        BatchFor(st.batches, tracked, line.product, if batchCode.Some? then batchCode.value else "", None);
    Book(cat, id, warehouse, location, st, at,
         line.(received := total, batchCode := batchCode, batch := OrElse(batch, line.batch)),
         total - line.received, batches, batch)
  }

  function ReceiveLine(
      cat: Catalog, db: Db, id: Id, at: Id, quantity: real, code: Option<string>, location: Option<Id>)
    : Result<Db, Error> {
    if id >= |db.receipts| then Err(NotFound) else
    var receipt := db.receipts[id];
    if receipt.status == Received || receipt.status == Cancelled then Err(BadRequest) else
    if at >= |receipt.lines| then Err(NotFound) else
    if location.None? then Err(BadRequest) else
    if location.value !in cat.locations || cat.locations[location.value] != receipt.warehouse then Err(NotFound) else
    var line := receipt.lines[at];
    var total := if line.received + quantity > line.expected then line.expected else line.received + quantity;
    match TopUp(cat, id, receipt.warehouse, location.value,
                ReceiveState(db.rows, db.batches, receipt.lines, db.moves), at, total, code)
    case Err(e) => Err(e)
    case Ok(st) => Ok(SaveReceipt(db, id, st, ReceivedStatus(st.lines)))
  }

  /** Whatever its status, a receipt without pending lines can be closed. */
  function CompleteReceipt(db: Db, id: Id): Result<Db, Error> {
    if id >= |db.receipts| then Err(NotFound)
    else if !AllReceived(db.receipts[id].lines) then Err(BadRequest)
    else Ok(db.(receipts := db.receipts[id := db.receipts[id].(status := Received)]))
  }

  // ---------- What the books of a receipt say ----------

  predicate Concerns(line: ReceiptLine, product: Id, uom: Option<string>) {
    line.product == product && (uom.Some? ==> line.uom == uom.value)
  }

  /** Received quantity over the lines of a product, in one unit of measure or in all. */
  function ReceivedOf(lines: seq<ReceiptLine>, product: Id, uom: Option<string>): real {
    if lines == [] then 0.0 else
    var n := |lines| - 1;
    ReceivedOf(lines[..n], product, uom) + (if Concerns(lines[n], product, uom) then lines[n].received else 0.0)
  }

  lemma {:induction false} ReceivedOfUpdated(
      lines: seq<ReceiptLine>, at: nat, line: ReceiptLine, product: Id, uom: Option<string>)
    requires at < |lines| && line.product == lines[at].product && line.uom == lines[at].uom
    ensures ReceivedOf(lines[at := line], product, uom)
         == ReceivedOf(lines, product, uom)
             + (if Concerns(line, product, uom) then line.received - lines[at].received else 0.0)
  {
    var n := |lines| - 1;
    if at == n {
      assert lines[at := line][..n] == lines[..n];
    } else {
      assert lines[at := line][..n] == lines[..n][at := line];
      ReceivedOfUpdated(lines[..n], at, line, product, uom);
    }
  }

  /** One booking moves line, stock and log by the same quantity. */
  lemma BookMovesAllThree(
    cat: Catalog, id: Id, warehouse: Id, location: Id, st: ReceiveState, at: Id, line: ReceiptLine, qty: real,
    batches: seq<Batch>, batch: Option<Id>, product: Id, uom: string)
    requires at < |st.lines| && line.product == st.lines[at].product && line.uom == st.lines[at].uom
    requires line.received == st.lines[at].received + qty
    ensures var r := Book(cat, id, warehouse, location, st, at, line, qty, batches, batch);
            r.Ok? ==>
              && ReceivedOf(r.value.lines, product, Some(uom)) - ReceivedOf(st.lines, product, Some(uom))
                 == Tally(r.value.moves, ReceivedBy(id, product, uom)) - Tally(st.moves, ReceivedBy(id, product, uom))
              && ReceivedOf(r.value.lines, product, None) - ReceivedOf(st.lines, product, None)
                 == Total(r.value.rows, AvailableIn(product, warehouse, cat.locations))
                    - Total(st.rows, AvailableIn(product, warehouse, cat.locations))
  {
    var r := Book(cat, id, warehouse, location, st, at, line, qty, batches, batch);
    if r.Ok? {
      var key := Key(line.product, batch, location, line.uom);
      ReceivedOfUpdated(st.lines, at, line, product, Some(uom));
      ReceivedOfUpdated(st.lines, at, line, product, None);
      TallyOfAppended(st.moves, ReceiptMovement(id, key, qty), ReceivedBy(id, product, uom));
      AddToShifts(st.rows, key, Available, qty, AvailableIn(product, warehouse, cat.locations));
    }
  }

  /** Adding stock together with its movement line keeps the books of every key balanced. */
  lemma ReceiptKeepsBalance(rows: seq<Row>, moves: seq<Movement>, id: Id, key: Key, qty: real, k: Key)
    requires InBalance(rows, moves, k)
    ensures InBalance(AddTo(rows, key, Available, qty), moves + [ReceiptMovement(id, key, qty)], k)
  {
    hide Total, Tally, AddTo;
    AddToShifts(rows, key, Available, qty, OnKey(k));
    TallyOfAppended(moves, ReceiptMovement(id, key, qty), NetInto(k));
  }

  lemma BookKeepsStock(
    cat: Catalog, id: Id, warehouse: Id, location: Id, st: ReceiveState, at: Id, line: ReceiptLine, qty: real,
    batches: seq<Batch>, batch: Option<Id>)
    requires at < |st.lines| && StockOk(st.rows, st.moves)
    ensures var r := Book(cat, id, warehouse, location, st, at, line, qty, batches, batch);
            r.Ok? ==> StockOk(r.value.rows, r.value.moves)
  {
    hide InBalance, AddTo, UniqueRows, NonNegative;
    var r := Book(cat, id, warehouse, location, st, at, line, qty, batches, batch);
    if r.Ok? {
      var key := Key(line.product, batch, location, line.uom);
      AddToKeepsRowInvariants(st.rows, key, Available, qty);
      forall k ensures InBalance(r.value.rows, r.value.moves, k) {
        ReceiptKeepsBalance(st.rows, st.moves, id, key, qty, k);
      }
    }
  }

  /** A booking logs a line for its own receipt only. */
  lemma BookLeavesOtherReceipts(
    cat: Catalog, id: Id, warehouse: Id, location: Id, st: ReceiveState, at: Id, line: ReceiptLine, qty: real,
    batches: seq<Batch>, batch: Option<Id>, other: Id, product: Id, uom: string)
    requires at < |st.lines| && other != id
    ensures var r := Book(cat, id, warehouse, location, st, at, line, qty, batches, batch);
            r.Ok? ==>
              Tally(r.value.moves, ReceivedBy(other, product, uom))
              == Tally(st.moves, ReceivedBy(other, product, uom))
  {
    TallyOfAppended(st.moves, ReceiptMovement(id, Key(line.product, batch, location, line.uom), qty),
        ReceivedBy(other, product, uom));
  }

  lemma BatchForKeepsUnique(batches: seq<Batch>, tracked: bool, product: Id, code: string, expiry: Option<int>)
    requires UniqueBatches(batches)
    ensures UniqueBatches(BatchFor(batches, tracked, product, code, expiry).0)
  {
  }

  // ---------- Lifecycle of a receipt ----------

  /**
   * A tolerance below zero is never reached by the line-by-line protocol, which fills a line up to what is expected.
   */
  function Ceiling(cat: Catalog, warehouse: Id, line: ReceiptLine): real {
    var pct := OverPct(cat, warehouse, line.product);
    line.expected * (1.0 + (if pct < 0.0 then 0.0 else pct) / 100.0)
  }

  ghost predicate LineOk(cat: Catalog, warehouse: Id, line: ReceiptLine) {
    0.0 < line.expected && 0.0 <= line.received <= Ceiling(cat, warehouse, line)
  }

  ghost predicate LinesOk(cat: Catalog, warehouse: Id, lines: seq<ReceiptLine>) {
    forall i | 0 <= i < |lines| :: LineOk(cat, warehouse, lines[i])
  }

  ghost predicate StatusFits(receipt: Receipt) {
    match receipt.status
    case Draft => forall i | 0 <= i < |receipt.lines| :: receipt.lines[i].received == 0.0
    case PartiallyReceived =>
      && (exists i | 0 <= i < |receipt.lines| :: 0.0 < receipt.lines[i].received)
      && (exists i | 0 <= i < |receipt.lines| :: receipt.lines[i].received < receipt.lines[i].expected)
    case Received => AllReceived(receipt.lines)
    case Cancelled => false
  }

  ghost predicate Logged(moves: seq<Movement>, id: Id, lines: seq<ReceiptLine>, product: Id, uom: string) {
    ReceivedOf(lines, product, Some(uom)) == Tally(moves, ReceivedBy(id, product, uom))
  }

  /** What is received on the lines is what the receipt's movement lines say. */
  ghost predicate FullyLogged(moves: seq<Movement>, id: Id, lines: seq<ReceiptLine>) {
    forall product, uom :: Logged(moves, id, lines, product, uom)
  }

  ghost predicate ReceiptOk(cat: Catalog, moves: seq<Movement>, id: Id, receipt: Receipt) {
    LinesOk(cat, receipt.warehouse, receipt.lines) && StatusFits(receipt) && FullyLogged(moves, id, receipt.lines)
  }

  /** Expectations are fixed, and what was received before stays received. */
  ghost predicate Advances(before: seq<ReceiptLine>, after: seq<ReceiptLine>) {
    && |before| == |after|
    && forall i | 0 <= i < |before| ::
         && after[i].product == before[i].product && after[i].uom == before[i].uom
         && after[i].expected == before[i].expected && before[i].received <= after[i].received
  }

  lemma CeilingCoversTolerance(cat: Catalog, warehouse: Id, line: ReceiptLine)
    requires 0.0 < line.expected
    ensures line.expected <= Ceiling(cat, warehouse, line)
    ensures line.expected * (1.0 + OverPct(cat, warehouse, line.product) / 100.0) <= Ceiling(cat, warehouse, line)
    ensures 0.0 <= OverPct(cat, warehouse, line.product) ==>
              line.expected * (1.0 + OverPct(cat, warehouse, line.product) / 100.0) == Ceiling(cat, warehouse, line)
  {
    var pct := OverPct(cat, warehouse, line.product);
    ScaleIsMonotone(line.expected, 1.0 + pct / 100.0, 1.0 + (if pct < 0.0 then 0.0 else pct) / 100.0);
    ScaleIsMonotone(line.expected, 1.0, 1.0 + (if pct < 0.0 then 0.0 else pct) / 100.0);
  }

  lemma ScaleIsMonotone(x: real, a: real, b: real)
    requires 0.0 < x && a <= b
    ensures x * a <= x * b
    ensures a < b ==> x * a < x * b
  {
    assert x * b - x * a == x * (b - a);
  }

  /**
   * The line-by-line protocol can fill a line up to its expectation whatever the policy: that respects the tolerance
   * iff it is not negative.
   */
  lemma FullLineWithinToleranceIff(cat: Catalog, warehouse: Id, line: ReceiptLine)
    requires 0.0 < line.expected
    ensures line.expected <= line.expected * (1.0 + OverPct(cat, warehouse, line.product) / 100.0)
            <==> 0.0 <= OverPct(cat, warehouse, line.product)
  {
    var pct := OverPct(cat, warehouse, line.product);
    if 0.0 <= pct {
      ScaleIsMonotone(line.expected, 1.0, 1.0 + pct / 100.0);
    } else {
      ScaleIsMonotone(line.expected, 1.0 + pct / 100.0, 1.0);
    }
  }
}
