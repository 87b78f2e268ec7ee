/** Inventory adjustments and cycle counts. */
module Counting {
  import opened Wrappers
  import opened Domain
  import opened Stock

  // ---------- Which row an adjustment is about ----------

  /** The statuses that have rows on this key, as the grouped query lists them. */
  function Groups(order: seq<StockStatus>, rows: seq<Row>, k: Key): (r: seq<StockStatus>)
    ensures forall s :: s in r <==> s in order && Find(rows, k, s).Some?
  {
    if order == [] then [] else
    var n := |order| - 1;
    var earlier := Groups(order[..n], rows, k);
    if Find(rows, k, order[n]).Some? then earlier + [order[n]] else earlier
  }

  function Held(rows: seq<Row>, k: Key, s: StockStatus): real {
    Total(rows, OnKeyStatus(k, s))
  }

  /** First status of strictly largest quantity. */
  function Predominant(groups: seq<StockStatus>, rows: seq<Row>, k: Key): Option<StockStatus> {
    if groups == [] then None else
    var n := |groups| - 1;
    var current := Predominant(groups[..n], rows, k);
    if current.None? || Held(rows, k, current.value) < Held(rows, k, groups[n]) then Some(groups[n]) else current
  }

  function StatusToCount(order: seq<StockStatus>, rows: seq<Row>, k: Key): StockStatus {
    var groups := Groups(order, rows, k);
    if Available in groups && 0.0 < Held(rows, k, Available) then Available else
    var predominant := Predominant(groups, rows, k);
    if predominant.Some? then predominant.value else Available
  }

  lemma {:induction false} PredominantIsLargest(groups: seq<StockStatus>, rows: seq<Row>, k: Key)
    ensures var p := Predominant(groups, rows, k);
            && (p.None? <==> groups == [])
            && (p.Some? ==> p.value in groups && forall s | s in groups :: Held(rows, k, s) <= Held(rows, k, p.value))
  {
    hide Held;
    if groups != [] {
      var n := |groups| - 1;
      PredominantIsLargest(groups[..n], rows, k);
      assert groups == groups[..n] + [groups[n]];
    }
  }

  ghost predicate ListsAll(order: seq<StockStatus>) {
    forall s: StockStatus :: s in order
  }

  /**
   * AVAILABLE when it holds stock, else a status with rows and the most stock, else AVAILABLE; in whatever order
   * groups come.
   */
  lemma StatusToCountIsPredominant(order: seq<StockStatus>, rows: seq<Row>, k: Key)
    requires ListsAll(order) && UniqueRows(rows)
    ensures var s := StatusToCount(order, rows, k);
            && (0.0 < Held(rows, k, Available) ==> s == Available)
            && (Held(rows, k, Available) <= 0.0 && (exists t :: Find(rows, k, t).Some?) ==>
                  Find(rows, k, s).Some? && forall t | Find(rows, k, t).Some? :: Held(rows, k, t) <= Held(rows, k, s))
            && ((forall t :: Find(rows, k, t).None?) ==> s == Available)
  {
    var groups := Groups(order, rows, k);
    PredominantIsLargest(groups, rows, k);
    FoundRowIsTheGroup(rows, k, Available);
    if t :| Find(rows, k, t).Some? {
      assert t in groups;
    }
  }

  // ---------- Adjusting ----------

  predicate KnownPlace(cat: Catalog, batches: seq<Batch>, warehouse: Id, k: Key) {
    && k.product in cat.products
    && (k.batch.Some? ==> k.batch.value < |batches|)
    && k.location in cat.locations && cat.locations[k.location] == warehouse
  }

  function PlaceError(cat: Catalog, batches: seq<Batch>, warehouse: Id, k: Key): Error {
    if k.product !in cat.products || (k.batch.Some? && k.batch.value >= |batches|) || k.location !in cat.locations
    then NotFound else BadRequest
  }

  function AdjustMovement(reference: Reference, k: Key, difference: real): Movement {
    Movement(
      Adjustment, reference, k.product, k.batch,
      if difference < 0.0 then Some(k.location) else None,
      if 0.0 < difference then Some(k.location) else None,
      if difference < 0.0 then -difference else difference, k.uom)
  }

  /** Set the row of one key and status to newQty and log the difference. */
  function SetRow(
      rows: seq<Row>, moves: seq<Movement>, k: Key, s: StockStatus, newQty: real, reference: Reference)
    : (seq<Row>, seq<Movement>) {
    var found := Find(rows, k, s);
    var previous := if found.Some? then rows[found.value].qty else 0.0;
    if newQty == previous then (rows, moves) else
    (if found.Some? then rows[found.value := rows[found.value].(qty := newQty)] else rows + [Row(k, s, newQty)],
     moves + [AdjustMovement(reference, k, newQty - previous)])
  }

  function AdjustStock(
    cat: Catalog, batches: seq<Batch>, rows: seq<Row>, moves: seq<Movement>, warehouse: Id, k: Key, newQty: real,
    reference: Reference)
    : Result<(seq<Row>, seq<Movement>), Error>
  {
    if !KnownPlace(cat, batches, warehouse, k) then Err(PlaceError(cat, batches, warehouse, k)) else
    if newQty < 0.0 then Err(BadRequest) else
    Ok(SetRow(rows, moves, k, StatusToCount(cat.groupOrder, rows, k), newQty, reference))
  }

  function Adjust(
    cat: Catalog, db: Db, warehouse: Id, product: Id, batch: Option<Id>, location: Id, uom: Option<string>,
    newQty: real)
    : Result<Db, Error>
  {
    if product !in cat.products then Err(NotFound) else
    var k := Key(product, batch, location, if uom.Some? then uom.value else cat.products[product].defaultUom);
    match AdjustStock(cat, db.batches, db.rows, db.moves, warehouse, k, newQty, NoRef)
    case Err(e) => Err(e)
    case Ok((rows, moves)) => Ok(db.(rows := rows, moves := moves))
  }

  lemma SetRowShifts(
      rows: seq<Row>, moves: seq<Movement>, k: Key, s: StockStatus, newQty: real, reference: Reference, f: Filter)
    requires UniqueRows(rows)
    ensures Total(SetRow(rows, moves, k, s, newQty, reference).0, f)
         == Total(rows, f) + (if Matches(f, k, s) then newQty - Held(rows, k, s) else 0.0)
  {
    FoundRowIsTheGroup(rows, k, s);
    var found := Find(rows, k, s);
    if found.Some? {
      TotalOfUpdated(rows, found.value, rows[found.value].(qty := newQty), f);
    } else {
      TotalOfAppended(rows, Row(k, s, newQty), f);
    }
  }

  lemma SetRowKeepsRows(
    rows: seq<Row>, moves: seq<Movement>, k: Key, s: StockStatus, newQty: real, reference: Reference)
    requires UniqueRows(rows) && NonNegative(rows) && 0.0 <= newQty
    ensures var after := SetRow(rows, moves, k, s, newQty, reference).0;
            UniqueRows(after) && NonNegative(after)
  {
    var after := SetRow(rows, moves, k, s, newQty, reference).0;
    forall i, j | 0 <= i < j < |after| ensures !SameIdentity(after[i], after[j]) {
      if j < |rows| {
        assert !SameIdentity(rows[i], rows[j]);
      }
    }
  }

  lemma SetRowKeepsBalance(
    rows: seq<Row>, moves: seq<Movement>, k: Key, s: StockStatus, newQty: real, reference: Reference, other: Key)
    requires UniqueRows(rows) && InBalance(rows, moves, other)
    ensures var (after, log) := SetRow(rows, moves, k, s, newQty, reference);
            InBalance(after, log, other)
  {
    hide Total, Tally, UniqueRows;
    FoundRowIsTheGroup(rows, k, s);
    SetRowShifts(rows, moves, k, s, newQty, reference, OnKey(other));
    TallyOfAppended(moves, AdjustMovement(reference, k, newQty - Held(rows, k, s)), NetInto(other));
  }

  lemma SetRowKeepsStock(
    rows: seq<Row>, moves: seq<Movement>, k: Key, s: StockStatus, newQty: real, reference: Reference)
    requires StockOk(rows, moves) && 0.0 <= newQty
    ensures var (after, log) := SetRow(rows, moves, k, s, newQty, reference);
            StockOk(after, log)
  {
    hide InBalance, SetRow, UniqueRows, NonNegative;
    var (after, log) := SetRow(rows, moves, k, s, newQty, reference);
    SetRowKeepsRows(rows, moves, k, s, newQty, reference);
    forall other ensures InBalance(after, log, other) {
      SetRowKeepsBalance(rows, moves, k, s, newQty, reference, other);
    }
  }

  /** The chosen row ends at the new quantity; no other key and no other status moves. */
  lemma AdjustSetsOneRow(
    cat: Catalog, batches: seq<Batch>, rows: seq<Row>, moves: seq<Movement>, warehouse: Id, k: Key, newQty: real,
    reference: Reference, other: Key, s: StockStatus)
    requires UniqueRows(rows)
    ensures var r := AdjustStock(cat, batches, rows, moves, warehouse, k, newQty, reference);
            r.Ok? ==> Held(r.value.0, other, s)
                      == if other == k && s == StatusToCount(cat.groupOrder, rows, k) then newQty
                          else Held(rows, other, s)
  {
    SetRowShifts(rows, moves, k, StatusToCount(cat.groupOrder, rows, k), newQty, reference, OnKeyStatus(other, s));
  }

  // ---------- Count tasks ----------

  datatype CountInput = CountInput(key: Key, expected: Option<real>)

  predicate RepeatsKey(inputs: seq<CountInput>) {
    exists i, j | 0 <= i < j < |inputs| :: inputs[i].key == inputs[j].key
  }

  predicate AlreadyListed(lines: seq<CountLine>, inputs: seq<CountInput>) {
    exists i, j | 0 <= i < |lines| && 0 <= j < |inputs| :: lines[i].key == inputs[j].key
  }

  /** Stock on a key in every status but SCRAP. */
  function ExpectedOn(rows: seq<Row>, k: Key): real {
    Held(rows, k, Available) + Held(rows, k, Reserved) + Held(rows, k, Picking) + Held(rows, k, InTransitInternal)
    + Held(rows, k, Quarantine) + Held(rows, k, Blocked)
  }

  function NewCountLine(cat: Catalog, db: Db, warehouse: Id, input: CountInput): Result<CountLine, Error> {
    var k := input.key;
    if k.product !in cat.products then Err(BadRequest) else
    if k.batch.Some? && k.batch.value >= |db.batches| then Err(BadRequest) else
    if k.batch.Some? && db.batches[k.batch.value].product != k.product then Err(BadRequest) else
    if k.location !in cat.locations then Err(BadRequest) else
    if cat.locations[k.location] != warehouse then Err(BadRequest) else
    Ok(CountLine(k, if input.expected.Some? then input.expected.value else ExpectedOn(db.rows, k), None, None))
  }

  function NewCountLines(
      cat: Catalog, db: Db, warehouse: Id, inputs: seq<CountInput>): (r: Result<seq<CountLine>, Error>)
    ensures r.Ok? ==> |r.value| == |inputs|
    ensures r.Ok? ==> forall i | 0 <= i < |inputs| :: r.value[i].key == inputs[i].key && r.value[i].counted.None?
  {
    if inputs == [] then Ok([]) else
    match NewCountLine(cat, db, warehouse, inputs[0])
    case Err(e) => Err(e)
    case Ok(line) =>
      match NewCountLines(cat, db, warehouse, inputs[1..])
      case Err(e) => Err(e)
      case Ok(rest) => Ok([line] + rest)
  }

  function AddCountLines(cat: Catalog, db: Db, id: Id, inputs: seq<CountInput>): Result<Db, Error> {
    if id >= |db.counts| then Err(NotFound) else
    var task := db.counts[id];
    if task.status != CountPending && task.status != CountInProgress then Err(BadRequest) else
    if RepeatsKey(inputs) then Err(BadRequest) else
    if AlreadyListed(task.lines, inputs) then Err(BadRequest) else
    match NewCountLines(cat, db, task.warehouse, inputs)
    case Err(e) => Err(e)
    case Ok(lines) => Ok(db.(counts := db.counts[id := task.(lines := task.lines + lines)]))
  }

  /** The first rows of the warehouse, one count line per row. */
  function Suggested(cat: Catalog, rows: seq<Row>, warehouse: Id): seq<CountInput> {
    var all := RowsOf(cat, rows, warehouse);
    if |all| <= 50 then all else all[..50]
  }

  function RowsOf(cat: Catalog, rows: seq<Row>, warehouse: Id): seq<CountInput> {
    if rows == [] then [] else
    var n := |rows| - 1;
    var earlier := RowsOf(cat, rows[..n], warehouse);
    if rows[n].key.location in cat.locations && cat.locations[rows[n].key.location] == warehouse
    then earlier + [CountInput(rows[n].key, Some(rows[n].qty))]
    else earlier
  }

  function CreateCount(cat: Catalog, db: Db, warehouse: Id, inputs: seq<CountInput>): Result<Db, Error> {
    if warehouse !in cat.warehouses then Err(NotFound) else
    if !cat.countingEnabled then Err(BadRequest) else
    var lines := if inputs != [] then inputs
        else if warehouse in cat.suggestCounts then Suggested(cat, db.rows, warehouse) else [];
    var created := db.(counts := db.counts + [CountTask(warehouse, CountPending, [])]);
    if lines == [] then Ok(created) else AddCountLines(cat, created, |db.counts|, lines)
  }

  function StartCount(db: Db, id: Id): Result<Db, Error> {
    if id >= |db.counts| then Err(NotFound)
    else if db.counts[id].status != CountPending then Err(BadRequest)
    else Ok(db.(counts := db.counts[id := db.counts[id].(status := CountInProgress)]))
  }

  /** Without approval a count is cancelled, whatever its status; with it nothing happens, not even a lookup. */
  function ReviewCount(db: Db, id: Id, approve: bool): Result<Db, Error> {
    if approve then Ok(db)
    else if id >= |db.counts| then Err(NotFound)
    else Ok(db.(counts := db.counts[id := db.counts[id].(status := CountCancelled)]))
  }

  // ---------- Submitting a count ----------

  datatype CountEntry = CountEntry(line: Id, counted: real)

  predicate MissesPending(lines: seq<CountLine>, entries: seq<CountEntry>) {
    exists i | 0 <= i < |lines| :: lines[i].counted.None? && forall j | 0 <= j < |entries| :: entries[j].line != i
  }

  function MarkOne(lines: seq<CountLine>, entry: CountEntry): seq<CountLine>
    requires entry.line < |lines|
  {
    var line := lines[entry.line];
    lines[entry.line := line.(counted := Some(entry.counted), difference := Some(entry.counted - line.expected))]
  }

  /** First loop: record every count; a line may be named once and must not have been counted before. */
  function MarkAll(lines: seq<CountLine>, entries: seq<CountEntry>, seen: set<Id>): (r: Result<seq<CountLine>, Error>)
    ensures r.Ok? ==> |r.value| == |lines|
    decreases |entries|
  {
    if entries == [] then Ok(lines) else
    var at := entries[0].line;
    if at in seen then Err(BadRequest) else
    if at >= |lines| then Err(NotFound) else
    if lines[at].counted.Some? then Err(BadRequest) else
    MarkAll(MarkOne(lines, entries[0]), entries[1..], seen + {at})
  }

  /** Second loop: adjust the stock of every line whose count differs from what was expected. */
  function AdjustAll(
    cat: Catalog, batches: seq<Batch>, rows: seq<Row>, moves: seq<Movement>, warehouse: Id, reference: Reference,
    lines: seq<CountLine>, entries: seq<CountEntry>) : Result<(seq<Row>, seq<Movement>), Error>
    decreases |entries|
  {
    if entries == [] then Ok((rows, moves)) else
    if !Differs(lines, entries[0])
        then AdjustAll(cat, batches, rows, moves, warehouse, reference, lines, entries[1..]) else
    match AdjustStock(cat, batches, rows, moves, warehouse, lines[entries[0].line].key, entries[0].counted, reference)
    case Err(e) => Err(e)
    case Ok((after, log)) => AdjustAll(cat, batches, after, log, warehouse, reference, lines, entries[1..])
  }

  predicate Differs(lines: seq<CountLine>, entry: CountEntry) {
    entry.line < |lines| && entry.counted != lines[entry.line].expected
  }

  predicate AllCounted(lines: seq<CountLine>) {
    forall i | 0 <= i < |lines| :: lines[i].counted.Some?
  }

  function SubmitCount(cat: Catalog, db: Db, id: Id, entries: seq<CountEntry>): Result<Db, Error> {
    if id >= |db.counts| then Err(NotFound) else
    var task := db.counts[id];
    if task.status != CountInProgress then Err(BadRequest) else
    if MissesPending(task.lines, entries) then Err(BadRequest) else
    match MarkAll(task.lines, entries, {})
    case Err(e) => Err(e)
    case Ok(lines) =>
      match AdjustAll(cat, db.batches, db.rows, db.moves, task.warehouse, CountRef(id), lines, entries)
      case Err(e) => Err(e)
      case Ok((rows, moves)) =>
        var status := if AllCounted(lines) then CountCompleted else task.status;
        Ok(db.(rows := rows, moves := moves, counts := db.counts[id := task.(lines := lines, status := status)]))
  }

  // ---------- Distinct keys ----------

  ghost predicate DistinctKeys(lines: seq<CountLine>) {
    forall i, j | 0 <= i < j < |lines| :: lines[i].key != lines[j].key
  }

  ghost predicate CountOk(task: CountTask) {
    && DistinctKeys(task.lines)
    && match task.status
       case CountCompleted => AllCounted(task.lines)
       case CountCancelled => true
       case _ => forall i | 0 <= i < |task.lines| :: task.lines[i].counted.None?
  }

  ghost predicate CountsOk(counts: seq<CountTask>) {
    forall i | 0 <= i < |counts| :: CountOk(counts[i])
  }

  lemma AddCountLinesKeepsDistinct(cat: Catalog, db: Db, id: Id, inputs: seq<CountInput>)
    requires CountsOk(db.counts)
    ensures var r := AddCountLines(cat, db, id, inputs);
            r.Ok? ==> CountsOk(r.value.counts)
  {
    var r := AddCountLines(cat, db, id, inputs);
    if r.Ok? {
      var task := db.counts[id];
      assert CountOk(task);
      var lines := NewCountLines(cat, db, task.warehouse, inputs).value;
      var joined := task.lines + lines;
      forall i, j | 0 <= i < j < |joined| ensures joined[i].key != joined[j].key {
        if i < |task.lines| <= j {
          assert joined[j].key == inputs[j - |task.lines|].key;
        } else if |task.lines| <= i {
          assert joined[i].key == inputs[i - |task.lines|].key && joined[j].key == inputs[j - |task.lines|].key;
        }
      }
    }
  }

  lemma CreateCountKeepsDistinct(cat: Catalog, db: Db, warehouse: Id, inputs: seq<CountInput>)
    requires CountsOk(db.counts)
    ensures var r := CreateCount(cat, db, warehouse, inputs);
            r.Ok? ==> CountsOk(r.value.counts)
  {
    var created := db.(counts := db.counts + [CountTask(warehouse, CountPending, [])]);
    assert CountsOk(created.counts);
    var lines := if inputs != [] then inputs
        else if warehouse in cat.suggestCounts then Suggested(cat, db.rows, warehouse) else [];
    AddCountLinesKeepsDistinct(cat, created, |db.counts|, lines);
  }
}
