/** What a count task is made of, and when a submission of it is accepted. */
module CountTasks {
  import opened Wrappers
  import opened Domain
  import opened Stock
  import opened Counting
  import opened CountResults

  // ---------- New lines ----------

  /** A line may be counted: known product, a batch of it if any, a location of the warehouse. */
  predicate Countable(cat: Catalog, batches: seq<Batch>, warehouse: Id, k: Key) {
    && k.product in cat.products
    && (k.batch.Some? ==> k.batch.value < |batches| && batches[k.batch.value].product == k.product)
    && k.location in cat.locations && cat.locations[k.location] == warehouse
  }

  /** What a line expects: what the caller says, or all stock on the key but scrap. */
  function Expects(rows: seq<Row>, input: CountInput): real {
    if input.expected.Some? then input.expected.value
    else Total(rows, OnKey(input.key)) - Total(rows, OnKeyStatus(input.key, Scrap))
  }

  lemma {:induction false} NewLinesOutcome(cat: Catalog, db: Db, warehouse: Id, inputs: seq<CountInput>)
    ensures var r := NewCountLines(cat, db, warehouse, inputs);
            && (r.Ok? <==> forall i | 0 <= i < |inputs| :: Countable(cat, db.batches, warehouse, inputs[i].key))
            && (r.Ok? ==> |r.value| == |inputs| && forall i | 0 <= i < |inputs| ::
                  r.value[i] == CountLine(inputs[i].key, Expects(db.rows, inputs[i]), None, None))
  {
    hide Total;
    if inputs != [] {
      OnHandSumsStatuses(db.rows, inputs[0].key);
      NewLinesOutcome(cat, db, warehouse, inputs[1..]);
      assert forall i | 0 < i < |inputs| :: inputs[i] == inputs[1..][i - 1];
    }
  }

  /** The keys are distinct, and new to the task. */
  ghost predicate FreshKeys(lines: seq<CountLine>, inputs: seq<CountInput>) {
    && (forall i, j | 0 <= i < j < |inputs| :: inputs[i].key != inputs[j].key)
    && (forall i, j | 0 <= i < |lines| && 0 <= j < |inputs| :: lines[i].key != inputs[j].key)
  }

  /**
   * Lines are accepted exactly for an open task, fresh keys and countable places. Each expects what the caller says, or
   * all stock on its key but scrap, and nothing else changes.
   */
  lemma AddLinesOutcome(cat: Catalog, db: Db, id: Id, inputs: seq<CountInput>)
    ensures var r := AddCountLines(cat, db, id, inputs);
            && (r.Ok? <==>
                  && id < |db.counts|
                  && (db.counts[id].status == CountPending || db.counts[id].status == CountInProgress)
                  && FreshKeys(db.counts[id].lines, inputs)
                  && forall i | 0 <= i < |inputs| :: Countable(cat, db.batches, db.counts[id].warehouse, inputs[i].key))
            && (r.Ok? ==>
                  var before, after := db.counts[id], r.value.counts[id];
                  && r.value == db.(counts := db.counts[id := after])
                  && after == before.(lines := after.lines)
                  && before.lines <= after.lines && |after.lines| == |before.lines| + |inputs|
                  && forall i | 0 <= i < |inputs| ::
                       after.lines[|before.lines| + i]
                       == CountLine(inputs[i].key, Expects(db.rows, inputs[i]), None, None))
  {
    hide NewCountLines, Expects;
    if id < |db.counts| {
      NewLinesOutcome(cat, db, db.counts[id].warehouse, inputs);
    }
  }

  // ---------- Suggested lines ----------

  /** Positions of the rows of a warehouse. */
  function RowsIn(cat: Catalog, rows: seq<Row>, warehouse: Id): set<nat> {
    set i: nat | i < |rows| && rows[i].key.location in cat.locations
                 && cat.locations[rows[i].key.location] == warehouse
  }

  /** The input asks to count one row of the warehouse, and expects its quantity. */
  ghost predicate AsksForRow(cat: Catalog, rows: seq<Row>, warehouse: Id, input: CountInput) {
    exists i | i in RowsIn(cat, rows, warehouse) :: input == CountInput(rows[i].key, Some(rows[i].qty))
  }

  lemma {:induction false} RowsAreListed(cat: Catalog, rows: seq<Row>, warehouse: Id)
    ensures |RowsOf(cat, rows, warehouse)| == |RowsIn(cat, rows, warehouse)|
    ensures forall n | 0 <= n < |RowsOf(cat, rows, warehouse)| ::
              AsksForRow(cat, rows, warehouse, RowsOf(cat, rows, warehouse)[n])
  {
    if rows != [] {
      var last := |rows| - 1;
      RowsAreListed(cat, rows[..last], warehouse);
      var earlier := RowsOf(cat, rows[..last], warehouse);
      if rows[last].key.location in cat.locations && cat.locations[rows[last].key.location] == warehouse {
        assert RowsIn(cat, rows, warehouse) == RowsIn(cat, rows[..last], warehouse) + {last};
      } else {
        assert RowsIn(cat, rows, warehouse) == RowsIn(cat, rows[..last], warehouse);
      }
      forall n | 0 <= n < |RowsOf(cat, rows, warehouse)|
        ensures AsksForRow(cat, rows, warehouse, RowsOf(cat, rows, warehouse)[n])
      {
        if n < |earlier| {
          assert AsksForRow(cat, rows[..last], warehouse, earlier[n]);
          var i :| i in RowsIn(cat, rows[..last], warehouse)
            && earlier[n] == CountInput(rows[..last][i].key, Some(rows[..last][i].qty));
          assert i in RowsIn(cat, rows, warehouse) && rows[i] == rows[..last][i];
        } else {
          assert last in RowsIn(cat, rows, warehouse);
        }
      }
    }
  }

  /** A suggestion is at most fifty rows of the warehouse, each with its own quantity as the expectation. */
  lemma SuggestionsAreRows(cat: Catalog, rows: seq<Row>, warehouse: Id)
    ensures var all, listed := |RowsIn(cat, rows, warehouse)|, Suggested(cat, rows, warehouse);
            && |listed| == (if all <= 50 then all else 50)
            && forall n | 0 <= n < |listed| :: AsksForRow(cat, rows, warehouse, listed[n])
  {
    hide RowsOf, RowsIn, AsksForRow;
    RowsAreListed(cat, rows, warehouse);
  }

  // ---------- When a submission is accepted ----------

  /** Stock can be set here: a known product, a known batch if any, a location of the warehouse. */
  predicate Placeable(cat: Catalog, batches: seq<Batch>, warehouse: Id, k: Key) {
    && k.product in cat.products
    && (k.batch == None || k.batch.value < |batches|)
    && k.location in cat.locations && cat.locations[k.location] == warehouse
  }

  /** A count that need not be booked, or can be: its place is known and it is not negative. */
  predicate CanBook(cat: Catalog, batches: seq<Batch>, warehouse: Id, line: CountLine, counted: real) {
    counted == line.expected || (0.0 <= counted && Placeable(cat, batches, warehouse, line.key))
  }

  lemma MarkingKeepsPlaces(lines: seq<CountLine>, entries: seq<CountEntry>)
    requires MarkAll(lines, entries, {}).Ok?
    ensures var marked := MarkAll(lines, entries, {}).value;
            && |marked| == |lines|
            && forall i | 0 <= i < |lines| ::
                 marked[i].key == lines[i].key && marked[i].expected == lines[i].expected
  {
    var marked := MarkAll(lines, entries, {}).value;
    forall i: Id | i < |lines|
      ensures marked[i].key == lines[i].key && marked[i].expected == lines[i].expected
    {
      MarkAllMarks(lines, entries, {}, i);
    }
  }

  /**
   * A submission is accepted exactly for a started task, when the entries name the pending lines, once each, and every
   * count that differs from its expectation is not negative and of a known place.
   */
  lemma SubmitAcceptsIff(cat: Catalog, db: Db, id: Id, entries: seq<CountEntry>)
    ensures SubmitCount(cat, db, id, entries).Ok? <==>
              && id < |db.counts| && db.counts[id].status == CountInProgress
              && CoversPending(db.counts[id].lines, entries)
              && forall a | 0 <= a < |entries| ::
                   CanBook(cat, db.batches, db.counts[id].warehouse, db.counts[id].lines[entries[a].line],
                            entries[a].counted)
  {
    hide MarkAll, AdjustAll;
    if id < |db.counts| && db.counts[id].status == CountInProgress {
      var task := db.counts[id];
      MarkAllAcceptsIff(task.lines, entries, {});
      MissingIff(task.lines, entries);
      if MarkAll(task.lines, entries, {}).Ok? {
        MarkingKeepsPlaces(task.lines, entries);
        AdjustAllAcceptsIff(cat, db.batches, db.rows, db.moves, task.warehouse, CountRef(id),
            MarkAll(task.lines, entries, {}).value, entries);
      }
    }
  }

  lemma MissingIff(lines: seq<CountLine>, entries: seq<CountEntry>)
    ensures MissesPending(lines, entries) <==>
              !(forall i: Id | i < |lines| && lines[i].counted.None? ::
                  exists a | 0 <= a < |entries| :: entries[a].line == i)
  {
  }

  // ---------- Adjustments and new tasks ----------

  /**
   * An adjustment is accepted exactly for a place stock can be set at and a quantity that is not negative. It sets one
   * status of the key, in the unit of measure given or else the product's own, and no other stock.
   */
  lemma AdjustOutcome(
    cat: Catalog, db: Db, warehouse: Id, product: Id, batch: Option<Id>, location: Id, uom: Option<string>,
    newQty: real)
    requires UniqueRows(db.rows)
    ensures var r := Adjust(cat, db, warehouse, product, batch, location, uom, newQty);
            && (r.Ok? <==> Placeable(cat, db.batches, warehouse, Key(product, batch, location, "")) && 0.0 <= newQty)
            && (r.Ok? ==>
                  var unit := match uom case Some(given) => given case None => cat.products[product].defaultUom;
                  var k := Key(product, batch, location, unit);
                  && r.value == db.(rows := r.value.rows, moves := r.value.moves)
                  && forall other, s :: Held(r.value.rows, other, s)
                       == if other == k && s == StatusToCount(cat.groupOrder, db.rows, k) then newQty
                          else Held(db.rows, other, s))
  {
    hide Held, StatusToCount, SetRow;
    var r := Adjust(cat, db, warehouse, product, batch, location, uom, newQty);
    if r.Ok? {
      var unit := match uom case Some(given) => given case None => cat.products[product].defaultUom;
      var k := Key(product, batch, location, unit);
      forall other, s
        ensures Held(r.value.rows, other, s)
             == if other == k && s == StatusToCount(cat.groupOrder, db.rows, k) then newQty else Held(db.rows, other, s)
      {
        AdjustSetsOneRow(cat, db.batches, db.rows, db.moves, warehouse, k, newQty, NoRef, other, s);
      }
    }
  }

  /** The lines a new task starts with: those given, or those suggested where counts are suggested. */
  function Initial(cat: Catalog, rows: seq<Row>, warehouse: Id, inputs: seq<CountInput>): seq<CountInput> {
    if inputs == [] && warehouse in cat.suggestCounts then Suggested(cat, rows, warehouse) else inputs
  }

  /** A task is created exactly for a known warehouse that counts, if its lines can be added to the empty task. */
  lemma CreateOutcome(cat: Catalog, db: Db, warehouse: Id, inputs: seq<CountInput>)
    ensures var r := CreateCount(cat, db, warehouse, inputs);
            var lines := Initial(cat, db.rows, warehouse, inputs);
            && (r.Ok? <==>
                  && warehouse in cat.warehouses && cat.countingEnabled
                  && FreshKeys([], lines)
                  && forall i | 0 <= i < |lines| :: Countable(cat, db.batches, warehouse, lines[i].key))
            && (r.Ok? ==>
                  && |r.value.counts| == |db.counts| + 1 && r.value == db.(counts := r.value.counts)
                  && db.counts == r.value.counts[..|db.counts|]
                  && var task := r.value.counts[|db.counts|];
                     && task.warehouse == warehouse && task.status == CountPending && |task.lines| == |lines|
                     && forall i | 0 <= i < |lines| ::
                          task.lines[i] == CountLine(lines[i].key, Expects(db.rows, lines[i]), None, None))
  {
    hide AddCountLines, Suggested, Countable, Expects;
    var lines := Initial(cat, db.rows, warehouse, inputs);
    var created := db.(counts := db.counts + [CountTask(warehouse, CountPending, [])]);
    AddLinesOutcome(cat, created, |db.counts|, lines);
  }
}
