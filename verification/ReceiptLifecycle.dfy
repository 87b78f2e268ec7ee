/** What every accepted call keeps true of a receipt, its stock and its movement lines. */
module ReceiptLifecycle {
  import opened Wrappers
  import opened Domain
  import opened Stock
  import opened Inbound

  /** Everything the receiving loop keeps while it runs. */
  ghost predicate Consistent(cat: Catalog, id: Id, warehouse: Id, st: ReceiveState) {
    && StockOk(st.rows, st.moves)
    && UniqueBatches(st.batches)
    && LinesOk(cat, warehouse, st.lines)
    && FullyLogged(st.moves, id, st.lines)
  }

  /** Other receipts see no new movement line. */
  ghost predicate OthersUntouched(id: Id, before: seq<Movement>, after: seq<Movement>) {
    forall other: Id, product, uom | other != id ::
      Tally(after, ReceivedBy(other, product, uom)) == Tally(before, ReceivedBy(other, product, uom))
  }

  lemma BookIsConsistent(
    cat: Catalog, id: Id, warehouse: Id, location: Id, st: ReceiveState, at: Id, line: ReceiptLine, qty: real,
    batches: seq<Batch>, batch: Option<Id>)
    requires Consistent(cat, id, warehouse, st) && at < |st.lines| && UniqueBatches(batches) && 0.0 < qty
    requires line.product == st.lines[at].product && line.uom == st.lines[at].uom
        && line.expected == st.lines[at].expected
    requires line.received == st.lines[at].received + qty && line.received <= Ceiling(cat, warehouse, line)
    ensures var r := Book(cat, id, warehouse, location, st, at, line, qty, batches, batch);
            r.Ok? ==>
              && Consistent(cat, id, warehouse, r.value) && Advances(st.lines, r.value.lines)
              && OthersUntouched(id, st.moves, r.value.moves)
              && r.value.lines == st.lines[at := line]
  {
    var r := Book(cat, id, warehouse, location, st, at, line, qty, batches, batch);
    if r.Ok? {
      BookKeepsStock(cat, id, warehouse, location, st, at, line, qty, batches, batch);
      assert LineOk(cat, warehouse, st.lines[at]);
      forall product, uom ensures Logged(r.value.moves, id, r.value.lines, product, uom) {
        assert Logged(st.moves, id, st.lines, product, uom);
        BookMovesAllThree(cat, id, warehouse, location, st, at, line, qty, batches, batch, product, uom);
      }
      forall other: Id, product, uom | other != id
        ensures Tally(r.value.moves, ReceivedBy(other, product, uom))
            == Tally(st.moves, ReceivedBy(other, product, uom))
      {
        BookLeavesOtherReceipts(cat, id, warehouse, location, st, at, line, qty, batches, batch, other, product, uom);
      }
    }
  }

  lemma ReceiveOneIsConsistent(
    cat: Catalog, id: Id, warehouse: Id, location: Id, snapshot: seq<ReceiptLine>, st: ReceiveState, payload: Payload)
    requires |st.lines| == |snapshot| && Consistent(cat, id, warehouse, st)
    requires payload.line < |snapshot| ==> st.lines[payload.line] == snapshot[payload.line]
    ensures var r := ReceiveOne(cat, id, warehouse, location, snapshot, st, payload);
            r.Ok? ==>
              && Consistent(cat, id, warehouse, r.value) && Advances(st.lines, r.value.lines)
              && OthersUntouched(id, st.moves, r.value.moves)
              && payload.line < |snapshot| && 0.0 < r.value.lines[payload.line].received
              && (forall i | 0 <= i < |snapshot| && i != payload.line :: r.value.lines[i] == st.lines[i])
  {
    hide Total, Tally, ReceivedOf, FindBatch, Book, UniqueBatches;
    var r := ReceiveOne(cat, id, warehouse, location, snapshot, st, payload);
    if r.Ok? {
      var at := payload.line;
      var line := snapshot[at];
      var qty := if payload.received.Some? then payload.received.value else line.expected - line.received;
      var code, expiry := OrElse(payload.batchCode, line.batchCode), OrElse(payload.expiry, line.expiry);
      var tracked := cat.products[line.product].requiresBatch;
      var (batches, batch) :=
          BatchFor(st.batches, tracked, line.product, if code.Some? then code.value else "", expiry);
      var updated := line.(received := line.received + qty, batchCode := code, expiry := expiry,
                           batch := OrElse(batch, line.batch));
      assert LineOk(cat, warehouse, st.lines[at]);
      CeilingCoversTolerance(cat, warehouse, line);
      BatchForKeepsUnique(st.batches, tracked, line.product, if code.Some? then code.value else "", expiry);
      BookIsConsistent(cat, id, warehouse, location, st, at, updated, qty, batches, batch);
    }
  }

  ghost predicate DistinctPayloads(payloads: seq<Payload>) {
    forall i, j | 0 <= i < j < |payloads| :: payloads[i].line != payloads[j].line
  }

  ghost predicate Unread(snapshot: seq<ReceiptLine>, lines: seq<ReceiptLine>, payloads: seq<Payload>) {
    && |lines| == |snapshot|
    && forall i | 0 <= i < |payloads| && payloads[i].line < |snapshot| ::
        lines[payloads[i].line] == snapshot[payloads[i].line]
  }

  lemma {:induction false} ReceiveAllIsConsistent(
    cat: Catalog, id: Id, warehouse: Id, location: Id, snapshot: seq<ReceiptLine>, st: ReceiveState,
    payloads: seq<Payload>)
    requires Consistent(cat, id, warehouse, st) && DistinctPayloads(payloads) && Unread(snapshot, st.lines, payloads)
    ensures var r := ReceiveAll(cat, id, warehouse, location, snapshot, st, payloads);
            r.Ok? ==>
              && Consistent(cat, id, warehouse, r.value) && Advances(st.lines, r.value.lines)
              && OthersUntouched(id, st.moves, r.value.moves)
              && (payloads != [] ==> exists i | 0 <= i < |snapshot| :: 0.0 < r.value.lines[i].received)
    decreases |payloads|
  {
    hide ReceiveOne, ReceivedOf, Total, Tally, Consistent;
    if payloads != [] {
      var next := ReceiveOne(cat, id, warehouse, location, snapshot, st, payloads[0]);
      ReceiveOneIsConsistent(cat, id, warehouse, location, snapshot, st, payloads[0]);
      if next.Ok? {
        var rest := payloads[1..];
        assert forall i | 0 <= i < |rest| :: rest[i] == payloads[i + 1] && rest[i].line != payloads[0].line;
        ReceiveAllIsConsistent(cat, id, warehouse, location, snapshot, next.value, rest);
        var r := ReceiveAll(cat, id, warehouse, location, snapshot, next.value, rest);
        if r.Ok? {
          assert 0.0 < r.value.lines[payloads[0].line].received;
        }
      }
    }
  }

  /** Line, stock and log move together in a booking: rise in received, rise in AVAILABLE stock, rise of the log. */
  ghost predicate MovedTogether(
      cat: Catalog, id: Id, warehouse: Id, before: ReceiveState, after: ReceiveState, product: Id, uom: string) {
    && ReceivedOf(after.lines, product, Some(uom)) - ReceivedOf(before.lines, product, Some(uom))
       == Tally(after.moves, ReceivedBy(id, product, uom)) - Tally(before.moves, ReceivedBy(id, product, uom))
    && ReceivedOf(after.lines, product, None) - ReceivedOf(before.lines, product, None)
       == Total(after.rows, AvailableIn(product, warehouse, cat.locations))
          - Total(before.rows, AvailableIn(product, warehouse, cat.locations))
  }

  lemma ReceiveOneMovesAllThree(
    cat: Catalog, id: Id, warehouse: Id, location: Id, snapshot: seq<ReceiptLine>, st: ReceiveState, payload: Payload,
    product: Id, uom: string)
    requires |st.lines| == |snapshot|
    requires payload.line < |snapshot| ==> st.lines[payload.line] == snapshot[payload.line]
    ensures var r := ReceiveOne(cat, id, warehouse, location, snapshot, st, payload);
            r.Ok? ==>
              && MovedTogether(cat, id, warehouse, st, r.value, product, uom)
              && (forall i | 0 <= i < |snapshot| && i != payload.line :: r.value.lines[i] == st.lines[i])
  {
    hide Total, Tally, ReceivedOf, FindBatch, AddTo, WithinTolerance;
    var r := ReceiveOne(cat, id, warehouse, location, snapshot, st, payload);
    if r.Ok? {
      var at := payload.line;
      var line := snapshot[at];
      var qty := if payload.received.Some? then payload.received.value else line.expected - line.received;
      var code, expiry := OrElse(payload.batchCode, line.batchCode), OrElse(payload.expiry, line.expiry);
      var (batches, batch) := BatchFor(st.batches, cat.products[line.product].requiresBatch, line.product,
                                       if code.Some? then code.value else "", expiry);
      var updated := line.(received := line.received + qty, batchCode := code, expiry := expiry,
                           batch := OrElse(batch, line.batch));
      BookMovesAllThree(cat, id, warehouse, location, st, at, updated, qty, batches, batch, product, uom);
    }
  }

  /** Over a whole confirmation: what the lines received is what stock gained and what the movement lines log. */
  lemma {:induction false} ReceiveAllMovesAllThree(
    cat: Catalog, id: Id, warehouse: Id, location: Id, snapshot: seq<ReceiptLine>, st: ReceiveState,
    payloads: seq<Payload>,
    product: Id, uom: string)
    requires DistinctPayloads(payloads) && Unread(snapshot, st.lines, payloads)
    ensures var r := ReceiveAll(cat, id, warehouse, location, snapshot, st, payloads);
            r.Ok? ==> MovedTogether(cat, id, warehouse, st, r.value, product, uom)
    decreases |payloads|
  {
    hide ReceiveOne, ReceivedOf, Total, Tally;
    if payloads != [] {
      var next := ReceiveOne(cat, id, warehouse, location, snapshot, st, payloads[0]);
      ReceiveOneMovesAllThree(cat, id, warehouse, location, snapshot, st, payloads[0], product, uom);
      if next.Ok? {
        var rest := payloads[1..];
        assert forall i | 0 <= i < |rest| :: rest[i] == payloads[i + 1] && rest[i].line != payloads[0].line;
        ReceiveAllMovesAllThree(cat, id, warehouse, location, snapshot, next.value, rest, product, uom);
      }
    }
  }

  lemma PayloadsAreDistinct(lines: seq<ReceiptLine>, submitted: Option<seq<Payload>>)
    requires submitted.Some? ==> !RepeatsLine(submitted.value)
    ensures DistinctPayloads(PayloadsFor(lines, submitted))
  {
  }

  /** No movement line refers to a receipt that does not exist yet. */
  ghost predicate NothingAhead(moves: seq<Movement>, receipts: nat) {
    forall id: Id, product, uom | receipts <= id :: Tally(moves, ReceivedBy(id, product, uom)) == 0.0
  }

  ghost predicate ReceiptsOk(cat: Catalog, moves: seq<Movement>, receipts: seq<Receipt>) {
    && NothingAhead(moves, |receipts|)
    && forall id: Id | id < |receipts| :: ReceiptOk(cat, moves, id, receipts[id])
  }

  /** A saved receipt leaves all receipts consistent. */
  lemma SaveKeepsReceipts(cat: Catalog, db: Db, id: Id, st: ReceiveState, status: ReceiptStatus)
    requires id < |db.receipts| && ReceiptsOk(cat, db.moves, db.receipts)
    requires Consistent(cat, id, db.receipts[id].warehouse, st) && OthersUntouched(id, db.moves, st.moves)
    requires StatusFits(db.receipts[id].(lines := st.lines, status := status))
    ensures var after := SaveReceipt(db, id, st, status);
            ReceiptsOk(cat, after.moves, after.receipts)
  {
    var after := SaveReceipt(db, id, st, status);
    forall other: Id | other < |after.receipts| ensures ReceiptOk(cat, after.moves, other, after.receipts[other]) {
      assert ReceiptOk(cat, db.moves, other, db.receipts[other]);
      if other != id {
        forall product, uom ensures Logged(after.moves, other, after.receipts[other].lines, product, uom) {
          assert Logged(db.moves, other, db.receipts[other].lines, product, uom);
        }
      }
    }
  }

  /** Movement lines of other kinds do not count as received. */
  lemma ForeignMovesKeepReceipts(cat: Catalog, before: seq<Movement>, after: seq<Movement>, receipts: seq<Receipt>)
    requires ReceiptsOk(cat, before, receipts)
    requires forall id: Id, product, uom ::
        Tally(after, ReceivedBy(id, product, uom)) == Tally(before, ReceivedBy(id, product, uom))
    ensures ReceiptsOk(cat, after, receipts)
  {
    forall id: Id | id < |receipts| ensures ReceiptOk(cat, after, id, receipts[id]) {
      assert ReceiptOk(cat, before, id, receipts[id]);
      forall product, uom ensures Logged(after, id, receipts[id].lines, product, uom) {
        assert Logged(before, id, receipts[id].lines, product, uom);
      }
    }
  }

  ghost predicate InboundOk(cat: Catalog, db: Db) {
    StockOk(db.rows, db.moves) && UniqueBatches(db.batches) && ReceiptsOk(cat, db.moves, db.receipts)
  }

  lemma ConfirmKeepsInbound(cat: Catalog, db: Db, id: Id, location: Id, submitted: Option<seq<Payload>>)
    requires InboundOk(cat, db)
    ensures var r := ConfirmReceipt(cat, db, id, location, submitted);
            r.Ok? ==> InboundOk(cat, r.value)
  {
    var r := ConfirmReceipt(cat, db, id, location, submitted);
    if r.Ok? {
      var receipt := db.receipts[id];
      assert ReceiptOk(cat, db.moves, id, receipt);
      var st := ReceiveState(db.rows, db.batches, receipt.lines, db.moves);
      var payloads := PayloadsFor(receipt.lines, submitted);
      PayloadsAreDistinct(receipt.lines, submitted);
      ReceiveAllIsConsistent(cat, id, receipt.warehouse, location, receipt.lines, st, payloads);
      var done := ReceiveAll(cat, id, receipt.warehouse, location, receipt.lines, st, payloads).value;
      SaveKeepsReceipts(cat, db, id, done, ReceivedStatus(done.lines));
    }
  }

  lemma TopUpIsConsistent(
    cat: Catalog, id: Id, warehouse: Id, location: Id, st: ReceiveState, at: Id, total: real, code: Option<string>)
    requires Consistent(cat, id, warehouse, st) && at < |st.lines| && total <= st.lines[at].expected
    ensures var r := TopUp(cat, id, warehouse, location, st, at, total, code);
            r.Ok? ==>
              && Consistent(cat, id, warehouse, r.value) && OthersUntouched(id, st.moves, r.value.moves)
              && 0.0 < r.value.lines[at].received == total
  {
    if TopUp(cat, id, warehouse, location, st, at, total, code).Ok? {
      var line := st.lines[at];
      assert LineOk(cat, warehouse, line);
      CeilingCoversTolerance(cat, warehouse, line);
      var batchCode := OrElse(code, line.batchCode);
      var tracked := cat.products[line.product].requiresBatch;
      var text := if batchCode.Some? then batchCode.value else "";
      var (batches, batch) := BatchFor(st.batches, tracked, line.product, text, None);
      BatchForKeepsUnique(st.batches, tracked, line.product, text, None);
      BookIsConsistent(cat, id, warehouse, location, st, at,
                       line.(received := total, batchCode := batchCode, batch := OrElse(batch, line.batch)),
                       total - line.received, batches, batch);
    }
  }

  lemma ReceiveLineKeepsInbound(
      cat: Catalog, db: Db, id: Id, at: Id, quantity: real, code: Option<string>, location: Option<Id>)
    requires InboundOk(cat, db)
    ensures var r := ReceiveLine(cat, db, id, at, quantity, code, location);
            r.Ok? ==> InboundOk(cat, r.value)
  {
    hide TopUp, StockOk, FullyLogged, LineOk;
    if ReceiveLine(cat, db, id, at, quantity, code, location).Ok? {
      var receipt := db.receipts[id];
      assert ReceiptOk(cat, db.moves, id, receipt);
      var line := receipt.lines[at];
      var total := if line.received + quantity > line.expected then line.expected else line.received + quantity;
      var st := ReceiveState(db.rows, db.batches, receipt.lines, db.moves);
      TopUpIsConsistent(cat, id, receipt.warehouse, location.value, st, at, total, code);
      var done := TopUp(cat, id, receipt.warehouse, location.value, st, at, total, code).value;
      SaveKeepsReceipts(cat, db, id, done, ReceivedStatus(done.lines));
    }
  }

  /**
   * Filling a line from the floor ignores the policy: the result respects the over-receipt tolerance iff that is not
   * negative.
   */
  lemma FilledLineWithinToleranceIff(
      cat: Catalog, db: Db, id: Id, at: Id, quantity: real, code: Option<string>, location: Option<Id>)
    requires InboundOk(cat, db)
    ensures var r := ReceiveLine(cat, db, id, at, quantity, code, location);
            r.Ok? && db.receipts[id].lines[at].expected - db.receipts[id].lines[at].received <= quantity ==>
              var warehouse, line := db.receipts[id].warehouse, r.value.receipts[id].lines[at];
              && line.received == line.expected
              && (line.received <= line.expected * (1.0 + OverPct(cat, warehouse, line.product) / 100.0)
                  <==> 0.0 <= OverPct(cat, warehouse, line.product))
  {
    if ReceiveLine(cat, db, id, at, quantity, code, location).Ok? {
      assert ReceiptOk(cat, db.moves, id, db.receipts[id]);
      assert LineOk(cat, db.receipts[id].warehouse, db.receipts[id].lines[at]);
      FullLineWithinToleranceIff(cat, db.receipts[id].warehouse, db.receipts[id].lines[at]);
    }
  }

  lemma AddLineKeepsInbound(
    cat: Catalog, db: Db, id: Id, product: Id, expected: real, uom: string, code: Option<string>, expiry: Option<int>)
    requires InboundOk(cat, db)
    ensures var r := AddLine(cat, db, id, product, expected, uom, code, expiry);
            r.Ok? ==> InboundOk(cat, r.value)
  {
    var r := AddLine(cat, db, id, product, expected, uom, code, expiry);
    if r.Ok? {
      var receipt := db.receipts[id];
      assert ReceiptOk(cat, db.moves, id, receipt);
      var line := ReceiptLine(product, expected, 0.0, uom, code, expiry, None);
      CeilingCoversTolerance(cat, receipt.warehouse, line);
      forall p, u ensures Logged(db.moves, id, receipt.lines + [line], p, u) {
        assert Logged(db.moves, id, receipt.lines, p, u);
        assert (receipt.lines + [line])[..|receipt.lines|] == receipt.lines;
      }
      forall other: Id | other < |r.value.receipts| ensures ReceiptOk(cat, db.moves, other, r.value.receipts[other]) {
        assert ReceiptOk(cat, db.moves, other, db.receipts[other]);
      }
    }
  }

  lemma CreateReceiptKeepsInbound(cat: Catalog, db: Db, warehouse: Id)
    requires InboundOk(cat, db)
    ensures var r := CreateReceipt(cat, db, warehouse);
            r.Ok? ==> InboundOk(cat, r.value)
  {
    var r := CreateReceipt(cat, db, warehouse);
    if r.Ok? {
      forall id: Id | id < |r.value.receipts| ensures ReceiptOk(cat, db.moves, id, r.value.receipts[id]) {
        if id < |db.receipts| {
          assert ReceiptOk(cat, db.moves, id, db.receipts[id]);
        } else {
          forall p, u ensures Logged(db.moves, id, [], p, u) {
          }
        }
      }
    }
  }

  lemma CompleteKeepsInbound(cat: Catalog, db: Db, id: Id)
    requires InboundOk(cat, db)
    ensures var r := CompleteReceipt(db, id);
            r.Ok? ==> InboundOk(cat, r.value)
  {
    var r := CompleteReceipt(db, id);
    if r.Ok? {
      forall other: Id | other < |r.value.receipts| ensures ReceiptOk(cat, db.moves, other, r.value.receipts[other]) {
        assert ReceiptOk(cat, db.moves, other, db.receipts[other]);
      }
    }
  }
}
