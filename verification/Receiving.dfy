/** What receiving books, payload by payload: the quantity submitted, on the batch of its code, at the place named. */
module Receiving {
  import opened Wrappers
  import opened Domain
  import opened Stock
  import opened Inbound
  import opened ReceiptLifecycle

  // ---------- What one payload says ----------

  /** The quantity named, or all that is still expected. */
  function QtyOf(line: ReceiptLine, payload: Payload): real {
    if payload.received.Some? then payload.received.value else line.expected - line.received
  }

  /** The code named, or that of the line. */
  function CodeOf(line: ReceiptLine, payload: Payload): Option<string> {
    if payload.batchCode.Some? then payload.batchCode else line.batchCode
  }

  function ExpiryOf(line: ReceiptLine, payload: Payload): Option<int> {
    if payload.expiry.Some? then payload.expiry else line.expiry
  }

  predicate KeepsBatches(cat: Catalog, product: Id) {
    product in cat.products && cat.products[product].requiresBatch
  }

  /** The batch is the one of this product with this code. */
  predicate HasCode(batches: seq<Batch>, batch: Option<Id>, product: Id, code: Option<string>) {
    && batch.Some? && batch.value < |batches|
    && batches[batch.value].product == product && Some(batches[batch.value].code) == code
  }

  /** k is the line's product and unit of measure at the location, in the batch of the code if batches are kept. */
  predicate IsPlace(
      cat: Catalog, batches: seq<Batch>, line: ReceiptLine, code: Option<string>, location: Id, k: Key) {
    && k.product == line.product && k.location == location && k.uom == line.uom
    && if KeepsBatches(cat, line.product) then HasCode(batches, k.batch, line.product, code) else k.batch.None?
  }

  /** Later batches do not change what a place is. */
  lemma PlaceSurvives(
      cat: Catalog, before: seq<Batch>, after: seq<Batch>, line: ReceiptLine, code: Option<string>, location: Id,
      k: Key)
    requires before <= after && UniqueBatches(after) && IsPlace(cat, before, line, code, location, k)
    ensures IsPlace(cat, after, line, code, location, k)
    ensures forall other :: IsPlace(cat, after, line, code, location, other) ==> other == k
  {
  }

  // ---------- One payload ----------

  /** The state after booking qty of the line at this place. */
  ghost predicate Books(
      cat: Catalog, id: Id, location: Id, before: ReceiveState, after: ReceiveState, at: Id, line: ReceiptLine,
      qty: real, k: Key) {
    && IsPlace(cat, after.batches, line, line.batchCode, location, k)
    && before.batches <= after.batches && |after.batches| <= |before.batches| + 1
    && after.rows == AddTo(before.rows, k, Available, qty)
    && after.moves == before.moves
                      + [Movement(InboundReceipt, ReceiptRef(id), line.product, k.batch, None, Some(location), qty,
                                  line.uom)]
    && at < |before.lines| && after.lines == before.lines[at := line]
  }

  lemma BatchForHasCode(batches: seq<Batch>, tracked: bool, product: Id, code: string, expiry: Option<int>)
    ensures var (after, batch) := BatchFor(batches, tracked, product, code, expiry);
            && batches <= after && |after| <= |batches| + 1
            && (tracked <==> batch.Some?)
            && (tracked ==> HasCode(after, batch, product, Some(code)))
            && (|batches| < |after| ==> after[|batches|] == Batch(product, code, expiry))
            && (UniqueBatches(batches) ==> UniqueBatches(after))
  {
  }

  /** What a tracked line of a payload needs: a code; and an expiry date if the product asks for one. */
  predicate Documented(cat: Catalog, line: ReceiptLine, payload: Payload) {
    && line.product in cat.products
    && (cat.products[line.product].requiresBatch ==>
          CodeOf(line, payload).Some? && CodeOf(line, payload).value != "")
    && (cat.products[line.product].requiresExpiry ==> ExpiryOf(line, payload).Some?)
  }

  /** The percentage a policy allows to receive beyond what is expected. */
  function Over(cat: Catalog, warehouse: Id, product: Id): real {
    if (warehouse, product) !in cat.policies then 0.0 else
    match cat.policies[(warehouse, product)].maxOverPct
    case Some(pct) => pct
    case None => 0.0
  }

  /** total is at most over percent above what is expected, and at most under percent below it, if that is limited. */
  predicate InTolerance(cat: Catalog, warehouse: Id, line: ReceiptLine, total: real) {
    && 100.0 * total <= line.expected * (100.0 + Over(cat, warehouse, line.product))
    && ((warehouse, line.product) in cat.policies && cat.policies[(warehouse, line.product)].maxUnderPct.Some?
          && total < line.expected ==>
        100.0 * (line.expected - total)
          <= line.expected * cat.policies[(warehouse, line.product)].maxUnderPct.value)
  }

  lemma InToleranceIff(cat: Catalog, warehouse: Id, line: ReceiptLine, total: real)
    ensures WithinTolerance(cat, warehouse, line, total) <==> InTolerance(cat, warehouse, line, total)
  {
    var over := OverPct(cat, warehouse, line.product);
    Percent(line.expected, 1.0 + over / 100.0);
    assert 100.0 * (1.0 + over / 100.0) == 100.0 + over;
    var under := UnderPct(cat, warehouse, line.product);
    if under.Some? {
      Percent(line.expected, under.value / 100.0);
      assert 100.0 * (under.value / 100.0) == under.value;
    }
  }

  lemma Percent(x: real, a: real)
    ensures 100.0 * (x * a) == x * (100.0 * a)
  {
  }

  /** A payload a confirmation accepts. */
  predicate Acceptable(cat: Catalog, warehouse: Id, lines: seq<ReceiptLine>, payload: Payload) {
    && payload.line < |lines|
    && var line := lines[payload.line];
       && 0.0 < QtyOf(line, payload)
       && Documented(cat, line, payload)
       && InTolerance(cat, warehouse, line, line.received + QtyOf(line, payload))
  }

  /** The line as a confirmation leaves it: received raised by the quantity, code, date and batch recorded. */
  ghost predicate Confirmed(
      cat: Catalog, batches: seq<Batch>, before: ReceiptLine, after: ReceiptLine, payload: Payload) {
    && after == before.(received := before.received + QtyOf(before, payload), batchCode := CodeOf(before, payload),
                        expiry := ExpiryOf(before, payload), batch := after.batch)
    && if KeepsBatches(cat, before.product)
       then HasCode(batches, after.batch, before.product, CodeOf(before, payload))
       else after.batch == before.batch
  }

  lemma ReceiveOneBooks(
    cat: Catalog, id: Id, warehouse: Id, location: Id, snapshot: seq<ReceiptLine>, st: ReceiveState, payload: Payload)
    returns (k: Key)
    requires |st.lines| == |snapshot| && location in cat.locations && cat.locations[location] == warehouse
    ensures var r := ReceiveOne(cat, id, warehouse, location, snapshot, st, payload);
            && (r.Ok? <==> Acceptable(cat, warehouse, snapshot, payload))
            && (r.Ok? ==>
                  var line := r.value.lines[payload.line];
                  && Confirmed(cat, r.value.batches, snapshot[payload.line], line, payload)
                  && Books(cat, id, location, st, r.value, payload.line, line,
                           QtyOf(snapshot[payload.line], payload), k)
                  && (UniqueBatches(st.batches) ==> UniqueBatches(r.value.batches))
                  && (|st.batches| < |r.value.batches| ==>
                        r.value.batches[|st.batches|]
                        == Batch(line.product, if line.batchCode.Some? then line.batchCode.value else "", line.expiry)))
  {
    hide FindBatch, AddTo, WithinTolerance, BatchFor, InTolerance, UniqueBatches;
    k := Key(0, None, 0, "");
    if payload.line < |snapshot| {
      var line := snapshot[payload.line];
      var code := CodeOf(line, payload);
      InToleranceIff(cat, warehouse, line, line.received + QtyOf(line, payload));
      if line.product in cat.products {
        var tracked, text := cat.products[line.product].requiresBatch, if code.Some? then code.value else "";
        BatchForHasCode(st.batches, tracked, line.product, text, ExpiryOf(line, payload));
        k := Key(line.product,
                 BatchFor(st.batches, tracked, line.product, text, ExpiryOf(line, payload)).1, location, line.uom);
      }
    }
  }

  // ---------- A whole confirmation ----------

  /** Sum of what the payloads book on key k. */
  ghost function BookedOn(
      cat: Catalog, batches: seq<Batch>, location: Id, lines: seq<ReceiptLine>, payloads: seq<Payload>, k: Key): real
    requires forall i | 0 <= i < |payloads| :: payloads[i].line < |lines|
  {
    if payloads == [] then 0.0 else
    var line := lines[payloads[0].line];
    (if IsPlace(cat, batches, line, CodeOf(line, payloads[0]), location, k) then QtyOf(line, payloads[0]) else 0.0)
    + BookedOn(cat, batches, location, lines, payloads[1..], k)
  }

  ghost predicate AllAcceptable(cat: Catalog, warehouse: Id, lines: seq<ReceiptLine>, payloads: seq<Payload>) {
    forall i | 0 <= i < |payloads| :: Acceptable(cat, warehouse, lines, payloads[i])
  }

  /** Acceptance depends on the receipt before the call only, not on what the payloads before it did. */
  lemma {:induction false} ReceiveAllAcceptsIff(
    cat: Catalog, id: Id, warehouse: Id, location: Id, snapshot: seq<ReceiptLine>, st: ReceiveState,
    payloads: seq<Payload>)
    requires |st.lines| == |snapshot| && location in cat.locations && cat.locations[location] == warehouse
    ensures ReceiveAll(cat, id, warehouse, location, snapshot, st, payloads).Ok?
        <==> AllAcceptable(cat, warehouse, snapshot, payloads)
    decreases |payloads|
  {
    hide ReceiveOne, Acceptable;
    if payloads != [] {
      var rest := payloads[1..];
      var next := ReceiveOne(cat, id, warehouse, location, snapshot, st, payloads[0]);
      var k := ReceiveOneBooks(cat, id, warehouse, location, snapshot, st, payloads[0]);
      assert forall i | 0 < i < |payloads| :: payloads[i] == rest[i - 1];
      if next.Ok? {
        ReceiveAllAcceptsIff(cat, id, warehouse, location, snapshot, next.value, rest);
      }
    }
  }

  /** The log of a confirmation: one movement line per payload, into the place of its line, of its quantity. */
  ghost predicate LogsPayloads(
      cat: Catalog, batches: seq<Batch>, id: Id, location: Id, lines: seq<ReceiptLine>, payloads: seq<Payload>,
      before: seq<Movement>, after: seq<Movement>) {
    && before <= after && |after| == |before| + |payloads|
    && forall i | 0 <= i < |payloads| ::
         payloads[i].line < |lines|
         && LogsPayload(cat, batches, id, location, lines[payloads[i].line], payloads[i], after[|before| + i])
  }

  ghost predicate LogsPayload(
      cat: Catalog, batches: seq<Batch>, id: Id, location: Id, line: ReceiptLine, payload: Payload, m: Movement) {
    && m == Movement(InboundReceipt, ReceiptRef(id), line.product, m.batch, None, Some(location),
                     QtyOf(line, payload), line.uom)
    && IsPlace(cat, batches, line, CodeOf(line, payload), location, Key(line.product, m.batch, location, line.uom))
  }

  /** New batches are those the payloads name, with the expiry date of one of them. */
  ghost predicate BatchesNamed(
      before: seq<Batch>, after: seq<Batch>, lines: seq<ReceiptLine>, payloads: seq<Payload>) {
    && before <= after
    && forall b | |before| <= b < |after| :: exists i | 0 <= i < |payloads| ::
         && payloads[i].line < |lines|
         && NewBatch(lines[payloads[i].line], payloads[i], after[b])
  }

  ghost predicate NewBatch(line: ReceiptLine, payload: Payload, b: Batch) {
    b.product == line.product && Some(b.code) == CodeOf(line, payload) && b.expiry == ExpiryOf(line, payload)
  }

  /** Everything an accepted receiving loop does. */
  ghost predicate Receives(
      cat: Catalog, id: Id, location: Id, snapshot: seq<ReceiptLine>, before: ReceiveState, after: ReceiveState,
      payloads: seq<Payload>)
    requires forall i | 0 <= i < |payloads| :: payloads[i].line < |snapshot|
  {
    && UniqueBatches(after.batches)
    && BatchesNamed(before.batches, after.batches, snapshot, payloads)
    && LogsPayloads(cat, after.batches, id, location, snapshot, payloads, before.moves, after.moves)
    && (forall k, s: StockStatus ::
          Total(after.rows, OnKeyStatus(k, s)) == Total(before.rows, OnKeyStatus(k, s))
            + (if s == Available then BookedOn(cat, after.batches, location, snapshot, payloads, k) else 0.0))
  }

  /** The stock part of one step: a place of the first payload, then the rest. */
  lemma StockOfFirst(
    cat: Catalog, location: Id, snapshot: seq<ReceiptLine>, rows: seq<Row>, next: seq<Batch>, last: seq<Batch>,
    payloads: seq<Payload>, k: Key, other: Key, s: StockStatus)
    requires payloads != [] && forall i | 0 <= i < |payloads| :: payloads[i].line < |snapshot|
    requires next <= last && UniqueBatches(last)
    requires var line := snapshot[payloads[0].line];
             IsPlace(cat, next, line, CodeOf(line, payloads[0]), location, k)
    ensures var qty := QtyOf(snapshot[payloads[0].line], payloads[0]);
            Total(AddTo(rows, k, Available, qty), OnKeyStatus(other, s))
              + (if s == Available then BookedOn(cat, last, location, snapshot, payloads[1..], other) else 0.0)
            == Total(rows, OnKeyStatus(other, s))
               + (if s == Available then BookedOn(cat, last, location, snapshot, payloads, other) else 0.0)
  {
    hide Total, AddTo, IsPlace;
    var line := snapshot[payloads[0].line];
    PlaceSurvives(cat, next, last, line, CodeOf(line, payloads[0]), location, k);
    AddToShifts(rows, k, Available, QtyOf(line, payloads[0]), OnKeyStatus(other, s));
  }

  lemma LogOfFirst(
    cat: Catalog, batches: seq<Batch>, id: Id, location: Id, lines: seq<ReceiptLine>, payloads: seq<Payload>,
    before: seq<Movement>, m: Movement, after: seq<Movement>)
    requires payloads != [] && payloads[0].line < |lines|
    requires LogsPayload(cat, batches, id, location, lines[payloads[0].line], payloads[0], m)
    requires LogsPayloads(cat, batches, id, location, lines, payloads[1..], before + [m], after)
    ensures LogsPayloads(cat, batches, id, location, lines, payloads, before, after)
  {
    hide LogsPayload;
    assert after[|before|] == (before + [m])[|before|];
    assert before == (before + [m])[..|before|] == after[..|before|];
    forall i | 0 < i < |payloads|
      ensures payloads[i].line < |lines|
      ensures LogsPayload(cat, batches, id, location, lines[payloads[i].line], payloads[i], after[|before| + i])
    {
      assert payloads[1..][i - 1] == payloads[i] && after[|before + [m]| + (i - 1)] == after[|before| + i];
    }
  }

  lemma BatchesOfFirst(
    before: seq<Batch>, next: seq<Batch>, after: seq<Batch>, lines: seq<ReceiptLine>, payloads: seq<Payload>)
    requires payloads != [] && payloads[0].line < |lines|
    requires before <= next && |next| <= |before| + 1
    requires |before| < |next| ==> NewBatch(lines[payloads[0].line], payloads[0], next[|before|])
    requires BatchesNamed(next, after, lines, payloads[1..])
    ensures BatchesNamed(before, after, lines, payloads)
  {
    hide NewBatch;
    forall b | |before| <= b < |after|
      ensures exists i | 0 <= i < |payloads| ::
        payloads[i].line < |lines| && NewBatch(lines[payloads[i].line], payloads[i], after[b])
    {
      if b < |next| {
        assert next[b] == after[b];
        assert NewBatch(lines[payloads[0].line], payloads[0], after[b]);
      } else {
        var i :| 0 <= i < |payloads[1..]| && payloads[1..][i].line < |lines|
          && NewBatch(lines[payloads[1..][i].line], payloads[1..][i], after[b]);
        assert payloads[i + 1] == payloads[1..][i];
      }
    }
  }

  lemma {:induction false} ReceiveAllBooks(
    cat: Catalog, id: Id, warehouse: Id, location: Id, snapshot: seq<ReceiptLine>, st: ReceiveState,
    payloads: seq<Payload>)
    requires |st.lines| == |snapshot| && location in cat.locations && cat.locations[location] == warehouse
    requires UniqueBatches(st.batches)
    ensures var r := ReceiveAll(cat, id, warehouse, location, snapshot, st, payloads);
            r.Ok? ==>
              && (forall i | 0 <= i < |payloads| :: payloads[i].line < |snapshot|)
              && Receives(cat, id, location, snapshot, st, r.value, payloads)
    decreases |payloads|
  {
    hide ReceiveOne, Total, AddTo, UniqueBatches, IsPlace, BookedOn, Acceptable;
    var r := ReceiveAll(cat, id, warehouse, location, snapshot, st, payloads);
    if payloads == [] {
      NothingBooked(cat, st.batches, location, snapshot);
    } else if r.Ok? {
      var first, rest := payloads[0], payloads[1..];
      var next := ReceiveOne(cat, id, warehouse, location, snapshot, st, first).value;
      var k := ReceiveOneBooks(cat, id, warehouse, location, snapshot, st, first);
      FirstNamesLine(cat, id, warehouse, location, snapshot, st, first);
      ReceiveAllBooks(cat, id, warehouse, location, snapshot, next, rest);
      assert forall i | 0 < i < |payloads| :: payloads[i] == rest[i - 1];
      var line, qty := snapshot[first.line], QtyOf(snapshot[first.line], first);
      SamePlace(cat, next.batches, line, next.lines[first.line], CodeOf(line, first), location, k);
      PlaceSurvives(cat, next.batches, r.value.batches, line, CodeOf(line, first), location, k);
      PlaceIsKey(cat, r.value.batches, line, CodeOf(line, first), location, k);
      LogOfFirst(cat, r.value.batches, id, location, snapshot, payloads, st.moves,
        Movement(InboundReceipt, ReceiptRef(id), line.product, k.batch, None, Some(location), qty, line.uom),
        r.value.moves);
      BatchesOfFirst(st.batches, next.batches, r.value.batches, snapshot, payloads);
      forall other, s: StockStatus
        ensures Total(r.value.rows, OnKeyStatus(other, s)) == Total(st.rows, OnKeyStatus(other, s))
            + (if s == Available then BookedOn(cat, r.value.batches, location, snapshot, payloads, other) else 0.0)
      {
        StockOfFirst(cat, location, snapshot, st.rows, next.batches, r.value.batches, payloads, k, other, s);
      }
    }
  }

  lemma FirstNamesLine(
    cat: Catalog, id: Id, warehouse: Id, location: Id, snapshot: seq<ReceiptLine>, st: ReceiveState, payload: Payload)
    requires |st.lines| == |snapshot|
    requires ReceiveOne(cat, id, warehouse, location, snapshot, st, payload).Ok?
    ensures payload.line < |snapshot|
    ensures var line := snapshot[payload.line];
            line.product in cat.products
            && (cat.products[line.product].requiresBatch ==> CodeOf(line, payload).Some?)
    ensures var next := ReceiveOne(cat, id, warehouse, location, snapshot, st, payload).value;
            |st.batches| < |next.batches| ==>
              NewBatch(snapshot[payload.line], payload, next.batches[|st.batches|])
  {
    hide FindBatch, AddTo, WithinTolerance;
  }

  lemma NothingBooked(cat: Catalog, batches: seq<Batch>, location: Id, lines: seq<ReceiptLine>)
    ensures forall k :: BookedOn(cat, batches, location, lines, [], k) == 0.0
  {
  }

  lemma SamePlace(
    cat: Catalog, batches: seq<Batch>, a: ReceiptLine, b: ReceiptLine, code: Option<string>, location: Id, k: Key)
    requires a.product == b.product && a.uom == b.uom
    ensures IsPlace(cat, batches, a, code, location, k) <==> IsPlace(cat, batches, b, code, location, k)
  {
  }

  lemma PlaceIsKey(
    cat: Catalog, batches: seq<Batch>, line: ReceiptLine, code: Option<string>, location: Id, k: Key)
    requires IsPlace(cat, batches, line, code, location, k)
    ensures k == Key(line.product, k.batch, location, line.uom)
  {
  }

  lemma {:induction false} UnnamedLineStays(
    cat: Catalog, id: Id, warehouse: Id, location: Id, snapshot: seq<ReceiptLine>, st: ReceiveState,
    payloads: seq<Payload>, j: Id)
    requires |st.lines| == |snapshot| && location in cat.locations && cat.locations[location] == warehouse
    requires j < |snapshot| && forall i | 0 <= i < |payloads| :: payloads[i].line != j
    ensures var r := ReceiveAll(cat, id, warehouse, location, snapshot, st, payloads);
            r.Ok? ==> r.value.lines[j] == st.lines[j]
    decreases |payloads|
  {
    hide ReceiveOne, Acceptable, IsPlace, Confirmed;
    if payloads != [] {
      var next := ReceiveOne(cat, id, warehouse, location, snapshot, st, payloads[0]);
      var k := ReceiveOneBooks(cat, id, warehouse, location, snapshot, st, payloads[0]);
      if next.Ok? {
        assert forall i | 0 < i < |payloads| :: payloads[i] == payloads[1..][i - 1];
        UnnamedLineStays(cat, id, warehouse, location, snapshot, next.value, payloads[1..], j);
      }
    }
  }

  lemma {:induction false} NamedLineIsConfirmed(
    cat: Catalog, id: Id, warehouse: Id, location: Id, snapshot: seq<ReceiptLine>, st: ReceiveState,
    payloads: seq<Payload>, i: nat)
    requires |st.lines| == |snapshot| && location in cat.locations && cat.locations[location] == warehouse
    requires DistinctPayloads(payloads) && UniqueBatches(st.batches) && i < |payloads|
    ensures var r := ReceiveAll(cat, id, warehouse, location, snapshot, st, payloads);
            r.Ok? ==>
              var at := payloads[i].line;
              at < |snapshot| && Confirmed(cat, r.value.batches, snapshot[at], r.value.lines[at], payloads[i])
    decreases |payloads|
  {
    hide ReceiveOne, Acceptable, IsPlace, Confirmed, UniqueBatches, Total, LogsPayloads, BookedOn;
    var first, rest := payloads[0], payloads[1..];
    var next := ReceiveOne(cat, id, warehouse, location, snapshot, st, first);
    var k := ReceiveOneBooks(cat, id, warehouse, location, snapshot, st, first);
    if next.Ok? {
      assert forall a | 0 < a < |payloads| :: payloads[a] == rest[a - 1];
      if i > 0 {
        NamedLineIsConfirmed(cat, id, warehouse, location, snapshot, next.value, rest, i - 1);
      } else {
        FirstNamesLine(cat, id, warehouse, location, snapshot, st, first);
        UnnamedLineStays(cat, id, warehouse, location, snapshot, next.value, rest, first.line);
        ReceiveAllBooks(cat, id, warehouse, location, snapshot, next.value, rest);
        var r := ReceiveAll(cat, id, warehouse, location, snapshot, next.value, rest);
        if r.Ok? {
          ConfirmedSurvives(
            cat, next.value.batches, r.value.batches, snapshot[first.line], next.value.lines[first.line], first);
        }
      }
    }
  }

  lemma ConfirmedSurvives(
      cat: Catalog, early: seq<Batch>, late: seq<Batch>, before: ReceiptLine, after: ReceiptLine, payload: Payload)
    requires early <= late && Confirmed(cat, early, before, after, payload)
    ensures Confirmed(cat, late, before, after, payload)
  {
  }

  // ---------- The calls ----------

  /** A receipt that may be confirmed at this location with these payloads. */
  ghost predicate Confirmable(cat: Catalog, receipt: Receipt, location: Id, submitted: Option<seq<Payload>>) {
    && (receipt.status == Draft || receipt.status == PartiallyReceived)
    && receipt.lines != []
    && location in cat.locations && cat.locations[location] == receipt.warehouse
    && (submitted.Some? ==> submitted.value != [] && DistinctPayloads(submitted.value))
  }

  /** A confirmation is accepted exactly when each payload, judged on the receipt before the call, is acceptable. */
  lemma ConfirmAcceptsIff(cat: Catalog, db: Db, id: Id, location: Id, submitted: Option<seq<Payload>>)
    ensures ConfirmReceipt(cat, db, id, location, submitted).Ok? <==>
              && id < |db.receipts| && Confirmable(cat, db.receipts[id], location, submitted)
              && AllAcceptable(cat, db.receipts[id].warehouse, db.receipts[id].lines,
                               PayloadsFor(db.receipts[id].lines, submitted))
  {
    hide ReceiveAll, AllAcceptable, PayloadsFor;
    if id < |db.receipts| && Confirmable(cat, db.receipts[id], location, submitted) {
      var receipt := db.receipts[id];
      ReceiveAllAcceptsIff(cat, id, receipt.warehouse, location, receipt.lines,
        ReceiveState(db.rows, db.batches, receipt.lines, db.moves), PayloadsFor(receipt.lines, submitted));
    }
  }

  /** The payloads of a call: those submitted, or one per line without quantity, code or date. */
  lemma PayloadsOfCall(lines: seq<ReceiptLine>, submitted: Option<seq<Payload>>)
    ensures var payloads := PayloadsFor(lines, submitted);
            if submitted.Some? then payloads == submitted.value
            else |payloads| == |lines| && forall i: nat | i < |lines| :: payloads[i] == Payload(i, None, None, None)
  {
  }

  /**
   * An accepted confirmation books what was submitted. Each line named ends at its received quantity plus the quantity
   * submitted, or at what is expected if none is named, and no other line changes. Stock rises by the same quantities,
   * as AVAILABLE stock on the product, the batch of the code, the location and the unit of measure, and on no other
   * key or status; and the log gains one line for each.
   */
  lemma ConfirmationBooksWhatIsSubmitted(cat: Catalog, db: Db, id: Id, location: Id, submitted: Option<seq<Payload>>)
    requires UniqueBatches(db.batches)
    ensures var r := ConfirmReceipt(cat, db, id, location, submitted);
            r.Ok? ==>
              var before, after := db.receipts[id].lines, r.value.receipts[id].lines;
              var payloads := PayloadsFor(before, submitted);
              && |after| == |before|
              && (forall i | 0 <= i < |payloads| :: payloads[i].line < |before|)
              && (forall i | 0 <= i < |payloads| ::
                    var line, payload := before[payloads[i].line], payloads[i];
                    && after[payload.line].received
                       == (if payload.received.Some? then line.received + payload.received.value else line.expected)
                    && Confirmed(cat, r.value.batches, line, after[payload.line], payload))
              && (forall j: Id | j < |before| && (forall i | 0 <= i < |payloads| :: payloads[i].line != j) ::
                    after[j] == before[j])
              && Receives(cat, id, location, before, ReceiveState(db.rows, db.batches, before, db.moves),
                          ReceiveState(r.value.rows, r.value.batches, after, r.value.moves), payloads)
  {
    hide ReceiveAll, PayloadsFor, Receives, UniqueBatches, DistinctPayloads;
    var r := ConfirmReceipt(cat, db, id, location, submitted);
    if r.Ok? {
      var receipt := db.receipts[id];
      var payloads := PayloadsFor(receipt.lines, submitted);
      var st := ReceiveState(db.rows, db.batches, receipt.lines, db.moves);
      PayloadsAreDistinct(receipt.lines, submitted);
      ReceiveAllBooks(cat, id, receipt.warehouse, location, receipt.lines, st, payloads);
      forall i | 0 <= i < |payloads|
        ensures Confirmed(cat, r.value.batches, receipt.lines[payloads[i].line],
                          r.value.receipts[id].lines[payloads[i].line], payloads[i])
      {
        NamedLineIsConfirmed(cat, id, receipt.warehouse, location, receipt.lines, st, payloads, i);
      }
      forall j: Id | j < |receipt.lines| && (forall i | 0 <= i < |payloads| :: payloads[i].line != j)
        ensures r.value.receipts[id].lines[j] == receipt.lines[j]
      {
        UnnamedLineStays(cat, id, receipt.warehouse, location, receipt.lines, st, payloads, j);
      }
    }
  }

  // ---------- Receiving from the floor ----------

  /** What receiving a quantity from the floor books: no more than is still expected. */
  function FloorQty(line: ReceiptLine, quantity: real): real {
    if quantity < line.expected - line.received then quantity else line.expected - line.received
  }

  function FloorCode(line: ReceiptLine, code: Option<string>): Option<string> {
    if code.Some? then code else line.batchCode
  }

  /**
   * Receiving from the floor is accepted exactly for an open receipt, a location of its warehouse, a line that still
   * expects something and a positive quantity, and, where batches are kept, a code. It books that quantity, or less if
   * less is expected, on the line, on its place in stock and in the log.
   */
  lemma FloorReceiptBooks(
    cat: Catalog, db: Db, id: Id, at: Id, quantity: real, code: Option<string>, location: Option<Id>)
    returns (k: Key)
    ensures var r := ReceiveLine(cat, db, id, at, quantity, code, location);
            && (r.Ok? <==>
                  && id < |db.receipts| && at < |db.receipts[id].lines|
                  && (db.receipts[id].status == Draft || db.receipts[id].status == PartiallyReceived)
                  && location.Some? && location.value in cat.locations
                  && cat.locations[location.value] == db.receipts[id].warehouse
                  && var line := db.receipts[id].lines[at];
                     && line.product in cat.products && 0.0 < FloorQty(line, quantity)
                     && (cat.products[line.product].requiresBatch ==>
                           FloorCode(line, code).Some? && FloorCode(line, code).value != ""))
            && (r.Ok? ==>
                  var line, line' := db.receipts[id].lines[at], r.value.receipts[id].lines[at];
                  && line'.received == line.received + FloorQty(line, quantity)
                  && line' == line.(received := line'.received, batchCode := FloorCode(line, code),
                                    batch := line'.batch)
                  && Books(cat, id, location.value,
                           ReceiveState(db.rows, db.batches, db.receipts[id].lines, db.moves),
                           ReceiveState(r.value.rows, r.value.batches, r.value.receipts[id].lines, r.value.moves),
                           at, line', FloorQty(line, quantity), k))
  {
    hide FindBatch, AddTo, BatchFor;
    k := Key(0, None, 0, "");
    if id < |db.receipts| && at < |db.receipts[id].lines| && location.Some? {
      var line := db.receipts[id].lines[at];
      if line.product in cat.products {
        var batchCode := FloorCode(line, code);
        var tracked, text := cat.products[line.product].requiresBatch,
            if batchCode.Some? then batchCode.value else "";
        BatchForHasCode(db.batches, tracked, line.product, text, None);
        k := Key(line.product, BatchFor(db.batches, tracked, line.product, text, None).1, location.value, line.uom);
      }
    }
  }

  /** After a confirmation or a floor receipt the receipt is RECEIVED exactly when no line is short. */
  lemma StatusTellsShortLines(
    cat: Catalog, db: Db, id: Id, place: Id, submitted: Option<seq<Payload>>, at: Id, quantity: real,
    code: Option<string>, location: Option<Id>)
    ensures var r := ConfirmReceipt(cat, db, id, place, submitted);
            r.Ok? ==> r.value.receipts[id].status == StatusOf(r.value.receipts[id].lines)
    ensures var r := ReceiveLine(cat, db, id, at, quantity, code, location);
            r.Ok? ==> r.value.receipts[id].status == StatusOf(r.value.receipts[id].lines)
  {
    hide ReceiveAll, TopUp;
  }

  function StatusOf(lines: seq<ReceiptLine>): ReceiptStatus {
    if exists i | 0 <= i < |lines| :: lines[i].received < lines[i].expected then PartiallyReceived else Received
  }
}
