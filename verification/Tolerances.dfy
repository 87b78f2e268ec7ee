/** The tolerances of the inventory policy: which calls enforce them, and when a whole run respects the upper one. */
module Tolerances {
  import opened Wrappers
  import opened Domain
  import opened Inbound
  import opened ReceiptLifecycle
  import opened Receiving
  import opened Release
  import opened Picking
  import opened Counting
  import opened Shipping
  import opened Machine
  import opened RunBounds

  // ---------- Both tolerances in a confirmation ----------

  /** received is at most the allowed percentage above what is expected, and at most the other below it. */
  predicate Tolerated(cat: Catalog, warehouse: Id, line: ReceiptLine) {
    InTolerance(cat, warehouse, line, line.received)
  }

  lemma ReceivedOneIsTolerated(
    cat: Catalog, id: Id, warehouse: Id, location: Id, snapshot: seq<ReceiptLine>, st: ReceiveState, payload: Payload)
    requires |st.lines| == |snapshot|
    ensures var r := ReceiveOne(cat, id, warehouse, location, snapshot, st, payload);
            r.Ok? ==>
              && payload.line < |snapshot| && Tolerated(cat, warehouse, r.value.lines[payload.line])
              && forall i | 0 <= i < |snapshot| && i != payload.line :: r.value.lines[i] == st.lines[i]
  {
    hide IncreaseStock, BatchFor, InTolerance, WithinTolerance;
    var r := ReceiveOne(cat, id, warehouse, location, snapshot, st, payload);
    if r.Ok? {
      var before, after := snapshot[payload.line], r.value.lines[payload.line];
      InToleranceIff(cat, warehouse, before, after.received);
      ToleranceDependsOnExpectation(cat, warehouse, before, after, after.received);
    }
  }

  lemma ToleranceDependsOnExpectation(
      cat: Catalog, warehouse: Id, a: ReceiptLine, b: ReceiptLine, total: real)
    requires a.product == b.product && a.expected == b.expected
    ensures InTolerance(cat, warehouse, a, total) <==> InTolerance(cat, warehouse, b, total)
  {
  }

  /** An accepted confirmation leaves every line it names within both tolerances, and no other line changed. */
  lemma {:induction false} ConfirmedLinesAreTolerated(
    cat: Catalog, id: Id, warehouse: Id, location: Id, snapshot: seq<ReceiptLine>, st: ReceiveState,
    payloads: seq<Payload>, at: Id)
    requires |st.lines| == |snapshot| && at < |snapshot|
    ensures var r := ReceiveAll(cat, id, warehouse, location, snapshot, st, payloads);
            r.Ok? ==>
              if exists a | 0 <= a < |payloads| :: payloads[a].line == at
              then Tolerated(cat, warehouse, r.value.lines[at])
              else r.value.lines[at] == st.lines[at]
    decreases |payloads|
  {
    hide ReceiveOne, Tolerated;
    if payloads != [] {
      var next := ReceiveOne(cat, id, warehouse, location, snapshot, st, payloads[0]);
      ReceivedOneIsTolerated(cat, id, warehouse, location, snapshot, st, payloads[0]);
      if next.Ok? {
        var rest := payloads[1..];
        assert forall a | 0 <= a < |rest| :: rest[a] == payloads[a + 1];
        ConfirmedLinesAreTolerated(cat, id, warehouse, location, snapshot, next.value, rest, at);
        if a :| 0 < a < |payloads| && payloads[a].line == at {
          assert rest[a - 1].line == at;
        }
      }
    }
  }

  // ---------- The upper tolerance over runs ----------

  function Limit(cat: Catalog, warehouse: Id, line: ReceiptLine): real {
    line.expected * (1.0 + OverPct(cat, warehouse, line.product) / 100.0)
  }

  predicate UnderLimit(cat: Catalog, warehouse: Id, line: ReceiptLine) {
    line.received <= Limit(cat, warehouse, line)
  }

  ghost predicate LinesUnderLimit(cat: Catalog, warehouse: Id, lines: seq<ReceiptLine>) {
    forall i | 0 <= i < |lines| :: UnderLimit(cat, warehouse, lines[i])
  }

  ghost predicate ReceiptUnderLimit(cat: Catalog, receipt: Receipt) {
    LinesUnderLimit(cat, receipt.warehouse, receipt.lines)
  }

  ghost predicate AllUnderLimit(cat: Catalog, receipts: seq<Receipt>) {
    forall i | 0 <= i < |receipts| :: ReceiptUnderLimit(cat, receipts[i])
  }

  /**
   * Receiving from the floor: the percentage is not negative, or what is received so far and now stays under the
   * limit.
   */
  predicate FloorReceiptFits(cat: Catalog, db: Db, id: Id, at: Id, quantity: real) {
    id < |db.receipts| && at < |db.receipts[id].lines| ==>
      var warehouse, line := db.receipts[id].warehouse, db.receipts[id].lines[at];
      0.0 <= OverPct(cat, warehouse, line.product) || line.received + quantity <= Limit(cat, warehouse, line)
  }

  /** The check a caller can make before a call; only two of the calls can break the limit. */
  predicate RespectsLimit(cat: Catalog, db: Db, step: Step) {
    match step
    case AddLineStep(id, product, _, _, _, _) =>
      id < |db.receipts| ==> -100.0 <= OverPct(cat, db.receipts[id].warehouse, product)
    case ReceiveLineStep(id, at, quantity, _, _) => FloorReceiptFits(cat, db, id, at, quantity)
    case _ => true
  }

  lemma EmptyLineUnderLimitIff(cat: Catalog, warehouse: Id, line: ReceiptLine)
    requires 0.0 < line.expected && line.received == 0.0
    ensures UnderLimit(cat, warehouse, line) <==> -100.0 <= OverPct(cat, warehouse, line.product)
  {
    var factor := 1.0 + OverPct(cat, warehouse, line.product) / 100.0;
    if 0.0 <= factor {
      ScaleIsMonotone(line.expected, 0.0, factor);
    } else {
      ScaleIsMonotone(line.expected, factor, 0.0);
    }
  }

  lemma ReplacedLineUnderLimitIff(
      cat: Catalog, receipts: seq<Receipt>, id: Id, lines: seq<ReceiptLine>, status: ReceiptStatus, at: Id)
    requires id < |receipts| && AllUnderLimit(cat, receipts) && at < |lines|
    requires forall i | 0 <= i < |lines| && i != at :: UnderLimit(cat, receipts[id].warehouse, lines[i])
    ensures AllUnderLimit(cat, receipts[id := receipts[id].(lines := lines, status := status)])
            <==> UnderLimit(cat, receipts[id].warehouse, lines[at])
  {
    hide UnderLimit;
    var after := receipts[id := receipts[id].(lines := lines, status := status)];
    if AllUnderLimit(cat, after) {
      assert ReceiptUnderLimit(cat, after[id]);
    }
    if UnderLimit(cat, receipts[id].warehouse, lines[at]) {
      forall i | 0 <= i < |after| ensures ReceiptUnderLimit(cat, after[i]) {
        assert i != id ==> after[i] == receipts[i];
      }
    }
  }

  lemma AddLineKeepsLimitIff(
    cat: Catalog, db: Db, id: Id, product: Id, expected: real, uom: string, code: Option<string>, expiry: Option<int>)
    requires AllUnderLimit(cat, db.receipts)
    ensures var r := AddLine(cat, db, id, product, expected, uom, code, expiry);
            r.Ok? ==>
              && id < |db.receipts|
              && (AllUnderLimit(cat, r.value.receipts) <==> -100.0 <= OverPct(cat, db.receipts[id].warehouse, product))
  {
    hide UnderLimit;
    var r := AddLine(cat, db, id, product, expected, uom, code, expiry);
    if r.Ok? {
      var receipt := db.receipts[id];
      var line := ReceiptLine(product, expected, 0.0, uom, code, expiry, None);
      var lines := receipt.lines + [line];
      EmptyLineUnderLimitIff(cat, receipt.warehouse, line);
      assert ReceiptUnderLimit(cat, receipt);
      forall i | 0 <= i < |lines| && i != |receipt.lines| ensures UnderLimit(cat, receipt.warehouse, lines[i]) {
        assert lines[i] == receipt.lines[i];
      }
      ReplacedLineUnderLimitIff(cat, db.receipts, id, lines, receipt.status, |receipt.lines|);
    }
  }

  /** What filling a line from the floor does to it. */
  lemma FloorLine(cat: Catalog, db: Db, id: Id, at: Id, quantity: real, code: Option<string>, location: Option<Id>)
    ensures var r := ReceiveLine(cat, db, id, at, quantity, code, location);
            r.Ok? ==>
              && id < |db.receipts| && at < |db.receipts[id].lines|
              && r.value.receipts == db.receipts[id := r.value.receipts[id]]
              && var lines, after := db.receipts[id].lines, r.value.receipts[id];
                 && after.warehouse == db.receipts[id].warehouse && after.lines == lines[at := after.lines[at]]
                 && after.lines[at].product == lines[at].product && after.lines[at].expected == lines[at].expected
                 && after.lines[at].received ==
                      if lines[at].received + quantity > lines[at].expected then lines[at].expected
                      else lines[at].received + quantity
  {
    hide IncreaseStock, BatchFor;
  }

  lemma FilledUnderLimitIff(cat: Catalog, warehouse: Id, before: ReceiptLine, after: ReceiptLine, quantity: real)
    requires 0.0 < before.expected && after.product == before.product && after.expected == before.expected
    requires after.received == if before.received + quantity > before.expected then before.expected
        else before.received + quantity
    ensures UnderLimit(cat, warehouse, after)
            <==> 0.0 <= OverPct(cat, warehouse, before.product)
                 || before.received + quantity <= Limit(cat, warehouse, before)
  {
    FullLineWithinToleranceIff(cat, warehouse, before);
  }

  /** A line received from the floor ends under the limit exactly when the caller respected it. */
  lemma FloorReceiptKeepsLimitIff(
    cat: Catalog, db: Db, id: Id, at: Id, quantity: real, code: Option<string>, location: Option<Id>)
    requires InboundOk(cat, db) && AllUnderLimit(cat, db.receipts)
    ensures var r := ReceiveLine(cat, db, id, at, quantity, code, location);
            r.Ok? ==> (AllUnderLimit(cat, r.value.receipts) <==> FloorReceiptFits(cat, db, id, at, quantity))
  {
    hide UnderLimit, ReceiveLine, Limit;
    var r := ReceiveLine(cat, db, id, at, quantity, code, location);
    if r.Ok? {
      FloorLine(cat, db, id, at, quantity, code, location);
      var receipt, after := db.receipts[id], r.value.receipts[id];
      assert ReceiptOk(cat, db.moves, id, receipt) && LineOk(cat, receipt.warehouse, receipt.lines[at]);
      FilledUnderLimitIff(cat, receipt.warehouse, receipt.lines[at], after.lines[at], quantity);
      assert ReceiptUnderLimit(cat, receipt);
      ReplacedLineUnderLimitIff(cat, db.receipts, id, after.lines, after.status, at);
      assert after == receipt.(lines := after.lines, status := after.status);
    }
  }

  lemma ConfirmKeepsLimit(cat: Catalog, db: Db, id: Id, location: Id, submitted: Option<seq<Payload>>)
    requires AllUnderLimit(cat, db.receipts)
    ensures var r := ConfirmReceipt(cat, db, id, location, submitted);
            r.Ok? ==> AllUnderLimit(cat, r.value.receipts)
  {
    hide ReceiveAll;
    var r := ConfirmReceipt(cat, db, id, location, submitted);
    if r.Ok? {
      var receipt := db.receipts[id];
      var st, payloads :=
          ReceiveState(db.rows, db.batches, receipt.lines, db.moves), PayloadsFor(receipt.lines, submitted);
      assert ReceiptUnderLimit(cat, receipt);
      forall at: Id | at < |receipt.lines| ensures UnderLimit(cat, receipt.warehouse, r.value.receipts[id].lines[at]) {
        ConfirmedLinesAreTolerated(cat, id, receipt.warehouse, location, receipt.lines, st, payloads, at);
      }
      forall i | 0 <= i < |db.receipts| ensures ReceiptUnderLimit(cat, r.value.receipts[i]) {
        assert i != id ==> r.value.receipts[i] == db.receipts[i];
      }
    }
  }

  lemma OtherStepsKeepLimit(cat: Catalog, db: Db, step: Step)
    requires AllUnderLimit(cat, db.receipts)
    requires !step.AddLineStep? && !step.ReceiveLineStep? && !step.ConfirmReceiptStep?
    ensures AllUnderLimit(cat, After(cat, db, step).receipts)
  {
    hide AllocateLines, MarkAll, AdjustAll, PackAll, LinkUnits, DispatchLog, NewCountLines, PickAll, UnderLimit;
    if step.CompleteReceiptStep? && Apply(cat, db, step).Ok? {
      assert ReceiptUnderLimit(cat, db.receipts[step.receipt]);
    }
  }

  lemma StepKeepsLimitIff(cat: Catalog, db: Db, step: Step)
    requires Inv(cat, db) && AllUnderLimit(cat, db.receipts)
    ensures AllUnderLimit(cat, After(cat, db, step).receipts)
        <==> (Apply(cat, db, step).Ok? ==> RespectsLimit(cat, db, step))
  {
    hide AllUnderLimit, InboundOk, AddLine, ReceiveLine, ConfirmReceipt;
    match step
    case AddLineStep(r, p, q, u, c, e) => AddLineKeepsLimitIff(cat, db, r, p, q, u, c, e);
    case ReceiveLineStep(r, a, q, c, l) => FloorReceiptKeepsLimitIff(cat, db, r, a, q, c, l);
    case ConfirmReceiptStep(r, l, s) => ConfirmKeepsLimit(cat, db, r, l, s);
    case _ =>
      hide Apply;
      OtherStepsKeepLimit(cat, db, step);
  }

  ghost function ReceiptsUnderLimit(cat: Catalog): Db -> bool {
    (db: Db) => AllUnderLimit(cat, db.receipts)
  }

  ghost function LimitRule(cat: Catalog): (Db, Step) -> bool {
    (db: Db, step: Step) => RespectsLimit(cat, db, step)
  }

  /**
   * A run from an empty tenant keeps every line at or under expected * (1 + maxOverPct / 100) in all its states
   * exactly when every accepted call respects the limit; with percentages of zero and more, every call does.
   */
  lemma LimitHoldsIff(cat: Catalog, steps: seq<Step>)
    ensures Throughout(cat, EMPTY_DB, steps, ReceiptsUnderLimit(cat))
        <==> AllRespect(cat, EMPTY_DB, steps, LimitRule(cat))
    ensures (forall w, p :: 0.0 <= OverPct(cat, w, p)) ==> AllRespect(cat, EMPTY_DB, steps, LimitRule(cat))
  {
    hide Inv, After, Apply, Run;
    forall db, step | Inv(cat, db) && ReceiptsUnderLimit(cat)(db)
      ensures ReceiptsUnderLimit(cat)(After(cat, db, step)) <==> (Apply(cat, db, step).Ok? ==> LimitRule(cat)(db, step))
    {
      StepKeepsLimitIff(cat, db, step);
    }
    RunKeepsIff(cat, steps, ReceiptsUnderLimit(cat), LimitRule(cat));
  }
}
