/** Release of an outbound order: greedy allocation of AVAILABLE stock in FEFO or FIFO order. */
module Allocation {
  import opened Wrappers
  import opened Domain
  import opened Stock
  import opened Sorting

  // ---------- The query that lists the rows to allocate from ----------

  /** Positions of the matching rows, oldest first. */
  function Candidates(rows: seq<Row>, f: Filter): (ids: seq<nat>)
    ensures forall i | 0 <= i < |ids| :: ids[i] < |rows| && Matches(f, rows[ids[i]].key, rows[ids[i]].status)
    ensures forall i | 0 <= i < |rows| && Matches(f, rows[i].key, rows[i].status) :: i in ids
    ensures forall i, j | 0 <= i < j < |ids| :: ids[i] < ids[j]
  {
    if rows == [] then [] else
    var n := |rows| - 1;
    var earlier := Candidates(rows[..n], f);
    if Matches(f, rows[n].key, rows[n].status) then earlier + [n] else earlier
  }

  function Expiry(rows: seq<Row>, batches: seq<Batch>, id: nat): Option<int> {
    if id < |rows| && rows[id].key.batch.Some? && rows[id].key.batch.value < |batches|
    then batches[rows[id].key.batch.value].expiry
    else None
  }

  /** Ascending expiry date, rows without one last, ties by age. */
  predicate ExpiresFirst(a: Option<int>, b: Option<int>, i: nat, j: nat) {
    if a == b then i <= j else b.None? || (a.Some? && a.value < b.value)
  }

  function Fefo(rows: seq<Row>, batches: seq<Batch>): (nat, nat) -> bool {
    (i: nat, j: nat) => ExpiresFirst(Expiry(rows, batches, i), Expiry(rows, batches, j), i, j)
  }

  ghost predicate Within(ids: seq<nat>, n: nat) {
    forall i | 0 <= i < |ids| :: ids[i] < n
  }

  lemma PermutationStaysWithin(a: seq<nat>, b: seq<nat>, n: nat)
    requires multiset(a) == multiset(b) && Within(a, n)
    ensures Within(b, n)
  {
    forall i | 0 <= i < |b| ensures b[i] < n {
      assert b[i] in multiset(b);
      assert b[i] in a;
    }
  }

  function AllocationOrder(rows: seq<Row>, batches: seq<Batch>, f: Filter, fefo: bool): (ids: seq<nat>)
    ensures multiset(ids) == multiset(Candidates(rows, f))
    ensures Within(ids, |rows|)
  {
    PermutationStaysWithin(Candidates(rows, f), SortBy(Candidates(rows, f), Fefo(rows, batches)), |rows|);
    if fefo then SortBy(Candidates(rows, f), Fefo(rows, batches)) else Candidates(rows, f)
  }

  /** The row is of a batch that expires on this date. */
  predicate Dated(batches: seq<Batch>, row: Row, date: int) {
    && row.key.batch.Some? && row.key.batch.value < |batches|
    && batches[row.key.batch.value].expiry == Some(date)
  }

  /** Of two rows, the first expires earlier, or only the first expires at all. */
  ghost predicate Sooner(batches: seq<Batch>, a: Row, b: Row) {
    exists date :: Dated(batches, a, date) && forall other | Dated(batches, b, other) :: date < other
  }

  /** Every matching row exactly once, in the promised order. */
  ghost predicate IsQuery(ids: seq<nat>, rows: seq<Row>, batches: seq<Batch>, f: Filter, fefo: bool) {
    && Distinct(ids) && Within(ids, |rows|)
    && (forall i | 0 <= i < |ids| :: Matches(f, rows[ids[i]].key, rows[ids[i]].status))
    && (forall i: nat | i < |rows| && Matches(f, rows[i].key, rows[i].status) :: i in ids)
    && (forall i, j | 0 <= i < j < |ids| :: Precedes(rows, batches, fefo, ids[i], ids[j]))
  }

  /** By expiry date where that is asked for, rows without one last; otherwise, and between equal dates, by age. */
  ghost predicate Precedes(rows: seq<Row>, batches: seq<Batch>, fefo: bool, a: nat, b: nat)
    requires a < |rows| && b < |rows|
  {
    if fefo then Sooner(batches, rows[a], rows[b]) || (!Sooner(batches, rows[b], rows[a]) && a < b) else a < b
  }

  lemma FefoMeansDates(rows: seq<Row>, batches: seq<Batch>, a: nat, b: nat)
    requires a < |rows| && b < |rows| && a != b && Fefo(rows, batches)(a, b)
    ensures Precedes(rows, batches, true, a, b)
  {
    var x, y := Expiry(rows, batches, a), Expiry(rows, batches, b);
    assert forall date :: Dated(batches, rows[a], date) <==> x == Some(date);
    assert forall date :: Dated(batches, rows[b], date) <==> y == Some(date);
    if x.Some? {
      assert Dated(batches, rows[a], x.value);
    }
  }

  lemma FefoIsAnOrder(rows: seq<Row>, batches: seq<Batch>)
    ensures TotalPreorder(Fefo(rows, batches))
  {
    hide Expiry;
  }

  lemma AllocationOrderIsTheQuery(rows: seq<Row>, batches: seq<Batch>, f: Filter, fefo: bool)
    ensures IsQuery(AllocationOrder(rows, batches, f, fefo), rows, batches, f, fefo)
  {
    hide SortBy, Candidates, Expiry, ExpiresFirst, Sooner;
    var found := Candidates(rows, f);
    var ids := AllocationOrder(rows, batches, f, fefo);
    PermutationKeepsDistinct(found, ids);
    forall i | 0 <= i < |ids| ensures Matches(f, rows[ids[i]].key, rows[ids[i]].status) {
      SameElements(ids, found, ids[i]);
    }
    forall i: nat | i < |rows| && Matches(f, rows[i].key, rows[i].status) ensures i in ids {
      SameElements(ids, found, i);
    }
    if fefo {
      FefoIsAnOrder(rows, batches);
      SortBySorts(found, Fefo(rows, batches));
      assert SortedBy(ids, Fefo(rows, batches));
      forall i, j | 0 <= i < j < |ids| ensures Precedes(rows, batches, fefo, ids[i], ids[j]) {
        assert Fefo(rows, batches)(ids[i], ids[j]);
        FefoMeansDates(rows, batches, ids[i], ids[j]);
      }
    }
  }

  // ---------- Allocating one order line ----------

  datatype Progress = Progress(rows: seq<Row>, remaining: real, credited: real)

  /** Move qty of the row at id, last read as record, from AVAILABLE to RESERVED. */
  function Reserve(rows: seq<Row>, id: nat, record: Row, qty: real): seq<Row>
    requires id < |rows|
  {
    AddTo(rows[id := rows[id].(qty := record.qty - qty)], record.key, Reserved, qty)
  }

  function Min(a: real, b: real): real {
    if a < b then a else b
  }

  /** One pass of the inner loop: the row at id, as read into snapshot before the first write. */
  function TakeFrom(p: Progress, snapshot: seq<Row>, id: nat): (r: Progress)
    requires id < |snapshot| <= |p.rows|
    ensures |p.rows| <= |r.rows|
  {
    var record := snapshot[id];
    if record.qty <= 0.0 then p else
    var qty := Min(record.qty, p.remaining);
    Progress(Reserve(p.rows, id, record, qty), p.remaining - qty, p.credited + qty)
  }

  /** The inner loop over the listed rows. */
  function AllocateRows(p: Progress, snapshot: seq<Row>, ids: seq<nat>): (r: Progress)
    requires |snapshot| <= |p.rows| && Within(ids, |snapshot|)
    ensures |p.rows| <= |r.rows|
    decreases |ids|
  {
    if ids == [] || p.remaining <= 0.0 then p
    else AllocateRows(TakeFrom(p, snapshot, ids[0]), snapshot, ids[1..])
  }

  ghost predicate RowsOk(rows: seq<Row>) {
    UniqueRows(rows) && NonNegative(rows)
  }

  /** The rows still to visit are AVAILABLE, distinct and unchanged since they were read. */
  ghost predicate Fresh(rows: seq<Row>, snapshot: seq<Row>, ids: seq<nat>) {
    && |snapshot| <= |rows|
    && Distinct(ids)
    && Within(ids, |snapshot|)
    && forall i | 0 <= i < |ids| :: rows[ids[i]] == snapshot[ids[i]] && rows[ids[i]].status == Available
  }

  /** Rows keep their identity, and AVAILABLE rows outside ids keep their quantity. */
  ghost predicate Touches(before: seq<Row>, after: seq<Row>, ids: seq<nat>) {
    && |before| <= |after|
    && (forall i | 0 <= i < |before| :: SameIdentity(before[i], after[i]))
    && (forall i: nat | i < |before| && before[i].status == Available && i !in ids :: after[i] == before[i])
  }

  lemma FreshTail(rows: seq<Row>, snapshot: seq<Row>, ids: seq<nat>)
    requires Fresh(rows, snapshot, ids) && ids != []
    ensures Fresh(rows, snapshot, ids[1..]) && ids[0] !in ids[1..]
  {
    assert forall j | 0 <= j < |ids[1..]| :: ids[1..][j] == ids[j + 1];
  }

  lemma ReserveKeepsRows(rows: seq<Row>, id: nat, record: Row, qty: real)
    requires RowsOk(rows) && id < |rows| && rows[id] == record && record.status == Available
    requires 0.0 <= qty <= record.qty
    ensures var after := Reserve(rows, id, record, qty);
            RowsOk(after) && Touches(rows, after, [id]) && after[id].qty == record.qty - qty
  {
    var lowered := rows[id := rows[id].(qty := record.qty - qty)];
    assert UniqueRows(lowered) by {
      forall i, j | 0 <= i < j < |lowered| ensures !SameIdentity(lowered[i], lowered[j]) {
        assert !SameIdentity(rows[i], rows[j]);
      }
    }
    AddToKeepsRowInvariants(lowered, record.key, Reserved, qty);
  }

  lemma TakeKeepsRows(p: Progress, snapshot: seq<Row>, ids: seq<nat>)
    requires RowsOk(p.rows) && Fresh(p.rows, snapshot, ids) && ids != [] && 0.0 < p.remaining
    ensures var r := TakeFrom(p, snapshot, ids[0]);
            && RowsOk(r.rows) && Fresh(r.rows, snapshot, ids[1..]) && Touches(p.rows, r.rows, ids[..1])
            && p.remaining - r.remaining == r.credited - p.credited >= 0.0
            && 0.0 <= r.remaining
            && (0.0 < r.remaining ==> r.rows[ids[0]].qty == 0.0)
  {
    FreshTail(p.rows, snapshot, ids);
    var record := snapshot[ids[0]];
    assert p.rows[ids[0]] == record;
    if 0.0 < record.qty {
      ReserveKeepsRows(p.rows, ids[0], record, Min(record.qty, p.remaining));
    }
    var r := TakeFrom(p, snapshot, ids[0]);
    assert forall i: nat | i !in ids[..1] :: i !in [ids[0]];
    forall j | 0 <= j < |ids[1..]|
      ensures r.rows[ids[1..][j]] == snapshot[ids[1..][j]]
    {
      assert ids[1..][j] == ids[j + 1] != ids[0];
      assert p.rows[ids[j + 1]].status == Available;
    }
  }

  /** What one pass adds to or removes from any sum of stock. */
  lemma TakeShifts(p: Progress, snapshot: seq<Row>, id: nat, f: Filter)
    requires id < |snapshot| <= |p.rows| && p.rows[id] == snapshot[id] && p.rows[id].status == Available
    ensures var r := TakeFrom(p, snapshot, id);
            Total(r.rows, f) == Total(p.rows, f)
              - (if Matches(f, snapshot[id].key, Available) then r.credited - p.credited else 0.0)
              + (if Matches(f, snapshot[id].key, Reserved) then r.credited - p.credited else 0.0)
  {
    var record := snapshot[id];
    if 0.0 < record.qty {
      var qty := Min(record.qty, p.remaining);
      var lowered := p.rows[id := p.rows[id].(qty := record.qty - qty)];
      TotalOfUpdated(p.rows, id, lowered[id], f);
      AddToShifts(lowered, record.key, Reserved, qty, f);
    }
  }

  lemma TouchesInTurn(a: seq<Row>, b: seq<Row>, c: seq<Row>, first: seq<nat>, rest: seq<nat>)
    requires Touches(a, b, first) && Touches(b, c, rest)
    ensures Touches(a, c, first + rest)
  {
    forall i | 0 <= i < |a| ensures SameIdentity(a[i], c[i]) {
      assert SameIdentity(a[i], b[i]) && SameIdentity(b[i], c[i]);
    }
    forall i: nat | i < |a| && a[i].status == Available && i !in first + rest ensures c[i] == a[i] {
      assert b[i] == a[i];
    }
  }

  /** Row invariants survive, and what is taken is what is credited. */
  lemma {:induction false} AllocateRowsKeepsRows(p: Progress, snapshot: seq<Row>, ids: seq<nat>)
    requires RowsOk(p.rows) && Fresh(p.rows, snapshot, ids)
    ensures var r := AllocateRows(p, snapshot, ids);
            && RowsOk(r.rows) && Touches(p.rows, r.rows, ids)
            && p.remaining - r.remaining == r.credited - p.credited >= 0.0
            && (0.0 <= p.remaining ==> 0.0 <= r.remaining)
    decreases |ids|
  {
    if ids != [] && 0.0 < p.remaining {
      var next := TakeFrom(p, snapshot, ids[0]);
      TakeKeepsRows(p, snapshot, ids);
      AllocateRowsKeepsRows(next, snapshot, ids[1..]);
      TouchesInTurn(p.rows, next.rows, AllocateRows(next, snapshot, ids[1..]).rows, ids[..1], ids[1..]);
      assert ids[..1] + ids[1..] == ids;
    }
  }

  /** No row loses stock unless every row listed before it is drained. */
  ghost predicate Greedy(snapshot: seq<Row>, after: seq<Row>, ids: seq<nat>)
    requires |snapshot| <= |after| && Within(ids, |snapshot|)
  {
    forall i, j | 0 <= i < j < |ids| && after[ids[j]] != snapshot[ids[j]] :: after[ids[i]].qty == 0.0
  }

  ghost predicate Drained(rows: seq<Row>, ids: seq<nat>)
    requires Within(ids, |rows|)
  {
    forall i | 0 <= i < |ids| :: rows[ids[i]].qty == 0.0
  }

  lemma UntouchedWhenSatisfied(rows: seq<Row>, snapshot: seq<Row>, ids: seq<nat>)
    requires Fresh(rows, snapshot, ids)
    ensures Greedy(snapshot, rows, ids)
  {
  }

  /**
   * Rows are drained in the listed order, and the search for stock only stops when the line is satisfied
   * or every listed row is drained.
   */
  lemma {:induction false} AllocateRowsIsGreedy(p: Progress, snapshot: seq<Row>, ids: seq<nat>)
    requires RowsOk(p.rows) && Fresh(p.rows, snapshot, ids)
    ensures var r := AllocateRows(p, snapshot, ids);
            && Greedy(snapshot, r.rows, ids)
            && (0.0 < r.remaining ==> Drained(r.rows, ids))
    decreases |ids|
  {
    if ids == [] || p.remaining <= 0.0 {
      UntouchedWhenSatisfied(p.rows, snapshot, ids);
    } else {
      var next, rest := TakeFrom(p, snapshot, ids[0]), ids[1..];
      TakeKeepsRows(p, snapshot, ids);
      FreshTail(p.rows, snapshot, ids);
      AllocateRowsKeepsRows(next, snapshot, rest);
      AllocateRowsIsGreedy(next, snapshot, rest);
      var r := AllocateRows(next, snapshot, rest);
      assert r.rows[ids[0]] == next.rows[ids[0]];
      assert forall j | 0 < j < |ids| :: ids[j] == rest[j - 1];
    }
  }

  /** A sum that treats AVAILABLE and RESERVED alike does not move. */
  lemma {:induction false} AllocateRowsIsNeutral(p: Progress, snapshot: seq<Row>, ids: seq<nat>, f: Filter)
    requires RowsOk(p.rows) && Fresh(p.rows, snapshot, ids)
    requires forall i | 0 <= i < |ids| ::
        Matches(f, snapshot[ids[i]].key, Available) == Matches(f, snapshot[ids[i]].key, Reserved)
    ensures Total(AllocateRows(p, snapshot, ids).rows, f) == Total(p.rows, f)
    decreases |ids|
  {
    if ids != [] && 0.0 < p.remaining {
      TakeKeepsRows(p, snapshot, ids);
      TakeShifts(p, snapshot, ids[0], f);
      AllocateRowsIsNeutral(TakeFrom(p, snapshot, ids[0]), snapshot, ids[1..], f);
    }
  }

  /** A sum over AVAILABLE stock that all listed rows belong to falls by exactly what is credited. */
  lemma {:induction false} AllocateRowsDraws(p: Progress, snapshot: seq<Row>, ids: seq<nat>, f: Filter)
    requires RowsOk(p.rows) && Fresh(p.rows, snapshot, ids)
    requires forall i | 0 <= i < |ids| ::
               Matches(f, snapshot[ids[i]].key, Available) && !Matches(f, snapshot[ids[i]].key, Reserved)
    ensures var r := AllocateRows(p, snapshot, ids);
            Total(r.rows, f) == Total(p.rows, f) - (r.credited - p.credited)
    decreases |ids|
  {
    if ids != [] && 0.0 < p.remaining {
      TakeKeepsRows(p, snapshot, ids);
      TakeShifts(p, snapshot, ids[0], f);
      AllocateRowsDraws(TakeFrom(p, snapshot, ids[0]), snapshot, ids[1..], f);
    }
  }

  /** AVAILABLE loss equals RESERVED gain, key by key. */
  lemma {:induction false} AllocateRowsCrosses(p: Progress, snapshot: seq<Row>, ids: seq<nat>, k: Key)
    requires RowsOk(p.rows) && Fresh(p.rows, snapshot, ids)
    ensures var r := AllocateRows(p, snapshot, ids);
            Total(p.rows, OnKeyStatus(k, Available)) - Total(r.rows, OnKeyStatus(k, Available))
            == Total(r.rows, OnKeyStatus(k, Reserved)) - Total(p.rows, OnKeyStatus(k, Reserved)) >= 0.0
    decreases |ids|
  {
    if ids != [] && 0.0 < p.remaining {
      TakeKeepsRows(p, snapshot, ids);
      TakeShifts(p, snapshot, ids[0], OnKeyStatus(k, Available));
      TakeShifts(p, snapshot, ids[0], OnKeyStatus(k, Reserved));
      AllocateRowsCrosses(TakeFrom(p, snapshot, ids[0]), snapshot, ids[1..], k);
    }
  }
}
