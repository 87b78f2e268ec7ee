/** Stock rows and movement lines as tables, and the double-entry relation between them. */
module Stock {
  import opened Wrappers
  import opened Domain

  // ---------- Sums over stock rows ----------

  /** The where-clauses under which stock is summed. */
  datatype Filter =
    | OnKey(key: Key)
    | OnKeyStatus(atKey: Key, status: StockStatus)
    | AvailableIn(product: Id, warehouse: Id, locations: map<Id, Id>)

  predicate Matches(f: Filter, k: Key, s: StockStatus) {
    match f
    case OnKey(key) => k == key
    case OnKeyStatus(key, status) => k == key && s == status
    case AvailableIn(product, warehouse, locations) =>
      k.product == product && s == Available && k.location in locations && locations[k.location] == warehouse
  }

  function Share(f: Filter, r: Row): real {
    if Matches(f, r.key, r.status) then r.qty else 0.0
  }

  function Total(rows: seq<Row>, f: Filter): real {
    if rows == [] then 0.0 else Total(rows[..|rows| - 1], f) + Share(f, rows[|rows| - 1])
  }

  lemma {:induction false} TotalOfAppended(rows: seq<Row>, r: Row, f: Filter)
    ensures Total(rows + [r], f) == Total(rows, f) + Share(f, r)
  {
    assert (rows + [r])[..|rows|] == rows;
  }

  lemma {:induction false} TotalOfUpdated(rows: seq<Row>, i: nat, r: Row, f: Filter)
    requires i < |rows|
    ensures Total(rows[i := r], f) == Total(rows, f) - Share(f, rows[i]) + Share(f, r)
  {
    var n := |rows| - 1;
    if i == n {
      assert rows[i := r][..n] == rows[..n];
    } else {
      assert rows[i := r][..n] == rows[..n][i := r];
      TotalOfUpdated(rows[..n], i, r, f);
    }
  }

  // ---------- Row identity ----------

  predicate SameIdentity(a: Row, b: Row) {
    a.key == b.key && a.status == b.status
  }

  ghost predicate UniqueRows(rows: seq<Row>) {
    forall i, j | 0 <= i < j < |rows| :: !SameIdentity(rows[i], rows[j])
  }

  ghost predicate NonNegative(rows: seq<Row>) {
    forall i | 0 <= i < |rows| :: rows[i].qty >= 0.0
  }

  /** First row with the given key and status: the database's findFirst. */
  function Find(rows: seq<Row>, k: Key, s: StockStatus): (r: Option<nat>)
    ensures r.Some? ==> r.value < |rows| && rows[r.value].key == k && rows[r.value].status == s
    ensures r.Some? ==> forall j | 0 <= j < r.value :: !(rows[j].key == k && rows[j].status == s)
    ensures r.None? ==> forall j | 0 <= j < |rows| :: !(rows[j].key == k && rows[j].status == s)
  {
    if rows == [] then None else
    var n := |rows| - 1;
    var earlier := Find(rows[..n], k, s);
    if earlier.Some? then earlier
    else if rows[n].key == k && rows[n].status == s then Some(n)
    else None
  }

  /** Find-then-update or find-then-create. */
  function AddTo(rows: seq<Row>, k: Key, s: StockStatus, delta: real): (r: seq<Row>)
    ensures |rows| <= |r| <= |rows| + 1
    ensures forall i | 0 <= i < |rows| :: SameIdentity(rows[i], r[i])
  {
    var found := Find(rows, k, s);
    if found.Some? then rows[found.value := rows[found.value].(qty := rows[found.value].qty + delta)]
    else rows + [Row(k, s, delta)]
  }

  lemma AddToShifts(rows: seq<Row>, k: Key, s: StockStatus, delta: real, f: Filter)
    ensures Total(AddTo(rows, k, s, delta), f) == Total(rows, f) + (if Matches(f, k, s) then delta else 0.0)
  {
    var found := Find(rows, k, s);
    if found.Some? {
      TotalOfUpdated(rows, found.value, rows[found.value].(qty := rows[found.value].qty + delta), f);
    } else {
      TotalOfAppended(rows, Row(k, s, delta), f);
    }
  }

  lemma AddToKeepsRowInvariants(rows: seq<Row>, k: Key, s: StockStatus, delta: real)
    requires UniqueRows(rows) && NonNegative(rows) && delta >= 0.0
    ensures UniqueRows(AddTo(rows, k, s, delta)) && NonNegative(AddTo(rows, k, s, delta))
  {
  }

  /** With unique rows, findFirst is the whole group: its quantity is the group's sum. */
  lemma {:induction false} FoundRowIsTheGroup(rows: seq<Row>, k: Key, s: StockStatus)
    requires UniqueRows(rows)
    ensures var found := Find(rows, k, s);
            Total(rows, OnKeyStatus(k, s)) == if found.Some? then rows[found.value].qty else 0.0
  {
    if rows != [] {
      FoundRowIsTheGroup(rows[..|rows| - 1], k, s);
    }
  }

  lemma {:induction false} TotalIsNonNegative(rows: seq<Row>, f: Filter)
    requires NonNegative(rows)
    ensures Total(rows, f) >= 0.0
  {
    if rows != [] {
      TotalIsNonNegative(rows[..|rows| - 1], f);
    }
  }

  // ---------- Sums over movement lines ----------

  /** What is read off the movement lines. */
  datatype Meter =
    | NetInto(key: Key)
    | ReceivedBy(receipt: Id, product: Id, uom: string)
    | TakenOut(fromKey: Key)
    | ShippedBy(shipment: Id, shipped: Id)

  predicate Moves(m: Movement, k: Key) {
    m.product == k.product && m.batch == k.batch && m.uom == k.uom
  }

  function Reading(meter: Meter, m: Movement): real {
    match meter
    case NetInto(k) =>
      if !Moves(m, k) then 0.0
      else (if m.target == Some(k.location) then m.qty else 0.0) - (if m.source == Some(k.location) then m.qty else 0.0)
    case ReceivedBy(r, p, u) =>
      if m.kind == InboundReceipt && m.reference == ReceiptRef(r) && m.product == p && m.uom == u then m.qty else 0.0
    case TakenOut(k) =>
      if Moves(m, k) && m.source == Some(k.location) then m.qty else 0.0
    case ShippedBy(s, p) =>
      if m.reference == ShipmentRef(s) && m.product == p then m.qty else 0.0
  }

  function Tally(moves: seq<Movement>, meter: Meter): real {
    if moves == [] then 0.0 else Tally(moves[..|moves| - 1], meter) + Reading(meter, moves[|moves| - 1])
  }

  lemma TallyOfAppended(moves: seq<Movement>, m: Movement, meter: Meter)
    ensures Tally(moves + [m], meter) == Tally(moves, meter) + Reading(meter, m)
  {
    assert (moves + [m])[..|moves|] == moves;
  }

  lemma {:induction false} TallyOfConcatenation(a: seq<Movement>, b: seq<Movement>, meter: Meter)
    ensures Tally(a + b, meter) == Tally(a, meter) + Tally(b, meter)
  {
    if b == [] {
      assert a + b == a;
    } else {
      var n := |b| - 1;
      assert (a + b)[..|a| + n] == a + b[..n];
      TallyOfConcatenation(a, b[..n], meter);
    }
  }

  // ---------- Double entry ----------

  ghost predicate InBalance(rows: seq<Row>, moves: seq<Movement>, k: Key) {
    Total(rows, OnKey(k)) == Tally(moves, NetInto(k))
  }

  /** Stock on hand, over all statuses, is what the movement lines brought in minus what they took out. */
  ghost predicate Ledger(rows: seq<Row>, moves: seq<Movement>) {
    forall k :: InBalance(rows, moves, k)
  }

  ghost predicate StockOk(rows: seq<Row>, moves: seq<Movement>) {
    UniqueRows(rows) && NonNegative(rows) && Ledger(rows, moves)
  }
}
