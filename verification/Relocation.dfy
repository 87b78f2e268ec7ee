/** Relocation suggestions: inside each warehouse, rows far above the mean give to rows far below it. */
module Relocation {
  import opened Wrappers
  import opened Sorting

  datatype StockRow = StockRow(warehouse: nat, product: nat, location: nat, qty: real)

  /** A row read from the table: its position and its quantity at that moment. */
  datatype Record = Record(row: nat, qty: real)

  /** Where the source reports the product and locations of the two rows, this keeps the rows themselves. */
  datatype Suggestion = Suggestion(warehouse: nat, donor: Record, receiver: Record, quantity: real)

  // ---------- One warehouse ----------

  function Records(rows: seq<StockRow>, w: nat): seq<Record> {
    if rows == [] then [] else
    var n := |rows| - 1;
    Records(rows[..n], w) + (if rows[n].warehouse == w then [Record(n, rows[n].qty)] else [])
  }

  function SumQty(records: seq<Record>): real {
    if records == [] then 0.0 else SumQty(records[..|records| - 1]) + records[|records| - 1].qty
  }

  function Mean(records: seq<Record>): real {
    SumQty(records) / (if |records| == 0 then 1 else |records|) as real
  }

  function Above(records: seq<Record>, limit: real): seq<Record> {
    if records == [] then [] else
    var n := |records| - 1;
    Above(records[..n], limit) + (if records[n].qty > limit then [records[n]] else [])
  }

  function Below(records: seq<Record>, limit: real): seq<Record> {
    if records == [] then [] else
    var n := |records| - 1;
    Below(records[..n], limit) + (if records[n].qty < limit then [records[n]] else [])
  }

  predicate MoreFirst(a: Record, b: Record) {
    a.qty >= b.qty
  }

  predicate LessFirst(a: Record, b: Record) {
    a.qty <= b.qty
  }

  function Donors(records: seq<Record>): seq<Record> {
    SortBy(Above(records, Mean(records) * 1.25), MoreFirst)
  }

  function Receivers(records: seq<Record>): seq<Record> {
    SortBy(Below(records, Mean(records) * 0.75), LessFirst)
  }

  function Min(a: real, b: real): real {
    if a <= b then a else b
  }

  function Ceil(x: real): int {
    -((-x).Floor)
  }

  function MoveQty(avg: real, d: real, r: real): real {
    var c := Ceil(Min(d - avg, avg - r));
    if c > 1 then c as real else 1.0
  }

  function Pair(w: nat, avg: real, donor: Record, receiver: Record): Suggestion {
    Suggestion(w, donor, receiver, MoveQty(avg, donor.qty, receiver.qty))
  }

  /** The queues are paired head to head while both last and there is room for another suggestion. */
  function PairOff(w: nat, avg: real, donors: seq<Record>, receivers: seq<Record>, room: int): seq<Suggestion> {
    if donors == [] || receivers == [] || room <= 0 then [] else
    [Pair(w, avg, donors[0], receivers[0])] + PairOff(w, avg, donors[1..], receivers[1..], room - 1)
  }

  function SuggestIn(rows: seq<StockRow>, w: nat, room: int): seq<Suggestion> {
    var records := Records(rows, w);
    PairOff(w, Mean(records), Donors(records), Receivers(records), room)
  }

  /** The warehouses are visited in the order ws and share one limit. */
  function Visit(suggest: (nat, int) -> seq<Suggestion>, ws: seq<nat>, limit: int): seq<Suggestion> {
    if ws == [] then [] else
    var earlier := Visit(suggest, ws[..|ws| - 1], limit);
    earlier + suggest(ws[|ws| - 1], limit - |earlier|)
  }

  function Suggester(rows: seq<StockRow>): (nat, int) -> seq<Suggestion> {
    (w: nat, room: int) => SuggestIn(rows, w, room)
  }

  function SuggestAll(rows: seq<StockRow>, ws: seq<nat>, limit: int): seq<Suggestion> {
    Visit(Suggester(rows), ws, limit)
  }

  lemma VisitAppended(suggest: (nat, int) -> seq<Suggestion>, ws: seq<nat>, w: nat, limit: int)
    ensures Visit(suggest, ws + [w], limit)
         == Visit(suggest, ws, limit) + suggest(w, limit - |Visit(suggest, ws, limit)|)
  {
    var all := ws + [w];
    assert all[..|all| - 1] == ws && all[|all| - 1] == w;
  }

  // ---------- One move ----------

  lemma CeilBounds(x: real)
    ensures x <= Ceil(x) as real < x + 1.0
  {
  }

  lemma CeilIsLeast(x: real, k: int)
    requires x <= k as real
    ensures Ceil(x) <= k
  {
    CeilBounds(x);
  }

  lemma MoveIsCeiling(avg: real, d: real, r: real)
    requires d > avg > r
    ensures MoveQty(avg, d, r) == Ceil(Min(d - avg, avg - r)) as real >= 1.0
  {
    CeilBounds(Min(d - avg, avg - r));
  }

  /** A move leaves the donor less than one unit under the mean and the receiver less than one over it. */
  lemma MoveStopsAtMean(avg: real, d: real, r: real)
    requires d > avg > r
    ensures d - MoveQty(avg, d, r) > avg - 1.0 && r + MoveQty(avg, d, r) < avg + 1.0
  {
    MoveIsCeiling(avg, d, r);
    CeilBounds(Min(d - avg, avg - r));
  }

  /** A move takes no more than the donor has exactly when the donor has at least one unit. */
  lemma MoveIsCoveredIff(avg: real, d: real, r: real)
    requires d > avg > r >= 0.0
    ensures MoveQty(avg, d, r) <= d <==> d >= 1.0
  {
    MoveIsCeiling(avg, d, r);
    MoveAtMostGapIff(avg, d, r);
    if d >= 1.0 && d - r < 1.0 {
      CeilIsLeast(Min(d - avg, avg - r), 1);
    }
  }

  lemma MoveAtMostGapIff(avg: real, d: real, r: real)
    requires d > avg > r
    ensures MoveQty(avg, d, r) <= d - r <==> d - r >= 1.0
  {
    var x := Min(d - avg, avg - r);
    MoveIsCeiling(avg, d, r);
    CeilBounds(x);
    assert x + x <= d - r;
    if 1.0 <= d - r < 2.0 {
      CeilIsLeast(x, 1);
    }
  }

  function Square(x: real): real {
    x * x
  }

  lemma SquaresChange(d: real, r: real, q: real)
    ensures Square(d - q) + Square(r + q) - (Square(d) + Square(r)) == 2.0 * (q * (q - (d - r)))
  {
  }

  lemma SquaresAfterMove(d: real, r: real, q: real)
    requires q > 0.0
    ensures Square(d - q) + Square(r + q) <= Square(d) + Square(r) <==> q <= d - r
  {
    hide Square;
    SquaresChange(d, r, q);
    SignOfProduct(q, q - (d - r));
  }

  lemma SignOfProduct(q: real, gap: real)
    requires q > 0.0
    ensures q * gap <= 0.0 <==> gap <= 0.0
  {
    if gap <= 0.0 {
      assert q * gap <= 0.0;
    } else {
      assert q * gap > 0.0;
    }
  }

  predicate IsWhole(q: real) {
    q == q.Floor as real
  }

  lemma WholeOverFloor(k: int, x: real)
    requires k as real > x - 1.0
    ensures k >= x.Floor
  {
  }

  lemma WholeUnderCeil(k: int, x: real)
    requires (k as real) < x + 1.0
    ensures k <= Ceil(x)
  {
    CeilBounds(x);
  }

  lemma WholeMoveStopsAtMean(avg: real, d: int, r: int)
    requires d as real > avg > r as real
    ensures d as real - MoveQty(avg, d as real, r as real) >= avg.Floor as real
    ensures r as real + MoveQty(avg, d as real, r as real) <= Ceil(avg) as real
  {
    var q := Ceil(Min(d as real - avg, avg - r as real));
    MoveIsCeiling(avg, d as real, r as real);
    MoveStopsAtMean(avg, d as real, r as real);
    WholeOverFloor(d - q, avg);
    WholeUnderCeil(r + q, avg);
  }

  // ---------- Each row is used at most once ----------

  ghost predicate NonNegative(rows: seq<StockRow>) {
    forall i | 0 <= i < |rows| :: 0.0 <= rows[i].qty
  }

  ghost predicate Whole(rows: seq<StockRow>) {
    forall i | 0 <= i < |rows| :: IsWhole(rows[i].qty)
  }

  /** The record shows the present quantity of a row of warehouse w. */
  ghost predicate Shows(rows: seq<StockRow>, w: nat, rec: Record) {
    rec.row < |rows| && rows[rec.row].warehouse == w && rows[rec.row].qty == rec.qty
  }

  ghost predicate AllShow(rows: seq<StockRow>, w: nat, records: seq<Record>) {
    forall i | 0 <= i < |records| :: Shows(rows, w, records[i])
  }

  lemma {:induction false} RecordsShowRows(rows: seq<StockRow>, w: nat)
    ensures AllShow(rows, w, Records(rows, w)) && Distinct(Records(rows, w))
    ensures NonNegative(rows) ==> 0.0 <= SumQty(Records(rows, w))
  {
    if rows != [] {
      var n := |rows| - 1;
      RecordsShowRows(rows[..n], w);
      var earlier := Records(rows[..n], w);
      assert forall i | 0 <= i < |earlier| :: Shows(rows[..n], w, earlier[i]);
      if rows[n].warehouse == w {
        assert Records(rows, w)[..|earlier|] == earlier;
      } else {
        assert Records(rows, w) == earlier;
      }
    }
  }

  lemma {:induction false} AboveFilters(records: seq<Record>, limit: real)
    requires Distinct(records)
    ensures Distinct(Above(records, limit))
    ensures forall i | 0 <= i < |Above(records, limit)| ::
        Above(records, limit)[i] in records && Above(records, limit)[i].qty > limit
  {
    if records != [] {
      AboveFilters(records[..|records| - 1], limit);
    }
  }

  lemma {:induction false} BelowFilters(records: seq<Record>, limit: real)
    requires Distinct(records)
    ensures Distinct(Below(records, limit))
    ensures forall i | 0 <= i < |Below(records, limit)| ::
        Below(records, limit)[i] in records && Below(records, limit)[i].qty < limit
  {
    if records != [] {
      BelowFilters(records[..|records| - 1], limit);
    }
  }

  // ---------- The mean and the queues, from the rows ----------

  /** Positions of the rows of a warehouse. */
  function RowsIn(rows: seq<StockRow>, w: nat): set<nat> {
    set i: nat | i < |rows| && rows[i].warehouse == w
  }

  lemma {:induction false} RecordsAreRows(rows: seq<StockRow>, w: nat)
    ensures |Records(rows, w)| == |RowsIn(rows, w)| && SumQty(Records(rows, w)) == WarehouseTotal(rows, w)
    ensures forall i: nat | i < |rows| && rows[i].warehouse == w :: Record(i, rows[i].qty) in Records(rows, w)
  {
    if rows != [] {
      var n := |rows| - 1;
      var earlier, last := Records(rows[..n], w), Record(n, rows[n].qty);
      RecordsAreRows(rows[..n], w);
      assert RowsIn(rows, w) == RowsIn(rows[..n], w) + (if rows[n].warehouse == w then {n} else {});
      assert (earlier + [last])[..|earlier|] == earlier;
      if rows[n].warehouse != w {
        assert Records(rows, w) == earlier;
      }
    }
  }

  /** The mean of a warehouse with rows is its total over the number of its rows. */
  lemma MeanIsTotalPerRow(rows: seq<StockRow>, w: nat)
    ensures RowsIn(rows, w) != {} ==>
              Mean(Records(rows, w)) * |RowsIn(rows, w)| as real == WarehouseTotal(rows, w)
  {
    RecordsAreRows(rows, w);
    hide SumQty, Records, RowsIn, WarehouseTotal;
    var records := Records(rows, w);
    if records != [] {
      Shared(SumQty(records), |records| as real);
    }
  }

  lemma Shared(total: real, n: real)
    requires 0.0 < n
    ensures total / n * n == total
  {
  }

  lemma {:induction false} FiltersAreComplete(records: seq<Record>, limit: real, r: Record)
    ensures r in Above(records, limit) <==> r in records && r.qty > limit
    ensures r in Below(records, limit) <==> r in records && r.qty < limit
  {
    if records != [] {
      var n := |records| - 1;
      FiltersAreComplete(records[..n], limit, r);
      assert records == records[..n] + [records[n]];
    }
  }

  /** A row offers stock exactly when it is above 125% of the mean of its warehouse, and takes some below 75%. */
  lemma QueuesAreComplete(rows: seq<StockRow>, w: nat, i: nat)
    requires i < |rows| && rows[i].warehouse == w
    ensures var records, r := Records(rows, w), Record(i, rows[i].qty);
            && (r in Donors(records) <==> rows[i].qty > 1.25 * Mean(records))
            && (r in Receivers(records) <==> rows[i].qty < 0.75 * Mean(records))
  {
    hide Mean, SortBy, Above, Below, WarehouseTotal;
    var records, r := Records(rows, w), Record(i, rows[i].qty);
    RecordsAreRows(rows, w);
    FiltersAreComplete(records, Mean(records) * 1.25, r);
    FiltersAreComplete(records, Mean(records) * 0.75, r);
    SameElements(Donors(records), Above(records, Mean(records) * 1.25), r);
    SameElements(Receivers(records), Below(records, Mean(records) * 0.75), r);
  }

  lemma MeanIsNonNegative(records: seq<Record>)
    requires 0.0 <= SumQty(records)
    ensures 0.0 <= Mean(records)
  {
  }

  lemma SortedQueue(
      rows: seq<StockRow>, w: nat, records: seq<Record>, filtered: seq<Record>, le: (Record, Record) -> bool)
    requires AllShow(rows, w, records) && Distinct(filtered) && TotalPreorder(le)
    requires forall i | 0 <= i < |filtered| :: filtered[i] in records
    ensures var queue := SortBy(filtered, le);
            && AllShow(rows, w, queue) && Distinct(queue) && SortedBy(queue, le)
            && forall i | 0 <= i < |queue| :: queue[i] in filtered
  {
    var queue := SortBy(filtered, le);
    SortBySorts(filtered, le);
    PermutationKeepsDistinct(filtered, queue);
    forall i | 0 <= i < |queue| ensures queue[i] in filtered && Shows(rows, w, queue[i]) {
      SameElements(queue, filtered, queue[i]);
    }
  }

  /** Donors are distinct rows of the warehouse above 125% of the mean, the largest first. */
  lemma DonorsAreSound(rows: seq<StockRow>, w: nat, records: seq<Record>)
    requires AllShow(rows, w, records) && Distinct(records)
    ensures AllShow(rows, w, Donors(records)) && Distinct(Donors(records)) && SortedBy(Donors(records), MoreFirst)
    ensures forall i | 0 <= i < |Donors(records)| :: Donors(records)[i].qty > Mean(records) * 1.25
  {
    hide Mean, Above, SortBy;
    var limit := Mean(records) * 1.25;
    AboveFilters(records, limit);
    SortedQueue(rows, w, records, Above(records, limit), MoreFirst);
  }

  /** Receivers are distinct rows of the warehouse below 75% of the mean, the smallest first. */
  lemma ReceiversAreSound(rows: seq<StockRow>, w: nat, records: seq<Record>)
    requires AllShow(rows, w, records) && Distinct(records)
    ensures AllShow(rows, w, Receivers(records)) && Distinct(Receivers(records))
        && SortedBy(Receivers(records), LessFirst)
    ensures forall i | 0 <= i < |Receivers(records)| :: Receivers(records)[i].qty < Mean(records) * 0.75
  {
    hide Mean, Below, SortBy;
    var limit := Mean(records) * 0.75;
    BelowFilters(records, limit);
    SortedQueue(rows, w, records, Below(records, limit), LessFirst);
  }

  /** The suggestion moves between two rows of its warehouse on either side of the mean, in the computed amount. */
  ghost predicate Sound(rows: seq<StockRow>, s: Suggestion) {
    var avg := Mean(Records(rows, s.warehouse));
    && Shows(rows, s.warehouse, s.donor) && Shows(rows, s.warehouse, s.receiver)
    && s.donor.qty > avg > s.receiver.qty
    && s.quantity == MoveQty(avg, s.donor.qty, s.receiver.qty)
  }

  /**
   * A suggestion moves the least whole number of units that closes the smaller of the two gaps to the mean.
   */
  lemma SuggestedQuantity(rows: seq<StockRow>, s: Suggestion)
    requires Sound(rows, s)
    ensures var avg := Mean(Records(rows, s.warehouse));
            var gap, other := s.donor.qty - avg, avg - s.receiver.qty;
            && s.quantity == s.quantity.Floor as real
            && (gap <= s.quantity || other <= s.quantity)
            && s.quantity - 1.0 < gap && s.quantity - 1.0 < other
  {
    hide Mean, Records;
    var avg := Mean(Records(rows, s.warehouse));
    MoveIsCeiling(avg, s.donor.qty, s.receiver.qty);
    CeilBounds(Min(s.donor.qty - avg, avg - s.receiver.qty));
  }

  ghost predicate AllSound(rows: seq<StockRow>, suggestions: seq<Suggestion>) {
    forall i | 0 <= i < |suggestions| :: Sound(rows, suggestions[i])
  }

  ghost predicate UsesRow(s: Suggestion, row: nat) {
    s.donor.row == row || s.receiver.row == row
  }

  ghost predicate Apart(a: Suggestion, b: Suggestion) {
    !UsesRow(a, b.donor.row) && !UsesRow(a, b.receiver.row)
  }

  ghost predicate UsedOnce(suggestions: seq<Suggestion>) {
    forall i, j | 0 <= i < j < |suggestions| :: Apart(suggestions[i], suggestions[j])
  }

  lemma {:induction false} PairOffIs(w: nat, avg: real, donors: seq<Record>, receivers: seq<Record>, room: int)
    ensures var s := PairOff(w, avg, donors, receivers, room);
            && |s| <= |donors| && |s| <= |receivers| && (|s| <= room || s == [])
            && (|s| == |donors| || |s| == |receivers| || |s| >= room)
            && forall i | 0 <= i < |s| :: s[i] == Pair(w, avg, donors[i], receivers[i])
  {
    if donors != [] && receivers != [] && room > 0 {
      PairOffIs(w, avg, donors[1..], receivers[1..], room - 1);
    }
  }

  lemma PairsAreApart(
      rows: seq<StockRow>, w: nat, avg: real, donors: seq<Record>, receivers: seq<Record>, i: nat, j: nat)
    requires AllShow(rows, w, donors) && AllShow(rows, w, receivers) && Distinct(donors) && Distinct(receivers)
    requires forall k | 0 <= k < |donors| :: donors[k].qty > avg
    requires forall k | 0 <= k < |receivers| :: receivers[k].qty < avg
    requires i < j < |donors| && j < |receivers|
    ensures Apart(Pair(w, avg, donors[i], receivers[i]), Pair(w, avg, donors[j], receivers[j]))
  {
    assert Shows(rows, w, donors[i]) && Shows(rows, w, donors[j]) && donors[i] != donors[j];
    assert Shows(rows, w, receivers[i]) && Shows(rows, w, receivers[j]) && receivers[i] != receivers[j];
  }

  lemma PairsAreSound(rows: seq<StockRow>, w: nat, donors: seq<Record>, receivers: seq<Record>, room: int)
    requires AllShow(rows, w, donors) && AllShow(rows, w, receivers) && Distinct(donors) && Distinct(receivers)
    requires forall k | 0 <= k < |donors| :: donors[k].qty > Mean(Records(rows, w))
    requires forall k | 0 <= k < |receivers| :: receivers[k].qty < Mean(Records(rows, w))
    ensures SoundIn(rows, w, PairOff(w, Mean(Records(rows, w)), donors, receivers, room))
  {
    var avg := Mean(Records(rows, w));
    var s := PairOff(w, avg, donors, receivers, room);
    PairOffIs(w, avg, donors, receivers, room);
    forall i | 0 <= i < |s| ensures Sound(rows, s[i]) {
      assert s[i] == Pair(w, avg, donors[i], receivers[i]);
      assert Shows(rows, w, donors[i]) && Shows(rows, w, receivers[i]);
    }
    forall i, j | 0 <= i < j < |s| ensures Apart(s[i], s[j]) {
      PairsAreApart(rows, w, avg, donors, receivers, i, j);
    }
  }

  lemma SuggestInIsSound(rows: seq<StockRow>, w: nat, room: int)
    requires NonNegative(rows)
    ensures SoundIn(rows, w, SuggestIn(rows, w, room))
  {
    var records := Records(rows, w);
    RecordsShowRows(rows, w);
    MeanIsNonNegative(records);
    DonorsAreSound(rows, w, records);
    ReceiversAreSound(rows, w, records);
    PairsAreSound(rows, w, Donors(records), Receivers(records), room);
  }

  ghost predicate SoundIn(rows: seq<StockRow>, w: nat, s: seq<Suggestion>) {
    AllSound(rows, s) && UsedOnce(s) && forall i | 0 <= i < |s| :: s[i].warehouse == w
  }

  /** All suggestions are sound, they use no row twice, and they come from the warehouses visited. */
  ghost predicate SoundFor(rows: seq<StockRow>, ws: seq<nat>, s: seq<Suggestion>) {
    AllSound(rows, s) && UsedOnce(s) && forall i | 0 <= i < |s| :: s[i].warehouse in ws
  }

  lemma {:induction false} VisitIsSound(
      rows: seq<StockRow>, suggest: (nat, int) -> seq<Suggestion>, ws: seq<nat>, limit: int)
    requires Distinct(ws) && forall w: nat, room :: SoundIn(rows, w, suggest(w, room))
    ensures SoundFor(rows, ws, Visit(suggest, ws, limit))
  {
    hide Sound, UsesRow;
    if ws != [] {
      var init, last := ws[..|ws| - 1], ws[|ws| - 1];
      var earlier := Visit(suggest, init, limit);
      var here := suggest(last, limit - |earlier|);
      VisitIsSound(rows, suggest, init, limit);
      LastIsNew(ws);
      assert SoundIn(rows, last, here);
      OneMoreWarehouse(rows, init, last, earlier, here);
      assert ws == init + [last];
    }
  }

  lemma OneMoreWarehouse(rows: seq<StockRow>, ws: seq<nat>, w: nat, earlier: seq<Suggestion>, here: seq<Suggestion>)
    requires SoundFor(rows, ws, earlier) && SoundIn(rows, w, here) && w !in ws
    ensures SoundFor(rows, ws + [w], earlier + here)
  {
    OtherWarehousesAreApart(rows, earlier, here, ws, w);
    AppendedStaysSound(rows, earlier, here);
  }

  lemma SuggestAllIsSound(rows: seq<StockRow>, ws: seq<nat>, limit: int)
    requires NonNegative(rows) && Distinct(ws)
    ensures SoundFor(rows, ws, SuggestAll(rows, ws, limit))
  {
    forall w: nat, room ensures SoundIn(rows, w, Suggester(rows)(w, room)) {
      SuggestInIsSound(rows, w, room);
    }
    VisitIsSound(rows, Suggester(rows), ws, limit);
  }

  lemma OtherWarehousesAreApart(rows: seq<StockRow>, a: seq<Suggestion>, b: seq<Suggestion>, ws: seq<nat>, w: nat)
    requires AllSound(rows, a) && AllSound(rows, b) && w !in ws
    requires forall i | 0 <= i < |a| :: a[i].warehouse in ws
    requires forall j | 0 <= j < |b| :: b[j].warehouse == w
    ensures forall i, j | 0 <= i < |a| && 0 <= j < |b| :: Apart(a[i], b[j])
  {
    forall i, j | 0 <= i < |a| && 0 <= j < |b| ensures Apart(a[i], b[j]) {
      assert Sound(rows, a[i]) && Sound(rows, b[j]);
      assert a[i].warehouse != b[j].warehouse;
    }
  }

  lemma AppendedStaysSound(rows: seq<StockRow>, a: seq<Suggestion>, b: seq<Suggestion>)
    requires AllSound(rows, a) && AllSound(rows, b) && UsedOnce(a) && UsedOnce(b)
    requires forall i, j | 0 <= i < |a| && 0 <= j < |b| :: Apart(a[i], b[j])
    ensures AllSound(rows, a + b) && UsedOnce(a + b)
  {
    forall i, j | 0 <= i < j < |a + b| ensures Apart((a + b)[i], (a + b)[j]) {
      if i < |a| <= j {
        assert Apart(a[i], b[j - |a|]);
      }
    }
  }

  // ---------- Carrying the suggestions out ----------

  function Shift(rows: seq<StockRow>, row: nat, delta: real): seq<StockRow>
    requires row < |rows|
  {
    rows[row := rows[row].(qty := rows[row].qty + delta)]
  }

  ghost predicate InTable(rows: seq<StockRow>, suggestions: seq<Suggestion>) {
    forall i | 0 <= i < |suggestions| :: suggestions[i].donor.row < |rows| && suggestions[i].receiver.row < |rows|
  }

  function CarryOne(rows: seq<StockRow>, s: Suggestion): (after: seq<StockRow>)
    requires s.donor.row < |rows| && s.receiver.row < |rows|
    ensures |after| == |rows|
  {
    Shift(Shift(rows, s.donor.row, -s.quantity), s.receiver.row, s.quantity)
  }

  function CarryOut(rows: seq<StockRow>, suggestions: seq<Suggestion>): (after: seq<StockRow>)
    requires InTable(rows, suggestions)
    ensures |after| == |rows|
  {
    if suggestions == [] then rows else
    CarryOne(CarryOut(rows, suggestions[..|suggestions| - 1]), suggestions[|suggestions| - 1])
  }

  function WarehouseTotal(rows: seq<StockRow>, w: nat): real {
    if rows == [] then 0.0 else
    WarehouseTotal(rows[..|rows| - 1], w) + (if rows[|rows| - 1].warehouse == w then rows[|rows| - 1].qty else 0.0)
  }

  function Squares(rows: seq<StockRow>): real {
    if rows == [] then 0.0 else
    Squares(rows[..|rows| - 1]) + Square(rows[|rows| - 1].qty)
  }

  lemma {:induction false} ShiftMovesTotals(rows: seq<StockRow>, row: nat, delta: real, w: nat)
    requires row < |rows|
    ensures WarehouseTotal(Shift(rows, row, delta), w)
        == WarehouseTotal(rows, w) + (if rows[row].warehouse == w then delta else 0.0)
  {
    var n := |rows| - 1;
    if row < n {
      ShiftMovesTotals(rows[..n], row, delta, w);
      assert Shift(rows, row, delta)[..n] == Shift(rows[..n], row, delta);
    } else {
      assert Shift(rows, row, delta)[..n] == rows[..n];
    }
  }

  lemma {:induction false} ShiftMovesSquares(rows: seq<StockRow>, row: nat, delta: real)
    requires row < |rows|
    ensures var q := rows[row].qty;
            Squares(Shift(rows, row, delta)) == Squares(rows) - Square(q) + Square(q + delta)
  {
    hide Square;
    var n := |rows| - 1;
    if row < n {
      ShiftMovesSquares(rows[..n], row, delta);
      assert Shift(rows, row, delta)[..n] == Shift(rows[..n], row, delta);
    } else {
      assert Shift(rows, row, delta)[..n] == rows[..n];
    }
  }

  lemma SoundIsInTable(rows: seq<StockRow>, suggestions: seq<Suggestion>)
    requires AllSound(rows, suggestions)
    ensures InTable(rows, suggestions)
  {
    forall i | 0 <= i < |suggestions|
      ensures suggestions[i].donor.row < |rows| && suggestions[i].receiver.row < |rows|
    {
      assert Sound(rows, suggestions[i]);
    }
  }

  /** What carrying the suggestions out does to one row: at most one of them touches it. */
  lemma {:induction false} RowAfter(rows: seq<StockRow>, suggestions: seq<Suggestion>, row: nat)
    requires InTable(rows, suggestions) && row < |rows|
    requires forall i | 0 <= i < |suggestions| :: !UsesRow(suggestions[i], row)
    ensures CarryOut(rows, suggestions)[row] == rows[row]
  {
    if suggestions != [] {
      RowAfter(rows, suggestions[..|suggestions| - 1], row);
      assert !UsesRow(suggestions[|suggestions| - 1], row);
    }
  }

  lemma {:induction false} WarehousesStay(rows: seq<StockRow>, suggestions: seq<Suggestion>, row: nat)
    requires InTable(rows, suggestions) && row < |rows|
    ensures CarryOut(rows, suggestions)[row] == rows[row].(qty := CarryOut(rows, suggestions)[row].qty)
  {
    if suggestions != [] {
      WarehousesStay(rows, suggestions[..|suggestions| - 1], row);
    }
  }

  /** The last suggestion finds its two rows as they were read. */
  lemma LastRowsUntouched(rows: seq<StockRow>, suggestions: seq<Suggestion>)
    requires suggestions != [] && AllSound(rows, suggestions) && UsedOnce(suggestions)
    ensures InTable(rows, suggestions)
    ensures var s := suggestions[|suggestions| - 1];
            var before := CarryOut(rows, suggestions[..|suggestions| - 1]);
            before[s.donor.row] == rows[s.donor.row] && before[s.receiver.row] == rows[s.receiver.row]
  {
    var n := |suggestions| - 1;
    SoundIsInTable(rows, suggestions);
    forall i | 0 <= i < n
      ensures !UsesRow(suggestions[..n][i], suggestions[n].donor.row)
          && !UsesRow(suggestions[..n][i], suggestions[n].receiver.row)
    {
      assert Apart(suggestions[i], suggestions[n]);
    }
    assert Sound(rows, suggestions[n]);
    RowAfter(rows, suggestions[..n], suggestions[n].donor.row);
    RowAfter(rows, suggestions[..n], suggestions[n].receiver.row);
  }

  lemma {:induction false} CarryOutKeepsTotals(rows: seq<StockRow>, suggestions: seq<Suggestion>, w: nat)
    requires AllSound(rows, suggestions) && UsedOnce(suggestions)
    ensures InTable(rows, suggestions) && WarehouseTotal(CarryOut(rows, suggestions), w) == WarehouseTotal(rows, w)
  {
    hide Records, Mean, MoveQty, WarehouseTotal;
    SoundIsInTable(rows, suggestions);
    if suggestions != [] {
      var s := suggestions[|suggestions| - 1];
      var before := CarryOut(rows, suggestions[..|suggestions| - 1]);
      CarryOutKeepsTotals(rows, suggestions[..|suggestions| - 1], w);
      LastRowsUntouched(rows, suggestions);
      assert Sound(rows, s);
      ShiftMovesTotals(before, s.donor.row, -s.quantity, w);
      ShiftMovesTotals(Shift(before, s.donor.row, -s.quantity), s.receiver.row, s.quantity, w);
    }
  }

  /** Donor and receiver of every suggestion end exactly one move away from where they were. */
  lemma {:induction false} EndsOneMoveAway(rows: seq<StockRow>, suggestions: seq<Suggestion>, i: nat)
    requires AllSound(rows, suggestions) && UsedOnce(suggestions) && i < |suggestions|
    ensures InTable(rows, suggestions)
    ensures CarryOut(rows, suggestions)[suggestions[i].donor.row].qty
        == suggestions[i].donor.qty - suggestions[i].quantity
    ensures CarryOut(rows, suggestions)[suggestions[i].receiver.row].qty
        == suggestions[i].receiver.qty + suggestions[i].quantity
  {
    hide Records, Mean, MoveQty;
    var n := |suggestions| - 1;
    SoundIsInTable(rows, suggestions);
    assert Sound(rows, suggestions[i]);
    if i == n {
      LastRowsUntouched(rows, suggestions);
    } else {
      EndsOneMoveAway(rows, suggestions[..n], i);
      assert Apart(suggestions[i], suggestions[n]);
    }
  }

  lemma SquaresOfMove(rows: seq<StockRow>, from: nat, to: nat, d: real, r: real, q: real)
    requires from < |rows| && to < |rows| && from != to && rows[from].qty == d && rows[to].qty == r
    ensures Squares(Shift(Shift(rows, from, -q), to, q))
        == Squares(rows) - (Square(d) + Square(r)) + (Square(d - q) + Square(r + q))
  {
    hide Square, Squares;
    ShiftMovesSquares(rows, from, -q);
    ShiftMovesSquares(Shift(rows, from, -q), to, q);
    assert d + -q == d - q;
  }

  /** Carrying one move out does not spread the rows, in squares, exactly when they are at least one unit apart. */
  lemma MoveLevelsIff(rows: seq<StockRow>, from: nat, to: nat, avg: real, d: real, r: real)
    requires from < |rows| && to < |rows| && from != to && rows[from].qty == d && rows[to].qty == r
    requires d > avg > r
    ensures Squares(Shift(Shift(rows, from, -MoveQty(avg, d, r)), to, MoveQty(avg, d, r))) <= Squares(rows)
        <==> d - r >= 1.0
  {
    hide MoveQty, Squares, Shift, Square;
    var q := MoveQty(avg, d, r);
    SquaresOfMove(rows, from, to, d, r, q);
    MoveIsCeiling(avg, d, r);
    MoveAtMostGapIff(avg, d, r);
    SquaresAfterMove(d, r, q);
  }

  lemma {:induction false} CarryOutLevels(rows: seq<StockRow>, suggestions: seq<Suggestion>)
    requires AllSound(rows, suggestions) && UsedOnce(suggestions)
    requires forall i | 0 <= i < |suggestions| :: suggestions[i].donor.qty - suggestions[i].receiver.qty >= 1.0
    ensures InTable(rows, suggestions) && Squares(CarryOut(rows, suggestions)) <= Squares(rows)
  {
    hide Squares, Records, MoveQty, SumQty;
    SoundIsInTable(rows, suggestions);
    if suggestions != [] {
      var s := suggestions[|suggestions| - 1];
      CarryOutLevels(rows, suggestions[..|suggestions| - 1]);
      LastRowsUntouched(rows, suggestions);
      assert Sound(rows, s);
      MoveLevelsIff(CarryOut(rows, suggestions[..|suggestions| - 1]), s.donor.row, s.receiver.row,
                    Mean(Records(rows, s.warehouse)), s.donor.qty, s.receiver.qty);
    }
  }

  // ---------- The main results ----------

  /**
   * Any non-negative rows: each row is used at most once, every warehouse keeps its total, and a donor ends less
   * than one unit under the mean, a receiver less than one unit over it.
   */
  lemma RelocationsMeetInTheMiddle(rows: seq<StockRow>, ws: seq<nat>, limit: int)
    requires NonNegative(rows) && Distinct(ws)
    ensures var s := SuggestAll(rows, ws, limit);
            && UsedOnce(s) && InTable(rows, s)
            && (forall w :: WarehouseTotal(CarryOut(rows, s), w) == WarehouseTotal(rows, w))
            && (forall i | 0 <= i < |s| ::
                  && CarryOut(rows, s)[s[i].donor.row].qty > Mean(Records(rows, s[i].warehouse)) - 1.0
                  && CarryOut(rows, s)[s[i].receiver.row].qty < Mean(Records(rows, s[i].warehouse)) + 1.0)
  {
    var s := SuggestAll(rows, ws, limit);
    SuggestAllIsSound(rows, ws, limit);
    SoundIsInTable(rows, s);
    forall w ensures WarehouseTotal(CarryOut(rows, s), w) == WarehouseTotal(rows, w) {
      CarryOutKeepsTotals(rows, s, w);
    }
    forall i | 0 <= i < |s|
      ensures CarryOut(rows, s)[s[i].donor.row].qty > Mean(Records(rows, s[i].warehouse)) - 1.0
      ensures CarryOut(rows, s)[s[i].receiver.row].qty < Mean(Records(rows, s[i].warehouse)) + 1.0
    {
      assert Sound(rows, s[i]);
      EndsOneMoveAway(rows, s, i);
      MoveStopsAtMean(Mean(Records(rows, s[i].warehouse)), s[i].donor.qty, s[i].receiver.qty);
    }
  }

  lemma WholeSuggestionLevels(rows: seq<StockRow>, s: Suggestion)
    requires NonNegative(rows) && Whole(rows) && Sound(rows, s)
    ensures s.donor.qty - s.quantity >= Mean(Records(rows, s.warehouse)).Floor as real
    ensures s.receiver.qty + s.quantity <= Ceil(Mean(Records(rows, s.warehouse))) as real
    ensures s.quantity <= s.donor.qty
    ensures s.donor.qty - s.receiver.qty >= 1.0
  {
    var avg, d, r := Mean(Records(rows, s.warehouse)), s.donor.qty.Floor, s.receiver.qty.Floor;
    assert IsWhole(rows[s.donor.row].qty) && IsWhole(rows[s.receiver.row].qty);
    assert s.donor.qty == d as real && s.receiver.qty == r as real && r < d;
    WholeMoveStopsAtMean(avg, d, r);
    MoveIsCoveredIff(avg, s.donor.qty, s.receiver.qty);
  }

  /**
   * Whole non-negative rows: no donor falls under the whole part of the mean, no receiver rises over the mean
   * rounded up, no suggestion takes more than its donor has, and the sum of squared quantities does not grow.
   */
  lemma WholeRelocationsLevel(rows: seq<StockRow>, ws: seq<nat>, limit: int)
    requires NonNegative(rows) && Whole(rows) && Distinct(ws)
    ensures var s := SuggestAll(rows, ws, limit);
            && InTable(rows, s)
            && (forall i | 0 <= i < |s| ::
                  && CarryOut(rows, s)[s[i].donor.row].qty >= Mean(Records(rows, s[i].warehouse)).Floor as real
                  && CarryOut(rows, s)[s[i].receiver.row].qty <= Ceil(Mean(Records(rows, s[i].warehouse))) as real
                  && s[i].quantity <= s[i].donor.qty)
            && Squares(CarryOut(rows, s)) <= Squares(rows)
  {
    var s := SuggestAll(rows, ws, limit);
    SuggestAllIsSound(rows, ws, limit);
    SoundIsInTable(rows, s);
    forall i | 0 <= i < |s|
      ensures CarryOut(rows, s)[s[i].donor.row].qty >= Mean(Records(rows, s[i].warehouse)).Floor as real
      ensures CarryOut(rows, s)[s[i].receiver.row].qty <= Ceil(Mean(Records(rows, s[i].warehouse))) as real
      ensures s[i].quantity <= s[i].donor.qty
      ensures s[i].donor.qty - s[i].receiver.qty >= 1.0
    {
      assert Sound(rows, s[i]);
      EndsOneMoveAway(rows, s, i);
      WholeSuggestionLevels(rows, s[i]);
    }
    CarryOutLevels(rows, s);
  }

  /** A suggestion takes no more than its donor has exactly when the donor has at least one unit. */
  lemma SuggestionsAreCoveredIff(rows: seq<StockRow>, ws: seq<nat>, limit: int)
    requires NonNegative(rows) && Distinct(ws)
    ensures var s := SuggestAll(rows, ws, limit);
            forall i | 0 <= i < |s| :: s[i].quantity <= s[i].donor.qty <==> s[i].donor.qty >= 1.0
  {
    hide SuggestAll, MoveQty;
    var s := SuggestAll(rows, ws, limit);
    SuggestAllIsSound(rows, ws, limit);
    forall i | 0 <= i < |s| ensures s[i].quantity <= s[i].donor.qty <==> s[i].donor.qty >= 1.0 {
      assert Sound(rows, s[i]);
      MoveIsCoveredIff(Mean(Records(rows, s[i].warehouse)), s[i].donor.qty, s[i].receiver.qty);
    }
  }

  lemma UsedRowStaysCovered(rows: seq<StockRow>, s: seq<Suggestion>, row: nat)
    requires NonNegative(rows) && AllSound(rows, s) && UsedOnce(s) && row < |rows|
    requires forall i | 0 <= i < |s| :: 0.0 <= s[i].quantity <= s[i].donor.qty
    ensures InTable(rows, s) && 0.0 <= CarryOut(rows, s)[row].qty
  {
    hide Sound, CarryOut, UsedOnce;
    SoundIsInTable(rows, s);
    if i :| 0 <= i < |s| && UsesRow(s[i], row) {
      EndsOneMoveAway(rows, s, i);
      DonorAndReceiver(rows, s, i);
    } else {
      RowAfter(rows, s, row);
    }
  }

  lemma DonorAndReceiver(rows: seq<StockRow>, s: seq<Suggestion>, i: nat)
    requires NonNegative(rows) && AllSound(rows, s) && i < |s|
    ensures 0.0 <= s[i].receiver.qty < s[i].donor.qty && 1.0 <= s[i].quantity
  {
    hide Mean, Records, MoveQty;
    assert Sound(rows, s[i]);
    MoveIsCeiling(Mean(Records(rows, s[i].warehouse)), s[i].donor.qty, s[i].receiver.qty);
  }

  /** Carrying the suggestions out overdraws no row exactly when every donor has at least one unit. */
  lemma RelocationsStayNonNegativeIff(rows: seq<StockRow>, ws: seq<nat>, limit: int)
    requires NonNegative(rows) && Distinct(ws)
    ensures var s := SuggestAll(rows, ws, limit);
            && InTable(rows, s)
            && (NonNegative(CarryOut(rows, s)) <==> forall i | 0 <= i < |s| :: s[i].donor.qty >= 1.0)
  {
    hide SuggestAll, Sound, CarryOut, MoveQty;
    var s := SuggestAll(rows, ws, limit);
    SuggestAllIsSound(rows, ws, limit);
    SoundIsInTable(rows, s);
    SuggestionsAreCoveredIff(rows, ws, limit);
    forall i | 0 <= i < |s|
      ensures 1.0 <= s[i].quantity
      ensures CarryOut(rows, s)[s[i].donor.row].qty == s[i].donor.qty - s[i].quantity
    {
      DonorAndReceiver(rows, s, i);
      EndsOneMoveAway(rows, s, i);
    }
    if forall i | 0 <= i < |s| :: s[i].donor.qty >= 1.0 {
      forall row: nat | row < |rows| ensures 0.0 <= CarryOut(rows, s)[row].qty {
        UsedRowStaysCovered(rows, s, row);
      }
    }
  }

  /** The sum of squared quantities grows with suggestion i, carried out alone or in its turn after those before it. */
  ghost predicate SpreadsAlone(rows: seq<StockRow>, s: Suggestion) {
    && s.donor.row < |rows| && s.receiver.row < |rows|
    && Squares(rows) < Squares(CarryOne(rows, s))
  }

  ghost predicate SpreadsInTurn(rows: seq<StockRow>, s: seq<Suggestion>, i: nat)
    requires InTable(rows, s) && i < |s|
  {
    Squares(CarryOut(rows, s[..i])) < Squares(CarryOut(rows, s[..i + 1]))
  }

  lemma SuggestionSpreadsIff(rows: seq<StockRow>, s: seq<Suggestion>, i: nat)
    requires AllSound(rows, s) && UsedOnce(s) && InTable(rows, s) && i < |s|
    ensures SpreadsAlone(rows, s[i]) <==> s[i].donor.qty - s[i].receiver.qty < 1.0
    ensures SpreadsInTurn(rows, s, i) <==> s[i].donor.qty - s[i].receiver.qty < 1.0
  {
    hide Squares, MoveQty, Shift, Records, Mean;
    var avg, donor, receiver := Mean(Records(rows, s[i].warehouse)), s[i].donor, s[i].receiver;
    assert Sound(rows, s[i]);
    MoveLevelsIff(rows, donor.row, receiver.row, avg, donor.qty, receiver.qty);
    var done := s[..i + 1];
    assert done[..i] == s[..i] && done[i] == s[i];
    LastRowsUntouched(rows, done);
    MoveLevelsIff(CarryOut(rows, s[..i]), donor.row, receiver.row, avg, donor.qty, receiver.qty);
  }

  /**
   * The sum of squared quantities grows with a suggestion exactly when its rows are less than one unit apart,
   * whether it is carried out alone or in its turn after those before it.
   */
  lemma SuggestionsLevelIff(rows: seq<StockRow>, ws: seq<nat>, limit: int)
    requires NonNegative(rows) && Distinct(ws)
    ensures var s := SuggestAll(rows, ws, limit);
            && InTable(rows, s)
            && (forall i | 0 <= i < |s| :: SpreadsAlone(rows, s[i]) <==> s[i].donor.qty - s[i].receiver.qty < 1.0)
            && (forall i | 0 <= i < |s| :: SpreadsInTurn(rows, s, i) <==> s[i].donor.qty - s[i].receiver.qty < 1.0)
  {
    hide SuggestAll, SpreadsAlone, SpreadsInTurn, Sound;
    var s := SuggestAll(rows, ws, limit);
    SuggestAllIsSound(rows, ws, limit);
    SoundIsInTable(rows, s);
    forall i | 0 <= i < |s|
      ensures SpreadsAlone(rows, s[i]) <==> s[i].donor.qty - s[i].receiver.qty < 1.0
      ensures SpreadsInTurn(rows, s, i) <==> s[i].donor.qty - s[i].receiver.qty < 1.0
    {
      SuggestionSpreadsIff(rows, s, i);
    }
  }

  // ---------- A row that is overdrawn ----------

  /** Two rows of one product in one warehouse, half a unit and none. */
  const HALF_UNIT := [StockRow(1, 1, 1, 0.5), StockRow(1, 1, 2, 0.0)]

  lemma HalfUnitMean()
    ensures var records := Records(HALF_UNIT, 1);
            records == [Record(0, 0.5), Record(1, 0.0)] && Mean(records) == 0.25
  {
    hide Mean;
    var rows, first, second := HALF_UNIT, Record(0, 0.5), Record(1, 0.0);
    assert rows[..1] == [rows[0]] && [rows[0]][..0] == [];
    assert Records([rows[0]], 1) == [first];
    assert Records(rows, 1) == [first, second];
    HalfUnitSum(first, second);
  }

  lemma HalfUnitSum(first: Record, second: Record)
    requires first.qty == 0.5 && second.qty == 0.0
    ensures Mean([first, second]) == 0.25
  {
    assert [first, second][..1] == [first] && [first][..0] == [];
    assert SumQty([first]) == 0.5 && SumQty([first, second]) == 0.5;
  }

  lemma HalfUnitQueues()
    ensures var records := Records(HALF_UNIT, 1);
            Mean(records) == 0.25 && Donors(records) == [Record(0, 0.5)] && Receivers(records) == [Record(1, 0.0)]
  {
    hide Records, Mean, SortBy;
    HalfUnitMean();
    var first, second := Record(0, 0.5), Record(1, 0.0);
    assert [first, second][..1] == [first] && [first][..0] == [];
    assert Above([first], 0.3125) == [first] && Above([first, second], 0.3125) == [first];
    assert Below([first], 0.1875) == [] && [] + [second] == [second];
    assert Below([first, second], 0.1875) == [second];
    SortedAlone(first, MoreFirst);
    SortedAlone(second, LessFirst);
  }

  lemma SortedAlone(r: Record, le: (Record, Record) -> bool)
    ensures SortBy([r], le) == [r]
  {
    assert [r][1..] == [];
  }

  lemma HalfUnitMoves()
    ensures SuggestIn(HALF_UNIT, 1, 5) == [Suggestion(1, Record(0, 0.5), Record(1, 0.0), 1.0)]
  {
    hide Records, Mean, Donors, Receivers;
    HalfUnitQueues();
    MoveIsCeiling(0.25, 0.5, 0.0);
    CeilBounds(0.25);
  }

  lemma HalfUnitSpreads()
    ensures Squares(HALF_UNIT) == 0.25
    ensures Squares(Shift(Shift(HALF_UNIT, 0, -1.0), 1, 1.0)) == 1.25
  {
    assert HALF_UNIT[..1][..0] == [] && Squares(HALF_UNIT[..1]) == 0.25;
    hide Squares;
    SquaresOfMove(HALF_UNIT, 0, 1, 0.5, 0.0, 1.0);
  }

  /**
   * The only suggestion moves a whole unit; carrying it out leaves half a unit less than nothing and a larger sum of
   * squares.
   */
  lemma HalfUnitIsOverdrawn()
    ensures var s := SuggestAll(HALF_UNIT, [1], 5);
            && s == [Suggestion(1, Record(0, 0.5), Record(1, 0.0), 1.0)]
            && InTable(HALF_UNIT, s) && CarryOut(HALF_UNIT, s)[0].qty == -0.5
            && Squares(HALF_UNIT) == 0.25 && Squares(CarryOut(HALF_UNIT, s)) == 1.25
  {
    hide Records, Mean, Donors, Receivers, Squares;
    var move := Suggestion(1, Record(0, 0.5), Record(1, 0.0), 1.0);
    HalfUnitMoves();
    hide SuggestIn;
    assert [1][..0] == [] && Visit(Suggester(HALF_UNIT), [], 5) == [];
    assert SuggestAll(HALF_UNIT, [1], 5) == [move];
    assert [move][..0] == [] && CarryOut(HALF_UNIT, []) == HALF_UNIT;
    HalfUnitSpreads();
  }

  // ---------- The loops ----------

  function Warehouses(rows: seq<StockRow>): set<nat> {
    set i | 0 <= i < |rows| :: rows[i].warehouse
  }

  /** ws is the order in which the warehouses were visited, which is up to the runtime. */
  method SuggestRelocations(
      rows: seq<StockRow>, maxSuggestions: Option<int>) returns (suggestions: seq<Suggestion>, ws: seq<nat>)
    ensures Enumerates(ws, Warehouses(rows))
    ensures suggestions == SuggestAll(rows, ws, if maxSuggestions.Some? then maxSuggestions.value else 5)
  {
    suggestions, ws :=
        VisitWarehouses(rows, Warehouses(rows), if maxSuggestions.Some? then maxSuggestions.value else 5);
  }

  method VisitWarehouses(
      rows: seq<StockRow>, all: set<nat>, limit: int) returns (suggestions: seq<Suggestion>, ws: seq<nat>)
    ensures Enumerates(ws, all)
    ensures suggestions == SuggestAll(rows, ws, limit)
  {
    hide SuggestIn, Suggester, Enumerates;
    var pending := all;
    EnumerateNothing<nat>();
    assert all - pending == {};
    ghost var suggest := Suggester(rows);
    suggestions, ws := [], [];
    while pending != {}
      invariant pending <= all
      invariant Enumerates(ws, all - pending)
      invariant suggestions == Visit(suggest, ws, limit)
    {
      var w :| w in pending;
      var here := SuggestInWarehouse(rows, w, limit - |suggestions|);
      VisitAppended(suggest, ws, w, limit);
      EnumerateOneMore(ws, all - pending, w);
      assert all - (pending - {w}) == all - pending + {w};
      suggestions, ws := suggestions + here, ws + [w];
      pending := pending - {w};
    }
    assert all - pending == all;
  }

  method SuggestInWarehouse(rows: seq<StockRow>, w: nat, room: int) returns (suggestions: seq<Suggestion>)
    ensures suggestions == Suggester(rows)(w, room)
  {
    var records := Records(rows, w);
    var avg := Average(records);
    suggestions := PairQueues(w, avg, Donors(records), Receivers(records), room);
  }

  method Average(records: seq<Record>) returns (avg: real)
    ensures avg == Mean(records)
  {
    var total := 0.0;
    for i := 0 to |records|
      invariant total == SumQty(records[..i])
    {
      assert records[..i + 1][..i] == records[..i];
      total := total + records[i].qty;
    }
    assert records[..|records|] == records;
    avg := total / (if |records| == 0 then 1 else |records|) as real;
  }

  method PairQueues(
      w: nat, avg: real, allDonors: seq<Record>, allReceivers: seq<Record>, room: int)
    returns (suggestions: seq<Suggestion>)
    ensures suggestions == PairOff(w, avg, allDonors, allReceivers, room)
  {
    var donors, receivers := allDonors, allReceivers;
    suggestions := [];
    while donors != [] && receivers != [] && |suggestions| < room
      invariant suggestions + PairOff(w, avg, donors, receivers, room - |suggestions|)
          == PairOff(w, avg, allDonors, allReceivers, room)
      decreases |donors|
    {
      var next := Pair(w, avg, donors[0], receivers[0]);
      ghost var rest := PairOff(w, avg, donors[1..], receivers[1..], room - |suggestions| - 1);
      assert suggestions + ([next] + rest) == (suggestions + [next]) + rest;
      suggestions, donors, receivers := suggestions + [next], donors[1..], receivers[1..];
    }
  }
}
