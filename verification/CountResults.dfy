/** What submitting a cycle count does to the task and to stock. */
module CountResults {
  import opened Wrappers
  import opened Domain
  import opened Stock
  import opened Counting
  import opened Sorting

  // ---------- The task ----------

  /** The entries name distinct lines, and exactly the pending ones. */
  ghost predicate CoversPending(lines: seq<CountLine>, entries: seq<CountEntry>) {
    && (forall a, b | 0 <= a < b < |entries| :: entries[a].line != entries[b].line)
    && (forall a | 0 <= a < |entries| :: entries[a].line < |lines| && lines[entries[a].line].counted.None?)
    && (forall i: Id | i < |lines| && lines[i].counted.None? :: exists a | 0 <= a < |entries| :: entries[a].line == i)
  }

  /** Marking succeeds exactly for unseen, distinct, pending lines. */
  lemma {:induction false} MarkAllAcceptsIff(lines: seq<CountLine>, entries: seq<CountEntry>, seen: set<Id>)
    ensures MarkAll(lines, entries, seen).Ok? <==>
              && (forall a, b | 0 <= a < b < |entries| :: entries[a].line != entries[b].line)
              && (forall a | 0 <= a < |entries| ::
                    entries[a].line !in seen && entries[a].line < |lines| && lines[entries[a].line].counted.None?)
    decreases |entries|
  {
    if entries != [] {
      var at, rest := entries[0].line, entries[1..];
      assert forall a | 0 < a < |entries| :: entries[a] == rest[a - 1];
      if at !in seen && at < |lines| && lines[at].counted.None? {
        var marked := MarkOne(lines, entries[0]);
        MarkAllAcceptsIff(marked, rest, seen + {at});
        if MarkAll(marked, rest, seen + {at}).Ok? {
          forall a, b | 0 <= a < b < |entries| ensures entries[a].line != entries[b].line {
            assert entries[b] == rest[b - 1];
          }
        } else if forall a, b | 0 <= a < b < |entries| :: entries[a].line != entries[b].line {
          assert forall a | 0 <= a < |rest| :: rest[a] == entries[a + 1] && rest[a].line != at;
        }
      }
    }
  }

  /** Every line keeps its key and expectation; named lines carry the count, others are as before. */
  lemma {:induction false} MarkAllMarks(lines: seq<CountLine>, entries: seq<CountEntry>, seen: set<Id>, i: Id)
    requires i < |lines|
    ensures var r := MarkAll(lines, entries, seen);
            r.Ok? ==>
              && r.value[i].key == lines[i].key && r.value[i].expected == lines[i].expected
              && (r.value[i].counted.Some?
                  <==> lines[i].counted.Some? || exists a | 0 <= a < |entries| :: entries[a].line == i)
              && (forall a | 0 <= a < |entries| && entries[a].line == i ::
                    r.value[i].counted == Some(entries[a].counted)
                    && r.value[i].difference == Some(entries[a].counted - lines[i].expected))
              && (i in seen ==> r.value[i] == lines[i])
    decreases |entries|
  {
    var r := MarkAll(lines, entries, seen);
    if entries != [] && r.Ok? {
      var at, rest := entries[0].line, entries[1..];
      var marked := MarkOne(lines, entries[0]);
      MarkAllMarks(marked, rest, seen + {at}, i);
      assert forall a | 0 < a < |entries| :: entries[a] == rest[a - 1];
      MarkAllAcceptsIff(lines, entries, seen);
      if exists a | 0 <= a < |entries| :: entries[a].line == i {
        var a :| 0 <= a < |entries| && entries[a].line == i;
        assert a == 0 || rest[a - 1].line == i;
      }
    }
  }

  /** A successful submission covers exactly the pending lines and always completes the task. */
  lemma SubmitCoversAndCompletes(cat: Catalog, db: Db, id: Id, entries: seq<CountEntry>)
    requires id < |db.counts| && CountOk(db.counts[id])
    ensures var r := SubmitCount(cat, db, id, entries);
            r.Ok? ==>
              && CoversPending(db.counts[id].lines, entries)
              && r.value.counts[id].status == CountCompleted
              && CountOk(r.value.counts[id])
  {
    var r := SubmitCount(cat, db, id, entries);
    if r.Ok? {
      var lines := db.counts[id].lines;
      MarkAllAcceptsIff(lines, entries, {});
      var marked := MarkAll(lines, entries, {}).value;
      forall i: Id | i < |lines|
        ensures marked[i].key == lines[i].key && marked[i].counted.Some?
      {
        MarkAllMarks(lines, entries, {}, i);
      }
    }
  }

  // ---------- Stock ----------

  /** Rows and rows' are the same as far as key k is concerned. */
  ghost predicate AgreeOn(a: seq<Row>, b: seq<Row>, k: Key) {
    forall s :: Held(a, k, s) == Held(b, k, s) && Find(a, k, s).Some? == Find(b, k, s).Some?
  }

  lemma {:induction false} GroupsDependOnKey(order: seq<StockStatus>, a: seq<Row>, b: seq<Row>, k: Key)
    requires AgreeOn(a, b, k)
    ensures Groups(order, a, k) == Groups(order, b, k)
  {
    if order != [] {
      GroupsDependOnKey(order[..|order| - 1], a, b, k);
    }
  }

  lemma {:induction false} PredominantDependsOnKey(groups: seq<StockStatus>, a: seq<Row>, b: seq<Row>, k: Key)
    requires AgreeOn(a, b, k)
    ensures Predominant(groups, a, k) == Predominant(groups, b, k)
  {
    if groups != [] {
      PredominantDependsOnKey(groups[..|groups| - 1], a, b, k);
    }
  }

  lemma StatusDependsOnKey(order: seq<StockStatus>, a: seq<Row>, b: seq<Row>, k: Key)
    requires AgreeOn(a, b, k)
    ensures StatusToCount(order, a, k) == StatusToCount(order, b, k)
  {
    GroupsDependOnKey(order, a, b, k);
    PredominantDependsOnKey(Groups(order, a, k), a, b, k);
  }

  lemma SetRowFindsElsewhere(
    rows: seq<Row>, moves: seq<Movement>, k: Key, s: StockStatus, newQty: real, reference: Reference, other: Key,
    t: StockStatus)
    requires other != k
    ensures Find(rows, other, t).Some? == Find(SetRow(rows, moves, k, s, newQty, reference).0, other, t).Some?
  {
    hide Find;
    var after := SetRow(rows, moves, k, s, newQty, reference).0;
    if Find(rows, other, t).Some? {
      var at := Find(rows, other, t).value;
      assert after[at].key == other && after[at].status == t;
    }
    if Find(after, other, t).Some? {
      var at := Find(after, other, t).value;
      assert at < |rows| && rows[at].key == other && rows[at].status == t;
    }
  }

  /** Setting a row of one key leaves other keys exactly as they were. */
  lemma SetRowAgreesElsewhere(
    rows: seq<Row>, moves: seq<Movement>, k: Key, s: StockStatus, newQty: real, reference: Reference, other: Key)
    requires UniqueRows(rows) && other != k
    ensures AgreeOn(rows, SetRow(rows, moves, k, s, newQty, reference).0, other)
  {
    hide Total, Find, SetRow;
    var after := SetRow(rows, moves, k, s, newQty, reference).0;
    forall t
      ensures Held(rows, other, t) == Held(after, other, t) && Find(rows, other, t).Some? == Find(after, other, t).Some?
    {
      SetRowShifts(rows, moves, k, s, newQty, reference, OnKeyStatus(other, t));
      SetRowFindsElsewhere(rows, moves, k, s, newQty, reference, other, t);
    }
  }

  /** Entries name distinct lines of a task with distinct keys. */
  ghost predicate Targets(lines: seq<CountLine>, entries: seq<CountEntry>) {
    && DistinctKeys(lines)
    && (forall a, b | 0 <= a < b < |entries| :: entries[a].line != entries[b].line)
    && (forall a | 0 <= a < |entries| :: entries[a].line < |lines|)
  }

  lemma TargetsTail(lines: seq<CountLine>, entries: seq<CountEntry>)
    requires Targets(lines, entries) && entries != []
    ensures Targets(lines, entries[1..])
    ensures forall a | 0 <= a < |entries[1..]| :: lines[entries[1..][a].line].key != lines[entries[0].line].key
  {
    var rest := entries[1..];
    assert forall a | 0 <= a < |rest| :: rest[a] == entries[a + 1];
  }

  /** The entry, if any, that changes stock on key k. */
  function ChangeOn(lines: seq<CountLine>, entries: seq<CountEntry>, k: Key): (r: Option<real>)
  {
    if entries == [] then None
    else if Differs(lines, entries[0]) && lines[entries[0].line].key == k then Some(entries[0].counted)
    else ChangeOn(lines, entries[1..], k)
  }

  lemma {:induction false} NoChangeOn(lines: seq<CountLine>, entries: seq<CountEntry>, k: Key)
    requires forall a | 0 <= a < |entries| && entries[a].line < |lines| :: lines[entries[a].line].key != k
    ensures ChangeOn(lines, entries, k).None?
  {
    if entries != [] {
      assert forall a | 0 <= a < |entries[1..]| :: entries[1..][a] == entries[a + 1];
      NoChangeOn(lines, entries[1..], k);
    }
  }

  /** Stock on key k and status s once the count is booked, from the stock before it alone. */
  function CountedStock(order: seq<StockStatus>, rows: seq<Row>, change: Option<real>, k: Key, s: StockStatus): real {
    if change.Some? && s == StatusToCount(order, rows, k) then change.value else Held(rows, k, s)
  }

  /** Every line with a difference sets its chosen row to the count; nothing else changes. */
  lemma {:induction false} AdjustAllSetsChosenRows(
    cat: Catalog, batches: seq<Batch>, rows: seq<Row>, moves: seq<Movement>, warehouse: Id, reference: Reference,
    lines: seq<CountLine>, entries: seq<CountEntry>, k: Key, s: StockStatus)
    requires StockOk(rows, moves) && Targets(lines, entries)
    ensures var r := AdjustAll(cat, batches, rows, moves, warehouse, reference, lines, entries);
            r.Ok? ==>
              && StockOk(r.value.0, r.value.1)
              && Held(r.value.0, k, s) == CountedStock(cat.groupOrder, rows, ChangeOn(lines, entries, k), k, s)
    decreases |entries|
  {
    hide Total, Tally, Find, UniqueRows, Groups, Predominant;
    if entries != [] {
      TargetsTail(lines, entries);
      var rest := entries[1..];
      if !Differs(lines, entries[0]) {
        AdjustAllSetsChosenRows(cat, batches, rows, moves, warehouse, reference, lines, rest, k, s);
      } else {
        var key := lines[entries[0].line].key;
        var one := AdjustStock(cat, batches, rows, moves, warehouse, key, entries[0].counted, reference);
        if one.Ok? {
          var (after, log) := one.value;
          var chosen := StatusToCount(cat.groupOrder, rows, key);
          SetRowKeepsStock(rows, moves, key, chosen, entries[0].counted, reference);
          AdjustAllSetsChosenRows(cat, batches, after, log, warehouse, reference, lines, rest, k, s);
          if k == key {
            NoChangeOn(lines, rest, k);
            AdjustSetsOneRow(cat, batches, rows, moves, warehouse, key, entries[0].counted, reference, k, s);
          } else {
            SetRowAgreesElsewhere(rows, moves, key, chosen, entries[0].counted, reference, k);
            StatusDependsOnKey(cat.groupOrder, rows, after, k);
          }
        }
      }
    }
  }

  /** Booking fails exactly for a line with a difference whose place is unknown or whose count is negative. */
  ghost predicate Bookable(
      cat: Catalog, batches: seq<Batch>, warehouse: Id, lines: seq<CountLine>, entries: seq<CountEntry>) {
    forall a | 0 <= a < |entries| && Differs(lines, entries[a]) ::
      KnownPlace(cat, batches, warehouse, lines[entries[a].line].key) && 0.0 <= entries[a].counted
  }

  lemma {:induction false} AdjustAllAcceptsIff(
    cat: Catalog, batches: seq<Batch>, rows: seq<Row>, moves: seq<Movement>, warehouse: Id, reference: Reference,
    lines: seq<CountLine>, entries: seq<CountEntry>)
    ensures AdjustAll(cat, batches, rows, moves, warehouse, reference, lines, entries).Ok?
            <==> Bookable(cat, batches, warehouse, lines, entries)
    decreases |entries|
  {
    if entries != [] {
      var rest := entries[1..];
      assert forall a | 0 < a < |entries| :: entries[a] == rest[a - 1];
      if !Differs(lines, entries[0]) {
        AdjustAllAcceptsIff(cat, batches, rows, moves, warehouse, reference, lines, rest);
      } else {
        var one := AdjustStock(cat, batches, rows, moves, warehouse, lines[entries[0].line].key, entries[0].counted,
            reference);
        if one.Ok? {
          AdjustAllAcceptsIff(cat, batches, one.value.0, one.value.1, warehouse, reference, lines, rest);
        }
      }
      if Bookable(cat, batches, warehouse, lines, entries) {
        assert forall a | 0 <= a < |rest| :: rest[a] == entries[a + 1];
      }
    }
  }

  lemma {:induction false} ChangeOnIsTheEntry(lines: seq<CountLine>, entries: seq<CountEntry>, k: Key, a: nat)
    requires Targets(lines, entries) && a < |entries| && lines[entries[a].line].key == k
    ensures ChangeOn(lines, entries, k) == if Differs(lines, entries[a]) then Some(entries[a].counted) else None
  {
    TargetsTail(lines, entries);
    if a == 0 {
      NoChangeOn(lines, entries[1..], k);
    } else {
      assert entries[1..][a - 1] == entries[a];
      ChangeOnIsTheEntry(lines, entries[1..], k, a - 1);
      if Differs(lines, entries[0]) {
        assert lines[entries[0].line].key != lines[entries[1..][a - 1].line].key;
      }
    }
  }

  // ---------- The whole submission ----------

  /** Submitting a count books exactly the counted quantities, on the rows chosen from the stock before it. */
  lemma SubmitSetsChosenRows(cat: Catalog, db: Db, id: Id, entries: seq<CountEntry>, k: Key, s: StockStatus)
    requires id < |db.counts| && CountOk(db.counts[id]) && StockOk(db.rows, db.moves)
    ensures var r := SubmitCount(cat, db, id, entries);
            r.Ok? ==>
              && StockOk(r.value.rows, r.value.moves)
              && Held(r.value.rows, k, s)
                 == CountedStock(cat.groupOrder, db.rows, ChangeOn(db.counts[id].lines, entries, k), k, s)
  {
    var r := SubmitCount(cat, db, id, entries);
    if r.Ok? {
      var task := db.counts[id];
      var marked := MarkAll(task.lines, entries, {}).value;
      MarkAllAcceptsIff(task.lines, entries, {});
      forall i: Id | i < |marked|
        ensures marked[i].key == task.lines[i].key && marked[i].expected == task.lines[i].expected
      {
        MarkAllMarks(task.lines, entries, {}, i);
      }
      AdjustAllSetsChosenRows(cat, db.batches, db.rows, db.moves, task.warehouse, CountRef(id), marked, entries, k, s);
      SameChanges(task.lines, marked, entries, k);
    }
  }

  lemma {:induction false} SameChanges(a: seq<CountLine>, b: seq<CountLine>, entries: seq<CountEntry>, k: Key)
    requires |a| == |b| && forall i | 0 <= i < |a| :: a[i].key == b[i].key && a[i].expected == b[i].expected
    ensures ChangeOn(a, entries, k) == ChangeOn(b, entries, k)
  {
    if entries != [] {
      SameChanges(a, b, entries[1..], k);
    }
  }

  /** The order of the submission matters neither for acceptance nor for the stock it leaves. */
  lemma SubmissionOrderIsIrrelevant(
      cat: Catalog, db: Db, id: Id, one: seq<CountEntry>, two: seq<CountEntry>, k: Key, s: StockStatus)
    requires id < |db.counts| && CountOk(db.counts[id]) && StockOk(db.rows, db.moves)
    requires multiset(one) == multiset(two)
    ensures var a, b := SubmitCount(cat, db, id, one), SubmitCount(cat, db, id, two);
            && (a.Ok? <==> b.Ok?)
            && (a.Ok? && b.Ok? ==>
                  Held(a.value.rows, k, s) == Held(b.value.rows, k, s)
                  && a.value.counts[id].lines == b.value.counts[id].lines)
  {
    var a, b := SubmitCount(cat, db, id, one), SubmitCount(cat, db, id, two);
    if a.Ok? {
      AcceptanceIgnoresOrder(cat, db, id, one, two);
    } else if b.Ok? {
      AcceptanceIgnoresOrder(cat, db, id, two, one);
    }
    if a.Ok? && b.Ok? {
      var task := db.counts[id];
      SubmitCoversAndCompletes(cat, db, id, one);
      SubmitCoversAndCompletes(cat, db, id, two);
      SubmitSetsChosenRows(cat, db, id, one, k, s);
      SubmitSetsChosenRows(cat, db, id, two, k, s);
      ChangesIgnoreOrder(task.lines, one, two, k);
      MarksIgnoreOrder(task.lines, one, two);
    }
  }

  lemma InBoth(one: seq<CountEntry>, two: seq<CountEntry>, a: nat) returns (b: nat)
    requires multiset(one) == multiset(two) && a < |one|
    ensures b < |two| && two[b] == one[a]
  {
    assert one[a] in multiset(one);
    assert one[a] in two;
    b :| b < |two| && two[b] == one[a];
  }

  lemma ChangesIgnoreOrder(lines: seq<CountLine>, one: seq<CountEntry>, two: seq<CountEntry>, k: Key)
    requires Targets(lines, one) && Targets(lines, two) && multiset(one) == multiset(two)
    ensures ChangeOn(lines, one, k) == ChangeOn(lines, two, k)
  {
    if a :| 0 <= a < |one| && lines[one[a].line].key == k {
      var b := InBoth(one, two, a);
      ChangeOnIsTheEntry(lines, one, k, a);
      ChangeOnIsTheEntry(lines, two, k, b);
    } else {
      NoChangeOn(lines, one, k);
      forall b: nat | b < |two| ensures lines[two[b].line].key != k {
        var a := InBoth(two, one, b);
      }
      NoChangeOn(lines, two, k);
    }
  }

  lemma MarksIgnoreOrder(lines: seq<CountLine>, one: seq<CountEntry>, two: seq<CountEntry>)
    requires CoversPending(lines, one) && multiset(one) == multiset(two)
    requires forall i | 0 <= i < |lines| :: lines[i].counted.None?
    requires MarkAll(lines, one, {}).Ok? && MarkAll(lines, two, {}).Ok?
    ensures MarkAll(lines, one, {}).value == MarkAll(lines, two, {}).value
  {
    var m, n := MarkAll(lines, one, {}).value, MarkAll(lines, two, {}).value;
    forall i: Id | i < |lines| ensures m[i] == n[i] {
      MarkAllMarks(lines, one, {}, i);
      MarkAllMarks(lines, two, {}, i);
      var a: nat :| a < |one| && one[a].line == i;
      var b := InBoth(one, two, a);
      assert two[b].line == i;
    }
  }

  lemma AcceptanceIgnoresOrder(cat: Catalog, db: Db, id: Id, one: seq<CountEntry>, two: seq<CountEntry>)
    requires id < |db.counts| && CountOk(db.counts[id]) && multiset(one) == multiset(two)
    requires SubmitCount(cat, db, id, one).Ok?
    ensures SubmitCount(cat, db, id, two).Ok?
  {
    var task := db.counts[id];
    SubmitCoversAndCompletes(cat, db, id, one);
    forall i: Id | i < |task.lines| && task.lines[i].counted.None?
      ensures exists b | 0 <= b < |two| :: two[b].line == i
    {
      var a: nat :| a < |one| && one[a].line == i;
      var b := InBoth(one, two, a);
    }
    DistinctLinesIgnoreOrder(one, two);
    forall b: nat | b < |two| ensures two[b].line < |task.lines| && task.lines[two[b].line].counted.None? {
      var a := InBoth(two, one, b);
    }
    MarkAllAcceptsIff(task.lines, two, {});
    var m, n := MarkAll(task.lines, one, {}).value, MarkAll(task.lines, two, {}).value;
    MarksIgnoreOrder(task.lines, one, two);
    AdjustAllAcceptsIff(cat, db.batches, db.rows, db.moves, task.warehouse, CountRef(id), m, one);
    AdjustAllAcceptsIff(cat, db.batches, db.rows, db.moves, task.warehouse, CountRef(id), n, two);
    forall b: nat | b < |two| && Differs(n, two[b])
      ensures KnownPlace(cat, db.batches, task.warehouse, n[two[b].line].key) && 0.0 <= two[b].counted
    {
      var a := InBoth(two, one, b);
      assert Differs(m, one[a]);
    }
  }

  lemma DistinctLinesIgnoreOrder(one: seq<CountEntry>, two: seq<CountEntry>)
    requires multiset(one) == multiset(two)
    requires forall a, b | 0 <= a < b < |one| :: one[a].line != one[b].line
    ensures forall a, b | 0 <= a < b < |two| :: two[a].line != two[b].line
  {
    assert Distinct(one);
    PermutationKeepsDistinct(one, two);
    forall a: nat, b: nat | a < b < |two| ensures two[a].line != two[b].line {
      var x := InBoth(two, one, a);
      var y := InBoth(two, one, b);
      assert two[a] != two[b];
    }
  }

  // ---------- Stock on hand against the count ----------

  /** An adjustment sets one status: on hand equals the new quantity exactly when the others held nothing in sum. */
  lemma OnHandMatchesAdjustmentIff(
    cat: Catalog, batches: seq<Batch>, rows: seq<Row>, moves: seq<Movement>, warehouse: Id, k: Key, counted: real,
    reference: Reference)
    requires UniqueRows(rows)
    ensures var r := AdjustStock(cat, batches, rows, moves, warehouse, k, counted, reference);
            r.Ok? ==>
              (Total(r.value.0, OnKey(k)) == counted
               <==> Total(rows, OnKey(k)) == Held(rows, k, StatusToCount(cat.groupOrder, rows, k)))
  {
    SetRowShifts(rows, moves, k, StatusToCount(cat.groupOrder, rows, k), counted, reference, OnKey(k));
  }

  lemma {:induction false} OnHandSumsStatuses(rows: seq<Row>, k: Key)
    ensures Total(rows, OnKey(k)) == ExpectedOn(rows, k) + Held(rows, k, Scrap)
  {
    if rows != [] {
      OnHandSumsStatuses(rows[..|rows| - 1], k);
    }
  }

  /** What the submission does to all stock on a key: nothing, or the chosen status goes to the count. */
  lemma SubmitMovesOnHand(cat: Catalog, db: Db, id: Id, entries: seq<CountEntry>, k: Key)
    requires id < |db.counts| && CountOk(db.counts[id]) && StockOk(db.rows, db.moves)
    ensures var r := SubmitCount(cat, db, id, entries);
            var change := ChangeOn(db.counts[id].lines, entries, k);
            r.Ok? ==>
              Total(r.value.rows, OnKey(k)) == Total(db.rows, OnKey(k))
                + (if change.Some? then change.value - Held(db.rows, k, StatusToCount(cat.groupOrder, db.rows, k))
                   else 0.0)
  {
    hide SubmitCount, StatusToCount, ChangeOn, Held, StockOk;
    var r := SubmitCount(cat, db, id, entries);
    if r.Ok? {
      OnHandSumsStatuses(db.rows, k);
      OnHandSumsStatuses(r.value.rows, k);
      forall s
        ensures Held(r.value.rows, k, s)
             == CountedStock(cat.groupOrder, db.rows, ChangeOn(db.counts[id].lines, entries, k), k, s)
      {
        SubmitSetsChosenRows(cat, db, id, entries, k, s);
      }
    }
  }

  /** What the count task and the stock must look like for entry a to end as stock on hand. */
  predicate WillMatch(order: seq<StockStatus>, rows: seq<Row>, line: CountLine, counted: real) {
    var onHand := Total(rows, OnKey(line.key));
    if counted == line.expected then onHand == line.expected
    else onHand == Held(rows, line.key, StatusToCount(order, rows, line.key))
  }

  /**
   * A count is of all stock on the key, but a count equal to the expectation is not booked, and any other is booked
   * on one status. After an accepted submission the stock on hand equals what was counted exactly when, in the first
   * case, the expectation is still what is on hand, and, in the second, the other statuses hold nothing in sum.
   */
  lemma OnHandMatchesCountIff(cat: Catalog, db: Db, id: Id, entries: seq<CountEntry>, a: nat)
    requires id < |db.counts| && CountOk(db.counts[id]) && StockOk(db.rows, db.moves) && a < |entries|
    ensures var r := SubmitCount(cat, db, id, entries);
            r.Ok? ==>
              && entries[a].line < |db.counts[id].lines|
              && var line := db.counts[id].lines[entries[a].line];
                 (Total(r.value.rows, OnKey(line.key)) == entries[a].counted
                  <==> WillMatch(cat.groupOrder, db.rows, line, entries[a].counted))
  {
    hide SubmitCount, StatusToCount, ChangeOn, Held, StockOk;
    if SubmitCount(cat, db, id, entries).Ok? {
      SubmitCoversAndCompletes(cat, db, id, entries);
      var lines := db.counts[id].lines;
      ChangeOnIsTheEntry(lines, entries, lines[entries[a].line].key, a);
      SubmitMovesOnHand(cat, db, id, entries, lines[entries[a].line].key);
    }
  }
}
