/** Picking waves: orders grouped by a strategy's key, each group cut into chunks. */
module Waves {
  import opened Wrappers
  import opened Numbers
  import opened Sorting

  datatype Strategy = ByRoute | ByCarrier | ByZone | ByTimeWindow | ByPriority

  /** shipHour is the requested ship date down to the hour; lines holds the requested quantity of each line. */
  datatype Order = Order(
    id: nat,
    route: Option<string>,
    carrier: Option<string>,
    zone: Option<string>,
    shipHour: Option<string>,
    priority: Option<int>,
    lines: seq<real>)

  function OrDefault(s: Option<string>, default: string): string {
    if s.Some? then s.value else default
  }

  function Signed(n: int): string {
    if n < 0 then "-" + Decimal(-n) else Decimal(n)
  }

  function GroupingKey(strategy: Strategy, order: Order): string {
    match strategy
    case ByRoute => OrDefault(order.route, "UNASSIGNED")
    case ByCarrier => OrDefault(order.carrier, "UNASSIGNED")
    case ByZone => OrDefault(order.zone, "UNASSIGNED")
    case ByTimeWindow => OrDefault(order.shipHour, "NO_WINDOW")
    case ByPriority => Signed(if order.priority.Some? then order.priority.value else 0)
  }

  // ---------- Grouping ----------

  /** Two codes are the same, a missing one counting as the default. */
  predicate SameCode(a: Option<string>, b: Option<string>, default: string) {
    a == b || (a.None? && b == Some(default)) || (b.None? && a == Some(default))
  }

  predicate SamePriority(a: Option<int>, b: Option<int>) {
    a == b || (a.None? && b == Some(0)) || (b.None? && a == Some(0))
  }

  /** The two orders belong together under a strategy. */
  predicate BelongTogether(strategy: Strategy, a: Order, b: Order) {
    match strategy
    case ByRoute => SameCode(a.route, b.route, "UNASSIGNED")
    case ByCarrier => SameCode(a.carrier, b.carrier, "UNASSIGNED")
    case ByZone => SameCode(a.zone, b.zone, "UNASSIGNED")
    case ByTimeWindow => SameCode(a.shipHour, b.shipHour, "NO_WINDOW")
    case ByPriority => SamePriority(a.priority, b.priority)
  }

  lemma SignedIsInjective(a: int, b: int)
    ensures Signed(a) == Signed(b) <==> a == b
  {
    if Signed(a) == Signed(b) {
      assert (a < 0) == (Signed(a)[0] == '-') && (b < 0) == (Signed(b)[0] == '-');
      if a < 0 {
        assert Signed(a)[1..] == Decimal(-a) && Signed(b)[1..] == Decimal(-b);
        DecimalIsInjective(-a, -b);
      } else {
        DecimalIsInjective(a, b);
      }
    }
  }

  /** Orders share a grouping key exactly when they belong together. */
  lemma KeysAgreeIff(strategy: Strategy, a: Order, b: Order)
    ensures GroupingKey(strategy, a) == GroupingKey(strategy, b) <==> BelongTogether(strategy, a, b)
  {
    hide Signed;
    if strategy.ByPriority? {
      SignedIsInjective(if a.priority.Some? then a.priority.value else 0,
                        if b.priority.Some? then b.priority.value else 0);
    }
  }

  function Grouped(strategy: Strategy, orders: seq<Order>): (g: map<string, seq<Order>>)
    ensures forall k | k in g :: g[k] != []
  {
    if orders == [] then map[] else
    var n := |orders| - 1;
    var earlier := Grouped(strategy, orders[..n]);
    var key := GroupingKey(strategy, orders[n]);
    earlier[key := (if key in earlier then earlier[key] else []) + [orders[n]]]
  }

  /** The orders whose key is in ks, in their given order. */
  function WithKeyIn(strategy: Strategy, orders: seq<Order>, ks: set<string>): seq<Order> {
    if orders == [] then [] else
    var n := |orders| - 1;
    var earlier := WithKeyIn(strategy, orders[..n], ks);
    if GroupingKey(strategy, orders[n]) in ks then earlier + [orders[n]] else earlier
  }

  /** Each group holds exactly the orders of its key, in order; a key without orders has no group. */
  lemma {:induction false} GroupsAreFilters(strategy: Strategy, orders: seq<Order>, k: string)
    ensures var g := Grouped(strategy, orders);
            (if k in g then g[k] else []) == WithKeyIn(strategy, orders, {k})
  {
    if orders != [] {
      GroupsAreFilters(strategy, orders[..|orders| - 1], k);
    }
  }

  // ---------- Chunking ----------

  function Chunks<T>(arr: seq<T>, size: int): seq<seq<T>>
    decreases |arr|
  {
    if size <= 0 then [arr]
    else if arr == [] then []
    else if |arr| <= size then [arr]
    else [arr[..size]] + Chunks(arr[size..], size)
  }

  function Flatten<T>(chunks: seq<seq<T>>): seq<T> {
    if chunks == [] then [] else Flatten(chunks[..|chunks| - 1]) + chunks[|chunks| - 1]
  }

  lemma {:induction false} FlattenCons<T>(first: seq<T>, rest: seq<seq<T>>)
    ensures Flatten([first] + rest) == first + Flatten(rest)
  {
    var all := [first] + rest;
    if rest == [] {
      assert all == [first] && all[..0] == [];
    } else {
      var n := |rest| - 1;
      FlattenCons(first, rest[..n]);
      assert all[..|all| - 1] == [first] + rest[..n];
      assert Flatten(all) == Flatten([first] + rest[..n]) + rest[n];
      assert Flatten(all) == first + (Flatten(rest[..n]) + rest[n]);
    }
  }

  /**
   * Chunks concatenate back; with a positive size each is non-empty and at most that long, and all but the last are
   * full.
   */
  lemma {:induction false} ChunksPartition<T>(arr: seq<T>, size: int)
    ensures Flatten(Chunks(arr, size)) == arr
    ensures 0 < size ==> forall i | 0 <= i < |Chunks(arr, size)| :: 1 <= |Chunks(arr, size)[i]| <= size
    ensures 0 < size ==> forall i | 0 <= i < |Chunks(arr, size)| - 1 :: |Chunks(arr, size)[i]| == size
    decreases |arr|
  {
    if size <= 0 || |arr| <= size {
      var chunks := Chunks(arr, size);
      if chunks == [arr] {
        assert chunks[..0] == [];
      }
    } else {
      ChunksPartition(arr[size..], size);
      FlattenCons(arr[..size], Chunks(arr[size..], size));
      assert arr[..size] + arr[size..] == arr;
    }
  }

  method ChunkArray<T>(arr: seq<T>, size: int) returns (chunks: seq<seq<T>>)
    ensures chunks == Chunks(arr, size)
  {
    if size <= 0 { return [arr]; }
    chunks := [];
    var i := 0;
    while i < |arr|
      invariant 0 <= i
      invariant if i <= |arr| then chunks + Chunks(arr[i..], size) == Chunks(arr, size) else chunks == Chunks(arr, size)
      decreases |arr| - i
    {
      var end := if i + size <= |arr| then i + size else |arr|;
      ghost var rest := arr[i..];
      assert arr[i..end] == rest[..end - i];
      if i + size < |arr| {
        assert rest[size..] == arr[i + size..];
        assert chunks + ([rest[..size]] + Chunks(rest[size..], size))
            == (chunks + [rest[..size]]) + Chunks(rest[size..], size);
      } else {
        assert rest[..end - i] == rest;
      }
      chunks := chunks + [arr[i..end]];
      i := i + size;
    }
  }

  // ---------- Waves ----------

  datatype Totals = Totals(orders: nat, lines: nat, units: real)

  function SumUnits(lines: seq<real>): real {
    if lines == [] then 0.0 else SumUnits(lines[..|lines| - 1]) + lines[|lines| - 1]
  }

  function Counting(acc: Totals, order: Order): Totals {
    Totals(acc.orders + 1, acc.lines + |order.lines|, acc.units + SumUnits(order.lines))
  }

  function TotalsOf(orders: seq<Order>): Totals {
    if orders == [] then Totals(0, 0, 0.0) else
    Counting(TotalsOf(orders[..|orders| - 1]), orders[|orders| - 1])
  }

  function Plus(a: Totals, b: Totals): Totals {
    Totals(a.orders + b.orders, a.lines + b.lines, a.units + b.units)
  }

  datatype Wave = Wave(key: string, orders: seq<Order>, totals: Totals)

  function WavesOfBatches(key: string, batches: seq<seq<Order>>): seq<Wave> {
    if batches == [] then [] else
    var n := |batches| - 1;
    WavesOfBatches(key, batches[..n]) + (if batches[n] == [] then [] else [Wave(key, batches[n], TotalsOf(batches[n]))])
  }

  /** A missing limit means the whole group in one wave. */
  function SizeFor(max: Option<int>, group: seq<Order>): int {
    if max.Some? then max.value else |group|
  }

  function GroupWaves(key: string, group: seq<Order>, max: Option<int>): seq<Wave> {
    WavesOfBatches(key, Chunks(group, SizeFor(max, group)))
  }

  /** The waves of the groups listed in ks, in that order. */
  function WavesFor(groups: map<string, seq<Order>>, ks: seq<string>, max: Option<int>): seq<Wave>
    requires forall i | 0 <= i < |ks| :: ks[i] in groups
  {
    if ks == [] then [] else
    var n := |ks| - 1;
    WavesFor(groups, ks[..n], max) + GroupWaves(ks[n], groups[ks[n]], max)
  }

  function AllOrders(waves: seq<Wave>): seq<Order> {
    if waves == [] then [] else AllOrders(waves[..|waves| - 1]) + waves[|waves| - 1].orders
  }

  lemma AllOrdersOfAppended(waves: seq<Wave>, w: Wave)
    ensures AllOrders(waves + [w]) == AllOrders(waves) + w.orders
  {
    assert (waves + [w])[..|waves|] == waves;
  }

  lemma {:induction false} AllOrdersConcat(a: seq<Wave>, b: seq<Wave>)
    ensures AllOrders(a + b) == AllOrders(a) + AllOrders(b)
  {
    if b == [] {
      assert a + b == a;
    } else {
      AllOrdersConcat(a, b[..|b| - 1]);
      InitOfConcat(a, b);
    }
  }

  lemma {:induction false} BatchesFlatten(key: string, batches: seq<seq<Order>>)
    ensures AllOrders(WavesOfBatches(key, batches)) == Flatten(batches)
  {
    if batches != [] {
      var n := |batches| - 1;
      BatchesFlatten(key, batches[..n]);
      if batches[n] != [] {
        AllOrdersOfAppended(WavesOfBatches(key, batches[..n]), Wave(key, batches[n], TotalsOf(batches[n])));
      } else {
        assert Flatten(batches) == Flatten(batches[..n]);
        assert WavesOfBatches(key, batches) == WavesOfBatches(key, batches[..n]);
      }
    }
  }

  lemma GroupFlattens(key: string, group: seq<Order>, max: Option<int>)
    ensures AllOrders(GroupWaves(key, group, max)) == group
  {
    BatchesFlatten(key, Chunks(group, SizeFor(max, group)));
    ChunksPartition(group, SizeFor(max, group));
  }

  /** A non-empty wave of one key within a positive size limit, with its own totals. */
  ghost predicate WellFormed(strategy: Strategy, max: Option<int>, w: Wave) {
    && w.orders != []
    && (forall i | 0 <= i < |w.orders| :: GroupingKey(strategy, w.orders[i]) == w.key)
    && (max.Some? && 0 < max.value ==> |w.orders| <= max.value)
    && w.totals == TotalsOf(w.orders)
  }

  ghost predicate AllWellFormed(strategy: Strategy, max: Option<int>, waves: seq<Wave>) {
    forall w | 0 <= w < |waves| :: WellFormed(strategy, max, waves[w])
  }

  lemma {:induction false} FilteredHaveKey(strategy: Strategy, orders: seq<Order>, k: string)
    ensures forall i | 0 <= i < |WithKeyIn(strategy, orders, {k})| ::
        GroupingKey(strategy, WithKeyIn(strategy, orders, {k})[i]) == k
  {
    if orders != [] {
      FilteredHaveKey(strategy, orders[..|orders| - 1], k);
    }
  }

  lemma {:induction false} FlattenedElements<T>(chunks: seq<seq<T>>, c: nat, i: nat)
    requires c < |chunks| && i < |chunks[c]|
    ensures chunks[c][i] in Flatten(chunks)
  {
    var n := |chunks| - 1;
    if c < n {
      FlattenedElements(chunks[..n], c, i);
    }
  }

  lemma {:induction false} BatchesAreWellFormed(
      strategy: Strategy, max: Option<int>, key: string, batches: seq<seq<Order>>)
    requires forall c, i | 0 <= c < |batches| && 0 <= i < |batches[c]| :: GroupingKey(strategy, batches[c][i]) == key
    requires max.Some? && 0 < max.value ==> forall c | 0 <= c < |batches| :: |batches[c]| <= max.value
    ensures AllWellFormed(strategy, max, WavesOfBatches(key, batches))
  {
    if batches != [] {
      BatchesAreWellFormed(strategy, max, key, batches[..|batches| - 1]);
    }
  }

  lemma GroupIsWellFormed(strategy: Strategy, orders: seq<Order>, key: string, max: Option<int>)
    requires key in Grouped(strategy, orders)
    ensures AllWellFormed(strategy, max, GroupWaves(key, Grouped(strategy, orders)[key], max))
  {
    var group := Grouped(strategy, orders)[key];
    var batches := Chunks(group, SizeFor(max, group));
    GroupsAreFilters(strategy, orders, key);
    FilteredHaveKey(strategy, orders, key);
    ChunksPartition(group, SizeFor(max, group));
    forall c, i | 0 <= c < |batches| && 0 <= i < |batches[c]| ensures GroupingKey(strategy, batches[c][i]) == key {
      FlattenedElements(batches, c, i);
    }
    BatchesAreWellFormed(strategy, max, key, batches);
  }

  lemma WellFormedConcat(strategy: Strategy, max: Option<int>, a: seq<Wave>, b: seq<Wave>)
    requires AllWellFormed(strategy, max, a) && AllWellFormed(strategy, max, b)
    ensures AllWellFormed(strategy, max, a + b)
  {
  }

  /** In every wave all orders share the key, a positive limit is respected, and the totals are those of its orders. */
  lemma {:induction false} WavesAreWellFormed(strategy: Strategy, orders: seq<Order>, ks: seq<string>, max: Option<int>)
    requires forall i | 0 <= i < |ks| :: ks[i] in Grouped(strategy, orders)
    ensures AllWellFormed(strategy, max, WavesFor(Grouped(strategy, orders), ks, max))
  {
    if ks != [] {
      var n := |ks| - 1;
      var groups := Grouped(strategy, orders);
      WavesAreWellFormed(strategy, orders, ks[..n], max);
      GroupIsWellFormed(strategy, orders, ks[n], max);
      WellFormedConcat(strategy, max, WavesFor(groups, ks[..n], max), GroupWaves(ks[n], groups[ks[n]], max));
    }
  }

  /** The orders of a wave belong together, whichever way the waves came about. */
  lemma WaveOrdersBelongTogether(
      strategy: Strategy, orders: seq<Order>, ks: seq<string>, max: Option<int>, w: nat, i: nat, j: nat)
    requires forall i | 0 <= i < |ks| :: ks[i] in Grouped(strategy, orders)
    requires w < |WavesFor(Grouped(strategy, orders), ks, max)|
    requires var wave := WavesFor(Grouped(strategy, orders), ks, max)[w];
             i < |wave.orders| && j < |wave.orders|
    ensures var wave := WavesFor(Grouped(strategy, orders), ks, max)[w];
            BelongTogether(strategy, wave.orders[i], wave.orders[j])
  {
    hide Grouped, WavesFor, GroupingKey, BelongTogether;
    WavesAreWellFormed(strategy, orders, ks, max);
    var wave := WavesFor(Grouped(strategy, orders), ks, max)[w];
    assert WellFormed(strategy, max, wave);
    KeysAgreeIff(strategy, wave.orders[i], wave.orders[j]);
  }

  /** Without a limit there is one wave per key, so orders that belong together are in the same wave. */
  lemma {:induction false} UnlimitedWavesAreGroups(strategy: Strategy, orders: seq<Order>, ks: seq<string>)
    requires forall i | 0 <= i < |ks| :: ks[i] in Grouped(strategy, orders)
    ensures var groups := Grouped(strategy, orders);
            var waves := WavesFor(groups, ks, None);
            && |waves| == |ks|
            && forall i | 0 <= i < |ks| :: waves[i] == Wave(ks[i], groups[ks[i]], TotalsOf(groups[ks[i]]))
  {
    hide Grouped, TotalsOf;
    if ks != [] {
      var n := |ks| - 1;
      UnlimitedWavesAreGroups(strategy, orders, ks[..n]);
      var group := Grouped(strategy, orders)[ks[n]];
      GroupIsNotEmpty(strategy, orders, ks[n]);
      assert Chunks(group, |group|) == [group] && [group][..0] == [];
      assert WavesOfBatches(ks[n], []) == [] && WavesOfBatches(ks[n], [group]) == [Wave(ks[n], group, TotalsOf(group))];
    }
  }

  lemma GroupIsNotEmpty(strategy: Strategy, orders: seq<Order>, key: string)
    requires key in Grouped(strategy, orders)
    ensures Grouped(strategy, orders)[key] != []
  {
  }

  // ---------- Partition and totals ----------

  function KeySet(ks: seq<string>): (r: set<string>)
    ensures forall k :: k in r <==> k in ks
  {
    set k | k in ks
  }

  lemma {:induction false} OneMoreKey(strategy: Strategy, orders: seq<Order>, ks: set<string>, k: string)
    requires k !in ks
    ensures multiset(WithKeyIn(strategy, orders, ks + {k}))
         == multiset(WithKeyIn(strategy, orders, ks)) + multiset(WithKeyIn(strategy, orders, {k}))
  {
    if orders != [] {
      var n := |orders| - 1;
      OneMoreKey(strategy, orders[..n], ks, k);
      var key := GroupingKey(strategy, orders[n]);
      assert key in ks + {k} <==> key in ks || key in {k};
    }
  }

  lemma {:induction false} EveryKeyHasGroup(strategy: Strategy, orders: seq<Order>)
    ensures forall i | 0 <= i < |orders| :: GroupingKey(strategy, orders[i]) in Grouped(strategy, orders)
  {
    if orders != [] {
      var n := |orders| - 1;
      EveryKeyHasGroup(strategy, orders[..n]);
      assert forall i | 0 <= i < n :: orders[i] == orders[..n][i];
    }
  }

  lemma {:induction false} AllKeysKeepEverything(strategy: Strategy, orders: seq<Order>, ks: set<string>)
    requires forall i | 0 <= i < |orders| :: GroupingKey(strategy, orders[i]) in ks
    ensures WithKeyIn(strategy, orders, ks) == orders
  {
    if orders != [] {
      var n := |orders| - 1;
      AllKeysKeepEverything(strategy, orders[..n], ks);
      assert orders == orders[..n] + [orders[n]];
    }
  }

  lemma {:induction false} NoKeysKeepNothing(strategy: Strategy, orders: seq<Order>)
    ensures WithKeyIn(strategy, orders, {}) == []
  {
    if orders != [] {
      NoKeysKeepNothing(strategy, orders[..|orders| - 1]);
    }
  }

  lemma HoldsOneMore(
    strategy: Strategy, orders: seq<Order>, ks: seq<string>, key: string, held: seq<Order>, group: seq<Order>)
    requires key !in ks && group == WithKeyIn(strategy, orders, {key})
    requires multiset(held) == multiset(WithKeyIn(strategy, orders, KeySet(ks)))
    ensures multiset(held + group) == multiset(WithKeyIn(strategy, orders, KeySet(ks + [key])))
  {
    hide WithKeyIn;
    OneMoreKey(strategy, orders, KeySet(ks), key);
    assert KeySet(ks + [key]) == KeySet(ks) + {key};
  }

  lemma {:induction false} WavesHoldTheirGroups(
    strategy: Strategy, orders: seq<Order>, ks: seq<string>, max: Option<int>)
    requires Distinct(ks) && forall i | 0 <= i < |ks| :: ks[i] in Grouped(strategy, orders)
    ensures multiset(AllOrders(WavesFor(Grouped(strategy, orders), ks, max)))
         == multiset(WithKeyIn(strategy, orders, KeySet(ks)))
  {
    hide Grouped, GroupWaves, WithKeyIn;
    if ks == [] {
      NoKeysKeepNothing(strategy, orders);
      assert KeySet(ks) == {};
    } else {
      hide AllOrders;
      var groups := Grouped(strategy, orders);
      var init, last := ks[..|ks| - 1], ks[|ks| - 1];
      WavesHoldTheirGroups(strategy, orders, init, max);
      AllOrdersConcat(WavesFor(groups, init, max), GroupWaves(last, groups[last], max));
      GroupFlattens(last, groups[last], max);
      GroupsAreFilters(strategy, orders, last);
      LastIsNew(ks);
      HoldsOneMore(strategy, orders, init, last, AllOrders(WavesFor(groups, init, max)), groups[last]);
      assert ks == init + [last];
    }
  }

  lemma TotalsOfAppended(orders: seq<Order>, o: Order)
    ensures TotalsOf(orders + [o]) == Counting(TotalsOf(orders), o)
  {
    assert (orders + [o])[..|orders|] == orders;
  }

  lemma PlusCounting(a: Totals, b: Totals, o: Order)
    ensures Counting(Plus(a, b), o) == Plus(a, Counting(b, o))
  {
  }

  lemma {:induction false} TotalsConcat(a: seq<Order>, b: seq<Order>)
    ensures TotalsOf(a + b) == Plus(TotalsOf(a), TotalsOf(b))
  {
    if b == [] {
      assert a + b == a;
    } else {
      TotalsConcat(a, b[..|b| - 1]);
      InitOfConcat(a, b);
      PlusCounting(TotalsOf(a), TotalsOf(b[..|b| - 1]), b[|b| - 1]);
    }
  }

  lemma TotalsOfSpliced(left: seq<Order>, o: Order, right: seq<Order>)
    ensures TotalsOf(left + [o] + right) == Counting(TotalsOf(left + right), o)
  {
    TotalsConcat(left, right);
    TotalsOfAppended(left, o);
    TotalsConcat(left + [o], right);
  }

  /** Totals do not depend on the order of the orders. */
  lemma {:induction false} TotalsOfPermutation(a: seq<Order>, b: seq<Order>)
    requires multiset(a) == multiset(b)
    ensures TotalsOf(a) == TotalsOf(b)
    decreases |a|
  {
    if a == [] {
      assert |b| == |multiset(b)|;
    } else {
      var i := PermutationWithoutLast(a, b);
      TotalsOfPermutation(a[..|a| - 1], b[..i] + b[i + 1..]);
      assert b[..i] + [b[i]] + b[i + 1..] == b;
      TotalsOfSpliced(b[..i], b[i], b[i + 1..]);
    }
  }

  /** The requested quantities of all lines of the orders. */
  function Quantities(orders: seq<Order>): seq<real> {
    if orders == [] then [] else Quantities(orders[..|orders| - 1]) + orders[|orders| - 1].lines
  }

  /** Units are the sum of quantities: none for nothing, its own for one, and additive. */
  lemma {:induction false} UnitsAddUp(a: seq<real>, b: seq<real>, q: real)
    ensures SumUnits([]) == 0.0 && SumUnits([q]) == q && SumUnits(a + b) == SumUnits(a) + SumUnits(b)
  {
    assert [q][..0] == [];
    if b == [] {
      assert a + b == a;
    } else {
      var n := |b| - 1;
      assert (a + b)[..|a + b| - 1] == a + b[..n];
      UnitsAddUp(a, b[..n], q);
    }
  }

  /** The totals are the number of orders, the number of their lines and the sum of the quantities on them. */
  lemma {:induction false} TotalsCount(orders: seq<Order>)
    ensures TotalsOf(orders) == Totals(|orders|, |Quantities(orders)|, SumUnits(Quantities(orders)))
  {
    if orders != [] {
      var n := |orders| - 1;
      TotalsCount(orders[..n]);
      UnitsAddUp(Quantities(orders[..n]), orders[n].lines, 0.0);
    }
  }

  /** Sum of the totals stored in the waves. */
  function WaveTotals(waves: seq<Wave>): Totals {
    if waves == [] then Totals(0, 0, 0.0) else
    Plus(WaveTotals(waves[..|waves| - 1]), waves[|waves| - 1].totals)
  }

  lemma {:induction false} TotalsAreSums(strategy: Strategy, max: Option<int>, waves: seq<Wave>)
    requires AllWellFormed(strategy, max, waves)
    ensures WaveTotals(waves) == TotalsOf(AllOrders(waves))
  {
    if waves != [] {
      var n := |waves| - 1;
      TotalsAreSums(strategy, max, waves[..n]);
      TotalsConcat(AllOrders(waves[..n]), waves[n].orders);
    }
  }

  /**
   * In whatever order the groups are visited: every order is in the waves exactly as often as it was given, and the
   * totals add up.
   */
  lemma WavesPartitionOrders(strategy: Strategy, orders: seq<Order>, ks: seq<string>, max: Option<int>)
    requires Enumerates(ks, Grouped(strategy, orders).Keys)
    ensures var waves := WavesFor(Grouped(strategy, orders), ks, max);
            && multiset(AllOrders(waves)) == multiset(orders)
            && WaveTotals(waves) == TotalsOf(orders)
  {
    var waves := WavesFor(Grouped(strategy, orders), ks, max);
    WavesHoldTheirGroups(strategy, orders, ks, max);
    EveryKeyHasGroup(strategy, orders);
    AllKeysKeepEverything(strategy, orders, KeySet(ks));
    WavesAreWellFormed(strategy, orders, ks, max);
    TotalsAreSums(strategy, max, waves);
    TotalsOfPermutation(AllOrders(waves), orders);
  }

  /** Distinct orders: no order is in two waves, nor twice in one. */
  lemma NoOrderTwice(strategy: Strategy, orders: seq<Order>, ks: seq<string>, max: Option<int>)
    requires Enumerates(ks, Grouped(strategy, orders).Keys) && Distinct(orders)
    ensures Distinct(AllOrders(WavesFor(Grouped(strategy, orders), ks, max)))
  {
    WavesPartitionOrders(strategy, orders, ks, max);
    PermutationKeepsDistinct(orders, AllOrders(WavesFor(Grouped(strategy, orders), ks, max)));
  }

  // ---------- The loops ----------

  method GroupOrders(strategy: Strategy, orders: seq<Order>) returns (grouped: map<string, seq<Order>>)
    ensures grouped == Grouped(strategy, orders)
  {
    grouped := map[];
    for i := 0 to |orders|
      invariant grouped == Grouped(strategy, orders[..i])
    {
      assert orders[..i + 1][..i] == orders[..i];
      var key := GroupingKey(strategy, orders[i]);
      var group := if key in grouped then grouped[key] else [];
      grouped := grouped[key := group + [orders[i]]];
    }
    assert orders[..|orders|] == orders;
  }

  method SumTotals(batch: seq<Order>) returns (acc: Totals)
    ensures acc == TotalsOf(batch)
  {
    acc := Totals(0, 0, 0.0);
    for i := 0 to |batch|
      invariant acc == TotalsOf(batch[..i])
    {
      assert batch[..i + 1][..i] == batch[..i];
      acc := Counting(acc, batch[i]);
    }
    assert batch[..|batch|] == batch;
  }

  method WavesOfGroup(key: string, group: seq<Order>, max: Option<int>) returns (created: seq<Wave>)
    ensures created == GroupWaves(key, group, max)
  {
    var batches := ChunkArray(group, SizeFor(max, group));
    created := [];
    for b := 0 to |batches|
      invariant created == WavesOfBatches(key, batches[..b])
    {
      assert batches[..b + 1][..b] == batches[..b];
      if batches[b] == [] { continue; }
      var totals := SumTotals(batches[b]);
      created := created + [Wave(key, batches[b], totals)];
    }
    assert batches[..|batches|] == batches;
  }

  /** One pass over the groups; ks is the order in which the runtime lists them. */
  method GenerateWaves(
      strategy: Strategy, orders: seq<Order>, max: Option<int>) returns (waves: seq<Wave>, ghost ks: seq<string>)
    ensures Enumerates(ks, Grouped(strategy, orders).Keys)
    ensures waves == WavesFor(Grouped(strategy, orders), ks, max)
    ensures multiset(AllOrders(waves)) == multiset(orders)
    ensures WaveTotals(waves) == TotalsOf(orders)
    ensures AllWellFormed(strategy, max, waves)
  {
    hide Enumerates, Grouped, GroupWaves, AllOrders, WaveTotals, TotalsOf, AllWellFormed;
    var grouped := GroupOrders(strategy, orders);
    var pending := grouped.Keys;
    waves, ks := [], [];
    EnumerateNothing<string>();
    assert grouped.Keys - pending == {};
    while pending != {}
      invariant pending <= grouped.Keys
      invariant Enumerates(ks, grouped.Keys - pending)
      invariant forall i | 0 <= i < |ks| :: ks[i] in grouped
      invariant waves == WavesFor(grouped, ks, max)
    {
      var key :| key in pending;
      var created := WavesOfGroup(key, grouped[key], max);
      WavesForOneMore(grouped, ks, key, max);
      EnumerateOneMore(ks, grouped.Keys - pending, key);
      assert grouped.Keys - (pending - {key}) == grouped.Keys - pending + {key};
      waves, ks := waves + created, ks + [key];
      pending := pending - {key};
    }
    assert grouped.Keys - pending == grouped.Keys;
    WavesPartitionOrders(strategy, orders, ks, max);
    WavesAreWellFormed(strategy, orders, ks, max);
  }

  lemma WavesForOneMore(groups: map<string, seq<Order>>, ks: seq<string>, key: string, max: Option<int>)
    requires key in groups && forall i | 0 <= i < |ks| :: ks[i] in groups
    ensures WavesFor(groups, ks + [key], max) == WavesFor(groups, ks, max) + GroupWaves(key, groups[key], max)
  {
    hide GroupWaves;
    assert (ks + [key])[..|ks|] == ks;
  }
}
