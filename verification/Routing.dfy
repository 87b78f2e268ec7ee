/** The picking path of a wave: stops per location, a nearest-neighbour walk and its memoised distances. */
module Routing {
  import opened Wrappers
  import opened Distances
  import opened Sorting

  // ---------- Stops ----------

  datatype Line = Line(id: nat, from: nat)

  datatype Stop = Stop(place: Place, point: Point, lineIds: seq<nat>)

  const START_STOP := Stop(Start, ORIGIN, [])

  function PositionOf(stops: seq<Stop>, place: Place): (i: nat)
    ensures i <= |stops|
    ensures i < |stops| ==> stops[i].place == place
    ensures forall k | 0 <= k < i :: stops[k].place != place
  {
    if stops == [] || stops[0].place == place then 0 else 1 + PositionOf(stops[1..], place)
  }

  /** The line joins the stop of its location; a location seen for the first time becomes the last stop. */
  function Join(layout: map<nat, Location>, stops: seq<Stop>, line: Line): seq<Stop>
    requires line.from in layout
  {
    var i := PositionOf(stops, At(line.from));
    if i < |stops| then stops[i := stops[i].(lineIds := stops[i].lineIds + [line.id])]
    else stops + [Stop(At(line.from), PointOf(layout, At(line.from)), [line.id])]
  }

  ghost predicate AllKnown(layout: map<nat, Location>, lines: seq<Line>) {
    forall i | 0 <= i < |lines| :: lines[i].from in layout
  }

  function StopsOf(layout: map<nat, Location>, lines: seq<Line>): seq<Stop>
    requires AllKnown(layout, lines)
  {
    if lines == [] then [] else
    Join(layout, StopsOf(layout, lines[..|lines| - 1]), lines[|lines| - 1])
  }

  function IdsAt(lines: seq<Line>, place: Place): seq<nat> {
    if lines == [] then [] else
    var earlier, last := IdsAt(lines[..|lines| - 1], place), lines[|lines| - 1];
    if At(last.from) == place then earlier + [last.id] else earlier
  }

  ghost predicate Placed(layout: map<nat, Location>, s: Stop) {
    Known(layout, s.place) && s.point == PointOf(layout, s.place)
  }

  ghost predicate AllPlaced(layout: map<nat, Location>, stops: seq<Stop>) {
    forall i | 0 <= i < |stops| :: Placed(layout, stops[i])
  }

  ghost predicate DistinctPlaces(stops: seq<Stop>) {
    forall i, j | 0 <= i < j < |stops| :: stops[i].place != stops[j].place
  }

  /** One stop per location that has lines, holding exactly the lines of that location in their order. */
  ghost predicate GroupsLines(layout: map<nat, Location>, stops: seq<Stop>, lines: seq<Line>) {
    && DistinctPlaces(stops)
    && AllPlaced(layout, stops)
    && (forall i | 0 <= i < |stops| :: stops[i].place != Start && stops[i].lineIds != [])
    && (forall i | 0 <= i < |stops| :: stops[i].lineIds == IdsAt(lines, stops[i].place))
    && (forall k | 0 <= k < |lines| :: PositionOf(stops, At(lines[k].from)) < |stops|)
  }

  lemma NoLinesWithoutStop(layout: map<nat, Location>, stops: seq<Stop>, lines: seq<Line>, place: Place)
    requires GroupsLines(layout, stops, lines) && PositionOf(stops, place) == |stops|
    ensures IdsAt(lines, place) == []
  {
    NoIdsElsewhere(lines, place);
  }

  lemma {:induction false} NoIdsElsewhere(lines: seq<Line>, place: Place)
    ensures (forall k | 0 <= k < |lines| :: At(lines[k].from) != place) ==> IdsAt(lines, place) == []
  {
    if lines != [] {
      NoIdsElsewhere(lines[..|lines| - 1], place);
    }
  }

  lemma PositionExists(stops: seq<Stop>, i: nat)
    requires i < |stops|
    ensures PositionOf(stops, stops[i].place) < |stops|
  {
  }

  lemma IdsOfAppended(lines: seq<Line>, line: Line, place: Place)
    ensures IdsAt(lines + [line], place) == IdsAt(lines, place) + (if At(line.from) == place then [line.id] else [])
  {
    assert (lines + [line])[..|lines|] == lines;
  }

  lemma JoinKeepsGroups(layout: map<nat, Location>, stops: seq<Stop>, lines: seq<Line>, line: Line)
    requires line.from in layout && GroupsLines(layout, stops, lines)
    ensures GroupsLines(layout, Join(layout, stops, line), lines + [line])
  {
    hide IdsAt;
    var joined, all, place := Join(layout, stops, line), lines + [line], At(line.from);
    var p := PositionOf(stops, place);
    if p == |stops| {
      NoLinesWithoutStop(layout, stops, lines, place);
    }
    assert joined[p].place == place;
    forall i | 0 <= i < |joined| ensures joined[i].lineIds == IdsAt(all, joined[i].place) {
      IdsOfAppended(lines, line, joined[i].place);
      assert i != p ==> joined[i] == stops[i] && stops[i].place != place;
    }
    forall k | 0 <= k < |all| ensures PositionOf(joined, At(all[k].from)) < |joined| {
      var at := if k < |lines| then PositionOf(stops, At(lines[k].from)) else p;
      assert joined[at].place == At(all[k].from);
      PositionExists(joined, at);
    }
  }

  /** Every line is in exactly one stop, the one of its location. */
  lemma {:induction false} StopsGroupLines(layout: map<nat, Location>, lines: seq<Line>)
    requires AllKnown(layout, lines)
    ensures GroupsLines(layout, StopsOf(layout, lines), lines)
  {
    if lines != [] {
      var init, last := lines[..|lines| - 1], lines[|lines| - 1];
      StopsGroupLines(layout, init);
      JoinKeepsGroups(layout, StopsOf(layout, init), init, last);
      assert lines == init + [last];
    }
  }

  function IdBag(stops: seq<Stop>): multiset<nat> {
    if stops == [] then multiset{} else IdBag(stops[..|stops| - 1]) + multiset(stops[|stops| - 1].lineIds)
  }

  function LineIds(lines: seq<Line>): seq<nat> {
    if lines == [] then [] else LineIds(lines[..|lines| - 1]) + [lines[|lines| - 1].id]
  }

  lemma {:induction false} IdBagConcat(a: seq<Stop>, b: seq<Stop>)
    ensures IdBag(a + b) == IdBag(a) + IdBag(b)
  {
    if b == [] {
      assert a + b == a;
    } else {
      IdBagConcat(a, b[..|b| - 1]);
      InitOfConcat(a, b);
    }
  }

  lemma IdBagAround(left: seq<Stop>, s: Stop, right: seq<Stop>)
    ensures IdBag(left + [s] + right) == IdBag(left + right) + multiset(s.lineIds)
  {
    IdBagConcat(left, right);
    IdBagConcat(left, [s]);
    IdBagConcat(left + [s], right);
    assert [s][..0] == [];
    assert IdBag([s]) == multiset(s.lineIds);
  }

  lemma {:induction false} IdBagOfPermutation(a: seq<Stop>, b: seq<Stop>)
    requires multiset(a) == multiset(b)
    ensures IdBag(a) == IdBag(b)
    decreases |a|
  {
    if a == [] {
      assert |b| == |multiset(b)|;
    } else {
      var i := PermutationWithoutLast(a, b);
      IdBagOfPermutation(a[..|a| - 1], b[..i] + b[i + 1..]);
      assert b[..i] + [b[i]] + b[i + 1..] == b;
      IdBagAround(b[..i], b[i], b[i + 1..]);
    }
  }

  lemma JoinAddsId(layout: map<nat, Location>, stops: seq<Stop>, line: Line)
    requires line.from in layout
    ensures IdBag(Join(layout, stops, line)) == IdBag(stops) + multiset{line.id}
  {
    var joined, p := Join(layout, stops, line), PositionOf(stops, At(line.from));
    if p < |stops| {
      assert stops == stops[..p] + [stops[p]] + stops[p + 1..];
      assert joined == stops[..p] + [joined[p]] + stops[p + 1..];
      IdBagAround(stops[..p], stops[p], stops[p + 1..]);
      IdBagAround(stops[..p], joined[p], stops[p + 1..]);
    } else {
      assert joined[..|stops|] == stops;
    }
  }

  lemma {:induction false} StopsHoldEveryId(layout: map<nat, Location>, lines: seq<Line>)
    requires AllKnown(layout, lines)
    ensures IdBag(StopsOf(layout, lines)) == multiset(LineIds(lines))
  {
    if lines != [] {
      var init, last := lines[..|lines| - 1], lines[|lines| - 1];
      StopsHoldEveryId(layout, init);
      JoinAddsId(layout, StopsOf(layout, init), last);
    }
  }

  // ---------- The memoised distance ----------

  datatype Hop = Hop(from: Place, to: Place)

  function Lookup(memo: map<Hop, real>, a: Stop, b: Stop): real {
    if Hop(a.place, b.place) in memo then memo[Hop(a.place, b.place)] else Manhattan(a.point, b.point)
  }

  function Filled(memo: map<Hop, real>, a: Stop, b: Stop): map<Hop, real> {
    if Hop(a.place, b.place) in memo then memo else memo[Hop(a.place, b.place) := Manhattan(a.point, b.point)]
  }

  ghost predicate TrueEntry(layout: map<nat, Location>, memo: map<Hop, real>, h: Hop)
    requires h in memo
  {
    Known(layout, h.from) && Known(layout, h.to) ==>
        memo[h] == Manhattan(PointOf(layout, h.from), PointOf(layout, h.to))
  }

  /** Every remembered hop between known places has its true length. */
  ghost predicate Agrees(layout: map<nat, Location>, memo: map<Hop, real>) {
    forall h | h in memo :: TrueEntry(layout, memo, h)
  }

  /** Nothing remembered is forgotten or changed, and what is new is true. */
  ghost predicate Extends(layout: map<nat, Location>, loaded: map<Hop, real>, memo: map<Hop, real>) {
    && (forall h | h in loaded :: h in memo && memo[h] == loaded[h])
    && (forall h | h in memo :: h in loaded || TrueEntry(layout, memo, h))
  }

  lemma StillAgrees(layout: map<nat, Location>, loaded: map<Hop, real>, memo: map<Hop, real>)
    requires Agrees(layout, loaded) && Extends(layout, loaded, memo)
    ensures Agrees(layout, memo)
  {
    forall h | h in memo ensures TrueEntry(layout, memo, h) {
      assert h in loaded ==> TrueEntry(layout, loaded, h);
    }
  }

  lemma FillingExtends(layout: map<nat, Location>, loaded: map<Hop, real>, memo: map<Hop, real>, a: Stop, b: Stop)
    requires Extends(layout, loaded, memo) && Placed(layout, a) && Placed(layout, b)
    ensures Extends(layout, loaded, Filled(memo, a, b))
    ensures Lookup(memo, a, b) == Lookup(loaded, a, b)
  {
    var h, filled := Hop(a.place, b.place), Filled(memo, a, b);
    assert h in memo ==> h in loaded || TrueEntry(layout, memo, h);
    forall g | g in filled ensures g in loaded || TrueEntry(layout, filled, g) {
      assert g != h ==> g in memo;
    }
  }

  /** No distance remembered: every hop is measured. */
  const NO_MEMO: map<Hop, real> := map[]

  lemma LookupIsTrue(layout: map<nat, Location>, memo: map<Hop, real>, a: Stop, b: Stop)
    requires Agrees(layout, memo) && Placed(layout, a) && Placed(layout, b)
    ensures Lookup(memo, a, b) == Lookup(NO_MEMO, a, b)
  {
    assert Hop(a.place, b.place) in memo ==> TrueEntry(layout, memo, Hop(a.place, b.place));
  }

  // ---------- The walk ----------

  /** Position of the first stop with the smallest distance. */
  function Nearest(memo: map<Hop, real>, current: Stop, stops: seq<Stop>): (best: nat)
    requires stops != []
    ensures best < |stops|
  {
    var n := |stops| - 1;
    if n == 0 then 0 else
    var best := Nearest(memo, current, stops[..n]);
    if Lookup(memo, current, stops[n]) < Lookup(memo, current, stops[best]) then n else best
  }

  lemma {:induction false} NearestIsNearest(memo: map<Hop, real>, current: Stop, stops: seq<Stop>)
    requires stops != []
    ensures var best := Nearest(memo, current, stops);
            && (forall j | 0 <= j < |stops| :: Lookup(memo, current, stops[best]) <= Lookup(memo, current, stops[j]))
            && (forall j | 0 <= j < best :: Lookup(memo, current, stops[best]) < Lookup(memo, current, stops[j]))
  {
    var n := |stops| - 1;
    if n > 0 {
      NearestIsNearest(memo, current, stops[..n]);
      assert forall j | 0 <= j < n :: stops[..n][j] == stops[j];
    }
  }

  function Without(stops: seq<Stop>, i: nat): seq<Stop>
    requires i < |stops|
  {
    stops[..i] + stops[i + 1..]
  }

  /** current, then the walk over the remaining stops. */
  function Walk(memo: map<Hop, real>, current: Stop, remaining: seq<Stop>): seq<Stop>
    decreases |remaining|
  {
    if remaining == [] then [current] else
    var best := Nearest(memo, current, remaining);
    [current] + Walk(memo, remaining[best], Without(remaining, best))
  }

  lemma WalkStep(memo: map<Hop, real>, done: seq<Stop>, current: Stop, remaining: seq<Stop>, best: nat)
    requires remaining != [] && best == Nearest(memo, current, remaining)
    ensures done + Walk(memo, current, remaining)
        == (done + [current]) + Walk(memo, remaining[best], Without(remaining, best))
  {
    var rest := Walk(memo, remaining[best], Without(remaining, best));
    assert Walk(memo, current, remaining) == [current] + rest;
    assert done + ([current] + rest) == (done + [current]) + rest;
  }

  lemma WithoutIsPlaced(layout: map<nat, Location>, stops: seq<Stop>, i: nat)
    requires i < |stops| && AllPlaced(layout, stops)
    ensures AllPlaced(layout, Without(stops, i))
  {
    var rest := Without(stops, i);
    forall k | 0 <= k < |rest| ensures Placed(layout, rest[k]) {
      assert rest[k] == stops[if k < i then k else k + 1];
    }
  }

  function Route(memo: map<Hop, real>, nodes: seq<Stop>): seq<Stop> {
    if nodes == [] then [] else Walk(memo, nodes[0], nodes[1..])
  }

  /** The route visits every stop once, starting with the first. */
  lemma {:induction false} WalkVisitsAll(memo: map<Hop, real>, current: Stop, remaining: seq<Stop>)
    ensures multiset(Walk(memo, current, remaining)) == multiset{current} + multiset(remaining)
    ensures Walk(memo, current, remaining)[0] == current
    decreases |remaining|
  {
    if remaining != [] {
      var best := Nearest(memo, current, remaining);
      WalkVisitsAll(memo, remaining[best], Without(remaining, best));
      Splice(remaining, best);
    }
  }

  /** From every stop the route goes to a nearest one among those not yet visited. */
  ghost predicate GoesToNearest(memo: map<Hop, real>, route: seq<Stop>) {
    forall i, j | 0 <= i && i + 1 <= j < |route| ::
        Lookup(memo, route[i], route[i + 1]) <= Lookup(memo, route[i], route[j])
  }

  lemma FirstHopIsNearest(memo: map<Hop, real>, current: Stop, remaining: seq<Stop>, rest: seq<Stop>)
    requires remaining != [] && rest != [] && multiset(rest) == multiset(remaining)
    requires rest[0] == remaining[Nearest(memo, current, remaining)]
    ensures forall j | 0 <= j < |rest| :: Lookup(memo, current, rest[0]) <= Lookup(memo, current, rest[j])
  {
    hide Nearest, Lookup;
    NearestIsNearest(memo, current, remaining);
    forall j | 0 <= j < |rest| ensures Lookup(memo, current, rest[0]) <= Lookup(memo, current, rest[j]) {
      SameElements(rest, remaining, rest[j]);
      var k :| 0 <= k < |remaining| && remaining[k] == rest[j];
    }
  }

  lemma {:induction false} WalkGoesToNearest(memo: map<Hop, real>, current: Stop, remaining: seq<Stop>)
    ensures GoesToNearest(memo, Walk(memo, current, remaining))
    decreases |remaining|
  {
    hide GoesToNearest, Nearest, Lookup;
    if remaining == [] {
      AloneGoesToNearest(memo, current);
    } else {
      var best := Nearest(memo, current, remaining);
      var rest := Walk(memo, remaining[best], Without(remaining, best));
      WalkGoesToNearest(memo, remaining[best], Without(remaining, best));
      WalkVisitsAll(memo, remaining[best], Without(remaining, best));
      Splice(remaining, best);
      assert multiset(rest) == multiset(remaining);
      FirstHopIsNearest(memo, current, remaining, rest);
      PrependedGoesToNearest(memo, current, rest);
    }
  }

  lemma AloneGoesToNearest(memo: map<Hop, real>, current: Stop)
    ensures GoesToNearest(memo, [current])
  {
  }

  lemma PrependedGoesToNearest(memo: map<Hop, real>, current: Stop, rest: seq<Stop>)
    requires GoesToNearest(memo, rest)
    requires forall j | 0 <= j < |rest| :: Lookup(memo, current, rest[0]) <= Lookup(memo, current, rest[j])
    ensures GoesToNearest(memo, [current] + rest)
  {
    var route := [current] + rest;
    forall i, j | 0 <= i && i + 1 <= j < |route|
      ensures Lookup(memo, route[i], route[i + 1]) <= Lookup(memo, route[i], route[j])
    {
      if i > 0 {
        assert rest[i - 1] == route[i] && rest[i - 1 + 1] == route[i + 1] && rest[j - 1] == route[j];
      }
    }
  }

  // ---------- Legs and totals ----------

  datatype Leg = Leg(place: Place, position: nat, distance: real, lineIds: seq<nat>)

  /** One leg per stop, with the distance from the stop before it; the first one is measured from itself. */
  function Legs(memo: map<Hop, real>, route: seq<Stop>): seq<Leg> {
    if route == [] then [] else
    var n := |route| - 1;
    var previous := if n == 0 then route[n] else route[n - 1];
    Legs(memo, route[..n]) + [Leg(route[n].place, n, Lookup(memo, previous, route[n]), route[n].lineIds)]
  }

  function TotalDistance(legs: seq<Leg>): real {
    if legs == [] then 0.0 else TotalDistance(legs[..|legs| - 1]) + legs[|legs| - 1].distance
  }

  lemma TotalOfAppended(legs: seq<Leg>, leg: Leg)
    ensures TotalDistance(legs + [leg]) == TotalDistance(legs) + leg.distance
  {
    assert (legs + [leg])[..|legs|] == legs;
  }

  /** Sum of the Manhattan hops between consecutive stops. */
  function Length(route: seq<Stop>): real {
    if |route| < 2 then 0.0 else
    var n := |route| - 1;
    Length(route[..n]) + Manhattan(route[n - 1].point, route[n].point)
  }

  lemma NoDistanceToItself(p: Point)
    ensures Manhattan(p, p) == 0.0
  {
  }

  lemma {:induction false} TotalIsLength(route: seq<Stop>)
    ensures TotalDistance(Legs(NO_MEMO, route)) == Length(route)
  {
    if route != [] {
      var n := |route| - 1;
      var previous := if n == 0 then route[n] else route[n - 1];
      TotalIsLength(route[..n]);
      TotalOfAppended(Legs(NO_MEMO, route[..n]),
                      Leg(route[n].place, n, Lookup(NO_MEMO, previous, route[n]), route[n].lineIds));
      NoDistanceToItself(route[n].point);
    }
  }

  lemma Triangle(a: Point, b: Point, c: Point)
    ensures Manhattan(a, c) <= Manhattan(a, b) + Manhattan(b, c)
  {
  }

  /** No route is shorter than the distance between any two of its stops. */
  lemma {:induction false} LengthSpans(route: seq<Stop>, i: nat, j: nat)
    requires i <= j < |route|
    ensures Manhattan(route[i].point, route[j].point) <= Length(route)
  {
    var n := |route| - 1;
    if n > 0 {
      var init := route[..n];
      if j < n {
        LengthSpans(init, i, j);
      } else if i < n {
        LengthSpans(init, i, n - 1);
        Triangle(route[i].point, route[n - 1].point, route[n].point);
      } else {
        LengthSpans(init, 0, 0);
      }
    }
  }

  // ---------- A true memo changes nothing ----------

  lemma {:induction false} NearestIgnoresMemo(
      layout: map<nat, Location>, memo: map<Hop, real>, current: Stop, stops: seq<Stop>)
    requires stops != [] && Agrees(layout, memo) && Placed(layout, current) && AllPlaced(layout, stops)
    ensures Nearest(memo, current, stops) == Nearest(NO_MEMO, current, stops)
  {
    var n := |stops| - 1;
    if n > 0 {
      NearestIgnoresMemo(layout, memo, current, stops[..n]);
      LookupIsTrue(layout, memo, current, stops[n]);
      LookupIsTrue(layout, memo, current, stops[Nearest(memo, current, stops[..n])]);
    }
  }

  lemma {:induction false} WalkIgnoresMemo(
      layout: map<nat, Location>, memo: map<Hop, real>, current: Stop, remaining: seq<Stop>)
    requires Agrees(layout, memo) && Placed(layout, current) && AllPlaced(layout, remaining)
    ensures Walk(memo, current, remaining) == Walk(NO_MEMO, current, remaining)
    decreases |remaining|
  {
    if remaining != [] {
      var best := Nearest(memo, current, remaining);
      NearestIgnoresMemo(layout, memo, current, remaining);
      WithoutIsPlaced(layout, remaining, best);
      WalkIgnoresMemo(layout, memo, remaining[best], Without(remaining, best));
    }
  }

  lemma {:induction false} LegsIgnoreMemo(layout: map<nat, Location>, memo: map<Hop, real>, route: seq<Stop>)
    requires Agrees(layout, memo) && AllPlaced(layout, route)
    ensures Legs(memo, route) == Legs(NO_MEMO, route)
  {
    if route != [] {
      var n := |route| - 1;
      LegsIgnoreMemo(layout, memo, route[..n]);
      LookupIsTrue(layout, memo, if n == 0 then route[n] else route[n - 1], route[n]);
    }
  }

  // ---------- The whole path ----------

  function Nodes(layout: map<nat, Location>, lines: seq<Line>): seq<Stop>
    requires AllKnown(layout, lines)
  {
    [START_STOP] + StopsOf(layout, lines)
  }

  lemma NodesArePlaced(layout: map<nat, Location>, lines: seq<Line>)
    requires AllKnown(layout, lines)
    ensures AllPlaced(layout, Nodes(layout, lines)) && DistinctPlaces(Nodes(layout, lines))
  {
    StopsGroupLines(layout, lines);
  }

  /**
   * Whatever was remembered: the route starts at START, visits each stop once, always takes a nearest next stop by the
   * remembered distances, and carries every line id once.
   */
  lemma RouteIsGreedyTour(layout: map<nat, Location>, memo: map<Hop, real>, lines: seq<Line>)
    requires AllKnown(layout, lines)
    ensures var route := Route(memo, Nodes(layout, lines));
            && multiset(route) == multiset(Nodes(layout, lines))
            && route[0] == START_STOP
            && GoesToNearest(memo, route)
            && IdBag(route) == multiset(LineIds(lines))
  {
    var nodes := Nodes(layout, lines);
    var stops := StopsOf(layout, lines);
    assert nodes[1..] == stops;
    WalkVisitsAll(memo, START_STOP, stops);
    WalkGoesToNearest(memo, START_STOP, stops);
    IdBagOfPermutation(Route(memo, nodes), nodes);
    IdBagConcat([START_STOP], stops);
    assert [START_STOP][..0] == [];
    assert IdBag([START_STOP]) == multiset{};
    StopsHoldEveryId(layout, lines);
  }

  lemma RouteIsPlaced(layout: map<nat, Location>, memo: map<Hop, real>, lines: seq<Line>)
    requires AllKnown(layout, lines)
    ensures AllPlaced(layout, Route(memo, Nodes(layout, lines)))
  {
    var nodes := Nodes(layout, lines);
    var route := Route(memo, nodes);
    RouteIsGreedyTour(layout, memo, lines);
    NodesArePlaced(layout, lines);
    forall i | 0 <= i < |route| ensures Placed(layout, route[i]) {
      SameElements(route, nodes, route[i]);
    }
  }

  /** A memo that agrees with the true distances gives the path that measuring every hop would give. */
  lemma TrueMemoChangesNothing(layout: map<nat, Location>, memo: map<Hop, real>, lines: seq<Line>)
    requires AllKnown(layout, lines) && Agrees(layout, memo)
    ensures var nodes := Nodes(layout, lines);
            && Route(memo, nodes) == Route(NO_MEMO, nodes)
            && Legs(memo, Route(memo, nodes)) == Legs(NO_MEMO, Route(NO_MEMO, nodes))
  {
    var nodes := Nodes(layout, lines);
    NodesArePlaced(layout, lines);
    WalkIgnoresMemo(layout, memo, nodes[0], nodes[1..]);
    RouteIsPlaced(layout, memo, lines);
    LegsIgnoreMemo(layout, memo, Route(memo, nodes));
  }

  /**
   * With a true memo every hop goes to a nearest unvisited stop by Manhattan distance, and the total is the length of
   * the route, at least the distance from START to any stop.
   */
  lemma TrueMemoGivesTrueRoute(layout: map<nat, Location>, memo: map<Hop, real>, lines: seq<Line>)
    requires AllKnown(layout, lines) && Agrees(layout, memo)
    ensures var route := Route(memo, Nodes(layout, lines));
            && (forall i, j | 0 <= i && i + 1 <= j < |route| ::
                  Manhattan(route[i].point, route[i + 1].point) <= Manhattan(route[i].point, route[j].point))
            && TotalDistance(Legs(memo, route)) == Length(route)
            && (forall j | 0 <= j < |route| :: Manhattan(ORIGIN, route[j].point) <= Length(route))
  {
    var route := Route(memo, Nodes(layout, lines));
    TrueMemoChangesNothing(layout, memo, lines);
    RouteIsGreedyTour(layout, NO_MEMO, lines);
    forall i, j | 0 <= i && i + 1 <= j < |route|
      ensures Manhattan(route[i].point, route[i + 1].point) <= Manhattan(route[i].point, route[j].point)
    {
      assert Lookup(NO_MEMO, route[i], route[i + 1]) <= Lookup(NO_MEMO, route[i], route[j]);
    }
    TotalIsLength(route);
    forall j | 0 <= j < |route| ensures Manhattan(ORIGIN, route[j].point) <= Length(route) {
      LengthSpans(route, 0, j);
    }
  }

  // ---------- The path in coordinates ----------

  lemma {:induction false} LegsFollowRoute(memo: map<Hop, real>, route: seq<Stop>, i: nat)
    requires i < |route|
    ensures |Legs(memo, route)| == |route|
    ensures Legs(memo, route)[i]
         == Leg(route[i].place, i, Lookup(memo, route[if i == 0 then 0 else i - 1], route[i]), route[i].lineIds)
  {
    var n := |route| - 1;
    if n > 0 {
      LegsFollowRoute(memo, route[..n], if i < n then i else 0);
    }
  }

  /** Sum of the distances on the first n legs. */
  function Travelled(legs: seq<Leg>, n: nat): real
    requires n <= |legs|
  {
    if n == 0 then 0.0 else Travelled(legs, n - 1) + legs[n - 1].distance
  }

  lemma {:induction false} TotalIsTravelled(legs: seq<Leg>)
    ensures TotalDistance(legs) == Travelled(legs, |legs|)
  {
    if legs != [] {
      TotalIsTravelled(legs[..|legs| - 1]);
      TravelledOfPrefix(legs, |legs| - 1, |legs| - 1);
    }
  }

  lemma {:induction false} TravelledOfPrefix(legs: seq<Leg>, n: nat, m: nat)
    requires m <= n <= |legs|
    ensures Travelled(legs[..n], m) == Travelled(legs, m)
  {
    if m > 0 {
      TravelledOfPrefix(legs, n, m - 1);
    }
  }

  /**
   * With a true memo: there is one leg per stop, START first at distance zero; every other leg carries the lines of its
   * location in order, and its distance is the sum of how far aisle, row and level are from those of the leg before.
   */
  lemma LegsInCoordinates(layout: map<nat, Location>, memo: map<Hop, real>, lines: seq<Line>, i: nat)
    requires AllKnown(layout, lines) && Agrees(layout, memo)
    ensures var legs := Legs(memo, Route(memo, Nodes(layout, lines)));
            && |legs| == 1 + |StopsOf(layout, lines)|
            && legs[0] == Leg(Start, 0, 0.0, [])
            && (0 < i < |legs| ==>
                  && legs[i].position == i
                  && legs[i].lineIds == IdsAt(lines, legs[i].place)
                  && IsApart(layout, legs[i - 1].place, legs[i].place, legs[i].distance))
            && TotalDistance(legs) == Travelled(legs, |legs|)
  {
    hide IsApart, Route, StopsOf, Legs, Lookup, IdsAt, Manhattan;
    var route := Route(memo, Nodes(layout, lines));
    RouteIsGreedyTour(layout, memo, lines);
    assert |route| == |multiset(route)| == |multiset(Nodes(layout, lines))|;
    RouteIsPlaced(layout, memo, lines);
    LegsFollowRoute(memo, route, 0);
    LegIsTrue(layout, memo, route, 0, 0);
    assert Manhattan(ORIGIN, ORIGIN) == 0.0 by {
      NoDistanceToItself(ORIGIN);
    }
    if 0 < i < |route| {
      LegsFollowRoute(memo, route, i - 1);
      LegsFollowRoute(memo, route, i);
      LegIsTrue(layout, memo, route, i - 1, i);
      DistanceInCoordinates(layout, route[i - 1].place, route[i].place, Lookup(memo, route[i - 1], route[i]));
      RouteCarriesLines(layout, memo, lines, i);
    }
    TotalIsTravelled(Legs(memo, route));
  }

  lemma LegIsTrue(layout: map<nat, Location>, memo: map<Hop, real>, route: seq<Stop>, i: nat, j: nat)
    requires Agrees(layout, memo) && AllPlaced(layout, route) && i < |route| && j < |route|
    ensures Known(layout, route[i].place) && Known(layout, route[j].place)
    ensures route[i].point == PointOf(layout, route[i].place)
    ensures Lookup(memo, route[i], route[j])
         == Manhattan(PointOf(layout, route[i].place), PointOf(layout, route[j].place))
  {
    hide Manhattan;
    assert Placed(layout, route[i]) && Placed(layout, route[j]);
    LookupIsTrue(layout, memo, route[i], route[j]);
  }

  lemma NodeCarriesLines(layout: map<nat, Location>, lines: seq<Line>, k: nat)
    requires AllKnown(layout, lines) && k < |Nodes(layout, lines)|
    ensures Nodes(layout, lines)[k].lineIds == IdsAt(lines, Nodes(layout, lines)[k].place)
  {
    hide StopsOf, IdsAt, AllPlaced;
    StopsGroupLines(layout, lines);
    if k == 0 {
      NoLineAtStart(lines);
    } else {
      assert Nodes(layout, lines)[k] == StopsOf(layout, lines)[k - 1];
    }
  }

  lemma RouteCarriesLines(layout: map<nat, Location>, memo: map<Hop, real>, lines: seq<Line>, i: nat)
    requires AllKnown(layout, lines)
    requires 0 < i < |Route(memo, Nodes(layout, lines))|
    ensures var stop := Route(memo, Nodes(layout, lines))[i];
            stop.lineIds == IdsAt(lines, stop.place)
  {
    hide Route, StopsOf, IdsAt, AllPlaced, GoesToNearest, IdBag;
    var nodes := Nodes(layout, lines);
    var route := Route(memo, nodes);
    RouteIsGreedyTour(layout, memo, lines);
    SameElements(route, nodes, route[i]);
    var k: nat :| k < |nodes| && nodes[k] == route[i];
    NodeCarriesLines(layout, lines, k);
  }

  lemma {:induction false} NoLineAtStart(lines: seq<Line>)
    ensures IdsAt(lines, Start) == []
  {
    if lines != [] {
      NoLineAtStart(lines[..|lines| - 1]);
    }
  }

  // ---------- The loops ----------

  function AllLines(tasks: seq<seq<Line>>): seq<Line> {
    if tasks == [] then [] else AllLines(tasks[..|tasks| - 1]) + tasks[|tasks| - 1]
  }

  lemma StopsOfOneMore(layout: map<nat, Location>, lines: seq<Line>, line: Line)
    requires AllKnown(layout, lines) && line.from in layout
    ensures AllKnown(layout, lines + [line])
    ensures StopsOf(layout, lines + [line]) == Join(layout, StopsOf(layout, lines), line)
  {
    hide Join;
    assert (lines + [line])[..|lines|] == lines;
  }

  /** Joining a new location is opening an empty stop and pushing the line id. */
  lemma JoinInPlace(layout: map<nat, Location>, stops: seq<Stop>, line: Line)
    requires line.from in layout
    ensures var at, empty := PositionOf(stops, At(line.from)), Stop(At(line.from), PointOf(layout, At(line.from)), []);
            at == |stops| ==>
              (stops + [empty])[at := empty.(lineIds := empty.lineIds + [line.id])] == Join(layout, stops, line)
  {
    assert [] + [line.id] == [line.id];
  }

  /** The lines of one task join the stops of the tasks before it. */
  method CollectTask(layout: map<nat, Location>, before: seq<Stop>, ghost seen: seq<Line>, lines: seq<Line>)
    returns (stops: seq<Stop>)
    requires AllKnown(layout, seen + lines)
    requires AllKnown(layout, seen) && before == StopsOf(layout, seen)
    ensures stops == StopsOf(layout, seen + lines)
  {
    hide StopsOf;
    stops := before;
    assert seen + lines[..0] == seen;
    for i := 0 to |lines|
      invariant AllKnown(layout, seen + lines[..i])
      invariant stops == StopsOf(layout, seen + lines[..i])
    {
      var line := lines[i];
      assert (seen + lines)[|seen| + i] == line;
      StopsOfOneMore(layout, seen + lines[..i], line);
      assert seen + lines[..i + 1] == seen + lines[..i] + [line];
      var at := PositionOf(stops, At(line.from));
      JoinInPlace(layout, stops, line);
      if at == |stops| {
        stops := stops + [Stop(At(line.from), PointOf(layout, At(line.from)), [])];
      }
      stops := stops[at := stops[at].(lineIds := stops[at].lineIds + [line.id])];
    }
    assert lines[..|lines|] == lines;
  }

  method CollectStops(layout: map<nat, Location>, tasks: seq<seq<Line>>) returns (stops: seq<Stop>)
    requires AllKnown(layout, AllLines(tasks))
    ensures stops == StopsOf(layout, AllLines(tasks))
  {
    hide StopsOf;
    stops := [];
    NoStops(layout);
    for t := 0 to |tasks|
      invariant AllKnown(layout, AllLines(tasks[..t]))
      invariant stops == StopsOf(layout, AllLines(tasks[..t]))
    {
      assert tasks[..t + 1][..t] == tasks[..t];
      PrefixIsKnown(layout, tasks, t + 1);
      stops := CollectTask(layout, stops, AllLines(tasks[..t]), tasks[t]);
    }
    assert tasks[..|tasks|] == tasks;
  }

  lemma NoStops(layout: map<nat, Location>)
    ensures StopsOf(layout, []) == []
  {
  }

  lemma {:induction false} PrefixIsKnown(layout: map<nat, Location>, tasks: seq<seq<Line>>, n: nat)
    requires n <= |tasks| && AllKnown(layout, AllLines(tasks))
    ensures AllKnown(layout, AllLines(tasks[..n]))
    decreases |tasks|
  {
    if n == |tasks| {
      assert tasks[..n] == tasks;
    } else {
      var init := tasks[..|tasks| - 1];
      forall i | 0 <= i < |AllLines(init)| ensures AllLines(init)[i].from in layout {
        assert AllLines(tasks)[i] == AllLines(init)[i];
      }
      PrefixIsKnown(layout, init, n);
      assert init[..n] == tasks[..n];
    }
  }

  /** The distances of a warehouse, loaded from the cache and filled while the path is computed. */
  class DistanceMatrix {
    var entries: map<Hop, real>

    constructor (loaded: map<Hop, real>)
      ensures entries == loaded
    {
      entries := loaded;
    }

    method Distance(a: Stop, b: Stop) returns (d: real)
      modifies this
      ensures d == Lookup(old(entries), a, b)
      ensures entries == Filled(old(entries), a, b)
    {
      var key := Hop(a.place, b.place);
      if key in entries { return entries[key]; }
      d := Manhattan(a.point, b.point);
      entries := entries[key := d];
    }

    /** The same call, seen from the entries as they were loaded. */
    method DistanceAsLoaded(
        ghost layout: map<nat, Location>, ghost loaded: map<Hop, real>, a: Stop, b: Stop) returns (d: real)
      requires Placed(layout, a) && Placed(layout, b) && Extends(layout, loaded, entries)
      modifies this
      ensures d == Lookup(loaded, a, b)
      ensures Extends(layout, loaded, entries)
    {
      FillingExtends(layout, loaded, entries, a, b);
      d := Distance(a, b);
    }

    method FindNearest(
        ghost layout: map<nat, Location>, ghost loaded: map<Hop, real>, current: Stop, remaining: seq<Stop>)
      returns (bestIndex: nat)
      requires remaining != [] && Placed(layout, current) && AllPlaced(layout, remaining)
      requires Extends(layout, loaded, entries)
      modifies this
      ensures bestIndex == Nearest(loaded, current, remaining)
      ensures Extends(layout, loaded, entries)
    {
      hide Lookup;
      bestIndex := 0;
      var bestDistance := None;
      for i := 0 to |remaining|
        invariant Extends(layout, loaded, entries)
        invariant if i == 0 then bestDistance == None else
                  && bestIndex == Nearest(loaded, current, remaining[..i])
                  && bestDistance == Some(Lookup(loaded, current, remaining[bestIndex]))
      {
        var d := DistanceAsLoaded(layout, loaded, current, remaining[i]);
        assert remaining[..i + 1][..i] == remaining[..i];
        if bestDistance == None || d < bestDistance.value {
          bestDistance, bestIndex := Some(d), i;
        }
      }
      assert remaining[..|remaining|] == remaining;
    }

    method NearestNeighbor(ghost layout: map<nat, Location>, nodes: seq<Stop>) returns (route: seq<Stop>)
      requires AllPlaced(layout, nodes)
      modifies this
      ensures route == Route(old(entries), nodes)
      ensures Extends(layout, old(entries), entries)
    {
      if nodes == [] { return []; }
      ghost var loaded, done := entries, [];
      var current, remaining := nodes[0], nodes[1..];
      route := [current];
      while remaining != []
        invariant Placed(layout, current) && AllPlaced(layout, remaining)
        invariant Extends(layout, loaded, entries)
        invariant route == done + [current]
        invariant done + Walk(loaded, current, remaining) == Route(loaded, nodes)
        decreases |remaining|
      {
        var bestIndex := FindNearest(layout, loaded, current, remaining);
        WalkStep(loaded, done, current, remaining, bestIndex);
        WithoutIsPlaced(layout, remaining, bestIndex);
        done := route;
        current, remaining := remaining[bestIndex], Without(remaining, bestIndex);
        route := route + [current];
      }
    }

    /** The legs of the route and their sum. */
    method Measure(ghost layout: map<nat, Location>, ghost loaded: map<Hop, real>, route: seq<Stop>)
      returns (legs: seq<Leg>, total: real)
      requires AllPlaced(layout, route) && Extends(layout, loaded, entries)
      modifies this
      ensures legs == Legs(loaded, route) && total == TotalDistance(legs)
      ensures Extends(layout, loaded, entries)
    {
      hide Lookup, Extends, Agrees;
      legs, total := [], 0.0;
      for i := 0 to |route|
        invariant Extends(layout, loaded, entries)
        invariant legs == Legs(loaded, route[..i])
        invariant total == TotalDistance(legs)
      {
        var previous := if i == 0 then route[i] else route[i - 1];
        var d := DistanceAsLoaded(layout, loaded, previous, route[i]);
        var leg := Leg(route[i].place, i, d, route[i].lineIds);
        TotalOfAppended(legs, leg);
        assert route[..i + 1][..i] == route[..i];
        total, legs := total + d, legs + [leg];
      }
      assert route[..|route|] == route;
    }

    /** What was loaded stays, what is new is true; the answer is the route and legs under the distances as loaded. */
    method PickingPath(layout: map<nat, Location>, tasks: seq<seq<Line>>) returns (legs: seq<Leg>, total: real)
      requires AllKnown(layout, AllLines(tasks))
      modifies this
      ensures legs == Legs(old(entries), Route(old(entries), Nodes(layout, AllLines(tasks))))
      ensures total == TotalDistance(legs)
      ensures Extends(layout, old(entries), entries)
      ensures Agrees(layout, old(entries)) ==> Agrees(layout, entries)
    {
      ghost var loaded := entries;
      var stops := CollectStops(layout, tasks);
      var nodes := [START_STOP] + stops;
      NodesArePlaced(layout, AllLines(tasks));
      var route := NearestNeighbor(layout, nodes);
      RouteIsPlaced(layout, loaded, AllLines(tasks));
      legs, total := Measure(layout, loaded, route);
      if Agrees(layout, loaded) {
        StillAgrees(layout, loaded, entries);
      }
    }
  }
}
