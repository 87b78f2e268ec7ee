/** Where locations lie, and how far apart: the grid distance, by its properties and in coordinates. */
module Distances {
  import opened Wrappers

  // ---------- Places and distances ----------

  datatype Location = Location(aisle: Option<real>, row: Option<real>, level: Option<real>, column: Option<real>)

  datatype Point = Point(x: real, y: real, z: real)

  /** The fixed first stop, or a location of the warehouse. */
  datatype Place = Start | At(location: nat)

  const ORIGIN := Point(0.0, 0.0, 0.0)

  function OrZero(n: Option<real>): real {
    if n.Some? then n.value else 0.0
  }

  function Coordinates(location: Location): Point {
    Point(OrZero(location.aisle), OrZero(location.row),
        OrZero(if location.level.Some? then location.level else location.column))
  }

  predicate Known(layout: map<nat, Location>, place: Place) {
    place.Start? || place.location in layout
  }

  function PointOf(layout: map<nat, Location>, place: Place): Point
    requires Known(layout, place)
  {
    if place.Start? then ORIGIN else Coordinates(layout[place.location])
  }

  function Abs(r: real): real {
    if r < 0.0 then -r else r
  }

  function Manhattan(a: Point, b: Point): real {
    Abs(a.x - b.x) + Abs(a.y - b.y) + Abs(a.z - b.z)
  }

  // ---------- What makes it the grid distance ----------

  function Moved(p: Point, v: Point): Point {
    Point(p.x + v.x, p.y + v.y, p.z + v.z)
  }

  function FirstTwoSwapped(p: Point): Point {
    Point(p.y, p.x, p.z)
  }

  function LastTwoSwapped(p: Point): Point {
    Point(p.x, p.z, p.y)
  }

  function Mirrored(p: Point): Point {
    Point(-p.x, p.y, p.z)
  }

  /** The distance is the same wherever the two points are moved to together. */
  ghost predicate ShiftInvariant(d: (Point, Point) -> real) {
    forall a, b, v {:trigger d(Moved(a, v), Moved(b, v))} :: d(Moved(a, v), Moved(b, v)) == d(a, b)
  }

  /** Exchanging two axes, or mirroring one, changes no distance. */
  ghost predicate AxesAlike(d: (Point, Point) -> real) {
    && (forall a, b {:trigger d(FirstTwoSwapped(a), FirstTwoSwapped(b))} ::
          d(FirstTwoSwapped(a), FirstTwoSwapped(b)) == d(a, b))
    && (forall a, b {:trigger d(LastTwoSwapped(a), LastTwoSwapped(b))} ::
          d(LastTwoSwapped(a), LastTwoSwapped(b)) == d(a, b))
    && (forall a, b {:trigger d(Mirrored(a), Mirrored(b))} :: d(Mirrored(a), Mirrored(b)) == d(a, b))
  }

  /** Going t along one axis is a distance of t. */
  ghost predicate StraightIsLength(d: (Point, Point) -> real) {
    forall t | 0.0 <= t :: d(ORIGIN, Point(t, 0.0, 0.0)) == t
  }

  /** Distances along different axes add up. */
  ghost predicate AxesAdd(d: (Point, Point) -> real) {
    forall p: Point :: d(ORIGIN, p) == d(ORIGIN, Point(p.x, 0.0, 0.0)) + d(ORIGIN, Point(0.0, p.y, p.z))
  }

  ghost predicate IsGridDistance(d: (Point, Point) -> real) {
    ShiftInvariant(d) && AxesAlike(d) && StraightIsLength(d) && AxesAdd(d)
  }

  function Measure(): (Point, Point) -> real {
    (a: Point, b: Point) => Manhattan(a, b)
  }

  lemma MovingKeepsDistance(a: Point, b: Point, v: Point)
    ensures Manhattan(Moved(a, v), Moved(b, v)) == Manhattan(a, b)
  {
    assert a.x + v.x - (b.x + v.x) == a.x - b.x;
    assert a.y + v.y - (b.y + v.y) == a.y - b.y;
    assert a.z + v.z - (b.z + v.z) == a.z - b.z;
  }

  lemma TurningKeepsDistance(a: Point, b: Point)
    ensures Manhattan(FirstTwoSwapped(a), FirstTwoSwapped(b)) == Manhattan(a, b)
    ensures Manhattan(LastTwoSwapped(a), LastTwoSwapped(b)) == Manhattan(a, b)
    ensures Manhattan(Mirrored(a), Mirrored(b)) == Manhattan(a, b)
  {
  }

  lemma AxisByAxis(p: Point, t: real)
    requires 0.0 <= t
    ensures Manhattan(ORIGIN, Point(t, 0.0, 0.0)) == t
    ensures Manhattan(ORIGIN, p) == Manhattan(ORIGIN, Point(p.x, 0.0, 0.0)) + Manhattan(ORIGIN, Point(0.0, p.y, p.z))
  {
  }

  /** The program's distance has these properties. */
  lemma ManhattanIsGridDistance()
    ensures IsGridDistance(Measure())
  {
    hide Manhattan, Moved, FirstTwoSwapped, LastTwoSwapped, Mirrored;
    var d := Measure();
    forall a, b, v ensures d(Moved(a, v), Moved(b, v)) == d(a, b) {
      MovingKeepsDistance(a, b, v);
    }
    assert AxesAlike(d) by {
      forall a, b
        ensures d(FirstTwoSwapped(a), FirstTwoSwapped(b)) == d(a, b)
        ensures d(LastTwoSwapped(a), LastTwoSwapped(b)) == d(a, b)
        ensures d(Mirrored(a), Mirrored(b)) == d(a, b)
      {
        TurningKeepsDistance(a, b);
      }
    }
    forall t | 0.0 <= t ensures d(ORIGIN, Point(t, 0.0, 0.0)) == t {
      AxisByAxis(ORIGIN, t);
    }
    forall p: Point
      ensures d(ORIGIN, p) == d(ORIGIN, Point(p.x, 0.0, 0.0)) + d(ORIGIN, Point(0.0, p.y, p.z))
    {
      AxisByAxis(p, 0.0);
    }
  }

  /** The three turns of a grid distance, about the origin. */
  lemma Turned(d: (Point, Point) -> real, p: Point)
    requires AxesAlike(d)
    ensures d(ORIGIN, Point(p.y, p.x, p.z)) == d(ORIGIN, p)
    ensures d(ORIGIN, Point(p.x, p.z, p.y)) == d(ORIGIN, p)
    ensures d(ORIGIN, Point(-p.x, p.y, p.z)) == d(ORIGIN, p)
  {
    assert d(FirstTwoSwapped(ORIGIN), FirstTwoSwapped(p)) == d(ORIGIN, p);
    assert d(LastTwoSwapped(ORIGIN), LastTwoSwapped(p)) == d(ORIGIN, p);
    assert d(Mirrored(ORIGIN), Mirrored(p)) == d(ORIGIN, p);
  }

  lemma AlongFirstAxis(d: (Point, Point) -> real, t: real)
    requires IsGridDistance(d)
    ensures d(ORIGIN, Point(t, 0.0, 0.0)) == Abs(t)
  {
    hide AxesAlike, AxesAdd, ShiftInvariant;
    Turned(d, Point(-t, 0.0, 0.0));
  }

  lemma AlongOtherAxes(d: (Point, Point) -> real, t: real)
    requires IsGridDistance(d)
    ensures d(ORIGIN, Point(0.0, t, 0.0)) == d(ORIGIN, Point(0.0, 0.0, t)) == Abs(t)
  {
    hide AxesAlike, AxesAdd, ShiftInvariant, StraightIsLength, Abs;
    AlongFirstAxis(d, t);
    Turned(d, Point(t, 0.0, 0.0));
    Turned(d, Point(0.0, t, 0.0));
  }

  lemma Splits(d: (Point, Point) -> real, p: Point)
    requires AxesAdd(d)
    ensures d(ORIGIN, p) == d(ORIGIN, Point(p.x, 0.0, 0.0)) + d(ORIGIN, Point(0.0, p.y, p.z))
  {
  }

  lemma FromOrigin(d: (Point, Point) -> real, p: Point)
    requires IsGridDistance(d)
    ensures d(ORIGIN, p) == Abs(p.x) + Abs(p.y) + Abs(p.z)
  {
    hide AxesAlike, AxesAdd, ShiftInvariant, StraightIsLength, Abs;
    AlongFirstAxis(d, p.x);
    AlongFirstAxis(d, p.y);
    AlongOtherAxes(d, p.z);
    Splits(d, p);
    Splits(d, Point(p.y, 0.0, p.z));
    Turned(d, Point(p.y, 0.0, p.z));
  }

  lemma ShiftedToOrigin(d: (Point, Point) -> real, a: Point, b: Point)
    requires ShiftInvariant(d)
    ensures d(a, b) == d(ORIGIN, Point(b.x - a.x, b.y - a.y, b.z - a.z))
  {
    var v := Point(-a.x, -a.y, -a.z);
    assert d(Moved(a, v), Moved(b, v)) == d(a, b);
    assert Moved(a, v) == ORIGIN && Moved(b, v) == Point(b.x - a.x, b.y - a.y, b.z - a.z);
  }

  /** And no other function has: these properties determine every distance. */
  lemma GridDistanceIsManhattan(d: (Point, Point) -> real, a: Point, b: Point)
    requires IsGridDistance(d)
    ensures d(a, b) == Manhattan(a, b)
  {
    hide AxesAlike, AxesAdd, ShiftInvariant, StraightIsLength;
    ShiftedToOrigin(d, a, b);
    FromOrigin(d, Point(b.x - a.x, b.y - a.y, b.z - a.z));
  }

  // ---------- In coordinates ----------

  /** g is how far apart two coordinates are. */
  predicate IsGap(g: real, s: real, t: real) {
    0.0 <= g && (g == s - t || g == t - s)
  }

  /** The coordinates of a place: START is at zero; a missing number counts as zero, a missing level as the column. */
  function Aisle(layout: map<nat, Location>, place: Place): real {
    if place.At? && place.location in layout && layout[place.location].aisle.Some?
    then layout[place.location].aisle.value else 0.0
  }

  function RowOf(layout: map<nat, Location>, place: Place): real {
    if place.At? && place.location in layout && layout[place.location].row.Some?
    then layout[place.location].row.value else 0.0
  }

  function Level(layout: map<nat, Location>, place: Place): real {
    if place.Start? || place.location !in layout then 0.0 else
    match layout[place.location]
    case Location(_, _, Some(level), _) => level
    case Location(_, _, None, Some(column)) => column
    case Location(_, _, None, None) => 0.0
  }

  /** d is the sum of the three gaps between two places. */
  ghost predicate IsApart(layout: map<nat, Location>, a: Place, b: Place, d: real) {
    exists x, y, z :: IsApartBy(layout, a, b, x, y, z) && d == x + y + z
  }

  predicate IsApartBy(layout: map<nat, Location>, a: Place, b: Place, x: real, y: real, z: real) {
    && IsGap(x, Aisle(layout, a), Aisle(layout, b))
    && IsGap(y, RowOf(layout, a), RowOf(layout, b))
    && IsGap(z, Level(layout, a), Level(layout, b))
  }

  lemma PointInCoordinates(layout: map<nat, Location>, place: Place)
    requires Known(layout, place)
    ensures PointOf(layout, place) == Point(Aisle(layout, place), RowOf(layout, place), Level(layout, place))
  {
  }

  lemma DistanceInCoordinates(layout: map<nat, Location>, a: Place, b: Place, d: real)
    requires Known(layout, a) && Known(layout, b)
    ensures IsApart(layout, a, b, d) <==> d == Manhattan(PointOf(layout, a), PointOf(layout, b))
  {
    PointInCoordinates(layout, a);
    PointInCoordinates(layout, b);
    var p, q := PointOf(layout, a), PointOf(layout, b);
    assert IsApartBy(layout, a, b, Abs(p.x - q.x), Abs(p.y - q.y), Abs(p.z - q.z));
    if IsApart(layout, a, b, d) {
      var x, y, z :| IsApartBy(layout, a, b, x, y, z) && d == x + y + z;
    }
  }
}
