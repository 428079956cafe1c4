/**
 * trips_enriched.py: the length of each shape (the sum of the distances
 * between consecutive shape points, ordered by sequence number), the idle
 * time of each trip (summed over its stop times), the left joins that attach
 * both to every trip, and the fuel estimate. The geodesic distance is the
 * input `dist`.
 */
module Trips {
  import opened Wrappers

  datatype Point = Point(lat: real, lon: real)

  /** A row of the shapes table. */
  datatype ShapePoint = ShapePoint(shapeId: string, sequence: int, pt: Point)

  /** A row of the stop_times table; a time is None when it is NULL. */
  datatype StopTime = StopTime(tripId: string, arrival: Option<int>, departure: Option<int>)

  /** A row of the trips table. */
  datatype Trip = Trip(tripId: string, shapeId: string)

  datatype EnrichedTrip = EnrichedTrip(trip: Trip, totalDistanceKm: real, totalIdleSeconds: int, fuelLiters: real)

  const DefaultMovingRate: real := 0.35
  const DefaultIdlingRate: real := 3.0

  ghost predicate NonNegative(dist: (Point, Point) -> real) {
    forall p, q :: dist(p, q) >= 0.0
  }

  /**
   * The length of a polyline: the sum of `dist` over each pair of consecutive
   * points. With a non-negative distance it is never negative.
   */
  function PathLength(pts: seq<Point>, dist: (Point, Point) -> real): (len: real)
    ensures NonNegative(dist) ==> len >= 0.0
    decreases |pts|
  {
    if |pts| < 2 then 0.0
    else PathLength(pts[..|pts| - 1], dist) + dist(pts[|pts| - 2], pts[|pts| - 1])
  }

  /** `calculate_shape_distance`: accumulates the distance between points i and i+1. */
  method CalculateShapeDistance(pts: seq<Point>, dist: (Point, Point) -> real) returns (total: real)
    ensures total == PathLength(pts, dist)
  {
    total := 0.0;
    if |pts| == 0 {
      return;
    }
    var i := 0;
    while i < |pts| - 1
      invariant 0 <= i <= |pts| - 1
      invariant total == PathLength(pts[..i + 1], dist)
    {
      assert pts[..i + 2][..i + 1] == pts[..i + 1];
      total := total + dist(pts[i], pts[i + 1]);
      i := i + 1;
    }
    assert pts[..i + 1] == pts;
  }

  /** A shape with fewer than two points has length 0. */
  lemma ShortPathIsZero(pts: seq<Point>, dist: (Point, Point) -> real)
    requires |pts| < 2
    ensures PathLength(pts, dist) == 0.0
  {
  }

  /** Appending a point adds exactly the distance from the last point to it. */
  lemma {:induction false} PathLengthAppend(pts: seq<Point>, q: Point, dist: (Point, Point) -> real)
    requires |pts| >= 1
    ensures PathLength(pts + [q], dist) == PathLength(pts, dist) + dist(pts[|pts| - 1], q)
  {
    assert (pts + [q])[..|pts|] == pts;
  }

  /** With a non-negative distance, a prefix of a shape is never longer than the shape. */
  lemma {:induction false} PathLengthPrefix(pts: seq<Point>, k: nat, dist: (Point, Point) -> real)
    requires NonNegative(dist) && k <= |pts|
    ensures PathLength(pts[..k], dist) <= PathLength(pts, dist)
    decreases |pts|
  {
    if k < |pts| {
      assert |pts| >= 2 || k == 0;
      if |pts| >= 2 {
        assert pts[..|pts| - 1][..k] == pts[..k];
        PathLengthPrefix(pts[..|pts| - 1], k, dist);
      }
    } else {
      assert pts[..k] == pts;
    }
  }

  /**
   * `estimate_fuel`: litres for the distance moved plus litres for the time
   * spent idling (seconds turned into hours). Non-negative inputs use a
   * non-negative amount.
   */
  function Fuel(distanceKm: real, idleSeconds: real, movingRate: real, idlingRate: real): (litres: real)
    ensures distanceKm >= 0.0 && idleSeconds >= 0.0 && movingRate >= 0.0 && idlingRate >= 0.0 ==> litres >= 0.0
  {
    distanceKm * movingRate + (idleSeconds / 3600.0) * idlingRate
  }

  /** No distance and no idling use no fuel. */
  lemma FuelZero(movingRate: real, idlingRate: real)
    ensures Fuel(0.0, 0.0, movingRate, idlingRate) == 0.0
  {
  }

  /** With non-negative rates, more distance or more idling never uses less fuel. */
  lemma FuelMonotone(d1: real, d2: real, i1: real, i2: real, movingRate: real, idlingRate: real)
    requires d1 <= d2 && i1 <= i2 && movingRate >= 0.0 && idlingRate >= 0.0
    ensures Fuel(d1, i1, movingRate, idlingRate) <= Fuel(d2, i2, movingRate, idlingRate)
  {
    var h1, h2 := i1 / 3600.0, i2 / 3600.0;
    var m1, m2 := d1 * movingRate, d2 * movingRate;
    var x1, x2 := h1 * idlingRate, h2 * idlingRate;
    assert m1 <= m2 by { ScaleMonotone(d1, d2, movingRate); }
    assert x1 <= x2 by { ScaleMonotone(h1, h2, idlingRate); }
    assert Fuel(d1, i1, movingRate, idlingRate) == m1 + x1;
    assert Fuel(d2, i2, movingRate, idlingRate) == m2 + x2;
  }

  lemma ScaleMonotone(a: real, b: real, rate: real)
    requires a <= b && rate >= 0.0
    ensures a * rate <= b * rate
  {
    var gap := b - a;
    assert gap * rate >= 0.0;
    assert b * rate == a * rate + gap * rate;
  }

  /** Whether a sequence of shape points is ordered by sequence number. */
  predicate SortedBySequence(s: seq<ShapePoint>) {
    forall i, j :: 0 <= i < j < |s| ==> s[i].sequence <= s[j].sequence
  }

  function Insert(x: ShapePoint, s: seq<ShapePoint>): (r: seq<ShapePoint>)
    ensures |r| == |s| + 1
  {
    if s == [] || x.sequence <= s[0].sequence then [x] + s
    else [s[0]] + Insert(x, s[1..])
  }

  lemma {:induction false} InsertPermutes(x: ShapePoint, s: seq<ShapePoint>)
    ensures multiset(Insert(x, s)) == multiset(s) + multiset{x}
  {
    if s != [] && x.sequence > s[0].sequence {
      InsertPermutes(x, s[1..]);
      assert s == [s[0]] + s[1..];
    }
  }

  lemma {:induction false} InsertSorted(x: ShapePoint, s: seq<ShapePoint>)
    requires SortedBySequence(s)
    ensures SortedBySequence(Insert(x, s))
  {
    if s != [] && x.sequence > s[0].sequence {
      InsertSorted(x, s[1..]);
      InsertPermutes(x, s[1..]);
      var r := Insert(x, s[1..]);
      forall j | 0 <= j < |r|
        ensures s[0].sequence <= r[j].sequence
      {
        assert r[j] in multiset(s[1..]) + multiset{x};
        if r[j] != x {
          assert r[j] in s[1..];
        }
      }
      assert Insert(x, s) == [s[0]] + r;
    }
  }

  /** The points of one shape put in order of sequence number. */
  function SortBySequence(s: seq<ShapePoint>): (r: seq<ShapePoint>)
    ensures |r| == |s|
  {
    if s == [] then [] else Insert(s[0], SortBySequence(s[1..]))
  }

  /** Sorting orders the points and keeps each of them. */
  lemma SortBySequenceSpec(s: seq<ShapePoint>)
    ensures SortedBySequence(SortBySequence(s))
    ensures multiset(SortBySequence(s)) == multiset(s)
  {
    SortBySequenceSorted(s);
    SortBySequencePermutes(s);
  }

  lemma {:induction false} SortBySequenceSorted(s: seq<ShapePoint>)
    ensures SortedBySequence(SortBySequence(s))
  {
    if s != [] {
      SortBySequenceSorted(s[1..]);
      InsertSorted(s[0], SortBySequence(s[1..]));
    }
  }

  lemma {:induction false} SortBySequencePermutes(s: seq<ShapePoint>)
    ensures multiset(SortBySequence(s)) == multiset(s)
  {
    if s != [] {
      SortBySequencePermutes(s[1..]);
      InsertPermutes(s[0], SortBySequence(s[1..]));
      assert s == [s[0]] + s[1..];
    }
  }

  /** The rows of one shape, in table order. */
  function RowsOf(shapes: seq<ShapePoint>, id: string): (r: seq<ShapePoint>)
    ensures forall k :: 0 <= k < |r| ==> r[k].shapeId == id && r[k] in shapes
  {
    if shapes == [] then []
    else (if shapes[0].shapeId == id then [shapes[0]] else []) + RowsOf(shapes[1..], id)
  }

  function PointsOf(s: seq<ShapePoint>): (pts: seq<Point>)
    ensures |pts| == |s|
    ensures forall k :: 0 <= k < |s| ==> pts[k] == s[k].pt
  {
    seq(|s|, k requires 0 <= k < |s| => s[k].pt)
  }

  /** The distance of one shape: its points in sequence order, then the path length. */
  function ShapeDistance(shapes: seq<ShapePoint>, id: string, dist: (Point, Point) -> real): real {
    PathLength(PointsOf(SortBySequence(RowsOf(shapes, id))), dist)
  }

  /** The `shape_distances` table: one entry per shape id in the shapes table. */
  function ShapeDistances(shapes: seq<ShapePoint>, dist: (Point, Point) -> real): (m: map<string, real>)
    ensures m.Keys == set p | p in shapes :: p.shapeId
  {
    map id | id in (set p | p in shapes :: p.shapeId) :: ShapeDistance(shapes, id, dist)
  }

  /** The idle seconds of one stop time; None when either time is NULL. */
  function IdleAt(st: StopTime): Option<int> {
    if st.arrival.Some? && st.departure.Some? then Some(st.departure.value - st.arrival.value) else None
  }

  /** SQL `SUM` over one trip's rows: NULLs are skipped, and a sum of only NULLs is NULL. */
  function IdleSum(rows: seq<StopTime>, trip: string): Option<int> {
    if rows == [] then None
    else
      var rest := IdleSum(rows[1..], trip);
      var here := if rows[0].tripId == trip then IdleAt(rows[0]) else None;
      if here.None? then rest
      else Some(here.value + rest.GetOr(0))
  }

  /** The idle-time query: one row per trip id in stop_times. */
  function IdleTable(rows: seq<StopTime>): (m: map<string, Option<int>>)
    ensures m.Keys == set st | st in rows :: st.tripId
  {
    map id | id in (set st | st in rows :: st.tripId) :: IdleSum(rows, id)
  }

  /** The reference sum: each of the trip's rows counts its idle time, 0 when a time is NULL. */
  function IdleTotal(rows: seq<StopTime>, trip: string): int {
    if rows == [] then 0
    else (if rows[0].tripId == trip then IdleAt(rows[0]).GetOr(0) else 0) + IdleTotal(rows[1..], trip)
  }

  /** `SUM` then `fillna(0)` is the plain total with NULL rows counted as 0. */
  lemma {:induction false} IdleSumFilled(rows: seq<StopTime>, trip: string)
    ensures IdleSum(rows, trip).GetOr(0) == IdleTotal(rows, trip)
  {
    if rows != [] {
      IdleSumFilled(rows[1..], trip);
    }
  }

  /** One trip after both left joins and the fill: missing distance or idle time becomes 0. */
  function EnrichTrip(t: Trip, distances: map<string, real>, idle: map<string, Option<int>>,
                      movingRate: real, idlingRate: real): EnrichedTrip
  {
    var d := if t.shapeId in distances then distances[t.shapeId] else 0.0;
    var i := if t.tripId in idle then idle[t.tripId].GetOr(0) else 0;
    EnrichedTrip(t, d, i, Fuel(d, i as real, movingRate, idlingRate))
  }

  /** The enriched trips table: every trip row, in order, with its distance, idle time and fuel. */
  function EnrichTrips(trips: seq<Trip>, shapes: seq<ShapePoint>, stopTimes: seq<StopTime>,
                       dist: (Point, Point) -> real, movingRate: real, idlingRate: real): (r: seq<EnrichedTrip>)
    ensures |r| == |trips|
    ensures forall k :: 0 <= k < |r| ==> r[k].trip == trips[k]
  {
    var distances := ShapeDistances(shapes, dist);
    var idle := IdleTable(stopTimes);
    seq(|trips|, k requires 0 <= k < |trips| => EnrichTrip(trips[k], distances, idle, movingRate, idlingRate))
  }

  /**
   * Each enriched trip carries the length of its shape (0 when the shape has
   * no points), the total idle time of its stop times (0 when it has none),
   * and the fuel for those two.
   */
  lemma EnrichTripsRow(trips: seq<Trip>, shapes: seq<ShapePoint>, stopTimes: seq<StopTime>,
                       dist: (Point, Point) -> real, movingRate: real, idlingRate: real, k: nat)
    requires k < |trips|
    ensures var e := EnrichTrips(trips, shapes, stopTimes, dist, movingRate, idlingRate)[k];
            && e.totalDistanceKm == ShapeDistance(shapes, trips[k].shapeId, dist)
            && e.totalIdleSeconds == IdleTotal(stopTimes, trips[k].tripId)
            && e.fuelLiters == Fuel(e.totalDistanceKm, e.totalIdleSeconds as real, movingRate, idlingRate)
  {
    var id := trips[k].shapeId;
    if id !in ShapeDistances(shapes, dist) {
      assert RowsOf(shapes, id) == [] by { NoRowsOf(shapes, id); }
    }
    IdleSumFilled(stopTimes, trips[k].tripId);
    if trips[k].tripId !in IdleTable(stopTimes) {
      NoIdleRows(stopTimes, trips[k].tripId);
    }
  }

  lemma {:induction false} NoRowsOf(shapes: seq<ShapePoint>, id: string)
    requires forall p :: p in shapes ==> p.shapeId != id
    ensures RowsOf(shapes, id) == []
  {
    if shapes != [] {
      NoRowsOf(shapes[1..], id);
    }
  }

  lemma {:induction false} NoIdleRows(rows: seq<StopTime>, trip: string)
    requires forall st :: st in rows ==> st.tripId != trip
    ensures IdleTotal(rows, trip) == 0
  {
    if rows != [] {
      NoIdleRows(rows[1..], trip);
    }
  }

  /**
   * config.json as `generate_trips_enriched` reads it: not found (caught,
   * nothing is written), not valid JSON (the `JSONDecodeError` is not among
   * the caught exceptions and leaves the function), or loaded.
   */
  datatype ConfigFile = ConfigMissing | ConfigMalformed | ConfigLoaded

  /** The outcome of a run: nothing written, an exception, or the table written to data/trips_enriched.csv. */
  datatype TripsRun = NotWritten | RunRaised | Written(table: seq<EnrichedTrip>)

  /**
   * `generate_trips_enriched`. A query with no rows becomes a frame without
   * columns, so an empty shapes table fails at `sort_values`, an empty trips
   * table at the first merge, and an empty idle-time result (no stop times)
   * at the second; none of these is caught.
   */
  function GenerateTripsEnriched(config: ConfigFile, connects: bool, trips: seq<Trip>, shapes: seq<ShapePoint>,
                                 stopTimes: seq<StopTime>, dist: (Point, Point) -> real,
                                 movingRate: real, idlingRate: real): (r: TripsRun)
    ensures r.NotWritten? <==> config.ConfigMissing? || (config.ConfigLoaded? && !connects)
    ensures r.RunRaised? <==> config.ConfigMalformed?
                              || (config.ConfigLoaded? && connects && (shapes == [] || trips == [] || stopTimes == []))
    ensures r.Written? ==> |r.table| == |trips| && forall k :: 0 <= k < |trips| ==> r.table[k].trip == trips[k]
  {
    match config
    case ConfigMissing => NotWritten
    case ConfigMalformed => RunRaised
    case ConfigLoaded =>
      if !connects then NotWritten
      else if shapes == [] || trips == [] || stopTimes == [] then RunRaised
      else Written(EnrichTrips(trips, shapes, stopTimes, dist, movingRate, idlingRate))
  }
}
