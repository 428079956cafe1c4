/**
 * `generate_mapping_jsons` (helper_files/mapping_jsons.py): for each route
 * and each of its shapes, the shape's metadata (head sign and route short
 * name) keyed by a file-safe shape id, and the stop and shape-point lists
 * written as JSON for the map renderer.
 */
module MappingJsons {
  import opened Wrappers
  import opened Text
  import opened Json

  // ---------------------------------------------------------------------------
  // Names
  // ---------------------------------------------------------------------------

  /** `route_short_name`: the last `:`-separated segment of a route id. */
  function RouteShortName(routeId: string): (r: string)
    ensures ':' !in r
  {
    Last(Split(routeId, ':'))
  }

  /** A route id without `:` is its own short name. */
  lemma RouteShortNamePlain(routeId: string)
    requires ':' !in routeId
    ensures RouteShortName(routeId) == routeId
  {
    SplitAbsent(routeId, ':');
  }

  /** Whatever precedes a `:` does not affect the short name. */
  lemma RouteShortNameAfterColon(prefix: string, rest: string)
    ensures RouteShortName(prefix + ":" + rest) == RouteShortName(rest)
  {
    SplitAround(prefix, rest, ':');
  }

  /** `safe_shape`: every `:` and every `.` of a shape id becomes `_`. */
  function SafeShape(shapeId: string): (r: string)
    ensures |r| == |shapeId| && ':' !in r && '.' !in r
  {
    ReplaceChar(ReplaceChar(shapeId, ':', '_'), '.', '_')
  }

  /** Character by character, the safe id keeps everything but `:` and `.`. */
  lemma SafeShapeAt(shapeId: string)
    ensures forall i :: 0 <= i < |shapeId| ==>
              SafeShape(shapeId)[i] == if shapeId[i] == ':' || shapeId[i] == '.' then '_' else shapeId[i]
  {
  }

  /** A safe id is already safe. */
  lemma SafeShapeIdempotent(shapeId: string)
    ensures SafeShape(SafeShape(shapeId)) == SafeShape(shapeId)
  {
    var s := SafeShape(shapeId);
    ReplaceAbsentChar(s, ':', '_');
    ReplaceAbsentChar(s, '.', '_');
  }

  /** Shape ids that differ only in `:` against `.` get the same key. */
  lemma SafeShapeCollides(a: string, b: string)
    ensures a + ":" + b != a + "." + b
    ensures SafeShape(a + ":" + b) == SafeShape(a + "." + b)
  {
    assert (a + ":" + b)[|a|] != (a + "." + b)[|a|];
    SafeShapeAppend(a + ":", b);
    SafeShapeAppend(a, ":");
    SafeShapeAppend(a + ".", b);
    SafeShapeAppend(a, ".");
    assert SafeShape(":") == SafeShape(".");
  }

  /** Sanitising works part by part. */
  lemma SafeShapeAppend(a: string, b: string)
    ensures SafeShape(a + b) == SafeShape(a) + SafeShape(b)
  {
    ReplaceCharAppend(a, b, ':', '_');
    ReplaceCharAppend(ReplaceChar(a, ':', '_'), ReplaceChar(b, ':', '_'), '.', '_');
  }

  const MetadataFileName := "shape_metadata.json"

  function StopsFileName(safeShape: string): string {
    "stops_" + safeShape + ".json"
  }

  function ShapeFileName(safeShape: string): string {
    "shape_" + safeShape + ".json"
  }

  /** Distinct shape keys get distinct stops files and distinct shape files. */
  lemma ExportNamesDistinct(a: string, b: string)
    ensures StopsFileName(a) == StopsFileName(b) <==> a == b
    ensures ShapeFileName(a) == ShapeFileName(b) <==> a == b
  {
    if StopsFileName(a) == StopsFileName(b) {
      assert a == StopsFileName(a)[6..|StopsFileName(a)| - 5];
      assert b == StopsFileName(b)[6..|StopsFileName(b)| - 5];
    }
    if ShapeFileName(a) == ShapeFileName(b) {
      assert a == ShapeFileName(a)[6..|ShapeFileName(a)| - 5];
      assert b == ShapeFileName(b)[6..|ShapeFileName(b)| - 5];
    }
  }

  /** A stops file is never a shape file nor the metadata file. */
  lemma StopsFileApart(a: string, b: string)
    ensures StopsFileName(a) != ShapeFileName(b)
    ensures StopsFileName(a) != MetadataFileName
  {
    assert StopsFileName(a)[1] == 't';
    assert ShapeFileName(b)[1] == 'h';
    assert MetadataFileName[1] == 'h';
  }

  /** Only a shape whose key is `metadata` would write over the metadata file. */
  lemma MetadataNameClash(b: string)
    ensures ShapeFileName(b) == MetadataFileName <==> b == "metadata"
  {
    if ShapeFileName(b) == MetadataFileName {
      assert b == ShapeFileName(b)[6..|ShapeFileName(b)| - 5];
      assert MetadataFileName[6..|MetadataFileName| - 5] == "metadata";
    }
  }

  // ---------------------------------------------------------------------------
  // Shape metadata
  // ---------------------------------------------------------------------------

  /** The first trip row of a route and shape: `trip_id`, `trip_headsign`, `route_id`. */
  datatype TripRow = TripRow(tripId: string, headsign: Value, routeId: string)

  /** One entry of `shape_metadata.json`. */
  datatype ShapeMeta = ShapeMeta(tripHeadsign: Value, routeShortName: string)

  /** The queries of the metadata loop, as functions of their parameters. */
  datatype Db = Db(distinctRoutes: seq<string>, shapesOf: string -> seq<string>,
                   tripOf: (string, string) -> Option<TripRow>)

  /** All distinct routes when no route is named (or the name is empty), else the named one. */
  function RoutesToProcess(routeId: Option<string>, distinctRoutes: seq<string>): seq<string> {
    if routeId.None? || routeId.value == "" then distinctRoutes else [routeId.value]
  }

  /** The (route, shape) pairs of one route, in query order. */
  function Pairs(route: string, shapes: seq<string>): (r: seq<(string, string)>)
    ensures |r| == |shapes|
    ensures forall i :: 0 <= i < |shapes| ==> r[i] == (route, shapes[i])
  {
    seq(|shapes|, i requires 0 <= i < |shapes| => (route, shapes[i]))
  }

  /** The (route, shape) pairs the nested loops visit, in order. */
  function Visits(routes: seq<string>, shapesOf: string -> seq<string>): seq<(string, string)> {
    if routes == [] then []
    else Visits(routes[..|routes| - 1], shapesOf) + Pairs(routes[|routes| - 1], shapesOf(routes[|routes| - 1]))
  }

  /** The entry a trip row gives: its head sign and its route's short name. */
  function MetaOf(row: TripRow): ShapeMeta {
    ShapeMeta(row.headsign, RouteShortName(row.routeId))
  }

  /**
   * What visiting a (route, shape) pair writes: nothing without a trip row,
   * otherwise the entry under the shape's safe id.
   */
  function VisitWrite(tripOf: (string, string) -> Option<TripRow>): ((string, string)) -> Option<(string, ShapeMeta)> {
    (v: (string, string)) => match tripOf(v.0, v.1)
         case None => None
         case Some(row) => Some((SafeShape(v.1), MetaOf(row)))
  }

  /** The map after the writes of `visits`, starting from `m`; a later write to a key replaces an earlier one. */
  function Recorded<V>(m: map<string, V>, visits: seq<(string, string)>, write: ((string, string)) -> Option<(string, V)>): map<string, V> {
    if visits == [] then m
    else
      var prev := Recorded(m, visits[..|visits| - 1], write);
      match write(visits[|visits| - 1])
      case None => prev
      case Some(kv) => prev[kv.0 := kv.1]
  }

  /** The metadata after the visits. */
  function Metadata(visits: seq<(string, string)>, tripOf: (string, string) -> Option<TripRow>): map<string, ShapeMeta> {
    Recorded(map[], visits, VisitWrite(tripOf))
  }

  lemma {:induction false} RecordedAppend<V>(m: map<string, V>, a: seq<(string, string)>, b: seq<(string, string)>,
                                                write: ((string, string)) -> Option<(string, V)>)
    ensures Recorded(m, a + b, write) == Recorded(Recorded(m, a, write), b, write)
    decreases |b|
  {
    if b == [] {
      assert a + b == a;
    } else {
      assert (a + b)[..|a + b| - 1] == a + b[..|b| - 1];
      RecordedAppend(m, a, b[..|b| - 1], write);
    }
  }

  /** Whether visiting `v` writes key `key`. */
  predicate Writes<V>(v: (string, string), write: ((string, string)) -> Option<(string, V)>, key: string) {
    write(v).Some? && write(v).value.0 == key
  }

  /** The nested loops of `generate_mapping_jsons` that fill the metadata. */
  method GenerateMetadata(routeId: Option<string>, db: Db) returns (metadata: map<string, ShapeMeta>)
    ensures metadata == Metadata(Visits(RoutesToProcess(routeId, db.distinctRoutes), db.shapesOf), db.tripOf)
  {
    var routeIds;
    if routeId.None? || routeId.value == "" {
      routeIds := db.distinctRoutes;
    } else {
      routeIds := [routeId.value];
    }
    metadata := map[];
    var i := 0;
    while i < |routeIds|
      invariant 0 <= i <= |routeIds|
      invariant metadata == Metadata(Visits(routeIds[..i], db.shapesOf), db.tripOf)
    {
      var route := routeIds[i];
      assert routeIds[..i + 1][..i] == routeIds[..i];
      RecordedAppend(map[], Visits(routeIds[..i], db.shapesOf), Pairs(route, db.shapesOf(route)), VisitWrite(db.tripOf));
      metadata := RecordShapes(metadata, route, db.shapesOf(route), db.tripOf);
      i := i + 1;
    }
    assert routeIds[..i] == routeIds;
  }

  /** The inner loop: the shapes of one route. */
  method RecordShapes(m: map<string, ShapeMeta>, route: string, shapeIds: seq<string>,
                      tripOf: (string, string) -> Option<TripRow>) returns (metadata: map<string, ShapeMeta>)
    ensures metadata == Recorded(m, Pairs(route, shapeIds), VisitWrite(tripOf))
  {
    metadata := m;
    var j := 0;
    while j < |shapeIds|
      invariant 0 <= j <= |shapeIds|
      invariant metadata == Recorded(m, Pairs(route, shapeIds[..j]), VisitWrite(tripOf))
    {
      var shapeId := shapeIds[j];
      assert Pairs(route, shapeIds[..j + 1])[..j] == Pairs(route, shapeIds[..j]);
      var tripRow := tripOf(route, shapeId);
      if tripRow.Some? {
        metadata := metadata[SafeShape(shapeId) := MetaOf(tripRow.value)];
      }
      j := j + 1;
    }
    assert shapeIds[..j] == shapeIds;
  }

  /**
   * A key is in the metadata iff some visited shape with a trip row has it
   * as its safe id, and its entry comes from the last such shape.
   */
  lemma MetadataEntries(visits: seq<(string, string)>, tripOf: (string, string) -> Option<TripRow>, key: string)
    ensures key in Metadata(visits, tripOf) <==>
              exists i :: 0 <= i < |visits| && Writes(visits[i], VisitWrite(tripOf), key)
    ensures key in Metadata(visits, tripOf) ==>
              exists i :: 0 <= i < |visits| && Writes(visits[i], VisitWrite(tripOf), key)
                && Metadata(visits, tripOf)[key] == VisitWrite(tripOf)(visits[i]).value.1
                && forall j :: i < j < |visits| ==> !Writes(visits[j], VisitWrite(tripOf), key)
  {
    RecordedKeys(visits, VisitWrite(tripOf), key);
    if key in Metadata(visits, tripOf) {
      RecordedLastWriter(visits, VisitWrite(tripOf), key);
    }
  }

  lemma {:induction false} RecordedKeys<V>(visits: seq<(string, string)>, write: ((string, string)) -> Option<(string, V)>, key: string)
    ensures key in Recorded(map[], visits, write) <==> exists i :: 0 <= i < |visits| && Writes(visits[i], write, key)
  {
    if visits != [] {
      var init := visits[..|visits| - 1];
      RecordedKeys(init, write, key);
      assert forall j :: 0 <= j < |init| ==> init[j] == visits[j];
    }
  }

  lemma {:induction false} RecordedLastWriter<V>(visits: seq<(string, string)>, write: ((string, string)) -> Option<(string, V)>, key: string)
    requires key in Recorded(map[], visits, write)
    ensures exists i :: 0 <= i < |visits| && Writes(visits[i], write, key)
              && Recorded(map[], visits, write)[key] == write(visits[i]).value.1
              && forall j :: i < j < |visits| ==> !Writes(visits[j], write, key)
  {
    var n := |visits| - 1;
    var init := visits[..n];
    if !Writes(visits[n], write, key) {
      RecordedLastWriter(init, write, key);
      var i :| 0 <= i < |init| && Writes(init[i], write, key)
               && Recorded(map[], init, write)[key] == write(init[i]).value.1
               && forall j :: i < j < |init| ==> !Writes(init[j], write, key);
      assert forall j :: 0 <= j < |init| ==> init[j] == visits[j];
    }
  }

  /** The visits of the selected routes are exactly the pairs of those routes with their shapes. */
  lemma {:induction false} VisitsOf(routes: seq<string>, shapesOf: string -> seq<string>, p: (string, string))
    ensures p in Visits(routes, shapesOf) <==> p.0 in routes && p.1 in shapesOf(p.0)
  {
    if routes != [] {
      var init := routes[..|routes| - 1];
      VisitsOf(init, shapesOf, p);
      assert routes == init + [routes[|routes| - 1]];
      var last := routes[|routes| - 1];
      if p in Pairs(last, shapesOf(last)) {
        var i :| 0 <= i < |shapesOf(last)| && Pairs(last, shapesOf(last))[i] == p;
      }
      if p.0 == last && p.1 in shapesOf(last) {
        var i :| 0 <= i < |shapesOf(last)| && shapesOf(last)[i] == p.1;
        assert Pairs(last, shapesOf(last))[i] == p;
      }
    }
  }

  /** With a route named, every metadata entry comes from one of that route's shapes. */
  lemma NamedRouteOnly(route: string, db: Db, key: string)
    requires route != ""
    requires key in Metadata(Visits(RoutesToProcess(Some(route), db.distinctRoutes), db.shapesOf), db.tripOf)
    ensures exists shape :: shape in db.shapesOf(route) && SafeShape(shape) == key
  {
    var visits := Visits([route], db.shapesOf);
    MetadataEntries(visits, db.tripOf, key);
    var i :| 0 <= i < |visits| && Writes(visits[i], VisitWrite(db.tripOf), key);
    VisitsOf([route], db.shapesOf, visits[i]);
  }

  // ---------------------------------------------------------------------------
  // Exported lists
  // ---------------------------------------------------------------------------

  /** A row of the stops query: `stop_name`, `stop_lat`, `stop_lon`, `stop_sequence`. */
  datatype StopRow = StopRow(stopName: Value, stopLat: Value, stopLon: Value, stopSequence: Value)

  /** An object of `stops_<shape>.json`: `name`, `lat`, `lon`, `sequence`. */
  datatype StopJson = StopJson(name: Value, lat: Value, lon: Value, sequence: Value)

  /** `stops_json`: one object per stop row, in query order. */
  function StopsJson(rows: seq<StopRow>): (r: seq<StopJson>)
    ensures |r| == |rows|
  {
    seq(|rows|, i requires 0 <= i < |rows| =>
      StopJson(rows[i].stopName, rows[i].stopLat, rows[i].stopLon, rows[i].stopSequence))
  }

  /** Reading a stops file back as rows. */
  function StopRows(objs: seq<StopJson>): (r: seq<StopRow>)
    ensures |r| == |objs|
  {
    seq(|objs|, i requires 0 <= i < |objs| => StopRow(objs[i].name, objs[i].lat, objs[i].lon, objs[i].sequence))
  }

  /** The stops file keeps every column of every row, in order. */
  lemma StopsJsonLossless(rows: seq<StopRow>)
    ensures StopRows(StopsJson(rows)) == rows
  {
  }

  /** `shape_json`: one `[lat, lon]` list per shape point, in query order. */
  function ShapeJson(points: seq<(Value, Value)>): (r: seq<seq<Value>>)
    ensures |r| == |points|
  {
    seq(|points|, i requires 0 <= i < |points| => [points[i].0, points[i].1])
  }

  /** Every list of the shape file is a pair, and the pairs give back the points. */
  lemma ShapeJsonLossless(points: seq<(Value, Value)>)
    ensures forall i :: 0 <= i < |points| ==>
              |ShapeJson(points)[i]| == 2 && (ShapeJson(points)[i][0], ShapeJson(points)[i][1]) == points[i]
  {
  }
}
