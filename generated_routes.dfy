/**
 * created_trip_stops_enriched.py: every `<id>_generated_shape.csv` in a
 * directory is paired with `<id>_generated_stops.csv`; for each pair the
 * stops are enriched one by one as single points and the shape becomes one
 * trip row per shape id, with its length, idle times and fuel.
 */
module GeneratedRoutes {
  import opened Wrappers
  import opened Text
  import opened PosixPath
  import SingleStop
  import Trips

  const ShapeSuffix := "_generated_shape.csv"
  const StopsSuffix := "_generated_stops.csv"

  /** A row of a generated stops file. */
  datatype GeneratedStop = GeneratedStop(stopId: string, shapeId: string, lat: real, lon: real)

  /** A row of the stop-times frame handed to the idle-time estimate: the trip id and the stop id. */
  datatype StopTimeRow = StopTimeRow(tripId: string, stopId: string)

  /** A row of the enriched trip table. */
  datatype TripRow = TripRow(shapeId: string, tripId: string, totalDistanceKm: real,
                             scheduledIdleSeconds: int, estimatedIdleSeconds: int, totalIdleSeconds: int,
                             fuelLiters: real)

  /**
   * What one pair needs besides its two files: the services each stop's
   * enrichment consults, the point distance, and the idle-time and fuel
   * estimates, whose code is not part of this model.
   */
  datatype PairEnv = PairEnv(services: nat -> SingleStop.Services,
                             dist: (Trips.Point, Trips.Point) -> real,
                             estimatedIdle: (string, seq<StopTimeRow>) -> int,
                             fuel: (real, int) -> real)

  /**
   * A missing file gives `(None, None)`; an exception in a stop's enrichment
   * propagates, and so does the `KeyError` of indexing an empty stops frame
   * by `stop_id`.
   */
  datatype PairResult = NotFound | Raised
                      | PairEnriched(stops: seq<(string, SingleStop.StopEnriched)>, trips: map<string, TripRow>)

  // ---------------------------------------------------------------------------
  // Enriching the stops of one pair
  // ---------------------------------------------------------------------------

  /** The enrichment of stop `k` of a file, by `enriched_record_from_lat_lon` (as written) on its coordinates. */
  function StopEnrichment(services: nat -> SingleStop.Services): (GeneratedStop, nat) -> SingleStop.SingleResult {
    (stop: GeneratedStop, k: nat) => SingleStop.EnrichedRecordAsWritten(stop.lat, stop.lon, services(k))
  }

  /** The enriched stops, each with its stop id, in file order; None once a stop raises. */
  function EnrichedStops(stops: seq<GeneratedStop>, enrich: (GeneratedStop, nat) -> SingleStop.SingleResult)
    : Option<seq<(string, SingleStop.StopEnriched)>>
    decreases |stops|
  {
    if stops == [] then Some([])
    else
      var n := |stops| - 1;
      var prev := EnrichedStops(stops[..n], enrich);
      var e := enrich(stops[n], n);
      if prev.None? || e.Raises? then None
      else Some(prev.value + [(stops[n].stopId, e.rec)])
  }

  /**
   * The stops are enriched exactly when no stop's enrichment raises, and then
   * each stop, in file order, gets its own stop id and record.
   */
  lemma {:induction false} EnrichedStopsSpec(stops: seq<GeneratedStop>, enrich: (GeneratedStop, nat) -> SingleStop.SingleResult)
    ensures EnrichedStops(stops, enrich).Some? <==> forall k :: 0 <= k < |stops| ==> enrich(stops[k], k).Enriched?
    ensures EnrichedStops(stops, enrich).Some? ==> |EnrichedStops(stops, enrich).value| == |stops|
    ensures EnrichedStops(stops, enrich).Some? ==>
              forall k :: 0 <= k < |stops| ==> EnrichedStops(stops, enrich).value[k] == (stops[k].stopId, enrich(stops[k], k).rec)
    decreases |stops|
  {
    if stops != [] {
      var n := |stops| - 1;
      EnrichedStopsSpec(stops[..n], enrich);
      assert forall k :: 0 <= k < n ==> stops[..n][k] == stops[k];
    }
  }

  /** The loop over the stops: each is enriched as a single point and given its stop id. */
  method EnrichStops(stops: seq<GeneratedStop>, services: nat -> SingleStop.Services)
    returns (r: Option<seq<(string, SingleStop.StopEnriched)>>)
    ensures r == EnrichedStops(stops, StopEnrichment(services))
  {
    var acc := [];
    var i := 0;
    while i < |stops|
      invariant 0 <= i <= |stops|
      invariant EnrichedStops(stops[..i], StopEnrichment(services)) == Some(acc)
    {
      assert stops[..i + 1][..i] == stops[..i];
      var e := SingleStop.EnrichedRecordFromLatLon(stops[i].lat, stops[i].lon, services(i));
      if e.Raises? {
        RaisedStaysRaised(stops, StopEnrichment(services), i + 1);
        return None;
      }
      acc := acc + [(stops[i].stopId, e.rec)];
      i := i + 1;
    }
    assert stops[..i] == stops;
    r := Some(acc);
  }

  /** Once a prefix of the stops raises, so do all the stops. */
  lemma {:induction false} RaisedStaysRaised(stops: seq<GeneratedStop>, enrich: (GeneratedStop, nat) -> SingleStop.SingleResult, k: nat)
    requires k <= |stops| && EnrichedStops(stops[..k], enrich).None?
    ensures EnrichedStops(stops, enrich).None?
    decreases |stops| - k
  {
    if k < |stops| {
      assert stops[..k + 1][..k] == stops[..k];
      RaisedStaysRaised(stops, enrich, k + 1);
    } else {
      assert stops[..k] == stops;
    }
  }

  // ---------------------------------------------------------------------------
  // The trip table of one pair
  // ---------------------------------------------------------------------------

  /** The stop-times frame: each stop's trip id is its shape id. */
  function StopTimes(stops: seq<GeneratedStop>): seq<StopTimeRow> {
    seq(|stops|, k requires 0 <= k < |stops| => StopTimeRow(stops[k].shapeId, stops[k].stopId))
  }

  /** One trip row per shape id: the trip id is the shape id, and no scheduled idle time is counted. */
  function TripRows(shapes: seq<Trips.ShapePoint>, stops: seq<GeneratedStop>, env: PairEnv): (m: map<string, TripRow>)
    ensures m.Keys == set p | p in shapes :: p.shapeId
  {
    var stopTimes := StopTimes(stops);
    map id | id in (set p | p in shapes :: p.shapeId) ::
      var estimated := env.estimatedIdle(id, stopTimes);
      var distance := Trips.ShapeDistance(shapes, id, env.dist);
      TripRow(id, id, distance, 0, estimated, 0 + estimated, env.fuel(distance, 0 + estimated))
  }

  /**
   * Every trip row is keyed by a shape id of the file, carries that id as
   * its trip id, the length of that shape, no scheduled idle time and a total
   * idle time equal to scheduled plus estimated.
   */
  lemma TripRowsShape(shapes: seq<Trips.ShapePoint>, stops: seq<GeneratedStop>, env: PairEnv, id: string)
    ensures id in TripRows(shapes, stops, env) <==> exists p :: p in shapes && p.shapeId == id
    ensures id in TripRows(shapes, stops, env) ==>
            var t := TripRows(shapes, stops, env)[id];
            && t.shapeId == id && t.tripId == id
            && t.totalDistanceKm == Trips.ShapeDistance(shapes, id, env.dist)
            && t.scheduledIdleSeconds == 0
            && t.estimatedIdleSeconds == env.estimatedIdle(id, StopTimes(stops))
            && t.totalIdleSeconds == t.scheduledIdleSeconds + t.estimatedIdleSeconds
            && t.fuelLiters == env.fuel(t.totalDistanceKm, t.totalIdleSeconds)
  {
  }

  /**
   * `enrich_generated_trip_data` on the two files' contents (None for a file
   * that is not found). A stops file with no rows gives an enriched frame
   * without a `stop_id` column, and `set_index` raises.
   */
  function PairSpec(shapesCsv: Option<seq<Trips.ShapePoint>>, stopsCsv: Option<seq<GeneratedStop>>, env: PairEnv): PairResult {
    if shapesCsv.None? || stopsCsv.None? then NotFound
    else
      var stops := EnrichedStops(stopsCsv.value, StopEnrichment(env.services));
      if stops.None? || stopsCsv.value == [] then Raised
      else PairEnriched(stops.value, TripRows(shapesCsv.value, stopsCsv.value, env))
  }

  /**
   * A pair is enriched exactly when both files are found, the stops file has
   * a row, and no stop's enrichment raises; its stops then come in file
   * order with their own ids, and its trip rows are one per shape id.
   */
  lemma PairSpecCases(shapes: seq<Trips.ShapePoint>, stops: seq<GeneratedStop>, env: PairEnv)
    ensures PairSpec(Some(shapes), Some(stops), env).PairEnriched? <==>
              stops != [] && forall k :: 0 <= k < |stops| ==> StopEnrichment(env.services)(stops[k], k).Enriched?
    ensures PairSpec(Some(shapes), Some(stops), env).Raised? <==>
              stops == [] || exists k :: 0 <= k < |stops| && StopEnrichment(env.services)(stops[k], k).Raises?
    ensures var r := PairSpec(Some(shapes), Some(stops), env);
            r.PairEnriched? ==>
              && |r.stops| == |stops|
              && (forall k :: 0 <= k < |stops| ==> r.stops[k].0 == stops[k].stopId)
              && r.trips.Keys == set p | p in shapes :: p.shapeId
  {
    EnrichedStopsSpec(stops, StopEnrichment(env.services));
  }

  method EnrichGeneratedTripData(shapesCsv: Option<seq<Trips.ShapePoint>>, stopsCsv: Option<seq<GeneratedStop>>, env: PairEnv)
    returns (r: PairResult)
    ensures r == PairSpec(shapesCsv, stopsCsv, env)
  {
    if shapesCsv.None? || stopsCsv.None? {
      return NotFound;
    }
    var stops := EnrichStops(stopsCsv.value, env.services);
    if stops.None? || stopsCsv.value == [] {
      return Raised;
    }
    r := PairEnriched(stops.value, TripRows(shapesCsv.value, stopsCsv.value, env));
  }

  // ---------------------------------------------------------------------------
  // Scanning the directory
  // ---------------------------------------------------------------------------

  /** The shape files of a directory listing, in listing order. */
  function ShapeFiles(listing: seq<string>): seq<string> {
    if listing == [] then []
    else (if EndsWith(listing[0], ShapeSuffix) then [listing[0]] else []) + ShapeFiles(listing[1..])
  }

  /** The shape files are the listed names that end with the shape suffix. */
  lemma {:induction false} ShapeFilesMembers(listing: seq<string>)
    ensures forall f :: f in ShapeFiles(listing) <==> f in listing && EndsWith(f, ShapeSuffix)
  {
    if listing != [] {
      ShapeFilesMembers(listing[1..]);
      assert listing == [listing[0]] + listing[1..];
    }
  }

  /**
   * The shape id of a shape file: the name with every occurrence of the
   * suffix removed; a name without the suffix is its own id.
   */
  function ShapeIdOf(shapeFile: string): (id: string)
    ensures !Occurs(ShapeSuffix, shapeFile) ==> id == shapeFile
  {
    ReplaceAllAbsent(shapeFile, ShapeSuffix, "");
    ReplaceAll(shapeFile, ShapeSuffix, "")
  }

  /** A name that holds the suffix only at its end loses exactly that suffix. */
  lemma {:induction false} ShapeIdOfName(id: string)
    requires forall i :: 0 <= i < |id| ==> !OccursAt(ShapeSuffix, id + ShapeSuffix, i)
    ensures ShapeIdOf(id + ShapeSuffix) == id
  {
    ReplaceAllTrailing(id, ShapeSuffix);
  }

  /** Everything a run consults: the directory, its listing, and per-file contents. */
  datatype Directory = Directory(path: string, isDir: bool, listing: seq<string>, fileExists: string -> bool,
                                 readShapes: string -> Option<seq<Trips.ShapePoint>>,
                                 readStops: string -> Option<seq<GeneratedStop>>,
                                 envFor: string -> PairEnv)

  function StopsPath(d: Directory, shapeFile: string): string {
    PathJoin(d.path, ShapeIdOf(shapeFile) + StopsSuffix)
  }

  /** The result for one shape file: None when its stops file does not exist, else the pair's result. */
  function PairOf(d: Directory, shapeFile: string): Option<PairResult> {
    if !d.fileExists(StopsPath(d, shapeFile)) then None
    else Some(PairSpec(d.readShapes(PathJoin(d.path, shapeFile)), d.readStops(StopsPath(d, shapeFile)),
                       d.envFor(ShapeIdOf(shapeFile))))
  }

  /** The count of pairs enriched over some shape files; None once a pair raises. */
  function Processed(pairOf: string -> Option<PairResult>, files: seq<string>): (r: Option<nat>)
    ensures r.Some? ==> r.value <= |files|
    decreases |files|
  {
    if files == [] then Some(0)
    else
      var n := |files| - 1;
      var prev := Processed(pairOf, files[..n]);
      var pair := pairOf(files[n]);
      if prev.None? || pair == Some(Raised) then None
      else if pair.Some? && pair.value.PairEnriched? then Some(prev.value + 1)
      else prev
  }

  /** A run: no directory, an exception out of some pair, or the number of pairs enriched. */
  datatype RunResult = NoDirectory | Aborted | Finished(processed: nat)

  function PairLookup(d: Directory): string -> Option<PairResult> {
    f => PairOf(d, f)
  }

  function RunSpec(d: Directory): RunResult {
    if !d.isDir then NoDirectory
    else
      var p := Processed(PairLookup(d), ShapeFiles(d.listing));
      if p.None? then Aborted else Finished(p.value)
  }

  /** `process_all_generated_routes`. */
  method ProcessAllGeneratedRoutes(d: Directory) returns (r: RunResult)
    ensures r == RunSpec(d)
  {
    if !d.isDir {
      return NoDirectory;
    }
    var shapeFiles := ShapeFiles(d.listing);
    var processedCount := 0;
    var i := 0;
    while i < |shapeFiles|
      invariant 0 <= i <= |shapeFiles|
      invariant Processed(PairLookup(d), shapeFiles[..i]) == Some(processedCount)
    {
      var pair := ProcessPair(d, shapeFiles[i]);
      assert PairLookup(d)(shapeFiles[i]) == pair;
      ProcessedStep(PairLookup(d), shapeFiles, i);
      if pair == Some(Raised) {
        AbortStaysAborted(PairLookup(d), shapeFiles, i + 1);
        return Aborted;
      }
      if pair.Some? && pair.value.PairEnriched? {
        processedCount := processedCount + 1;
      }
      i := i + 1;
    }
    assert shapeFiles[..i] == shapeFiles;
    r := Finished(processedCount);
  }

  /** The loop body for one shape file: skipped without its stops file, else enriched. */
  method ProcessPair(d: Directory, shapeFile: string) returns (pair: Option<PairResult>)
    ensures pair == PairOf(d, shapeFile)
  {
    var stopsPath := StopsPath(d, shapeFile);
    if !d.fileExists(stopsPath) {
      return None;
    }
    var result := EnrichGeneratedTripData(d.readShapes(PathJoin(d.path, shapeFile)), d.readStops(stopsPath),
                                          d.envFor(ShapeIdOf(shapeFile)));
    pair := Some(result);
  }

  /** One more shape file: a raising pair aborts, an enriched one counts, anything else leaves the count. */
  lemma ProcessedStep(pairOf: string -> Option<PairResult>, files: seq<string>, i: nat)
    requires i < |files|
    ensures var prev := Processed(pairOf, files[..i]);
            var pair := pairOf(files[i]);
            Processed(pairOf, files[..i + 1])
              == if prev.None? || pair == Some(Raised) then None
                 else if pair.Some? && pair.value.PairEnriched? then Some(prev.value + 1)
                 else prev
  {
    assert files[..i + 1][..i] == files[..i];
  }

  lemma {:induction false} AbortStaysAborted(pairOf: string -> Option<PairResult>, files: seq<string>, k: nat)
    requires k <= |files| && Processed(pairOf, files[..k]).None?
    ensures Processed(pairOf, files).None?
    decreases |files| - k
  {
    if k < |files| {
      assert files[..k + 1][..k] == files[..k];
      AbortStaysAborted(pairOf, files, k + 1);
    } else {
      assert files[..k] == files;
    }
  }

  /**
   * A finished run counts a shape file only when its stops file exists and
   * its pair was enriched, so never more than the shape files that have a
   * stops file.
   */
  lemma {:induction false} ProcessedCountsPairs(pairOf: string -> Option<PairResult>, files: seq<string>)
    requires Processed(pairOf, files).Some?
    ensures Processed(pairOf, files).value == |set k | 0 <= k < |files| && pairOf(files[k]).Some? && pairOf(files[k]).value.PairEnriched?|
    decreases |files|
  {
    if files != [] {
      var n := |files| - 1;
      ProcessedCountsPairs(pairOf, files[..n]);
      var before := set k | 0 <= k < n && pairOf(files[..n][k]).Some? && pairOf(files[..n][k]).value.PairEnriched?;
      var after := set k | 0 <= k < |files| && pairOf(files[k]).Some? && pairOf(files[k]).value.PairEnriched?;
      if pairOf(files[n]).Some? && pairOf(files[n]).value.PairEnriched? {
        assert after == before + {n};
      } else {
        assert after == before;
      }
    }
  }

  /** A shape file without a stops file is never counted. */
  lemma PairNeedsStopsFile(d: Directory, shapeFile: string)
    requires !d.fileExists(StopsPath(d, shapeFile))
    ensures PairOf(d, shapeFile) == None
  {
  }
}
