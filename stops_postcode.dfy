/**
 * The postcode enrichment stage (`generate_stops_postcode` and its older
 * `GenerateStopsPostcode` twin): one record per stop, keyed by stop id,
 * written to `enriched_stops_data_postcode.json`. The three versions differ
 * only in the output directory, a parameter here. The postcode found for
 * the stop in row `i` is the input `postcodeOf(i)` (the lookups of
 * module PostcodeLookup).
 */
module StopsPostcode {
  import opened Wrappers
  import opened Json
  import opened PosixPath

  /** A row of `SELECT stop_id, stop_name, stop_lat, stop_lon FROM stops`. */
  datatype StopRow = StopRow(stopId: string, stopName: Value, lat: real, lon: real)

  /** How the stage ends: before the database, on a database error, with no stops, or with a file written. */
  datatype Outcome = NoConfig | DbError | NoStops | Written(path: string, data: map<string, Record>)

  const OutputName := "enriched_stops_data_postcode.json"

  /** The record written for one stop: exactly five fields. */
  function StopRecord(row: StopRow, postcode: Option<string>): (r: Record)
    ensures r.Keys == {"stop_id", "stop_name", "stop_lon", "stop_lat", "postcode"}
    ensures r["stop_id"] == Str(row.stopId) && r["stop_name"] == row.stopName
    ensures r["stop_lat"] == Num(row.lat) && r["stop_lon"] == Num(row.lon)
    ensures r["postcode"] == OfOption(postcode)
  {
    map["stop_id" := Str(row.stopId), "stop_name" := row.stopName, "stop_lon" := Num(row.lon),
        "stop_lat" := Num(row.lat), "postcode" := OfOption(postcode)]
  }

  /** The dictionary after the rows have been processed in order; a later row overwrites an earlier one. */
  function PostcodeMap(rows: seq<StopRow>, postcodeOf: nat -> Option<string>): map<string, Record> {
    if rows == [] then map[]
    else PostcodeMap(rows[..|rows| - 1], postcodeOf)[rows[|rows| - 1].stopId := StopRecord(rows[|rows| - 1], postcodeOf(|rows| - 1))]
  }

  /** The dictionary has one entry per distinct stop id of the table, and no other. */
  lemma {:induction false} PostcodeMapKeys(rows: seq<StopRow>, postcodeOf: nat -> Option<string>)
    ensures PostcodeMap(rows, postcodeOf).Keys == set i | 0 <= i < |rows| :: rows[i].stopId
  {
    if rows != [] {
      var init := rows[..|rows| - 1];
      PostcodeMapKeys(init, postcodeOf);
      assert forall i :: 0 <= i < |init| ==> init[i] == rows[i];
      assert (set i | 0 <= i < |rows| :: rows[i].stopId)
          == (set i | 0 <= i < |init| :: init[i].stopId) + {rows[|rows| - 1].stopId};
    }
  }

  /** The entry of a stop id is the record of the last row carrying that id. */
  lemma {:induction false} PostcodeMapLastWins(rows: seq<StopRow>, postcodeOf: nat -> Option<string>, i: nat)
    requires i < |rows|
    requires forall j :: i < j < |rows| ==> rows[j].stopId != rows[i].stopId
    ensures rows[i].stopId in PostcodeMap(rows, postcodeOf)
    ensures PostcodeMap(rows, postcodeOf)[rows[i].stopId] == StopRecord(rows[i], postcodeOf(i))
  {
    if i < |rows| - 1 {
      var init := rows[..|rows| - 1];
      PostcodeMapLastWins(init, postcodeOf, i);
    }
  }

  /** Every entry of the dictionary has the five fields of a stop record. */
  lemma {:induction false} PostcodeMapRecords(rows: seq<StopRow>, postcodeOf: nat -> Option<string>, id: string)
    requires id in PostcodeMap(rows, postcodeOf)
    ensures PostcodeMap(rows, postcodeOf)[id].Keys == {"stop_id", "stop_name", "stop_lon", "stop_lat", "postcode"}
    ensures PostcodeMap(rows, postcodeOf)[id]["stop_id"] == Str(id)
  {
    if rows[|rows| - 1].stopId != id {
      PostcodeMapRecords(rows[..|rows| - 1], postcodeOf, id);
    }
  }

  /**
   * The stage: a config that cannot be loaded or a database error ends it
   * without output, and so does an empty stops table; otherwise every row is
   * enriched in order and the dictionary is written under `outputDir`.
   */
  method GenerateStopsPostcode(configLoaded: bool, stops: Option<seq<StopRow>>,
                               postcodeOf: nat -> Option<string>, outputDir: string)
    returns (out: Outcome)
    ensures !configLoaded ==> out == NoConfig
    ensures configLoaded && stops.None? ==> out == DbError
    ensures configLoaded && stops == Some([]) ==> out == NoStops
    ensures configLoaded && stops.Some? && stops.value != [] ==>
              out == Written(PathJoin(outputDir, OutputName), PostcodeMap(stops.value, postcodeOf))
  {
    if !configLoaded {
      return NoConfig;
    }
    if stops.None? {
      return DbError;
    }
    var rows := stops.value;
    if rows == [] {
      return NoStops;
    }
    var data: map<string, Record> := map[];
    var i := 0;
    while i < |rows|
      invariant i <= |rows|
      invariant data == PostcodeMap(rows[..i], postcodeOf)
    {
      var row := rows[i];
      data := data[row.stopId := StopRecord(row, postcodeOf(i))];
      assert rows[..i + 1][..i] == rows[..i];
      i := i + 1;
    }
    assert rows[..|rows|] == rows;
    out := Written(PathJoin(outputDir, OutputName), data);
  }
}
