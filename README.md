# GTFS stop and trip enrichment: a verified model of the decision logic

The repository is an ETL pipeline for GTFS bus data. It loads CSV files into MySQL. It enriches every bus stop with a postcode (Postcodes.io), with the 2021 census output area and lower-layer super output area, with a nearby-shop count (Overpass API), with census figures and population density, and with a cluster label. It computes the length, idle time and fuel of trips. It exports JSON files for route maps and drives a small Tk control window and map picker.

This project models the decision logic inside that plumbing, once every external call is an abstract input:

- an HTTP service is a function from the attempt number to the answer it gives;
- a database table is a sequence of rows;
- the existence of a file, and whether a configuration file loads, are booleans;
- the raster is a record of its bounds, its no-data value and two functions.

One Dafny module per concern, flat in this directory:

- wrappers.dfy (Wrappers): `Option` for Python's None
- json.dfy (Json): JSON scalar values and dict-shaped stop records
- text.dfy (Text): the `str` methods used: `replace`, `upper`, `split`, `strip`, `str(int)`
- posix_path.dfy (PosixPath): `os.path.dirname` and `os.path.join`, and the "output beside the input" rule
- project_root.dfy (ProjectRoot): `get_project_root` and `affix_root_path`
- backoff.dfy (Backoff): the shared shape of the two retry loops with doubling pauses
- postcode_lookup.dfy (PostcodeLookup): the retrying and the single-shot `reverse_geocode_postcode`
- stops_postcode.dfy (StopsPostcode): the postcode stage in its three versions
- area_codes.dfy (AreaCodes): postcode normalisation, the output-area stage, `get_oa_lsoa_details`
- shops.dfy (Shops): `get_shop_count` and `nearby_shops_enrichment`
- density.dfy (Density): `process_stops_data`
- single_stop.dfy (SingleStop): `enriched_record_from_lat_lon` and `census_return`
- trips.dfy (Trips): shape length, fuel, idle sums and the left joins of trips_enriched.py
- generated_routes.dfy (GeneratedRoutes): created_trip_stops_enriched.py
- sql_pipeline.dfy (SqlPipeline): `run_sql_script`, `move_csv_files`, `load_data_pipeline`, newer and older
- mapping_jsons.dfy (MappingJsons): `generate_mapping_jsons`
- main_gui.dfy (MainGui): duration formatting and the status lines of mainGui.py
- map_gui.dfy (MapGui): the route map, dropdowns and map lookup of map_gui_loader.py

Loops in the source are methods with loop invariants, each proved equal to a specification function. The properties of the function are proved as lemmas. Python dictionaries are Dafny maps. Iterating over a dictionary picks keys in an unspecified order (`:|`); each result is proved independent of that order.

The default fuel rates are 0.35 l/km moving and 3.0 l/h idling (trips_enriched.py:97). The shape-id suffix is removed with `str.replace`, which removes every occurrence (created_trip_stops_enriched.py:110), not only a trailing one.

## Model

| member | source | states |
|---|---|---|
| Text.ReplaceChar | helper_files/data_pipeline.py:142 | `s.replace(a, b)` for one character: same length, each `a` becomes `b`, other characters unchanged |
| Text.ReplaceAbsentChar | helper_files/data_pipeline.py:142 | replacing a character that does not occur leaves the text unchanged |
| Text.ReplaceCharAppend | helper_files/data_pipeline.py:142 | character replacement works piece by piece over concatenation |
| Text.RemoveChar | stops_enrichment_oas.py:60 | `s.replace(' ', '')` is never longer than `s` |
| Text.RemoveCharDrops | stops_enrichment_oas.py:60 | after removal the removed character does not occur |
| Text.RemoveCharKeepsOthers | stops_enrichment_oas.py:60 | removal keeps every other character with its multiplicity |
| Text.RemoveAbsentChar | stops_enrichment_oas.py:60 | removing an absent character changes nothing |
| Text.RemoveCharAppend | stops_enrichment_oas.py:60 | removal distributes over concatenation |
| Text.Upper | stops_enrichment_oas.py:60 | `upper()` on ASCII text keeps the length and maps only `a`..`z` |
| Text.UpperAt | stops_enrichment_oas.py:60 | `upper()` maps each character on its own |
| Text.UpperIdempotent | stops_enrichment_oas.py:60 | upper-casing twice is upper-casing once |
| Text.UpperAppend | stops_enrichment_oas.py:60 | upper-casing distributes over concatenation |
| Text.UpperRemoveSpaceCommute | stops_enrichment_oas.py:60 | removing spaces and upper-casing commute |
| Text.ReplaceAllAbsent | helper_files/data_pipeline.py:143 | `str.replace` of a pattern that does not occur leaves the text unchanged |
| Text.ReplaceAllSelf | helper_files/data_pipeline.py:143 | replacing a pattern by itself leaves the text unchanged |
| Text.ReplaceAllTrailing | created_trip_stops_enriched.py:110 | a pattern occurring only as a suffix is removed exactly once, from the end |
| Text.Split | helper_files/data_pipeline.py:146 | `s.split(c)` has at least one piece and no piece holds `c` |
| Text.JoinSplit | helper_files/data_pipeline.py:146 | joining the pieces with `c` gives back the text |
| Text.SplitAbsent | helper_files/data_pipeline.py:146 | a text without `c` splits into itself alone |
| Text.SplitAround | helper_files/data_pipeline.py:146 | splitting `a + c + b` gives the pieces of `a` followed by those of `b` |
| Text.SplitJoin | helper_files/data_pipeline.py:146 | splitting joined pieces that hold no `c` gives the pieces back |
| Text.LeadingSpacesFacts | helper_files/data_pipeline.py:146 | the counted leading characters are whitespace and the next one is not |
| Text.TrailingSpacesFacts | helper_files/data_pipeline.py:146 | the counted trailing characters are whitespace and the one before is not |
| Text.Strip | helper_files/data_pipeline.py:146 | `strip()` leaves no whitespace at either end |
| Text.StripIsSlice | helper_files/data_pipeline.py:146 | `strip()` returns a contiguous slice of the text, starting after the leading whitespace |
| Text.StripKeepsOut | helper_files/data_pipeline.py:146 | `strip()` adds no character |
| Text.StripEmpty | helper_files/data_pipeline.py:146 | `strip()` is empty iff the text is all whitespace |
| Text.Digits | helper_files/stops_enrichment_postcode.py:26 | decimal digits of a natural number, with no leading zero |
| Text.ParseDigitsRoundTrip | helper_files/stops_enrichment_postcode.py:26 | reading the digits back gives the number |
| Text.IntToString | helper_files/stops_enrichment_postcode.py:26 | `str(n)` starts with `-` exactly for a negative number, followed by decimal digits with no leading zero |
| Text.IntToStringRoundTrip | helper_files/stops_enrichment_postcode.py:26 | `int(str(n)) == n`: the text reads back as the number |
| PosixPath.AfterLastSlash | helper_files/helper.py:15 | the index after the last `/`: a slash precedes it and none follows |
| PosixPath.RStripSlashes | helper_files/helper.py:15 | trailing slashes removed: a prefix that does not end in `/` |
| PosixPath.Dirname | helper_files/helper.py:15 | `os.path.dirname` is a prefix of the path, and empty when the path has no `/` |
| PosixPath.PathJoin | helper_files/helper.py:12 | `os.path.join(a, b)` is `b` when `b` is absolute; its length is bounded by the parts |
| PosixPath.PathJoinParts | helper_files/helper.py:27 | the joined path ends with `b` and, for relative `b`, starts with `a` |
| PosixPath.OutputBeside | stops_enrichment_oas.py:93-97 | the output goes to `./name` when the input path has no directory |
| PosixPath.OutputBesideParts | stops_enrichment_oas.py:93-97 | the output path ends with its name and lies under the input's directory |
| ProjectRoot.Ancestors | helper_files/helper.py:15-20 | the walk starts at the given directory |
| ProjectRoot.AncestorsArePrefixes | helper_files/helper.py:15-20 | every directory of the walk is a prefix of the first |
| ProjectRoot.AncestorsShrink | helper_files/helper.py:15-20 | each step moves to a strictly shorter parent, so the loop ends |
| ProjectRoot.FirstWithGitFacts | helper_files/helper.py:11-18 | None iff no directory of the walk holds `.git`; otherwise the first one that does |
| ProjectRoot.FirstWhereFacts | helper_files/helper.py:11-18 | the first element passing a test, or None iff none passes |
| ProjectRoot.GetProjectRoot | helper_files/helper.py:5-20 | the loop returns the first directory from the helper's own directory upwards holding `.git`, None at the root |
| ProjectRoot.RootIsGitAncestor | helper_files/helper.py:9-13 | a root found holds `.git` and is a prefix of the helper's directory |
| ProjectRoot.AffixRootPath | helper_files/helper.py:23-27 | the root joined with the path, and nothing when there is no root |
| Backoff.Pow2 | helper_files/stops_enrichment_postcode.py:45 | a power of two is at least 1 |
| Backoff.Delays | helper_files/stops_enrichment_postcode.py:42-45 | the first `n` pauses of a doubling schedule |
| Backoff.DelaysAt | helper_files/stops_enrichment_postcode.py:42-45 | pause `k` is `initial * 2^k` |
| Backoff.DelaysCons | helper_files/stops_enrichment_postcode.py:44-45 | one pause then the schedule from the doubled delay is the schedule |
| Backoff.FromCounts | helper_files/stops_enrichment_postcode.py:22-48 | at most `maxRetries` requests, and one pause fewer than requests |
| Backoff.FromSleeps | helper_files/stops_enrichment_postcode.py:42-45 | the pauses follow the doubling schedule |
| Backoff.FromAnswers | helper_files/stops_enrichment_postcode.py:35-48 | a decisive answer ends the loop with its value, and every earlier answer was a retry |
| Backoff.FromStep | helper_files/stops_enrichment_postcode.py:35-48 | one attempt: a decisive answer returns, a failure pauses and goes on, or gives up on the last attempt |
| Backoff.FirstDecisive | helper_files/stops_enrichment_postcode.py:35-48 | the first decisive answer decides the result after as many pauses as failures before it |
| Backoff.AllRetry | helper_files/stops_enrichment_postcode.py:46-72 | when every answer fails, the loop gives up after `maxRetries` requests and one pause fewer |
| PostcodeLookup.Classify | helper_files/stops_enrichment_postcode.py:35-48 | status 200 decides: the first postcode, or None for an empty result; anything else is retried |
| PostcodeLookup.ReverseGeocodePostcode | helper_files/stops_enrichment_postcode.py:12-72 | the retry loop returns the result, pauses and requests of the backoff specification; every request carries the same `lat`, `lon`, `str(radius)` and `limit` 1 |
| PostcodeLookup.LookupBounds | helper_files/stops_enrichment_postcode.py:21-72 | at most `max_retries` requests, none when it is 0; pause `k` is `initial_delay * 2^k`; pauses only between requests |
| PostcodeLookup.LookupFound | helper_files/stops_enrichment_postcode.py:35-36 | a postcode returned is the first result of a status-200 answer to the last request; all earlier answers failed |
| PostcodeLookup.LookupStopsAt200 | helper_files/stops_enrichment_postcode.py:35-39 | a status-200 answer ends the lookup at once with its postcode or None, with no pause after it |
| PostcodeLookup.ThreeFailures | helper_files/stops_enrichment_postcode.py:15-58 | with the defaults, three failures give pauses of 1 and 2 seconds and None |
| PostcodeLookup.SingleShotRequest | stops_enrichment_postcode.py:16-20 | the older lookup asks with radius "200" and no limit |
| PostcodeLookup.SingleShot | stops_enrichment_postcode.py:21-37 | a postcode is returned only from a status-200 answer with a non-empty result, and it is the first one |
| PostcodeLookup.SingleShotIsOneAttempt | StopsEnrichmentPostCode.py:21-40 | the single-shot lookup equals the retrying one with one attempt: one request, no pause |
| StopsPostcode.StopRecord | helper_files/stops_enrichment_postcode.py:128-134 | a stop's record has exactly the five keys, with the row's values and the postcode or null |
| StopsPostcode.PostcodeMapKeys | stops_enrichment_postcode.py:82-96 | the dictionary has one key per distinct stop id |
| StopsPostcode.PostcodeMapLastWins | stops_enrichment_postcode.py:90-96 | a repeated stop id keeps the record of its last row |
| StopsPostcode.PostcodeMapRecords | StopsEnrichmentPostCode.py:96-102 | every entry has the five fields, and its `stop_id` field is its key |
| StopsPostcode.GenerateStopsPostcode | helper_files/stops_enrichment_postcode.py:86-143 | a config failure, a database error or an empty table writes nothing; otherwise the dictionary of all rows is written to `enriched_stops_data_postcode.json` |
| AreaCodes.LookupKeyNoSpace | stops_enrichment_oas.py:60 | a lookup key holds no space |
| AreaCodes.LookupKeyIdempotent | stops_enrichment_oas.py:73-74 | normalising a key again changes nothing |
| AreaCodes.LookupKeyIgnoresSpace | stops_enrichment_oas.py:70-74 | matching ignores spaces |
| AreaCodes.LookupKeyIgnoresCase | stops_enrichment_oas.py:70-74 | matching ignores case |
| AreaCodes.Canon | stops_enrichment_oas.py:139-143 | the canonical form is one longer than the key when the key has 3 characters or more, else the key |
| AreaCodes.CanonShape | stops_enrichment_oas.py:139-143 | the canonical form minus its space is the key; it has exactly one space, 4th from the end, when the key has 3 characters or more, else none |
| AreaCodes.CanonKey | stops_enrichment_oas.py:139-143 | the canonical form has the same key as the postcode |
| AreaCodes.CanonIdempotent | stops_enrichment_oas.py:139-143 | canonicalisation is idempotent |
| AreaCodes.CanonSameKey | stops_enrichment_oas.py:139-143 | two postcodes have the same canonical form iff they have the same key |
| AreaCodes.KeyedMapKeys | stops_enrichment_oas.py:58-65 | the lookup dictionary holds the key of every row with a non-empty `pcds`, and nothing else |
| AreaCodes.KeyedMapLastWins | stops_enrichment_oas.py:58-65 | a key maps to the fields of the last such row carrying it |
| AreaCodes.BuildLookupMap | StopsEnrichmentOAs.py:59-68 | the loop builds the lookup dictionary of the specification |
| AreaCodes.StopArea | stops_enrichment_oas.py:70-89 | a stop gets non-null area fields only when it has a truthy postcode |
| AreaCodes.EnrichFields | stops_enrichment_oas.py:69-91 | enrichment keeps the stop ids and every other field, and sets the three area fields to the stop's lookup result |
| AreaCodes.EnrichStops | StopsEnrichmentOAs.py:73-95 | the in-place loop over the stops ends with every stop enriched, whatever the iteration order |
| AreaCodes.AllMapped | StopsEnrichmentOAs.py:73-95 | once every stop is updated, the map is the enriched map |
| AreaCodes.UpdateStop | stops_enrichment_oas.py:76-88 | one stop's three fields are set from its lookup result |
| AreaCodes.FindArea | stops_enrichment_oas.py:70-78 | a stop's lookup result: the entry of its normalised postcode, or nothing |
| AreaCodes.EnrichFromRow | StopsEnrichmentOAs.py:76-83 | a stop whose postcode matches a row gets that row's three fields, from the last matching row |
| AreaCodes.EnrichMiss | StopsEnrichmentOAs.py:84-95 | a missing, empty or unmatched postcode gives three nulls |
| AreaCodes.GenerateOas | stops_enrichment_oas.py:21-100 | an unreadable input, a config failure or a database error writes nothing; otherwise the enriched stops are written beside the input |
| AreaCodes.FirstWithPcds | stops_enrichment_oas.py:145-148 | the first row whose `pcds` equals the key, or past the end when there is none |
| AreaCodes.GetOaLsoaDetails | stops_enrichment_oas.py:116-158 | three nulls on a config or connection failure or a None postcode; otherwise the fields of the first row equal to the canonical postcode, or three nulls |
| AreaCodes.SingleLookupMatchesKey | stops_enrichment_oas.py:139-148 | a row found by the single lookup has the postcode's key, so the batch stage matches it too |
| Shops.GetShopCount | stops_enrichment_shops.py:27-59 | the loop returns the count, pauses and requests of the backoff specification, giving up with 0 |
| Shops.Classify | stops_enrichment_shops.py:30-57 | a transport or decoding failure, and only that, is retried; a decoded answer without elements gives 0; with elements: an exception iff the first has no `tags` or a non-integer `total`, 0 without a `total`, otherwise that `total` |
| Shops.ExhaustedIsZero | stops_enrichment_shops.py:47-59 | when every request fails the count is 0, after `max_retries` requests and doubling pauses |
| Shops.FirstBodyDecides | stops_enrichment_shops.py:34-38 | the first decoded answer decides the count, after one pause per earlier failure |
| Shops.RaisedOnlyFromBody | stops_enrichment_shops.py:35-36 | the count raises only for a decoded answer whose first element lacks `tags` or has a non-integer `total` |
| Shops.NearbyShopsEnrichment | stops_enrichment_shops.py:65-95 | an unreadable input writes nothing; one failing stop aborts the stage; otherwise every stop is written with its count, beside the input |
| Shops.AllEnriched | stops_enrichment_shops.py:72-79 | once every stop is enriched, the output is the enriched map |
| Shops.AbortedAt | stops_enrichment_shops.py:73-104 | one stop that raises aborts the whole stage |
| Shops.ProcessStop | stops_enrichment_shops.py:73-79 | the loop body for one stop |
| Shops.EnrichStopFacts | stops_enrichment_shops.py:73-79 | a stop fails iff it lacks a coordinate or its count raises; otherwise it gains `shops_nearby_count` and keeps every other field |
| Shops.WrittenStops | stops_enrichment_shops.py:72-84 | a written file holds exactly the input stop ids, each with all its fields and its count; the -1 branch never happens |
| Shops.AbortedWhen | stops_enrichment_shops.py:73-104 | the stage aborts iff some stop lacks a coordinate or its count raises |
| Density.DensityColumn | stops_enrichment_population_density.py:33-60 | the density column has one slot per row |
| Density.PointDensityCases | stops_enrichment_population_density.py:40-58 | a stop gets the sampled value iff its point projects inside the inclusive bounds and the value is neither NaN nor no-data; otherwise 0.0 |
| Density.ProcessStopsData | stops_enrichment_population_density.py:15-67 | a missing raster raises; a raster failure gives None; otherwise the pre-sized buffer holds each row's density |
| Density.PointDensity | stops_enrichment_population_density.py:40-58 | a stop gets a density other than 0.0 only when its point projects inside the bounds |
| Density.OutsideIsZero | stops_enrichment_population_density.py:42-45 | a point outside the bounds gets 0.0 |
| Density.DensityIsPerStop | stops_enrichment_population_density.py:35-58 | a stop's density does not depend on any other row |
| SingleStop.CensusReturn | helper_files/single_stop_enrichment.py:71-121 | a missing code gives three nulls; otherwise the row, and None on a config or connection failure or no row |
| SingleStop.CensusNullSkipsDb | helper_files/single_stop_enrichment.py:77-78 | a missing code does not consult the database |
| SingleStop.CensusFields | helper_files/single_stop_enrichment.py:32-35 | corrected reading: a failed census lookup leaves the three fields null |
| SingleStop.ClusterMapping | helper_files/single_stop_enrichment.py:56-63 | without a label file the default three labels; an unreadable file raises |
| SingleStop.Category | helper_files/single_stop_enrichment.py:65 | `mapping.get(cluster)`: the label, or null iff the cluster is unknown |
| SingleStop.ShopFeature | helper_files/single_stop_enrichment.py:51 | the -1 sentinel is 0 as a feature, any other count unchanged |
| SingleStop.ClusterOf | helper_files/single_stop_enrichment.py:45-65 | a cluster and its label exist iff the model predicts and the labels load |
| SingleStop.EnrichedRecordFromLatLon | helper_files/single_stop_enrichment.py:16-67 | the method runs the stages in order and returns the record as written: it raises when the census answer it subscripts is None |
| SingleStop.EnrichedRecordAsWritten | helper_files/single_stop_enrichment.py:32-35 | as written: agrees with the corrected record whenever the census lookup answers |
| SingleStop.CensusFailureRaises | helper_files/single_stop_enrichment.py:32-35 | a stop in a known area with the census database down raises as written, and gets null census fields when corrected |
| SingleStop.AsWrittenRaisesWhen | helper_files/single_stop_enrichment.py:32-35 | as written, the call raises iff the corrected call raises or the census lookup of a stop in a known area fails |
| SingleStop.RaisesWhen | helper_files/single_stop_enrichment.py:30-65 | the corrected call raises iff the shop count raises, the raster fails, or, in a known area, the model or the label file fails |
| SingleStop.NullAreaSkipsClustering | helper_files/single_stop_enrichment.py:41-43 | without an output area: null cluster, label and census fields; the model and labels are not consulted |
| SingleStop.ShopSentinelOnlyInFeatures | helper_files/single_stop_enrichment.py:30-54 | the record keeps -1 while the model sees 0 |
| SingleStop.DefaultLabelsUsed | helper_files/single_stop_enrichment.py:61-65 | the default mapping labels clusters 0, 1 and 2, and no other |
| Trips.PathLength | trips_enriched.py:13-18 | the sum of the distances between consecutive points is never negative when the distance is not |
| Trips.CalculateShapeDistance | trips_enriched.py:11-18 | the loop computes the path length: the sum over consecutive points |
| Trips.ShortPathIsZero | trips_enriched.py:13-14 | fewer than two points give 0 |
| Trips.PathLengthAppend | trips_enriched.py:14-17 | one more point adds exactly the distance from the last point |
| Trips.PathLengthPrefix | trips_enriched.py:14-17 | a prefix of a shape is never longer than the shape |
| Trips.Fuel | trips_enriched.py:20-24 | non-negative distance, idle seconds and rates give a non-negative amount of fuel |
| Trips.FuelZero | trips_enriched.py:20-24 | no distance and no idling give no fuel |
| Trips.FuelMonotone | trips_enriched.py:20-24 | with non-negative rates, fuel never decreases in distance or idle time |
| Trips.InsertPermutes | trips_enriched.py:76 | insertion adds exactly the new point |
| Trips.InsertSorted | trips_enriched.py:76 | insertion keeps the sequence order |
| Trips.SortBySequenceSpec | trips_enriched.py:76 | the sorted points are ordered by sequence number and a permutation of the input |
| Trips.SortBySequenceSorted | trips_enriched.py:76 | the sorted points are ordered by sequence number |
| Trips.SortBySequencePermutes | trips_enriched.py:76 | the sorted points are a permutation of the input |
| Trips.RowsOf | trips_enriched.py:77 | a shape's rows all carry its id and come from the table |
| Trips.PointsOf | trips_enriched.py:15-16 | the coordinates of each row, in order |
| Trips.ShapeDistances | trips_enriched.py:76-78 | one distance per shape id of the table |
| Trips.IdleTable | trips_enriched.py:52-68 | one idle total per trip id of `stop_times` |
| Trips.IdleSumFilled | trips_enriched.py:52-86 | SQL `SUM` then `fillna(0)` is the plain sum, unclamped, with NULL rows counted as 0 |
| Trips.EnrichTrips | trips_enriched.py:82-83 | every trip row survives the left joins, in order |
| Trips.EnrichTripsRow | trips_enriched.py:82-89 | each trip carries its shape's length, its idle total and the fuel for both; no match gives 0 |
| Trips.GenerateTripsEnriched | trips_enriched.py:26-113 | nothing is written iff config.json is missing or the connection fails; an exception leaves iff config.json is not valid JSON or, once connected, the shapes, trips or stop-times query returns no rows; otherwise one enriched row per trip, in order |
| GeneratedRoutes.EnrichedStopsSpec | created_trip_stops_enriched.py:39-43 | the stops are enriched iff none raises; each keeps its stop id and its own record, in file order |
| GeneratedRoutes.EnrichStops | created_trip_stops_enriched.py:39-43 | the loop builds the enriched stop list of the specification, with each stop enriched as written (a failed census lookup raises) |
| GeneratedRoutes.RaisedStaysRaised | created_trip_stops_enriched.py:40-41 | one stop that raises makes the whole list raise |
| GeneratedRoutes.TripRows | created_trip_stops_enriched.py:58-65 | one trip row per shape id of the shape file |
| GeneratedRoutes.TripRowsShape | created_trip_stops_enriched.py:45-83 | one trip row per shape id, with trip id = shape id, its length, scheduled idle 0, total idle = scheduled + estimated, and fuel for those |
| GeneratedRoutes.EnrichGeneratedTripData | created_trip_stops_enriched.py:13-90 | a missing file gives `(None, None)`; a raising stop or a stops file without rows raises; otherwise enriched stops and trip rows |
| GeneratedRoutes.PairSpecCases | created_trip_stops_enriched.py:25-65 | a pair is enriched iff the stops file has a row and no stop raises, and raises iff it has none or some stop raises; enriched stops keep their ids in file order, with one trip row per shape id |
| GeneratedRoutes.ShapeFilesMembers | created_trip_stops_enriched.py:106 | the shape files are exactly the listed names ending in `_generated_shape.csv` |
| GeneratedRoutes.ShapeIdOf | created_trip_stops_enriched.py:110 | a name without the suffix is its own shape id |
| GeneratedRoutes.ShapeIdOfName | created_trip_stops_enriched.py:110 | a name holding the suffix only at its end loses exactly the suffix |
| GeneratedRoutes.Processed | created_trip_stops_enriched.py:108-131 | the count never exceeds the number of shape files |
| GeneratedRoutes.ProcessAllGeneratedRoutes | created_trip_stops_enriched.py:93-137 | the loop gives the run of the specification: no directory, an abort, or the count of enriched pairs |
| GeneratedRoutes.ProcessPair | created_trip_stops_enriched.py:110-127 | one shape file: skipped without its stops file, otherwise enriched |
| GeneratedRoutes.ProcessedStep | created_trip_stops_enriched.py:122-131 | one more shape file: a raising pair aborts, an enriched pair counts one, any other leaves the count |
| GeneratedRoutes.AbortStaysAborted | created_trip_stops_enriched.py:122-127 | once a pair raises, the run is aborted |
| GeneratedRoutes.ProcessedCountsPairs | created_trip_stops_enriched.py:108-131 | the count is the number of shape files whose pair was enriched |
| GeneratedRoutes.PairNeedsStopsFile | created_trip_stops_enriched.py:112-135 | a shape file without `<id>_generated_stops.csv` is never processed |
| SqlPipeline.SqlSafePath | helper_files/data_pipeline.py:142 | the secure path has the same length and no backslash |
| SqlPipeline.Substitute | helper_files/data_pipeline.py:141-143 | no secure path, an empty one, or no placeholder leaves the script unchanged |
| SqlPipeline.NonEmptyCleaned | helper_files/data_pipeline.py:146 | filtering never adds pieces |
| SqlPipeline.NonEmptyStrippedShape | helper_files/data_pipeline.py:146 | stripped, non-empty pieces without `;` are statements |
| SqlPipeline.Statements | helper_files/data_pipeline.py:146 | no statement is empty, holds `;`, or starts or ends with whitespace |
| SqlPipeline.StatementsConcat | DataPipeline.py:126 | two scripts joined by `;` give the first's statements then the second's: order is kept |
| SqlPipeline.BlankHasNoStatements | helper_files/data_pipeline.py:146-150 | a script of whitespace only has no statements |
| SqlPipeline.ExecutionFacts | helper_files/data_pipeline.py:152-159 | execution sends a prefix; it succeeds iff no statement fails; a failure stops right after the first failing statement |
| SqlPipeline.FailedStaysFailed | helper_files/data_pipeline.py:155-159 | after a failure no later statement is sent |
| SqlPipeline.ExecuteStatements | DataPipeline.py:132-139 | the statement loop gives the execution of the specification |
| SqlPipeline.RunOfFacts | helper_files/data_pipeline.py:148-162 | on an open connection: success iff no statement fails, rollback at the first failure, commit iff something ran and all succeeded |
| SqlPipeline.RunSqlScript | helper_files/data_pipeline.py:125-168 | the method gives the run of the specification |
| SqlPipeline.ScriptRunShape | helper_files/data_pipeline.py:132-168 | a script succeeds iff the connection and file exist and no statement fails; a failure rolls back at the first failing statement |
| SqlPipeline.SourceFolder | helper_files/data_pipeline.py:81-82 | an absolute source folder is used as given |
| SqlPipeline.CopiedFacts | helper_files/data_pipeline.py:98-118 | the copy succeeds iff no pending CSV fails; it copies exactly the CSV files not yet at the destination |
| SqlPipeline.CopyFailureStays | helper_files/data_pipeline.py:113-118 | one failed copy fails the whole copy |
| SqlPipeline.MoveCsvFiles | helper_files/data_pipeline.py:73-123 | the loop gives the copy result of the specification |
| SqlPipeline.MoveResult | helper_files/data_pipeline.py:85-123 | a missing folder or a failed copy gives `(False, [])`; success lists exactly the CSV files not already at the destination |
| SqlPipeline.MoveCsvFilesLegacy | DataPipeline.py:68-101 | the older loop gives the copy list of its specification |
| SqlPipeline.LegacyCopiedFacts | DataPipeline.py:87-98 | the older copy lists exactly the CSV files whose copy succeeded, with no skip of existing files |
| SqlPipeline.ScriptsRunFacts | helper_files/data_pipeline.py:207-214 | scripts run in order and stop at the first failure; the result is true iff all succeed |
| SqlPipeline.ScriptFailureStays | helper_files/data_pipeline.py:211-214 | after a failing script no later script runs |
| SqlPipeline.LoadDataPipeline | helper_files/data_pipeline.py:174-221 | the newer pipeline gives the result of its specification |
| SqlPipeline.RunScripts | DataPipeline.py:188-195 | the script loop gives the run of the specification |
| SqlPipeline.LoadDataPipelineLegacy | DataPipeline.py:154-202 | the older pipeline gives the result of its specification |
| SqlPipeline.PipelineResult | helper_files/data_pipeline.py:184-221 | success iff the config and secure path are there, the copy gate passes and every script succeeds; the two versions differ only in the copy gate |
| SqlPipeline.NothingNewStillRuns | helper_files/data_pipeline.py:204-205 | with every CSV already present, the newer pipeline copies nothing and still runs the scripts |
| SqlPipeline.NothingPendingCopiesNothing | helper_files/data_pipeline.py:103-105 | files already at the destination are skipped |
| MappingJsons.RouteShortName | helper_files/mapping_jsons.py:76 | the short name holds no `:` |
| MappingJsons.RouteShortNamePlain | helper_files/mapping_jsons.py:76 | a route id without `:` is its own short name |
| MappingJsons.RouteShortNameAfterColon | helper_files/mapping_jsons.py:76 | only the last segment counts |
| MappingJsons.SafeShape | helper_files/mapping_jsons.py:79 | the safe id keeps the length and holds neither `:` nor `.` |
| MappingJsons.SafeShapeAt | helper_files/mapping_jsons.py:79 | each `:` or `.` becomes `_`, every other character stays |
| MappingJsons.SafeShapeIdempotent | helper_files/mapping_jsons.py:79 | sanitising is idempotent |
| MappingJsons.SafeShapeCollides | helper_files/mapping_jsons.py:79-83 | two distinct shape ids can get the same key, so one overwrites the other |
| MappingJsons.SafeShapeAppend | helper_files/mapping_jsons.py:79 | sanitising works piece by piece |
| MappingJsons.ExportNamesDistinct | helper_files/mapping_jsons.py:118-122 | distinct keys get distinct stops files and distinct shape files |
| MappingJsons.StopsFileApart | helper_files/mapping_jsons.py:118-128 | a stops file is never a shape file or the metadata file |
| MappingJsons.MetadataNameClash | helper_files/mapping_jsons.py:122-128 | a shape file overwrites the metadata file iff its key is `metadata` |
| MappingJsons.Pairs | helper_files/mapping_jsons.py:63 | one (route, shape) pair per shape id of the route, in order |
| MappingJsons.RecordedAppend | helper_files/mapping_jsons.py:52-83 | the writes of two runs of visits compose |
| MappingJsons.GenerateMetadata | helper_files/mapping_jsons.py:37-83 | the nested loops fill the metadata of the specification over the selected routes |
| MappingJsons.RecordShapes | helper_files/mapping_jsons.py:63-83 | the inner loop records each shape of one route |
| MappingJsons.MetadataEntries | helper_files/mapping_jsons.py:70-83 | a key is present iff some visited shape with a trip row has it as its safe id; its entry comes from the last such shape |
| MappingJsons.RecordedKeys | helper_files/mapping_jsons.py:80-83 | the keys are those some visit writes |
| MappingJsons.RecordedLastWriter | helper_files/mapping_jsons.py:80-83 | each entry comes from the last visit that writes its key |
| MappingJsons.VisitsOf | helper_files/mapping_jsons.py:52-63 | the visits are exactly the routes paired with their shapes |
| MappingJsons.NamedRouteOnly | helper_files/mapping_jsons.py:46-48 | with a route named, every entry comes from one of that route's shapes |
| MappingJsons.StopsJson | helper_files/mapping_jsons.py:102-109 | one object per stop row |
| MappingJsons.StopRows | helper_files/mapping_jsons.py:102-109 | one row per object read back |
| MappingJsons.StopsJsonLossless | helper_files/mapping_jsons.py:102-109 | the stops file keeps every column of every row, in order |
| MappingJsons.ShapeJson | helper_files/mapping_jsons.py:111-113 | one list per shape point |
| MappingJsons.ShapeJsonLossless | helper_files/mapping_jsons.py:111-113 | every list is a `[lat, lon]` pair equal to its point, in order |
| MainGui.Truncate | mainGui.py:327 | `int(x)` truncates toward zero |
| MainGui.Decompose | mainGui.py:328-330 | `hours*3600 + minutes*60 + seconds == total`, with minutes and seconds in 0..59 |
| MainGui.DecomposeUnique | mainGui.py:328-330 | that decomposition is the only one |
| MainGui.Pad2 | mainGui.py:332 | `:02d` gives at least two digits, exactly two below 100 |
| MainGui.Pad2Parse | mainGui.py:332 | a padded field reads back as the number |
| MainGui.FormatDurationRoundTrip | mainGui.py:323-332 | the `HH:MM:SS` text of a non-negative duration reads back as its whole seconds |
| MainGui.FormatDuration | mainGui.py:323-332 | minutes and seconds take exactly two characters each, after the hours and a `:` |
| MainGui.FieldsSplit | mainGui.py:332 | three digit fields joined by `:` split back into themselves |
| MainGui.TimerShowsElapsed | mainGui.py:256-264 | the running label is `Running (...)` around a duration that reads back as the whole seconds elapsed |
| MainGui.ParseDurationOf | mainGui.py:257-262 | a formatted duration reads back as its truncated seconds |
| MainGui.Enclosed | mainGui.py:264 | a duration inside the running label still reads back |
| MainGui.FieldOr | mainGui.py:141-142 | `get(key, 'Not found')` |
| MainGui.InitialStatusText | mainGui.py:137-145 | "Not yet run" without a record; a line starting "Last run at " with one |
| MainGui.RecordedRunShowsSame | mainGui.py:301-312 | after a run is saved, reopening shows the line the task showed when it finished; other tasks are unchanged |
| MapGui.BuildRouteMap | map_gui_loader.py:10-15 | the loop builds the route map of the specification |
| MapGui.RouteMapGroups | map_gui_loader.py:10-15 | a key is present iff some entry has it; its list is that key's entries in file order |
| MapGui.GroupMembers | map_gui_loader.py:12-15 | a group holds an entry's choice iff the entry has the group's key, `??` when missing |
| MapGui.GroupSize | map_gui_loader.py:10-15 | each entry appears exactly once in its group |
| MapGui.LexIrreflexive | map_gui_loader.py:25 | string order is irreflexive |
| MapGui.LexTransitive | map_gui_loader.py:25 | string order is transitive |
| MapGui.LexTotal | map_gui_loader.py:25 | string order is total |
| MapGui.HasLeast | map_gui_loader.py:25 | a non-empty set of keys has a least element |
| MapGui.SortedKeys | map_gui_loader.py:25 | `sorted` keeps the number of keys |
| MapGui.SortedKeysMembers | map_gui_loader.py:25 | the sorted keys are exactly the set's members |
| MapGui.SortedKeysSorted | map_gui_loader.py:25 | the sorted keys are strictly increasing |
| MapGui.RouteChoicesAreKeys | map_gui_loader.py:25 | the route dropdown offers exactly the route keys of the entries |
| MapGui.FindShape | map_gui_loader.py:52-56 | the label search returns the first match |
| MapGui.FirstMatchFacts | map_gui_loader.py:52-59 | not found iff no choice has the label; otherwise the shape of the first such choice |
| MapGui.MapPath | map_gui_loader.py:61-62 | a shape id without `:` is used as it is in `maps/map_{route}_{id}.html` |
| MapGui.MapPathOfSafeKey | map_gui_loader.py:61-62 | for keys the metadata generator writes, the map path is `maps/map_{route}_{key}.html` |
| MapGui.OpenMap | map_gui_loader.py:44-68 | the method gives the outcome of the specification: selection error, not found, missing file, or the path opened |
| MapGui.OpenChosenEntry | map_gui_loader.py:33-68 | choosing an entry's route and label opens that entry's map when it exists |
| MapGui.FirstInGroup | map_gui_loader.py:53-56 | the first choice with an entry's label in its group is that entry's, when no earlier entry has the label |
| MapGui.NoMatchBefore | map_gui_loader.py:53-59 | without an entry with the label, the search finds nothing |
| MapGui.FirstMatchAppend | map_gui_loader.py:53-56 | the search over two lists finds in the first before the second |

## Left out

- HTTP requests, MySQL connections and cursors, file reads and writes, `time.sleep`, `os.makedirs`, `shutil.copy2`, rasterio and pyproj are foreign calls. Their answers are inputs of the model: an answer per attempt, rows, booleans for existence, and functions for projection and sampling. Pauses are recorded as a list, not taken.
- Logging (`logger.log`, `print`) and progress bars (`tqdm`) change no result.
- `os.path.abspath` is not modelled: it depends on the working directory. Paths are kept as given.
- The geodesic distance is an input function. Floating point is modelled as exact `real` arithmetic; NaN appears only as a raster cell value.
- The clustering model and scaler are an input function `predict`. The training scripts (KMeans, weekly frequency) are not part of this model.
- `calculate_estimated_idle_time` and the one-argument `estimate_fuel` of created_trip_stops_enriched.py:72, 82 live in a module that is not part of this model. They are inputs of `GeneratedRoutes.PairEnv`.
- SingleStop.AreaOf, SingleStop.ShopsOf, SingleStop.EnrichedRecordFromLatLon: helper_files/single_stop_enrichment.py:10-12 imports `helper_files.stops_enrichment_oas`, `helper_files.stops_enrichment_shops` and `helper_files.stops_enrichment_population_density`, which are not part of this model. The model assumes they behave like the top-level stops_enrichment_oas.py, stops_enrichment_shops.py and stops_enrichment_population_density.py. It therefore uses AreaCodes.GetOaLsoaDetails, Shops.ShopCountSpec and Shops.GetShopCount, and Density.PointDensity and Density.ProcessStopsData in their place.
- GeneratedRoutes.TripRows: `te.calculate_shape_distance` comes from `helper_files.trips_enriched`, which is not part of this model. The model assumes it is the top-level trips_enriched.py:11-18 function (Trips.ShapeDistance). The idle estimate and the fuel estimate of that module are the inputs `estimatedIdle` and `fuel` of `GeneratedRoutes.PairEnv`. They are total functions, so the model assumes they never raise: an exception from either is not represented.
- `connect_to_mysql` and `return_secure_priv` are not modelled. Their results are the inputs `connects` and `securePath`.
- The Tk widgets, threads and timers of mainGui.py and map_gui_loader.py are not modelled, nor the opening of the browser. `MapGui.OpenMap` returns the path it would open.
- Folium map generation, the CSV-to-MySQL export scripts, main.py and the other orchestration scripts are not part of this model.
- Top-level code that runs on import (DataPipeline.py:205-221, created_trip_stops_enriched.py:139) is not modelled.
- Dictionary iteration order: the stops maps are Dafny maps, so the order of the per-stop loops is left open and every result is proved for any order. The map picker keeps the metadata file's order as a sequence of entries.
- `str(stop_id)` and `str(pcds)` on non-string values: stop ids are strings in the model, and a postcode held as a JSON float is treated as having no usable text.
- A JSON body that is not an object (an `AttributeError` inside the lookups) is not modelled. A body that is not JSON counts as a failed request, as `requests` reports it.
- `get_project_root` returning None makes `move_csv_files` raise at helper_files/data_pipeline.py:82. This is not modelled: `SqlPipeline.MoveSpec` assumes the source folder is resolved.
- An exception out of `process_stops_data` for a single row is folded into the None of the `project` or `sample` input.
- MainGui.FieldOr: the saved run times are modelled as strings only; another JSON value would be formatted by Python's `str`.
- Density.DensityColumn: states only the length of the column; what each slot holds is stated by Density.PointDensityCases.
- MapGui.SortedKeys: a ghost function (Python's `sorted` on a set); its contract states only the length, and its members and order are stated by MapGui.SortedKeysMembers and MapGui.SortedKeysSorted.
- Trips.GenerateTripsEnriched: the Python function returns None in every case. The model returns the table it writes to data/trips_enriched.csv.
- Text.Upper: the ASCII case mapping only. Python's `str.upper()` maps every cased character and can lengthen a string ('ß' becomes 'SS'). Postcodes are ASCII.
- AreaCodes.GetOaLsoaDetails: `WHERE pcds = %s` is read as exact, case-sensitive string equality, and `fetchone()` as the first matching row in table order. MySQL's default collation compares case-insensitively and ignores trailing spaces, and without `ORDER BY` the row returned is not defined. The same holds for AreaCodes.FirstWithPcds.
- GeneratedRoutes.EnrichGeneratedTripData: a shape file with a header and no rows is modelled as giving no trip rows. What pandas does on an empty `groupby(...).apply(...)` followed by `reset_index(name=...)` depends on its version. CSV files that pandas cannot parse (`EmptyDataError`, a missing column) are not modelled: files are read as well-formed rows.

## Findings

| source | as written | input that shows it | evidently intended | confidence | as-written member | corrected member |
|---|---|---|---|---|---|---|
| helper_files/single_stop_enrichment.py:32-35 | `census_return` returns None on a connection failure, a missing config or no row, and the caller subscripts that None | a point whose postcode resolves to an output area while the census database is unreachable: `census["oa21pop"]` raises `TypeError` and no record is returned | a failed census lookup leaves the three census fields null, as a missing output area already does (helper_files/single_stop_enrichment.py:77-78) | not executed | SingleStop.EnrichedRecordFromLatLon, SingleStop.EnrichedRecordAsWritten, SingleStop.CensusFailureRaises | SingleStop.CensusFields, SingleStop.EnrichedRecord, SingleStop.RaisesWhen |
