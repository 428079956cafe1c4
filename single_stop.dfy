/**
 * `enriched_record_from_lat_lon` and `census_return` of
 * helper_files/single_stop_enrichment.py: one point runs through every
 * enrichment stage (postcode, area codes, shops, census, population density)
 * and, when it lies in a known output area, through the clustering model.
 */
module SingleStop {
  import opened Wrappers
  import opened Json
  import PostcodeLookup
  import AreaCodes
  import Shops
  import Density

  /** The three census fields of one output area. */
  datatype Census = Census(oa21pop: Value, employedTotal: Value, busCommuteTotal: Value)

  const NullCensus := Census(Null, Null, Null)

  /**
   * The census database as `census_return` sees it: whether config.json is
   * found, whether the connection opens, and the first joined row for a code
   * (None when the query finds no row or raises).
   */
  datatype CensusDb = CensusDb(configFound: bool, connects: bool, rowFor: Value -> Option<Census>)

  /**
   * `census_return`: three nulls for a missing code without touching the
   * database; otherwise the row, or None on every failure and on no row.
   */
  function CensusReturn(oa21cd: Value, db: CensusDb): (r: Option<Census>)
    ensures oa21cd == Null ==> r == Some(NullCensus)
    ensures oa21cd != Null ==> (r.Some? <==> db.configFound && db.connects && db.rowFor(oa21cd).Some?)
    ensures oa21cd != Null && r.Some? ==> r == db.rowFor(oa21cd)
  {
    if oa21cd == Null then Some(NullCensus)
    else if !db.configFound || !db.connects then None
    else db.rowFor(oa21cd)
  }

  /** A missing code gives the same answer whatever the database holds. */
  lemma CensusNullSkipsDb(db1: CensusDb, db2: CensusDb)
    ensures CensusReturn(Null, db1) == CensusReturn(Null, db2) == Some(NullCensus)
  {
  }

  /** The evidently intended reading: a failed lookup leaves the three fields null. */
  function CensusFields(c: Option<Census>): (r: Census)
    ensures c.Some? ==> r == c.value
    ensures c.None? ==> r == NullCensus
  {
    c.GetOr(NullCensus)
  }

  /** The cluster-label file: missing, unreadable (bad JSON or a non-integer key), or its labels. */
  datatype LabelFile = LabelsMissing | LabelsUnreadable | Labels(labels: map<int, string>)

  const DefaultLabels: map<int, string> := map[0 := "Cluster 0", 1 := "Cluster 1", 2 := "Cluster 2"]

  /** The cluster mapping in use; None when reading the file raises. */
  function ClusterMapping(file: LabelFile): (m: Option<map<int, string>>)
    ensures file.LabelsMissing? ==> m == Some(DefaultLabels)
    ensures file.Labels? ==> m == Some(file.labels)
    ensures m.None? <==> file.LabelsUnreadable?
  {
    match file
    case LabelsMissing => Some(DefaultLabels)
    case LabelsUnreadable => None
    case Labels(labels) => Some(labels)
  }

  /** `cluster_mapping.get(cluster)`: the label, or null for an unknown cluster. */
  function Category(m: map<int, string>, cluster: int): (v: Value)
    ensures v == Null <==> cluster !in m
    ensures cluster in m ==> v == Str(m[cluster])
  {
    if cluster in m then Str(m[cluster]) else Null
  }

  /** The shop count as a clustering feature: the -1 sentinel counts as 0. */
  function ShopFeature(shops: int): (f: int)
    ensures shops == -1 ==> f == 0
    ensures shops != -1 ==> f == shops
  {
    if shops == -1 then 0 else shops
  }

  /**
   * The enriched record. Every field is assigned once, in the order declared
   * here, which is also the key order of the record: `FieldNames` lists the
   * keys.
   */
  datatype StopEnriched = StopEnriched(
    stopLat: Value, stopLon: Value, postcode: Value,
    oa21cd: Value, lsoa21cd: Value, lsoa21nm: Value,
    shopsNearbyCount: Value,
    oa21pop: Value, employedTotal: Value, busCommuteTotal: Value,
    populationDensity: Value,
    cluster: Value, clusterCategory: Value)

  const FieldNames: seq<string> := ["stop_lat", "stop_lon", "postcode", "oa21cd", "lsoa21cd", "lsoa21nm",
    "shops_nearby_count", "oa21pop", "employed_total", "bus_commute_total", "population_density",
    "cluster", "cluster_category"]

  /** Everything outside the function that it consults, one entry per service. */
  datatype Services = Services(
    postcodeAnswers: nat -> PostcodeLookup.Response,
    areaConfig: bool, areaTable: Option<seq<AreaCodes.AreaRow>>,
    shopAnswers: nat -> Shops.Response,
    census: CensusDb,
    rasterExists: bool, rasterOpens: bool, raster: Density.Raster,
    predict: (Value, int, Value) -> Option<int>,
    labelFile: LabelFile)

  /** The outcome of one call: an exception, or the record. */
  datatype SingleResult = Raises | Enriched(rec: StopEnriched)

  /** The cluster id and its label for a stop in a known output area; None when the model or the labels raise. */
  function ClusterOf(census: Census, shops: int, s: Services): (r: Option<(Value, Value)>)
    ensures r.Some? <==> s.predict(census.oa21pop, ShopFeature(shops), census.employedTotal).Some?
                         && !s.labelFile.LabelsUnreadable?
    ensures r.Some? ==> var c := s.predict(census.oa21pop, ShopFeature(shops), census.employedTotal).value;
                        r.value == (Int(c), Category(ClusterMapping(s.labelFile).value, c))
  {
    var cluster := s.predict(census.oa21pop, ShopFeature(shops), census.employedTotal);
    var mapping := ClusterMapping(s.labelFile);
    if cluster.None? || mapping.None? then None
    else Some((Int(cluster.value), Category(mapping.value, cluster.value)))
  }

  /** The stages' answers for one point: postcode, area codes, shop count and census fields. */
  function PostcodeOf(s: Services): Option<string> {
    PostcodeLookup.Lookup(s.postcodeAnswers, 3, 1).value
  }

  function AreaOf(s: Services): AreaCodes.AreaInfo {
    AreaCodes.GetOaLsoaDetails(PostcodeOf(s), s.areaConfig, s.areaTable)
  }

  function ShopsOf(s: Services): Shops.ShopCount {
    Shops.ShopCountSpec(s.shopAnswers, 3, 1).value
  }

  function CensusOf(s: Services): Census {
    CensusFields(CensusReturn(AreaOf(s).oa21cd, s.census))
  }

  /** The specification of `enriched_record_from_lat_lon`, with the corrected census reading. */
  function EnrichedRecord(lat: real, lon: real, s: Services): SingleResult {
    var postcode := PostcodeOf(s);
    var area := AreaOf(s);
    var shops := ShopsOf(s);
    var census := CensusOf(s);
    if shops.Raised? || !s.rasterExists || !s.rasterOpens then Raises
    else
      var density := Density.PointDensity(s.raster, Density.StopPoint(lon, lat));
      var clustering := if area.oa21cd == Null then Some((Null, Null)) else ClusterOf(census, shops.n, s);
      if clustering.None? then Raises
      else Enriched(StopEnriched(Num(lat), Num(lon), OfOption(postcode),
                                 area.oa21cd, area.lsoa21cd, area.lsoa21nm,
                                 Int(shops.n),
                                 census.oa21pop, census.employedTotal, census.busCommuteTotal,
                                 Num(density),
                                 clustering.value.0, clustering.value.1))
  }

  /**
   * `enriched_record_from_lat_lon`: runs the stages in order and fills the
   * record field by field. As written, a census answer of None is
   * subscripted and raises.
   */
  method EnrichedRecordFromLatLon(lat: real, lon: real, s: Services) returns (out: SingleResult)
    ensures out == EnrichedRecordAsWritten(lat, lon, s)
  {
    var stopLat, stopLon := Num(lat), Num(lon);
    var postcode, _, _ := PostcodeLookup.ReverseGeocodePostcode(lat, lon, s.postcodeAnswers, 2000, 3, 1);
    var area := AreaCodes.GetOaLsoaDetails(postcode, s.areaConfig, s.areaTable);
    var shops, _, _ := Shops.GetShopCount(s.shopAnswers, 3, 1);
    if shops.Raised? {
      return Raises;
    }
    var answer := CensusReturn(area.oa21cd, s.census);
    if answer.None? {
      return Raises;
    }
    var census := answer.value;
    var densities := Density.ProcessStopsData([Density.StopPoint(lon, lat)], s.rasterExists, s.rasterOpens, s.raster);
    if !densities.Densities? {
      return Raises;
    }
    var density := densities.values[0];
    var cluster, category;
    if area.oa21cd == Null {
      cluster, category := Null, Null;
    } else {
      var predicted := s.predict(census.oa21pop, ShopFeature(shops.n), census.employedTotal);
      if predicted.None? {
        return Raises;
      }
      cluster := Int(predicted.value);
      var mapping := ClusterMapping(s.labelFile);
      if mapping.None? {
        return Raises;
      }
      category := Category(mapping.value, predicted.value);
    }
    out := Enriched(StopEnriched(stopLat, stopLon, OfOption(postcode),
                                 area.oa21cd, area.lsoa21cd, area.lsoa21nm,
                                 Int(shops.n),
                                 census.oa21pop, census.employedTotal, census.busCommuteTotal,
                                 Num(density),
                                 cluster, category));
  }

  /**
   * `enriched_record_from_lat_lon` AS WRITTEN: it subscripts the answer of
   * `census_return`, which raises when that answer is None; otherwise it
   * agrees with the corrected reading.
   */
  function EnrichedRecordAsWritten(lat: real, lon: real, s: Services): (r: SingleResult)
    ensures CensusReturn(AreaOf(s).oa21cd, s.census).Some? ==> r == EnrichedRecord(lat, lon, s)
  {
    if CensusReturn(AreaOf(s).oa21cd, s.census).None? then Raises else EnrichedRecord(lat, lon, s)
  }

  /**
   * A stop in a known output area while the census database is unreachable:
   * as written the call raises, whereas the corrected record carries null
   * census fields.
   */
  lemma CensusFailureRaises(lat: real, lon: real, s: Services)
    requires AreaOf(s).oa21cd != Null && !s.census.connects
    ensures EnrichedRecordAsWritten(lat, lon, s) == Raises
    ensures EnrichedRecord(lat, lon, s).Enriched? ==>
              var r := EnrichedRecord(lat, lon, s).rec;
              r.oa21pop == Null && r.employedTotal == Null && r.busCommuteTotal == Null
  {
  }

  /**
   * As written, the call raises exactly when the corrected record raises or
   * the census lookup of a stop in a known output area fails.
   */
  lemma AsWrittenRaisesWhen(lat: real, lon: real, s: Services)
    ensures EnrichedRecordAsWritten(lat, lon, s).Raises? <==>
              EnrichedRecord(lat, lon, s).Raises?
              || (AreaOf(s).oa21cd != Null && CensusReturn(AreaOf(s).oa21cd, s.census).None?)
  {
  }

  /**
   * The corrected call raises exactly when the shop count raises, the raster is
   * missing or unreadable, or, for a stop in a known output area, the model
   * or the label file fails.
   */
  lemma RaisesWhen(lat: real, lon: real, s: Services)
    ensures EnrichedRecord(lat, lon, s).Raises? <==>
              ShopsOf(s).Raised? || !s.rasterExists || !s.rasterOpens
              || (AreaOf(s).oa21cd != Null
                  && (s.predict(CensusOf(s).oa21pop, ShopFeature(ShopsOf(s).n), CensusOf(s).employedTotal).None?
                      || s.labelFile.LabelsUnreadable?))
  {
  }

  /**
   * A stop outside every known output area gets null census fields and a
   * null cluster and label, and neither the model nor the label file is
   * consulted: any other model or file gives the same result.
   */
  lemma NullAreaSkipsClustering(lat: real, lon: real, s: Services,
                                predict: (Value, int, Value) -> Option<int>, labelFile: LabelFile)
    requires AreaOf(s).oa21cd == Null
    ensures EnrichedRecord(lat, lon, s) == EnrichedRecord(lat, lon, s.(predict := predict, labelFile := labelFile))
    ensures EnrichedRecord(lat, lon, s).Enriched? ==>
              var r := EnrichedRecord(lat, lon, s).rec;
              r.cluster == Null && r.clusterCategory == Null
              && r.oa21pop == Null && r.employedTotal == Null && r.busCommuteTotal == Null
  {
  }

  /**
   * The record keeps the shop count as returned, the -1 sentinel included;
   * only the model sees it as 0.
   */
  lemma ShopSentinelOnlyInFeatures(lat: real, lon: real, s: Services)
    requires ShopsOf(s) == Shops.Count(-1)
    requires AreaOf(s).oa21cd != Null
    ensures EnrichedRecord(lat, lon, s).Enriched? ==>
              EnrichedRecord(lat, lon, s).rec.shopsNearbyCount == Int(-1)
              && EnrichedRecord(lat, lon, s).rec.cluster == Int(s.predict(CensusOf(s).oa21pop, 0, CensusOf(s).employedTotal).value)
  {
  }

  /** Without a label file, clusters 0, 1 and 2 are labelled "Cluster 0", "Cluster 1" and "Cluster 2", and any other is null. */
  lemma DefaultLabelsUsed(c: int)
    ensures Category(ClusterMapping(LabelsMissing).value, c) ==
              if c == 0 then Str("Cluster 0") else if c == 1 then Str("Cluster 1")
              else if c == 2 then Str("Cluster 2") else Null
  {
  }
}
