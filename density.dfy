/**
 * `process_stops_data` of stops_enrichment_population_density.py: each
 * stop's WGS84 coordinates are reprojected into the raster's reference
 * system and the population density under them is read, with 0.0 for every
 * stop that has no valid reading. The reprojection and the raster read are
 * the inputs `project` and `sample`; None from either stands for an
 * exception raised for that stop.
 */
module Density {
  import opened Wrappers

  /** A raster cell: NaN, or a number. */
  datatype Cell = NaN | Val(v: real)

  /** The open raster: its bounds, its no-data value, and the two calls made per stop. */
  datatype Raster = Raster(left: real, right: real, bottom: real, top: real, nodata: Option<real>,
                           project: (real, real) -> Option<(real, real)>,
                           sample: (real, real) -> Option<Cell>)

  datatype StopPoint = StopPoint(lon: real, lat: real)

  /** A missing raster file raises; a failure with the raster as a whole gives None. */
  datatype DensityResult = MissingRaster | Failed | Densities(values: seq<real>)

  /** The inclusive bounding-box test on the projected point. */
  predicate InBounds(r: Raster, easting: real, northing: real) {
    r.left <= easting <= r.right && r.bottom <= northing <= r.top
  }

  /** A reading that counts: not NaN and not the no-data value. */
  predicate Valid(r: Raster, c: Cell) {
    c.Val? && r.nodata != Some(c.v)
  }

  /** The density recorded for one stop: anything but 0.0 only for a point that projects inside the bounds. */
  function PointDensity(r: Raster, p: StopPoint): (d: real)
    ensures d != 0.0 ==> r.project(p.lon, p.lat).Some?
                         && InBounds(r, r.project(p.lon, p.lat).value.0, r.project(p.lon, p.lat).value.1)
  {
    match r.project(p.lon, p.lat)
    case None => 0.0
    case Some(en) =>
      if !InBounds(r, en.0, en.1) then 0.0
      else match r.sample(en.0, en.1)
        case None => 0.0
        case Some(c) => if Valid(r, c) then c.v else 0.0
  }

  /** All stops' densities, in row order. */
  function DensityColumn(r: Raster, rows: seq<StopPoint>): (d: seq<real>)
    ensures |d| == |rows|
  {
    seq(|rows|, i requires 0 <= i < |rows| => PointDensity(r, rows[i]))
  }

  /**
   * A stop receives a reading exactly when its point projects inside the
   * bounds, the cell is read, and the value is neither NaN nor no-data; it
   * then receives that value, and 0.0 in every other case.
   */
  lemma PointDensityCases(r: Raster, p: StopPoint)
    ensures var reading := r.project(p.lon, p.lat).Some?
                           && InBounds(r, r.project(p.lon, p.lat).value.0, r.project(p.lon, p.lat).value.1)
                           && var en := r.project(p.lon, p.lat).value;
                           r.sample(en.0, en.1).Some? && Valid(r, r.sample(en.0, en.1).value);
            && (reading ==> PointDensity(r, p) == r.sample(r.project(p.lon, p.lat).value.0, r.project(p.lon, p.lat).value.1).value.v)
            && (!reading ==> PointDensity(r, p) == 0.0)
  {
  }

  /**
   * The loop: the buffer starts with one 0.0 per stop, and slot `i` is
   * overwritten only for a valid reading of stop `i`.
   */
  method ProcessStopsData(rows: seq<StopPoint>, rasterExists: bool, rasterOpens: bool, r: Raster)
    returns (result: DensityResult)
    ensures !rasterExists ==> result == MissingRaster
    ensures rasterExists && !rasterOpens ==> result == Failed
    ensures rasterExists && rasterOpens ==> result == Densities(DensityColumn(r, rows))
  {
    if !rasterExists {
      return MissingRaster;
    }
    if !rasterOpens {
      return Failed;
    }
    var densities := new real[|rows|](_ => 0.0);
    var i := 0;
    while i < |rows|
      invariant 0 <= i <= |rows|
      invariant forall k :: 0 <= k < i ==> densities[k] == PointDensity(r, rows[k])
      invariant forall k :: i <= k < |rows| ==> densities[k] == 0.0
    {
      var p := rows[i];
      var projected := r.project(p.lon, p.lat);
      if projected.Some? {
        var (easting, northing) := projected.value;
        if InBounds(r, easting, northing) {
          var cell := r.sample(easting, northing);
          if cell.Some? && cell.value.Val? && r.nodata != Some(cell.value.v) {
            densities[i] := cell.value.v;
          }
        }
      }
      i := i + 1;
    }
    result := Densities(densities[..]);
  }

  /** A stop outside the raster's bounds gets 0.0, whatever the raster holds. */
  lemma OutsideIsZero(r: Raster, rows: seq<StopPoint>, i: nat)
    requires i < |rows|
    requires r.project(rows[i].lon, rows[i].lat).Some?
    requires var en := r.project(rows[i].lon, rows[i].lat).value; !InBounds(r, en.0, en.1)
    ensures DensityColumn(r, rows)[i] == 0.0
  {
  }

  /** Each stop's density depends on that stop alone: changing another row leaves it as it was. */
  lemma DensityIsPerStop(r: Raster, rows: seq<StopPoint>, j: nat, q: StopPoint, i: nat)
    requires i < |rows| && j < |rows| && i != j
    ensures DensityColumn(r, rows[j := q])[i] == DensityColumn(r, rows)[i]
  {
  }
}
