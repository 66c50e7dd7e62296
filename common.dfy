/** Shared vocabulary of the site profiler: an optional value, the numeric
    sentinel written for a value that could not be obtained, and the two unit
    conversions applied to what the geoprocessing tools report. */
module Common {

  datatype Option<T> = None | Some(value: T)

  /** Marker for "computation failed / unavailable", distinct from a true zero. */
  const Sentinel: real := -9999.0

  /** Square metres (one 1 m x 1 m cell) to acres, applied to every tabulated area. */
  const AcresPerSquareMeter: real := 0.0002471052

  /** Metres to miles, applied to every zonal minimum distance. */
  const MilesPerMeter: real := 0.0006213712
}
