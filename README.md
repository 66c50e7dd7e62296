# Solar site profiler: per-parcel decisions and bookkeeping

`solarProfile_v0.2.py` profiles candidate sites for solar development. For
every feature of an input polygon layer it does the following:

- Resolves which regional slope raster covers the parcel.
- Reclassifies slope into five reported buckets (0-5, 5-10, 10-15, 15-20 and
  over 20 percent grade, plus a steep class 9 that is never reported).
- Tabulates the acreage of each bucket twice: over all land, and over land
  whose land-use zone is 1 ("good for solar").
- Reads the distance to the nearest transmission line in six voltage
  categories.
- Flags intersecting mine permits and picks up the county name.
- Writes one row per parcel to an output table.

This project models that decision and bookkeeping logic in Dafny and proves
properties of it. The geoprocessing tools themselves are not modelled: what
each one returns for a parcel is an input to the model (`ParcelObs`).

Modules, in dependency order:

| file | module | what it models |
|---|---|---|
| `common.dfy` | `Common` | `Option`, the failure sentinel -9999, the square-metre-to-acre and metre-to-mile factors |
| `slope_class.dfy` | `SlopeClass` | the remap string handed to Reclassify, the five buckets, their labels and their `VALUE_n` columns |
| `region.dfy` | `Region` | the region table and the loop that picks the slope raster |
| `tabulate.dfy` | `Tabulate` | the all-land and good-land tabulation passes, with per-bucket failure |
| `transmission.dfy` | `Transmission` | the distance loop, where one failure resets all six categories |
| `row.dfy` | `Row` | the output record, the mine flag, the county value, row assembly |
| `profiler.dfy` | `Profiler` | the feature loop: a pure specification (`ParcelStep`, `Run`) and a `SiteProfiler` class whose fields are the dictionaries and counters that the program updates in place |

The module-level tally dictionaries (`slopeAreasAllLULC`,
`slopeAreasGoodLULC`, `transmissionDistances`) are never reset between
parcels. The same holds for `county`, `featureNum` and the output frame. All
of these are fields of `SiteProfiler`. Each imperative method is proved
equal to a pure function of the old state: `ProcessParcel` to `ParcelStep`,
and `Analyze` to `Run`. The properties are proved about those functions.

## Behaviour of the code worth knowing

The model follows the code in each of these cases.

- **Cursor clean-up drops parcels.** After each of the three passes the
  program runs `if cursor: del cursor` inside `try ... except: continue`
  (`solarProfile_v0.2.py:166-170`, `184-188`, `203-207`).
  - If no read of the pass ever bound the cursor variable, the test
    `if cursor2:` (or `if cursor3:`, `if read:`) raises `UnboundLocalError`
    before `del` runs (lines 167, 185, 204). The parcel is then abandoned:
    no row is written and `featureNum` is not incremented.
  - For transmission, this happens exactly when the first category attempted
    fails before its cursor opens. No row with six -9999 distances is
    written for that parcel.
  - In the model this is `Status.Skipped`; see
    `FirstTransmissionFailureDropsParcel` and `CursorBoundUnlessFirstFails`.
- **County.** `county` is assigned inside `analysis()`, so it is a local
  variable.
  - If a parcel reaches row assembly while no county has ever been read in
    the run, building its row raises `UnboundLocalError` and ends the run
    (`Status.Aborted`). Parcels dropped at a clean-up before that point do
    not reach row assembly and do not abort.
  - A later parcel that meets no county gets the previous parcel's county.
  - When several counties intersect a parcel, the last one read wins.
- **No matching region.** The parcel is still clipped with the slope raster
  of the last region enumerated, the loop variable's final value.
- **Stale values.** A read that yields no row leaves the previous parcel's
  value in the dictionary, and that value is written into this parcel's row.

## Model

| member | source | states |
|---|---|---|
| `SlopeClass.Lookup` | solarProfile_v0.2.py:155 | a value that gets a code lies in a range of the table with that code; a value kept as it is lies in no range |
| `SlopeClass.Reclassify` | solarProfile_v0.2.py:155 | a cell gets class 1..5 or the steep class 9, or keeps its own value |
| `SlopeClass.ExactlyOneRange` | solarProfile_v0.2.py:155 | every slope in [0, 500000] lies in exactly one range of the remap table and gets its code; slopes outside are kept as they are (option "DATA") |
| `SlopeClass.ReclassifyBands` | solarProfile_v0.2.py:155 | the bands [0,5)→1, [5,10)→2, [10,15)→3, [15,20)→4, [20,25)→5, [25,500000]→9, others kept |
| `SlopeClass.ReclassifyMonotone` | solarProfile_v0.2.py:155 | within [0, 500000], a steeper slope never gets a lower class |
| `SlopeClass.ReportedIffBelow25` | solarProfile_v0.2.py:71-79 | a slope is counted in some reported bucket exactly when it is below 25 percent |
| `SlopeClass.BucketOf` | solarProfile_v0.2.py:71-77 | a code has a bucket exactly when it is 1..5, and that bucket's class is the code |
| `SlopeClass.FieldName` | solarProfile_v0.2.py:71-77 | each bucket reads column `VALUE_c`, where c is its class code |
| `SlopeClass.BucketsOneToOne` | solarProfile_v0.2.py:55-77 | buckets and codes 1..5 correspond one to one; field names and labels are distinct; no bucket reads the steep class's column |
| `Region.RegionListWellFormed` | solarProfile_v0.2.py:40-46 | the region table has five entries, each naming a slope raster |
| `Region.FirstMatch` | solarProfile_v0.2.py:132-143 | the first region whose join count is non-zero, and every earlier count is zero; None exactly when all counts are zero |
| `Region.ResolvedSlope` | solarProfile_v0.2.py:132-151 | the raster clipped is one of the table's rasters: the first matching region's, or the last region's when none matches |
| `Region.ResolveRegion` | solarProfile_v0.2.py:132-145 | on a match: `location` is the first matching region's raster, only the regions up to it are joined, and no notice is printed; otherwise: `location` is empty, all regions are joined, one notice is printed, and the clipped raster is the last region's |
| `Region.LaterRegionsIgnored` | solarProfile_v0.2.py:142-143 | join counts after the first match do not affect the result |
| `Tabulate.Selected` | solarProfile_v0.2.py:161-181 | the all-land cursor yields every row; the good-land cursor yields only rows of zone 1 |
| `Tabulate.ReadField` | solarProfile_v0.2.py:159-165 | a failed read gives -9999; a read that admits no row keeps the bucket's previous value |
| `Tabulate.StoredAreaFromTable` | solarProfile_v0.2.py:161-163 | a read that admits a row stores the area, in acres, of a row of that parcel's own table, and in the good-land pass one of zone 1 |
| `Tabulate.BucketPass` | solarProfile_v0.2.py:158-165 | after a pass the tally dictionary still has all five keys |
| `Tabulate.ReadColumn` | solarProfile_v0.2.py:161-163 | the inner row loop stores the last admitted row's area in acres, or keeps the previous value if no row is admitted |
| `Tabulate.TabulatePass` | solarProfile_v0.2.py:158-165 | the pass loop leaves every bucket at its own read's value and reports whether any cursor was bound |
| `Tabulate.FailureIsolated` | solarProfile_v0.2.py:164-165 | a failed read sets its own bucket to -9999; the other buckets come out as if that read had succeeded |
| `Tabulate.LastRowStored` | solarProfile_v0.2.py:162-163 | with several rows, the last admitted row's area times 0.0002471052 is stored |
| `Tabulate.NoRowsKeepsPrevious` | solarProfile_v0.2.py:158-163 | a read that admits no row keeps the value from before, which is the previous parcel's |
| `Tabulate.OtherZonesIgnored` | solarProfile_v0.2.py:179-181 | a row of any zone other than 1 has no effect on the good-land value, wherever it occurs |
| `Tabulate.EveryBucketOverwritten` | solarProfile_v0.2.py:158-165 | when every column admits a row, the cursor is bound and every bucket is overwritten from this parcel |
| `Transmission.TransmissionTableShape` | solarProfile_v0.2.py:81-97 | the line table has six entries and names each category exactly once |
| `Transmission.TableIndex` | solarProfile_v0.2.py:81-88 | the position of each category's dataset in the table |
| `Transmission.LastMinimum` | solarProfile_v0.2.py:196-197 | with no row the category keeps its previous value; otherwise it holds one of the reported minima times 0.0006213712 |
| `Transmission.LastMinimumConcat` | solarProfile_v0.2.py:196-197 | reading the rows in two stretches stores the same value as reading them in one |
| `Transmission.TransPass` | solarProfile_v0.2.py:192-202 | the loop keeps all six keys; a bound cursor stays bound; a first category that returns its minima binds the cursor |
| `Transmission.ReadMinimum` | solarProfile_v0.2.py:196-197 | the inner row loop stores the last zonal minimum times 0.0006213712, or keeps the previous value |
| `Transmission.FailureResetsAll` | solarProfile_v0.2.py:198-202 | any failed category leaves all six distances at -9999 |
| `Transmission.LaterCategoriesIgnored` | solarProfile_v0.2.py:202 | after the first failure the loop stops: later categories' reads do not matter |
| `Transmission.SuccessfulPass` | solarProfile_v0.2.py:192-197 | without failure, each category holds its last minimum in miles, other keys keep their values, and the cursor is bound once any category has run |
| `Transmission.EveryDistanceOverwritten` | solarProfile_v0.2.py:192-197 | when every category reads a minimum, the cursor is bound and all six distances are overwritten from this parcel |
| `Transmission.CursorBoundUnlessFirstFails` | solarProfile_v0.2.py:192-207 | the cursor variable ends the loop unbound exactly when the first category fails before its cursor opens |
| `Row.MineFlag` | solarProfile_v0.2.py:213-218 | "yes" exactly when the intersect count is positive, "no" exactly when it is zero |
| `Row.CountyAfter` | solarProfile_v0.2.py:130-131 | the county variable is unassigned only while no name has ever been read; otherwise it holds the last name read, or its old value when the parcel meets no county |
| `Row.CountyAfterConcat` | solarProfile_v0.2.py:130-131 | carrying the county from one parcel's lookup into the next equals one lookup over both parcels' names |
| `Row.AssembleRow` | solarProfile_v0.2.py:226-250 | Index, SiteGroup, SourceFID, Area, Owner "NA" and County as given; each slope and distance column holds its dictionary entry; FlatGoodLULC is good 0-5 plus good 5-10; MinePermits follows the intersect count |
| `Profiler.InitialValid` | solarProfile_v0.2.py:55-97 | the dictionaries start with every key and the counter at 0, with no rows |
| `Profiler.Passes` | solarProfile_v0.2.py:158-207 | the three passes keep every dictionary complete and leave the rows, the counter and the county unchanged |
| `Profiler.ParcelStep` | solarProfile_v0.2.py:113-253 | one feature either appends exactly one row, whose SourceFID and SiteGroup are the parcel's, or leaves the table unchanged; the state stays valid (row k has Index k) |
| `Profiler.AppendRow` | solarProfile_v0.2.py:226-253 | appends one row and increments the counter; the dictionaries and the county are unchanged |
| `Profiler.Run` | solarProfile_v0.2.py:109-253 | the feature loop only extends the table, by at most one row per feature, and keeps the state valid |
| `Profiler.FirstTransmissionFailureDropsParcel` | solarProfile_v0.2.py:192-207 | a failure on the first category before its cursor opens drops the parcel without a row or a new Index, and leaves all six distances at -9999 |
| `Profiler.TransmissionFailureRow` | solarProfile_v0.2.py:198-237 | a row written after a transmission failure has -9999 in all six distance columns |
| `Profiler.SuccessfulTransmissionRow` | solarProfile_v0.2.py:192-237 | without failure, each distance column holds its category's last minimum in miles, or the previous parcel's value |
| `Profiler.CompletePasses` | solarProfile_v0.2.py:158-207 | when all reads succeed with rows, no pass is skipped and every dictionary entry comes from this parcel |
| `Profiler.CompleteReadsRow` | solarProfile_v0.2.py:113-253 | a parcel whose reads all succeed and that meets a county gets a row whose every slope and distance column comes from its own reads, and whose county is the last one read |
| `Profiler.FieldFailureRow` | solarProfile_v0.2.py:158-242 | a failed all-land read puts -9999 in its own column only |
| `Profiler.StaleGoodAreaCarried` | solarProfile_v0.2.py:176-247 | a good-land column with no zone-1 row repeats the previous parcel's value |
| `Profiler.FirstParcelWithoutCountyAborts` | solarProfile_v0.2.py:130-250 | the first parcel of a run that meets no county produces no row |
| `Profiler.AbortEndsRun` | solarProfile_v0.2.py:109-250 | a first parcel with no county that passes all three clean-ups aborts the run, and the output table stays empty whatever features follow |
| `Profiler.CountyOfRow` | solarProfile_v0.2.py:130-250 | a row's county is the last county read for the parcel, or the previous parcel's when none was read |
| `Profiler.ClippedSlope` | solarProfile_v0.2.py:132-151 | the raster clipped is the first matching region's, or the last region's when none matches |
| `Profiler.RowsFollowInputOrder` | solarProfile_v0.2.py:113-251 | the SourceFIDs of the rows written are a subsequence of the input OIDs, in input order |
| `Profiler.OutputTableRows` | solarProfile_v0.2.py:110-253 | in the output table of a run, row k has Index k, FlatGoodLULC equal to the sum of its two flattest good-land columns, a yes/no mine flag and owner "NA" |
| `Profiler.SiteProfiler.constructor` | solarProfile_v0.2.py:55-110 | a new profiler is in the initial state |
| `Profiler.SiteProfiler.LookupCounty` | solarProfile_v0.2.py:130-131 | the county field becomes the last name read, or is unchanged when no name is read |
| `Profiler.SiteProfiler.TabulateAllLulc` | solarProfile_v0.2.py:158-165 | the all-land dictionary becomes the all-land pass of its old value; reports whether the cursor was bound |
| `Profiler.SiteProfiler.TabulateGoodLulc` | solarProfile_v0.2.py:176-183 | the good-land dictionary becomes the zone-1 pass of its old value; reports whether the cursor was bound |
| `Profiler.SiteProfiler.ResetDistances` | solarProfile_v0.2.py:200-201 | every distance becomes -9999 |
| `Profiler.SiteProfiler.EstimateTransmission` | solarProfile_v0.2.py:192-202 | the distance dictionary and the cursor flag become those of the transmission pass |
| `Profiler.SiteProfiler.RunPasses` | solarProfile_v0.2.py:158-207 | the three passes and their clean-ups, equal to `Passes` of the old state |
| `Profiler.SiteProfiler.ProcessParcel` | solarProfile_v0.2.py:113-253 | one iteration of the feature loop, equal to `ParcelStep` of the old state |
| `Profiler.SiteProfiler.WriteRow` | solarProfile_v0.2.py:226-253 | appends the assembled row and increments the counter, equal to `AppendRow` |
| `Profiler.SiteProfiler.Analyze` | solarProfile_v0.2.py:109-254 | the whole feature loop, equal to `Run` of the state before it |

## Left out

- Geoprocessing is not modelled. This covers SpatialJoin, GetCount, Clip,
  Times, Reclassify, TabulateArea, ZonalStatisticsAsTable,
  SelectLayerByLocation, CopyFeatures, MakeFeatureLayer and the geodesic area
  computation. What each reports for a parcel is an input field of
  `ParcelObs`. `Reclassify` is modelled on one cell value only.
- The model does not write output. `writeToCsv`, the pandas frame, the
  `print` calls and the intermediate feature classes written to the
  workspace are not modelled; the output table is a sequence of `Record`s.
- Workspace and path setup (lines 1-30) and the `tempDF` column template are
  not modelled.
- Arithmetic uses exact reals, not floating point.
- Python 2 dictionaries are enumerated in hash order, which the code does not
  fix. The model enumerates regions, buckets and transmission categories in
  the order of the source text.
  - The tally results do not depend on this order.
  - Which transmission category comes first matters only for the clean-up
    case above.
  - Which region is "first" matters when more than one region contains the
    parcel.
  - Which region is enumerated last decides the raster clipped when no
    region contains the parcel. The model uses the last entry in text order
    (`SouthSouthSlope`, see `Profiler.ClippedSlope`). The real program uses
    whichever key CPython 2's hash order puts last. That need not be the same
    key: by a hand calculation of the string hash it is
    `WV_south_region_northern.shp`, whose raster is `SouthNorthSlope`.
- Cursor objects are assumed truthy, so a bound cursor is always deleted.
- The owner column is always "NA"; reading it from the feature (line 121) is
  commented out in the source.
- Exceptions other than the ones the code catches, such as a failing
  SpatialJoin, end the real run and are not modelled.
- `Profiler.SiteProfiler.ProcessParcel` returns the clipped raster's name.
  The real program only uses that name as a Clip argument.
