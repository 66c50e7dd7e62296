/** Region resolution: the parcel is spatially joined, with the "completely
    contains" predicate, against each region boundary in enumeration order;
    the first region whose join count is non-zero selects the slope raster
    that is clipped to the parcel. The join counts are the inputs. */
module Region {
  import opened Common

  /** One entry of regionList: a region boundary and its slope raster. */
  datatype RegionEntry = RegionEntry(boundary: string, slope: string)

  const ElevationData: string := "D:\\workspace\\gis_data\\DEM_1to3"
  const RegionSlope: string := ElevationData + "\\StatewideElev.gdb"

  /** regionList, in its text order. */
  const RegionList: seq<RegionEntry> := [
    RegionEntry(ElevationData + "\\WV_central_region_northernPiece.shp", RegionSlope + "\\CentNorthSlope"),
    RegionEntry(ElevationData + "\\WV_central_region_southernPiece.shp", RegionSlope + "\\CentSouthSlope"),
    RegionEntry(ElevationData + "\\WV_east_region.shp", RegionSlope + "\\EastSlope"),
    RegionEntry(ElevationData + "\\WV_south_region_northern.shp", RegionSlope + "\\SouthNorthSlope"),
    RegionEntry(ElevationData + "\\WV_south_region_southern.shp", RegionSlope + "\\SouthSouthSlope")
  ]

  /** A region table the loop can walk: at least one entry, and every slope
      dataset named by a non-empty path (an empty `location` means "no match"). */
  predicate WellFormed(regions: seq<RegionEntry>)
  {
    |regions| > 0 && forall i :: 0 <= i < |regions| ==> regions[i].slope != ""
  }

  lemma RegionListWellFormed()
    ensures |RegionList| == 5 && WellFormed(RegionList)
  {
    forall i | 0 <= i < |RegionList| ensures RegionList[i].slope != "" {
      assert |RegionList[i].slope| > |RegionSlope|;
    }
  }

  /** Position of the first non-zero count, if any. */
  function FirstMatch(counts: seq<nat>): (r: Option<nat>)
    ensures r.Some? ==> r.value < |counts| && counts[r.value] != 0
    ensures r.Some? ==> forall j :: 0 <= j < r.value ==> counts[j] == 0
    ensures r.None? <==> forall j :: 0 <= j < |counts| ==> counts[j] == 0
  {
    if counts == [] then None
    else if counts[0] != 0 then Some(0)
    else
      match FirstMatch(counts[1..])
      case None => None
      case Some(k) => Some(k + 1)
  }

  /** The slope raster the clip step uses once the region loop is over: the
      matched region's, or, with no match, the loop variable's last value. */
  function ResolvedSlope(regions: seq<RegionEntry>, counts: seq<nat>): (s: string)
    requires WellFormed(regions) && |counts| == |regions|
    ensures s != "" && exists i :: 0 <= i < |regions| && s == regions[i].slope
    ensures FirstMatch(counts).Some? ==> s == regions[FirstMatch(counts).value].slope
    ensures FirstMatch(counts).None? ==> s == regions[|regions| - 1].slope
  {
    match FirstMatch(counts)
    case Some(i) => regions[i].slope
    case None => regions[|regions| - 1].slope
  }

  /** The region loop. `tested` counts the spatial joins performed (the
      `loops` counter); `unmatchedNotes` counts visits to the branch that
      reports that no region matched. */
  method ResolveRegion(regions: seq<RegionEntry>, counts: seq<nat>)
    returns (location: string, slope: string, tested: nat, unmatchedNotes: nat)
    requires WellFormed(regions) && |counts| == |regions|
    ensures slope == ResolvedSlope(regions, counts)
    ensures FirstMatch(counts).Some? ==>
      var i := FirstMatch(counts).value;
      location == regions[i].slope && tested == i + 1 && unmatchedNotes == 0
    ensures FirstMatch(counts).None? ==>
      location == "" && tested == |regions| && unmatchedNotes == 1
  {
    location, slope, tested, unmatchedNotes := "", "", 0, 0;
    var i := 0;
    while i < |regions|
      invariant 0 <= i <= |regions| && tested == i
      invariant location == ""
      invariant forall j :: 0 <= j < i ==> counts[j] == 0
      invariant i > 0 ==> slope == regions[i - 1].slope
      invariant unmatchedNotes == if i == |regions| then 1 else 0
    {
      slope := regions[i].slope;
      tested := tested + 1;
      if counts[i] != 0 {
        location := slope;
      }
      if location != "" {
        break;
      } else if location == "" && tested == |regions| {
        unmatchedNotes := unmatchedNotes + 1;
      }
      i := i + 1;
    }
  }

  /** Later regions are never consulted: once region i matches, changing the
      counts reported after it changes nothing. */
  lemma {:induction false} LaterRegionsIgnored(counts: seq<nat>, counts': seq<nat>, i: nat)
    requires i < |counts| == |counts'| && counts[..i + 1] == counts'[..i + 1]
    requires counts[i] != 0 && forall j :: 0 <= j < i ==> counts[j] == 0
    ensures FirstMatch(counts) == FirstMatch(counts') == Some(i)
  {
    if i > 0 {
      assert counts[0] == counts'[0] == 0;
      assert counts[1..][..i] == counts[..i + 1][1..];
      assert counts'[1..][..i] == counts'[..i + 1][1..];
      LaterRegionsIgnored(counts[1..], counts'[1..], i - 1);
    }
  }
}
