/** The per-parcel driver. The tally dictionaries and the transmission
    distances are module-level and never reset, and the county name, the row
    counter and the output table live for the whole run, so all of them are
    fields of one profiler object that each parcel updates in place. The
    geoprocessing outcomes of a parcel are its observation. */
module Profiler {
  import opened Common
  import opened SlopeClass
  import Tabulate
  import Transmission
  import Region
  import opened Row

  /** What the geoprocessing tools report for one input feature. */
  datatype ParcelObs = ParcelObs(
    oid: int,                                       // OID@ of the feature
    area: real,                                     // geodesic area in acres
    countyNames: seq<string>,                       // NAME of each intersecting county row
    regionCounts: seq<nat>,                         // join count per region, in table order
    allReads: map<Bucket, Tabulate.FieldRead>,      // all-land tabulation, per bucket column
    goodReads: map<Bucket, Tabulate.FieldRead>,     // good-land tabulation, per bucket column
    zonal: seq<Transmission.ZonalRead>,             // zonal minimum per line dataset, in table order
    mineCount: nat)                                 // copies of the parcel that intersect a mine permit

  predicate WellFormedObs(p: ParcelObs)
  {
    && |p.regionCounts| == |Region.RegionList|
    && Tabulate.Complete(p.allReads) && Tabulate.Complete(p.goodReads)
    && |p.zonal| == |Transmission.TransmissionTable|
  }

  /** The state that outlives one parcel. `county` is None while the county
      variable has never been assigned. */
  datatype State = State(
    slopeAreasAll: map<Bucket, real>,
    slopeAreasGood: map<Bucket, real>,
    transmissionDistances: map<Transmission.Category, real>,
    county: Option<string>,
    featureNum: nat,
    rows: seq<Record>)

  /** What holds of every row ever written: FlatGoodLULC is the sum of the two
      flattest good-land columns, the mine flag is "yes" or "no", and the
      owner is not available. */
  predicate RowInvariant(r: Record)
  {
    && r.flatGoodLULC == r.goodLULC0to5 + r.goodLULC5to10
    && (r.minePermits == "yes" || r.minePermits == "no")
    && r.owner == Owner
  }

  /** Every dictionary has all its keys, the counter counts the rows, row k
      carries Index k, and every row keeps the row invariant. */
  predicate ValidState(s: State)
  {
    && Tabulate.Complete(s.slopeAreasAll) && Tabulate.Complete(s.slopeAreasGood)
    && Transmission.Complete(s.transmissionDistances)
    && s.featureNum == |s.rows|
    && forall k :: 0 <= k < |s.rows| ==> s.rows[k].index == k && RowInvariant(s.rows[k])
  }

  const ZeroAreas: map<Bucket, real> :=
    map[Slope0to5 := 0.0, Slope5to10 := 0.0, Slope10to15 := 0.0, Slope15to20 := 0.0, SlopeOver20 := 0.0]

  const ZeroDistances: map<Transmission.Category, real> :=
    map[Transmission.UnknownKV := 0.0, Transmission.Under100KV := 0.0, Transmission.KV100to161 := 0.0,
        Transmission.KV345 := 0.0, Transmission.KV500 := 0.0, Transmission.KV735AndUp := 0.0]

  /** The state when the run starts. */
  const Initial: State := State(ZeroAreas, ZeroAreas, ZeroDistances, None, 0, [])

  lemma InitialValid()
    ensures ValidState(Initial)
  {
    forall b: Bucket ensures b in ZeroAreas {
      match b
      case Slope0to5 => case Slope5to10 => case Slope10to15 => case Slope15to20 => case SlopeOver20 =>
    }
    forall c: Transmission.Category ensures c in ZeroDistances {
      match c
      case UnknownKV => case Under100KV => case KV100to161 => case KV345 => case KV500 => case KV735AndUp =>
    }
  }

  /** Where a parcel was abandoned: the clean-up after a pass whose cursor
      variable was never bound raises, and its handler continues with the
      next feature. */
  datatype Stage = AllLulcCleanup | GoodLulcCleanup | TransmissionCleanup

  /** Appended: a row was added. Skipped: the parcel ended early without a
      row. Aborted: the row could not be built because the county variable
      was never assigned, which ends the run. */
  datatype Status = Appended | Skipped(at: Stage) | Aborted

  /** The status and the slope raster that was clipped to the parcel. */
  datatype Outcome = Outcome(status: Status, clipSlope: string)

  datatype StepResult = StepResult(state: State, outcome: Outcome)

  /** The three passes that update the dictionaries, up to the first clean-up
      that finds its cursor variable unbound. */
  datatype PassResult = PassResult(state: State, skippedAt: Option<Stage>)

  function Passes(s: State, p: ParcelObs): (r: PassResult)
    requires ValidState(s) && WellFormedObs(p)
    ensures ValidState(r.state)
    ensures r.state.rows == s.rows && r.state.featureNum == s.featureNum && r.state.county == s.county
  {
    var all := Tabulate.BucketPass(s.slopeAreasAll, p.allReads, false);
    var s1 := s.(slopeAreasAll := all);
    if !Tabulate.PassOpened(p.allReads) then PassResult(s1, Some(AllLulcCleanup))
    else
      var good := Tabulate.BucketPass(s.slopeAreasGood, p.goodReads, true);
      var s2 := s1.(slopeAreasGood := good);
      if !Tabulate.PassOpened(p.goodReads) then PassResult(s2, Some(GoodLulcCleanup))
      else
        var t := Transmission.TransPass(s.transmissionDistances, Transmission.TransmissionTable, p.zonal, false);
        var s3 := s2.(transmissionDistances := t.distances);
        PassResult(s3, if t.cursorBound then None else Some(TransmissionCleanup))
  }

  /** One iteration of the feature loop. */
  function ParcelStep(s: State, p: ParcelObs, job: string): (r: StepResult)
    requires ValidState(s) && WellFormedObs(p)
    ensures ValidState(r.state)
    ensures r.outcome.status.Appended? ==>
      r.state.rows != [] && r.state.rows == s.rows + [LastRow(r.state)]
      && LastRow(r.state).sourceFID == p.oid && LastRow(r.state).siteGroup == job
    ensures !r.outcome.status.Appended? ==> r.state.rows == s.rows
  {
    Region.RegionListWellFormed();
    var s0 := s.(county := CountyAfter(s.county, p.countyNames));
    var slope := Region.ResolvedSlope(Region.RegionList, p.regionCounts);
    var passes := Passes(s0, p);
    if passes.skippedAt.Some? then
      StepResult(passes.state, Outcome(Skipped(passes.skippedAt.value), slope))
    else if passes.state.county.None? then
      StepResult(passes.state, Outcome(Aborted, slope))
    else
      StepResult(AppendRow(passes.state, p, job), Outcome(Appended, slope))
  }

  /** Row assembly and the append to the output table, from the state the
      three passes left. */
  function AppendRow(s: State, p: ParcelObs, job: string): (r: State)
    requires ValidState(s) && s.county.Some?
    ensures ValidState(r)
    ensures r.rows != [] && r.rows == s.rows + [LastRow(r)] && r.featureNum == s.featureNum + 1
    ensures LastRow(r).sourceFID == p.oid && LastRow(r).siteGroup == job
    ensures r.(rows := s.rows, featureNum := s.featureNum) == s
  {
    var row := AssembleRow(s.featureNum, job, p.oid, p.area, s.slopeAreasAll, s.slopeAreasGood,
                           s.transmissionDistances, p.mineCount, s.county.value);
    s.(featureNum := s.featureNum + 1, rows := s.rows + [row])
  }

  predicate AllWellFormed(ps: seq<ParcelObs>)
  {
    forall i :: 0 <= i < |ps| ==> WellFormedObs(ps[i])
  }

  /** The feature loop over the input features, in input order, up to the end
      or to the first parcel that aborts the run. */
  function Run(s: State, ps: seq<ParcelObs>, job: string): (r: State)
    requires ValidState(s) && AllWellFormed(ps)
    ensures ValidState(r)
    ensures s.rows <= r.rows && |r.rows| <= |s.rows| + |ps|
    decreases |ps|
  {
    if ps == [] then s
    else
      var step := ParcelStep(s, ps[0], job);
      if step.outcome.status.Aborted? then step.state
      else
        var r := Run(step.state, ps[1..], job);
        PrefixTransitive(s.rows, step.state.rows, r.rows);
        r
  }

  lemma PrefixTransitive(a: seq<Record>, b: seq<Record>, c: seq<Record>)
    requires a <= b && b <= c
    ensures a <= c
  {
    assert c[..|a|] == b[..|a|];
  }

  /** The last row of a table. */
  function LastRow(s: State): Record
    requires s.rows != []
  {
    s.rows[|s.rows| - 1]
  }

  /** A transmission failure on the first category attempted, before its
      cursor is opened, drops the parcel: no row and no new Index, while all
      six distances are left at the sentinel for the next parcel. */
  lemma FirstTransmissionFailureDropsParcel(s: State, p: ParcelObs, job: string)
    requires ValidState(s) && WellFormedObs(p)
    requires Tabulate.PassOpened(p.allReads) && Tabulate.PassOpened(p.goodReads)
    requires p.zonal[0] == Transmission.ZonalFailed(false)
    ensures ParcelStep(s, p, job).outcome.status == Skipped(TransmissionCleanup)
    ensures ParcelStep(s, p, job).state.rows == s.rows
    ensures ParcelStep(s, p, job).state.featureNum == s.featureNum
    ensures forall c: Transmission.Category ::
      ParcelStep(s, p, job).state.transmissionDistances[c] == Sentinel
  {
    Transmission.CursorBoundUnlessFirstFails(s.transmissionDistances, Transmission.TransmissionTable, p.zonal);
    Transmission.FailureResetsAll(s.transmissionDistances, Transmission.TransmissionTable, p.zonal, false, 0);
  }

  /** When a row is written after a transmission failure, all six of its
      distance columns hold the sentinel. */
  lemma TransmissionFailureRow(s: State, p: ParcelObs, job: string, i: nat)
    requires ValidState(s) && WellFormedObs(p)
    requires i < |p.zonal| && p.zonal[i].ZonalFailed?
    requires ParcelStep(s, p, job).outcome.status.Appended?
    ensures forall c: Transmission.Category ::
      DistanceColumn(LastRow(ParcelStep(s, p, job).state), c) == Sentinel
  {
    Transmission.FailureResetsAll(s.transmissionDistances, Transmission.TransmissionTable, p.zonal, false, i);
  }

  /** When every category succeeds, each distance column holds its category's
      last zonal minimum in miles, or the previous parcel's value if no row
      was read. */
  lemma SuccessfulTransmissionRow(s: State, p: ParcelObs, job: string)
    requires ValidState(s) && WellFormedObs(p)
    requires forall i :: 0 <= i < |p.zonal| ==> p.zonal[i].Minimums?
    requires ParcelStep(s, p, job).outcome.status.Appended?
    ensures forall c: Transmission.Category ::
      DistanceColumn(LastRow(ParcelStep(s, p, job).state), c)
        == Transmission.LastMinimum(s.transmissionDistances[c], p.zonal[Transmission.TableIndex(c)].mins)
  {
    Transmission.TransmissionTableShape();
    Transmission.SuccessfulPass(s.transmissionDistances, Transmission.TransmissionTable, p.zonal, false);
  }

  /** The three passes of a parcel all of whose reads succeed: none is
      skipped, and every dictionary entry is overwritten from this parcel. */
  lemma CompletePasses(s: State, p: ParcelObs)
    requires ValidState(s) && WellFormedObs(p)
    requires Tabulate.AllColumnsRead(p.allReads, false) && Tabulate.AllColumnsRead(p.goodReads, true)
    requires Transmission.AllMinimumsRead(p.zonal)
    ensures Passes(s, p).skippedAt.None?
    ensures forall b: Bucket :: Passes(s, p).state.slopeAreasAll[b] == Tabulate.LastArea(p.allReads[b].rows, false)
    ensures forall b: Bucket :: Passes(s, p).state.slopeAreasGood[b] == Tabulate.LastArea(p.goodReads[b].rows, true)
    ensures forall c: Transmission.Category ::
      Passes(s, p).state.transmissionDistances[c] == Transmission.LastDistance(p.zonal, c)
  {
    Tabulate.EveryBucketOverwritten(s.slopeAreasAll, p.allReads, false);
    Tabulate.EveryBucketOverwritten(s.slopeAreasGood, p.goodReads, true);
    Transmission.EveryDistanceOverwritten(s.transmissionDistances, p.zonal);
  }

  /** Every tally and distance column of `row` is the one the reads of `p`
      alone determine. */
  predicate ColumnsFromParcel(row: Record, p: ParcelObs)
    requires WellFormedObs(p)
    requires Tabulate.AllColumnsRead(p.allReads, false) && Tabulate.AllColumnsRead(p.goodReads, true)
    requires Transmission.AllMinimumsRead(p.zonal)
  {
    && (forall b: Bucket :: AllColumn(row, b) == Tabulate.LastArea(p.allReads[b].rows, false))
    && (forall b: Bucket :: GoodColumn(row, b) == Tabulate.LastArea(p.goodReads[b].rows, true))
    && (forall c: Transmission.Category :: DistanceColumn(row, c) == Transmission.LastDistance(p.zonal, c))
  }

  /** The fully successful parcel: every column read admits a row, every
      category reads a minimum and a county is found. Then a row is written,
      and every column comes from this parcel's own reads, whatever earlier
      parcels left in the dictionaries. */
  lemma CompleteReadsRow(s: State, p: ParcelObs, job: string)
    requires ValidState(s) && WellFormedObs(p) && p.countyNames != []
    requires Tabulate.AllColumnsRead(p.allReads, false) && Tabulate.AllColumnsRead(p.goodReads, true)
    requires Transmission.AllMinimumsRead(p.zonal)
    ensures ParcelStep(s, p, job).outcome.status.Appended?
    ensures ParcelStep(s, p, job).state.rows != []
    ensures ColumnsFromParcel(LastRow(ParcelStep(s, p, job).state), p)
    ensures LastRow(ParcelStep(s, p, job).state).county == p.countyNames[|p.countyNames| - 1]
  {
    CompletePasses(s.(county := CountyAfter(s.county, p.countyNames)), p);
  }

  /** A failed column read puts the sentinel in its own column only: the
      sibling columns are those the row would have had if that read had
      yielded `alt` instead. */
  lemma FieldFailureRow(s: State, p: ParcelObs, job: string, b: Bucket, alt: Tabulate.FieldRead)
    requires ValidState(s) && WellFormedObs(p) && p.allReads[b].Failed?
    requires ParcelStep(s, p, job).outcome.status.Appended?
    requires ParcelStep(s, p.(allReads := p.allReads[b := alt]), job).outcome.status.Appended?
    ensures AllColumn(LastRow(ParcelStep(s, p, job).state), b) == Sentinel
    ensures forall b' :: b' != b ==>
      AllColumn(LastRow(ParcelStep(s, p, job).state), b')
        == AllColumn(LastRow(ParcelStep(s, p.(allReads := p.allReads[b := alt]), job).state), b')
  {
    Tabulate.FailureIsolated(s.slopeAreasAll, p.allReads, false, b, alt);
  }

  /** A good-land column that yields no zone-1 row repeats the previous
      parcel's value in the new row. */
  lemma StaleGoodAreaCarried(s: State, p: ParcelObs, job: string, b: Bucket)
    requires ValidState(s) && WellFormedObs(p)
    requires p.goodReads[b].Column? && Tabulate.Selected(p.goodReads[b].rows, true) == []
    requires ParcelStep(s, p, job).outcome.status.Appended?
    ensures GoodColumn(LastRow(ParcelStep(s, p, job).state), b) == s.slopeAreasGood[b]
  {
    Tabulate.NoRowsKeepsPrevious(s.slopeAreasGood[b], p.goodReads[b].rows, true);
  }

  /** The first parcel of a run that meets no county aborts the run at row
      assembly, unless it was skipped before reaching it. */
  lemma FirstParcelWithoutCountyAborts(p: ParcelObs, job: string)
    requires WellFormedObs(p) && p.countyNames == []
    ensures ValidState(Initial)
    ensures !ParcelStep(Initial, p, job).outcome.status.Appended?
    ensures Run(Initial, [p], job).rows == []
  {
    InitialValid();
  }

  /** A first parcel that meets no county but passes all three clean-ups
      ends the run at row assembly: whatever features follow, the output
      table stays empty. */
  lemma AbortEndsRun(p: ParcelObs, rest: seq<ParcelObs>, job: string)
    requires WellFormedObs(p) && AllWellFormed(rest) && p.countyNames == []
    requires Tabulate.PassOpened(p.allReads) && Tabulate.PassOpened(p.goodReads)
    requires p.zonal[0] != Transmission.ZonalFailed(false)
    ensures ValidState(Initial) && AllWellFormed([p] + rest)
    ensures ParcelStep(Initial, p, job).outcome.status == Aborted
    ensures Run(Initial, [p] + rest, job).rows == []
  {
    InitialValid();
    Transmission.CursorBoundUnlessFirstFails(ZeroDistances, Transmission.TransmissionTable, p.zonal);
    assert ([p] + rest)[0] == p;
  }

  /** A later parcel that meets no county is written with the previous
      parcel's county; with several, the last one read wins. */
  lemma CountyOfRow(s: State, p: ParcelObs, job: string)
    requires ValidState(s) && WellFormedObs(p)
    requires ParcelStep(s, p, job).outcome.status.Appended?
    ensures p.countyNames == [] ==> s.county.Some? && LastRow(ParcelStep(s, p, job).state).county == s.county.value
    ensures p.countyNames != [] ==> LastRow(ParcelStep(s, p, job).state).county == p.countyNames[|p.countyNames| - 1]
  {
  }

  /** The slope raster clipped for a parcel is the first matching region's;
      with no match, the last region's in enumeration order. */
  lemma ClippedSlope(s: State, p: ParcelObs, job: string)
    requires ValidState(s) && WellFormedObs(p)
    ensures Region.FirstMatch(p.regionCounts).Some? ==>
      ParcelStep(s, p, job).outcome.clipSlope == Region.RegionList[Region.FirstMatch(p.regionCounts).value].slope
    ensures Region.FirstMatch(p.regionCounts).None? ==>
      ParcelStep(s, p, job).outcome.clipSlope == Region.RegionList[4].slope
  {
    Region.RegionListWellFormed();
  }

  /** `a` is a subsequence of `b`. */
  predicate Subsequence(a: seq<int>, b: seq<int>)
    decreases |b|
  {
    a == [] || (b != [] && ((a[0] == b[0] && Subsequence(a[1..], b[1..])) || Subsequence(a, b[1..])))
  }

  function SourceIds(rows: seq<Record>): (ids: seq<int>)
    ensures |ids| == |rows| && forall k :: 0 <= k < |rows| ==> ids[k] == rows[k].sourceFID
  {
    seq(|rows|, k requires 0 <= k < |rows| => rows[k].sourceFID)
  }

  function Oids(ps: seq<ParcelObs>): (ids: seq<int>)
    ensures |ids| == |ps| && forall k :: 0 <= k < |ps| ==> ids[k] == ps[k].oid
  {
    seq(|ps|, k requires 0 <= k < |ps| => ps[k].oid)
  }

  /** One step of the order argument, on sequences alone: a step that adds
      nothing, or adds one row for the first feature, keeps the added rows a
      subsequence of the features. */
  lemma ExtendSubsequence(before: seq<Record>, mid: seq<Record>, after: seq<Record>, ids: seq<int>)
    requires ids != [] && before <= mid <= after
    requires mid == before || (|mid| == |before| + 1 && mid[|before|].sourceFID == ids[0])
    requires Subsequence(SourceIds(after[|mid|..]), ids[1..])
    ensures Subsequence(SourceIds(after[|before|..]), ids)
  {
    var rest := SourceIds(after[|mid|..]);
    if mid == before {
      assert SourceIds(after[|before|..]) == rest;
    } else {
      assert after[|before|..] == [mid[|before|]] + after[|mid|..];
      assert SourceIds(after[|before|..]) == [ids[0]] + rest;
    }
  }

  /** The rows a run appends come from its input features, one per feature
      at most, in input order. */
  lemma {:induction false} RowsFollowInputOrder(s: State, ps: seq<ParcelObs>, job: string)
    requires ValidState(s) && AllWellFormed(ps)
    ensures Subsequence(SourceIds(Run(s, ps, job).rows[|s.rows|..]), Oids(ps))
    decreases |ps|
  {
    if ps != [] {
      var step := ParcelStep(s, ps[0], job);
      var mid := step.state;
      assert Oids(ps)[1..] == Oids(ps[1..]);
      if step.outcome.status.Aborted? {
        assert Run(s, ps, job) == mid && mid.rows == s.rows;
        assert mid.rows[|s.rows|..] == [];
      } else {
        var r := Run(mid, ps[1..], job);
        assert Run(s, ps, job) == r;
        RowsFollowInputOrder(mid, ps[1..], job);
        ExtendSubsequence(s.rows, mid.rows, r.rows, Oids(ps));
      }
    }
  }

  /** Row k of the output table carries Index k, and every row keeps the row
      invariant. */
  lemma OutputTableRows(ps: seq<ParcelObs>, job: string)
    requires AllWellFormed(ps)
    ensures ValidState(Initial)
    ensures forall k :: 0 <= k < |Run(Initial, ps, job).rows| ==>
      Run(Initial, ps, job).rows[k].index == k && RowInvariant(Run(Initial, ps, job).rows[k])
  {
    InitialValid();
  }

  /** The profiler object: the module-level dictionaries, and the county
      variable, row counter and output table of the feature loop. */
  class SiteProfiler {
    var slopeAreasAll: map<Bucket, real>
    var slopeAreasGood: map<Bucket, real>
    var transmissionDistances: map<Transmission.Category, real>
    var county: Option<string>
    var featureNum: nat
    var outputRows: seq<Record>
    const jobName: string

    function Snapshot(): State
      reads this
    {
      State(slopeAreasAll, slopeAreasGood, transmissionDistances, county, featureNum, outputRows)
    }

    ghost predicate Valid()
      reads this
    {
      ValidState(Snapshot())
    }

    constructor (job: string)
      ensures Valid() && Snapshot() == Initial && jobName == job
    {
      slopeAreasAll, slopeAreasGood := ZeroAreas, ZeroAreas;
      transmissionDistances := ZeroDistances;
      county, featureNum, outputRows := None, 0, [];
      jobName := job;
      InitialValid();
    }

    /** The county lookup loop: every intersecting county row overwrites the name. */
    method LookupCounty(names: seq<string>)
      modifies this`county
      ensures county == CountyAfter(old(county), names)
    {
      for i := 0 to |names|
        invariant county == CountyAfter(old(county), names[..i])
      {
        county := Some(names[i]);
      }
      assert names[..|names|] == names;
    }

    /** The all-land tabulation loop (one cursor per bucket column). */
    method TabulateAllLulc(fieldReads: map<Bucket, Tabulate.FieldRead>) returns (cursorBound: bool)
      requires Tabulate.Complete(slopeAreasAll) && Tabulate.Complete(fieldReads)
      modifies this`slopeAreasAll
      ensures slopeAreasAll == Tabulate.BucketPass(old(slopeAreasAll), fieldReads, false)
      ensures cursorBound == Tabulate.PassOpened(fieldReads)
    {
      slopeAreasAll, cursorBound := Tabulate.TabulatePass(slopeAreasAll, fieldReads, false);
    }

    /** The good-land tabulation loop: each cursor admits zone 1 only. */
    method TabulateGoodLulc(fieldReads: map<Bucket, Tabulate.FieldRead>) returns (cursorBound: bool)
      requires Tabulate.Complete(slopeAreasGood) && Tabulate.Complete(fieldReads)
      modifies this`slopeAreasGood
      ensures slopeAreasGood == Tabulate.BucketPass(old(slopeAreasGood), fieldReads, true)
      ensures cursorBound == Tabulate.PassOpened(fieldReads)
    {
      slopeAreasGood, cursorBound := Tabulate.TabulatePass(slopeAreasGood, fieldReads, true);
    }

    /** The reset loop of the transmission handler. */
    method ResetDistances()
      requires Transmission.Complete(transmissionDistances)
      modifies this`transmissionDistances
      ensures transmissionDistances == Transmission.AllSentinel(old(transmissionDistances))
    {
      var cats := Transmission.Categories;
      for i := 0 to |cats|
        invariant Transmission.Complete(transmissionDistances)
        invariant forall c: Transmission.Category ::
          transmissionDistances[c] == if c in cats[..i] then Sentinel else old(transmissionDistances)[c]
      {
        assert cats[..i + 1] == cats[..i] + [cats[i]];
        transmissionDistances := transmissionDistances[cats[i] := Sentinel];
      }
      Transmission.CategoriesListed();
      assert cats[..|cats|] == cats;
    }

    /** The transmission loop: fail-all on the first failure. */
    method EstimateTransmission(zonal: seq<Transmission.ZonalRead>) returns (cursorBound: bool)
      requires Transmission.Complete(transmissionDistances)
      requires |zonal| == |Transmission.TransmissionTable|
      modifies this`transmissionDistances
      ensures Transmission.TransResult(transmissionDistances, cursorBound)
        == Transmission.TransPass(old(transmissionDistances), Transmission.TransmissionTable, zonal, false)
    {
      var lines := Transmission.TransmissionTable;
      cursorBound := false;
      var i := 0;
      while i < |lines|
        invariant 0 <= i <= |lines| && Transmission.Complete(transmissionDistances)
        invariant Transmission.TransPass(transmissionDistances, lines[i..], zonal[i..], cursorBound)
          == Transmission.TransPass(old(transmissionDistances), lines, zonal, false)
      {
        assert lines[i..][1..] == lines[i + 1..] && zonal[i..][1..] == zonal[i + 1..];
        match zonal[i]
        case ZonalFailed(wasOpened) =>
          cursorBound := cursorBound || wasOpened;
          ResetDistances();
          break;
        case Minimums(mins) =>
          var c := lines[i].category;
          var v := Transmission.ReadMinimum(transmissionDistances[c], mins);
          transmissionDistances := transmissionDistances[c := v];
          cursorBound := true;
          i := i + 1;
      }
    }

    /** The three dictionary passes of one parcel. */
    method RunPasses(p: ParcelObs) returns (skippedAt: Option<Stage>)
      requires Valid() && WellFormedObs(p)
      modifies this`slopeAreasAll, this`slopeAreasGood, this`transmissionDistances
      ensures Valid()
      ensures PassResult(Snapshot(), skippedAt) == Passes(old(Snapshot()), p)
    {
      ghost var expected := Passes(Snapshot(), p);
      var bound := TabulateAllLulc(p.allReads);
      if !bound {
        assert Snapshot() == expected.state;
        return Some(AllLulcCleanup);
      }
      bound := TabulateGoodLulc(p.goodReads);
      if !bound {
        assert Snapshot() == expected.state;
        return Some(GoodLulcCleanup);
      }
      bound := EstimateTransmission(p.zonal);
      skippedAt := if bound then None else Some(TransmissionCleanup);
      assert Snapshot() == expected.state;
    }

    /** One iteration of the feature loop. */
    method ProcessParcel(p: ParcelObs) returns (o: Outcome)
      requires Valid() && WellFormedObs(p)
      modifies this
      ensures Valid()
      ensures StepResult(Snapshot(), o) == ParcelStep(old(Snapshot()), p, jobName)
    {
      LookupCounty(p.countyNames);
      Region.RegionListWellFormed();
      var location, slope, tested, notes := Region.ResolveRegion(Region.RegionList, p.regionCounts);
      var skippedAt := RunPasses(p);
      if skippedAt.Some? {
        return Outcome(Skipped(skippedAt.value), slope);
      }
      if county.None? {
        return Outcome(Aborted, slope);
      }
      WriteRow(p);
      o := Outcome(Appended, slope);
    }

    /** Row assembly, the append to the output table and the counter increment. */
    method WriteRow(p: ParcelObs)
      requires Valid() && county.Some?
      modifies this`outputRows, this`featureNum
      ensures Valid()
      ensures Snapshot() == AppendRow(old(Snapshot()), p, jobName)
    {
      var row := AssembleRow(featureNum, jobName, p.oid, p.area, slopeAreasAll, slopeAreasGood,
                             transmissionDistances, p.mineCount, county.value);
      outputRows := outputRows + [row];
      featureNum := featureNum + 1;
    }

    /** The feature loop over the whole input, stopping if a parcel aborts. */
    method Analyze(parcels: seq<ParcelObs>)
      requires Valid() && AllWellFormed(parcels)
      modifies this
      ensures Valid()
      ensures Snapshot() == Run(old(Snapshot()), parcels, jobName)
    {
      var i := 0;
      while i < |parcels|
        invariant 0 <= i <= |parcels| && Valid()
        invariant Run(Snapshot(), parcels[i..], jobName) == Run(old(Snapshot()), parcels, jobName)
      {
        assert parcels[i..][1..] == parcels[i + 1..];
        var o := ProcessParcel(parcels[i]);
        if o.status.Aborted? {
          return;
        }
        i := i + 1;
      }
    }
  }
}
