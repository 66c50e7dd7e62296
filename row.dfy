/** The output record of one parcel and the per-parcel values that go into
    it besides the tallies: the mine-permit flag and the county name. */
module Row {
  import opened Common
  import opened SlopeClass
  import Tabulate
  import Transmission

  /** One row of the output table, in the column order of the template. */
  datatype Record = Record(
    index: nat,
    siteGroup: string,
    sourceFID: int,
    area: real,
    flatGoodLULC: real,
    unknownKV: real,
    under100KV: real,
    kV100to161: real,
    kV345: real,
    kV500: real,
    kV735: real,
    allSlope0to5: real,
    allSlope5to10: real,
    allSlope10to15: real,
    allSlope15to20: real,
    allSlopeOver20: real,
    goodLULC0to5: real,
    goodLULC5to10: real,
    goodLULC10to15: real,
    goodLULC15to20: real,
    goodLULCOver20: real,
    minePermits: string,
    owner: string,
    county: string)

  /** The owner column; parcel owners are not available. */
  const Owner: string := "NA"

  /** The AllSlope column of a bucket. */
  function AllColumn(r: Record, b: Bucket): real
  {
    match b
    case Slope0to5 => r.allSlope0to5
    case Slope5to10 => r.allSlope5to10
    case Slope10to15 => r.allSlope10to15
    case Slope15to20 => r.allSlope15to20
    case SlopeOver20 => r.allSlopeOver20
  }

  /** The GoodLULC column of a bucket. */
  function GoodColumn(r: Record, b: Bucket): real
  {
    match b
    case Slope0to5 => r.goodLULC0to5
    case Slope5to10 => r.goodLULC5to10
    case Slope10to15 => r.goodLULC10to15
    case Slope15to20 => r.goodLULC15to20
    case SlopeOver20 => r.goodLULCOver20
  }

  /** The distance column of a category. */
  function DistanceColumn(r: Record, c: Transmission.Category): real
  {
    match c
    case UnknownKV => r.unknownKV
    case Under100KV => r.under100KV
    case KV100to161 => r.kV100to161
    case KV345 => r.kV345
    case KV500 => r.kV500
    case KV735AndUp => r.kV735
  }

  /** "yes" when the parcel intersects at least one mine permit, else "no". */
  function MineFlag(count: nat): (s: string)
    ensures s == "yes" <==> count > 0
    ensures s == "no" <==> count == 0
  {
    if count > 0 then "yes" else "no"
  }

  /** The county variable after the loop over the matched county rows: the
      last row's NAME, or, with no row, whatever it held before. */
  function CountyAfter(prev: Option<string>, names: seq<string>): (c: Option<string>)
    ensures c.None? <==> prev.None? && names == []
    ensures names != [] ==> c == Some(names[|names| - 1])
    ensures names == [] ==> c == prev
  {
    if names == [] then prev else Some(names[|names| - 1])
  }

  /** The county carried from one lookup into the next is what a single
      lookup over both stretches of names gives. */
  lemma CountyAfterConcat(prev: Option<string>, a: seq<string>, b: seq<string>)
    ensures CountyAfter(CountyAfter(prev, a), b) == CountyAfter(prev, a + b)
  {
    if b == [] {
      assert a + b == a;
    } else {
      assert (a + b)[|a + b| - 1] == b[|b| - 1];
    }
  }

  /** The row dictionary built at the end of a parcel. Each column holds the
      tally entry it names, and FlatGoodLULC is the good land under 10 percent. */
  function AssembleRow(index: nat, job: string, fid: int, area: real,
                       all: map<Bucket, real>, good: map<Bucket, real>,
                       dist: map<Transmission.Category, real>, mineCount: nat, county: string)
    : (r: Record)
    requires Tabulate.Complete(all) && Tabulate.Complete(good) && Transmission.Complete(dist)
    ensures r.index == index && r.siteGroup == job && r.sourceFID == fid && r.area == area
    ensures r.flatGoodLULC == r.goodLULC0to5 + r.goodLULC5to10
    ensures forall b: Bucket :: AllColumn(r, b) == all[b] && GoodColumn(r, b) == good[b]
    ensures forall c: Transmission.Category :: DistanceColumn(r, c) == dist[c]
    ensures (r.minePermits == "yes") == (mineCount > 0)
    ensures r.owner == Owner && r.county == county
  {
    Record(
      index, job, fid, area,
      good[Slope0to5] + good[Slope5to10],
      dist[Transmission.UnknownKV], dist[Transmission.Under100KV], dist[Transmission.KV100to161],
      dist[Transmission.KV345], dist[Transmission.KV500], dist[Transmission.KV735AndUp],
      all[Slope0to5], all[Slope5to10], all[Slope10to15], all[Slope15to20], all[SlopeOver20],
      good[Slope0to5], good[Slope5to10], good[Slope10to15], good[Slope15to20], good[SlopeOver20],
      MineFlag(mineCount), Owner, county)
  }
}
