/** Distance to transmission lines. For each of the six line datasets, in
    enumeration order, the zonal minimum of the distance raster over the
    parcel is read and converted to miles. The first failure sets all six
    categories to the sentinel, including those already computed, and no
    further category is attempted. What each zonal-statistics read yields,
    or that it failed, is the input. */
module Transmission {
  import opened Common

  /** The six voltage categories, keys of transmissionDistances. */
  datatype Category = UnknownKV | Under100KV | KV100to161 | KV345 | KV500 | KV735AndUp

  /** The keys of transmissionDistances, in the order its reset loop visits them. */
  const Categories: seq<Category> := [UnknownKV, Under100KV, KV100to161, KV345, KV500, KV735AndUp]

  /** The reset order lists every category. */
  lemma CategoriesListed()
    ensures forall c: Category :: c in Categories
  {
    forall c: Category ensures c in Categories {
      match c
      case UnknownKV => assert Categories[0] == c;
      case Under100KV => assert Categories[1] == c;
      case KV100to161 => assert Categories[2] == c;
      case KV345 => assert Categories[3] == c;
      case KV500 => assert Categories[4] == c;
      case KV735AndUp => assert Categories[5] == c;
    }
  }

  /** One entry of the transmission table: a distance raster and its category. */
  datatype TransLine = TransLine(dataset: string, category: Category)

  const LineData: string := "D:\\workspace\\solarSiteAnalysis\\RESOURCES\\TransmissionLinesWV.gdb"

  /** The transmission table, in its text order. */
  const TransmissionTable: seq<TransLine> := [
    TransLine(LineData + "\\TransDist_Under100KV", Under100KV),
    TransLine(LineData + "\\TransDist_UnknownKV", UnknownKV),
    TransLine(LineData + "\\TransDist_735kvAndUp", KV735AndUp),
    TransLine(LineData + "\\TransDist_500kv", KV500),
    TransLine(LineData + "\\TransDist_345kv_2", KV345),
    TransLine(LineData + "\\TransDist_100to161kv", KV100to161)
  ]

  /** Outcome of one category: the MIN values of the rows read, or a failure,
      recording whether the result cursor had been bound before it. */
  datatype ZonalRead = Minimums(mins: seq<real>) | ZonalFailed(cursorOpened: bool)

  /** The distances after the loop, and whether the cursor variable is bound. */
  datatype TransResult = TransResult(distances: map<Category, real>, cursorBound: bool)

  predicate Complete(d: map<Category, real>)
  {
    forall c: Category :: c in d
  }

  /** Each category appears at most once in the table. */
  predicate DistinctCategories(lines: seq<TransLine>)
  {
    forall i, j :: 0 <= i < j < |lines| ==> lines[i].category != lines[j].category
  }

  lemma TransmissionTableShape()
    ensures |TransmissionTable| == 6 && DistinctCategories(TransmissionTable)
  {
  }

  /** Every category has its line dataset in the table. */
  function TableIndex(c: Category): (i: nat)
    ensures i < |TransmissionTable| && TransmissionTable[i].category == c
  {
    match c
    case Under100KV => 0
    case UnknownKV => 1
    case KV735AndUp => 2
    case KV500 => 3
    case KV345 => 4
    case KV100to161 => 5
  }

  /** Every category reset to the sentinel. */
  function AllSentinel(d: map<Category, real>): map<Category, real>
  {
    map c | c in d :: Sentinel
  }

  /** The value a category holds after the inner row loop. */
  function LastMinimum(prev: real, mins: seq<real>): (m: real)
    ensures mins == [] ==> m == prev
    ensures mins != [] ==> exists k :: 0 <= k < |mins| && m == mins[k] * MilesPerMeter
  {
    if mins == [] then prev else mins[|mins| - 1] * MilesPerMeter
  }

  /** Reading the rows in two stretches stores what reading them at once does. */
  lemma LastMinimumConcat(prev: real, a: seq<real>, b: seq<real>)
    ensures LastMinimum(LastMinimum(prev, a), b) == LastMinimum(prev, a + b)
  {
    if b == [] {
      assert a + b == a;
    } else {
      assert (a + b)[|a + b| - 1] == b[|b| - 1];
    }
  }

  /** The transmission loop, from the current dictionary and cursor state. */
  function TransPass(d: map<Category, real>, lines: seq<TransLine>, zonal: seq<ZonalRead>, bound: bool)
    : (r: TransResult)
    requires Complete(d) && |lines| == |zonal|
    ensures Complete(r.distances)
    ensures bound ==> r.cursorBound
    ensures lines != [] && zonal[0].Minimums? ==> r.cursorBound
    decreases |lines|
  {
    if lines == [] then TransResult(d, bound)
    else
      match zonal[0]
      case ZonalFailed(wasOpened) => TransResult(AllSentinel(d), bound || wasOpened)
      case Minimums(mins) =>
        var c := lines[0].category;
        TransPass(d[c := LastMinimum(d[c], mins)], lines[1..], zonal[1..], true)
  }

  /** The inner `for line in read` loop of one category. */
  method ReadMinimum(prev: real, mins: seq<real>) returns (v: real)
    ensures v == LastMinimum(prev, mins)
  {
    v := prev;
    for i := 0 to |mins|
      invariant v == LastMinimum(prev, mins[..i])
    {
      v := mins[i] * MilesPerMeter;
    }
    assert mins[..|mins|] == mins;
  }

  /** Any failure leaves every category at the sentinel. */
  lemma {:induction false} FailureResetsAll(d: map<Category, real>, lines: seq<TransLine>,
                                            zonal: seq<ZonalRead>, bound: bool, i: nat)
    requires Complete(d) && |lines| == |zonal|
    requires i < |zonal| && zonal[i].ZonalFailed?
    ensures forall c: Category :: TransPass(d, lines, zonal, bound).distances[c] == Sentinel
  {
    if !zonal[0].ZonalFailed? {
      var c := lines[0].category;
      FailureResetsAll(d[c := LastMinimum(d[c], zonal[0].mins)], lines[1..], zonal[1..], true, i - 1);
    }
  }

  /** Categories after the first failure are never attempted: what their
      reads would have yielded does not matter. */
  lemma {:induction false} LaterCategoriesIgnored(d: map<Category, real>, lines: seq<TransLine>,
                                                  zonal: seq<ZonalRead>, zonal': seq<ZonalRead>,
                                                  bound: bool, i: nat)
    requires Complete(d) && |lines| == |zonal| == |zonal'|
    requires i < |zonal| && zonal[i].ZonalFailed? && zonal[..i + 1] == zonal'[..i + 1]
    ensures TransPass(d, lines, zonal, bound) == TransPass(d, lines, zonal', bound)
  {
    assert zonal[0] == zonal'[0];
    if !zonal[0].ZonalFailed? {
      assert zonal[1..][..i] == zonal[..i + 1][1..];
      assert zonal'[1..][..i] == zonal'[..i + 1][1..];
      var c := lines[0].category;
      LaterCategoriesIgnored(d[c := LastMinimum(d[c], zonal[0].mins)], lines[1..],
                             zonal[1..], zonal'[1..], true, i - 1);
    }
  }

  /** With no failure, each category of the table holds its last minimum in
      miles (or its previous value if no row was read), the others keep
      their values, and the cursor variable is bound if any category ran. */
  lemma {:induction false} SuccessfulPass(d: map<Category, real>, lines: seq<TransLine>,
                                          zonal: seq<ZonalRead>, bound: bool)
    requires Complete(d) && |lines| == |zonal| && DistinctCategories(lines)
    requires forall i :: 0 <= i < |zonal| ==> zonal[i].Minimums?
    ensures forall i :: 0 <= i < |lines| ==>
      TransPass(d, lines, zonal, bound).distances[lines[i].category]
        == LastMinimum(d[lines[i].category], zonal[i].mins)
    ensures forall c: Category :: (forall i :: 0 <= i < |lines| ==> lines[i].category != c) ==>
      TransPass(d, lines, zonal, bound).distances[c] == d[c]
    ensures TransPass(d, lines, zonal, bound).cursorBound == (bound || |lines| > 0)
  {
    if lines != [] {
      var c := lines[0].category;
      var d' := d[c := LastMinimum(d[c], zonal[0].mins)];
      SuccessfulPass(d', lines[1..], zonal[1..], true);
      var r := TransPass(d, lines, zonal, bound);
      assert r == TransPass(d', lines[1..], zonal[1..], true);
      forall i | 0 <= i < |lines|
        ensures r.distances[lines[i].category] == LastMinimum(d[lines[i].category], zonal[i].mins)
      {
        if i > 0 {
          assert lines[1..][i - 1] == lines[i] && lines[i].category != c;
        } else {
          assert forall k :: 0 <= k < |lines| - 1 ==> lines[1..][k].category != c;
        }
      }
      forall e: Category | forall i :: 0 <= i < |lines| ==> lines[i].category != e
        ensures r.distances[e] == d[e]
      {
        assert forall k :: 0 <= k < |lines| - 1 ==> lines[1..][k] == lines[k + 1];
      }
    }
  }

  /** Every zonal read reports at least one minimum. */
  predicate AllMinimumsRead(zonal: seq<ZonalRead>)
  {
    forall i :: 0 <= i < |zonal| ==> zonal[i].Minimums? && zonal[i].mins != []
  }

  /** The distance in miles a category takes from its last zonal minimum. */
  function LastDistance(zonal: seq<ZonalRead>, c: Category): real
    requires |zonal| == |TransmissionTable| && AllMinimumsRead(zonal)
  {
    var mins := zonal[TableIndex(c)].mins;
    mins[|mins| - 1] * MilesPerMeter
  }

  /** When every category reads at least one minimum, the pass binds its
      cursor and overwrites all six distances, so none of the previous
      parcel's values survives. */
  lemma EveryDistanceOverwritten(d: map<Category, real>, zonal: seq<ZonalRead>)
    requires Complete(d) && |zonal| == |TransmissionTable| && AllMinimumsRead(zonal)
    ensures TransPass(d, TransmissionTable, zonal, false).cursorBound
    ensures forall c: Category ::
      TransPass(d, TransmissionTable, zonal, false).distances[c] == LastDistance(zonal, c)
  {
    TransmissionTableShape();
    SuccessfulPass(d, TransmissionTable, zonal, false);
  }

  /** The cursor variable ends the loop unbound exactly when the first
      category attempted failed before its cursor was opened. */
  lemma CursorBoundUnlessFirstFails(d: map<Category, real>, lines: seq<TransLine>,
                                    zonal: seq<ZonalRead>)
    requires Complete(d) && |lines| == |zonal| > 0
    ensures !TransPass(d, lines, zonal, false).cursorBound <==> zonal[0] == ZonalFailed(false)
  {
  }
}
