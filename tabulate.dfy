/** The two area-tabulation passes. For each slope bucket the pass opens a
    cursor on that bucket's column of the tabulation table and stores, for
    every row it reads, the row's area converted to acres; a failed read
    stores the sentinel for that bucket alone. The all-land pass reads every
    row; the good-land pass reads only rows whose zone is 1 ("good for
    solar"). What each cursor yields, or that it failed, is the input. */
module Tabulate {
  import opened Common
  import opened SlopeClass

  /** One row of a tabulation table, seen through one area column: the zone
      value (field VALUE) and the area in square metres. */
  datatype ZoneRow = ZoneRow(zone: int, area: real)

  /** Outcome of reading one bucket's column: the rows the cursor yielded,
      or a failure, recording whether the cursor had been opened (bound to
      its variable) before the failure. */
  datatype FieldRead = Column(rows: seq<ZoneRow>) | Failed(cursorOpened: bool)

  predicate Opened(r: FieldRead)
  {
    r.Column? || r.cursorOpened
  }

  /** A tally or an observation that has an entry for every bucket. */
  predicate Complete<V>(m: map<Bucket, V>)
  {
    forall b: Bucket :: b in m
  }

  /** The good-land zone admitted by the where clause "VALUE = 1". */
  const GoodZone: int := 1

  /** The rows a cursor yields: all of them, or only the good-land zone. */
  function Selected(rows: seq<ZoneRow>, goodOnly: bool): (sel: seq<ZoneRow>)
    ensures !goodOnly ==> sel == rows
    ensures forall k :: 0 <= k < |sel| ==> goodOnly ==> sel[k].zone == GoodZone
  {
    if rows == [] then []
    else
      var init := Selected(rows[..|rows| - 1], goodOnly);
      var last := rows[|rows| - 1];
      assert rows == rows[..|rows| - 1] + [last];
      if !goodOnly || last.zone == GoodZone then init + [last] else init
  }

  /** Every row a cursor yields is a row of the table. */
  lemma {:induction false} SelectedFromRows(rows: seq<ZoneRow>, goodOnly: bool)
    ensures forall k :: 0 <= k < |Selected(rows, goodOnly)| ==> Selected(rows, goodOnly)[k] in rows
    decreases |rows|
  {
    if rows != [] {
      var init := rows[..|rows| - 1];
      SelectedFromRows(init, goodOnly);
      assert forall x :: x in init ==> x in rows;
    }
  }

  /** The value a bucket holds after its read, given the value it held before. */
  function ReadField(prev: real, r: FieldRead, goodOnly: bool): (v: real)
    ensures r.Failed? ==> v == Sentinel
    ensures r.Column? && Selected(r.rows, goodOnly) == [] ==> v == prev
  {
    match r
    case Failed(_) => Sentinel
    case Column(rows) =>
      var sel := Selected(rows, goodOnly);
      if sel == [] then prev else sel[|sel| - 1].area * AcresPerSquareMeter
  }

  /** A read that admits a row stores the area of a row of its own table,
      converted to acres, and in the good-land pass that row is of zone 1. */
  lemma StoredAreaFromTable(prev: real, rows: seq<ZoneRow>, goodOnly: bool)
    requires Selected(rows, goodOnly) != []
    ensures exists k :: (0 <= k < |rows|
      && ReadField(prev, Column(rows), goodOnly) == rows[k].area * AcresPerSquareMeter
      && (goodOnly ==> rows[k].zone == GoodZone))
  {
    SelectedFromRows(rows, goodOnly);
  }

  /** The tally dictionary after one pass. */
  function BucketPass(prev: map<Bucket, real>, fieldReads: map<Bucket, FieldRead>, goodOnly: bool)
    : (next: map<Bucket, real>)
    requires Complete(prev) && Complete(fieldReads)
    ensures Complete(next)
  {
    map b: Bucket | b in prev :: ReadField(prev[b], fieldReads[b], goodOnly)
  }

  /** Whether the pass left its cursor variable bound (some read opened one). */
  predicate PassOpened(fieldReads: map<Bucket, FieldRead>)
    requires Complete(fieldReads)
  {
    exists b: Bucket :: Opened(fieldReads[b])
  }

  /** The inner `for row in cursor` loop of one bucket read. */
  method ReadColumn(prev: real, rows: seq<ZoneRow>, goodOnly: bool) returns (v: real)
    ensures v == ReadField(prev, Column(rows), goodOnly)
  {
    v := prev;
    var i := 0;
    while i < |rows|
      invariant 0 <= i <= |rows|
      invariant v == ReadField(prev, Column(rows[..i]), goodOnly)
    {
      assert rows[..i + 1][..i] == rows[..i];
      if !goodOnly || rows[i].zone == GoodZone {
        v := rows[i].area * AcresPerSquareMeter;
      }
      i := i + 1;
    }
    assert rows[..|rows|] == rows;
  }

  /** A failed read sets its own bucket to the sentinel, and the other four
      buckets come out exactly as they would have had that read succeeded. */
  lemma FailureIsolated(prev: map<Bucket, real>, fieldReads: map<Bucket, FieldRead>, goodOnly: bool,
                        b: Bucket, alt: FieldRead)
    requires Complete(prev) && Complete(fieldReads) && fieldReads[b].Failed?
    ensures BucketPass(prev, fieldReads, goodOnly)[b] == Sentinel
    ensures forall b' :: b' != b ==>
      BucketPass(prev, fieldReads, goodOnly)[b'] == BucketPass(prev, fieldReads[b := alt], goodOnly)[b']
  {
  }

  /** The stored value is the last admitted row's area in acres. */
  lemma LastRowStored(prev: real, rows: seq<ZoneRow>, x: ZoneRow, goodOnly: bool)
    requires goodOnly ==> x.zone == GoodZone
    ensures ReadField(prev, Column(rows + [x]), goodOnly) == x.area * AcresPerSquareMeter
  {
    assert (rows + [x])[..|rows|] == rows;
  }

  /** One tabulation loop: the buckets in turn, each read's value stored
      under its bucket; `cursorBound` records whether any cursor variable
      was bound. */
  method TabulatePass(prev: map<Bucket, real>, fieldReads: map<Bucket, FieldRead>, goodOnly: bool)
    returns (next: map<Bucket, real>, cursorBound: bool)
    requires Complete(prev) && Complete(fieldReads)
    ensures next == BucketPass(prev, fieldReads, goodOnly)
    ensures cursorBound == PassOpened(fieldReads)
  {
    next, cursorBound := prev, false;
    for i := 0 to |Buckets|
      invariant Complete(next)
      invariant forall b: Bucket :: (next[b] ==
        if b in Buckets[..i] then ReadField(prev[b], fieldReads[b], goodOnly) else prev[b])
      invariant cursorBound <==> exists b :: b in Buckets[..i] && Opened(fieldReads[b])
    {
      var b := Buckets[i];
      assert Buckets[..i + 1] == Buckets[..i] + [b];
      match fieldReads[b]
      case Column(rows) =>
        var v := ReadColumn(next[b], rows, goodOnly);
        next := next[b := v];
        cursorBound := true;
      case Failed(wasOpened) =>
        next := next[b := Sentinel];
        cursorBound := cursorBound || wasOpened;
    }
    BucketsListed();
    assert Buckets[..|Buckets|] == Buckets;
  }

  /** The acreage a column read stores when it admits at least one row. */
  function LastArea(rows: seq<ZoneRow>, goodOnly: bool): real
    requires Selected(rows, goodOnly) != []
  {
    var sel := Selected(rows, goodOnly);
    sel[|sel| - 1].area * AcresPerSquareMeter
  }

  /** Every column read of a pass admits at least one row. */
  predicate AllColumnsRead(fieldReads: map<Bucket, FieldRead>, goodOnly: bool)
    requires Complete(fieldReads)
  {
    forall b: Bucket :: fieldReads[b].Column? && Selected(fieldReads[b].rows, goodOnly) != []
  }

  /** When every column admits a row, the pass binds its cursor and
      overwrites every bucket, so none of the previous parcel's values
      survives. */
  lemma EveryBucketOverwritten(prev: map<Bucket, real>, fieldReads: map<Bucket, FieldRead>, goodOnly: bool)
    requires Complete(prev) && Complete(fieldReads) && AllColumnsRead(fieldReads, goodOnly)
    ensures PassOpened(fieldReads)
    ensures forall b: Bucket ::
      BucketPass(prev, fieldReads, goodOnly)[b] == LastArea(fieldReads[b].rows, goodOnly)
  {
    assert Opened(fieldReads[Slope0to5]);
    forall b: Bucket
      ensures BucketPass(prev, fieldReads, goodOnly)[b] == LastArea(fieldReads[b].rows, goodOnly)
    {
      ColumnOverwritten(prev[b], fieldReads[b], goodOnly);
    }
  }

  lemma ColumnOverwritten(prev: real, r: FieldRead, goodOnly: bool)
    requires r.Column? && Selected(r.rows, goodOnly) != []
    ensures ReadField(prev, r, goodOnly) == LastArea(r.rows, goodOnly)
  {
  }

  /** A read that admits no row leaves the bucket's previous value in place:
      the tally dictionaries are never reset, so that is the previous parcel's. */
  lemma NoRowsKeepsPrevious(prev: real, rows: seq<ZoneRow>, goodOnly: bool)
    requires Selected(rows, goodOnly) == []
    ensures ReadField(prev, Column(rows), goodOnly) == prev
  {
  }

  /** Selection distributes over concatenation. */
  lemma {:induction false} SelectedAppend(a: seq<ZoneRow>, b: seq<ZoneRow>, goodOnly: bool)
    ensures Selected(a + b, goodOnly) == Selected(a, goodOnly) + Selected(b, goodOnly)
    decreases |b|
  {
    if b != [] {
      var b0 := b[..|b| - 1];
      var x := b[|b| - 1];
      assert b == b0 + [x];
      assert a + b == (a + b0) + [x];
      assert (a + b)[..|a + b| - 1] == a + b0;
      SelectedAppend(a, b0, goodOnly);
    } else {
      assert a + b == a;
    }
  }

  /** The good-land pass ignores rows of any other zone, wherever they occur. */
  lemma OtherZonesIgnored(prev: real, a: seq<ZoneRow>, x: ZoneRow, b: seq<ZoneRow>)
    requires x.zone != GoodZone
    ensures ReadField(prev, Column(a + [x] + b), true) == ReadField(prev, Column(a + b), true)
  {
    SelectedAppend(a + [x], b, true);
    SelectedAppend(a, [x], true);
    SelectedAppend(a, b, true);
    assert [x][..0] == [];
    assert Selected([x], true) == [];
  }
}
