/** The slope reclassification rule and the five slope buckets that are
    reported. The remap table is the string handed to the Reclassify tool;
    the buckets are the keys of the tally dictionaries, and each is read back
    from the area-tabulation table through its field name. */
module SlopeClass {
  import opened Common

  /** One row of the remap table: cells whose slope lies in the range get `code`. */
  datatype Range = Range(lo: real, hi: real, code: int)

  /** "0 5 1;5 10 2;10 15 3;15 20 4;20 25 5;25 500000 9" */
  const RemapTable: seq<Range> := [
    Range(0.0, 5.0, 1), Range(5.0, 10.0, 2), Range(10.0, 15.0, 3),
    Range(15.0, 20.0, 4), Range(20.0, 25.0, 5), Range(25.0, 500000.0, 9)
  ]

  /** The class given to 25 percent grade and above; no bucket reports it. */
  const SteepClass: int := 9

  /** What Reclassify writes for one cell: a class, or (missing-values option
      "DATA") the input value itself when no range holds it. */
  datatype Reclassed = Class(code: int) | Kept(value: real)

  /** Boundary convention: a range holds its lower edge but not its upper
      edge, except the last range of the table, which holds both. */
  predicate InRange(r: Range, v: real, last: bool)
  {
    r.lo <= v && (v < r.hi || (last && v == r.hi))
  }

  /** First range of the table that holds `v`. */
  function Lookup(table: seq<Range>, v: real): (r: Reclassed)
    ensures r.Kept? ==> r.value == v
    ensures r.Kept? ==> forall j :: 0 <= j < |table| ==> !InRange(table[j], v, j == |table| - 1)
    ensures r.Class? ==> exists i :: 0 <= i < |table| && InRange(table[i], v, i == |table| - 1)
                                    && r.code == table[i].code
  {
    if table == [] then Kept(v)
    else if InRange(table[0], v, |table| == 1) then Class(table[0].code)
    else
      assert forall j :: 1 <= j < |table| ==> table[1..][j - 1] == table[j];
      Lookup(table[1..], v)
  }

  /** A cell gets one of the table's codes, or keeps its own value. */
  function Reclassify(v: real): (r: Reclassed)
    ensures r.Kept? ==> r.value == v
    ensures r.Class? ==> 1 <= r.code <= 5 || r.code == SteepClass
  {
    Lookup(RemapTable, v)
  }

  /** Lookup returns the code of the first range that holds the value. */
  lemma {:induction false} LookupFirst(table: seq<Range>, v: real, i: nat)
    requires i < |table| && InRange(table[i], v, i == |table| - 1)
    requires forall j :: 0 <= j < i ==> !InRange(table[j], v, j == |table| - 1)
    ensures Lookup(table, v) == Class(table[i].code)
  {
    if i > 0 {
      assert !InRange(table[0], v, 0 == |table| - 1);
      LookupFirst(table[1..], v, i - 1);
    }
  }

  /** Lookup leaves a value that no range holds unchanged. */
  lemma {:induction false} LookupNone(table: seq<Range>, v: real)
    requires forall j :: 0 <= j < |table| ==> !InRange(table[j], v, j == |table| - 1)
    ensures Lookup(table, v) == Kept(v)
  {
    if table != [] {
      assert !InRange(table[0], v, 0 == |table| - 1);
      LookupNone(table[1..], v);
    }
  }

  /** Every value in [0, 500000] lies in exactly one range of the remap table,
      and Reclassify gives it that range's code; values outside are kept. */
  lemma ExactlyOneRange(v: real)
    ensures 0.0 <= v <= 500000.0 ==>
      exists i :: 0 <= i < |RemapTable| && InRange(RemapTable[i], v, i == |RemapTable| - 1)
        && Reclassify(v) == Class(RemapTable[i].code)
        && forall j :: 0 <= j < |RemapTable| && j != i ==> !InRange(RemapTable[j], v, j == |RemapTable| - 1)
    ensures (v < 0.0 || v > 500000.0) ==> Reclassify(v) == Kept(v)
  {
    var t := RemapTable;
    if v < 0.0 || v > 500000.0 {
      LookupNone(t, v);
    } else {
      var i := if v < 5.0 then 0 else if v < 10.0 then 1 else if v < 15.0 then 2
               else if v < 20.0 then 3 else if v < 25.0 then 4 else 5;
      LookupFirst(t, v, i);
      assert forall j :: 0 <= j < |t| && j != i ==> !InRange(t[j], v, j == |t| - 1);
      assert InRange(t[i], v, i == |t| - 1) && Reclassify(v) == Class(t[i].code);
    }
  }

  /** The bands of the rule, spelled out. */
  lemma ReclassifyBands(v: real)
    ensures 0.0 <= v < 5.0 ==> Reclassify(v) == Class(1)
    ensures 5.0 <= v < 10.0 ==> Reclassify(v) == Class(2)
    ensures 10.0 <= v < 15.0 ==> Reclassify(v) == Class(3)
    ensures 15.0 <= v < 20.0 ==> Reclassify(v) == Class(4)
    ensures 20.0 <= v < 25.0 ==> Reclassify(v) == Class(5)
    ensures 25.0 <= v <= 500000.0 ==> Reclassify(v) == Class(SteepClass)
    ensures (v < 0.0 || v > 500000.0) ==> Reclassify(v) == Kept(v)
  {
    ExactlyOneRange(v);
  }

  /** The class never decreases as the slope grows. */
  lemma ReclassifyMonotone(v: real, w: real)
    requires 0.0 <= v <= w <= 500000.0
    ensures Reclassify(v).Class? && Reclassify(w).Class?
    ensures Reclassify(v).code <= Reclassify(w).code
  {
    ReclassifyBands(v);
    ReclassifyBands(w);
  }

  /** The five reported buckets, keys of the tally dictionaries. */
  datatype Bucket = Slope0to5 | Slope5to10 | Slope10to15 | Slope15to20 | SlopeOver20

  /** The buckets in the order the tally loops visit them. */
  const Buckets: seq<Bucket> := [Slope0to5, Slope5to10, Slope10to15, Slope15to20, SlopeOver20]

  /** The visiting order lists every bucket. */
  lemma BucketsListed()
    ensures forall b: Bucket :: b in Buckets
  {
    forall b: Bucket ensures b in Buckets {
      match b
      case Slope0to5 => assert Buckets[0] == b;
      case Slope5to10 => assert Buckets[1] == b;
      case Slope10to15 => assert Buckets[2] == b;
      case Slope15to20 => assert Buckets[3] == b;
      case SlopeOver20 => assert Buckets[4] == b;
    }
  }

  /** The dictionary key of a bucket. */
  function Label(b: Bucket): string
  {
    match b
    case Slope0to5 => "0-5 percent"
    case Slope5to10 => "5-10 percent"
    case Slope10to15 => "10-15 percent"
    case Slope15to20 => "15-20 percent"
    case SlopeOver20 => "Over 20 percent"
  }

  /** The reclassified code whose area a bucket reports. */
  function ClassOf(b: Bucket): int
  {
    match b
    case Slope0to5 => 1
    case Slope5to10 => 2
    case Slope10to15 => 3
    case Slope15to20 => 4
    case SlopeOver20 => 5
  }

  /** The bucket that reports a code, if any. */
  function BucketOf(code: int): (r: Option<Bucket>)
    ensures r.Some? <==> 1 <= code <= 5
    ensures r.Some? ==> ClassOf(r.value) == code
  {
    if code == 1 then Some(Slope0to5)
    else if code == 2 then Some(Slope5to10)
    else if code == 3 then Some(Slope10to15)
    else if code == 4 then Some(Slope15to20)
    else if code == 5 then Some(SlopeOver20)
    else None
  }

  /** The tabulation table names the area column of code c "VALUE_c". */
  function FieldOfClass(code: int): string
    requires 0 <= code <= 9
  {
    "VALUE_" + [(48 + code) as char]
  }

  /** FieldNameToSlopeCat: the column read for each bucket. */
  function FieldName(b: Bucket): (f: string)
    ensures f == FieldOfClass(ClassOf(b))
  {
    match b
    case Slope0to5 => "VALUE_1"
    case Slope5to10 => "VALUE_2"
    case Slope10to15 => "VALUE_3"
    case Slope15to20 => "VALUE_4"
    case SlopeOver20 => "VALUE_5"
  }

  /** Buckets and codes 1..5 correspond one to one, labels and field names
      are distinct, and no bucket reads the column of the steep class 9. */
  lemma BucketsOneToOne(b: Bucket, b': Bucket)
    ensures BucketOf(ClassOf(b)) == Some(b)
    ensures FieldName(b) == FieldName(b') ==> b == b'
    ensures Label(b) == Label(b') ==> b == b'
    ensures FieldName(b) != FieldOfClass(SteepClass)
    ensures BucketOf(SteepClass) == None
  {
    assert FieldName(b)[6] == (48 + ClassOf(b)) as char;
    assert FieldName(b')[6] == (48 + ClassOf(b')) as char;
    assert FieldOfClass(SteepClass)[6] == '9';
  }

  /** A slope in [0, 500000] is reported by some bucket exactly when it is below 25. */
  lemma ReportedIffBelow25(v: real)
    requires 0.0 <= v <= 500000.0
    ensures Reclassify(v).Class?
    ensures BucketOf(Reclassify(v).code).Some? <==> v < 25.0
  {
    ReclassifyBands(v);
  }
}
