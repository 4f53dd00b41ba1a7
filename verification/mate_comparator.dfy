/**
 * SAMRecordMateCoordinateComparator: orders SAM records by the position of
 * their mate (RNEXT/PNEXT, section 1.4 of the SAM format specification), then
 * by the record's own coordinate, read name, flags, mapping quality and
 * inferred insert size.
 */
module MateComparator {
  import JavaText

  /**
   * The fields of a SAM record the comparator reads. RNEXT is held as an index
   * into the sequence dictionary, with -1 for an unmapped mate ("*").
   * referenceIndex and alignmentStart (RNAME/POS) are only read by the
   * inherited coordinate comparator.
   */
  datatype SamRecord = SamRecord(
    readName: string,
    flags: int,
    mappingQuality: int,
    inferredInsertSize: int,
    referenceIndex: int,
    alignmentStart: int,
    mateReferenceIndex: int,
    mateAlignmentStart: int)

  /** A three-way comparator; stands for the inherited SAMRecordCoordinateComparator.fileOrderCompare. */
  type RecordOrder = (SamRecord, SamRecord) -> int

  function Sign(n: int): int {
    if n < 0 then -1 else if n > 0 then 1 else 0
  }

  /** The Comparator contract on signs: swapping the arguments negates the sign. */
  ghost predicate Antisymmetric(cmp: RecordOrder) {
    forall a, b :: Sign(cmp(a, b)) == -Sign(cmp(b, a))
  }

  /** The Comparator contract: "not after" is transitive. */
  ghost predicate Transitive(cmp: RecordOrder) {
    forall a, b, c :: cmp(a, b) <= 0 && cmp(b, c) <= 0 ==> cmp(a, c) <= 0
  }

  /** compareInts: exactly -1, 0 or 1. */
  function CompareInts(i1: int, i2: int): (r: int)
    ensures r == -1 <==> i1 < i2
    ensures r == 0 <==> i1 == i2
    ensures r == 1 <==> i1 > i2
  {
    if i1 < i2 then -1 else if i1 > i2 then 1 else 0
  }

  /**
   * fileOrderCompare: records whose mate is unmapped (mate reference -1) sort
   * last and tie with each other; otherwise mate reference index, then mate
   * alignment start, each compared by subtraction.
   */
  function FileOrderCompare(r1: SamRecord, r2: SamRecord): (r: int)
    ensures r1.mateReferenceIndex == -1 ==> (r == 0 <==> r2.mateReferenceIndex == -1)
    ensures r1.mateReferenceIndex == -1 && r2.mateReferenceIndex != -1 ==> r > 0
    ensures r1.mateReferenceIndex != -1 && r2.mateReferenceIndex == -1 ==> r < 0
    ensures r1.mateReferenceIndex != -1 && r2.mateReferenceIndex != -1 ==>
      && (r < 0 <==> (r1.mateReferenceIndex < r2.mateReferenceIndex
                      || (r1.mateReferenceIndex == r2.mateReferenceIndex
                          && r1.mateAlignmentStart < r2.mateAlignmentStart)))
      && (r == 0 <==> (r1.mateReferenceIndex == r2.mateReferenceIndex
                       && r1.mateAlignmentStart == r2.mateAlignmentStart))
  {
    var refIndex1 := r1.mateReferenceIndex;
    var refIndex2 := r2.mateReferenceIndex;
    if refIndex1 == -1 then
      (if refIndex2 == -1 then 0 else 1)
    else if refIndex2 == -1 then
      -1
    else
      var cmp := refIndex1 - refIndex2;
      if cmp != 0 then cmp else r1.mateAlignmentStart - r2.mateAlignmentStart
  }

  lemma FileOrderCompareReflexive(a: SamRecord)
    ensures FileOrderCompare(a, a) == 0
  {
  }

  lemma FileOrderCompareAntisymmetric(a: SamRecord, b: SamRecord)
    ensures Sign(FileOrderCompare(a, b)) == -Sign(FileOrderCompare(b, a))
  {
  }

  lemma FileOrderCompareTransitive(a: SamRecord, b: SamRecord, c: SamRecord)
    requires FileOrderCompare(a, b) <= 0 && FileOrderCompare(b, c) <= 0
    ensures FileOrderCompare(a, c) <= 0
  {
  }

  /** The first non-zero comparison of a chain, or 0 when every comparison ties. */
  function FirstNonZero(cs: seq<int>): (r: int)
    ensures r == 0 <==> forall i :: 0 <= i < |cs| ==> cs[i] == 0
    ensures r != 0 ==> exists i :: 0 <= i < |cs| && r == cs[i] && forall j :: 0 <= j < i ==> cs[j] == 0
  {
    if |cs| == 0 then 0
    else if cs[0] != 0 then cs[0]
    else
      var r := FirstNonZero(cs[1..]);
      assert forall i :: 1 <= i < |cs| ==> cs[i] == cs[1..][i - 1];
      r
  }

  /** The six comparisons compare() consults, in the order it consults them. */
  function Comparisons(r1: SamRecord, r2: SamRecord, coordinateOrder: RecordOrder): seq<int> {
    [ FileOrderCompare(r1, r2),
      coordinateOrder(r1, r2),
      JavaText.CompareStrings(r1.readName, r2.readName),
      CompareInts(r1.flags, r2.flags),
      CompareInts(r1.mappingQuality, r2.mappingQuality),
      CompareInts(r1.inferredInsertSize, r2.inferredInsertSize) ]
  }

  /**
   * compare: the first non-zero result among mate order, the inherited own
   * coordinate order, read name, flags, mapping quality and insert size.
   */
  function Compare(r1: SamRecord, r2: SamRecord, coordinateOrder: RecordOrder): (r: int)
    ensures FileOrderCompare(r1, r2) != 0 ==> r == FileOrderCompare(r1, r2)
    ensures FileOrderCompare(r1, r2) == 0 && coordinateOrder(r1, r2) != 0 ==> r == coordinateOrder(r1, r2)
    ensures r == 0 <==>
      && FileOrderCompare(r1, r2) == 0
      && coordinateOrder(r1, r2) == 0
      && r1.readName == r2.readName
      && r1.flags == r2.flags
      && r1.mappingQuality == r2.mappingQuality
      && r1.inferredInsertSize == r2.inferredInsertSize
  {
    var cs := Comparisons(r1, r2, coordinateOrder);
    JavaText.CompareStringsZero(r1.readName, r2.readName);
    assert cs[0] == FileOrderCompare(r1, r2) && cs[1] == coordinateOrder(r1, r2);
    assert (forall i :: 0 <= i < |cs| ==> cs[i] == 0) <==>
      cs[0] == 0 && cs[1] == 0 && cs[2] == 0 && cs[3] == 0 && cs[4] == 0 && cs[5] == 0;
    FirstNonZero(cs)
  }

  lemma {:induction false} FirstNonZeroAntisymmetric(x: seq<int>, y: seq<int>)
    requires |x| == |y|
    requires forall i :: 0 <= i < |x| ==> Sign(x[i]) == -Sign(y[i])
    ensures Sign(FirstNonZero(x)) == -Sign(FirstNonZero(y))
  {
    if |x| > 0 && x[0] == 0 {
      FirstNonZeroAntisymmetric(x[1..], y[1..]);
    }
  }

  /** Each comparison of a chain behaves like a total preorder at this triple. */
  ghost predicate PreorderAt(x: int, y: int, z: int) {
    && (x <= 0 && y <= 0 ==> z <= 0)
    && (x == 0 && y == 0 ==> z == 0)
    && (x < 0 && y <= 0 ==> z < 0)
    && (x <= 0 && y < 0 ==> z < 0)
  }

  lemma {:induction false} FirstNonZeroTransitive(x: seq<int>, y: seq<int>, z: seq<int>)
    requires |x| == |y| == |z|
    requires forall i :: 0 <= i < |x| ==> PreorderAt(x[i], y[i], z[i])
    requires FirstNonZero(x) <= 0 && FirstNonZero(y) <= 0
    ensures FirstNonZero(z) <= 0
  {
    if |x| > 0 && x[0] == 0 && y[0] == 0 {
      assert z[0] == 0;
      FirstNonZeroTransitive(x[1..], y[1..], z[1..]);
    }
  }

  /** A comparator that is antisymmetric and transitive is a total preorder at every triple. */
  lemma PreorderOf(cmp: RecordOrder, a: SamRecord, b: SamRecord, c: SamRecord)
    requires Antisymmetric(cmp) && Transitive(cmp)
    ensures PreorderAt(cmp(a, b), cmp(b, c), cmp(a, c))
  {
    assert Sign(cmp(a, b)) == -Sign(cmp(b, a));
    assert Sign(cmp(b, c)) == -Sign(cmp(c, b));
    assert Sign(cmp(a, c)) == -Sign(cmp(c, a));
    assert cmp(a, b) <= 0 && cmp(b, c) <= 0 ==> cmp(a, c) <= 0;
    assert cmp(b, c) <= 0 && cmp(c, a) <= 0 ==> cmp(b, a) <= 0;
    assert cmp(c, a) <= 0 && cmp(a, b) <= 0 ==> cmp(c, b) <= 0;
    assert cmp(c, b) <= 0 && cmp(b, a) <= 0 ==> cmp(c, a) <= 0;
  }

  /** compare(a, a) == 0 whenever the inherited order does so. */
  lemma CompareReflexive(a: SamRecord, coordinateOrder: RecordOrder)
    requires coordinateOrder(a, a) == 0
    ensures Compare(a, a, coordinateOrder) == 0
  {
  }

  /** sign(compare(a, b)) == -sign(compare(b, a)) whenever the inherited order is antisymmetric. */
  lemma CompareAntisymmetric(a: SamRecord, b: SamRecord, coordinateOrder: RecordOrder)
    requires Antisymmetric(coordinateOrder)
    ensures Sign(Compare(a, b, coordinateOrder)) == -Sign(Compare(b, a, coordinateOrder))
  {
    ComparisonsAntisymmetric(a, b, coordinateOrder);
    FirstNonZeroAntisymmetric(Comparisons(a, b, coordinateOrder), Comparisons(b, a, coordinateOrder));
  }

  /** Every comparison compare() consults changes sign when its arguments swap. */
  lemma ComparisonsAntisymmetric(a: SamRecord, b: SamRecord, coordinateOrder: RecordOrder)
    requires Antisymmetric(coordinateOrder)
    ensures var x, y := Comparisons(a, b, coordinateOrder), Comparisons(b, a, coordinateOrder);
      |x| == |y| && forall i :: 0 <= i < |x| ==> Sign(x[i]) == -Sign(y[i])
  {
    FileOrderCompareAntisymmetric(a, b);
    JavaText.CompareStringsAntisymmetric(a.readName, b.readName);
    assert Sign(coordinateOrder(a, b)) == -Sign(coordinateOrder(b, a));
  }

  /** compare is transitive whenever the inherited order satisfies the Comparator contract. */
  lemma CompareTransitive(a: SamRecord, b: SamRecord, c: SamRecord, coordinateOrder: RecordOrder)
    requires Antisymmetric(coordinateOrder) && Transitive(coordinateOrder)
    requires Compare(a, b, coordinateOrder) <= 0 && Compare(b, c, coordinateOrder) <= 0
    ensures Compare(a, c, coordinateOrder) <= 0
  {
    ComparisonsPreorder(a, b, c, coordinateOrder);
    FirstNonZeroTransitive(Comparisons(a, b, coordinateOrder), Comparisons(b, c, coordinateOrder), Comparisons(a, c, coordinateOrder));
  }

  /** Every comparison compare() consults is a total preorder at the triple a, b, c. */
  lemma ComparisonsPreorder(a: SamRecord, b: SamRecord, c: SamRecord, coordinateOrder: RecordOrder)
    requires Antisymmetric(coordinateOrder) && Transitive(coordinateOrder)
    ensures var x, y, z := Comparisons(a, b, coordinateOrder), Comparisons(b, c, coordinateOrder), Comparisons(a, c, coordinateOrder);
      |x| == |y| == |z| && forall i :: 0 <= i < |x| ==> PreorderAt(x[i], y[i], z[i])
  {
    var x := Comparisons(a, b, coordinateOrder);
    var y := Comparisons(b, c, coordinateOrder);
    var z := Comparisons(a, c, coordinateOrder);
    PreorderOf(coordinateOrder, a, b, c);
    NamePreorder(a.readName, b.readName, c.readName);
    assert PreorderAt(x[0], y[0], z[0]);
    assert PreorderAt(x[1], y[1], z[1]);
    assert PreorderAt(x[2], y[2], z[2]);
  }

  lemma NamePreorder(a: string, b: string, c: string)
    ensures PreorderAt(JavaText.CompareStrings(a, b), JavaText.CompareStrings(b, c), JavaText.CompareStrings(a, c))
  {
    JavaText.CompareStringsZero(a, b);
    JavaText.CompareStringsZero(b, c);
    JavaText.CompareStringsZero(a, c);
    if JavaText.CompareStrings(a, b) < 0 && JavaText.CompareStrings(b, c) < 0 {
      JavaText.CompareStringsTransitive(a, b, c);
    }
  }
}
