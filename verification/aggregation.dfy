/**
 * The list arithmetic of the call builder: the per-sample sum-or-max fold
 * (sumOrMax), the element-wise sum-or-max of integer lists
 * (setIntAttributeSumOrMax), the in-order concatenation of string lists
 * (setStringAttributeConcat) and the stable sort Collections.sort performs.
 */
module Aggregation {
  import opened Evidence

  /** One step of the fold: Math.max, or addition. */
  function Combine(acc: int, v: int, max: bool): int {
    if !max then acc + v else if acc >= v then acc else v
  }

  /** The fold of the values in order, starting from 0. */
  function Accumulate(vs: seq<int>, max: bool): int {
    if |vs| == 0 then 0 else Combine(Accumulate(vs[..|vs| - 1], max), vs[|vs| - 1], max)
  }

  lemma AccumulateSnoc(vs: seq<int>, v: int, max: bool)
    ensures Accumulate(vs + [v], max) == Combine(Accumulate(vs, max), v, max)
  {
    assert (vs + [v])[..|vs|] == vs;
  }

  /** With max the fold is the largest value, or 0 when every value is smaller (or there are none). */
  lemma {:induction false} AccumulateMax(vs: seq<int>)
    ensures Accumulate(vs, true) >= 0
    ensures forall i :: 0 <= i < |vs| ==> vs[i] <= Accumulate(vs, true)
    ensures Accumulate(vs, true) == 0 || exists i :: 0 <= i < |vs| && vs[i] == Accumulate(vs, true)
  {
    if |vs| > 0 {
      var init := vs[..|vs| - 1];
      AccumulateMax(init);
      assert forall i :: 0 <= i < |init| ==> vs[i] == init[i];
    }
  }

  /** Without max the fold is additive over concatenation. */
  lemma {:induction false} AccumulateSumAppend(a: seq<int>, b: seq<int>)
    ensures Accumulate(a + b, false) == Accumulate(a, false) + Accumulate(b, false)
  {
    if |b| > 0 {
      var b' := b[..|b| - 1];
      assert (a + b)[..|a + b| - 1] == a + b';
      AccumulateSumAppend(a, b');
    } else {
      assert a + b == a;
    }
  }

  // ---------------------------------------------------------------------------
  // sumOrMax: a [normal, tumour] pair, collapsed when a source is not SAM
  // ---------------------------------------------------------------------------

  /** The values f gives to the items that fall in one slot, in order. */
  function SlotValues<T>(it: seq<T>, source: T -> EvidenceSource, f: T -> int, tumour: bool): seq<int> {
    if |it| == 0 then []
    else
      var last := it[|it| - 1];
      SlotValues(it[..|it| - 1], source, f, tumour) + (if InTumourSlot(source(last)) == tumour then [f(last)] else [])
  }

  lemma SlotValuesSnoc<T>(it: seq<T>, t: T, source: T -> EvidenceSource, f: T -> int, tumour: bool)
    ensures SlotValues(it + [t], source, f, tumour)
         == SlotValues(it, source, f, tumour) + (if InTumourSlot(source(t)) == tumour then [f(t)] else [])
  {
    assert (it + [t])[..|it|] == it;
  }

  /** Adding an item folds its value into its own slot and leaves the other slot alone. */
  lemma SlotStep<T>(done: seq<T>, t: T, source: T -> EvidenceSource, f: T -> int, max: bool)
    ensures var own := InTumourSlot(source(t));
      && Accumulate(SlotValues(done + [t], source, f, own), max)
         == Combine(Accumulate(SlotValues(done, source, f, own), max), f(t), max)
      && Accumulate(SlotValues(done + [t], source, f, !own), max)
         == Accumulate(SlotValues(done, source, f, !own), max)
  {
    var own := InTumourSlot(source(t));
    SlotValuesSnoc(done, t, source, f, own);
    SlotValuesSnoc(done, t, source, f, !own);
    assert SlotValues(done + [t], source, f, own) == SlotValues(done, source, f, own) + [f(t)];
    assert SlotValues(done + [t], source, f, !own) == SlotValues(done, source, f, !own);
    AccumulateSnoc(SlotValues(done, source, f, own), f(t), max);
  }

  /** True when some item does not come from a SAM source. */
  predicate HasNonSamSource<T>(it: seq<T>, source: T -> EvidenceSource) {
    exists i :: 0 <= i < |it| && source(it[i]).OtherEvidenceSource?
  }

  lemma NonSamStep<T>(done: seq<T>, t: T, source: T -> EvidenceSource)
    ensures HasNonSamSource(done + [t], source) <==> HasNonSamSource(done, source) || source(t).OtherEvidenceSource?
  {
    var all := done + [t];
    assert forall i :: 0 <= i < |done| ==> all[i] == done[i];
    assert all[|done|] == t;
  }

  /** The reference result of sumOrMax: the two folded slots, or only the first when a source is not SAM. */
  function SumOrMaxOf<T>(it: seq<T>, source: T -> EvidenceSource, f: T -> int, max: bool): seq<int> {
    var normal := Accumulate(SlotValues(it, source, f, false), max);
    var tumour := Accumulate(SlotValues(it, source, f, true), max);
    if HasNonSamSource(it, source) then [normal] else [normal, tumour]
  }

  /** list holds the [normal, tumour] folds of the items done so far. */
  predicate SlotsHold<T>(list: seq<int>, done: seq<T>, source: T -> EvidenceSource, f: T -> int, max: bool) {
    && |list| == 2
    && list[0] == Accumulate(SlotValues(done, source, f, false), max)
    && list[1] == Accumulate(SlotValues(done, source, f, true), max)
  }

  /** Folding the next item into its own slot keeps the slots in step with the items done. */
  lemma FoldStep<T>(list: seq<int>, done: seq<T>, t: T, source: T -> EvidenceSource, f: T -> int, max: bool)
    requires SlotsHold(list, done, source, f, max)
    ensures var offset := if InTumourSlot(source(t)) then 1 else 0;
      SlotsHold(list[offset := Combine(list[offset], f(t), max)], done + [t], source, f, max)
  {
    SlotStep(done, t, source, f, max);
  }

  /**
   * sumOrMax: start from [0, 0], fold each value into slot 1 when its source
   * is a tumour SAM source and into slot 0 otherwise, then drop slot 1 if any
   * source was not a SAM source.
   */
  method SumOrMax<T>(it: seq<T>, source: T -> EvidenceSource, f: T -> int, max: bool) returns (list: seq<int>)
    ensures |list| == (if HasNonSamSource(it, source) then 1 else 2)
    ensures list[0] == Accumulate(SlotValues(it, source, f, false), max)
    ensures |list| == 2 ==> list[1] == Accumulate(SlotValues(it, source, f, true), max)
    ensures list == SumOrMaxOf(it, source, f, max)
  {
    var collapse := false;
    list := [0, 0];
    var k := 0;
    while k < |it|
      invariant 0 <= k <= |it|
      invariant SlotsHold(list, it[..k], source, f, max)
      invariant collapse <==> HasNonSamSource(it[..k], source)
    {
      var t := it[k];
      var isTumour := false;
      var v := f(t);
      if source(t).SamEvidenceSource? {
        isTumour := source(t).isTumour;
      } else {
        collapse := true;
      }
      var offset := if isTumour then 1 else 0;
      FoldStep(list, it[..k], t, source, f, max);
      NonSamStep(it[..k], t, source);
      list := list[offset := Combine(list[offset], v, max)];
      assert it[..k + 1] == it[..k] + [t];
      k := k + 1;
    }
    assert it[..|it|] == it;
    ghost var normal := Accumulate(SlotValues(it, source, f, false), max);
    ghost var tumour := Accumulate(SlotValues(it, source, f, true), max);
    assert list == [normal, tumour];
    if collapse {
      list := list[..1];
      assert list == [normal];
    }
  }

  /** The items of one slot. */
  function SlotItems<T>(it: seq<T>, source: T -> EvidenceSource, tumour: bool): seq<T> {
    if |it| == 0 then []
    else
      var last := it[|it| - 1];
      SlotItems(it[..|it| - 1], source, tumour) + (if InTumourSlot(source(last)) == tumour then [last] else [])
  }

  /** The number of items of one slot that satisfy p. */
  function CountWhere<T>(it: seq<T>, p: T -> bool): nat {
    if |it| == 0 then 0 else CountWhere(it[..|it| - 1], p) + (if p(it[|it| - 1]) then 1 else 0)
  }

  lemma SlotItemsSnoc<T>(it: seq<T>, t: T, source: T -> EvidenceSource, tumour: bool)
    ensures SlotItems(it + [t], source, tumour)
         == SlotItems(it, source, tumour) + (if InTumourSlot(source(t)) == tumour then [t] else [])
  {
    assert (it + [t])[..|it|] == it;
  }

  lemma CountWhereSnoc<T>(xs: seq<T>, t: T, p: T -> bool)
    ensures CountWhere(xs + [t], p) == CountWhere(xs, p) + (if p(t) then 1 else 0)
  {
    assert (xs + [t])[..|xs|] == xs;
  }

  /** Some item satisfies p exactly when the count is positive. */
  lemma {:induction false} CountWherePositive<T>(xs: seq<T>, p: T -> bool)
    ensures CountWhere(xs, p) > 0 <==> exists i :: 0 <= i < |xs| && p(xs[i])
  {
    if |xs| > 0 {
      var init := xs[..|xs| - 1];
      CountWherePositive(init, p);
      assert forall j :: 0 <= j < |init| ==> init[j] == xs[j];
    }
  }

  /** The items of a slot are the items whose source falls in it. */
  lemma {:induction false} SlotItemsMembers<T>(it: seq<T>, source: T -> EvidenceSource, tumour: bool)
    ensures forall x :: x in SlotItems(it, source, tumour) <==> x in it && InTumourSlot(source(x)) == tumour
  {
    if |it| > 0 {
      var init := it[..|it| - 1];
      SlotItemsMembers(init, source, tumour);
      assert it == init + [it[|it| - 1]];
    }
  }

  /**
   * Folding a 0/1 indicator of p into a slot: the sum counts the items of
   * the slot that satisfy p, and the max is 1 exactly when some item does.
   */
  lemma {:induction false} AccumulateIndicator<T>(it: seq<T>, source: T -> EvidenceSource, f: T -> int, p: T -> bool, tumour: bool)
    requires forall t :: f(t) == (if p(t) then 1 else 0)
    ensures Accumulate(SlotValues(it, source, f, tumour), false) == CountWhere(SlotItems(it, source, tumour), p)
    ensures Accumulate(SlotValues(it, source, f, tumour), true) == (if CountWhere(SlotItems(it, source, tumour), p) > 0 then 1 else 0)
  {
    if |it| > 0 {
      var init := it[..|it| - 1];
      var last := it[|it| - 1];
      assert it == init + [last];
      AccumulateIndicator(init, source, f, p, tumour);
      SlotValuesSnoc(init, last, source, f, tumour);
      SlotItemsSnoc(init, last, source, tumour);
      var vs := SlotValues(init, source, f, tumour);
      var xs := SlotItems(init, source, tumour);
      if InTumourSlot(source(last)) == tumour {
        AccumulateSnoc(vs, f(last), false);
        AccumulateSnoc(vs, f(last), true);
        CountWhereSnoc(xs, last, p);
        assert SlotValues(it, source, f, tumour) == vs + [f(last)];
        assert SlotItems(it, source, tumour) == xs + [last];
        assert Accumulate(vs + [f(last)], false) == CountWhere(xs + [last], p);
      } else {
        assert SlotValues(it, source, f, tumour) == vs;
        assert SlotItems(it, source, tumour) == xs;
      }
    }
  }

  /** Every value folded into a slot is 0 when f is 0 outside p and no item satisfies p. */
  lemma {:induction false} SlotValuesZero<T>(it: seq<T>, source: T -> EvidenceSource, f: T -> int, p: T -> bool, tumour: bool)
    requires forall t :: !p(t) ==> f(t) == 0
    requires forall i :: 0 <= i < |it| ==> !p(it[i])
    ensures Accumulate(SlotValues(it, source, f, tumour), false) == 0
    ensures Accumulate(SlotValues(it, source, f, tumour), true) == 0
  {
    if |it| > 0 {
      var init := it[..|it| - 1];
      var last := it[|it| - 1];
      assert it == init + [last];
      assert forall i :: 0 <= i < |init| ==> init[i] == it[i];
      SlotValuesZero(init, source, f, p, tumour);
      SlotValuesSnoc(init, last, source, f, tumour);
      var vs := SlotValues(init, source, f, tumour);
      if InTumourSlot(source(last)) == tumour {
        AccumulateSnoc(vs, 0, false);
        AccumulateSnoc(vs, 0, true);
        assert SlotValues(it, source, f, tumour) == vs + [0];
      } else {
        assert SlotValues(it, source, f, tumour) == vs;
      }
    }
  }

  /** sumOrMax of f is all zeros when f is 0 outside p and no item satisfies p. */
  lemma SumOrMaxZero<T>(it: seq<T>, source: T -> EvidenceSource, f: T -> int, p: T -> bool, max: bool)
    requires forall t :: !p(t) ==> f(t) == 0
    requires forall i :: 0 <= i < |it| ==> !p(it[i])
    ensures forall i :: 0 <= i < |SumOrMaxOf(it, source, f, max)| ==> SumOrMaxOf(it, source, f, max)[i] == 0
  {
    SlotValuesZero(it, source, f, p, false);
    SlotValuesZero(it, source, f, p, true);
    var normal := Accumulate(SlotValues(it, source, f, false), max);
    var tumour := Accumulate(SlotValues(it, source, f, true), max);
    assert normal == 0 && tumour == 0 by {
      if max {
        assert normal == Accumulate(SlotValues(it, source, f, false), true);
        assert tumour == Accumulate(SlotValues(it, source, f, true), true);
      } else {
        assert normal == Accumulate(SlotValues(it, source, f, false), false);
        assert tumour == Accumulate(SlotValues(it, source, f, true), false);
      }
    }
    assert SumOrMaxOf(it, source, f, max) == (if HasNonSamSource(it, source) then [normal] else [normal, tumour]);
  }

  // ---------------------------------------------------------------------------
  // setIntAttributeSumOrMax: element-wise over lists of different lengths
  // ---------------------------------------------------------------------------

  /** The length of the longest list, 0 for none. */
  function MaxLength(lists: seq<seq<int>>): (n: nat)
    ensures forall k :: 0 <= k < |lists| ==> |lists[k]| <= n
    ensures n == 0 || exists k :: 0 <= k < |lists| && |lists[k]| == n
  {
    if |lists| == 0 then 0
    else
      var n := MaxLength(lists[..|lists| - 1]);
      var last := |lists[|lists| - 1]|;
      assert forall k :: 0 <= k < |lists| - 1 ==> lists[..|lists| - 1][k] == lists[k];
      if n >= last then n else last
  }

  /** The values at index i of the lists long enough to have one, in list order. */
  function Column(lists: seq<seq<int>>, i: nat): seq<int> {
    if |lists| == 0 then []
    else
      var last := lists[|lists| - 1];
      Column(lists[..|lists| - 1], i) + (if i < |last| then [last[i]] else [])
  }

  /** No list reaches index i at or past the longest length. */
  lemma {:induction false} ColumnBeyond(lists: seq<seq<int>>, i: nat)
    requires i >= MaxLength(lists)
    ensures Column(lists, i) == []
  {
    if |lists| > 0 {
      ColumnBeyond(lists[..|lists| - 1], i);
    }
  }

  /** The reference result of setIntAttributeSumOrMax: the fold of each column. */
  function SumOrMaxColumns(lists: seq<seq<int>>, max: bool): seq<int> {
    seq(MaxLength(lists), i requires 0 <= i => Accumulate(Column(lists, i), max))
  }

  lemma ColumnSnoc(lists: seq<seq<int>>, l: seq<int>, i: nat)
    ensures Column(lists + [l], i) == Column(lists, i) + (if i < |l| then [l[i]] else [])
  {
    assert (lists + [l])[..|lists|] == lists;
  }

  lemma MaxLengthSnoc(lists: seq<seq<int>>, l: seq<int>)
    ensures MaxLength(lists + [l]) == if MaxLength(lists) >= |l| then MaxLength(lists) else |l|
  {
    assert (lists + [l])[..|lists|] == lists;
  }

  /** The inner loop of setIntAttributeSumOrMax: fold l into the (already padded) result position by position. */
  method FoldInto(acc: seq<int>, l: seq<int>, max: bool) returns (result: seq<int>)
    requires |l| <= |acc|
    ensures |result| == |acc|
    ensures forall j :: 0 <= j < |l| ==> result[j] == Combine(acc[j], l[j], max)
    ensures forall j :: |l| <= j < |acc| ==> result[j] == acc[j]
  {
    result := acc;
    var i := 0;
    while i < |l|
      invariant 0 <= i <= |l| && |result| == |acc|
      invariant forall j :: 0 <= j < i ==> result[j] == Combine(acc[j], l[j], max)
      invariant forall j :: i <= j < |result| ==> result[j] == acc[j]
    {
      if max {
        result := result[i := if result[i] >= l[i] then result[i] else l[i]];
      } else {
        result := result[i := result[i] + l[i]];
      }
      i := i + 1;
    }
  }

  /** Folding l into the columns of done gives the columns of done + [l]. */
  lemma FoldIntoColumns(done: seq<seq<int>>, l: seq<int>, padded: seq<int>, result: seq<int>, max: bool)
    requires |l| <= |padded| && |result| == |padded|
    requires forall i :: 0 <= i < |padded| ==> padded[i] == Accumulate(Column(done, i), max)
    requires forall j :: 0 <= j < |l| ==> result[j] == Combine(padded[j], l[j], max)
    requires forall j :: |l| <= j < |padded| ==> result[j] == padded[j]
    ensures forall j :: 0 <= j < |result| ==> result[j] == Accumulate(Column(done + [l], j), max)
  {
    forall j | 0 <= j < |result|
      ensures result[j] == Accumulate(Column(done + [l], j), max)
    {
      ColumnSnoc(done, l, j);
      var c := Column(done, j);
      if j < |l| {
        AccumulateSnoc(c, l[j], max);
        assert Column(done + [l], j) == c + [l[j]];
        assert result[j] == Combine(Accumulate(c, max), l[j], max);
      } else {
        assert Column(done + [l], j) == c;
        assert result[j] == Accumulate(c, max);
      }
    }
  }

  /** The column folds, as a sequence. */
  lemma ColumnsAre(lists: seq<seq<int>>, result: seq<int>, max: bool)
    requires |result| == MaxLength(lists)
    requires forall i :: 0 <= i < |result| ==> result[i] == Accumulate(Column(lists, i), max)
    ensures result == SumOrMaxColumns(lists, max)
  {
  }

  /**
   * The padding step of setIntAttributeSumOrMax: the result so far, grown
   * with zeros to the next list's length, still holds the fold of each
   * column of the lists done, now as long as the longest list so far.
   */
  method PadToLength(result: seq<int>, done: seq<seq<int>>, l: seq<int>, max: bool) returns (padded: seq<int>)
    requires |result| == MaxLength(done)
    requires forall i :: 0 <= i < |result| ==> result[i] == Accumulate(Column(done, i), max)
    ensures |padded| == MaxLength(done + [l])
    ensures forall i :: 0 <= i < |padded| ==> padded[i] == Accumulate(Column(done, i), max)
  {
    MaxLengthSnoc(done, l);
    padded := result;
    while |l| > |padded|
      invariant MaxLength(done) <= |padded| <= MaxLength(done + [l])
      invariant forall i :: 0 <= i < |padded| ==> padded[i] == Accumulate(Column(done, i), max)
    {
      ColumnBeyond(done, |padded|);
      padded := padded + [0];
    }
  }

  /** result holds the fold of every column of lists. */
  predicate Folded(result: seq<int>, lists: seq<seq<int>>, max: bool) {
    && |result| == MaxLength(lists)
    && forall i :: 0 <= i < |result| ==> result[i] == Accumulate(Column(lists, i), max)
  }

  /**
   * setIntAttributeSumOrMax on the attribute lists already read: for each
   * list, pad the result with zeros to the list's length, then fold the list
   * into the result position by position.
   */
  method IntAttributeSumOrMax(lists: seq<seq<int>>, max: bool) returns (result: seq<int>)
    ensures |result| == MaxLength(lists)
    ensures forall i :: 0 <= i < |result| ==> result[i] == Accumulate(Column(lists, i), max)
    ensures result == SumOrMaxColumns(lists, max)
  {
    result := [];
    var k := 0;
    while k < |lists|
      invariant 0 <= k <= |lists|
      invariant Folded(result, lists[..k], max)
    {
      result := FoldNext(result, lists[..k], lists[k], max);
      assert lists[..k + 1] == lists[..k] + [lists[k]];
      k := k + 1;
    }
    assert lists[..|lists|] == lists;
    assert Folded(result, lists, max);
    ColumnsAre(lists, result, max);
  }

  /** One turn of setIntAttributeSumOrMax's loop: pad, then fold the next list in. */
  method FoldNext(result: seq<int>, done: seq<seq<int>>, l: seq<int>, max: bool) returns (next: seq<int>)
    requires Folded(result, done, max)
    ensures Folded(next, done + [l], max)
  {
    var padded := PadToLength(result, done, l, max);
    next := FoldInto(padded, l, max);
    FoldIntoColumns(done, l, padded, next, max);
  }

  // ---------------------------------------------------------------------------
  // setStringAttributeConcat: Iterables.concat of the lists
  // ---------------------------------------------------------------------------

  function Concat(lists: seq<seq<string>>): seq<string> {
    if |lists| == 0 then [] else Concat(lists[..|lists| - 1]) + lists[|lists| - 1]
  }

  /** Concatenating two runs of lists concatenates their results. */
  lemma {:induction false} ConcatAppend(a: seq<seq<string>>, b: seq<seq<string>>)
    ensures Concat(a + b) == Concat(a) + Concat(b)
  {
    if |b| == 0 {
      assert a + b == a;
    } else {
      var b' := b[..|b| - 1];
      assert (a + b)[..|a + b| - 1] == a + b';
      ConcatAppend(a, b');
    }
  }

  /** A string is in the concatenation exactly when it is in one of the lists. */
  lemma {:induction false} ConcatMembership(lists: seq<seq<string>>, x: string)
    ensures x in Concat(lists) <==> exists k :: 0 <= k < |lists| && x in lists[k]
  {
    if |lists| > 0 {
      var init := lists[..|lists| - 1];
      ConcatMembership(init, x);
      assert forall k :: 0 <= k < |init| ==> init[k] == lists[k];
    }
  }

  // ---------------------------------------------------------------------------
  // Collections.sort: a stable sort by a three-way comparator
  // ---------------------------------------------------------------------------

  /** ComparisonChain.compareTrueFirst: true orders before false. */
  function TrueFirst(a: bool, b: bool): (r: int)
    ensures r < 0 <==> a && !b
    ensures r == 0 <==> a == b
  {
    if a == b then 0 else if a then -1 else 1
  }

  /** Insert x after the last element that does not order after it. */
  function Insert<T>(x: T, s: seq<T>, cmp: (T, T) -> int): (r: seq<T>)
  {
    if |s| == 0 then [x]
    else if cmp(s[|s| - 1], x) <= 0 then s + [x]
    else
      Insert(x, s[..|s| - 1], cmp) + [s[|s| - 1]]
  }

  /**
   * A stable sort: elements that compare equal keep their relative order.
   * Every stable sort by the same comparator gives this same result.
   */
  function Sort<T>(xs: seq<T>, cmp: (T, T) -> int): (r: seq<T>)
  {
    if |xs| == 0 then []
    else
      Insert(xs[|xs| - 1], Sort(xs[..|xs| - 1], cmp), cmp)
  }

  lemma {:induction false} InsertPermutes<T>(x: T, s: seq<T>, cmp: (T, T) -> int)
    ensures multiset(Insert(x, s, cmp)) == multiset(s) + multiset{x}
  {
    if |s| > 0 && cmp(s[|s| - 1], x) > 0 {
      InsertPermutes(x, s[..|s| - 1], cmp);
      assert s == s[..|s| - 1] + [s[|s| - 1]];
    }
  }

  /** Sorting only reorders: the result holds the same elements, as often. */
  lemma {:induction false} SortPermutes<T>(xs: seq<T>, cmp: (T, T) -> int)
    ensures multiset(Sort(xs, cmp)) == multiset(xs)
  {
    if |xs| > 0 {
      SortPermutes(xs[..|xs| - 1], cmp);
      InsertPermutes(xs[|xs| - 1], Sort(xs[..|xs| - 1], cmp), cmp);
      assert xs == xs[..|xs| - 1] + [xs[|xs| - 1]];
    }
  }

  /** The elements whose key is b, in order. */
  function Filter<T>(xs: seq<T>, key: T -> bool, b: bool): seq<T> {
    if |xs| == 0 then []
    else Filter(xs[..|xs| - 1], key, b) + (if key(xs[|xs| - 1]) == b then [xs[|xs| - 1]] else [])
  }

  /** Every element of Filter(xs, key, b) has key b. */
  lemma {:induction false} FilterKey<T>(xs: seq<T>, key: T -> bool, b: bool)
    ensures forall i :: 0 <= i < |Filter(xs, key, b)| ==> key(Filter(xs, key, b)[i]) == b
  {
    if |xs| > 0 {
      FilterKey(xs[..|xs| - 1], key, b);
    }
  }

  /** The head of Filter(xs, key, true) is the first element of xs whose key is true. */
  lemma {:induction false} FilterHead<T>(xs: seq<T>, key: T -> bool)
    ensures |Filter(xs, key, true)| > 0 <==> exists i :: 0 <= i < |xs| && key(xs[i])
    ensures |Filter(xs, key, true)| > 0 ==>
      exists i :: 0 <= i < |xs| && key(xs[i]) && (forall j :: 0 <= j < i ==> !key(xs[j]))
        && Filter(xs, key, true)[0] == xs[i]
  {
    if |xs| > 0 {
      var init := xs[..|xs| - 1];
      var last := xs[|xs| - 1];
      FilterHead(init, key);
      assert forall j :: 0 <= j < |init| ==> init[j] == xs[j];
      var t := Filter(init, key, true);
      if |t| > 0 {
        var i :| 0 <= i < |init| && key(init[i]) && (forall j :: 0 <= j < i ==> !key(init[j])) && t[0] == init[i];
        assert Filter(xs, key, true)[0] == t[0];
        assert key(xs[i]) && forall j :: 0 <= j < i ==> !key(xs[j]);
      } else if key(last) {
        assert Filter(xs, key, true) == [last];
        assert forall j :: 0 <= j < |xs| - 1 ==> !key(xs[j]);
      } else {
        assert Filter(xs, key, true) == [];
      }
    }
  }

  /** The sum of f over xs, in order, starting from 0: the loops of setLlr. */
  function SumOf<T>(xs: seq<T>, f: T -> real): real {
    if |xs| == 0 then 0.0 else SumOf(xs[..|xs| - 1], f) + f(xs[|xs| - 1])
  }

  /** Summing a concatenation sums its parts. */
  lemma {:induction false} SumOfAppend<T>(a: seq<T>, b: seq<T>, f: T -> real)
    ensures SumOf(a + b, f) == SumOf(a, f) + SumOf(b, f)
  {
    if |b| == 0 {
      assert a + b == a;
    } else {
      var b' := b[..|b| - 1];
      assert (a + b)[..|a + b| - 1] == a + b';
      assert (a + b)[|a + b| - 1] == b[|b| - 1];
      SumOfAppend(a, b', f);
    }
  }

  /** Splitting xs by a key splits its sum. */
  lemma {:induction false} SumOfFilters<T>(xs: seq<T>, key: T -> bool, f: T -> real)
    ensures SumOf(Filter(xs, key, true), f) + SumOf(Filter(xs, key, false), f) == SumOf(xs, f)
  {
    if |xs| > 0 {
      var init := xs[..|xs| - 1];
      var last := xs[|xs| - 1];
      assert xs[..|xs| - 1] == init;
      SumOfFilters(init, key, f);
      assert SumOf([last], f) == f(last);
      if key(last) {
        assert Filter(xs, key, true) == Filter(init, key, true) + [last];
        assert Filter(xs, key, false) == Filter(init, key, false) + [];
        SumOfAppend(Filter(init, key, true), [last], f);
        assert Filter(init, key, false) + [] == Filter(init, key, false);
      } else {
        assert Filter(xs, key, true) == Filter(init, key, true) + [];
        assert Filter(xs, key, false) == Filter(init, key, false) + [last];
        SumOfAppend(Filter(init, key, false), [last], f);
        assert Filter(init, key, true) + [] == Filter(init, key, true);
      }
    }
  }

  /** A stable "key true first" arrangement of xs has the same sum as xs. */
  lemma SumOfPartition<T>(xs: seq<T>, key: T -> bool, f: T -> real)
    ensures SumOf(Filter(xs, key, true) + Filter(xs, key, false), f) == SumOf(xs, f)
  {
    SumOfAppend(Filter(xs, key, true), Filter(xs, key, false), f);
    SumOfFilters(xs, key, f);
  }

  lemma InsertAfterLast<T>(x: T, s: seq<T>, cmp: (T, T) -> int)
    requires |s| > 0 && cmp(s[|s| - 1], x) <= 0
    ensures Insert(x, s, cmp) == s + [x]
  {
  }

  lemma InsertBeforeLast<T>(x: T, s: seq<T>, cmp: (T, T) -> int)
    requires |s| > 0 && cmp(s[|s| - 1], x) > 0
    ensures Insert(x, s, cmp) == Insert(x, s[..|s| - 1], cmp) + [s[|s| - 1]]
  {
  }

  /** x goes after the whole partition when it belongs at its end. */
  lemma InsertAtPartitionEnd<T>(x: T, t: seq<T>, f: seq<T>, key: T -> bool, cmp: (T, T) -> int)
    requires forall a, b :: cmp(a, b) == TrueFirst(key(a), key(b))
    requires forall i :: 0 <= i < |t| ==> key(t[i])
    requires forall i :: 0 <= i < |f| ==> !key(f[i])
    requires |f| == 0 || !key(x)
    ensures Insert(x, t + f, cmp) == t + f + [x]
  {
    var s := t + f;
    if |s| == 0 {
      assert t == [] && f == [];
    } else if |f| == 0 {
      assert s == t;
      assert cmp(t[|t| - 1], x) == TrueFirst(true, key(x));
      InsertAfterLast(x, s, cmp);
    } else {
      assert s[|s| - 1] == f[|f| - 1];
      assert cmp(f[|f| - 1], x) == TrueFirst(false, false);
      InsertAfterLast(x, s, cmp);
    }
  }

  lemma {:induction false} InsertIntoPartition<T>(x: T, t: seq<T>, f: seq<T>, key: T -> bool, cmp: (T, T) -> int)
    requires forall a, b :: cmp(a, b) == TrueFirst(key(a), key(b))
    requires forall i :: 0 <= i < |t| ==> key(t[i])
    requires forall i :: 0 <= i < |f| ==> !key(f[i])
    ensures Insert(x, t + f, cmp) == if key(x) then t + [x] + f else t + f + [x]
  {
    if |f| == 0 || !key(x) {
      InsertAtPartitionEnd(x, t, f, key, cmp);
      assert |f| == 0 ==> t + [x] + f == t + f + [x];
    } else {
      var s := t + f;
      var f' := f[..|f| - 1];
      var last := f[|f| - 1];
      assert s[|s| - 1] == last;
      assert cmp(last, x) == TrueFirst(false, true);
      InsertBeforeLast(x, s, cmp);
      assert s[..|s| - 1] == t + f';
      assert forall i :: 0 <= i < |f'| ==> f'[i] == f[i];
      InsertIntoPartition(x, t, f', key, cmp);
      assert f == f' + [last];
      assert (t + [x] + f') + [last] == t + [x] + f;
    }
  }

  /**
   * Sorting by a comparator that only says "key true first" puts the
   * elements with key true first and the others after, each group in its
   * original order.
   */
  lemma {:induction false} SortTrueFirst<T>(xs: seq<T>, key: T -> bool, cmp: (T, T) -> int)
    requires forall a, b :: cmp(a, b) == TrueFirst(key(a), key(b))
    ensures Sort(xs, cmp) == Filter(xs, key, true) + Filter(xs, key, false)
  {
    if |xs| > 0 {
      var init := xs[..|xs| - 1];
      var x := xs[|xs| - 1];
      SortTrueFirst(init, key, cmp);
      var t := Filter(init, key, true);
      var f := Filter(init, key, false);
      FilterKey(init, key, true);
      FilterKey(init, key, false);
      assert Sort(xs, cmp) == Insert(x, Sort(init, cmp), cmp);
      InsertIntoPartition(x, t, f, key, cmp);
      if key(x) {
        assert Filter(xs, key, true) == t + [x];
        assert Filter(xs, key, false) == f;
      } else {
        assert Filter(xs, key, true) == t;
        assert Filter(xs, key, false) == f + [x];
      }
    }
  }
}
