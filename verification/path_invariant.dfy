/**
 * The invariant of the path-node compactor's state, split into named parts,
 * and the facts it gives about one call of process(GraphNode): the Java
 * assertions of that method hold, and a merge proposed to a record is
 * either confirmed or released when that record is processed.
 */
module PathInvariant {
  import opened Wrappers
  import opened JavaText
  import opened PathNodes
  import opened PathStep
  import opened PathEffect

  predicate Distinct<T(==)>(q: seq<T>) {
    forall j, k :: 0 <= j < k < |q| ==> q[j] != q[k]
  }

  /**
   * The parameters the compactor relies on: nextStates and prevStates are
   * inverse and list each k-mer once, the support width bound is not
   * negative, and a path node may hold at least one k-mer.
   */
  ghost predicate ConfigOk(c: Config) {
    && InverseStates(c)
    && 0 <= c.maxSupportWidth <= IntMax
    && c.maxPathLength >= 1
    && (forall k :: Distinct(c.nextStates(k)))
    && (forall k :: Distinct(c.prevStates(k)))
  }

  /** b continues a's run: b follows a, starts and ends one position later, and has a's reference flag. */
  predicate Follows(c: Config, a: KmerNode, b: KmerNode) {
    && NextAdjacent(c, a, b)
    && b.startPosition == a.startPosition + 1
    && b.endPosition == a.endPosition + 1
    && b.isReference == a.isReference
  }

  /**
   * The path node ending at record o is still on its way out: it is queued
   * as complete, or o proposed a merge with a record not yet processed.
   */
  predicate Accounted(s: State, o: nat) {
    || o in s.constructed
    || (o < |s.nodes| && s.nodes[o].mergeTarget.Some? && s.nodes[o].mergeTarget.value < |s.nodes|
        && !s.nodes[s.nodes[o].mergeTarget.value].processed)
  }

  /** Record i has not been emitted: it is unprocessed, or its path node is still on its way out. */
  predicate Live(s: State, i: nat) {
    i < |s.nodes| && (!s.nodes[i].processed || Accounted(s, Tail(s, i)))
  }

  /** An unprocessed record has no links; processed ones have a path node; links point into the arena, prev links backwards. */
  predicate RecordOk(s: State, i: nat)
    requires i < |s.nodes|
  {
    var g := s.nodes[i];
    && (!g.processed ==> g.pn.None? && g.mergeTarget.None? && g.prev.None?)
    && (g.processed ==> g.pn.Some?)
    && (g.mergeTarget.Some? ==> g.mergeTarget.value < |s.nodes|)
    && (g.prev.Some? ==> g.prev.value < i)
  }

  predicate RecordsOk(s: State) {
    forall i :: 0 <= i < |s.nodes| ==> RecordOk(s, i)
  }

  /**
   * Path node p's run starts at p, holds between one and maxPathLength
   * processed records that all name p, is linked backwards by prev, and each
   * record continues the one before.
   */
  predicate RunOk(c: Config, s: State, p: nat)
    requires p in s.paths
  {
    var run := s.paths[p].run;
    && 1 <= |run| <= c.maxPathLength
    && run[0] == p
    && (forall j :: 0 <= j < |run| ==> run[j] < |s.nodes| && s.nodes[run[j]].processed && s.nodes[run[j]].pn == Some(p))
    && s.nodes[p].prev.None?
    && (forall j :: 0 < j < |run| ==>
          s.nodes[run[j]].prev == Some(run[j - 1]) && Follows(c, s.nodes[run[j - 1]].n, s.nodes[run[j]].n))
  }

  predicate RunsOk(c: Config, s: State) {
    forall p :: p in s.paths ==> RunOk(c, s, p)
  }

  /** A processed record is in the run of its path node. */
  predicate MemberOk(s: State, i: nat)
    requires i < |s.nodes|
  {
    s.nodes[i].processed ==>
      s.nodes[i].pn.Some? && s.nodes[i].pn.value in s.paths && i in s.paths[s.nodes[i].pn.value].run
  }

  predicate MembersOk(s: State) {
    forall i :: 0 <= i < |s.nodes| ==> MemberOk(s, i)
  }

  /** t is the only indexed record that follows record i. */
  predicate Exclusive(c: Config, s: State, i: nat, t: nat)
    requires i < |s.nodes|
  {
    forall x: nat :: x < |s.nodes| && Indexed(s, x) && NextAdjacent(c, s.nodes[i].n, s.nodes[x].n) ==> x == t
  }

  /** Record i ends its path node, which has room for one more record and is not queued as complete. */
  predicate PendingEnd(c: Config, s: State, i: nat)
    requires i < |s.nodes|
  {
    var g := s.nodes[i];
    && Tail(s, i) == i && i !in s.constructed
    && g.pn.Some? && g.pn.value in s.paths && |s.paths[g.pn.value].run| < c.maxPathLength
  }

  /**
   * A record i that proposed a merge with t: t continues i; while t is not
   * processed, i ends its path node, which is shorter than maxPathLength and
   * not queued as complete; and t is the only indexed record that follows i.
   */
  predicate IntentOk(c: Config, s: State, i: nat)
    requires i < |s.nodes|
  {
    var g := s.nodes[i];
    g.mergeTarget.Some? ==>
      var t := g.mergeTarget.value;
      && t < |s.nodes|
      && Follows(c, g.n, s.nodes[t].n)
      && (!s.nodes[t].processed ==> PendingEnd(c, s, i))
      && Exclusive(c, s, i, t)
  }

  predicate IntentsOk(c: Config, s: State) {
    forall i :: 0 <= i < |s.nodes| ==> IntentOk(c, s, i)
  }

  /** The arena is sorted by start, and no processed record starts after an unprocessed one. */
  predicate OrderOk(s: State) {
    && (forall i, j :: 0 <= i < j < |s.nodes| ==> s.nodes[i].n.startPosition <= s.nodes[j].n.startPosition)
    && (forall i, j :: 0 <= i < |s.nodes| && 0 <= j < |s.nodes| && s.nodes[i].processed && !s.nodes[j].processed ==>
          s.nodes[i].n.startPosition <= s.nodes[j].n.startPosition)
  }

  /** A node whose positions keep every horizon computation inside the Java int range. */
  predicate NodeBounded(c: Config, n: KmerNode) {
    IntMin + 2 * (c.maxSupportWidth + 2) <= n.startPosition <= n.endPosition < IntMax - c.maxSupportWidth - 2
  }

  /** Every record is bounded, processed records end before the horizon h, and h is below the final flush's. */
  predicate HorizonOk(c: Config, s: State, h: int) {
    && (forall i :: 0 <= i < |s.nodes| ==> NodeBounded(c, s.nodes[i].n))
    && (forall i :: 0 <= i < |s.nodes| && s.nodes[i].processed ==> s.nodes[i].n.endPosition < h)
    && h <= IntMax - c.maxSupportWidth - 2
  }

  /**
   * The unread input is bounded, sorted by start, starts no earlier than
   * the last record read, and starts at least maxSupportWidth + 2 after h.
   */
  predicate InputOk(c: Config, s: State, h: int) {
    && (forall j :: 0 <= j < |s.input| ==> NodeBounded(c, s.input[j]) && h + c.maxSupportWidth + 2 <= s.input[j].startPosition)
    && (forall j, k :: 0 <= j < k < |s.input| ==> s.input[j].startPosition <= s.input[k].startPosition)
    && (|s.input| > 0 ==> forall i :: 0 <= i < |s.nodes| ==> s.nodes[i].n.startPosition <= s.input[0].startPosition)
  }

  /** The active queue holds each unprocessed record once, and nothing else. */
  predicate ActiveOk(s: State) {
    && (forall x :: x in s.active ==> x < |s.nodes|)
    && (forall i :: 0 <= i < |s.nodes| ==> multiset(s.active)[i] == if s.nodes[i].processed then 0 else 1)
  }

  /** A completed record: processed, the end of its path node, and its proposal (if any) settled. */
  predicate CompleteOk(s: State, g: nat) {
    && g < |s.nodes|
    && s.nodes[g].processed
    && Tail(s, g) == g
    && (s.nodes[g].mergeTarget.Some? ==>
          s.nodes[g].mergeTarget.value < |s.nodes| && s.nodes[s.nodes[g].mergeTarget.value].processed)
  }

  /** The completed queue holds distinct completed records. */
  predicate ClosedOk(s: State) {
    Distinct(s.constructed) && forall g :: g in s.constructed ==> CompleteOk(s, g)
  }

  /** Index lists are not empty and list each record once. */
  predicate IndexShapeOk(s: State) {
    forall key :: key in s.index ==> |s.index[key]| > 0 && Distinct(s.index[key])
  }

  /** The index lists exactly the records not yet emitted. */
  predicate LiveOk(s: State) {
    forall i :: 0 <= i < |s.nodes| ==> (Indexed(s, i) <==> Live(s, i))
  }

  /** The parts of the invariant that do not read the active queue, with h standing for the horizon. */
  ghost predicate GraphOk(c: Config, s: State, h: int) {
    && ConfigOk(c)
    && Linked(s)
    && IndexShapeOk(s)
    && RecordsOk(s)
    && RunsOk(c, s)
    && MembersOk(s)
    && IntentsOk(c, s)
    && OrderOk(s)
    && HorizonOk(c, s, h)
    && InputOk(c, s, h)
    && ClosedOk(s)
    && LiveOk(s)
  }

  /** The invariant, with h standing for the horizon. */
  ghost predicate ValidAt(c: Config, s: State, h: int) {
    GraphOk(c, s, h) && ActiveOk(s)
  }

  /** The invariant of the iterator's state between calls. */
  ghost predicate Valid(c: Config, s: State) {
    ValidAt(c, s, s.lastProcessPosition)
  }

  /** Joining two disjoint lists without repeats gives a list without repeats. */
  lemma DistinctConcat<T>(a: seq<T>, b: seq<T>)
    requires Distinct(a) && Distinct(b)
    requires forall x :: x in a ==> x !in b
    ensures Distinct(a + b)
  {
    forall j, k | 0 <= j < k < |a + b|
      ensures (a + b)[j] != (a + b)[k]
    {
      if j < |a| && k >= |a| {
        assert (a + b)[j] in a && (a + b)[k] == b[k - |a|];
      } else if j >= |a| {
        assert (a + b)[j] == b[j - |a|] && (a + b)[k] == b[k - |a|];
      }
    }
  }

  /** A prefix of a list without repeats has none. */
  lemma DistinctInit<T>(q: seq<T>)
    requires Distinct(q) && |q| > 0
    ensures Distinct(q[..|q| - 1]) && q[|q| - 1] !in q[..|q| - 1]
  {
  }

  /** Filtering a list without repeats by overlap keeps it without repeats. */
  lemma {:induction false} WithinDistinct(s: State, list: seq<nat>, lo: int, hi: int)
    requires Distinct(list)
    ensures Distinct(Within(s, list, lo, hi))
  {
    if |list| > 0 {
      var init := list[..|list| - 1];
      DistinctInit(list);
      WithinDistinct(s, init, lo, hi);
      var x := list[|list| - 1];
      DistinctConcat(Within(s, init, lo, hi), if OverlapsNode(s, x, lo, hi) then [x] else []);
    }
  }

  /**
   * The adjacency lists repeat no record when the k-mers asked for are
   * distinct: each index list has no repeats and lists records of its own k-mer.
   */
  lemma {:induction false} AdjacentDistinct(s: State, keys: seq<int>, lo: int, hi: int)
    requires IndexKeyed(s) && IndexShapeOk(s) && Distinct(keys)
    ensures Distinct(Adjacent(s, keys, lo, hi))
  {
    if |keys| > 0 {
      var init := keys[..|keys| - 1];
      var key := keys[|keys| - 1];
      DistinctInit(keys);
      AdjacentDistinct(s, init, lo, hi);
      if key in s.index {
        var w := Within(s, s.index[key], lo, hi);
        WithinDistinct(s, s.index[key], lo, hi);
        forall x | x in Adjacent(s, init, lo, hi)
          ensures x !in w
        {
          var key' :| key' in init && key' in s.index && x in s.index[key'] && OverlapsNode(s, x, lo, hi);
          assert s.nodes[x].n.kmer == key';
        }
        DistinctConcat(Adjacent(s, init, lo, hi), w);
      }
    }
  }

  /** Filtering a list without repeats by proposal keeps it without repeats. */
  lemma {:induction false} PendingDistinct(s: State, list: seq<nat>)
    requires Distinct(list)
    ensures Distinct(Pending(s, list))
  {
    if |list| > 0 {
      var init := list[..|list| - 1];
      var x := list[|list| - 1];
      DistinctInit(list);
      PendingDistinct(s, init);
      DistinctConcat(Pending(s, init), if x < |s.nodes| && s.nodes[x].mergeTarget.Some? then [x] else []);
    }
  }

  /** The predecessors released by one step are listed once each. */
  lemma ReleasedDistinct(c: Config, s: State, gn: nat)
    requires ConfigOk(c) && IndexKeyed(s) && IndexShapeOk(s) && gn < |s.nodes|
    ensures Distinct(Released(c, s, gn))
  {
    var n := s.nodes[gn].n;
    assert Distinct(c.prevStates(n.kmer));
    AdjacentDistinct(s, c.prevStates(n.kmer), n.startPosition - 1, n.endPosition - 1);
    PendingDistinct(s, PrevKmers(c, s, gn));
  }

  // ---------------------------------------------------------------------
  // The Java assertions of process(GraphNode)
  // ---------------------------------------------------------------------

  /**
   * When the merge is confirmed, the predecessor has a path node, ends it,
   * is not queued as complete, starts and ends one position before gn, has
   * gn's reference flag, and its path node has room for gn.
   */
  lemma MergeFacts(c: Config, s: State, gn: nat)
    requires Linked(s) && RecordsOk(s) && IntentsOk(c, s)
    requires gn < |s.nodes| && !s.nodes[gn].processed
    requires Confirms(s, gn, PrevKmers(c, s, gn))
    ensures var p := PrevKmers(c, s, gn)[0];
      && p < |s.nodes| && s.nodes[p].processed
      && s.nodes[p].pn.Some? && s.nodes[p].pn.value in s.paths
      && Follows(c, s.nodes[p].n, s.nodes[gn].n)
      && Tail(s, p) == p && p !in s.constructed
      && |s.paths[s.nodes[p].pn.value].run| < c.maxPathLength
  {
    var p := PrevKmers(c, s, gn)[0];
    assert RecordOk(s, p) && IntentOk(c, s, p);
  }

  /** An unprocessed record is in the index. */
  lemma UnprocessedIndexed(s: State, gn: nat)
    requires LiveOk(s) && gn < |s.nodes| && !s.nodes[gn].processed
    ensures Indexed(s, gn)
  {
    assert Live(s, gn);
  }

  /** Every predecessor of gn that proposed a merge proposed it to gn. */
  lemma RevokedTargets(c: Config, s: State, gn: nat)
    requires ConfigOk(c) && Linked(s) && IntentsOk(c, s) && LiveOk(s)
    requires gn < |s.nodes| && !s.nodes[gn].processed
    ensures forall x :: x in PrevKmers(c, s, gn) && s.nodes[x].mergeTarget.Some? ==> s.nodes[x].mergeTarget.value == gn
  {
    PrevKmersExact(c, s, gn);
    UnprocessedIndexed(s, gn);
    forall x | x in PrevKmers(c, s, gn) && s.nodes[x].mergeTarget.Some?
      ensures s.nodes[x].mergeTarget.value == gn
    {
      PrevNextAdjacent(c, s.nodes[gn].n, s.nodes[x].n);
      assert IntentOk(c, s, x);
    }
  }

  /** The successor gn proposes to merge with has not been processed: it starts after gn. */
  lemma ProposedUnprocessed(c: Config, s: State, gn: nat)
    requires Linked(s) && OrderOk(s)
    requires gn < |s.nodes| && !s.nodes[gn].processed
    requires Proposes(c, s, gn)
    ensures !s.nodes[NextKmers(c, s, gn)[0]].processed
  {
  }

  /** A record that proposed to merge with gn is one of gn's predecessors. */
  lemma PendingIsPredecessor(c: Config, s: State, gn: nat, o: nat)
    requires ConfigOk(c) && Linked(s) && RecordsOk(s) && IntentsOk(c, s) && LiveOk(s)
    requires gn < |s.nodes| && !s.nodes[gn].processed
    requires o < |s.nodes| && s.nodes[o].mergeTarget == Some(gn)
    ensures o in PrevKmers(c, s, gn)
  {
    assert RecordOk(s, o) && IntentOk(c, s, o);
    assert Accounted(s, Tail(s, o));
    assert Live(s, o);
    PrevNextAdjacent(c, s.nodes[gn].n, s.nodes[o].n);
    PrevKmersExact(c, s, gn);
  }

  /**
   * When gn does not join its predecessor's path node, that predecessor did
   * not propose to merge with gn: then gn has one predecessor and it is not
   * the proposer, which PendingIsPredecessor rules out.
   */
  lemma ProposerConfirmedOrReleased(c: Config, s: State, gn: nat, o: nat)
    requires ConfigOk(c) && Linked(s) && RecordsOk(s) && IntentsOk(c, s) && LiveOk(s)
    requires gn < |s.nodes| && !s.nodes[gn].processed
    requires o < |s.nodes| && s.nodes[o].mergeTarget == Some(gn)
    ensures (Confirms(s, gn, PrevKmers(c, s, gn)) && PrevKmers(c, s, gn)[0] == o) || o in Released(c, s, gn)
  {
    PendingIsPredecessor(c, s, gn, o);
    var prevList := PrevKmers(c, s, gn);
    if |prevList| == 1 {
      assert prevList[0] == o;
    }
  }
}
