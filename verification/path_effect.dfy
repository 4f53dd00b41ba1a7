/**
 * What one call of process(GraphNode) changes, stated once in terms of the
 * state before the call, so that the invariant proofs never unfold the
 * function itself.
 */
module PathEffect {
  import opened Wrappers
  import opened PathNodes
  import opened PathStep

  /** s2 has the records and index of s, apart from the fields the compactor updates. */
  predicate SameGraph(s: State, s2: State) {
    && s2.index == s.index
    && |s2.nodes| == |s.nodes|
    && (forall i :: 0 <= i < |s.nodes| ==> s2.nodes[i].n == s.nodes[i].n)
  }

  lemma {:induction false} WithinSameGraph(s: State, s2: State, list: seq<nat>, lo: int, hi: int)
    requires SameGraph(s, s2)
    ensures Within(s2, list, lo, hi) == Within(s, list, lo, hi)
  {
    if |list| > 0 {
      var x := list[|list| - 1];
      WithinSameGraph(s, s2, list[..|list| - 1], lo, hi);
      assert OverlapsNode(s2, x, lo, hi) == OverlapsNode(s, x, lo, hi);
    }
  }

  lemma {:induction false} AdjacentSameGraph(s: State, s2: State, keys: seq<int>, lo: int, hi: int)
    requires SameGraph(s, s2)
    ensures Adjacent(s2, keys, lo, hi) == Adjacent(s, keys, lo, hi)
  {
    if |keys| > 0 {
      var key := keys[|keys| - 1];
      AdjacentSameGraph(s, s2, keys[..|keys| - 1], lo, hi);
      if key in s.index {
        WithinSameGraph(s, s2, s.index[key], lo, hi);
      }
    }
  }

  /** The adjacency lists only read the k-mer nodes and the index. */
  lemma KmersSameGraph(c: Config, s: State, s2: State, gn: nat)
    requires SameGraph(s, s2) && gn < |s.nodes|
    ensures NextKmers(c, s2, gn) == NextKmers(c, s, gn)
    ensures PrevKmers(c, s2, gn) == PrevKmers(c, s, gn)
  {
    var n := s.nodes[gn].n;
    AdjacentSameGraph(s, s2, c.nextStates(n.kmer), n.startPosition + 1, n.endPosition + 1);
    AdjacentSameGraph(s, s2, c.prevStates(n.kmer), n.startPosition - 1, n.endPosition - 1);
  }

  /** A record not yet processed: no path node, no merge proposal, no predecessor. */
  predicate Unstarted(s: State, gn: nat) {
    gn < |s.nodes| && s.nodes[gn].pn.None? && s.nodes[gn].mergeTarget.None? && s.nodes[gn].prev.None?
  }

  /** The path node gn joins: its predecessor's when the merge is confirmed, a new one named gn otherwise. */
  function JoinedPath(c: Config, s: State, gn: nat): nat
    requires Linked(s) && gn < |s.nodes|
  {
    var prevList := PrevKmers(c, s, gn);
    if Confirms(s, gn, prevList) then s.nodes[prevList[0]].pn.value else gn
  }

  /** The run gn's path node has once gn has joined it. */
  function JoinedRun(c: Config, s: State, gn: nat): seq<nat>
    requires Linked(s) && gn < |s.nodes|
  {
    var prevList := PrevKmers(c, s, gn);
    var path := JoinedPath(c, s, gn);
    if Confirms(s, gn, prevList) && path in s.paths then s.paths[path].run + [gn] else [gn]
  }

  /** The predecessors whose path nodes are completed because gn has zero or several predecessors. */
  function Released(c: Config, s: State, gn: nat): seq<nat>
    requires gn < |s.nodes|
  {
    var prevList := PrevKmers(c, s, gn);
    if |prevList| == 1 then [] else Pending(s, prevList)
  }

  /** Intends, with the length of gn's path node given. */
  predicate IntendsWith(c: Config, s: State, gn: nat, nextList: seq<nat>, length: int)
    requires gn < |s.nodes|
  {
    && |nextList| == 1
    && length < c.maxPathLength
    && nextList[0] < |s.nodes|
    && var a := s.nodes[gn].n;
       var b := s.nodes[nextList[0]].n;
       b.isReference == a.isReference && b.startPosition == a.startPosition + 1 && b.endPosition == a.endPosition + 1
  }

  /** gn proposes to merge with its only successor. */
  predicate Proposes(c: Config, s: State, gn: nat)
    requires Linked(s) && gn < |s.nodes|
  {
    IntendsWith(c, s, gn, NextKmers(c, s, gn), |JoinedRun(c, s, gn)|)
  }

  /**
   * r is s after process(gn): only gn's record changes (processed, its path
   * node, its predecessor, its proposal), only gn's path node's run changes
   * (gn appended, or created holding gn), and the completed queue gains the
   * released predecessors and, unless it proposed a merge, gn.
   */
  predicate Stepped(c: Config, s: State, r: State, gn: nat)
    requires Linked(s) && gn < |s.nodes|
  {
    var prevList := PrevKmers(c, s, gn);
    var path := JoinedPath(c, s, gn);
    var proposes := Proposes(c, s, gn);
    && SameGraph(s, r)
    && (forall i :: 0 <= i < |s.nodes| && i != gn ==> r.nodes[i] == s.nodes[i])
    && r.nodes[gn].processed
    && r.nodes[gn].pn == Some(path)
    && r.nodes[gn].prev == (if Confirms(s, gn, prevList) then Some(prevList[0]) else None)
    && r.nodes[gn].mergeTarget == (if proposes then Some(NextKmers(c, s, gn)[0]) else None)
    && r.paths.Keys == s.paths.Keys + {path}
    && r.paths[path].run == JoinedRun(c, s, gn)
    && (forall q :: q in s.paths && q != path ==> r.paths[q].run == s.paths[q].run)
    && r.constructed == s.constructed + Released(c, s, gn) + (if proposes then [] else [gn])
    && r.active == s.active && r.input == s.input && r.lastProcessPosition == s.lastProcessPosition
  }

  lemma ConfirmOrRevokeEffect(s: State, gn: nat, prevList: seq<nat>)
    requires Linked(s) && Unstarted(s, gn)
    requires forall x :: x in prevList ==> x < |s.nodes|
    ensures var r := ConfirmOrRevoke(s, gn, prevList);
      && SameGraph(s, r)
      && (forall i :: 0 <= i < |s.nodes| && i != gn ==> r.nodes[i] == s.nodes[i])
      && r.nodes[gn].processed == s.nodes[gn].processed
      && r.nodes[gn].mergeTarget.None?
      && (Confirms(s, gn, prevList) ==>
            var path := s.nodes[prevList[0]].pn.value;
            && r.nodes[gn].pn == Some(path) && r.nodes[gn].prev == Some(prevList[0])
            && r.paths.Keys == s.paths.Keys
            && r.paths[path].run == s.paths[path].run + [gn]
            && (forall q :: q in s.paths && q != path ==> r.paths[q].run == s.paths[q].run))
      && (!Confirms(s, gn, prevList) ==> r.nodes[gn] == s.nodes[gn] && r.paths == s.paths)
      && r.constructed == s.constructed + (if |prevList| == 1 then [] else Pending(s, prevList))
      && r.active == s.active && r.input == s.input && r.lastProcessPosition == s.lastProcessPosition
  {
    if |prevList| == 1 {
      assert prevList[0] in prevList;
    }
  }

  lemma NewPathNodeEffect(s: State, gn: nat, nextList: seq<nat>, prevList: seq<nat>)
    requires Linked(s) && gn < |s.nodes|
    ensures var r := NewPathNode(s, gn, nextList, prevList);
      && SameGraph(s, r)
      && (forall i :: 0 <= i < |s.nodes| && i != gn ==> r.nodes[i] == s.nodes[i])
      && r.nodes[gn] == s.nodes[gn].(pn := Some(gn))
      && r.paths.Keys == s.paths.Keys + {gn}
      && r.paths[gn].run == [gn]
      && (forall q :: q in s.paths && q != gn ==> r.paths[q].run == s.paths[q].run)
      && r.constructed == s.constructed && r.active == s.active
      && r.input == s.input && r.lastProcessPosition == s.lastProcessPosition
  {
  }

  /**
   * The edges of a new path node gn: to the path node of every successor
   * that has one, and from the path node of every predecessor that has one;
   * a predecessor already in gn's own path node adds no second edge, its
   * edge being the successor edge gn to gn. No other edge changes.
   */
  lemma NewPathNodeEdges(s: State, gn: nat, nextList: seq<nat>, prevList: seq<nat>)
    requires Linked(s) && gn < |s.nodes|
    ensures var r := NewPathNode(s, gn, nextList, prevList);
      && (forall t :: t in r.paths[gn].next <==> exists x :: x in nextList && PathOf(r, x) == Some(t))
      && (forall t :: t in r.paths[gn].prev <==>
            (t != gn && exists x :: x in prevList && PathOf(r, x) == Some(t))
            || (t == gn && exists x :: x in nextList && PathOf(r, x) == Some(gn)))
      && (forall q, t :: q in s.paths && q != gn ==>
            (t in r.paths[q].next <==> t in s.paths[q].next || (t == gn && exists x :: x in prevList && PathOf(r, x) == Some(q))))
      && (forall q, t :: q in s.paths && q != gn ==>
            (t in r.paths[q].prev <==> t in s.paths[q].prev || (t == gn && exists x :: x in nextList && PathOf(r, x) == Some(q))))
  {
    var s1 := StartPath(s, gn);
    var edges := SuccessorEdges(s1, gn, nextList) + PredecessorEdges(s1, gn, prevList);
    EdgesBetweenPaths(s1, gn, nextList, prevList);
    var r := NewPathNode(s, gn, nextList, prevList);
    assert r.nodes == s1.nodes && r.paths == AddEdges(s1.paths, edges);
    EdgesOfNewPath(s1, r, gn, nextList, prevList);
    EdgesOfOtherPaths(s1, r, gn, nextList, prevList);
    assert forall q :: q in s.paths && q != gn ==> s1.paths[q] == s.paths[q];
  }

  /**
   * The assertion in the self-intersection case of process(GraphNode): a
   * predecessor already in gn's new path node can only be gn itself, which
   * with inverse k-mer transitions also follows itself, so the path node's
   * edge to itself is already there.
   */
  lemma SelfEdgePresent(c: Config, s: State, gn: nat)
    requires Linked(s) && gn < |s.nodes| && InverseStates(c)
    requires forall x :: 0 <= x < |s.nodes| && x != gn ==> s.nodes[x].pn != Some(gn)
    ensures var prevList := PrevKmers(c, s, gn);
      var r := NewPathNode(s, gn, NextKmers(c, s, gn), prevList);
      forall x :: x in prevList && PathOf(r, x) == Some(gn) ==> gn in r.paths[gn].next
  {
    var prevList := PrevKmers(c, s, gn);
    var nextList := NextKmers(c, s, gn);
    var r := NewPathNode(s, gn, nextList, prevList);
    NewPathNodeEffect(s, gn, nextList, prevList);
    NewPathNodeEdges(s, gn, nextList, prevList);
    if x :| x in prevList && PathOf(r, x) == Some(gn) {
      assert x == gn;
      PrevKmersExact(c, s, gn);
      PrevNextAdjacent(c, s.nodes[gn].n, s.nodes[gn].n);
      NextKmersExact(c, s, gn);
      assert gn in nextList && PathOf(r, gn) == Some(gn);
    }
  }

  /** The edges AddEdges gives the path nodes of s1 from the successor and predecessor edges of gn. */
  lemma EdgesOfNewPath(s1: State, r: State, gn: nat, nextList: seq<nat>, prevList: seq<nat>)
    requires gn in s1.paths && s1.paths[gn].next == {} && s1.paths[gn].prev == {}
    requires var edges := SuccessorEdges(s1, gn, nextList) + PredecessorEdges(s1, gn, prevList);
      && (forall e :: e in edges ==> e.0 in s1.paths && e.1 in s1.paths)
      && r.nodes == s1.nodes && r.paths == AddEdges(s1.paths, edges)
    ensures forall t :: t in r.paths[gn].next <==> exists x :: x in nextList && PathOf(r, x) == Some(t)
    ensures forall t :: t in r.paths[gn].prev <==>
      (t != gn && exists x :: x in prevList && PathOf(r, x) == Some(t))
      || (t == gn && exists x :: x in nextList && PathOf(r, x) == Some(gn))
  {
    assert forall x :: PathOf(r, x) == PathOf(s1, x);
  }

  /** The edges AddEdges gives the other path nodes of s1: only edges to and from gn are new. */
  lemma EdgesOfOtherPaths(s1: State, r: State, gn: nat, nextList: seq<nat>, prevList: seq<nat>)
    requires gn in s1.paths
    requires var edges := SuccessorEdges(s1, gn, nextList) + PredecessorEdges(s1, gn, prevList);
      && (forall e :: e in edges ==> e.0 in s1.paths && e.1 in s1.paths)
      && r.nodes == s1.nodes && r.paths == AddEdges(s1.paths, edges)
    ensures forall q, t :: q in s1.paths && q != gn ==>
      (t in r.paths[q].next <==> t in s1.paths[q].next || (t == gn && exists x :: x in prevList && PathOf(r, x) == Some(q)))
    ensures forall q, t :: q in s1.paths && q != gn ==>
      (t in r.paths[q].prev <==> t in s1.paths[q].prev || (t == gn && exists x :: x in nextList && PathOf(r, x) == Some(q)))
  {
    assert forall x :: PathOf(r, x) == PathOf(s1, x);
  }

  lemma ProposeOrCompleteEffect(c: Config, s: State, gn: nat, nextList: seq<nat>)
    requires Linked(s) && gn < |s.nodes| && s.nodes[gn].pn.Some? && s.nodes[gn].mergeTarget.None?
    ensures var r := ProposeOrComplete(c, s, gn, nextList);
      var proposes := Intends(c, s, gn, nextList);
      && SameGraph(s, r)
      && (forall i :: 0 <= i < |s.nodes| && i != gn ==> r.nodes[i] == s.nodes[i])
      && r.nodes[gn] == s.nodes[gn].(mergeTarget := if proposes then Some(nextList[0]) else None)
      && r.paths == s.paths
      && r.constructed == s.constructed + (if proposes then [] else [gn])
      && r.active == s.active && r.input == s.input && r.lastProcessPosition == s.lastProcessPosition
  {
  }

  /** The records of a list that proposed a merge only depend on the records' proposals. */
  lemma {:induction false} PendingSameTargets(s: State, s2: State, list: seq<nat>)
    requires |s2.nodes| == |s.nodes|
    requires forall i :: 0 <= i < |s.nodes| ==> s2.nodes[i].mergeTarget == s.nodes[i].mergeTarget
    ensures Pending(s2, list) == Pending(s, list)
  {
    if |list| > 0 {
      PendingSameTargets(s, s2, list[..|list| - 1]);
    }
  }

  /**
   * r is s after the first lines of process(gn): gn is marked processed and
   * has joined its path node, and the released predecessors are completed.
   */
  predicate JoinedState(c: Config, s: State, r: State, gn: nat)
    requires Linked(s) && gn < |s.nodes|
  {
    var path := JoinedPath(c, s, gn);
    && SameGraph(s, r)
    && (forall i :: 0 <= i < |s.nodes| && i != gn ==> r.nodes[i] == s.nodes[i])
    && r.nodes[gn] == s.nodes[gn].(processed := true, pn := Some(path),
                                   prev := if Confirms(s, gn, PrevKmers(c, s, gn)) then Some(PrevKmers(c, s, gn)[0]) else None)
    && r.paths.Keys == s.paths.Keys + {path}
    && r.paths[path].run == JoinedRun(c, s, gn)
    && (forall q :: q in s.paths && q != path ==> r.paths[q].run == s.paths[q].run)
    && r.constructed == s.constructed + Released(c, s, gn)
    && r.active == s.active && r.input == s.input && r.lastProcessPosition == s.lastProcessPosition
  }

  /** The first lines of process(GraphNode), when the merge is confirmed. */
  lemma JoinStepMerges(c: Config, s: State, gn: nat)
    requires Linked(s) && Unstarted(s, gn) && Confirms(s, gn, PrevKmers(c, s, gn))
    ensures JoinedState(c, s, JoinStep(c, s, gn), gn)
  {
    var s1 := MarkProcessed(s, gn);
    KmersSameGraph(c, s, s1, gn);
    var prevList := PrevKmers(c, s1, gn);
    assert forall x :: x in prevList ==> x < |s.nodes|;
    ConfirmOrRevokeEffect(s1, gn, prevList);
  }

  /** Marking gn processed and revoking: only gn's flag and the completed queue change. */
  lemma RevokeStep(c: Config, s: State, gn: nat)
    requires Linked(s) && Unstarted(s, gn) && !Confirms(s, gn, PrevKmers(c, s, gn))
    ensures var s1 := MarkProcessed(s, gn);
      var s2 := ConfirmOrRevoke(s1, gn, PrevKmers(c, s1, gn));
      && SameGraph(s, s2)
      && (forall i :: 0 <= i < |s.nodes| && i != gn ==> s2.nodes[i] == s.nodes[i])
      && s2.nodes[gn] == s.nodes[gn].(processed := true)
      && s2.paths == s.paths
      && s2.constructed == s.constructed + Released(c, s, gn)
      && s2.active == s.active && s2.input == s.input && s2.lastProcessPosition == s.lastProcessPosition
  {
    var s1 := MarkProcessed(s, gn);
    KmersSameGraph(c, s, s1, gn);
    var prevList := PrevKmers(c, s1, gn);
    assert forall x :: x in prevList ==> x < |s.nodes|;
    ConfirmOrRevokeEffect(s1, gn, prevList);
    PendingSameTargets(s, s1, prevList);
  }

  /** Starting a path node after revoking gives the joined state. */
  lemma StartsFrom(c: Config, s: State, s2: State, r: State, gn: nat)
    requires Linked(s) && Unstarted(s, gn) && !Confirms(s, gn, PrevKmers(c, s, gn))
    requires SameGraph(s, s2)
    requires forall i :: 0 <= i < |s.nodes| && i != gn ==> s2.nodes[i] == s.nodes[i]
    requires s2.nodes[gn] == s.nodes[gn].(processed := true)
    requires s2.paths == s.paths
    requires s2.constructed == s.constructed + Released(c, s, gn)
    requires s2.active == s.active && s2.input == s.input && s2.lastProcessPosition == s.lastProcessPosition
    requires SameGraph(s2, r)
    requires forall i :: 0 <= i < |s.nodes| && i != gn ==> r.nodes[i] == s2.nodes[i]
    requires r.nodes[gn] == s2.nodes[gn].(pn := Some(gn))
    requires r.paths.Keys == s2.paths.Keys + {gn}
    requires r.paths[gn].run == [gn]
    requires forall q :: q in s2.paths && q != gn ==> r.paths[q].run == s2.paths[q].run
    requires r.constructed == s2.constructed && r.active == s2.active
    requires r.input == s2.input && r.lastProcessPosition == s2.lastProcessPosition
    ensures JoinedState(c, s, r, gn)
  {
  }

  /** The first lines of process(GraphNode), when gn starts a path node of its own. */
  lemma JoinStepStarts(c: Config, s: State, gn: nat)
    requires Linked(s) && Unstarted(s, gn) && !Confirms(s, gn, PrevKmers(c, s, gn))
    ensures JoinedState(c, s, JoinStep(c, s, gn), gn)
  {
    var s1 := MarkProcessed(s, gn);
    var prevList := PrevKmers(c, s1, gn);
    RevokeStep(c, s, gn);
    var s2 := ConfirmOrRevoke(s1, gn, prevList);
    var nextList := NextKmers(c, s2, gn);
    NewPathNodeEffect(s2, gn, nextList, prevList);
    StartsFrom(c, s, s2, NewPathNode(s2, gn, nextList, prevList), gn);
  }

  /** Proposing or completing after joining gives the effect Stepped describes. */
  lemma SteppedFrom(c: Config, s: State, s3: State, r: State, gn: nat)
    requires Linked(s) && Linked(s3) && Unstarted(s, gn)
    requires JoinedState(c, s, s3, gn)
    requires var proposes := Intends(c, s3, gn, NextKmers(c, s3, gn));
      && SameGraph(s3, r)
      && (forall i :: 0 <= i < |s.nodes| && i != gn ==> r.nodes[i] == s3.nodes[i])
      && r.nodes[gn] == s3.nodes[gn].(mergeTarget := if proposes then Some(NextKmers(c, s3, gn)[0]) else None)
      && r.paths == s3.paths
      && r.constructed == s3.constructed + (if proposes then [] else [gn])
      && r.active == s3.active && r.input == s3.input && r.lastProcessPosition == s3.lastProcessPosition
    ensures Stepped(c, s, r, gn)
  {
    KmersSameGraph(c, s, s3, gn);
    assert Intends(c, s3, gn, NextKmers(c, s3, gn)) == Proposes(c, s, gn);
  }

  /** The effect of process(GraphNode) on a record not yet processed. */
  lemma ProcessNodeEffect(c: Config, s: State, gn: nat)
    requires Linked(s) && Unstarted(s, gn)
    ensures Stepped(c, s, ProcessNode(c, s, gn), gn)
  {
    var s3 := JoinStep(c, s, gn);
    if Confirms(s, gn, PrevKmers(c, s, gn)) {
      JoinStepMerges(c, s, gn);
    } else {
      JoinStepStarts(c, s, gn);
    }
    ProposeOrCompleteEffect(c, s3, gn, NextKmers(c, s3, gn));
    SteppedFrom(c, s, s3, ProcessNode(c, s, gn), gn);
  }
}
