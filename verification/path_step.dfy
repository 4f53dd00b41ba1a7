/**
 * The state changes of the path-node compactor (PathNodeIterator): adding an
 * input node to the graph, processing one record (confirming or revoking the
 * merge its predecessor proposed, creating its path node and edges, and
 * proposing a merge with its successor), and removing an emitted run from
 * the k-mer index.
 */
module PathStep {
  import opened Wrappers
  import opened PathNodes

  datatype CompactorError =
    | WidthExceeded       // a node's support width is larger than maxSupportWidth
    | NullPointer         // next() past the end: poll() returns null and gn.pn dereferences it
    | MissingIndexEntry   // a record of an emitted run is not in the k-mer index

  // ---------------------------------------------------------------------
  // addAggregateNodeToGraph
  // ---------------------------------------------------------------------

  /** A fresh record for an input node. */
  function Fresh(node: KmerNode): GraphNode {
    GraphNode(node, None, None, false, None)
  }

  /**
   * addAggregateNodeToGraph: refuse a node wider than maxSupportWidth;
   * otherwise give it a fresh record, queue it as active and list it in the
   * index under its k-mer.
   */
  function AddAggregateNode(c: Config, s: State, node: KmerNode): (r: Result<State, CompactorError>)
    ensures r.Failure? <==> node.width > c.maxSupportWidth
    ensures r.Failure? ==> r.error == WidthExceeded
    ensures r.Success? ==> AddedAs(s, r.value, node)
  {
    if node.width > c.maxSupportWidth then Failure(WidthExceeded)
    else
      var id := |s.nodes|;
      Success(s.(nodes := s.nodes + [Fresh(node)],
                 active := s.active + [id],
                 index := IndexAdd(s.index, node.kmer, id)))
  }

  /**
   * s2 is s with node registered once: one fresh record at the end of the
   * arena, one more entry in the active queue and one more entry in the
   * index list of its k-mer, and nothing else changed.
   */
  predicate AddedAs(s: State, s2: State, node: KmerNode) {
    var id: nat := |s.nodes|;
    && s2.nodes == s.nodes + [Fresh(node)]
    && multiset(s2.active) == multiset(s.active) + multiset{id}
    && s2.index.Keys == s.index.Keys + {node.kmer}
    && multiset(s2.index[node.kmer]) == multiset(if node.kmer in s.index then s.index[node.kmer] else []) + multiset{id}
    && (forall key :: key in s.index && key != node.kmer ==> s2.index[key] == s.index[key])
    && s2.input == s.input && s2.paths == s.paths && s2.constructed == s.constructed
    && s2.lastProcessPosition == s.lastProcessPosition
  }

  // ---------------------------------------------------------------------
  // process(GraphNode)
  // ---------------------------------------------------------------------

  /**
   * The record links ProcessNode follows exist: index lists name in-arena
   * records of their own k-mer, every record's path node exists, and a
   * record that proposed a merge has a path node.
   */
  predicate Linked(s: State) {
    && IndexKeyed(s)
    && (forall i :: 0 <= i < |s.nodes| && s.nodes[i].pn.Some? ==> s.nodes[i].pn.value in s.paths)
    && (forall i :: 0 <= i < |s.nodes| && s.nodes[i].mergeTarget.Some? ==> s.nodes[i].pn.Some?)
  }

  /** The records of list that proposed a merge, in order. */
  function Pending(s: State, list: seq<nat>): (r: seq<nat>)
    ensures forall x :: x in r <==> x in list && x < |s.nodes| && s.nodes[x].mergeTarget.Some?
  {
    if |list| == 0 then []
    else
      var x := list[|list| - 1];
      assert list == list[..|list| - 1] + [x];
      Pending(s, list[..|list| - 1]) + (if x < |s.nodes| && s.nodes[x].mergeTarget.Some? then [x] else [])
  }

  /**
   * The merge is confirmed when gn has exactly one predecessor and that
   * predecessor proposed to merge with gn.
   */
  predicate Confirms(s: State, gn: nat, prevList: seq<nat>) {
    |prevList| == 1 && prevList[0] < |s.nodes| && s.nodes[prevList[0]].mergeTarget == Some(gn)
  }

  /**
   * Lines confirming or revoking the proposed merge: with one predecessor
   * that proposed to merge with gn, append gn to its path node; with zero or
   * several predecessors, every predecessor that proposed a merge has its
   * path node completed instead.
   */
  function ConfirmOrRevoke(s: State, gn: nat, prevList: seq<nat>): (r: State)
    requires Linked(s) && gn < |s.nodes|
    requires forall x :: x in prevList ==> x < |s.nodes|
    ensures Linked(r) && |r.nodes| == |s.nodes| && r.active == s.active && r.input == s.input
  {
    if |prevList| == 1 then
      var p := prevList[0];
      assert p in prevList;
      if s.nodes[p].mergeTarget == Some(gn) then
        var path := s.nodes[p].pn.value;
        var r := s.(paths := s.paths[path := s.paths[path].(run := s.paths[path].run + [gn])],
                    nodes := s.nodes[gn := s.nodes[gn].(pn := Some(path), prev := Some(p))]);
        SameKmersKeyed(s, r);
        r
      else s
    else
      var r := s.(constructed := s.constructed + Pending(s, prevList));
      SameKmersKeyed(s, r);
      r
  }

  /** KmerPathNode.addEdge: to becomes a successor of from, and from a predecessor of to. */
  function AddEdge(paths: map<nat, PathNode>, from: nat, to: nat): (r: map<nat, PathNode>)
    requires from in paths && to in paths
    ensures r.Keys == paths.Keys
    ensures forall q :: q in paths ==> r[q].run == paths[q].run
    ensures forall q, x :: q in paths ==> (x in r[q].next <==> x in paths[q].next || (q == from && x == to))
    ensures forall q, x :: q in paths ==> (x in r[q].prev <==> x in paths[q].prev || (q == to && x == from))
  {
    var p1 := paths[from := paths[from].(next := paths[from].next + {to})];
    p1[to := p1[to].(prev := p1[to].prev + {from})]
  }

  /** Edges (from, to) between existing path nodes added to paths, in order. */
  function AddEdges(paths: map<nat, PathNode>, edges: seq<(nat, nat)>): (r: map<nat, PathNode>)
    requires forall e :: e in edges ==> e.0 in paths && e.1 in paths
    ensures r.Keys == paths.Keys
    ensures forall q :: q in paths ==> r[q].run == paths[q].run
    ensures forall q, x :: q in paths ==> (x in r[q].next <==> x in paths[q].next || (q, x) in edges)
    ensures forall q, x :: q in paths ==> (x in r[q].prev <==> x in paths[q].prev || (x, q) in edges)
  {
    if |edges| == 0 then paths
    else
      var e := edges[|edges| - 1];
      var init := edges[..|edges| - 1];
      assert edges == init + [e];
      assert e in edges;
      AddEdge(AddEdges(paths, init), e.0, e.1)
  }

  /** The path node of record x, when it has one. */
  function PathOf(s: State, x: nat): Option<nat> {
    if x < |s.nodes| then s.nodes[x].pn else None
  }

  /** An edge from path node from to the path node of each successor that has one. */
  function SuccessorEdges(s: State, from: nat, nextList: seq<nat>): (r: seq<(nat, nat)>)
    ensures forall e :: e in r <==> e.0 == from && exists x :: x in nextList && PathOf(s, x) == Some(e.1)
  {
    if |nextList| == 0 then []
    else
      var x := nextList[|nextList| - 1];
      assert nextList == nextList[..|nextList| - 1] + [x];
      SuccessorEdges(s, from, nextList[..|nextList| - 1]) + (if PathOf(s, x).Some? then [(from, PathOf(s, x).value)] else [])
  }

  /**
   * An edge to path node to from the path node of each predecessor that has
   * one, except a predecessor in path node to itself, whose edge the
   * successor edges already hold.
   */
  function PredecessorEdges(s: State, to: nat, prevList: seq<nat>): (r: seq<(nat, nat)>)
    ensures forall e :: e in r <==> e.1 == to && e.0 != to && exists x :: x in prevList && PathOf(s, x) == Some(e.0)
  {
    if |prevList| == 0 then []
    else
      var x := prevList[|prevList| - 1];
      assert prevList == prevList[..|prevList| - 1] + [x];
      PredecessorEdges(s, to, prevList[..|prevList| - 1])
        + (if PathOf(s, x).Some? && PathOf(s, x).value != to then [(PathOf(s, x).value, to)] else [])
  }

  /**
   * Lines creating the path node of an unmerged record gn: a new path node
   * named gn holding gn alone, with edges to the successors' and from the
   * predecessors' existing path nodes.
   */
  function NewPathNode(s: State, gn: nat, nextList: seq<nat>, prevList: seq<nat>): (r: State)
    requires Linked(s) && gn < |s.nodes|
    ensures Linked(r) && |r.nodes| == |s.nodes| && r.nodes[gn].pn == Some(gn) && gn in r.paths
    ensures r.active == s.active && r.input == s.input
  {
    var s1 := StartPath(s, gn);
    var edges := SuccessorEdges(s1, gn, nextList) + PredecessorEdges(s1, gn, prevList);
    EdgesBetweenPaths(s1, gn, nextList, prevList);
    var r := s1.(paths := AddEdges(s1.paths, edges));
    LinkedPathsGrow(s1, r.paths);
    r
  }

  /** A new path node named gn holding gn alone. */
  function StartPath(s: State, gn: nat): (r: State)
    requires Linked(s) && gn < |s.nodes|
    ensures Linked(r) && |r.nodes| == |s.nodes| && r.nodes[gn].pn == Some(gn) && gn in r.paths
    ensures r.active == s.active && r.input == s.input
  {
    var r := s.(nodes := s.nodes[gn := s.nodes[gn].(pn := Some(gn))],
                paths := s.paths[gn := PathNode([gn], {}, {})]);
    SameKmersKeyed(s, r);
    r
  }

  /** The new path node's edges join existing path nodes. */
  lemma EdgesBetweenPaths(s: State, gn: nat, nextList: seq<nat>, prevList: seq<nat>)
    requires Linked(s) && gn in s.paths
    ensures forall e :: e in SuccessorEdges(s, gn, nextList) + PredecessorEdges(s, gn, prevList) ==> e.0 in s.paths && e.1 in s.paths
  {
  }

  /** Linked only needs the path nodes to exist, so more path nodes keep it. */
  lemma LinkedPathsGrow(s: State, paths: map<nat, PathNode>)
    requires Linked(s) && s.paths.Keys <= paths.Keys
    ensures Linked(s.(paths := paths))
  {
    SameKmersKeyed(s, s.(paths := paths));
  }

  /** Records with the same k-mers and the same index keep the index keyed. */
  lemma SameKmersKeyed(s: State, r: State)
    requires IndexKeyed(s) && r.index == s.index && |r.nodes| == |s.nodes|
    requires forall i :: 0 <= i < |s.nodes| ==> r.nodes[i].n == s.nodes[i].n
    ensures IndexKeyed(r)
  {
    forall key: int, x: nat | key in r.index && x in r.index[key]
      ensures x < |r.nodes| && r.nodes[x].n.kmer == key
    {
      assert key in s.index && x in s.index[key];
      assert x < |s.nodes| && s.nodes[x].n.kmer == key;
      assert r.nodes[x].n == s.nodes[x].n;
    }
  }

  /**
   * gn may merge with next: gn has exactly one successor, gn's path node is
   * shorter than maxPathLength, and the successor has the same reference
   * flag and starts and ends exactly one position later.
   */
  predicate Intends(c: Config, s: State, gn: nat, nextList: seq<nat>)
    requires gn < |s.nodes| && s.nodes[gn].pn.Some? && s.nodes[gn].pn.value in s.paths
  {
    && |nextList| == 1
    && |s.paths[s.nodes[gn].pn.value].run| < c.maxPathLength
    && nextList[0] < |s.nodes|
    && var a := s.nodes[gn].n;
       var b := s.nodes[nextList[0]].n;
       b.isReference == a.isReference && b.startPosition == a.startPosition + 1 && b.endPosition == a.endPosition + 1
  }

  /** The position in the active queue of the record it polls: the first with the least start position. */
  function ActiveHead(s: State): (m: nat)
    requires |s.active| > 0
    ensures m < |s.active|
    ensures forall j :: 0 <= j < |s.active| ==> StartOf(s, s.active[m]) <= StartOf(s, s.active[j])
    ensures forall j :: 0 <= j < m ==> StartOf(s, s.active[m]) < StartOf(s, s.active[j])
  {
    MinIndex(s.active, (i: nat) => StartOf(s, i))
  }

  /** gn's record marked processed. */
  function MarkProcessed(s: State, gn: nat): (r: State)
    requires Linked(s) && gn < |s.nodes|
    ensures Linked(r) && |r.nodes| == |s.nodes|
  {
    var r := s.(nodes := s.nodes[gn := s.nodes[gn].(processed := true)]);
    SameKmersKeyed(s, r);
    r
  }

  /**
   * The last lines of process(GraphNode): propose the merge when Intends
   * holds, and complete gn's path node when no merge was proposed.
   */
  function ProposeOrComplete(c: Config, s: State, gn: nat, nextList: seq<nat>): (r: State)
    requires Linked(s) && gn < |s.nodes| && s.nodes[gn].pn.Some?
    ensures Linked(r) && |r.nodes| == |s.nodes| && r.active == s.active && r.input == s.input
  {
    var s4 := if Intends(c, s, gn, nextList)
      then s.(nodes := s.nodes[gn := s.nodes[gn].(mergeTarget := Some(nextList[0]))])
      else s;
    if s4.nodes[gn].mergeTarget.None? then s4.(constructed := s4.constructed + [gn]) else s4
  }

  /**
   * The first lines of process(GraphNode): mark gn processed, confirm or
   * revoke the merge proposed to it, and give it a new path node when it
   * did not join its predecessor's.
   */
  function JoinStep(c: Config, s: State, gn: nat): (r: State)
    requires Linked(s) && gn < |s.nodes|
    ensures Linked(r) && |r.nodes| == |s.nodes| && r.nodes[gn].pn.Some?
    ensures r.active == s.active && r.input == s.input
  {
    var s1 := MarkProcessed(s, gn);
    var prevList := PrevKmers(c, s1, gn);
    var s2 := ConfirmOrRevoke(s1, gn, prevList);
    var nextList := NextKmers(c, s2, gn);
    if s2.nodes[gn].pn.None? then NewPathNode(s2, gn, nextList, prevList) else s2
  }

  /** process(GraphNode): one record's turn, once its predecessors are all in the graph. */
  function ProcessNode(c: Config, s: State, gn: nat): (r: State)
    requires Linked(s) && gn < |s.nodes|
    ensures Linked(r) && |r.nodes| == |s.nodes| && r.active == s.active && r.input == s.input
  {
    var s3 := JoinStep(c, s, gn);
    ProposeOrComplete(c, s3, gn, NextKmers(c, s3, gn))
  }

  // ---------------------------------------------------------------------
  // removeFromGraph
  // ---------------------------------------------------------------------

  /** Every record's predecessor in its run lies earlier in the arena. */
  predicate PrevBelow(nodes: seq<GraphNode>) {
    forall i :: 0 <= i < |nodes| && nodes[i].prev.Some? ==> nodes[i].prev.value < i
  }

  /** The records reached from record i by following prev links, first one first. */
  function Chain(nodes: seq<GraphNode>, i: nat): (r: seq<nat>)
    requires i < |nodes| && PrevBelow(nodes)
    ensures |r| > 0 && r[|r| - 1] == i
    ensures forall x :: x in r ==> x <= i
    decreases i
  {
    match nodes[i].prev
    case None => [i]
    case Some(p) => Chain(nodes, p) + [i]
  }

  /** The index with record x dropped from the list of key, and key dropped when its list empties. */
  function Unlist(index: map<int, seq<nat>>, key: int, x: nat): map<int, seq<nat>>
    requires key in index
  {
    var rest := RemoveFirst(index[key], x);
    if |rest| == 0 then index - {key} else index[key := rest]
  }

  /**
   * removeFromGraph: walk the prev links from record i, dropping each record
   * from the index list of its k-mer and dropping lists that empty. A record
   * whose k-mer has no list is an error.
   */
  function RemoveFromGraph(nodes: seq<GraphNode>, index: map<int, seq<nat>>, i: nat): (r: Option<map<int, seq<nat>>>)
    requires i < |nodes| && PrevBelow(nodes)
    decreases i
  {
    var key := nodes[i].n.kmer;
    if key !in index then None
    else
      var index2 := Unlist(index, key, i);
      match nodes[i].prev
      case None => Some(index2)
      case Some(p) => RemoveFromGraph(nodes, index2, p)
  }
}
