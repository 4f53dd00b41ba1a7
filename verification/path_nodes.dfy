/**
 * The state of the positional path-node compactor (PathNodeIterator): the
 * k-mer nodes it reads, the arena of per-node bookkeeping records, the
 * compacted path nodes, the k-mer index, the two priority queues and the
 * processing horizon; and the read-only queries over that state.
 */
module PathNodes {
  import opened Wrappers
  import opened JavaText

  /**
   * An aggregated k-mer node: a k-mer supported at every start position of
   * the closed interval [startPosition, endPosition]. width is the node's own
   * support width, which the compactor only compares with its bound.
   */
  datatype KmerNode = KmerNode(kmer: int, startPosition: int, endPosition: int, isReference: bool, width: int)

  /**
   * The compactor's record for one input node. Records live in an arena and
   * refer to each other by arena index: pn is the path node the record
   * belongs to (named by the arena index of its first record), mergeTarget
   * the successor it proposes to merge with, prev its predecessor in its run.
   */
  datatype GraphNode = GraphNode(n: KmerNode, pn: Option<nat>, mergeTarget: Option<nat>, processed: bool, prev: Option<nat>)

  /** A compacted path node: its run of records, and the path nodes it has edges to and from. */
  datatype PathNode = PathNode(run: seq<nat>, next: set<nat>, prev: set<nat>)

  /**
   * The compactor's parameters. nextStates and prevStates give the k-mers
   * one base after and before a k-mer (the k-mer length is folded into them).
   */
  datatype Config = Config(maxSupportWidth: int, maxPathLength: int, nextStates: int -> seq<int>, prevStates: int -> seq<int>)

  /**
   * The iterator's state: the input not yet read, the record arena, the path
   * nodes by id, the k-mer index of records still in the graph, the queue of
   * records not yet processed, the queue of records whose path node is
   * complete, and the horizon of the last processing pass.
   */
  datatype State = State(
    input: seq<KmerNode>,
    nodes: seq<GraphNode>,
    paths: map<nat, PathNode>,
    index: map<int, seq<nat>>,
    active: seq<nat>,
    constructed: seq<nat>,
    lastProcessPosition: int)

  /** The state of a fresh iterator over the given input. */
  function Initial(input: seq<KmerNode>): (s: State)
    ensures s.input == input && |s.nodes| == 0 && |s.index| == 0
    ensures |s.active| == 0 && |s.constructed| == 0 && s.lastProcessPosition == IntMin
  {
    State(input, [], map[], map[], [], [], IntMin)
  }

  /** Closed intervals [start1, end1] and [start2, end2] share a position. */
  predicate OverlapsClosed(start1: int, end1: int, start2: int, end2: int) {
    start1 <= end2 && start2 <= end1
  }

  /** b follows a: its k-mer is one base on and its interval meets a's shifted one position right. */
  predicate NextAdjacent(c: Config, a: KmerNode, b: KmerNode) {
    b.kmer in c.nextStates(a.kmer) && OverlapsClosed(a.startPosition + 1, a.endPosition + 1, b.startPosition, b.endPosition)
  }

  /** b precedes a: its k-mer is one base back and its interval meets a's shifted one position left. */
  predicate PrevAdjacent(c: Config, a: KmerNode, b: KmerNode) {
    b.kmer in c.prevStates(a.kmer) && OverlapsClosed(a.startPosition - 1, a.endPosition - 1, b.startPosition, b.endPosition)
  }

  /** nextStates and prevStates are each other's inverse. */
  ghost predicate InverseStates(c: Config) {
    forall a: int, b: int :: b in c.nextStates(a) <==> a in c.prevStates(b)
  }

  /** With inverse k-mer transitions, b precedes a exactly when a follows b. */
  lemma PrevNextAdjacent(c: Config, a: KmerNode, b: KmerNode)
    requires InverseStates(c)
    ensures PrevAdjacent(c, a, b) <==> NextAdjacent(c, b, a)
  {
    assert b.kmer in c.prevStates(a.kmer) <==> a.kmer in c.nextStates(b.kmer);
  }

  /** The last record of record i's path node; i itself when it has none. */
  function Tail(s: State, i: nat): nat {
    if i < |s.nodes| && s.nodes[i].pn.Some? && s.nodes[i].pn.value in s.paths && |s.paths[s.nodes[i].pn.value].run| > 0
    then
      var run := s.paths[s.nodes[i].pn.value].run;
      run[|run| - 1]
    else i
  }

  // ---------------------------------------------------------------------
  // Priority queues
  // ---------------------------------------------------------------------

  /** The position of the first element of q with the least key: the element a priority queue polls. */
  function MinIndex(q: seq<nat>, key: nat -> int): (i: nat)
    requires |q| > 0
    ensures i < |q|
    ensures forall j :: 0 <= j < |q| ==> key(q[i]) <= key(q[j])
    ensures forall j :: 0 <= j < i ==> key(q[i]) < key(q[j])
  {
    if |q| == 1 then 0
    else
      var i := MinIndex(q[..|q| - 1], key);
      if key(q[|q| - 1]) < key(q[i]) then |q| - 1 else i
  }

  /** q without its element at position i. */
  function RemoveAt(q: seq<nat>, i: nat): (r: seq<nat>)
    requires i < |q|
    ensures |r| == |q| - 1
    ensures multiset(r) == multiset(q) - multiset{q[i]}
    ensures forall x :: x in r ==> x in q
  {
    assert q == q[..i] + [q[i]] + q[i + 1..];
    q[..i] + q[i + 1..]
  }

  /** The arena start position of record i; the ordering key of the active queue. */
  function StartOf(s: State, i: nat): int {
    if i < |s.nodes| then s.nodes[i].n.startPosition else 0
  }

  /**
   * The start position of the first k-mer of record i's path node; the
   * ordering key of the completed-path queue.
   */
  function FirstKmerStartOf(s: State, i: nat): int {
    if i < |s.nodes| && s.nodes[i].pn.Some? then StartOf(s, s.nodes[i].pn.value) else 0
  }

  // ---------------------------------------------------------------------
  // The k-mer index
  // ---------------------------------------------------------------------

  /** Record i is listed in the index under its own k-mer. */
  predicate Indexed(s: State, i: nat) {
    i < |s.nodes| && s.nodes[i].n.kmer in s.index && i in s.index[s.nodes[i].n.kmer]
  }

  /** The index with id appended to the list under key, which is created when absent. */
  function IndexAdd(index: map<int, seq<nat>>, key: int, id: nat): (r: map<int, seq<nat>>)
    ensures r.Keys == index.Keys + {key}
    ensures r[key] == (if key in index then index[key] else []) + [id]
    ensures forall k :: k in index && k != key ==> r[k] == index[k]
  {
    index[key := (if key in index then index[key] else []) + [id]]
  }

  /** xs without the first occurrence of x, as a list's remove(Object) does. */
  function RemoveFirst(xs: seq<nat>, x: nat): (r: seq<nat>)
    ensures x in xs ==> multiset(r) == multiset(xs) - multiset{x}
    ensures x !in xs ==> r == xs
  {
    if |xs| == 0 then []
    else
      assert xs == [xs[0]] + xs[1..];
      if xs[0] == x then xs[1..]
      else
        [xs[0]] + RemoveFirst(xs[1..], x)
  }

  /** Record x's interval meets [lo, hi]. */
  predicate OverlapsNode(s: State, x: nat, lo: int, hi: int) {
    x < |s.nodes| && OverlapsClosed(lo, hi, s.nodes[x].n.startPosition, s.nodes[x].n.endPosition)
  }

  /** The records of list, in order, whose intervals meet [lo, hi]. */
  function Within(s: State, list: seq<nat>, lo: int, hi: int): (r: seq<nat>)
    ensures forall x :: x in r <==> x in list && OverlapsNode(s, x, lo, hi)
  {
    if |list| == 0 then []
    else
      var x := list[|list| - 1];
      assert list == list[..|list| - 1] + [x];
      Within(s, list[..|list| - 1], lo, hi) + (if OverlapsNode(s, x, lo, hi) then [x] else [])
  }

  /**
   * For each k-mer of keys in turn, the records indexed under it whose
   * intervals meet [lo, hi]; the common loop of nextKmers and prevKmers.
   */
  function Adjacent(s: State, keys: seq<int>, lo: int, hi: int): (adj: seq<nat>)
    ensures forall x :: x in adj <==> exists key :: key in keys && key in s.index && x in s.index[key] && OverlapsNode(s, x, lo, hi)
  {
    if |keys| == 0 then []
    else
      var key := keys[|keys| - 1];
      var init := keys[..|keys| - 1];
      assert keys == init + [key];
      Adjacent(s, init, lo, hi) + (if key in s.index then Within(s, s.index[key], lo, hi) else [])
  }

  /** The records that may follow record gn: nextKmers. */
  function NextKmers(c: Config, s: State, gn: nat): (adj: seq<nat>)
    requires gn < |s.nodes|
  {
    var n := s.nodes[gn].n;
    Adjacent(s, c.nextStates(n.kmer), n.startPosition + 1, n.endPosition + 1)
  }

  /** The records that may precede record gn: prevKmers. */
  function PrevKmers(c: Config, s: State, gn: nat): (adj: seq<nat>)
    requires gn < |s.nodes|
  {
    var n := s.nodes[gn].n;
    Adjacent(s, c.prevStates(n.kmer), n.startPosition - 1, n.endPosition - 1)
  }

  /** Every list of the index holds in-arena records of the list's own k-mer. */
  predicate IndexKeyed(s: State) {
    forall key: int :: key in s.index ==> forall x: nat :: x in s.index[key] ==> x < |s.nodes| && s.nodes[x].n.kmer == key
  }

  /** nextKmers finds exactly the indexed records that follow gn. */
  lemma NextKmersExact(c: Config, s: State, gn: nat)
    requires gn < |s.nodes| && IndexKeyed(s)
    ensures forall x: nat :: x in NextKmers(c, s, gn) <==> Indexed(s, x) && NextAdjacent(c, s.nodes[gn].n, s.nodes[x].n)
  {
    var n := s.nodes[gn].n;
    forall x: nat
      ensures x in NextKmers(c, s, gn) <==> Indexed(s, x) && NextAdjacent(c, n, s.nodes[x].n)
    {
      if Indexed(s, x) && NextAdjacent(c, n, s.nodes[x].n) {
        var key := s.nodes[x].n.kmer;
        assert key in c.nextStates(n.kmer) && key in s.index && x in s.index[key];
      }
    }
  }

  /** prevKmers finds exactly the indexed records that precede gn. */
  lemma PrevKmersExact(c: Config, s: State, gn: nat)
    requires gn < |s.nodes| && IndexKeyed(s)
    ensures forall x: nat :: x in PrevKmers(c, s, gn) <==> Indexed(s, x) && PrevAdjacent(c, s.nodes[gn].n, s.nodes[x].n)
  {
    var n := s.nodes[gn].n;
    forall x: nat
      ensures x in PrevKmers(c, s, gn) <==> Indexed(s, x) && PrevAdjacent(c, n, s.nodes[x].n)
    {
      if Indexed(s, x) && PrevAdjacent(c, n, s.nodes[x].n) {
        var key := s.nodes[x].n.kmer;
        assert key in c.prevStates(n.kmer) && key in s.index && x in s.index[key];
      }
    }
  }
}
