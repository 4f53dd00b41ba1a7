/**
 * Emitting a completed path node, the second half of next(): the completed
 * queue is polled and removeFromGraph drops the polled path node's records
 * from the k-mer index. Under the invariant the walk along the prev links
 * visits exactly the path node's run, every record it visits is indexed,
 * and the index afterwards lists exactly the records not yet emitted.
 */
module PathEmit {
  import opened Wrappers
  import opened PathNodes
  import opened PathStep
  import opened PathInvariant
  import opened PathProcess

  /** The position in the completed queue of the record next() polls: the first whose path node starts least. */
  function ConstructedHead(s: State): (m: nat)
    requires |s.constructed| > 0
    ensures m < |s.constructed|
    ensures forall j :: 0 <= j < |s.constructed| ==> FirstKmerStartOf(s, s.constructed[m]) <= FirstKmerStartOf(s, s.constructed[j])
    ensures forall j :: 0 <= j < m ==> FirstKmerStartOf(s, s.constructed[m]) < FirstKmerStartOf(s, s.constructed[j])
  {
    MinIndex(s.constructed, (i: nat) => FirstKmerStartOf(s, i))
  }

  /** Records whose prev links point backwards, as the record invariant demands. */
  lemma RecordsPrevBelow(s: State)
    requires RecordsOk(s)
    ensures PrevBelow(s.nodes)
  {
    forall i | 0 <= i < |s.nodes| && s.nodes[i].prev.Some?
      ensures s.nodes[i].prev.value < i
    {
      assert RecordOk(s, i);
    }
  }

  /**
   * Poll the completed queue and drop the polled record's run from the
   * index, returning the id of the emitted path node. Polling an empty
   * queue fails, and so does a record whose k-mer has no index list.
   */
  function Emit(s: State): (r: Result<(nat, State), CompactorError>)
    requires RecordsOk(s) && ClosedOk(s)
    ensures r.Failure? ==> r.error == NullPointer || r.error == MissingIndexEntry
    ensures (r.Failure? && r.error == NullPointer) <==> |s.constructed| == 0
    ensures r.Success? ==>
      |s.constructed| > 0 && s.constructed[ConstructedHead(s)] < |s.nodes| &&
      s.nodes[s.constructed[ConstructedHead(s)]].pn == Some(r.value.0)
  {
    if |s.constructed| == 0 then Failure(NullPointer)
    else
      var m := ConstructedHead(s);
      var g := s.constructed[m];
      assert CompleteOk(s, g) && RecordOk(s, g);
      RecordsPrevBelow(s);
      match RemoveFromGraph(s.nodes, s.index, g)
      case None => Failure(MissingIndexEntry)
      case Some(index) => Success((s.nodes[g].pn.value, s.(constructed := RemoveAt(s.constructed, m), index := index)))
  }

  // ---------------------------------------------------------------------
  // removeFromGraph removes exactly the chain
  // ---------------------------------------------------------------------

  /** Record y is listed in index under key. */
  predicate Listed(index: map<int, seq<nat>>, key: int, y: nat) {
    key in index && y in index[key]
  }

  /** Every list of index is non-empty and lists each record once. */
  predicate ListsOk(index: map<int, seq<nat>>) {
    forall key :: key in index ==> |index[key]| > 0 && Distinct(index[key])
  }

  /** Removing the first occurrence of x from a list without repeats removes x and nothing else. */
  lemma {:induction false} RemoveFirstDistinct(xs: seq<nat>, x: nat)
    requires Distinct(xs)
    ensures Distinct(RemoveFirst(xs, x))
    ensures forall y :: y in RemoveFirst(xs, x) <==> y in xs && y != x
  {
    if |xs| > 0 {
      assert xs == [xs[0]] + xs[1..];
      assert Distinct(xs[1..]);
      if xs[0] != x {
        RemoveFirstDistinct(xs[1..], x);
        DistinctConcat([xs[0]], RemoveFirst(xs[1..], x));
      }
    }
  }

  /** Unlisting x under key removes exactly that entry, and keeps the lists non-empty and without repeats. */
  lemma UnlistExact(index: map<int, seq<nat>>, key: int, x: nat)
    requires key in index && ListsOk(index)
    ensures ListsOk(Unlist(index, key, x))
    ensures forall k: int, y: nat :: Listed(Unlist(index, key, x), k, y) <==> Listed(index, k, y) && !(k == key && y == x)
  {
    RemoveFirstDistinct(index[key], x);
  }

  /**
   * Walking the prev links from record i removes from the index exactly the
   * chain's records, each under its own k-mer, provided each is listed
   * there; the walk then never meets a k-mer without a list.
   */
  lemma {:induction false} RemoveExact(nodes: seq<GraphNode>, index: map<int, seq<nat>>, i: nat)
    requires i < |nodes| && PrevBelow(nodes) && ListsOk(index)
    requires forall x :: x in Chain(nodes, i) ==> Listed(index, nodes[x].n.kmer, x)
    ensures RemoveFromGraph(nodes, index, i).Some?
    ensures ListsOk(RemoveFromGraph(nodes, index, i).value)
    ensures forall k: int, y: nat :: Listed(RemoveFromGraph(nodes, index, i).value, k, y) <==>
      Listed(index, k, y) && !(y in Chain(nodes, i) && k == nodes[y].n.kmer)
    decreases i
  {
    var key := nodes[i].n.kmer;
    assert i in Chain(nodes, i);
    var index2 := Unlist(index, key, i);
    UnlistExact(index, key, i);
    match nodes[i].prev
    case None =>
    case Some(p) =>
      assert Chain(nodes, i) == Chain(nodes, p) + [i];
      forall x | x in Chain(nodes, p)
        ensures Listed(index2, nodes[x].n.kmer, x)
      {
        assert x in Chain(nodes, i);
      }
      RemoveExact(nodes, index2, p);
  }

  /** Following prev links from the j-th record of a run gives the run's first j + 1 records. */
  lemma {:induction false} ChainOfRun(c: Config, s: State, p: nat, j: nat)
    requires RecordsOk(s) && p in s.paths && RunOk(c, s, p) && j < |s.paths[p].run|
    ensures PrevBelow(s.nodes)
    ensures Chain(s.nodes, s.paths[p].run[j]) == s.paths[p].run[..j + 1]
  {
    RecordsPrevBelow(s);
    var run := s.paths[p].run;
    if j > 0 {
      ChainOfRun(c, s, p, j - 1);
      assert run[..j + 1] == run[..j] + [run[j]];
    }
  }

  // ---------------------------------------------------------------------
  // Emitting keeps the invariant
  // ---------------------------------------------------------------------

  /** A queue without repeats loses exactly its element at m. */
  lemma RemoveAtDistinct(q: seq<nat>, m: nat)
    requires Distinct(q) && m < |q|
    ensures Distinct(RemoveAt(q, m))
    ensures forall x :: x in RemoveAt(q, m) <==> x in q && x != q[m]
  {
    var r := RemoveAt(q, m);
    assert forall j :: 0 <= j < |r| ==> r[j] == if j < m then q[j] else q[j + 1];
    forall x | x in q && x != q[m]
      ensures x in r
    {
      var j :| 0 <= j < |q| && q[j] == x;
      if j < m {
        assert r[j] == x;
      } else {
        assert r[j - 1] == x;
      }
    }
  }

  /** The run of the path node that completed record g belongs to, which g ends. */
  lemma CompleteRun(c: Config, s: State, g: nat)
    requires RecordsOk(s) && MembersOk(s) && RunsOk(c, s) && CompleteOk(s, g)
    ensures s.nodes[g].pn.Some? && s.nodes[g].pn.value in s.paths
    ensures var run := s.paths[s.nodes[g].pn.value].run;
      && 1 <= |run| && run[|run| - 1] == g
      && PrevBelow(s.nodes) && Chain(s.nodes, g) == run
  {
    assert MemberOk(s, g);
    var p := s.nodes[g].pn.value;
    assert RunOk(c, s, p);
    var run := s.paths[p].run;
    assert Tail(s, g) == run[|run| - 1];
    ChainOfRun(c, s, p, |run| - 1);
    assert run[..|run|] == run;
  }

  /** Every record of the run of a completed record queued for emission is indexed. */
  lemma RunIndexed(c: Config, s: State, g: nat)
    requires RunsOk(c, s) && LiveOk(s) && CompleteOk(s, g) && g in s.constructed
    requires s.nodes[g].pn.Some? && s.nodes[g].pn.value in s.paths
    ensures forall x :: x in s.paths[s.nodes[g].pn.value].run ==> Indexed(s, x)
  {
    var p := s.nodes[g].pn.value;
    assert RunOk(c, s, p);
    forall x | x in s.paths[p].run
      ensures Indexed(s, x)
    {
      assert Tail(s, x) == Tail(s, g);
      assert Indexed(s, x) <==> Live(s, x);
    }
  }

  /**
   * Emission succeeds on a non-empty completed queue, leaves the records,
   * path nodes, input and active queue alone, and afterwards the index lists
   * exactly the records it listed before that are not in the emitted run.
   */
  lemma EmitIndexed(c: Config, s: State)
    requires Linked(s) && IndexShapeOk(s) && RecordsOk(s) && MembersOk(s) && RunsOk(c, s)
    requires ClosedOk(s) && LiveOk(s) && |s.constructed| > 0
    ensures Emit(s).Success?
    ensures var g := s.constructed[ConstructedHead(s)];
      var r := Emit(s).value.1;
      && g < |s.nodes| && s.nodes[g].pn.Some? && s.nodes[g].pn.value in s.paths
      && r.nodes == s.nodes && r.paths == s.paths && r.input == s.input && r.active == s.active
      && r.lastProcessPosition == s.lastProcessPosition
      && r.constructed == RemoveAt(s.constructed, ConstructedHead(s))
      && IndexKeyed(r) && IndexShapeOk(r)
      && (forall x: nat :: x < |s.nodes| ==> (Indexed(r, x) <==> Indexed(s, x) && x !in s.paths[s.nodes[g].pn.value].run))
    ensures var g := s.constructed[ConstructedHead(s)];
      var run := s.paths[s.nodes[g].pn.value].run;
      && 1 <= |run| <= c.maxPathLength && run[|run| - 1] == g
      && (forall j :: 0 < j < |run| ==> Follows(c, s.nodes[run[j - 1]].n, s.nodes[run[j]].n))
  {
    var m := ConstructedHead(s);
    var g := s.constructed[m];
    assert CompleteOk(s, g);
    CompleteRun(c, s, g);
    assert RunOk(c, s, s.nodes[g].pn.value);
    RunIndexed(c, s, g);
    RemoveExact(s.nodes, s.index, g);
    var r := Emit(s).value.1;
    var run := s.paths[s.nodes[g].pn.value].run;
    forall x: nat | x < |s.nodes|
      ensures Indexed(r, x) <==> Indexed(s, x) && x !in run
    {
      assert Indexed(r, x) <==> Listed(r.index, s.nodes[x].n.kmer, x);
    }
    forall key | key in r.index
      ensures forall x: nat :: x in r.index[key] ==> x < |r.nodes| && r.nodes[x].n.kmer == key
    {
      forall x: nat | x in r.index[key]
        ensures x < |r.nodes| && r.nodes[x].n.kmer == key
      {
        assert Listed(r.index, key, x);
      }
    }
  }

  /** After emission, a record's proposal (if any) and the records it may follow are as before, minus the emitted ones. */
  lemma EmitIntents(c: Config, s: State, r: State)
    requires IntentsOk(c, s)
    requires r.nodes == s.nodes && r.paths == s.paths
    requires forall x :: x in r.constructed ==> x in s.constructed
    requires forall x: nat :: Indexed(r, x) ==> Indexed(s, x)
    ensures IntentsOk(c, r)
  {
    forall i | 0 <= i < |r.nodes|
      ensures IntentOk(c, r, i)
    {
      assert IntentOk(c, s, i);
      assert Tail(r, i) == Tail(s, i);
    }
  }

  lemma EmitClosed(s: State, r: State, m: nat)
    requires ClosedOk(s) && m < |s.constructed|
    requires r.nodes == s.nodes && r.paths == s.paths && r.constructed == RemoveAt(s.constructed, m)
    ensures ClosedOk(r)
  {
    RemoveAtDistinct(s.constructed, m);
    forall g | g in r.constructed
      ensures CompleteOk(r, g)
    {
      assert CompleteOk(s, g);
      assert Tail(r, g) == Tail(s, g);
    }
  }

  /**
   * A processed record not in the run of path node p has its path node end
   * at a record other than the end of p's run.
   */
  lemma OtherTail(c: Config, s: State, y: nat, g: nat)
    requires RunsOk(c, s) && MembersOk(s) && y < |s.nodes| && s.nodes[y].processed
    requires g < |s.nodes| && s.nodes[g].pn.Some? && s.nodes[g].pn.value in s.paths
    requires Tail(s, g) == g && y !in s.paths[s.nodes[g].pn.value].run
    ensures Tail(s, y) != g
  {
    assert MemberOk(s, y);
    var q := s.nodes[y].pn.value;
    assert RunOk(c, s, q);
    var run := s.paths[q].run;
    assert s.nodes[Tail(s, y)].pn == Some(q) by {
      assert Tail(s, y) == run[|run| - 1];
    }
  }

  lemma EmitLive(c: Config, s: State, r: State, m: nat)
    requires RunsOk(c, s) && MembersOk(s) && ClosedOk(s) && LiveOk(s) && m < |s.constructed|
    requires r.nodes == s.nodes && r.paths == s.paths && r.constructed == RemoveAt(s.constructed, m)
    requires var g := s.constructed[m]; g < |s.nodes| && s.nodes[g].pn.Some? && s.nodes[g].pn.value in s.paths
    requires forall x: nat :: x < |s.nodes| ==>
      (Indexed(r, x) <==> Indexed(s, x) && x !in s.paths[s.nodes[s.constructed[m]].pn.value].run)
    ensures LiveOk(r)
  {
    var g := s.constructed[m];
    var p := s.nodes[g].pn.value;
    assert CompleteOk(s, g);
    assert RunOk(c, s, p);
    RemoveAtDistinct(s.constructed, m);
    forall y | 0 <= y < |r.nodes|
      ensures Indexed(r, y) <==> Live(r, y)
    {
      assert Indexed(s, y) <==> Live(s, y);
      assert Tail(r, y) == Tail(s, y);
      if s.nodes[y].processed {
        if y in s.paths[p].run {
          assert Tail(s, y) == Tail(s, g);
        } else {
          OtherTail(c, s, y, g);
        }
      }
    }
  }

  /** The parts of the invariant about positions and links read only the records, path nodes and input. */
  lemma PositionsFrame(c: Config, s: State, r: State, h: int)
    requires OrderOk(s) && HorizonOk(c, s, h) && InputOk(c, s, h) && Linked(s) && IndexKeyed(r)
    requires SameArena(s, r) && r.input == s.input
    ensures OrderOk(r) && HorizonOk(c, r, h) && InputOk(c, r, h) && Linked(r)
  {
  }

  /** Dropping record g's run from the index and g from the completed queue keeps the graph parts of the invariant. */
  lemma DroppedGraph(c: Config, s: State, r: State, m: nat, h: int)
    requires GraphOk(c, s, h) && m < |s.constructed|
    requires SameArena(s, r) && r.input == s.input && r.constructed == RemoveAt(s.constructed, m)
    requires IndexKeyed(r) && IndexShapeOk(r)
    requires var g := s.constructed[m]; g < |s.nodes| && s.nodes[g].pn.Some? && s.nodes[g].pn.value in s.paths
    requires forall x: nat :: x < |s.nodes| ==>
      (Indexed(r, x) <==> Indexed(s, x) && x !in s.paths[s.nodes[s.constructed[m]].pn.value].run)
    ensures GraphOk(c, r, h)
  {
    PositionsFrame(c, s, r, h);
    RecordsFrame(s, r);
    MembersFrame(s, r);
    RunsFrame(c, s, r);
    RemoveAtDistinct(s.constructed, m);
    EmitIntents(c, s, r);
    EmitClosed(s, r, m);
    EmitLive(c, s, r, m);
  }

  /** Emission keeps the graph parts of the invariant. */
  lemma EmitGraph(c: Config, s: State, h: int)
    requires GraphOk(c, s, h) && |s.constructed| > 0
    ensures Emit(s).Success? && GraphOk(c, Emit(s).value.1, h)
  {
    EmitIndexed(c, s);
    DroppedGraph(c, s, Emit(s).value.1, ConstructedHead(s), h);
  }
}
