/**
 * One call of process(GraphNode) on the record the active queue polls keeps
 * every part of the invariant. The step is first described by name (the
 * path node gn joins, the predecessor it joins, the successor it proposes
 * to, the predecessors it releases) together with what the invariant says
 * about those names; each part of the invariant then has its own lemma
 * that reads only that description.
 */
module PathProcess {
  import opened Wrappers
  import opened PathNodes
  import opened PathStep
  import opened PathEffect
  import opened PathInvariant

  /**
   * One step named: record gn joins path node path, after predecessor join
   * when the merge is confirmed; it proposes to merge with target, if any;
   * released lists the predecessors whose path nodes it completes.
   */
  datatype Step = Step(gn: nat, path: nat, join: Option<nat>, target: Option<nat>, released: seq<nat>)

  /** r is s after the step st: only gn's record and the run of gn's path node change. */
  predicate StepShape(s: State, r: State, st: Step) {
    var gn := st.gn;
    && gn < |s.nodes|
    && SameGraph(s, r)
    && (forall i :: 0 <= i < |s.nodes| && i != gn ==> r.nodes[i] == s.nodes[i])
    && r.nodes[gn] == GraphNode(s.nodes[gn].n, Some(st.path), st.target, true, st.join)
    && r.paths.Keys == s.paths.Keys + {st.path}
    && (st.join.None? ==> st.path == gn && r.paths[st.path].run == [gn])
    && (st.join.Some? ==> st.path in s.paths && r.paths[st.path].run == s.paths[st.path].run + [gn])
    && (forall q :: q in s.paths && q != st.path ==> r.paths[q].run == s.paths[q].run)
    && r.constructed == s.constructed + st.released + (if st.target.Some? then [] else [gn])
    && r.active == s.active && r.input == s.input && r.lastProcessPosition == s.lastProcessPosition
  }

  /** gn is unprocessed, names no path node and is not queued as complete. */
  predicate GnFacts(s: State, st: Step) {
    && st.gn < |s.nodes| && !s.nodes[st.gn].processed
    && st.gn !in s.paths && st.gn !in s.constructed
  }

  /**
   * The predecessor joined proposed to merge with gn, ends its non-empty
   * path node, has room in it, is not queued as complete, and nothing is
   * released.
   */
  predicate JoinFacts(c: Config, s: State, st: Step)
    requires st.gn < |s.nodes|
  {
    st.join.Some? ==>
      var p := st.join.value;
      && p < |s.nodes| && s.nodes[p].processed && s.nodes[p].mergeTarget == Some(st.gn)
      && s.nodes[p].pn == Some(st.path) && st.path in s.paths
      && 0 < |s.paths[st.path].run| < c.maxPathLength
      && Follows(c, s.nodes[p].n, s.nodes[st.gn].n)
      && Tail(s, p) == p && p !in s.constructed
      && |st.released| == 0
  }

  /** The target is unprocessed, continues gn, is its only indexed successor, and gn's path node has room for it. */
  predicate TargetFacts(c: Config, s: State, st: Step)
    requires st.gn < |s.nodes|
  {
    st.target.Some? ==>
      var t := st.target.value;
      && t < |s.nodes| && t != st.gn && !s.nodes[t].processed
      && Follows(c, s.nodes[st.gn].n, s.nodes[t].n)
      && (st.join.Some? ==> st.path in s.paths && |s.paths[st.path].run| + 1 < c.maxPathLength)
      && (st.join.None? ==> 1 < c.maxPathLength)
      && Exclusive(c, s, st.gn, t)
  }

  /** The released records proposed to merge with gn, and every record that did is joined or released. */
  predicate ReleaseFacts(s: State, st: Step) {
    && Distinct(st.released)
    && (forall x :: x in st.released ==> x < |s.nodes| && x != st.gn && s.nodes[x].mergeTarget == Some(st.gn))
    && (forall o :: 0 <= o < |s.nodes| && s.nodes[o].mergeTarget == Some(st.gn) ==> st.join == Some(o) || o in st.released)
  }

  /** What the invariant says about the names of a step. */
  predicate StepFacts(c: Config, s: State, st: Step) {
    GnFacts(s, st) && JoinFacts(c, s, st) && TargetFacts(c, s, st) && ReleaseFacts(s, st)
  }

  /** The names of the step process(gn) takes. */
  function StepAt(c: Config, s: State, gn: nat): (st: Step)
    requires Linked(s) && gn < |s.nodes|
    ensures st.gn == gn
  {
    var prevList := PrevKmers(c, s, gn);
    Step(gn, JoinedPath(c, s, gn),
         if Confirms(s, gn, prevList) then Some(prevList[0]) else None,
         if Proposes(c, s, gn) then Some(NextKmers(c, s, gn)[0]) else None,
         Released(c, s, gn))
  }

  /** process(gn) has the shape its names describe. */
  lemma ShapeAt(c: Config, s: State, gn: nat)
    requires Linked(s) && Unstarted(s, gn)
    ensures StepShape(s, ProcessNode(c, s, gn), StepAt(c, s, gn))
  {
    ProcessNodeEffect(c, s, gn);
  }

  lemma GnFactsAt(c: Config, s: State, gn: nat)
    requires Linked(s) && RunsOk(c, s) && ClosedOk(s)
    requires gn < |s.nodes| && !s.nodes[gn].processed
    ensures GnFacts(s, StepAt(c, s, gn))
  {
    PathsProcessed(c, s);
    ConstructedProcessed(s);
  }

  lemma JoinFactsAt(c: Config, s: State, gn: nat)
    requires Linked(s) && RecordsOk(s) && IntentsOk(c, s) && MembersOk(s)
    requires gn < |s.nodes| && !s.nodes[gn].processed
    ensures JoinFacts(c, s, StepAt(c, s, gn))
  {
    var prevList := PrevKmers(c, s, gn);
    if Confirms(s, gn, prevList) {
      MergeFacts(c, s, gn);
      assert MemberOk(s, prevList[0]);
    }
  }

  lemma TargetFactsAt(c: Config, s: State, gn: nat)
    requires Linked(s) && OrderOk(s)
    requires gn < |s.nodes| && !s.nodes[gn].processed
    ensures TargetFacts(c, s, StepAt(c, s, gn))
  {
    if Proposes(c, s, gn) {
      OnlySuccessor(c, s, gn);
      ProposedUnprocessed(c, s, gn);
    }
  }

  /** A record with one successor in the adjacency list has that one as its only indexed successor. */
  lemma OnlySuccessor(c: Config, s: State, gn: nat)
    requires IndexKeyed(s) && gn < |s.nodes| && |NextKmers(c, s, gn)| == 1
    ensures NextKmers(c, s, gn)[0] < |s.nodes|
    ensures NextAdjacent(c, s.nodes[gn].n, s.nodes[NextKmers(c, s, gn)[0]].n)
    ensures Exclusive(c, s, gn, NextKmers(c, s, gn)[0])
  {
    NextKmersExact(c, s, gn);
    assert NextKmers(c, s, gn)[0] in NextKmers(c, s, gn);
  }

  lemma ReleaseFactsAt(c: Config, s: State, gn: nat)
    requires ConfigOk(c) && Linked(s) && IndexShapeOk(s) && RecordsOk(s) && IntentsOk(c, s) && LiveOk(s)
    requires gn < |s.nodes| && !s.nodes[gn].processed
    ensures ReleaseFacts(s, StepAt(c, s, gn))
  {
    var prevList := PrevKmers(c, s, gn);
    RevokedTargets(c, s, gn);
    ReleasedDistinct(c, s, gn);
    assert RecordOk(s, gn);
    forall o | 0 <= o < |s.nodes| && s.nodes[o].mergeTarget == Some(gn)
      ensures (Confirms(s, gn, prevList) && prevList[0] == o) || o in Released(c, s, gn)
    {
      ProposerConfirmedOrReleased(c, s, gn, o);
    }
  }

  /** No unprocessed record starts before gn: the active queue's head. */
  predicate MinUnprocessed(s: State, gn: nat) {
    gn < |s.nodes| && forall j :: 0 <= j < |s.nodes| && !s.nodes[j].processed ==> s.nodes[gn].n.startPosition <= s.nodes[j].n.startPosition
  }

  /** Path nodes are named by processed records. */
  lemma PathsProcessed(c: Config, s: State)
    requires RunsOk(c, s)
    ensures forall q :: q in s.paths ==> q < |s.nodes| && s.nodes[q].processed
  {
    forall q | q in s.paths
      ensures q < |s.nodes| && s.nodes[q].processed
    {
      assert RunOk(c, s, q);
    }
  }

  /** Completed records are processed. */
  lemma ConstructedProcessed(s: State)
    requires ClosedOk(s)
    ensures forall g :: g in s.constructed ==> g < |s.nodes| && s.nodes[g].processed
  {
    forall g | g in s.constructed
      ensures g < |s.nodes| && s.nodes[g].processed
    {
      assert CompleteOk(s, g);
    }
  }

  // ---------------------------------------------------------------------
  // Frame lemmas: small facts about one record or one run
  // ---------------------------------------------------------------------

  /** A record whose path node keeps its run keeps its path node's end. */
  lemma TailFrame(s: State, r: State, i: nat, q: nat)
    requires i < |s.nodes| && i < |r.nodes|
    requires s.nodes[i].pn == Some(q) && r.nodes[i].pn == Some(q)
    requires q in s.paths && q in r.paths && r.paths[q].run == s.paths[q].run
    ensures Tail(r, i) == Tail(s, i)
  {
  }

  /** A record whose path node has gn appended has gn as its path node's new end. */
  lemma TailAppend(s: State, r: State, i: nat, q: nat, gn: nat)
    requires i < |s.nodes| && i < |r.nodes|
    requires s.nodes[i].pn == Some(q) && r.nodes[i].pn == Some(q)
    requires q in s.paths && q in r.paths && r.paths[q].run == s.paths[q].run + [gn]
    ensures Tail(r, i) == gn
  {
    var run := s.paths[q].run + [gn];
    assert run[|run| - 1] == gn;
  }

  /** Records of one non-empty path node share its end. */
  lemma TailShared(s: State, i: nat, p: nat, q: nat)
    requires i < |s.nodes| && p < |s.nodes|
    requires s.nodes[i].pn == Some(q) && s.nodes[p].pn == Some(q)
    requires q in s.paths && |s.paths[q].run| > 0
    ensures Tail(s, i) == Tail(s, p)
  {
  }

  /** A run kept with all its records keeps RunOk. */
  lemma RunOkFrame(c: Config, s: State, r: State, q: nat)
    requires q in s.paths && q in r.paths && r.paths[q].run == s.paths[q].run
    requires RunOk(c, s, q) && |r.nodes| == |s.nodes|
    requires forall j :: 0 <= j < |s.paths[q].run| ==> r.nodes[s.paths[q].run[j]] == s.nodes[s.paths[q].run[j]]
    ensures RunOk(c, r, q)
  {
    var run := s.paths[q].run;
    assert r.nodes[run[0]] == s.nodes[run[0]];
  }

  /** A run with a record appended that continues its last record keeps RunOk. */
  lemma RunOkAppend(c: Config, s: State, r: State, q: nat, gn: nat)
    requires q in s.paths && q in r.paths && RunOk(c, s, q)
    requires r.paths[q].run == s.paths[q].run + [gn]
    requires |s.paths[q].run| + 1 <= c.maxPathLength
    requires |r.nodes| == |s.nodes| && gn < |r.nodes|
    requires forall j :: 0 <= j < |s.paths[q].run| ==> r.nodes[s.paths[q].run[j]] == s.nodes[s.paths[q].run[j]]
    requires var last := s.paths[q].run[|s.paths[q].run| - 1];
      && r.nodes[gn].processed && r.nodes[gn].pn == Some(q) && r.nodes[gn].prev == Some(last)
      && Follows(c, s.nodes[last].n, r.nodes[gn].n)
    ensures RunOk(c, r, q)
  {
    var old_run := s.paths[q].run;
    var run := old_run + [gn];
    assert r.nodes[old_run[0]] == s.nodes[old_run[0]];
    forall j | 0 <= j < |run|
      ensures run[j] < |r.nodes| && r.nodes[run[j]].processed && r.nodes[run[j]].pn == Some(q)
    {
      if j < |old_run| {
        assert run[j] == old_run[j];
      }
    }
    forall j | 0 < j < |run|
      ensures r.nodes[run[j]].prev == Some(run[j - 1]) && Follows(c, r.nodes[run[j - 1]].n, r.nodes[run[j]].n)
    {
      assert run[j - 1] == old_run[j - 1];
      if j < |old_run| {
        assert run[j] == old_run[j];
      }
    }
  }

  /** t remains the only indexed successor of i while the index and the k-mer nodes are the same. */
  lemma ExclusiveFrame(c: Config, s: State, r: State, i: nat, t: nat)
    requires SameGraph(s, r) && i < |s.nodes| && Exclusive(c, s, i, t)
    ensures Exclusive(c, r, i, t)
  {
    forall x: nat | x < |r.nodes| && Indexed(r, x) && NextAdjacent(c, r.nodes[i].n, r.nodes[x].n)
      ensures x == t
    {
      assert Indexed(s, x);
    }
  }

  /** The end of a record's path node, for a processed record: a processed record of the same path node. */
  lemma TailMember(c: Config, s: State, i: nat)
    requires Linked(s) && RecordsOk(s) && RunsOk(c, s)
    requires i < |s.nodes| && s.nodes[i].processed
    ensures Tail(s, i) < |s.nodes| && s.nodes[Tail(s, i)].processed && s.nodes[Tail(s, i)].pn == s.nodes[i].pn
    ensures s.nodes[i].pn.Some? && s.nodes[i].pn.value in s.paths
  {
    assert RecordOk(s, i);
    assert RunOk(c, s, s.nodes[i].pn.value);
  }

  // ---------------------------------------------------------------------
  // One lemma per part of the invariant
  // ---------------------------------------------------------------------

  /** After the step gn ends its path node. */
  lemma StepTailOfGn(s: State, r: State, st: Step)
    requires StepShape(s, r, st)
    ensures Tail(r, st.gn) == st.gn
  {
    var run := r.paths[st.path].run;
    assert run[|run| - 1] == st.gn;
  }

  /**
   * The step moves the end of one path node only: the one gn joins; every
   * other processed record keeps its path node's end.
   */
  lemma StepTail(c: Config, s: State, r: State, st: Step, i: nat)
    requires StepShape(s, r, st) && GnFacts(s, st) && JoinFacts(c, s, st)
    requires i < |s.nodes| && s.nodes[i].processed && s.nodes[i].pn.Some? && s.nodes[i].pn.value in s.paths
    ensures if st.join.Some? && s.nodes[i].pn == Some(st.path)
      then Tail(r, i) == st.gn && Tail(s, i) == st.join.value
      else Tail(r, i) == Tail(s, i)
  {
    var q := s.nodes[i].pn.value;
    assert r.nodes[i] == s.nodes[i];
    if st.join.Some? && q == st.path {
      TailAppend(s, r, i, q, st.gn);
      TailShared(s, i, st.join.value, q);
    } else {
      TailFrame(s, r, i, q);
    }
  }

  lemma StepLinked(s: State, r: State, st: Step)
    requires StepShape(s, r, st) && Linked(s)
    ensures Linked(r)
  {
    SameKmersKeyed(s, r);
    forall i | 0 <= i < |r.nodes| && r.nodes[i].pn.Some?
      ensures r.nodes[i].pn.value in r.paths
    {
      if i != st.gn {
        assert s.nodes[i].pn.value in s.paths;
      }
    }
  }

  lemma StepRecords(c: Config, s: State, r: State, st: Step)
    requires StepShape(s, r, st) && GnFacts(s, st) && JoinFacts(c, s, st) && TargetFacts(c, s, st)
    requires RecordsOk(s) && OrderOk(s)
    ensures RecordsOk(r)
  {
    forall i | 0 <= i < |r.nodes|
      ensures RecordOk(r, i)
    {
      if i != st.gn {
        assert RecordOk(s, i);
      }
    }
  }

  /** A path node other than the one gn joins keeps its run, whose records the step leaves alone. */
  lemma StepRunKept(c: Config, s: State, r: State, st: Step, q: nat)
    requires StepShape(s, r, st) && GnFacts(s, st)
    requires q in s.paths && q != st.path && RunOk(c, s, q)
    ensures q in r.paths && RunOk(c, r, q)
  {
    var run := s.paths[q].run;
    forall j | 0 <= j < |run|
      ensures r.nodes[run[j]] == s.nodes[run[j]]
    {
      assert run[j] != st.gn;
    }
    RunOkFrame(c, s, r, q);
  }

  /** The path node gn joins ends with gn: appended to the predecessor's run, or alone in a new one. */
  lemma StepRunJoined(c: Config, s: State, r: State, st: Step)
    requires StepShape(s, r, st) && GnFacts(s, st) && JoinFacts(c, s, st) && ConfigOk(c)
    requires st.join.Some? ==> RunOk(c, s, st.path)
    ensures RunOk(c, r, st.path)
  {
    if st.join.Some? {
      var old_run := s.paths[st.path].run;
      assert Tail(s, st.join.value) == old_run[|old_run| - 1];
      forall j | 0 <= j < |old_run|
        ensures r.nodes[old_run[j]] == s.nodes[old_run[j]]
      {
        assert old_run[j] != st.gn;
      }
      RunOkAppend(c, s, r, st.path, st.gn);
    }
  }

  lemma StepRuns(c: Config, s: State, r: State, st: Step)
    requires StepShape(s, r, st) && GnFacts(s, st) && JoinFacts(c, s, st) && ConfigOk(c) && RunsOk(c, s)
    ensures RunsOk(c, r)
  {
    forall q | q in r.paths
      ensures RunOk(c, r, q)
    {
      if q == st.path {
        if st.join.Some? {
          assert RunOk(c, s, st.path);
        }
        StepRunJoined(c, s, r, st);
      } else {
        assert RunOk(c, s, q);
        StepRunKept(c, s, r, st, q);
      }
    }
  }

  lemma StepMembers(c: Config, s: State, r: State, st: Step)
    requires StepShape(s, r, st) && GnFacts(s, st) && MembersOk(s)
    ensures MembersOk(r)
  {
    forall i | 0 <= i < |r.nodes|
      ensures MemberOk(r, i)
    {
      if i == st.gn {
        assert st.gn in r.paths[st.path].run;
      } else if s.nodes[i].processed {
        assert MemberOk(s, i);
        if s.nodes[i].pn.value == st.path {
          assert i in r.paths[st.path].run;
        }
      }
    }
  }

  /** gn's own proposal, if it makes one, satisfies IntentOk. */
  lemma StepIntentOfGn(c: Config, s: State, r: State, st: Step)
    requires StepShape(s, r, st) && GnFacts(s, st) && TargetFacts(c, s, st) && ReleaseFacts(s, st)
    ensures IntentOk(c, r, st.gn)
  {
    if st.target.Some? {
      var t := st.target.value;
      assert r.nodes[t] == s.nodes[t];
      StepTailOfGn(s, r, st);
      ExclusiveFrame(c, s, r, st.gn, t);
    }
  }

  /** Another record's proposal is not disturbed by the step. */
  lemma StepIntentOther(c: Config, s: State, r: State, st: Step, i: nat)
    requires StepShape(s, r, st) && GnFacts(s, st) && JoinFacts(c, s, st) && ReleaseFacts(s, st)
    requires i < |s.nodes| && i != st.gn
    requires RecordOk(s, i) && IntentOk(c, s, i)
    ensures IntentOk(c, r, i)
  {
    var g := s.nodes[i];
    assert r.nodes[i] == g;
    if g.mergeTarget.Some? {
      var t := g.mergeTarget.value;
      ExclusiveFrame(c, s, r, i, t);
      if t != st.gn && !s.nodes[t].processed {
        StepTail(c, s, r, st, i);
      }
    }
  }

  lemma StepIntents(c: Config, s: State, r: State, st: Step)
    requires StepShape(s, r, st) && StepFacts(c, s, st) && RecordsOk(s) && IntentsOk(c, s)
    ensures IntentsOk(c, r)
  {
    forall i | 0 <= i < |r.nodes|
      ensures IntentOk(c, r, i)
    {
      if i == st.gn {
        StepIntentOfGn(c, s, r, st);
      } else {
        assert RecordOk(s, i) && IntentOk(c, s, i);
        StepIntentOther(c, s, r, st, i);
      }
    }
  }

  lemma StepOrder(c: Config, s: State, r: State, st: Step)
    requires StepShape(s, r, st) && OrderOk(s) && MinUnprocessed(s, st.gn)
    ensures OrderOk(r)
  {
  }

  lemma StepHorizon(c: Config, s: State, r: State, st: Step, h: int)
    requires StepShape(s, r, st) && HorizonOk(c, s, h) && InputOk(c, s, h)
    requires s.nodes[st.gn].n.endPosition < h
    ensures HorizonOk(c, r, h) && InputOk(c, r, h)
  {
  }

  /** A predecessor released by the step ends its path node and has its proposal settled. */
  lemma StepReleased(c: Config, s: State, r: State, st: Step, g: nat)
    requires StepShape(s, r, st) && GnFacts(s, st) && JoinFacts(c, s, st) && ReleaseFacts(s, st)
    requires g < |s.nodes| && RecordOk(s, g) && IntentOk(c, s, g)
    requires g in st.released
    ensures g !in s.constructed && CompleteOk(r, g)
  {
    StepTail(c, s, r, st, g);
  }

  /** A record already completed stays completed. */
  lemma StepCompleteKept(c: Config, s: State, r: State, st: Step, g: nat)
    requires StepShape(s, r, st) && GnFacts(s, st) && JoinFacts(c, s, st) && Linked(s)
    requires CompleteOk(s, g) && RecordOk(s, g) && g in s.constructed
    ensures CompleteOk(r, g)
  {
    StepTail(c, s, r, st, g);
  }

  lemma StepClosed(c: Config, s: State, r: State, st: Step)
    requires StepShape(s, r, st) && StepFacts(c, s, st) && Linked(s) && RecordsOk(s)
    requires IntentsOk(c, s) && ClosedOk(s)
    ensures ClosedOk(r)
  {
    var own: seq<nat> := if st.target.Some? then [] else [st.gn];
    forall g | g in st.released
      ensures g !in s.constructed && CompleteOk(r, g)
    {
      assert RecordOk(s, g) && IntentOk(c, s, g);
      StepReleased(c, s, r, st, g);
    }
    DistinctConcat(s.constructed, st.released);
    DistinctConcat(s.constructed + st.released, own);
    forall g | g in r.constructed
      ensures CompleteOk(r, g)
    {
      if g in s.constructed {
        assert CompleteOk(s, g) && RecordOk(s, g);
        StepCompleteKept(c, s, r, st, g);
      } else if g == st.gn {
        StepTailOfGn(s, r, st);
      }
    }
  }

  /** gn is still on its way out after the step: it proposed a merge or is queued as complete. */
  lemma StepGnAccounted(c: Config, s: State, r: State, st: Step)
    requires StepShape(s, r, st) && TargetFacts(c, s, st)
    ensures Accounted(r, st.gn)
  {
    if st.target.Some? {
      assert r.nodes[st.target.value] == s.nodes[st.target.value];
    }
  }

  /** Whether the path node ending at o, a processed record other than gn and the predecessor joined, is on its way out does not change. */
  lemma StepAccountedOther(s: State, r: State, st: Step, o: nat)
    requires StepShape(s, r, st) && GnFacts(s, st) && ReleaseFacts(s, st)
    requires o < |s.nodes| && s.nodes[o].processed && st.join != Some(o)
    ensures Accounted(r, o) == Accounted(s, o)
  {
    assert r.nodes[o] == s.nodes[o];
  }

  /** Whether a processed record other than gn is still in the graph does not change. */
  lemma StepLiveOther(c: Config, s: State, r: State, st: Step, i: nat)
    requires StepShape(s, r, st) && GnFacts(s, st) && JoinFacts(c, s, st) && TargetFacts(c, s, st) && ReleaseFacts(s, st)
    requires i < |s.nodes| && i != st.gn && s.nodes[i].processed && s.nodes[i].pn.Some? && s.nodes[i].pn.value in s.paths
    requires Tail(s, i) < |s.nodes| && s.nodes[Tail(s, i)].processed && s.nodes[Tail(s, i)].pn == s.nodes[i].pn
    ensures Live(r, i) == Live(s, i)
  {
    StepTail(c, s, r, st, i);
    assert r.nodes[i] == s.nodes[i];
    if st.join.Some? && s.nodes[i].pn == Some(st.path) {
      StepTailOfGn(s, r, st);
      StepGnAccounted(c, s, r, st);
    } else {
      StepAccountedOther(s, r, st, Tail(s, i));
    }
  }

  lemma StepLive(c: Config, s: State, r: State, st: Step)
    requires StepShape(s, r, st) && StepFacts(c, s, st) && Linked(s) && RecordsOk(s) && RunsOk(c, s) && LiveOk(s)
    ensures LiveOk(r)
  {
    forall i | 0 <= i < |r.nodes|
      ensures Indexed(r, i) <==> Live(r, i)
    {
      assert Indexed(r, i) == Indexed(s, i);
      assert Indexed(s, i) <==> Live(s, i);
      if i == st.gn {
        StepTailOfGn(s, r, st);
        StepGnAccounted(c, s, r, st);
        UnprocessedIndexed(s, st.gn);
      } else if s.nodes[i].processed {
        TailMember(c, s, i);
        StepLiveOther(c, s, r, st, i);
      } else {
        assert r.nodes[i] == s.nodes[i];
      }
    }
  }

  // ---------------------------------------------------------------------
  // The whole step
  // ---------------------------------------------------------------------

  /** s2 has the records and path nodes of s. */
  predicate SameArena(s: State, s2: State) {
    s2.nodes == s.nodes && s2.paths == s.paths
  }

  /** s2 differs from s at most in its active queue and its horizon field. */
  predicate SameContent(s: State, s2: State) {
    SameArena(s, s2) && s2.input == s.input && s2.index == s.index && s2.constructed == s.constructed
  }

  lemma RecordsFrame(s: State, s2: State)
    requires RecordsOk(s) && SameArena(s, s2)
    ensures RecordsOk(s2)
  {
    forall i | 0 <= i < |s.nodes|
      ensures RecordOk(s2, i)
    {
      assert RecordOk(s, i);
    }
  }

  lemma MembersFrame(s: State, s2: State)
    requires MembersOk(s) && SameArena(s, s2)
    ensures MembersOk(s2)
  {
    forall i | 0 <= i < |s.nodes|
      ensures MemberOk(s2, i)
    {
      assert MemberOk(s, i);
    }
  }

  lemma IntentsFrame(c: Config, s: State, s2: State)
    requires IntentsOk(c, s) && SameContent(s, s2)
    ensures IntentsOk(c, s2)
  {
    forall i | 0 <= i < |s.nodes|
      ensures IntentOk(c, s2, i)
    {
      assert IntentOk(c, s, i);
      assert Tail(s2, i) == Tail(s, i);
      if s.nodes[i].mergeTarget.Some? {
        ExclusiveFrame(c, s, s2, i, s.nodes[i].mergeTarget.value);
      }
    }
  }

  lemma LiveFrame(s: State, s2: State)
    requires LiveOk(s) && SameContent(s, s2)
    ensures LiveOk(s2)
  {
    forall i | 0 <= i < |s.nodes|
      ensures Indexed(s2, i) <==> Live(s2, i)
    {
      assert Indexed(s, i) <==> Live(s, i);
      assert Tail(s2, i) == Tail(s, i);
    }
  }

  lemma RunsFrame(c: Config, s: State, s2: State)
    requires RunsOk(c, s) && SameArena(s, s2)
    ensures RunsOk(c, s2)
  {
    forall p | p in s.paths
      ensures RunOk(c, s2, p)
    {
      assert RunOk(c, s, p);
    }
  }

  lemma ClosedFrame(s: State, s2: State)
    requires ClosedOk(s) && SameContent(s, s2)
    ensures ClosedOk(s2)
  {
    forall g | g in s.constructed
      ensures CompleteOk(s2, g)
    {
      assert CompleteOk(s, g);
    }
  }

  /** The graph parts of the invariant read neither the active queue nor the horizon field. */
  lemma GraphOkFrame(c: Config, s: State, s2: State, h: int)
    requires GraphOk(c, s, h) && SameContent(s, s2)
    ensures GraphOk(c, s2, h)
  {
    RecordsFrame(s, s2);
    MembersFrame(s, s2);
    IntentsFrame(c, s, s2);
    LiveFrame(s, s2);
    RunsFrame(c, s, s2);
    ClosedFrame(s, s2);
  }

  /** The active queue's head is unprocessed and starts no later than any unprocessed record. */
  lemma HeadFacts(s: State)
    requires ActiveOk(s) && |s.active| > 0
    ensures var gn := s.active[ActiveHead(s)];
      gn < |s.nodes| && !s.nodes[gn].processed && MinUnprocessed(s, gn)
  {
    var m := ActiveHead(s);
    var gn := s.active[m];
    assert gn in s.active;
    forall j | 0 <= j < |s.nodes| && !s.nodes[j].processed
      ensures s.nodes[gn].n.startPosition <= s.nodes[j].n.startPosition
    {
      assert multiset(s.active)[j] == 1;
      var k :| 0 <= k < |s.active| && s.active[k] == j;
      assert StartOf(s, s.active[m]) <= StartOf(s, s.active[k]);
    }
  }

  /** The invariant gives the facts about the names of process(gn), for an unprocessed gn. */
  lemma FactsFromGraph(c: Config, s: State, gn: nat, h: int)
    requires GraphOk(c, s, h) && gn < |s.nodes| && !s.nodes[gn].processed
    ensures StepFacts(c, s, StepAt(c, s, gn))
  {
    GnFactsAt(c, s, gn);
    JoinFactsAt(c, s, gn);
    TargetFactsAt(c, s, gn);
    ReleaseFactsAt(c, s, gn);
  }

  /** A step on the first unprocessed record, which ends before the horizon, keeps the graph parts of the invariant. */
  lemma StepGraph(c: Config, s: State, r: State, st: Step, h: int)
    requires GraphOk(c, s, h) && StepShape(s, r, st) && StepFacts(c, s, st)
    requires MinUnprocessed(s, st.gn) && s.nodes[st.gn].n.endPosition < h
    ensures GraphOk(c, r, h)
  {
    StepLinked(s, r, st);
    StepRecords(c, s, r, st);
    StepRuns(c, s, r, st);
    StepMembers(c, s, r, st);
    StepIntents(c, s, r, st);
    StepOrder(c, s, r, st);
    StepHorizon(c, s, r, st, h);
    StepClosed(c, s, r, st);
    StepLive(c, s, r, st);
  }

  /** Processing the first unprocessed record, which ends before the horizon, keeps the graph parts of the invariant. */
  lemma ProcessGraph(c: Config, s: State, gn: nat, h: int)
    requires GraphOk(c, s, h) && gn < |s.nodes| && !s.nodes[gn].processed
    requires MinUnprocessed(s, gn) && s.nodes[gn].n.endPosition < h
    ensures GraphOk(c, ProcessNode(c, s, gn), h)
    ensures StepShape(s, ProcessNode(c, s, gn), StepAt(c, s, gn))
  {
    assert RecordOk(s, gn);
    ShapeAt(c, s, gn);
    FactsFromGraph(c, s, gn, h);
    StepGraph(c, s, ProcessNode(c, s, gn), StepAt(c, s, gn), h);
  }

  /** Polling the first unprocessed record and processing it, when it ends before the horizon, keeps the graph parts of the invariant. */
  lemma PolledGraph(c: Config, s: State, m: nat, h: int)
    requires GraphOk(c, s, h) && m < |s.active|
    requires s.active[m] < |s.nodes| && !s.nodes[s.active[m]].processed
    requires MinUnprocessed(s, s.active[m]) && s.nodes[s.active[m]].n.endPosition < h
    ensures GraphOk(c, ProcessNode(c, s.(active := RemoveAt(s.active, m)), s.active[m]), h)
  {
    GraphOkFrame(c, s, s.(active := RemoveAt(s.active, m)), h);
    ProcessGraph(c, s.(active := RemoveAt(s.active, m)), s.active[m], h);
  }

  /** With gn polled from the active queue and then processed, the active queue again holds exactly the unprocessed records. */
  lemma ActivePolled(s: State, m: nat, r: State, st: Step)
    requires ActiveOk(s) && m < |s.active| && st.gn == s.active[m]
    requires StepShape(s.(active := RemoveAt(s.active, m)), r, st)
    ensures ActiveOk(r)
  {
    var q := RemoveAt(s.active, m);
    assert multiset(q) == multiset(s.active) - multiset{st.gn};
    forall x | x in q
      ensures x < |r.nodes|
    {
      assert x in multiset(q);
      assert x in multiset(s.active);
      assert x in s.active;
    }
    forall i | 0 <= i < |r.nodes|
      ensures multiset(r.active)[i] == if r.nodes[i].processed then 0 else 1
    {
      assert multiset(q)[i] == multiset(s.active)[i] - if i == st.gn then 1 else 0;
      if i != st.gn {
        assert r.nodes[i] == s.nodes[i];
      }
    }
  }

  /**
   * One turn of the loop in process(int): polling the active queue's head
   * and processing it, when it ends before the horizon, keeps the invariant.
   */
  lemma ProcessHeadValid(c: Config, s: State, h: int)
    requires ValidAt(c, s, h) && |s.active| > 0
    requires s.active[ActiveHead(s)] < |s.nodes| && s.nodes[s.active[ActiveHead(s)]].n.endPosition < h
    ensures ValidAt(c, ProcessNode(c, s.(active := RemoveAt(s.active, ActiveHead(s))), s.active[ActiveHead(s)]), h)
  {
    var m := ActiveHead(s);
    var gn := s.active[m];
    var s0 := s.(active := RemoveAt(s.active, m));
    HeadFacts(s);
    PolledGraph(c, s, m, h);
    assert RecordOk(s, gn);
    ShapeAt(c, s0, gn);
    ActivePolled(s, m, ProcessNode(c, s0, gn), StepAt(c, s0, gn));
  }
}
