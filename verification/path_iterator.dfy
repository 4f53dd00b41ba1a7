/**
 * PathNodeIterator's public face: process(int), edgesFullyDefined,
 * ensureBuffer, hasNext and next, over the state and steps of the other
 * path modules; and the theorems that the invariant holds from
 * construction on, that every call keeps it, and that the Java assertions
 * of these methods hold.
 */
module PathIterator {
  import opened Wrappers
  import opened JavaText
  import opened PathNodes
  import opened PathStep
  import opened PathInvariant
  import opened PathProcess
  import opened PathAdd
  import opened PathEmit

  /** Every record in the active queue is in the arena. */
  predicate ActiveInArena(s: State) {
    forall x :: x in s.active ==> x < |s.nodes|
  }

  /**
   * The loop of process(int): while the active queue's head ends before h,
   * poll it and process it.
   */
  function Drain(c: Config, s: State, h: int): (r: State)
    requires Linked(s) && ActiveInArena(s)
    ensures Linked(r) && ActiveInArena(r) && |r.nodes| == |s.nodes| && r.input == s.input
    ensures |r.active| == 0 || (r.active[ActiveHead(r)] < |r.nodes| && r.nodes[r.active[ActiveHead(r)]].n.endPosition >= h)
    decreases |s.active|
  {
    if |s.active| == 0 then s
    else
      var m := ActiveHead(s);
      var gn := s.active[m];
      assert gn in s.active;
      if s.nodes[gn].n.endPosition >= h then s
      else Drain(c, Polled(c, s), h)
  }

  /** One turn of process(int)'s loop: poll the active queue's head and process it. */
  function Polled(c: Config, s: State): (r: State)
    requires Linked(s) && ActiveInArena(s) && |s.active| > 0
    ensures Linked(r) && ActiveInArena(r) && |r.nodes| == |s.nodes| && r.input == s.input
    ensures |r.active| < |s.active|
  {
    var m := ActiveHead(s);
    var gn := s.active[m];
    assert gn in s.active;
    ProcessNode(c, s.(active := RemoveAt(s.active, m)), gn)
  }

  /**
   * The horizon process(int) derives from a start position e, e minus
   * maxSupportWidth minus 2 in Java int arithmetic.
   */
  function Horizon(c: Config, e: int): int {
    Wrap32(Wrap32(e - c.maxSupportWidth) - 2)
  }

  /**
   * process(int): process every active record ending before the horizon
   * of e, then make that the last processing horizon.
   */
  function Process(c: Config, s: State, e: int): (r: State)
    requires Linked(s) && ActiveInArena(s)
    ensures Linked(r) && ActiveInArena(r) && |r.nodes| == |s.nodes| && r.input == s.input
    ensures r.lastProcessPosition == Horizon(c, e) && IsInt32(r.lastProcessPosition)
  {
    Drain(c, s, Horizon(c, e)).(lastProcessPosition := Horizon(c, e))
  }

  /** The end position of the path node record g belongs to: that of its last record. */
  function PathEnd(s: State, g: nat): int {
    var t := Tail(s, g);
    if t < |s.nodes| then s.nodes[t].n.endPosition else s.lastProcessPosition
  }

  /**
   * edgesFullyDefined: the path node of record g ends more than
   * maxSupportWidth + 2 positions before the last processing horizon, in
   * Java int arithmetic.
   */
  predicate EdgesFullyDefined(c: Config, s: State, g: nat) {
    PathEnd(s, g) < Wrap32(Wrap32(s.lastProcessPosition - c.maxSupportWidth) - 2)
  }

  // ---------------------------------------------------------------------
  // The invariant across process(int)
  // ---------------------------------------------------------------------

  lemma ValidShape(c: Config, s: State, h: int)
    requires ValidAt(c, s, h)
    ensures Linked(s) && ActiveInArena(s) && RecordsOk(s) && ClosedOk(s)
  {
  }

  /** Draining keeps the invariant at the horizon it drains to. */
  lemma {:induction false} DrainValid(c: Config, s: State, h: int)
    requires ValidAt(c, s, h) && Linked(s) && ActiveInArena(s)
    ensures ValidAt(c, Drain(c, s, h), h)
    decreases |s.active|
  {
    if |s.active| > 0 {
      var gn := s.active[ActiveHead(s)];
      assert gn in s.active;
      if s.nodes[gn].n.endPosition < h {
        PolledValid(c, s, h);
        DrainValid(c, Polled(c, s), h);
      }
    }
  }

  /** Polling and processing a head that ends before h keeps the invariant at h. */
  lemma PolledValid(c: Config, s: State, h: int)
    requires ValidAt(c, s, h) && Linked(s) && ActiveInArena(s) && |s.active| > 0
    requires s.active[ActiveHead(s)] < |s.nodes| && s.nodes[s.active[ActiveHead(s)]].n.endPosition < h
    ensures ValidAt(c, Polled(c, s), h)
  {
    ProcessHeadValid(c, s, h);
  }

  /**
   * process(e) keeps the invariant when its horizon neither falls behind
   * the current one nor comes within maxSupportWidth + 2 of the unread
   * input.
   */
  lemma ProcessValid(c: Config, s: State, h: int, e: int)
    requires ValidAt(c, s, h) && Linked(s) && ActiveInArena(s)
    requires h <= Horizon(c, e) <= IntMax - c.maxSupportWidth - 2
    requires forall j :: 0 <= j < |s.input| ==> Horizon(c, e) + c.maxSupportWidth + 2 <= s.input[j].startPosition
    ensures ValidAt(c, Drain(c, s, Horizon(c, e)), Horizon(c, e))
    ensures Valid(c, Process(c, s, e))
  {
    var h2 := Horizon(c, e);
    HorizonRaised(c, s, h, h2);
    DrainValid(c, s, h2);
    StampedValid(c, Drain(c, s, h2), h2);
  }

  /** A state valid at horizon h stays valid once h is recorded as its last processing horizon. */
  lemma StampedValid(c: Config, d: State, h: int)
    requires ValidAt(c, d, h)
    ensures Valid(c, d.(lastProcessPosition := h))
  {
    GraphOkFrame(c, d, d.(lastProcessPosition := h), h);
  }

  /** The horizon of a start position of the arena or input does not wrap. */
  lemma HorizonOfStart(c: Config, n: KmerNode)
    requires 0 <= c.maxSupportWidth <= IntMax && NodeBounded(c, n)
    ensures Horizon(c, n.startPosition) == n.startPosition - c.maxSupportWidth - 2
  {
  }

  /** The final flush's horizon does not wrap. */
  lemma HorizonOfMax(c: Config)
    requires 0 <= c.maxSupportWidth <= IntMax
    ensures Horizon(c, IntMax) == IntMax - c.maxSupportWidth - 2
  {
  }

  /** An active queue's head ends before the final flush's horizon. */
  lemma HeadBounded(c: Config, s: State, h: int)
    requires HorizonOk(c, s, h) && ActiveInArena(s) && |s.active| > 0
    ensures s.active[ActiveHead(s)] < |s.nodes|
    ensures s.nodes[s.active[ActiveHead(s)]].n.endPosition < IntMax - c.maxSupportWidth - 2
  {
    var x := s.active[ActiveHead(s)];
    assert x in s.active;
    assert NodeBounded(c, s.nodes[x].n);
  }

  /** Flushing with process(Integer.MAX_VALUE) keeps the invariant and processes every record. */
  lemma FlushValid(c: Config, s: State)
    requires Valid(c, s) && |s.input| == 0
    ensures Linked(s) && ActiveInArena(s)
    ensures Valid(c, Process(c, s, IntMax))
    ensures |Process(c, s, IntMax).active| == 0
  {
    ValidShape(c, s, s.lastProcessPosition);
    HorizonOfMax(c);
    ProcessValid(c, s, s.lastProcessPosition, IntMax);
    var d := Drain(c, s, Horizon(c, IntMax));
    if |d.active| > 0 {
      ValidShape(c, d, Horizon(c, IntMax));
      HeadBounded(c, d, Horizon(c, IntMax));
    }
  }

  /**
   * Reading the next input node and processing up to its start keeps the
   * invariant; the node is refused exactly when it is too wide.
   */
  lemma ReadValid(c: Config, s: State)
    requires Valid(c, s) && |s.input| > 0
    ensures var r := AddAggregateNode(c, s.(input := s.input[1..]), s.input[0]);
      && (r.Success? <==> s.input[0].width <= c.maxSupportWidth)
      && (r.Success? ==>
            Linked(r.value) && ActiveInArena(r.value) && r.value.input == s.input[1..]
            && Valid(c, Process(c, r.value, s.input[0].startPosition)))
  {
    var h := s.lastProcessPosition;
    ReadNodeValid(c, s, h);
    var r := AddAggregateNode(c, s.(input := s.input[1..]), s.input[0]);
    if r.Success? {
      ValidShape(c, r.value, h);
      assert NodeBounded(c, s.input[0]);
      HorizonOfStart(c, s.input[0]);
      ProcessValid(c, r.value, h, s.input[0].startPosition);
    }
  }

  // ---------------------------------------------------------------------
  // ensureBuffer, hasNext, next
  // ---------------------------------------------------------------------

  /** A node added to a linked graph leaves it linked, with its active queue in the arena. */
  lemma AddedInArena(c: Config, s: State)
    requires Linked(s) && ActiveInArena(s) && |s.input| > 0
    ensures var r := AddAggregateNode(c, s.(input := s.input[1..]), s.input[0]);
      r.Success? ==> Linked(r.value) && ActiveInArena(r.value) && r.value.input == s.input[1..]
  {
    var r := AddAggregateNode(c, s.(input := s.input[1..]), s.input[0]);
    if r.Success? {
      GrownLinked(c, s, r.value);
    }
  }

  /**
   * ensureBuffer: while there is input and the completed queue's head is
   * missing or may still gain edges, read a node, add it and process up to
   * its start; once the input is exhausted, flush with
   * process(Integer.MAX_VALUE). A node wider than maxSupportWidth stops it
   * with an error.
   */
  function EnsureBuffer(c: Config, s: State): (r: Result<State, CompactorError>)
    requires Linked(s) && ActiveInArena(s)
    ensures r.Failure? ==> r.error == WidthExceeded
    ensures r.Failure? ==> exists node :: node in s.input && node.width > c.maxSupportWidth
    ensures r.Success? ==> Linked(r.value) && ActiveInArena(r.value) && |r.value.input| <= |s.input|
    ensures r.Success? ==>
      || (|r.value.input| == 0 && r.value.lastProcessPosition == Horizon(c, IntMax))
      || (|r.value.constructed| > 0 && EdgesFullyDefined(c, r.value, r.value.constructed[ConstructedHead(r.value)]))
    decreases |s.input|
  {
    if |s.input| > 0 && (|s.constructed| == 0 || !EdgesFullyDefined(c, s, s.constructed[ConstructedHead(s)])) then
      if s.input[0].width > c.maxSupportWidth then Failure(WidthExceeded)
      else EnsureBuffer(c, BufferTurn(c, s))
    else if |s.input| == 0 then
      Success(Process(c, s, IntMax))
    else Success(s)
  }

  /**
   * One turn of ensureBuffer's loop, for a next input node no wider than
   * maxSupportWidth: read it into the graph, then process up to its start.
   */
  function BufferTurn(c: Config, s: State): (r: State)
    requires Linked(s) && ActiveInArena(s) && |s.input| > 0 && s.input[0].width <= c.maxSupportWidth
    ensures Linked(r) && ActiveInArena(r) && r.input == s.input[1..]
  {
    AddedInArena(c, s);
    Process(c, AddAggregateNode(c, s.(input := s.input[1..]), s.input[0]).value, s.input[0].startPosition)
  }

  /** One turn of ensureBuffer's loop that reads a node that fits continues from a valid state. */
  lemma BufferTurnValid(c: Config, s: State)
    requires Valid(c, s) && |s.input| > 0 && s.input[0].width <= c.maxSupportWidth
    ensures Linked(s) && ActiveInArena(s)
    ensures Valid(c, BufferTurn(c, s))
  {
    ReadValid(c, s);
  }

  /**
   * ensureBuffer keeps the invariant, and when it has used up the input,
   * the final flush has processed every record.
   */
  lemma {:induction false} EnsureBufferValid(c: Config, s: State)
    requires Valid(c, s)
    ensures Linked(s) && ActiveInArena(s)
    ensures EnsureBuffer(c, s).Success? ==> Valid(c, EnsureBuffer(c, s).value)
    ensures EnsureBuffer(c, s).Success? && |EnsureBuffer(c, s).value.input| == 0 ==> |EnsureBuffer(c, s).value.active| == 0
    decreases |s.input|
  {
    ValidShape(c, s, s.lastProcessPosition);
    if |s.input| > 0 && (|s.constructed| == 0 || !EdgesFullyDefined(c, s, s.constructed[ConstructedHead(s)])) {
      if s.input[0].width <= c.maxSupportWidth {
        BufferTurnValid(c, s);
        EnsureBufferValid(c, BufferTurn(c, s));
        assert EnsureBuffer(c, s) == EnsureBuffer(c, BufferTurn(c, s));
      }
    } else if |s.input| == 0 {
      FlushValid(c, s);
    }
  }

  /**
   * hasNext: fill the buffer; there is a next path node exactly when the
   * completed queue is not empty.
   */
  function HasNext(c: Config, s: State): (r: Result<(bool, State), CompactorError>)
    requires Valid(c, s)
    ensures r.Failure? ==> r.error == WidthExceeded
    ensures r.Success? ==> Valid(c, r.value.1)
  {
    EnsureBufferValid(c, s);
    match EnsureBuffer(c, s)
    case Failure(e) => Failure(e)
    case Success(s1) => Success((|s1.constructed| > 0, s1))
  }

  /**
   * next: fill the buffer, poll the completed queue and drop the polled
   * path node's records from the index; the result is the path node's id.
   */
  function Next(c: Config, s: State): (r: Result<(nat, State), CompactorError>)
    requires Valid(c, s)
    ensures r.Failure? ==> r.error == WidthExceeded || r.error == NullPointer
    ensures r.Success? ==> Valid(c, r.value.1) && r.value.0 in r.value.1.paths
  {
    EnsureBufferValid(c, s);
    match EnsureBuffer(c, s)
    case Failure(e) => Failure(e)
    case Success(s1) =>
      ValidShape(c, s1, s1.lastProcessPosition);
      if |s1.constructed| == 0 then Failure(NullPointer)
      else
        EmitValid(c, s1);
        Emit(s1)
  }

  /** Emission keeps the invariant and names a path node. */
  lemma EmitValid(c: Config, s: State)
    requires Valid(c, s) && |s.constructed| > 0
    ensures RecordsOk(s) && ClosedOk(s)
    ensures Emit(s).Success? && Valid(c, Emit(s).value.1) && Emit(s).value.0 in Emit(s).value.1.paths
  {
    var h := s.lastProcessPosition;
    EmitIndexed(c, s);
    EmitGraph(c, s, h);
  }

  // ---------------------------------------------------------------------
  // The Java assertions and what the iterator promises
  // ---------------------------------------------------------------------

  /**
   * The assertion in ensureBuffer: the node read next never starts before
   * the last processing horizon.
   */
  lemma ReadAfterHorizon(c: Config, s: State)
    requires Valid(c, s) && |s.input| > 0
    ensures s.input[0].startPosition >= s.lastProcessPosition
  {
    assert NodeBounded(c, s.input[0]);
  }

  /**
   * For a completed record, edgesFullyDefined's int arithmetic does not
   * wrap: it asks whether the record's path node ends before the last
   * horizon minus maxSupportWidth + 2.
   */
  lemma EdgesFullyDefinedExact(c: Config, s: State, g: nat)
    requires Valid(c, s) && g in s.constructed
    ensures Tail(s, g) == g && g < |s.nodes|
    ensures EdgesFullyDefined(c, s, g) <==> s.nodes[g].n.endPosition < s.lastProcessPosition - c.maxSupportWidth - 2
  {
    assert CompleteOk(s, g);
    assert NodeBounded(c, s.nodes[g].n);
  }

  /** With nothing active, every record has been processed. */
  lemma AllProcessed(s: State)
    requires ActiveOk(s) && |s.active| == 0
    ensures forall x :: 0 <= x < |s.nodes| ==> s.nodes[x].processed
  {
    forall x | 0 <= x < |s.nodes|
      ensures s.nodes[x].processed
    {
      assert multiset(s.active)[x] == 0;
    }
  }

  /** With nothing active and nothing completed, no record is still live. */
  lemma NothingLive(s: State)
    requires ActiveOk(s) && |s.active| == 0 && |s.constructed| == 0
    ensures forall x: nat :: x < |s.nodes| ==> !Live(s, x)
  {
    AllProcessed(s);
    forall o: nat
      ensures !Accounted(s, o)
    {
      if o < |s.nodes| && s.nodes[o].mergeTarget.Some? && s.nodes[o].mergeTarget.value < |s.nodes| {
        assert s.nodes[s.nodes[o].mergeTarget.value].processed;
      }
    }
  }

  /** With nothing active and nothing completed, every record has been emitted and the index is empty. */
  lemma DoneEmpty(s: State)
    requires IndexKeyed(s) && IndexShapeOk(s) && ActiveOk(s) && LiveOk(s)
    requires |s.active| == 0 && |s.constructed| == 0
    ensures |s.index| == 0
  {
    forall key | key in s.index
      ensures Indexed(s, s.index[key][0])
    {
      assert s.index[key][0] in s.index[key];
    }
    NothingLive(s);
    forall x: nat | x < |s.nodes|
      ensures !Indexed(s, x)
    {
      assert Indexed(s, x) <==> Live(s, x);
    }
    assert s.index.Keys == {};
  }

  /**
   * The assertions in hasNext: when it reports no next path node, nothing
   * is active and the k-mer index is empty.
   */
  lemma HasNextComplete(c: Config, s: State)
    requires Valid(c, s) && HasNext(c, s).Success?
    ensures var (more, r) := HasNext(c, s).value;
      && (more <==> |r.constructed| > 0)
      && (!more ==> |r.input| == 0 && |r.active| == 0 && |r.index| == 0)
  {
    EnsureBufferValid(c, s);
    var r := HasNext(c, s).value.1;
    if |r.constructed| == 0 {
      DoneEmpty(r);
    }
  }

  /**
   * What emission from s1 does: it emits path node p of the completed
   * record whose path node starts first, whose run is contiguous, holds
   * between one and maxPathLength records and ends at that record; r has
   * the same records and path nodes, the record left the completed queue,
   * and exactly the run's records left the index.
   */
  predicate EmitsRun(c: Config, s1: State, p: nat, r: State) {
    && |s1.constructed| > 0
    && var g := s1.constructed[ConstructedHead(s1)];
    && g < |s1.nodes| && s1.nodes[g].pn == Some(p) && p in s1.paths && r.paths == s1.paths && r.nodes == s1.nodes
    && var run := s1.paths[p].run;
    && 1 <= |run| <= c.maxPathLength
    && run[|run| - 1] == g
    && (forall j :: 0 <= j < |run| ==> run[j] < |s1.nodes|)
    && (forall j :: 0 < j < |run| ==> Follows(c, s1.nodes[run[j - 1]].n, s1.nodes[run[j]].n))
    && (forall x: nat :: x < |s1.nodes| ==> (Indexed(r, x) <==> Indexed(s1, x) && x !in run))
    && r.constructed == RemoveAt(s1.constructed, ConstructedHead(s1))
  }

  lemma EmitRun(c: Config, s1: State)
    requires Valid(c, s1) && |s1.constructed| > 0
    ensures RecordsOk(s1) && ClosedOk(s1) && Emit(s1).Success?
    ensures EmitsRun(c, s1, Emit(s1).value.0, Emit(s1).value.1)
  {
    ValidShape(c, s1, s1.lastProcessPosition);
    EmitIndexed(c, s1);
  }

  /**
   * What next() returns: the path node emitted from the state ensureBuffer
   * leaves, as EmitsRun describes; the run's length bound is the
   * assertion in next.
   */
  lemma NextEmitsRun(c: Config, s: State)
    requires Valid(c, s) && Next(c, s).Success?
    ensures EnsureBuffer(c, s).Success?
    ensures EmitsRun(c, EnsureBuffer(c, s).value, Next(c, s).value.0, Next(c, s).value.1)
  {
    EnsureBufferValid(c, s);
    var s1 := EnsureBuffer(c, s).value;
    EmitRun(c, s1);
    assert Next(c, s) == Emit(s1);
  }
}
