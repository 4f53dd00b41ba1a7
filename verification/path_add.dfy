/**
 * Reading one input node keeps the compactor's invariant: the new record is
 * unprocessed and indexed, and no processed record can be followed by it,
 * because it starts more than maxSupportWidth + 1 positions after the
 * horizon that every processed record ends before.
 */
module PathAdd {
  import opened Wrappers
  import opened JavaText
  import opened PathNodes
  import opened PathStep
  import opened PathInvariant

  /** s2 is s with its first input node read and added to the graph as record |s.nodes|. */
  predicate Grown(c: Config, s: State, s2: State) {
    |s.input| > 0 && AddAggregateNode(c, s.(input := s.input[1..]), s.input[0]) == Success(s2)
  }

  lemma GrownTail(c: Config, s: State, s2: State)
    requires Grown(c, s, s2)
    ensures forall i :: 0 <= i < |s.nodes| ==> Tail(s2, i) == Tail(s, i)
    ensures Tail(s2, |s.nodes|) == |s.nodes|
  {
    forall i | 0 <= i < |s.nodes|
      ensures Tail(s2, i) == Tail(s, i)
    {
      assert s2.nodes[i] == s.nodes[i];
    }
  }

  lemma GrownIndexed(c: Config, s: State, s2: State)
    requires Grown(c, s, s2) && IndexKeyed(s)
    ensures forall x: nat :: x < |s.nodes| ==> (Indexed(s2, x) <==> Indexed(s, x))
    ensures Indexed(s2, |s.nodes|)
  {
    var node := s.input[0];
    var old_ := if node.kmer in s.index then s.index[node.kmer] else [];
    assert |s.nodes| in multiset(s2.index[node.kmer]);
    forall x: nat | x < |s.nodes|
      ensures Indexed(s2, x) <==> Indexed(s, x)
    {
      assert s2.nodes[x] == s.nodes[x];
      var k := s.nodes[x].n.kmer;
      if k == node.kmer {
        assert x in s2.index[k] <==> x in multiset(s2.index[k]);
        assert x in old_ <==> x in multiset(old_);
      }
    }
  }

  /** Every list of the index stays in the arena and under its k-mer, and gains nothing but the new record. */
  lemma GrownLinked(c: Config, s: State, s2: State)
    requires Grown(c, s, s2) && Linked(s)
    ensures Linked(s2)
    ensures forall key :: key in s2.index ==> forall x :: x in s2.index[key] ==> x == |s.nodes| || (key in s.index && x in s.index[key])
  {
    var node := s.input[0];
    forall key | key in s2.index
      ensures forall x :: x in s2.index[key] ==> x == |s.nodes| || (key in s.index && x in s.index[key])
    {
      forall x | x in s2.index[key]
        ensures x == |s.nodes| || (key in s.index && x in s.index[key])
      {
        if key == node.kmer {
          assert x in multiset(s2.index[key]);
        }
      }
    }
  }

  lemma GrownShape(c: Config, s: State, s2: State)
    requires Grown(c, s, s2) && Linked(s) && IndexShapeOk(s)
    ensures IndexShapeOk(s2)
  {
    var node := s.input[0];
    var id := |s.nodes|;
    var old_ := if node.kmer in s.index then s.index[node.kmer] else [];
    assert s2.index[node.kmer] == old_ + [id];
    assert Distinct(old_);
    DistinctConcat(old_, [id]);
  }

  lemma GrownRecords(c: Config, s: State, s2: State)
    requires Grown(c, s, s2) && RecordsOk(s)
    ensures RecordsOk(s2)
  {
    forall i | 0 <= i < |s2.nodes|
      ensures RecordOk(s2, i)
    {
      if i < |s.nodes| {
        assert RecordOk(s, i);
        assert s2.nodes[i] == s.nodes[i];
      }
    }
  }

  lemma GrownRuns(c: Config, s: State, s2: State)
    requires Grown(c, s, s2) && RunsOk(c, s)
    ensures RunsOk(c, s2)
  {
    forall p | p in s2.paths
      ensures RunOk(c, s2, p)
    {
      assert RunOk(c, s, p);
      var run := s.paths[p].run;
      assert forall j :: 0 <= j < |run| ==> s2.nodes[run[j]] == s.nodes[run[j]];
      assert s2.nodes[p] == s.nodes[p];
    }
  }

  lemma GrownMembers(c: Config, s: State, s2: State)
    requires Grown(c, s, s2) && MembersOk(s)
    ensures MembersOk(s2)
  {
    forall i | 0 <= i < |s2.nodes|
      ensures MemberOk(s2, i)
    {
      if i < |s.nodes| {
        assert MemberOk(s, i);
        assert s2.nodes[i] == s.nodes[i];
      }
    }
  }

  /** The new record starts too late to follow any processed record. */
  lemma GrownUnfollowed(c: Config, s: State, h: int)
    requires HorizonOk(c, s, h) && InputOk(c, s, h) && c.maxSupportWidth >= 0 && |s.input| > 0
    ensures forall i :: 0 <= i < |s.nodes| && s.nodes[i].processed ==> !NextAdjacent(c, s.nodes[i].n, s.input[0])
  {
  }

  lemma GrownIntents(c: Config, s: State, s2: State, h: int)
    requires Grown(c, s, s2) && Linked(s) && RecordsOk(s) && IntentsOk(c, s)
    requires HorizonOk(c, s, h) && InputOk(c, s, h) && c.maxSupportWidth >= 0
    ensures IntentsOk(c, s2)
  {
    var id := |s.nodes|;
    GrownTail(c, s, s2);
    GrownIndexed(c, s, s2);
    GrownUnfollowed(c, s, h);
    forall i | 0 <= i < |s2.nodes|
      ensures IntentOk(c, s2, i)
    {
      if i < |s.nodes| {
        assert IntentOk(c, s, i);
        assert RecordOk(s, i);
        assert s2.nodes[i] == s.nodes[i];
        if s.nodes[i].mergeTarget.Some? {
          var t := s.nodes[i].mergeTarget.value;
          assert s2.nodes[t] == s.nodes[t];
          forall x: nat | x < |s2.nodes| && Indexed(s2, x) && NextAdjacent(c, s2.nodes[i].n, s2.nodes[x].n)
            ensures x == t
          {
            if x < |s.nodes| {
              assert s2.nodes[x] == s.nodes[x];
            }
          }
        }
      }
    }
  }

  lemma GrownOrder(c: Config, s: State, s2: State, h: int)
    requires Grown(c, s, s2) && OrderOk(s) && HorizonOk(c, s, h) && InputOk(c, s, h) && c.maxSupportWidth >= 0
    ensures OrderOk(s2)
  {
    assert forall i :: 0 <= i < |s.nodes| ==> s2.nodes[i] == s.nodes[i];
  }

  lemma GrownHorizon(c: Config, s: State, s2: State, h: int)
    requires Grown(c, s, s2) && HorizonOk(c, s, h) && InputOk(c, s, h)
    ensures HorizonOk(c, s2, h) && InputOk(c, s2, h)
  {
    assert forall i :: 0 <= i < |s.nodes| ==> s2.nodes[i] == s.nodes[i];
    assert forall j :: 0 <= j < |s2.input| ==> s2.input[j] == s.input[j + 1];
  }

  lemma GrownClosed(c: Config, s: State, s2: State)
    requires Grown(c, s, s2) && ClosedOk(s)
    ensures ClosedOk(s2)
  {
    GrownTail(c, s, s2);
    forall g | g in s2.constructed
      ensures CompleteOk(s2, g)
    {
      assert CompleteOk(s, g);
      assert s2.nodes[g] == s.nodes[g];
      if s.nodes[g].mergeTarget.Some? {
        assert s2.nodes[s.nodes[g].mergeTarget.value] == s.nodes[s.nodes[g].mergeTarget.value];
      }
    }
  }

  lemma GrownLive(c: Config, s: State, s2: State)
    requires Grown(c, s, s2) && Linked(s) && RecordsOk(s) && LiveOk(s)
    ensures LiveOk(s2)
  {
    GrownTail(c, s, s2);
    GrownIndexed(c, s, s2);
    forall i | 0 <= i < |s2.nodes|
      ensures Indexed(s2, i) <==> Live(s2, i)
    {
      if i < |s.nodes| {
        assert Indexed(s, i) <==> Live(s, i);
        assert RecordOk(s, i);
        assert s2.nodes[i] == s.nodes[i];
        var o := Tail(s, i);
        if o < |s.nodes| {
          assert RecordOk(s, o);
          assert s2.nodes[o] == s.nodes[o];
          if s.nodes[o].mergeTarget.Some? {
            assert s2.nodes[s.nodes[o].mergeTarget.value] == s.nodes[s.nodes[o].mergeTarget.value];
          }
        } else if o == |s.nodes| {
          assert s2.nodes[o].mergeTarget.None?;
        }
      }
    }
  }

  lemma GrownActive(c: Config, s: State, s2: State)
    requires Grown(c, s, s2) && ActiveOk(s)
    ensures ActiveOk(s2)
  {
    var id := |s.nodes|;
    assert s2.active == s.active + [id];
    assert multiset(s2.active) == multiset(s.active) + multiset{id};
    assert forall x :: x in s.active ==> x != id;
    assert id !in s.active;
    assert multiset(s.active)[id] == 0;
    forall i | 0 <= i < |s2.nodes|
      ensures multiset(s2.active)[i] == if s2.nodes[i].processed then 0 else 1
    {
      if i < |s.nodes| {
        assert s2.nodes[i] == s.nodes[i];
      }
    }
  }

  lemma GrownGraph(c: Config, s: State, s2: State, h: int)
    requires GraphOk(c, s, h) && Grown(c, s, s2)
    ensures GraphOk(c, s2, h)
  {
    GrownLinked(c, s, s2);
    GrownShape(c, s, s2);
    GrownRecords(c, s, s2);
    GrownRuns(c, s, s2);
    GrownMembers(c, s, s2);
    GrownIntents(c, s, s2, h);
    GrownOrder(c, s, s2, h);
    GrownHorizon(c, s, s2, h);
    GrownClosed(c, s, s2);
    GrownLive(c, s, s2);
  }

  /**
   * Reading the next input node: it is refused exactly when it is wider
   * than maxSupportWidth, and otherwise the graph it joins keeps the
   * invariant at the same horizon.
   */
  lemma ReadNodeValid(c: Config, s: State, h: int)
    requires ValidAt(c, s, h) && |s.input| > 0
    ensures var r := AddAggregateNode(c, s.(input := s.input[1..]), s.input[0]);
      && (r.Success? <==> s.input[0].width <= c.maxSupportWidth)
      && (r.Success? ==> ValidAt(c, r.value, h) && r.value.input == s.input[1..])
  {
    var r := AddAggregateNode(c, s.(input := s.input[1..]), s.input[0]);
    if r.Success? {
      GrownGraph(c, s, r.value, h);
      GrownActive(c, s, r.value);
    }
  }

  /**
   * Raising the horizon to h2 keeps the invariant as long as the unread
   * input still starts maxSupportWidth + 2 or more after it.
   */
  lemma HorizonRaised(c: Config, s: State, h: int, h2: int)
    requires ValidAt(c, s, h) && h <= h2 <= IntMax - c.maxSupportWidth - 2
    requires forall j :: 0 <= j < |s.input| ==> h2 + c.maxSupportWidth + 2 <= s.input[j].startPosition
    ensures ValidAt(c, s, h2)
  {
  }

  /**
   * A fresh iterator satisfies the invariant when the compactor's
   * parameters are sound and its input is sorted by start and bounded.
   */
  lemma InitialValid(c: Config, input: seq<KmerNode>)
    requires ConfigOk(c)
    requires forall j :: 0 <= j < |input| ==> NodeBounded(c, input[j])
    requires forall j, k :: 0 <= j < k < |input| ==> input[j].startPosition <= input[k].startPosition
    ensures Valid(c, Initial(input))
  {
  }
}
