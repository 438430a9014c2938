/** What every run of the live trace guarantees to every stream. */
module LiveTraceSafety {
  import opened EventBus
  import opened RunStatus
  import opened TraceRows
  import opened LiveTrace

  predicate Run(w: World, steps: seq<Step>)
    decreases steps
  {
    steps == [] || (Enabled(w, steps[0]) && Run(Next(w, steps[0]), steps[1..]))
  }

  function After(w: World, steps: seq<Step>): World
    requires Run(w, steps)
    decreases steps
  {
    if steps == [] then w else After(Next(w, steps[0]), steps[1..])
  }

  lemma {:induction false} RunKeepsInv(w: World, steps: seq<Step>)
    requires Inv(w) && Run(w, steps)
    ensures Inv(After(w, steps))
    decreases steps
  {
    if steps != [] {
      StepKeepsInv(w, steps[0]);
      hide Inv;
      RunKeepsInv(Next(w, steps[0]), steps[1..]);
    }
  }

  /** A state of some run of one execution of the writer with any streams. */
  ghost predicate Reachable(w: World) {
    exists steps :: Run(INITIAL, steps) && w == After(INITIAL, steps)
  }

  lemma ReachableInv(w: World)
    requires Reachable(w)
    ensures Inv(w)
  {
    var steps :| Run(INITIAL, steps) && w == After(INITIAL, steps);
    RunKeepsInv(INITIAL, steps);
  }

  // ---------------------------------------------------------------------------------------
  // Delivered so far
  // ---------------------------------------------------------------------------------------

  /** The new rows among those taken continue the replayed ones. */
  lemma NewRowsOfInterval(w: World, s: Stream, upto: nat)
    requires WriterOk(w) && DeliveryOk(w, s) && s.from <= upto <= |w.trace| && s.from <= |s.history|
    requires RowsOf(s.taken) <= Kept(w.trace[s.from..upto], w.lost)
    ensures Kept(RowsOf(s.taken), Nums(s.history)) <= Kept(w.trace[|s.history|..], w.lost)
    ensures upto == |w.trace| && RowsOf(s.taken) == Kept(w.trace[s.from..upto], w.lost)
       ==> Kept(RowsOf(s.taken), Nums(s.history)) == Kept(w.trace[|s.history|..], w.lost)
  {
    hide RowsOf, Kept, Rows, Nums, Row;
    var h := |s.history|;
    assert s.history == w.trace[..h];
    ReplayedRowsAreDropped(w.trace, s.from, upto, h, w.lost);
    KeptPrefix(RowsOf(s.taken), Kept(w.trace[s.from..upto], w.lost), Nums(s.history));
    NothingKept(w.lost);
    if h < upto {
      assert w.trace[h..] == w.trace[h..upto] + w.trace[upto..];
      KeptAppend(w.trace[h..upto], w.trace[upto..], w.lost);
      assert upto == |w.trace| ==> w.trace[upto..] == [];
    } else {
      assert upto == |w.trace| ==> w.trace[h..] == [];
    }
  }

  lemma DeliveredOfInterval(w: World, s: Stream, upto: nat)
    requires WriterOk(w) && DeliveryOk(w, s) && s.from <= upto <= |w.trace|
    requires RowsOf(s.taken) <= Kept(w.trace[s.from..upto], w.lost)
    ensures Rows(s.delivered) <= Visible(w.trace, |s.history|, w.lost)
    ensures s.pos == |s.history| && s.from <= |s.history| && upto == |w.trace|
         && RowsOf(s.taken) == Kept(w.trace[s.from..upto], w.lost)
       ==> Rows(s.delivered) == Visible(w.trace, |s.history|, w.lost)
  {
    hide Rows, RowsOf, Kept, Nums, WriterOk;
    NothingKept(Nums(s.history));
    assert s.history == w.trace[..|s.history|];
    if s.from <= |s.history| {
      NewRowsOfInterval(w, s, upto);
    } else {
      assert s.taken == [];
    }
  }

  lemma TakenWithinInterval(w: World, id: StreamId, s: Stream)
    requires Inv(w) && id in w.streams && s == w.streams[id] && !s.phase.Looked?
    ensures s.from <= Upto(w, id, s) <= |w.trace|
    ensures RowsOf(s.taken) <= Kept(w.trace[s.from..Upto(w, id, s)], w.lost)
  {
    assert StreamOk(w, id, s);
    RowsOfAppend(s.taken, s.queue);
  }

  /** At every moment, a stream -- current, dropped or gone -- has delivered a prefix of the
      trace without the rows whose publication was interrupted after its replay. */
  lemma DeliveredIsVisiblePrefix(w: World, id: StreamId)
    requires Reachable(w) && id in w.streams
    ensures |w.streams[id].history| <= |w.trace|
    ensures Rows(w.streams[id].delivered) <= Visible(w.trace, |w.streams[id].history|, w.lost)
  {
    ReachableInv(w);
    var s := w.streams[id];
    assert StreamOk(w, id, s);
    if !s.phase.Looked? {
      TakenWithinInterval(w, id, s);
      DeliveredOfInterval(w, s, Upto(w, id, s));
    }
  }

  /** No duplicates, no reordering, nothing that is not a persisted row. */
  lemma DeliveredIncreases(w: World, id: StreamId)
    requires Reachable(w) && id in w.streams
    ensures Increasing(w.streams[id].delivered)
    ensures forall e :: e in w.streams[id].delivered ==> Row(e) in w.trace
  {
    ReachableInv(w);
    DeliveredIsVisiblePrefix(w, id);
    var s := w.streams[id];
    var rows := Rows(s.delivered);
    VisibleIncreasing(w.trace, |s.history|, w.lost);
    forall i | 0 <= i < |s.delivered| ensures rows[i].num == s.delivered[i].num && rows[i] in w.trace {
      assert rows[i] in rows;
    }
  }

  /** Only the last two rows can be missing: an interrupted emit fails the run, and nothing but
      the notice of that follows. */
  lemma LostRowsAreLast(w: World, k: nat)
    requires Reachable(w) && k + 2 < |w.trace|
    ensures w.trace[k].num !in w.lost
  {
    ReachableInv(w);
  }

  /** So row by row, a stream has delivered the trace itself up to its last two rows. */
  lemma DeliveredIsTraceButForTwo(w: World, id: StreamId)
    requires Reachable(w) && id in w.streams
    ensures forall i :: 0 <= i < |w.streams[id].delivered| && i + 2 < |w.trace| ==>
      Row(w.streams[id].delivered[i]) == w.trace[i]
  {
    DeliveredIsVisiblePrefix(w, id);
    forall k | 0 <= k < |w.trace| - 2 ensures w.trace[k].num !in w.lost {
      LostRowsAreLast(w, k);
    }
    var s := w.streams[id];
    VisibleButForTwo(w.trace, |s.history|, w.lost);
    forall i | 0 <= i < |s.delivered| && i + 2 < |w.trace| ensures Row(s.delivered[i]) == w.trace[i] {
      assert Rows(s.delivered)[i] == Visible(w.trace, |s.history|, w.lost)[i];
    }
  }

  ghost predicate NothingLostAfterReplay(w: World, s: Stream)
    requires |s.history| <= |w.trace|
  {
    forall row :: row in w.trace[|s.history|..] ==> row.num !in w.lost
  }

  /** Gap-free: if no emit was interrupted between its commit and its publication since the
      replay, what was delivered is a prefix of the persisted trace. */
  lemma DeliveredIsTracePrefix(w: World, id: StreamId)
    requires Reachable(w) && id in w.streams
    ensures |w.streams[id].history| <= |w.trace|
    ensures NothingLostAfterReplay(w, w.streams[id]) ==> Rows(w.streams[id].delivered) <= w.trace
  {
    DeliveredIsVisiblePrefix(w, id);
    VisibleIsTraceIff(w.trace, |w.streams[id].history|, w.lost);
  }

  lemma {:induction false} RunKeepsSaid(w: World, steps: seq<Step>)
    requires SaidOk(w) && Run(w, steps)
    ensures SaidOk(After(w, steps))
    decreases steps
  {
    if steps != [] {
      StepKeepsSaid(w, steps[0]);
      hide SaidOk, Enabled, Next;
      RunKeepsSaid(Next(w, steps[0]), steps[1..]);
    }
  }

  lemma ReachableSaid(w: World)
    requires Reachable(w)
    ensures SaidOk(w)
  {
    var steps :| Run(INITIAL, steps) && w == After(INITIAL, steps);
    RunKeepsSaid(INITIAL, steps);
  }

  /** Every row of the trace says what was emitted under its number, its message in full or its
      first 4000 characters. */
  lemma RowsSayWhatWasEmitted(w: World, k: nat)
    requires Reachable(w) && k < |w.trace|
    ensures 1 <= w.trace[k].num <= |w.emitted|
    ensures var row, event := w.trace[k], w.emitted[w.trace[k].num - 1];
            && row.num == event.num && row.agent == event.agent && row.phase == event.phase
            && row.message <= event.message
            && |row.message| == if |event.message| <= 4000 then |event.message| else 4000
  {
    ReachableSaid(w);
    assert w.trace[k] in w.trace;
  }

  /** So does every event that a stream delivers; it has a row in the trace, and the two agree in
      number, agent and phase, and in the first 4000 characters of the message. */
  lemma StreamsSayWhatWasEmitted(w: World, id: StreamId, i: nat) returns (k: nat)
    requires Reachable(w) && id in w.streams && i < |w.streams[id].delivered|
    ensures 1 <= w.streams[id].delivered[i].num <= |w.emitted|
    ensures var e := w.streams[id].delivered[i];
            var event := w.emitted[e.num - 1];
            && e.num == event.num && e.agent == event.agent && e.phase == event.phase
            && (e.message == event.message || (e.message <= event.message && |e.message| == 4000))
    ensures k < |w.trace|
    ensures var e, row := w.streams[id].delivered[i], w.trace[k];
            && row.num == e.num && row.agent == e.agent && row.phase == e.phase
            && row.message <= e.message
            && |row.message| == if |e.message| <= 4000 then |e.message| else 4000
  {
    ReachableSaid(w);
    var e := w.streams[id].delivered[i];
    assert StreamSaid(w.emitted, w.streams[id]) && e in w.streams[id].delivered;
    DeliveredIncreases(w, id);
    k :| 0 <= k < |w.trace| && w.trace[k] == Row(e);
    hide Reachable;
  }

  // ---------------------------------------------------------------------------------------
  // What "end" means
  // ---------------------------------------------------------------------------------------

  lemma TakenByTheEnd(w: World, id: StreamId)
    requires Inv(w) && Has(w, id, EndedByClose)
    ensures var s := w.streams[id];
            && DeliveryOk(w, s) && s.pos == |s.history| && s.from <= |s.history| <= |w.trace|
            && RowsOf(s.taken) == Kept(w.trace[s.from..|w.trace|], w.lost)
  {
    hide WriterOk, RegistryOk, LossOk, QueueOk, IntervalOk, DeliveryOk, RowsOf, Kept;
    var s := w.streams[id];
    assert StreamOk(w, id, s);
    assert w.trace[s.from..|w.trace|] == w.trace[s.from..];
  }

  /** Ended by the sentinel: everything visible was delivered, which is the entire trace
      exactly when no row was lost after the replay, and in any case all but its last two rows. */
  lemma EndByClose(w: World, id: StreamId)
    requires Reachable(w) && Has(w, id, EndedByClose)
    ensures |w.streams[id].history| <= |w.trace|
    ensures Rows(w.streams[id].delivered) == Visible(w.trace, |w.streams[id].history|, w.lost)
    ensures Rows(w.streams[id].delivered) == w.trace <==> NothingLostAfterReplay(w, w.streams[id])
    ensures |w.trace| <= |w.streams[id].delivered| + 2
  {
    ReachableInv(w);
    TakenByTheEnd(w, id);
    hide StreamOk, WriterOk, RegistryOk, LossOk, DeliveryOk, Rows, RowsOf, Kept, Visible;
    var s := w.streams[id];
    DeliveredOfInterval(w, s, |w.trace|);
    VisibleIsTraceIff(w.trace, |s.history|, w.lost);
    forall k | 0 <= k < |w.trace| - 2 ensures w.trace[k].num !in w.lost {
      LostRowsAreLast(w, k);
    }
    VisibleButForTwo(w.trace, |s.history|, w.lost);
  }

  /** Ended by a terminal status: a completed run was delivered whole, and a failed or
      cancelled one but for its last row at most. */
  lemma EndByStatus(w: World, id: StreamId)
    requires Reachable(w) && Has(w, id, EndedByStatus)
    ensures w.status.Completed? || w.status.Failed? || w.status.Cancelled?
    ensures w.streams[id].seen == w.status
    ensures Rows(w.streams[id].delivered) <= w.trace
    ensures |w.trace| <= |w.streams[id].delivered| + 1
    ensures w.status.Completed? ==> Rows(w.streams[id].delivered) == w.trace
  {
    ReachableInv(w);
    var s := w.streams[id];
    assert StreamOk(w, id, s);
    assert RowsOf(s.taken) == [];
    assert Rows(s.delivered) == s.history;
  }

  /** A stream that is still registered and has emptied its queue while no emit is under way
      has delivered everything visible. */
  lemma CaughtUp(w: World, id: StreamId)
    requires Reachable(w) && id in w.registered && w.emit.Idle?
    requires id in w.streams && Draining(w.streams[id]) && w.streams[id].queue == []
    ensures |w.streams[id].history| <= |w.trace|
    ensures Rows(w.streams[id].delivered) == Visible(w.trace, |w.streams[id].history|, w.lost)
  {
    ReachableInv(w);
    var s := w.streams[id];
    assert StreamOk(w, id, s);
    assert s.taken + s.queue == s.taken;
    hide WriterOk, RegistryOk, LossOk, Rows, RowsOf, Kept, Visible;
    DeliveredOfInterval(w, s, |w.trace|);
  }

  /** Once the close has begun, the trace is final. */
  lemma {:induction false} ClosedTraceIsFinal(w: World, steps: seq<Step>)
    requires Inv(w) && w.closing.Closed? && Run(w, steps)
    ensures After(w, steps).trace == w.trace
    decreases steps
  {
    if steps != [] {
      StepKeepsInv(w, steps[0]);
      var w' := Next(w, steps[0]);
      assert w'.closing.Closed? && w'.trace == w.trace;
      hide Inv, Next;
      ClosedTraceIsFinal(w', steps[1..]);
    }
  }

  // ---------------------------------------------------------------------------------------
  // Composing runs
  // ---------------------------------------------------------------------------------------

  lemma {:induction false} RunAppend(w: World, a: seq<Step>, b: seq<Step>)
    requires Run(w, a) && Run(After(w, a), b)
    ensures Run(w, a + b) && After(w, a + b) == After(After(w, a), b)
    decreases a
  {
    if a == [] {
      assert a + b == b;
    } else {
      RunAppend(Next(w, a[0]), a[1..], b);
      assert (a + b)[1..] == a[1..] + b;
    }
  }

  lemma RunThree(w: World, a: Step, b: Step, c: Step)
    requires Enabled(w, a) && Enabled(Next(w, a), b) && Enabled(Next(Next(w, a), b), c)
    ensures Run(w, [a, b, c])
    ensures After(w, [a, b, c]) == Next(Next(Next(w, a), b), c)
  {
    hide Enabled, Next;
    var w1, w2 := Next(w, a), Next(Next(w, a), b);
    assert [a, b, c][1..] == [b, c] && [b, c][1..] == [c] && [c][1..] == [];
    assert Run(Next(w2, c), []) && After(Next(w2, c), []) == Next(w2, c);
    assert Run(w2, [c]) && After(w2, [c]) == Next(w2, c);
    assert Run(w1, [b, c]) && After(w1, [b, c]) == Next(w2, c);
  }
}
