/** The uninterrupted `_emit` and the generator of `stream_events` as code, the runs of the
    live trace they stand for, and a run in which an interrupted emit leaves a gap.
 */
module LiveTraceEmit {
  import opened EventBus
  import opened RunStatus
  import opened TraceRows
  import opened LiveTrace
  import opened LiveTraceSafety

  // ---------------------------------------------------------------------------------------
  // The writer's code
  // ---------------------------------------------------------------------------------------

  class Emitter {
    var seqs: map<RunId, nat>
    var rows: map<RunId, seq<Event>>
    const bus: Bus

    constructor (bus: Bus)
      ensures this.bus == bus && seqs == map[] && rows == map[]
    {
      this.bus := bus;
      seqs := map[];
      rows := map[];
    }

    function Seq(run: RunId): nat
      reads this
    {
      if run in seqs then seqs[run] else 0
    }

    function Trace(run: RunId): seq<Event>
      reads this
    {
      if run in rows then rows[run] else []
    }

    /** Number, persist, publish. */
    method Emit(run: RunId, agent: string, phase: string, message: string)
      requires bus.Valid()
      modifies this, bus, bus.Of(run)
      ensures bus.Valid()
      ensures Seq(run) == old(Seq(run)) + 1
      ensures |Trace(run)| == |old(Trace(run))| + 1 && old(Trace(run)) <= Trace(run)
      ensures var row := Trace(run)[|Trace(run)| - 1];
              && row.num == old(Seq(run)) + 1 && row.agent == agent && row.phase == phase
              && row.message <= message && |row.message| == if |message| <= 4000 then |message| else 4000
      ensures forall r :: r != run ==> Seq(r) == old(Seq(r)) && Trace(r) == old(Trace(r))
      ensures forall q :: q in old(bus.Of(run)) ==>
        q.items == old(q.items)
          + if |old(q.items)| < 256 then [Live(Event(old(Seq(run)) + 1, agent, phase, message))] else []
      ensures bus.Of(run) == set q | q in old(bus.Of(run)) && |old(q.items)| < 256
      ensures forall r :: r != run ==> bus.Of(r) == old(bus.Of(r))
    {
      var number := Seq(run) + 1;
      seqs := seqs[run := number];
      var event := Event(number, agent, phase, message);
      rows := rows[run := Trace(run) + [Row(event)]];
      bus.Publish(run, event);
    }

    /** When the run is over its numbering is forgotten and its streams are told. */
    method Finish(run: RunId)
      requires bus.Valid()
      modifies this, bus.Of(run)
      ensures Seq(run) == 0 && rows == old(rows) && bus.subscribers == old(bus.subscribers)
      ensures forall r :: r != run ==> Seq(r) == old(Seq(r))
      ensures forall q :: q in bus.Of(run) ==>
        q.items == old(q.items) + if |old(q.items)| < 256 then [End] else []
    {
      seqs := seqs - {run};
      bus.Close(run);
    }
  }

  // ---------------------------------------------------------------------------------------
  // The reader's code
  // ---------------------------------------------------------------------------------------

  predicate Ends(items: seq<Item>, n: nat) {
    n <= |items| && (forall i :: 0 <= i < n - 1 ==> items[i].Live?) && (n < |items| ==> n > 0 && items[n - 1].End?)
  }

  lemma TakeOne(items: seq<Item>, n: nat, replayed: set<nat>)
    requires n < |items|
    ensures Kept(RowsOf(items[..n + 1]), replayed)
         == Kept(RowsOf(items[..n]), replayed)
          + if items[n].Live? && items[n].event.num !in replayed then [Row(items[n].event)] else []
  {
    assert items[..n + 1] == items[..n] + [items[n]];
    RowsOfAppend(items[..n], [items[n]]);
    RowsOfOne(items[n]);
    KeptAppend(RowsOf(items[..n]), RowsOf([items[n]]), replayed);
    hide RowsOf;
  }

  lemma RowsAppendOne(delivered: seq<Event>, e: Event)
    ensures Rows(delivered + [e]) == Rows(delivered) + [Row(e)]
  {
    hide Row;
  }

  /** `generate`: replay, then either the end of a terminal run or the queue until the
      sentinel. `items` are the results of `queue.get` up to the client's disconnection. */
  method Generate(history: seq<Event>, terminal: bool, items: seq<Item>)
    returns (delivered: seq<Event>, ended: bool, consumed: nat)
    requires Rows(history) == history
    ensures terminal ==> ended && consumed == 0
    ensures !terminal ==> Ends(items, consumed) && (ended <==> consumed > 0 && items[consumed - 1].End?)
    ensures consumed <= |items|
    ensures Rows(delivered) == history + Kept(RowsOf(items[..consumed]), Nums(history))
    ensures forall i :: |history| <= i < |delivered| ==> Live(delivered[i]) in items
  {
    NothingKept(Nums(history));
    hide Rows, RowsOf, Kept, Nums, Row;
    delivered, ended, consumed := [], false, 0;
    for k := 0 to |history|
      invariant delivered == history[..k]
    {
      delivered := delivered + [history[k]];
    }
    assert history[..|history|] == history;
    if terminal {
      ended := true;
      return;
    }
    var replayed := Nums(history);
    while consumed < |items|
      invariant consumed <= |items| && !ended
      invariant forall i :: 0 <= i < consumed ==> items[i].Live?
      invariant Rows(delivered) == history + Kept(RowsOf(items[..consumed]), replayed)
      invariant forall i :: |history| <= i < |delivered| ==> Live(delivered[i]) in items
    {
      var item := items[consumed];
      TakeOne(items, consumed, replayed);
      consumed := consumed + 1;
      if item.End? {
        ended := true;
        break;
      }
      if item.event.num !in replayed {
        RowsAppendOne(delivered, item.event);
        delivered := delivered + [item.event];
      }
    }
  }

  // ---------------------------------------------------------------------------------------
  // Runs of the writer
  // ---------------------------------------------------------------------------------------

  /** The effect of one offer on a stream. */
  function OfferedStream(s: Stream, e: Event, frontier: nat): Stream {
    if HasRoom(s.queue) then s.(queue := Offered(s.queue, Live(e)))
    else if Active(s) then s.(cut := frontier)
    else s
  }

  /** The state when everybody still pending has been offered the event. */
  function Drained(w: World): World
    requires w.emit.Publishing? && w.trace != []
  {
    w.(emit := Publishing(w.emit.event, {}),
       registered := (set id | id in w.registered &&
         !(id in w.emit.pending && id in w.streams && !HasRoom(w.streams[id].queue))),
       streams := (map id | id in w.streams ::
         if id in w.emit.pending then OfferedStream(w.streams[id], w.emit.event, |w.trace| - 1)
         else w.streams[id]))
  }

  lemma OneOfferDrains(w: World, id: StreamId)
    requires w.emit.Publishing? && w.trace != [] && id in w.emit.pending && id in w.streams
    ensures Drained(Next(w, Offer(id))) == Drained(w)
  {
    var w' := Next(w, Offer(id));
    assert Drained(w').streams == Drained(w).streams;
    assert Drained(w').registered == Drained(w).registered;
  }

  lemma {:induction false} OffersDrain(w: World) returns (steps: seq<Step>)
    requires w.emit.Publishing? && w.trace != [] && w.emit.pending <= w.streams.Keys
    ensures Run(w, steps) && After(w, steps) == Drained(w)
    decreases |w.emit.pending|
  {
    if w.emit.pending == {} {
      steps := [];
      assert Drained(w) == w;
    } else {
      var id :| id in w.emit.pending;
      var w' := Next(w, Offer(id));
      assert w'.emit.pending == w.emit.pending - {id};
      assert w'.emit.Publishing? && w'.trace == w.trace && w'.streams.Keys == w.streams.Keys;
      OneOfferDrains(w, id);
      hide Next, Drained;
      var rest := OffersDrain(w');
      steps := [Offer(id)] + rest;
      assert steps[1..] == rest;
    }
  }

  /** The effect of an uninterrupted emit: the same as that of `Emitter.Emit`. */
  function Emitted(w: World, agent: string, phase: string, message: string): World {
    var e := Event(w.counter + 1, agent, phase, message);
    w.(counter := w.counter + 1, trace := w.trace + [Row(e)], emit := Idle, noticeDue := false,
       emitted := w.emitted + [e],
       registered := (set id | id in w.registered && !(id in w.streams && !HasRoom(w.streams[id].queue))),
       streams := (map id | id in w.streams ::
         if id in w.registered then OfferedStream(w.streams[id], e, |w.trace|) else w.streams[id]))
  }

  /** Every registered stream has been offered the item, and no other stream has. */
  ghost predicate OfferedTo(w: World, w': World, x: Item)
    requires w.registered <= w.streams.Keys
  {
    && w'.streams.Keys == w.streams.Keys
    && (forall id :: id in w.registered ==>
          w'.streams[id].queue == w.streams[id].queue + if |w.streams[id].queue| < 256 then [x] else [])
    && (forall id :: id in w.streams && id !in w.registered ==> w'.streams[id] == w.streams[id])
  }

  lemma EmittedIs(w: World, agent: string, phase: string, message: string)
    requires w.registered <= w.streams.Keys
    ensures var e, w' := Event(w.counter + 1, agent, phase, message), Emitted(w, agent, phase, message);
            && OfferedTo(w, w', Live(e)) && w'.emitted == w.emitted + [e]
            && w'.registered == set id | id in w.registered && |w.streams[id].queue| < 256
  {}

  lemma EmitIsARun(w: World, agent: string, phase: string, message: string) returns (steps: seq<Step>)
    requires Enabled(w, Number(agent, phase, message)) && w.registered <= w.streams.Keys
    ensures Run(w, steps) && After(w, steps) == Emitted(w, agent, phase, message)
    ensures After(w, steps).emitted == w.emitted + [Event(w.counter + 1, agent, phase, message)]
    ensures |After(w, steps).trace| == |w.trace| + 1 && After(w, steps).counter == w.counter + 1
    ensures OfferedTo(w, After(w, steps), Live(Event(w.counter + 1, agent, phase, message)))
    ensures After(w, steps).registered == set id | id in w.registered && |w.streams[id].queue| < 256
  {
    var number := Number(agent, phase, message);
    RunThree(w, number, Persist, Snapshot);
    var published := After(w, [number, Persist, Snapshot]);
    var offers := OffersDrain(published);
    RunAppend(w, [number, Persist, Snapshot], offers);
    var drained := After(published, offers);
    assert Run(drained, [Published]) && After(drained, [Published]) == Next(drained, Published);
    RunAppend(w, [number, Persist, Snapshot] + offers, [Published]);
    steps := [number, Persist, Snapshot] + offers + [Published];
    assert After(w, steps).streams == Emitted(w, agent, phase, message).streams;
    EmittedIs(w, agent, phase, message);
    hide OfferedTo;
  }

  /** The state when everybody still pending has been offered the sentinel. */
  function Told(w: World): World
    requires w.closing.Closed?
  {
    w.(closing := Closed({}),
       streams := (map id | id in w.streams ::
         if id in w.closing.pending then w.streams[id].(queue := Offered(w.streams[id].queue, End))
         else w.streams[id]))
  }

  lemma OneEndTells(w: World, id: StreamId)
    requires w.closing.Closed? && id in w.closing.pending && id in w.streams
    ensures Told(Next(w, OfferEnd(id))) == Told(w)
  {
    assert Told(Next(w, OfferEnd(id))).streams == Told(w).streams;
  }

  lemma {:induction false} EndsAreOffered(w: World) returns (steps: seq<Step>)
    requires w.closing.Closed? && w.closing.pending <= w.streams.Keys
    ensures Run(w, steps) && After(w, steps) == Told(w)
    decreases |w.closing.pending|
  {
    if w.closing.pending == {} {
      steps := [];
      assert Told(w) == w;
    } else {
      var id :| id in w.closing.pending;
      var w' := Next(w, OfferEnd(id));
      assert w'.closing == Closed(w.closing.pending - {id}) && w'.streams.Keys == w.streams.Keys;
      OneEndTells(w, id);
      hide Next, Told;
      var rest := EndsAreOffered(w');
      steps := [OfferEnd(id)] + rest;
      assert steps[1..] == rest;
    }
  }

  /** The effect of an uninterrupted close is a run: the same as that of `Emitter.Finish`. */
  lemma CloseIsARun(w: World) returns (steps: seq<Step>)
    requires Enabled(w, CloseSnapshot) && w.registered <= w.streams.Keys
    ensures Run(w, steps) && OfferedTo(w, After(w, steps), End)
    ensures After(w, steps) == w.(closing := Closed({}), streams := After(w, steps).streams)
  {
    var closing := Next(w, CloseSnapshot);
    assert closing == w.(closing := Closed(w.registered));
    var ends := EndsAreOffered(closing);
    steps := [CloseSnapshot] + ends;
    assert steps[1..] == ends;
    hide Enabled, Next;
    assert After(w, steps) == Told(closing);
  }

  /** The effect of an emit that is interrupted between its commit and its publication. */
  function Interrupted(w: World, agent: string, phase: string, message: string): World {
    var e := Event(w.counter + 1, agent, phase, message);
    w.(counter := w.counter + 1, trace := w.trace + [Row(e)], noticeDue := false, abandoned := true,
       emitted := w.emitted + [e], lost := w.lost + {e.num})
  }

  lemma InterruptionIsARun(w: World, agent: string, phase: string, message: string)
    requires Enabled(w, Number(agent, phase, message))
    ensures Run(w, [Number(agent, phase, message), Persist, Abandon])
    ensures After(w, [Number(agent, phase, message), Persist, Abandon]) == Interrupted(w, agent, phase, message)
  {
    RunThree(w, Number(agent, phase, message), Persist, Abandon);
  }

  /** The effect of opening a stream in an idle moment. */
  function Opened(w: World, id: StreamId): World {
    w.(registered := w.registered + {id},
       streams := w.streams[id := Stream(Streaming, w.status, [], w.trace, 0, [], [], |w.trace|, 0)])
  }

  lemma OpeningIsARun(w: World, id: StreamId)
    requires id !in w.streams && w.emit.Idle?
    ensures Run(w, [Look(id), Subscribe(id), ReadHistory(id)])
    ensures After(w, [Look(id), Subscribe(id), ReadHistory(id)]) == Opened(w, id)
  {
    OpeningSteps(w, id);
    hide Enabled, Next, Opened;
    RunThree(w, Look(id), Subscribe(id), ReadHistory(id));
  }

  lemma OpeningSteps(w: World, id: StreamId)
    requires id !in w.streams && w.emit.Idle?
    ensures Enabled(w, Look(id)) && Enabled(Next(w, Look(id)), Subscribe(id))
    ensures var subscribed := Next(Next(w, Look(id)), Subscribe(id));
            Enabled(subscribed, ReadHistory(id)) && Next(subscribed, ReadHistory(id)) == Opened(w, id)
  {}

  lemma ReachableOn(w: World, steps: seq<Step>)
    requires Reachable(w) && Run(w, steps)
    ensures Reachable(After(w, steps))
  {
    var before :| Run(INITIAL, before) && w == After(INITIAL, before);
    RunAppend(INITIAL, before, steps);
  }

  /** A running writer with one open stream, before anything was emitted. */
  function Ready(): World {
    Opened(Next(INITIAL, SetStatus(Running)), 0)
  }

  lemma ReadyIsReachable()
    ensures Reachable(Ready())
  {
    assert Run(INITIAL, []) && After(INITIAL, []) == INITIAL;
    assert Run(INITIAL, [SetStatus(Running)]);
    ReachableOn(INITIAL, [SetStatus(Running)]);
    var start := Next(INITIAL, SetStatus(Running));
    OpeningIsARun(start, 0);
    ReachableOn(start, [Look(0), Subscribe(0), ReadHistory(0)]);
  }

  /** An emit is interrupted, so the run is failed, and the notice of that is emitted. */
  function GapWorld(): World {
    Emitted(
      Next(Interrupted(Ready(), "planner", "start", ""), SetStatus(Failed)), "orchestrator", "error", "")
  }

  lemma OneStep(w: World, step: Step)
    requires Enabled(w, step)
    ensures Run(w, [step]) && After(w, [step]) == Next(w, step)
  {
    hide Enabled, Next;
    assert [step][1..] == [];
    assert Run(Next(w, step), []);
  }

  lemma GapIsReachable()
    ensures Reachable(GapWorld())
  {
    var ready := Ready();
    var gapped := Interrupted(ready, "planner", "start", "");
    var failed := Next(gapped, SetStatus(Failed));
    assert Enabled(ready, Number("planner", "start", "")) && Enabled(gapped, SetStatus(Failed));
    assert Enabled(failed, Number("orchestrator", "error", "")) && failed.registered <= failed.streams.Keys;
    hide Ready, Interrupted, Enabled, Next, Reachable, Emitted;
    ReadyIsReachable();
    InterruptionIsARun(ready, "planner", "start", "");
    ReachableOn(ready, [Number("planner", "start", ""), Persist, Abandon]);
    OneStep(gapped, SetStatus(Failed));
    ReachableOn(gapped, [SetStatus(Failed)]);
    var emit := EmitIsARun(failed, "orchestrator", "error", "");
    ReachableOn(failed, emit);
  }

  /** A stream opened before the first event, whose publication is interrupted, delivers the
      notice of the failure and never the first event: the trace has a row the stream skipped. */
  lemma InterruptedEmitLeavesGap() returns (w: World)
    ensures Reachable(w) && w.status.Failed?
    ensures |w.trace| == 2 && w.trace[0].num == 1 && w.trace[1].num == 2
    ensures Has(w, 0, Streaming) && Rows(w.streams[0].delivered) == [w.trace[1]]
  {
    GapIsDelivered();
    w := Next(GapWorld(), Dequeue(0));
    hide GapWorld, Enabled, Next, Reachable;
    GapIsReachable();
    OneStep(GapWorld(), Dequeue(0));
    ReachableOn(GapWorld(), [Dequeue(0)]);
  }

  /** The state before the dequeue, as far as it matters. */
  lemma GapIsQueued()
    ensures var w := GapWorld();
            && w.trace == [Event(1, "planner", "start", ""), Event(2, "orchestrator", "error", "")]
            && w.status.Failed? && 0 in w.streams
            && w.streams[0]
               == Stream(Streaming, Running, [Live(Event(2, "orchestrator", "error", ""))], [], 0, [], [], 0, 0)
  {
    var failed := Next(Interrupted(Ready(), "planner", "start", ""), SetStatus(Failed));
    assert failed.trace == [Event(1, "planner", "start", "")] && failed.counter == 1;
    assert failed.registered == {0};
    assert failed.streams[0] == Stream(Streaming, Running, [], [], 0, [], [], 0, 0);
    hide Interrupted, Ready, Next;
  }

  lemma GapIsDelivered()
    ensures Enabled(GapWorld(), Dequeue(0))
    ensures var w := Next(GapWorld(), Dequeue(0));
            && w.status.Failed? && |w.trace| == 2 && w.trace[0].num == 1 && w.trace[1].num == 2
            && Has(w, 0, Streaming) && Rows(w.streams[0].delivered) == [w.trace[1]]
  {
    GapIsQueued();
    hide GapWorld;
    var notice := Event(2, "orchestrator", "error", "");
    assert Nums([]) == {};
    var w := Next(GapWorld(), Dequeue(0));
    assert w.streams[0].delivered == [notice] && Row(notice) == notice;
  }
}
