/** The live trace of one run: a writer that numbers, persists and publishes events, and any
    number of streams that subscribe, replay the history and then drain their queue. Every
    step is atomic in the event loop; steps of the writer and of the streams interleave freely.
 */
module LiveTrace {
  import opened EventBus
  import opened RunStatus
  import opened TraceRows

  type StreamId = nat

  /** Where `_emit` stands. */
  datatype Emit =
    | Idle
    | Numbered(event: Event)
    | Persisted(event: Event)
    | Publishing(event: Event, pending: set<StreamId>)

  /** Where `close` stands. */
  datatype Closing = NotClosed | Closed(pending: set<StreamId>)

  datatype Phase = Looked | Subscribed | Streaming | EndedByClose | EndedByStatus | Gone

  /** `taken` and `from` are history variables: the items dequeued so far, and the number of
      rows already dispatched when the stream subscribed. `cut` is the number of rows that had
      been dispatched when it was dropped or left. */
  datatype Stream = Stream(
    phase: Phase, seen: Status, queue: seq<Item>, history: seq<Event>, pos: nat,
    delivered: seq<Event>, taken: seq<Item>, from: nat, cut: nat)

  /** `noticeDue`: after a failure or a cancellation one more event may be emitted.
      `abandoned`: an emit was interrupted, which fails the run, so that only this notice is left.
      `lost`, `settled` and `emitted` are history variables: the numbers of rows whose publication
      was interrupted, the length of the trace when the status became terminal, and every event
      that was numbered, in order. */
  datatype World = World(
    counter: nat, trace: seq<Event>, emit: Emit, status: Status, noticeDue: bool,
    abandoned: bool, closing: Closing, registered: set<StreamId>, streams: map<StreamId, Stream>,
    lost: set<nat>, settled: nat, emitted: seq<Event>)

  const INITIAL := World(0, [], Idle, Queued, false, false, NotClosed, {}, map[], {}, 0, [])

  datatype Step =
    | Number(agent: string, phase: string, message: string)
    | Persist
    | Abandon
    | Snapshot
    | Offer(id: StreamId)
    | Published
    | SetStatus(status: Status)
    | CloseSnapshot
    | OfferEnd(id: StreamId)
    | Look(id: StreamId)
    | Subscribe(id: StreamId)
    | ReadHistory(id: StreamId)
    | FailHistory(id: StreamId)
    | Replay(id: StreamId)
    | EndOnStatus(id: StreamId)
    | Dequeue(id: StreamId)
    | Leave(id: StreamId)

  predicate Active(s: Stream) {
    s.phase.Subscribed? || s.phase.Streaming?
  }

  predicate Draining(s: Stream) {
    s.phase.Streaming? && s.pos == |s.history| && !Terminal(s.seen)
  }

  predicate Has(w: World, id: StreamId, phase: Phase) {
    id in w.streams && w.streams[id].phase == phase
  }

  predicate Enabled(w: World, step: Step) {
    match step
    case Number(_, _, _) =>
      w.emit.Idle? && w.closing.NotClosed? && ((w.status.Running? && !w.abandoned) || w.noticeDue)
    case Persist => w.emit.Numbered?
    case Abandon => w.emit.Numbered? || w.emit.Persisted?
    case Snapshot => w.emit.Persisted?
    case Offer(id) => w.emit.Publishing? && id in w.emit.pending && id in w.streams
    case Published => w.emit.Publishing? && w.emit.pending == {}
    case SetStatus(status) =>
      w.emit.Idle? && w.closing.NotClosed? && !Terminal(w.status) && !status.Queued?
      && !(w.abandoned && status.Completed?)
    case CloseSnapshot => w.emit.Idle? && w.closing.NotClosed?
    case OfferEnd(id) => w.closing.Closed? && id in w.closing.pending && id in w.streams
    case Look(id) => id !in w.streams
    case Subscribe(id) => Has(w, id, Looked)
    case ReadHistory(id) => Has(w, id, Subscribed)
    case FailHistory(id) => Has(w, id, Subscribed)
    case Replay(id) => Has(w, id, Streaming) && w.streams[id].pos < |w.streams[id].history|
    case EndOnStatus(id) =>
      Has(w, id, Streaming) && w.streams[id].pos == |w.streams[id].history| && Terminal(w.streams[id].seen)
    case Dequeue(id) => id in w.streams && Draining(w.streams[id]) && w.streams[id].queue != []
    case Leave(id) => Has(w, id, Streaming)
  }

  /** Rows whose publication to the stream is over. */
  function Frontier(w: World, id: StreamId): nat {
    if w.trace != [] && (w.emit.Persisted? || (w.emit.Publishing? && id in w.emit.pending))
    then |w.trace| - 1 else |w.trace|
  }

  function Upto(w: World, id: StreamId, s: Stream): nat {
    if Active(s) && id in w.registered then Frontier(w, id) else s.cut
  }

  /** What the stream does with a dequeued item. */
  function Consume(s: Stream, x: Item): Stream {
    match x
    case End => s.(phase := EndedByClose)
    case Live(e) =>
      if e.num in Nums(s.history) then s else s.(delivered := s.delivered + [e])
  }

  function Unsubscribed(w: World, id: StreamId, s: Stream): World
  {
    w.(registered := w.registered - {id},
       streams := w.streams[id := if id in w.registered then s.(cut := Frontier(w, id)) else s])
  }

  function Next(w: World, step: Step): World
    requires Enabled(w, step)
  {
    match step
    case Number(agent, phase, message) =>
      var event := Event(w.counter + 1, agent, phase, message);
      w.(counter := w.counter + 1, emit := Numbered(event), noticeDue := false, emitted := w.emitted + [event])
    case Persist => w.(trace := w.trace + [Row(w.emit.event)], emit := Persisted(w.emit.event))
    case Abandon =>
      w.(emit := Idle, abandoned := true, lost := if w.emit.Persisted? then w.lost + {w.emit.event.num} else w.lost)
    case Snapshot => w.(emit := Publishing(w.emit.event, w.registered))
    case Offer(id) =>
      var s := w.streams[id];
      var offered := w.(emit := w.emit.(pending := w.emit.pending - {id}));
      if HasRoom(s.queue)
      then offered.(streams := w.streams[id := s.(queue := Offered(s.queue, Live(w.emit.event)))])
      else offered.(registered := w.registered - {id},
                    streams := w.streams[id := if Active(s) then s.(cut := Frontier(w, id)) else s])
    case Published => w.(emit := Idle)
    case SetStatus(status) =>
      w.(status := status, noticeDue := status.Failed? || status.Cancelled?,
         settled := if Terminal(status) then |w.trace| else w.settled)
    case CloseSnapshot => w.(closing := Closed(w.registered))
    case OfferEnd(id) =>
      w.(closing := Closed(w.closing.pending - {id}),
         streams := w.streams[id := w.streams[id].(queue := Offered(w.streams[id].queue, End))])
    case Look(id) =>
      w.(streams := w.streams[id := Stream(Looked, w.status, [], [], 0, [], [], 0, 0)])
    case Subscribe(id) =>
      w.(registered := w.registered + {id},
         streams := w.streams[id := w.streams[id].(phase := Subscribed, from := Frontier(w, id))])
    case ReadHistory(id) =>
      w.(streams := w.streams[id := w.streams[id].(phase := Streaming, history := w.trace)])
    case FailHistory(id) =>
      w.(streams := w.streams[id := w.streams[id].(phase := Gone, cut := w.streams[id].from)])
    case Replay(id) =>
      var s := w.streams[id];
      w.(streams := w.streams[id := s.(pos := s.pos + 1, delivered := s.delivered + [s.history[s.pos]])])
    case EndOnStatus(id) => Unsubscribed(w, id, w.streams[id].(phase := EndedByStatus))
    case Dequeue(id) =>
      var s := w.streams[id];
      var x := s.queue[0];
      var s' := Consume(s.(queue := s.queue[1..], taken := s.taken + [x]), x);
      if x.End? then Unsubscribed(w, id, s') else w.(streams := w.streams[id := s'])
    case Leave(id) => Unsubscribed(w, id, w.streams[id].(phase := Gone))
  }

  // ---------------------------------------------------------------------------------------
  // The invariant
  // ---------------------------------------------------------------------------------------

  ghost predicate WriterOk(w: World) {
    && Increasing(w.trace)
    && (forall row :: row in w.trace ==> row.num <= w.counter && Row(row) == row)
    && (forall n :: n in w.lost ==> n <= w.counter)
    && (!w.emit.Idle? ==> w.emit.event.num == w.counter && w.counter !in w.lost)
    && (w.emit.Numbered? ==> forall row :: row in w.trace ==> row.num < w.counter)
    && (w.emit.Persisted? || w.emit.Publishing? ==>
          w.trace != [] && w.trace[|w.trace| - 1] == Row(w.emit.event))
    && (w.closing.Closed? ==> w.emit.Idle?)
    && StatusOk(w)
  }

  /** After the status is terminal, at most the one notice still joins the trace. */
  ghost predicate StatusOk(w: World) {
    if Terminal(w.status) then
      && w.settled <= |w.trace|
      && |w.trace| + (if w.noticeDue then 1 else 0) + (if w.emit.Numbered? then 1 else 0) <= w.settled + 1
      && (w.status.Completed? ==> |w.trace| == w.settled && !w.noticeDue && w.emit.Idle?)
    else !w.noticeDue
  }

  ghost predicate Listed(w: World, id: StreamId) {
    id in w.streams && !w.streams[id].phase.Looked? && (Active(w.streams[id]) ==> id in w.registered)
  }

  ghost predicate RegistryOk(w: World) {
    && (forall id :: id in w.registered ==> id in w.streams && !w.streams[id].phase.Looked?)
    && (w.emit.Publishing? ==> forall id :: id in w.emit.pending ==> Listed(w, id))
    && (w.closing.Closed? ==> forall id :: id in w.closing.pending ==> Listed(w, id))
  }

  /** The sentinel is the last item, and only a registered stream that was closed has it. */
  ghost predicate QueueOk(w: World, id: StreamId, s: Stream) {
    && |s.queue| <= QUEUE_MAXSIZE
    && (Active(s) ==> forall i :: 0 <= i < |s.queue| && s.queue[i].End? ==>
          i == |s.queue| - 1 && w.closing.Closed? && id !in w.closing.pending && id in w.registered)
  }

  /** Taken and queued items are exactly the published rows of the stream's interval. */
  ghost predicate IntervalOk(w: World, id: StreamId, s: Stream) {
    var upto := Upto(w, id, s);
    && s.from <= upto <= |w.trace|
    && (w.emit.Persisted? ==> upto < |w.trace|)
    && if Active(s)
       then RowsOf(s.taken + s.queue) == Kept(w.trace[s.from..upto], w.lost)
       else RowsOf(s.taken) <= Kept(w.trace[s.from..upto], w.lost)
  }

  /** Delivered is the replayed part of the history and the new rows among those taken. */
  ghost predicate DeliveryOk(w: World, s: Stream) {
    && s.pos <= |s.history| && s.history <= w.trace
    && (s.phase.Subscribed? ==> s.history == [] && s.taken == [] && s.delivered == [])
    && (s.pos < |s.history| ==> s.taken == [])
    && (s.phase.Streaming? || s.taken != [] ==> s.from <= |s.history|)
    && Rows(s.delivered) == s.history[..s.pos] + Kept(RowsOf(s.taken), Nums(s.history))
    && (s.taken != [] ==> !Terminal(s.seen))
  }

  /** A terminal status seen before subscribing is the final one. */
  ghost predicate EndOk(w: World, id: StreamId, s: Stream) {
    && (Terminal(s.seen) ==> s.seen == w.status)
    && (Terminal(s.seen) && (s.phase.Streaming? || s.phase.EndedByStatus?) ==> |s.history| >= w.settled)
    && (s.phase.EndedByStatus? ==> Terminal(s.seen) && s.pos == |s.history|)
    && (s.phase.EndedByClose? ==>
          && w.closing.Closed? && s.pos == |s.history| && s.from <= |s.history| <= |w.trace|
          && RowsOf(s.taken) == Kept(w.trace[s.from..], w.lost))
  }

  ghost predicate StreamOk(w: World, id: StreamId, s: Stream) {
    && (Terminal(s.seen) ==> s.seen == w.status)
    && if s.phase.Looked?
       then s == Stream(Looked, s.seen, [], [], 0, [], [], 0, 0)
       else QueueOk(w, id, s) && IntervalOk(w, id, s) && DeliveryOk(w, s) && EndOk(w, id, s)
  }

  /** How many rows at the end of the trace can be lost: none before an emit was interrupted,
      then the interrupted one, and in the end the notice behind it. */
  function MaybeLost(w: World): nat {
    if !w.abandoned then 0
    else if w.emit.Numbered? || (w.emit.Idle? && (!Terminal(w.status) || w.noticeDue)) then 1
    else 2
  }

  ghost predicate LossOk(w: World) {
    && (forall k :: 0 <= k < |w.trace| - MaybeLost(w) ==> w.trace[k].num !in w.lost)
    && (w.abandoned && !w.emit.Idle? ==> Terminal(w.status) && !w.noticeDue)
    && (!w.abandoned ==> w.lost == {})
  }

  ghost predicate Inv(w: World) {
    && WriterOk(w) && RegistryOk(w) && LossOk(w)
    && forall id :: id in w.streams ==> StreamOk(w, id, w.streams[id])
  }

  // ---------------------------------------------------------------------------------------
  // Every step keeps it
  // ---------------------------------------------------------------------------------------

  lemma LastLost(w: World, from: nat)
    requires WriterOk(w) && w.emit.Persisted? && from < |w.trace|
    ensures Kept(w.trace[from..], w.lost + {w.emit.event.num})
         == Kept(w.trace[from..|w.trace| - 1], w.lost)
  {
    var last, lost := |w.trace| - 1, w.lost + {w.emit.event.num};
    assert w.trace[from..] == w.trace[from..last] + [w.trace[last]];
    KeptAppend(w.trace[from..last], [w.trace[last]], lost);
    KeptDependsOnOwnNumbers(w.trace[from..last], lost, w.lost);
  }

  lemma LastPublished(w: World, from: nat)
    requires WriterOk(w) && w.emit.Publishing? && from < |w.trace|
    ensures Kept(w.trace[from..], w.lost)
         == Kept(w.trace[from..|w.trace| - 1], w.lost) + [Row(w.emit.event)]
  {
    var last := |w.trace| - 1;
    assert w.trace[from..] == w.trace[from..last] + [w.trace[last]];
    KeptAppend(w.trace[from..last], [w.trace[last]], w.lost);
  }

  /** Rows already accounted for are not touched by a later loss. */
  lemma EarlierRowsKept(w: World, from: nat, upto: nat)
    requires WriterOk(w) && w.emit.Persisted? && from <= upto < |w.trace|
    ensures Kept(w.trace[from..upto], w.lost + {w.emit.event.num}) == Kept(w.trace[from..upto], w.lost)
  {
    KeptDependsOnOwnNumbers(w.trace[from..upto], w.lost + {w.emit.event.num}, w.lost);
  }

  /** What a step of the writer may not disturb for a stream to stay as it should be. */
  lemma StreamUndisturbed(w: World, w': World, id: StreamId, s: Stream)
    requires StreamOk(w, id, s) && !s.phase.Looked?
    requires w.trace <= w'.trace && w'.lost == w.lost
    requires id in w'.registered <==> id in w.registered
    requires Terminal(w.status) ==> w'.status == w.status && w'.settled == w.settled
    requires Upto(w', id, s) == Upto(w, id, s)
    requires w'.emit.Persisted? ==> Upto(w, id, s) < |w'.trace|
    requires w.closing.Closed? ==>
      w'.closing.Closed? && w'.closing.pending <= w.closing.pending && w'.trace == w.trace
    ensures StreamOk(w', id, s)
  {
    hide Upto, Frontier, RowsOf, Kept, Rows, Nums;
    var upto := Upto(w, id, s);
    assert w'.trace[s.from..upto] == w.trace[s.from..upto];
  }

  lemma LookedUndisturbed(w: World, w': World, id: StreamId, s: Stream)
    requires StreamOk(w, id, s) && s.phase.Looked?
    requires Terminal(w.status) ==> w'.status == w.status
    ensures StreamOk(w', id, s)
  {}

  lemma WriterStepKeepsWriterOk(w: World, step: Step)
    requires Inv(w) && Enabled(w, step) && (step.Number? || step.Persist? || step.Snapshot? || step.Published?)
    ensures WriterOk(Next(w, step)) && RegistryOk(Next(w, step))
  {
    hide StreamOk, LossOk;
    WriterStepKeepsRegistry(w, step);
    WriterStepKeepsRows(w, step);
    hide RegistryOk, Increasing, Row;
  }

  lemma WriterStepKeepsRegistry(w: World, step: Step)
    requires WriterOk(w) && RegistryOk(w) && Enabled(w, step)
    requires step.Number? || step.Persist? || step.Snapshot? || step.Published?
    ensures RegistryOk(Next(w, step))
  {
    hide Increasing, Row, StatusOk;
  }

  lemma WriterStepKeepsRows(w: World, step: Step)
    requires WriterOk(w) && Enabled(w, step)
    requires step.Number? || step.Persist? || step.Snapshot? || step.Published?
    ensures var w' := Next(w, step);
            && Increasing(w'.trace)
            && (forall row :: row in w'.trace ==> row.num <= w'.counter && Row(row) == row)
            && (w'.emit.Numbered? ==> forall row :: row in w'.trace ==> row.num < w'.counter)
  {
    hide StatusOk;
  }

  lemma StatusStepKeepsWriterOk(w: World, step: Step)
    requires Inv(w) && Enabled(w, step) && (step.SetStatus? || step.CloseSnapshot? || step.Abandon?)
    ensures WriterOk(Next(w, step)) && RegistryOk(Next(w, step))
  {}

  lemma StepKeepsLoss(w: World, step: Step)
    requires WriterOk(w) && LossOk(w) && Enabled(w, step) && !TouchesOneStream(step)
    ensures LossOk(Next(w, step))
  {}

  predicate IsWriterStep(step: Step) {
    step.Number? || step.Persist? || step.Snapshot? || step.Published? || step.SetStatus? || step.CloseSnapshot?
  }

  lemma WriterStepKeepsUpto(w: World, step: Step, id: StreamId, s: Stream)
    requires WriterOk(w) && RegistryOk(w) && Enabled(w, step) && IsWriterStep(step)
    requires id in w.streams && s == w.streams[id] && !s.phase.Looked? && IntervalOk(w, id, s)
    ensures Upto(Next(w, step), id, s) == Upto(w, id, s)
    ensures Next(w, step).emit.Persisted? ==> Upto(w, id, s) < |Next(w, step).trace|
  {
    hide RowsOf, Kept, Increasing, Row, StatusOk;
  }

  lemma WriterStepFrame(w: World, step: Step)
    requires WriterOk(w) && Enabled(w, step) && IsWriterStep(step)
    ensures var w' := Next(w, step);
            && w'.streams == w.streams && w'.registered == w.registered
            && w.trace <= w'.trace && w'.lost == w.lost
            && (Terminal(w.status) ==> w'.status == w.status && w'.settled == w.settled)
            && (w.closing.Closed? ==>
                  w'.closing.Closed? && w'.closing.pending <= w.closing.pending && w'.trace == w.trace)
  {
    hide Increasing, Row, StatusOk;
  }

  lemma WriterStepKeepsStream(w: World, step: Step, id: StreamId)
    requires WriterOk(w) && RegistryOk(w) && Enabled(w, step) && IsWriterStep(step)
    requires id in w.streams && StreamOk(w, id, w.streams[id])
    ensures StreamOk(Next(w, step), id, w.streams[id])
  {
    var s := w.streams[id];
    assert !s.phase.Looked? ==> IntervalOk(w, id, s);
    hide WriterOk, RegistryOk, StreamOk, IntervalOk, Next, Enabled, Upto;
    WriterStepFrame(w, step);
    if s.phase.Looked? {
      LookedUndisturbed(w, Next(w, step), id, s);
    } else {
      WriterStepKeepsUpto(w, step, id, s);
      StreamUndisturbed(w, Next(w, step), id, s);
    }
  }

  lemma WriterStepKeepsInv(w: World, step: Step)
    requires Inv(w) && Enabled(w, step) && IsWriterStep(step)
    ensures Inv(Next(w, step))
  {
    hide StreamOk, WriterOk, RegistryOk, LossOk, Next, Enabled;
    var w' := Next(w, step);
    if step.SetStatus? || step.CloseSnapshot? {
      StatusStepKeepsWriterOk(w, step);
    } else {
      WriterStepKeepsWriterOk(w, step);
    }
    StepKeepsLoss(w, step);
    WriterStepFrame(w, step);
    forall id | id in w'.streams ensures StreamOk(w', id, w'.streams[id]) {
      WriterStepKeepsStream(w, step, id);
    }
  }

  lemma AbandonKeepsInv(w: World)
    requires Inv(w) && Enabled(w, Abandon)
    ensures Inv(Next(w, Abandon))
  {
    var w' := Next(w, Abandon);
    StatusStepKeepsWriterOk(w, Abandon);
    StepKeepsLoss(w, Abandon);
    hide LossOk;
    forall id | id in w'.streams ensures StreamOk(w', id, w'.streams[id]) {
      var s := w.streams[id];
      assert StreamOk(w, id, s);
      if s.phase.Looked? {
        LookedUndisturbed(w, w', id, s);
      } else if w.emit.Numbered? {
        StreamUndisturbed(w, w', id, s);
      } else {
        LossAccounted(w, id, s);
      }
    }
  }

  lemma LossKeepsInterval(w: World, id: StreamId, s: Stream)
    requires WriterOk(w) && w.emit.Persisted? && IntervalOk(w, id, s)
    ensures IntervalOk(Next(w, Abandon), id, s)
  {
    hide RowsOf, Kept, Increasing, Row, StatusOk;
    var upto := Upto(w, id, s);
    EarlierRowsKept(w, s.from, upto);
    if Active(s) && id in w.registered {
      LastLost(w, s.from);
      assert w.trace[s.from..|w.trace|] == w.trace[s.from..];
    }
    hide WriterOk, RowsOf, Kept;
  }

  lemma LossAccounted(w: World, id: StreamId, s: Stream)
    requires WriterOk(w) && w.emit.Persisted? && StreamOk(w, id, s) && !s.phase.Looked?
    ensures StreamOk(Next(w, Abandon), id, s)
  {
    LossKeepsInterval(w, id, s);
    assert w.closing.NotClosed?;
    hide WriterOk, IntervalOk, RowsOf, Kept, Rows, Nums;
  }

  /** A step that touches one stream, and the registration of that stream only. */
  ghost predicate Local(w: World, w': World, id: StreamId) {
    && w'.trace == w.trace && w'.lost == w.lost && w'.counter == w.counter && w'.abandoned == w.abandoned
    && w'.emitted == w.emitted
    && w'.status == w.status && w'.settled == w.settled && w'.noticeDue == w.noticeDue
    && w'.registered - {id} == w.registered - {id}
    && w'.streams.Keys == w.streams.Keys + {id}
    && (forall other :: other in w.streams && other != id ==> w'.streams[other] == w.streams[other])
    && (w'.emit == w.emit ||
        (w.emit.Publishing? && w'.emit == w.emit.(pending := w.emit.pending - {id})))
    && (w'.closing == w.closing ||
        (w.closing.Closed? && w'.closing == Closed(w.closing.pending - {id})))
  }

  lemma LocalStepKeepsWriterOk(w: World, w': World, id: StreamId)
    requires WriterOk(w) && Local(w, w', id)
    ensures WriterOk(w')
  {
    hide Increasing, Row;
  }

  lemma LocalStepKeepsOthers(w: World, w': World, id: StreamId)
    requires Inv(w) && Local(w, w', id) && id in w'.streams
    requires RegistryOk(w') && StreamOk(w', id, w'.streams[id])
    ensures Inv(w')
  {
    LocalStepKeepsWriterOk(w, w', id);
    assert LossOk(w');
    assert forall other :: other in w.streams ==> StreamOk(w, other, w.streams[other]);
    hide StreamOk, RegistryOk, LossOk, Increasing, Row, StatusOk;
    forall other | other in w'.streams && other != id ensures StreamOk(w', other, w'.streams[other]) {
      var s := w.streams[other];
      assert other in w'.registered <==> other in w'.registered - {id};
      assert other in w.registered <==> other in w.registered - {id};
      if s.phase.Looked? {
        LookedUndisturbed(w, w', other, s);
      } else {
        StreamUndisturbed(w, w', other, s);
      }
    }
  }

  predicate TouchesOneStream(step: Step) {
    step.Offer? || step.OfferEnd? || step.Look? || step.Subscribe? || step.ReadHistory? || step.FailHistory?
    || step.Replay? || step.EndOnStatus? || step.Dequeue? || step.Leave?
  }

  lemma StreamStepIsLocal(w: World, step: Step)
    requires Enabled(w, step) && TouchesOneStream(step)
    ensures Local(w, Next(w, step), step.id) && step.id in Next(w, step).streams
  {
    hide Frontier, Offered, HasRoom, Consume, Row;
    var w' := Next(w, step);
    assert w'.registered - {step.id} == w.registered - {step.id};
    assert w'.streams.Keys == w.streams.Keys + {step.id};
  }

  lemma StreamStepKeepsListed(w: World, step: Step)
    requires WriterOk(w) && Enabled(w, step) && TouchesOneStream(step)
    requires step.id in w.registered ==> step.id in w.streams && !w.streams[step.id].phase.Looked?
    ensures
      var w' := Next(w, step);
      && (step.id in w'.registered ==> !w'.streams[step.id].phase.Looked?)
      && (Listed(w, step.id) && !step.Offer? ==> Listed(w', step.id))
      && (step.Offer? ==> w'.emit.Publishing? && step.id !in w'.emit.pending && w'.closing.NotClosed?)
  {
    hide Offered, HasRoom, Frontier, Increasing, Row, StatusOk, Nums;
    if step.Dequeue? {
      DequeueKeepsListed(w, step.id);
    }
    hide Consume;
  }

  lemma DequeueKeepsListed(w: World, id: StreamId)
    requires Enabled(w, Dequeue(id))
    ensures var w' := Next(w, Dequeue(id));
            && !w'.streams[id].phase.Looked?
            && (Active(w'.streams[id]) ==> Active(w.streams[id]) && w'.registered == w.registered)
            && w'.registered <= w.registered
  {
    hide Frontier, Nums;
  }

  lemma StreamStepKeepsRegistry(w: World, step: Step)
    requires WriterOk(w) && RegistryOk(w) && Enabled(w, step) && TouchesOneStream(step)
    ensures RegistryOk(Next(w, step))
  {
    hide WriterOk, Next, Enabled, Active;
    var id, w' := step.id, Next(w, step);
    StreamStepIsLocal(w, step);
    StreamStepKeepsListed(w, step);
    assert forall other :: other in w'.registered && other != id ==> other in w'.registered - {id};
    forall other | other != id && Listed(w, other) ensures Listed(w', other) {
      assert other in w.registered ==> other in w.registered - {id};
    }
  }

  lemma OfferUpto(w: World, id: StreamId)
    requires WriterOk(w) && RegistryOk(w) && Enabled(w, Offer(id))
    ensures w.trace != [] && !w.emit.Persisted?
    ensures
      var w' := Next(w, Offer(id));
      var s, s' := w.streams[id], w'.streams[id];
      && (Active(s) ==> Upto(w, id, s) == |w.trace| - 1)
      && Upto(w', id, s') == if Active(s) && HasRoom(s.queue) then |w.trace| else Upto(w, id, s)
  {
    hide Offered;
  }

  lemma QueueingKeepsInterval(w: World, id: StreamId)
    requires WriterOk(w) && RegistryOk(w) && Enabled(w, Offer(id))
    requires Active(w.streams[id]) && HasRoom(w.streams[id].queue) && IntervalOk(w, id, w.streams[id])
    ensures IntervalOk(Next(w, Offer(id)), id, Next(w, Offer(id)).streams[id])
  {
    hide WriterOk, RegistryOk, Kept, RowsOf, Upto, Frontier;
    var s, s' := w.streams[id], Next(w, Offer(id)).streams[id];
    OfferUpto(w, id);
    LastPublished(w, s.from);
    assert w.trace[s.from..|w.trace|] == w.trace[s.from..];
    assert s'.taken + s'.queue == (s.taken + s.queue) + [Live(w.emit.event)];
    RowsOfAppend(s.taken + s.queue, [Live(w.emit.event)]);
    RowsOfOne(Live(w.emit.event));
  }

  lemma DroppingKeepsInterval(w: World, id: StreamId)
    requires WriterOk(w) && RegistryOk(w) && Enabled(w, Offer(id))
    requires !Active(w.streams[id]) || !HasRoom(w.streams[id].queue)
    requires !w.streams[id].phase.Looked? && IntervalOk(w, id, w.streams[id])
    ensures IntervalOk(Next(w, Offer(id)), id, Next(w, Offer(id)).streams[id])
  {
    OfferUpto(w, id);
    hide WriterOk, RegistryOk, Kept, RowsOf, Upto, Frontier, HasRoom;
  }

  /** Queueing and dropping change neither what was delivered nor how a stream ended. */
  lemma OfferingKeepsDelivery(w: World, w': World, id: StreamId, s: Stream, s': Stream)
    requires DeliveryOk(w, s) && EndOk(w, id, s)
    requires s' == s.(queue := s'.queue, cut := s'.cut)
    requires w'.trace == w.trace && w'.lost == w.lost && w'.status == w.status && w'.settled == w.settled
    requires w.closing.Closed? ==> w'.closing.Closed?
    ensures DeliveryOk(w', s') && EndOk(w', id, s')
  {
    hide RowsOf, Kept, Rows, Nums;
  }

  lemma OfferKeepsQueue(w: World, id: StreamId)
    requires WriterOk(w) && Enabled(w, Offer(id)) && QueueOk(w, id, w.streams[id])
    ensures QueueOk(Next(w, Offer(id)), id, Next(w, Offer(id)).streams[id])
  {
    hide Frontier, Increasing, Row, StatusOk;
  }

  lemma OfferKeepsStream(w: World, id: StreamId)
    requires WriterOk(w) && RegistryOk(w) && Enabled(w, Offer(id)) && StreamOk(w, id, w.streams[id])
    ensures StreamOk(Next(w, Offer(id)), id, Next(w, Offer(id)).streams[id])
  {
    var w' := Next(w, Offer(id));
    var s, s' := w.streams[id], w'.streams[id];
    assert !s.phase.Looked? by {
      hide StreamOk, WriterOk, Frontier;
    }
    hide WriterOk, RegistryOk, QueueOk, IntervalOk, DeliveryOk, EndOk, Frontier;
    OfferKeepsQueue(w, id);
    if Active(s) && HasRoom(s.queue) {
      QueueingKeepsInterval(w, id);
    } else {
      DroppingKeepsInterval(w, id);
    }
    OfferingKeepsDelivery(w, w', id, s, s');
  }

  lemma OfferEndKeepsStream(w: World, id: StreamId)
    requires WriterOk(w) && RegistryOk(w) && Enabled(w, OfferEnd(id)) && StreamOk(w, id, w.streams[id])
    ensures StreamOk(Next(w, OfferEnd(id)), id, Next(w, OfferEnd(id)).streams[id])
  {
    var w' := Next(w, OfferEnd(id));
    var s, s' := w.streams[id], w'.streams[id];
    assert IntervalOk(w', id, s') by {
      hide WriterOk, RegistryOk, Kept, RowsOf;
      if HasRoom(s.queue) && Active(s) {
        assert s'.taken + s'.queue == (s.taken + s.queue) + [End];
        RowsOfAppend(s.taken + s.queue, [End]);
        RowsOfOne(End);
      }
    }
    hide IntervalOk, DeliveryOk, EndOk, Frontier, Increasing, Row, StatusOk;
    OfferingKeepsDelivery(w, w', id, s, s');
    assert QueueOk(w', id, s');
  }

  lemma SubscribingOpensInterval(w: World, id: StreamId)
    requires WriterOk(w) && Enabled(w, Subscribe(id)) && StreamOk(w, id, w.streams[id])
    ensures IntervalOk(Next(w, Subscribe(id)), id, Next(w, Subscribe(id)).streams[id])
  {
    var w' := Next(w, Subscribe(id));
    var s' := w'.streams[id];
    assert w.emit.Persisted? ==> w.trace != [];
    assert w'.trace == w.trace && w'.emit == w.emit && Frontier(w, id) <= |w.trace| && Active(s');
    assert w.emit.Persisted? ==> Frontier(w, id) < |w.trace|;
    assert s' == Stream(Subscribed, s'.seen, [], [], 0, [], [], Frontier(w, id), 0);
    assert Upto(w', id, s') == Frontier(w, id) == s'.from;
    hide *;
    NothingPublished(w', id, s');
  }

  lemma NothingPublished(w: World, id: StreamId, s: Stream)
    requires s.taken == [] && s.queue == [] && Active(s)
    requires s.from == Upto(w, id, s) <= |w.trace| && (w.emit.Persisted? ==> s.from < |w.trace|)
    ensures IntervalOk(w, id, s)
  {
    hide Upto, Kept;
    assert w.trace[s.from..s.from] == [] && s.taken + s.queue == [];
    NothingKept(w.lost);
  }

  lemma NothingDelivered(w: World, s: Stream)
    requires s.history == [] && s.taken == [] && s.delivered == [] && s.pos == 0 && s.phase.Subscribed?
    ensures DeliveryOk(w, s)
  {
    NothingKept(Nums(s.history));
    assert Rows([]) == [];
    hide Rows, RowsOf, Kept, Nums;
  }

  lemma SubscribingOpensStream(w: World, id: StreamId)
    requires WriterOk(w) && Enabled(w, Subscribe(id)) && StreamOk(w, id, w.streams[id])
    ensures StreamOk(Next(w, Subscribe(id)), id, Next(w, Subscribe(id)).streams[id])
  {
    hide WriterOk, IntervalOk, DeliveryOk, Frontier, Nums, Rows, RowsOf, Kept, Terminal;
    var w' := Next(w, Subscribe(id));
    var s' := w'.streams[id];
    assert s' == Stream(Subscribed, w.streams[id].seen, [], [], 0, [], [], Frontier(w, id), 0);
    assert w'.status == w.status && w'.closing == w.closing;
    hide Next, Enabled;
    SubscribingOpensInterval(w, id);
    NothingDelivered(w', s');
  }

  lemma ReadingKeepsStream(w: World, id: StreamId)
    requires WriterOk(w) && Enabled(w, ReadHistory(id)) && StreamOk(w, id, w.streams[id])
    ensures StreamOk(Next(w, ReadHistory(id)), id, Next(w, ReadHistory(id)).streams[id])
  {
    hide Increasing, Row, Kept, RowsOf;
    var w' := Next(w, ReadHistory(id));
    var s, s' := w.streams[id], w'.streams[id];
    assert Upto(w', id, s') == Upto(w, id, s);
    assert s' == s.(phase := Streaming, history := w.trace);
    assert Rows(s'.delivered) == [];
    hide WriterOk, Upto, Frontier, Nums, Rows;
    assert RowsOf(s.taken) == [] && Kept([], Nums(w.trace)) == [] by {
      NothingKept(Nums(w.trace));
    }
  }

  lemma OpeningKeepsStream(w: World, step: Step)
    requires WriterOk(w) && Enabled(w, step) && (step.Look? || step.FailHistory?)
    requires step.id in w.streams ==> StreamOk(w, step.id, w.streams[step.id])
    ensures StreamOk(Next(w, step), step.id, Next(w, step).streams[step.id])
  {
    hide Increasing, Row, Frontier, StatusOk;
  }

  lemma ReplayKeepsDelivery(w: World, id: StreamId)
    requires WriterOk(w) && Enabled(w, Replay(id)) && DeliveryOk(w, w.streams[id])
    ensures DeliveryOk(w, Next(w, Replay(id)).streams[id])
  {
    var s, s' := w.streams[id], Next(w, Replay(id)).streams[id];
    var row := s.history[s.pos];
    assert row == w.trace[s.pos];
    assert Rows(s'.delivered) == Rows(s.delivered) + [row];
    assert s.history[..s.pos] + [row] == s.history[..s.pos + 1];
    assert RowsOf(s.taken) == [];
  }

  lemma ReplayKeepsStream(w: World, id: StreamId)
    requires WriterOk(w) && Enabled(w, Replay(id)) && StreamOk(w, id, w.streams[id])
    ensures StreamOk(Next(w, Replay(id)), id, Next(w, Replay(id)).streams[id])
  {
    hide WriterOk, Rows, RowsOf, Kept, Nums;
    ReplayKeepsDelivery(w, id);
  }

  /** The consumed item is accounted for whether it is new or was replayed. */
  lemma ConsumeKeepsDelivery(w: World, s: Stream, x: Item)
    requires DeliveryOk(w, s) && Draining(s) && s.from <= |s.history|
    ensures DeliveryOk(w, Consume(s.(taken := s.taken + [x]), x))
  {
    var s' := Consume(s.(taken := s.taken + [x]), x);
    var nums := Nums(s.history);
    RowsOfAppend(s.taken, [x]);
    KeptAppend(RowsOf(s.taken), RowsOf([x]), nums);
    if x.Live? {
      assert RowsOf([x]) == [Row(x.event)];
      if x.event.num !in nums {
        assert Rows(s'.delivered) == Rows(s.delivered) + [Row(x.event)];
      }
    }
  }

  lemma DequeueLiveKeepsInterval(w: World, id: StreamId)
    requires Enabled(w, Dequeue(id)) && IntervalOk(w, id, w.streams[id]) && w.streams[id].queue[0].Live?
    ensures IntervalOk(Next(w, Dequeue(id)), id, Next(w, Dequeue(id)).streams[id])
  {
    var s, s' := w.streams[id], Next(w, Dequeue(id)).streams[id];
    assert s'.taken + s'.queue == s.taken + s.queue;
    hide RowsOf, Kept, Nums;
  }

  lemma DequeueLiveKeepsStream(w: World, id: StreamId)
    requires WriterOk(w) && RegistryOk(w) && Enabled(w, Dequeue(id)) && StreamOk(w, id, w.streams[id])
    requires w.streams[id].queue[0].Live?
    ensures StreamOk(Next(w, Dequeue(id)), id, Next(w, Dequeue(id)).streams[id])
  {
    hide WriterOk, RegistryOk, IntervalOk, Frontier, Rows, RowsOf, Kept, Nums;
    var w' := Next(w, Dequeue(id));
    var s, s' := w.streams[id], w'.streams[id];
    var x := s.queue[0];
    DequeueLiveKeepsInterval(w, id);
    assert s.from <= |s.history|;
    ConsumeKeepsDelivery(w, s, x);
    assert s' == Consume(s.(taken := s.taken + [x]), x).(queue := s.queue[1..]);
    assert QueueOk(w', id, s');
  }

  /** Taking the sentinel means that every published row of the interval was taken before. */
  lemma DequeueEndKeepsStream(w: World, id: StreamId)
    requires WriterOk(w) && RegistryOk(w) && Enabled(w, Dequeue(id)) && StreamOk(w, id, w.streams[id])
    requires w.streams[id].queue[0].End?
    ensures StreamOk(Next(w, Dequeue(id)), id, Next(w, Dequeue(id)).streams[id])
  {
    hide Increasing, Row, StatusOk, Rows, Nums;
    var w' := Next(w, Dequeue(id));
    var s, s' := w.streams[id], w'.streams[id];
    ConsumeKeepsDelivery(w, s, End);
    assert s.queue == [End] && id in w.registered && w.closing.Closed?;
    assert s'.taken == s.taken + s.queue;
    assert w.trace[s.from..|w.trace|] == w.trace[s.from..];
    assert Frontier(w, id) == |w.trace|;
    hide Rows, RowsOf, Kept, Nums;
    assert DeliveryOk(w', s');
    assert IntervalOk(w', id, s');
  }

  lemma EndingKeepsInterval(w: World, step: Step)
    requires WriterOk(w) && Enabled(w, step) && (step.EndOnStatus? || step.Leave?)
    requires IntervalOk(w, step.id, w.streams[step.id])
    ensures IntervalOk(Next(w, step), step.id, Next(w, step).streams[step.id])
  {
    var s := w.streams[step.id];
    RowsOfAppend(s.taken, s.queue);
    hide Rows, RowsOf, Kept, Nums;
  }

  lemma EndingKeepsStream(w: World, step: Step)
    requires WriterOk(w) && Enabled(w, step) && (step.EndOnStatus? || step.Leave?)
    requires StreamOk(w, step.id, w.streams[step.id])
    ensures StreamOk(Next(w, step), step.id, Next(w, step).streams[step.id])
  {
    hide WriterOk, Rows, RowsOf, Kept, Nums, IntervalOk, Frontier;
    EndingKeepsInterval(w, step);
    var s, s' := w.streams[step.id], Next(w, step).streams[step.id];
    assert s' == s.(phase := s'.phase, cut := s'.cut);
  }

  lemma StreamStepKeepsStream(w: World, step: Step)
    requires WriterOk(w) && RegistryOk(w) && Enabled(w, step) && TouchesOneStream(step)
    requires step.id in w.streams ==> StreamOk(w, step.id, w.streams[step.id])
    ensures step.id in Next(w, step).streams
    ensures StreamOk(Next(w, step), step.id, Next(w, step).streams[step.id])
  {
    StreamStepIsLocal(w, step);
    hide WriterOk, RegistryOk, StreamOk, Next;
    match step
    case Offer(id) => OfferKeepsStream(w, id);
    case OfferEnd(id) => OfferEndKeepsStream(w, id);
    case Replay(id) => ReplayKeepsStream(w, id);
    case Dequeue(id) =>
      if w.streams[id].queue[0].Live? {
        DequeueLiveKeepsStream(w, id);
      } else {
        DequeueEndKeepsStream(w, id);
      }
    case EndOnStatus(_) => EndingKeepsStream(w, step);
    case Leave(_) => EndingKeepsStream(w, step);
    case ReadHistory(id) => ReadingKeepsStream(w, id);
    case Subscribe(id) => SubscribingOpensStream(w, id);
    case _ => OpeningKeepsStream(w, step);
  }

  lemma StreamStepKeepsInv(w: World, step: Step)
    requires Inv(w) && Enabled(w, step) && TouchesOneStream(step)
    ensures Inv(Next(w, step))
  {
    hide WriterOk, RegistryOk, LossOk, StreamOk, Next, Enabled;
    StreamStepIsLocal(w, step);
    StreamStepKeepsRegistry(w, step);
    StreamStepKeepsStream(w, step);
    LocalStepKeepsOthers(w, Next(w, step), step.id);
  }

  lemma StepKeepsInv(w: World, step: Step)
    requires Inv(w) && Enabled(w, step)
    ensures Inv(Next(w, step))
  {
    if TouchesOneStream(step) {
      StreamStepKeepsInv(w, step);
    } else if step.Abandon? {
      AbandonKeepsInv(w);
    } else {
      WriterStepKeepsInv(w, step);
    }
  }

  // ---------------------------------------------------------------------------------------
  // What the events say
  // ---------------------------------------------------------------------------------------

  /** The event is one that was emitted, in full. */
  predicate Said(emitted: seq<Event>, e: Event) {
    1 <= e.num <= |emitted| && e == emitted[e.num - 1]
  }

  /** It is the row of one. */
  predicate SaidInRow(emitted: seq<Event>, row: Event) {
    1 <= row.num <= |emitted| && row == Row(emitted[row.num - 1])
  }

  predicate ItemsSaid(emitted: seq<Event>, items: seq<Item>) {
    forall x :: x in items && x.Live? ==> Said(emitted, x.event)
  }

  predicate RowsSaid(emitted: seq<Event>, rows: seq<Event>) {
    forall row :: row in rows ==> SaidInRow(emitted, row)
  }

  predicate StreamSaid(emitted: seq<Event>, s: Stream) {
    && ItemsSaid(emitted, s.queue) && RowsSaid(emitted, s.history)
    && forall e :: e in s.delivered ==> Said(emitted, e) || SaidInRow(emitted, e)
  }

  ghost predicate SaidOk(w: World) {
    && |w.emitted| == w.counter && (forall k :: 0 <= k < |w.emitted| ==> w.emitted[k].num == k + 1)
    && (!w.emit.Idle? ==> Said(w.emitted, w.emit.event))
    && RowsSaid(w.emitted, w.trace)
    && forall id :: id in w.streams ==> StreamSaid(w.emitted, w.streams[id])
  }

  lemma SaidForever(w: World, more: seq<Event>)
    requires SaidOk(w)
    ensures forall e :: Said(w.emitted, e) ==> Said(w.emitted + more, e)
    ensures forall row :: SaidInRow(w.emitted, row) ==> SaidInRow(w.emitted + more, row)
  {
    hide Row;
  }

  lemma NumberKeepsSaid(w: World, step: Step)
    requires SaidOk(w) && Enabled(w, step) && step.Number?
    ensures SaidOk(Next(w, step))
  {
    var w' := Next(w, step);
    SaidForever(w, [w'.emit.event]);
    hide Row, Said, SaidInRow;
    assert w'.streams == w.streams && w'.trace == w.trace;
    assert Said(w'.emitted, w'.emit.event) by {
      SaidLast(w.emitted, w'.emit.event);
    }
  }

  lemma SaidLast(emitted: seq<Event>, e: Event)
    requires e.num == |emitted| + 1
    ensures Said(emitted + [e], e)
  {}

  lemma WriterKeepsSaid(w: World, step: Step)
    requires SaidOk(w) && Enabled(w, step) && !TouchesOneStream(step) && !step.Number?
    ensures SaidOk(Next(w, step))
  {
    assert step.Persist? ==> SaidInRow(w.emitted, Row(w.emit.event));
    hide Row, Said, SaidInRow;
  }

  /** Where what a stream holds comes from. */
  lemma StreamHolds(w: World, step: Step)
    requires Enabled(w, step) && TouchesOneStream(step)
    ensures step.id in Next(w, step).streams
    ensures
      var s := if step.id in w.streams then w.streams[step.id] else Stream(Looked, w.status, [], [], 0, [], [], 0, 0);
      var s' := Next(w, step).streams[step.id];
      && (forall x :: x in s'.queue && x.Live? ==>
            x in s.queue || (w.emit.Publishing? && x.event == w.emit.event))
      && (s'.history == s.history || s'.history == w.trace)
      && (s'.delivered == s.delivered
          || (step.Replay? && s.pos < |s.history| && s'.delivered == s.delivered + [s.history[s.pos]])
          || (step.Dequeue? && s.queue != [] && s.queue[0].Live?
              && s'.delivered == s.delivered + [s.queue[0].event]))
  {
    hide Row, Frontier, HasRoom, Nums, Terminal, Active;
    if step.Dequeue? {
      DequeueHolds(w, step.id);
      hide Enabled, Next;
    }
  }

  lemma DequeueHolds(w: World, id: StreamId)
    requires Enabled(w, Dequeue(id))
    ensures
      var s, s' := w.streams[id], Next(w, Dequeue(id)).streams[id];
      && s.queue != [] && s'.history == s.history && s'.queue == s.queue[1..]
      && (s'.delivered == s.delivered
          || (s.queue[0].Live? && s'.delivered == s.delivered + [s.queue[0].event]))
  {
    hide Frontier, Nums, Terminal, Active;
  }

  lemma StreamKeepsSaid(w: World, step: Step)
    requires SaidOk(w) && Enabled(w, step) && TouchesOneStream(step)
    ensures StreamSaid(w.emitted, Next(w, step).streams[step.id])
  {
    StreamHolds(w, step);
    hide Enabled, Next, Row, Said, SaidInRow;
    var s := if step.id in w.streams then w.streams[step.id] else Stream(Looked, w.status, [], [], 0, [], [], 0, 0);
    assert StreamSaid(w.emitted, s);
    if step.Replay? && s.pos < |s.history| {
      assert s.history[s.pos] in s.history;
    }
    if step.Dequeue? && s.queue != [] {
      assert s.queue[0] in s.queue;
    }
  }

  lemma LocalStepKeepsSaid(w: World, step: Step)
    requires SaidOk(w) && Enabled(w, step) && TouchesOneStream(step)
    ensures SaidOk(Next(w, step))
  {
    StreamStepIsLocal(w, step);
    StreamKeepsSaid(w, step);
    assert Next(w, step).emitted == w.emitted;
    hide Next, Enabled, StreamSaid, RowsSaid, Said, SaidInRow, TouchesOneStream;
  }

  lemma StepKeepsSaid(w: World, step: Step)
    requires SaidOk(w) && Enabled(w, step)
    ensures SaidOk(Next(w, step))
  {
    hide *;
    if TouchesOneStream(step) {
      LocalStepKeepsSaid(w, step);
    } else if step.Number? {
      NumberKeepsSaid(w, step);
    } else {
      WriterKeepsSaid(w, step);
    }
  }
}
