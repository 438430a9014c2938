/** The life of research runs: permits of the semaphore, cooperative cancellation, the status
    rows, deletion while a run executes, process death and recovery. Every database session
    is one atomic step; tasks, handlers and the operator interleave freely.
 */
module RunLifecycle {
  import opened RunStatus

  type RunId = string

  /** The synthesizer, which no checkpoint follows. The stages before it are planner,
      searcher, analyst, verifier and debate, each followed by one. */
  const LAST_STAGE := 5

  /** The sources and claims a run stores. */
  datatype Outcome = Outcome(sources: nat, claims: nat)

  /** Where a run's task stands. */
  datatype Pc =
    | Waiting
    | Acquired
    | Stage(n: nat)
    | Returned(outcome: Outcome)
    | Cancelling
    | Failing
    | Closing
    | Releasing
    | Done

  predicate Holding(pc: Pc) {
    !pc.Waiting? && !pc.Done?
  }

  type Rows = map<RunId, Status>

  type Stored = map<RunId, Outcome>

  function WithStatus(rows: Rows, id: RunId, s: Status): Rows {
    if id in rows then rows[id := s] else rows
  }

  function WithOutcome(rows: Rows, stored: Stored, id: RunId, outcome: Outcome): Stored {
    if id in rows then stored[id := outcome] else stored
  }

  function Recovered(rows: Rows): Rows {
    map id | id in rows :: if rows[id].Running? then Failed else rows[id]
  }

  /** What the manager, the handlers and startup share: tasks, cancel flags, rows and outcomes. */
  datatype Shared = Shared(tasks: map<RunId, Pc>, flagged: set<RunId>, rows: Rows, stored: Stored)

  function Submitted(s: Shared, id: RunId): Shared {
    s.(tasks := s.tasks[id := Waiting])
  }

  function Flagged(s: Shared, id: RunId): Shared {
    if id in s.tasks then s.(flagged := s.flagged + {id}) else s
  }

  function Deleted(s: Shared, id: RunId): Shared {
    if id in s.rows then Flagged(s, id).(rows := s.rows - {id}, stored := s.stored - {id}) else s
  }

  function StatusSet(s: Shared, id: RunId, status: Status): Shared {
    s.(rows := WithStatus(s.rows, id, status))
  }

  function Persisted(s: Shared, id: RunId, outcome: Outcome): Shared {
    s.(rows := WithStatus(s.rows, id, Completed), stored := WithOutcome(s.rows, s.stored, id, outcome))
  }

  /** The transactions of `RunManager` and of startup, on the fields they touch. */
  class RunManager {
    var tasks: map<RunId, Pc>
    var cancelled: set<RunId>
    var rows: Rows
    var stored: Stored

    ghost function View(): Shared
      reads this
    {
      Shared(tasks, cancelled, rows, stored)
    }

    constructor (rows: Rows, stored: Stored)
      ensures View() == Shared(map[], {}, rows, stored)
    {
      tasks, cancelled := map[], {};
      this.rows, this.stored := rows, stored;
    }

    method Submit(id: RunId)
      modifies this
      ensures View() == Submitted(old(View()), id)
      ensures tasks == old(tasks)[id := Waiting] && cancelled == old(cancelled)
      ensures rows == old(rows) && stored == old(stored)
    {
      tasks := tasks[id := Waiting];
    }

    method Cancel(id: RunId) returns (ok: bool)
      modifies this
      ensures ok <==> id in old(tasks)
      ensures View() == Flagged(old(View()), id)
      ensures cancelled == if ok then old(cancelled) + {id} else old(cancelled)
      ensures tasks == old(tasks) && rows == old(rows) && stored == old(stored)
    {
      if id !in tasks {
        return false;
      }
      cancelled := cancelled + {id};
      return true;
    }

    /** The handler refuses what is not active; `found` is its 404 and `ok` its 409. */
    method CancelRun(id: RunId) returns (found: bool, ok: bool)
      modifies this
      ensures found <==> id in old(rows)
      ensures ok <==> found && (old(rows)[id].Queued? || old(rows)[id].Running?)
      ensures cancelled == if ok && id in tasks then old(cancelled) + {id} else old(cancelled)
      ensures View() == if ok then Flagged(old(View()), id) else old(View())
    {
      found, ok := id in rows, false;
      if found && (rows[id].Queued? || rows[id].Running?) {
        ok := true;
        var _ := Cancel(id);
      }
    }

    method DeleteRun(id: RunId) returns (found: bool)
      modifies this
      ensures found <==> id in old(rows)
      ensures View() == Deleted(old(View()), id)
      ensures rows == old(rows) - {id} && stored == if found then old(stored) - {id} else old(stored)
      ensures cancelled == if found && id in tasks then old(cancelled) + {id} else old(cancelled)
    {
      found := id in rows;
      if found {
        var _ := Cancel(id);
        rows := rows - {id};
        stored := stored - {id};
      }
    }

    method SetStatus(id: RunId, status: Status)
      modifies this
      ensures View() == StatusSet(old(View()), id, status)
      ensures rows == if id in old(rows) then old(rows)[id := status] else old(rows)
    {
      if id !in rows {
        return;
      }
      rows := rows[id := status];
    }

    method Persist(id: RunId, outcome: Outcome)
      modifies this
      ensures View() == Persisted(old(View()), id, outcome)
      ensures id in old(rows) ==> rows == old(rows)[id := Completed] && stored == old(stored)[id := outcome]
      ensures id !in old(rows) ==> rows == old(rows) && stored == old(stored)
    {
      if id !in rows {
        return;
      }
      stored := stored[id := outcome];
      rows := rows[id := Completed];
    }

    method RecoverOrphanedRuns()
      modifies `rows
      ensures rows == Recovered(old(rows))
      ensures rows.Keys == old(rows).Keys
      ensures forall id :: id in rows ==> rows[id] == if old(rows)[id].Running? then Failed else old(rows)[id]
    {
      var orphans := set id | id in rows && rows[id].Running?;
      while orphans != {}
        invariant rows.Keys == old(rows).Keys
        invariant forall id :: id in rows ==>
          rows[id] == if old(rows)[id].Running? && id !in orphans then Failed else old(rows)[id]
        invariant forall id :: id in orphans ==> id in rows && old(rows)[id].Running?
      {
        var id :| id in orphans;
        orphans := orphans - {id};
        rows := rows[id := Failed];
      }
    }
  }

  // ---------------------------------------------------------------------------------------
  // Interleavings
  // ---------------------------------------------------------------------------------------

  /** `accepted`: created and about to be submitted. History variables: `used`, all ids ever
      created; `doomed`, the runs for which a cancel returned true before the last checkpoint;
      `stuck`, those whose final status could not be written. */
  datatype Server = Server(
    up: bool, max: nat, free: nat, tasks: map<RunId, Pc>, flagged: set<RunId>,
    rows: Rows, stored: Stored, accepted: set<RunId>,
    used: set<RunId>, doomed: set<RunId>, stuck: set<RunId>)

  function Boot(max: nat): Server {
    Server(true, max, max, map[], {}, map[], map[], {}, {}, {}, {})
  }

  datatype Step =
    | Create(id: RunId)
    | Submit(id: RunId)
    | Acquire(id: RunId)
    | SetRunning(id: RunId)
    | StageDone(id: RunId, outcome: Outcome)
    | Raise(id: RunId)
    | Persist(id: RunId)
    | WriteFinal(id: RunId, written: bool)
    | Discard(id: RunId)
    | Release(id: RunId)
    | Reap(id: RunId)
    | Cancel(id: RunId)
    | Delete(id: RunId)
    | FlagAll
    | Crash
    | Recover

  predicate At(w: Server, id: RunId, pc: Pc) {
    id in w.tasks && w.tasks[id] == pc
  }

  /** The task still has a checkpoint ahead of it. */
  predicate BeforeLastCheckpoint(pc: Pc) {
    pc.Waiting? || pc.Acquired? || (pc.Stage? && pc.n < LAST_STAGE)
  }

  predicate Enabled(w: Server, step: Step) {
    if step.Recover? then !w.up
    else if step.Crash? || step.FlagAll? then w.up
    else w.up && match step
      case Create(id) => id !in w.used
      case Submit(id) => id in w.accepted
      case Acquire(id) => At(w, id, Waiting) && w.free > 0
      case SetRunning(id) => At(w, id, Acquired)
      case StageDone(id, _) => id in w.tasks && w.tasks[id].Stage?
      case Raise(id) => id in w.tasks &&
        (w.tasks[id].Acquired? || w.tasks[id].Stage? || w.tasks[id].Returned?)
      case Persist(id) => id in w.tasks && w.tasks[id].Returned?
      case WriteFinal(id, _) => id in w.tasks && (w.tasks[id].Cancelling? || w.tasks[id].Failing?)
      case Discard(id) => At(w, id, Closing)
      case Release(id) => At(w, id, Releasing)
      case Reap(id) => At(w, id, Done)
      case Cancel(_) => true
      case Delete(id) => id in w.rows
      case _ => true
  }

  function Flag(w: Server, id: RunId): Server {
    if id !in w.tasks then w
    else w.(flagged := w.flagged + {id},
            doomed := if BeforeLastCheckpoint(w.tasks[id]) then w.doomed + {id} else w.doomed)
  }

  function Next(w: Server, step: Step): Server
    requires Enabled(w, step)
  {
    match step
    case Create(id) =>
      w.(rows := w.rows[id := Queued], used := w.used + {id}, accepted := w.accepted + {id})
    case Submit(id) => w.(tasks := w.tasks[id := Waiting], accepted := w.accepted - {id})
    case Acquire(id) => w.(tasks := w.tasks[id := Acquired], free := w.free - 1)
    case SetRunning(id) => w.(tasks := w.tasks[id := Stage(0)], rows := WithStatus(w.rows, id, Running))
    case StageDone(id, outcome) =>
      var n := w.tasks[id].n;
      w.(tasks := w.tasks[id := if n >= LAST_STAGE then Returned(outcome)
                                else if id in w.flagged then Cancelling
                                else Stage(n + 1)])
    case Raise(id) => w.(tasks := w.tasks[id := Failing])
    case Persist(id) =>
      w.(tasks := w.tasks[id := Closing], rows := WithStatus(w.rows, id, Completed),
         stored := WithOutcome(w.rows, w.stored, id, w.tasks[id].outcome))
    case WriteFinal(id, written) =>
      var status := if w.tasks[id].Cancelling? then Cancelled else Failed;
      var closing := w.(tasks := w.tasks[id := Closing]);
      if written then closing.(rows := WithStatus(w.rows, id, status))
      else closing.(stuck := w.stuck + {id})
    case Discard(id) => w.(tasks := w.tasks[id := Releasing], flagged := w.flagged - {id})
    case Release(id) => w.(tasks := w.tasks[id := Done], free := w.free + 1)
    case Reap(id) => w.(tasks := w.tasks - {id})
    case Cancel(id) => Flag(w, id)
    case Delete(id) => Flag(w, id).(rows := w.rows - {id}, stored := w.stored - {id})
    case FlagAll =>
      w.(flagged := w.flagged + w.tasks.Keys,
         doomed := w.doomed + set id | id in w.tasks && BeforeLastCheckpoint(w.tasks[id]))
    case Crash => w.(up := false, free := w.max, tasks := map[], flagged := {}, accepted := {})
    case Recover => w.(up := true, rows := Recovered(w.rows), stuck := {})
  }

  /** The part of the state that the manager's methods work on. */
  function SharedOf(w: Server): Shared {
    Shared(w.tasks, w.flagged, w.rows, w.stored)
  }

  /** How a step moves the task of its run, when it does; the rest is the method's effect. */
  function MovedTo(s: Shared, id: RunId, pc: Pc): Shared {
    s.(tasks := s.tasks[id := pc])
  }

  /** The steps are the methods: what a step does to the shared state is what the method does that
      the code calls there, and where the task stands then. */
  lemma StepsAreMethods(w: Server, step: Step)
    requires Enabled(w, step)
    ensures
      var s, s' := SharedOf(w), SharedOf(Next(w, step));
      match step
      case Submit(id) => s' == Submitted(s, id)
      case Cancel(id) => s' == Flagged(s, id)
      case Delete(id) => s' == Deleted(s, id)
      case SetRunning(id) => s' == MovedTo(StatusSet(s, id, Running), id, Stage(0))
      case Persist(id) => s' == MovedTo(Persisted(s, id, w.tasks[id].outcome), id, Closing)
      case WriteFinal(id, written) =>
        var status := if w.tasks[id].Cancelling? then Cancelled else Failed;
        s' == MovedTo(if written then StatusSet(s, id, status) else s, id, Closing)
      case Recover => s' == s.(rows := Recovered(s.rows))
      case _ => true
  {}

  // ---------------------------------------------------------------------------------------
  // The invariant
  // ---------------------------------------------------------------------------------------

  function HoldersOf(tasks: map<RunId, Pc>): set<RunId> {
    set id | id in tasks && Holding(tasks[id])
  }

  function Holders(w: Server): set<RunId> {
    HoldersOf(w.tasks)
  }

  /** What the row of a run can be while its task stands at `pc`. */
  ghost predicate RowFits(pc: Pc, s: Status, stuck: bool) {
    match pc
    case Waiting => s.Queued?
    case Acquired => s.Queued?
    case Stage(n) => s.Running? && n <= LAST_STAGE
    case Returned(_) => s.Running?
    case Cancelling => s.Running?
    case Failing => s.Queued? || s.Running?
    case _ => Terminal(s) || stuck
  }

  ghost predicate TasksOk(w: Server) {
    && w.tasks.Keys <= w.used && w.rows.Keys <= w.used && w.accepted <= w.used
    && w.accepted !! w.tasks.Keys
    && (!w.up ==> w.tasks == map[])
    && (forall id :: id in w.accepted && id in w.rows ==> w.rows[id].Queued?)
    && (forall id :: id in w.tasks && id in w.rows ==> RowFits(w.tasks[id], w.rows[id], id in w.stuck))
  }

  ghost predicate RunningOk(w: Server) {
    forall id :: w.up && id in w.rows && w.rows[id].Running? ==> id in Holders(w) || id in w.stuck
  }

  ghost predicate StoredOk(w: Server) {
    forall id :: id in w.stored <==> id in w.rows && w.rows[id].Completed?
  }

  ghost predicate DoomedOk(w: Server) {
    forall id :: id in w.doomed ==>
      && id in w.used && id !in w.accepted
      && (id in w.rows ==> !w.rows[id].Completed?)
      && (id in w.tasks ==>
            && !w.tasks[id].Returned?
            && (w.tasks[id].Stage? ==> w.tasks[id].n < LAST_STAGE)
            && (BeforeLastCheckpoint(w.tasks[id]) ==> id in w.flagged))
  }

  ghost predicate Inv(w: Server) {
    && w.free + |Holders(w)| == w.max
    && TasksOk(w) && RunningOk(w) && StoredOk(w) && DoomedOk(w)
  }

  lemma HoldersOfUpdate(tasks: map<RunId, Pc>, id: RunId, pc: Pc)
    ensures HoldersOf(tasks[id := pc]) == if Holding(pc) then HoldersOf(tasks) + {id} else HoldersOf(tasks) - {id}
  {}

  /** Steps that move one run's task. */
  predicate MovesTask(step: Step) {
    step.Submit? || step.Acquire? || step.SetRunning? || step.StageDone? || step.Raise? || step.Persist?
    || step.WriteFinal? || step.Discard? || step.Release?
  }

  lemma MovedTask(w: Server, step: Step)
    requires Enabled(w, step) && MovesTask(step)
    ensures step.id in Next(w, step).tasks
    ensures Next(w, step).tasks == w.tasks[step.id := Next(w, step).tasks[step.id]]
    ensures Next(w, step).max == w.max
  {}

  /** Only acquiring and releasing change who holds a permit. */
  lemma PermitsOfMove(w: Server, step: Step)
    requires TasksOk(w) && Enabled(w, step) && MovesTask(step)
    ensures step.id in Next(w, step).tasks
    ensures (step.id in Holders(w)) == (!step.Submit? && !step.Acquire?)
    ensures Holding(Next(w, step).tasks[step.id]) == (!step.Submit? && !step.Release?)
    ensures Next(w, step).free == w.free - (if step.Acquire? then 1 else 0) + (if step.Release? then 1 else 0)
  {}

  lemma OtherStepKeepsPermits(w: Server, step: Step)
    requires w.free + |Holders(w)| == w.max && Enabled(w, step) && !MovesTask(step)
    ensures Next(w, step).free + |Holders(Next(w, step))| == w.max
  {
    var w' := Next(w, step);
    if step.Reap? {
      assert HoldersOf(w'.tasks) == HoldersOf(w.tasks);
    } else if step.Crash? {
      assert HoldersOf(w'.tasks) == {};
    } else {
      assert w'.tasks == w.tasks && w'.free == w.free;
    }
  }

  lemma StepKeepsPermits(w: Server, step: Step)
    requires Inv(w) && Enabled(w, step)
    ensures Next(w, step).free + |Holders(Next(w, step))| == w.max
  {
    hide TasksOk, RunningOk, StoredOk, DoomedOk, HoldersOf, Next, Enabled;
    if MovesTask(step) {
      MovedTask(w, step);
      PermitsOfMove(w, step);
      HoldersOfUpdate(w.tasks, step.id, Next(w, step).tasks[step.id]);
    } else {
      OtherStepKeepsPermits(w, step);
    }
  }

  /** What a step that moves one run's task leaves alone. */
  lemma MoveFrame(w: Server, step: Step)
    requires Enabled(w, step) && MovesTask(step)
    ensures
      var w' := Next(w, step);
      && w'.used == w.used && w'.doomed == w.doomed && w'.up == w.up && w'.rows.Keys == w.rows.Keys
      && w'.accepted == w.accepted - (if step.Submit? then {step.id} else {})
      && (forall id :: id in w.rows && id != step.id ==> w'.rows[id] == w.rows[id])
      && (forall id :: id != step.id ==>
            && (id in w'.stuck <==> id in w.stuck) && (id in w'.flagged <==> id in w.flagged)
            && (id in w'.stored <==> id in w.stored))
  {}

  lemma MovedTaskFits(w: Server, step: Step)
    requires TasksOk(w) && Enabled(w, step) && MovesTask(step)
    ensures
      var w' := Next(w, step);
      && step.id in w.used && step.id !in w'.accepted && w.up
      && step.id in w'.tasks
      && (step.id in w'.rows ==> RowFits(w'.tasks[step.id], w'.rows[step.id], step.id in w'.stuck))
  {}

  lemma MoveKeepsTasks(w: Server, step: Step)
    requires TasksOk(w) && Enabled(w, step) && MovesTask(step)
    ensures TasksOk(Next(w, step))
  {
    hide Next, Enabled, RowFits;
    MovedTask(w, step);
    MoveFrame(w, step);
    MovedTaskFits(w, step);
  }

  lemma OtherStepKeepsTasks(w: Server, step: Step)
    requires TasksOk(w) && Enabled(w, step) && !MovesTask(step)
    ensures TasksOk(Next(w, step))
  {}

  lemma StepKeepsTasks(w: Server, step: Step)
    requires Inv(w) && Enabled(w, step)
    ensures TasksOk(Next(w, step))
  {
    hide TasksOk, Next, Enabled;
    if MovesTask(step) {
      MoveKeepsTasks(w, step);
    } else {
      OtherStepKeepsTasks(w, step);
    }
  }

  lemma MoveKeepsRunning(w: Server, step: Step)
    requires TasksOk(w) && RunningOk(w) && Enabled(w, step) && MovesTask(step)
    ensures RunningOk(Next(w, step))
  {
    MovedTaskFits(w, step);
    var w' := Next(w, step);
    assert step.id in w'.rows && w'.rows[step.id].Running? ==> step.id in Holders(w') || step.id in w'.stuck;
    MovedTask(w, step);
    MoveFrame(w, step);
    hide Next, Enabled, RowFits, TasksOk;
  }

  lemma OtherStepKeepsRunning(w: Server, step: Step)
    requires TasksOk(w) && RunningOk(w) && Enabled(w, step) && !MovesTask(step)
    ensures RunningOk(Next(w, step))
  {}

  lemma StepKeepsRunning(w: Server, step: Step)
    requires Inv(w) && Enabled(w, step)
    ensures RunningOk(Next(w, step))
  {
    hide TasksOk, RunningOk, Next, Enabled;
    if MovesTask(step) {
      MoveKeepsRunning(w, step);
    } else {
      OtherStepKeepsRunning(w, step);
    }
  }

  lemma StepKeepsStored(w: Server, step: Step)
    requires Inv(w) && Enabled(w, step)
    ensures StoredOk(Next(w, step))
  {}

  lemma MovedTaskStaysDoomed(w: Server, step: Step)
    requires TasksOk(w) && DoomedOk(w) && Enabled(w, step) && MovesTask(step) && step.id in w.doomed
    ensures
      var w' := Next(w, step);
      && (step.id in w'.rows ==> !w'.rows[step.id].Completed?)
      && step.id in w'.tasks
      && !w'.tasks[step.id].Returned?
      && (w'.tasks[step.id].Stage? ==> w'.tasks[step.id].n < LAST_STAGE)
      && (BeforeLastCheckpoint(w'.tasks[step.id]) ==> step.id in w'.flagged)
  {}

  lemma MoveKeepsDoomed(w: Server, step: Step)
    requires TasksOk(w) && DoomedOk(w) && Enabled(w, step) && MovesTask(step)
    ensures DoomedOk(Next(w, step))
  {
    hide Next, Enabled, BeforeLastCheckpoint, TasksOk;
    MovedTask(w, step);
    MoveFrame(w, step);
    if step.id in w.doomed {
      MovedTaskStaysDoomed(w, step);
    }
  }

  lemma OtherStepKeepsDoomed(w: Server, step: Step)
    requires TasksOk(w) && DoomedOk(w) && Enabled(w, step) && !MovesTask(step)
    ensures DoomedOk(Next(w, step))
  {}

  lemma StepKeepsDoomed(w: Server, step: Step)
    requires Inv(w) && Enabled(w, step)
    ensures DoomedOk(Next(w, step))
  {
    hide TasksOk, DoomedOk, Next, Enabled;
    if MovesTask(step) {
      MoveKeepsDoomed(w, step);
    } else {
      OtherStepKeepsDoomed(w, step);
    }
  }

  lemma StepKeepsInv(w: Server, step: Step)
    requires Inv(w) && Enabled(w, step)
    ensures Inv(Next(w, step))
  {
    StepKeepsPermits(w, step);
    StepKeepsTasks(w, step);
    StepKeepsRunning(w, step);
    StepKeepsStored(w, step);
    StepKeepsDoomed(w, step);
  }
}
