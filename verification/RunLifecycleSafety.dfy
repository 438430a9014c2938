/** What every run of the server guarantees: permits, statuses, deletion, cancellation, recovery. */
module RunLifecycleSafety {
  import opened RunStatus
  import opened RunLifecycle

  predicate Run(w: Server, steps: seq<Step>)
    decreases steps
  {
    steps == [] || (Enabled(w, steps[0]) && Run(Next(w, steps[0]), steps[1..]))
  }

  function After(w: Server, steps: seq<Step>): Server
    requires Run(w, steps)
    decreases steps
  {
    if steps == [] then w else After(Next(w, steps[0]), steps[1..])
  }

  ghost predicate Reachable(w: Server) {
    exists max, steps :: Run(Boot(max), steps) && w == After(Boot(max), steps)
  }

  lemma {:induction false} RunKeepsInv(w: Server, steps: seq<Step>)
    requires Inv(w) && Run(w, steps)
    ensures Inv(After(w, steps))
    decreases steps
  {
    if steps != [] {
      StepKeepsInv(w, steps[0]);
      hide Inv;
      RunKeepsInv(Next(w, steps[0]), steps[1..]);
    }
  }

  lemma ReachableInv(w: Server)
    requires Reachable(w)
    ensures Inv(w)
  {
    var max, steps :| Run(Boot(max), steps) && w == After(Boot(max), steps);
    assert Holders(Boot(max)) == {};
    RunKeepsInv(Boot(max), steps);
  }

  // ---------------------------------------------------------------------------------------
  // Permits
  // ---------------------------------------------------------------------------------------

  function RunningRows(w: Server): set<RunId> {
    set id | id in w.rows && w.rows[id].Running?
  }

  /** Free permits and holders always add up, and in a live process every running row whose
      final write did not fail belongs to a holder of its own: no more than the maximum run. */
  lemma RunningRowsHoldPermits(w: Server)
    requires Reachable(w)
    ensures w.free + |Holders(w)| == w.max
    ensures w.up ==> RunningRows(w) - w.stuck <= Holders(w) && |RunningRows(w) - w.stuck| <= w.max
  {
    ReachableInv(w);
    if w.up {
      var running := RunningRows(w) - w.stuck;
      assert running <= Holders(w);
      SubsetSize(running, Holders(w));
    }
  }

  /** A row that is running while no task of its run holds a permit. */
  predicate Stranded(w: Server, id: RunId) {
    w.up && id in w.rows && w.rows[id].Running? && id !in Holders(w)
  }

  /** A running row of a live process is stranded exactly when its final write has failed and
      its task is through: nothing else strands a row. */
  lemma StrandedIff(w: Server, id: RunId)
    requires Reachable(w) && w.up && id in w.rows && w.rows[id].Running?
    ensures Stranded(w, id) <==> id in w.stuck && (id in w.tasks ==> w.tasks[id].Done?)
  {
    ReachableInv(w);
  }

  /** The steps that end it. */
  predicate Frees(step: Step, id: RunId) {
    step == Delete(id) || step.Crash?
  }

  lemma StrandedAcrossStep(w: Server, step: Step, id: RunId)
    requires Inv(w) && Enabled(w, step) && Stranded(w, id)
    ensures Stranded(Next(w, step), id) <==> !Frees(step, id)
  {
    hide RunningOk, StoredOk, DoomedOk;
    assert id in w.tasks ==> w.tasks[id].Done?;
  }

  predicate NeverFreed(steps: seq<Step>, id: RunId) {
    forall step :: step in steps ==> !Frees(step, id)
  }

  /** It stays stranded, with the row still saying that it runs, in every continuation without a
      deletion of the run or an end of the process. */
  lemma {:induction false} StrandedUntilFreed(w: Server, steps: seq<Step>, id: RunId)
    requires Inv(w) && Run(w, steps) && Stranded(w, id) && NeverFreed(steps, id)
    ensures Stranded(After(w, steps), id)
    decreases steps
  {
    hide Inv, Enabled, Next, Stranded, Frees;
    if steps != [] {
      assert steps[0] in steps;
      StepKeepsInv(w, steps[0]);
      StrandedAcrossStep(w, steps[0], id);
      StrandedUntilFreed(Next(w, steps[0]), steps[1..], id);
    }
  }

  /** The next restart fails it. */
  lemma RestartFreesStranded(w: Server, id: RunId)
    requires Inv(w) && Stranded(w, id)
    ensures Run(w, [Crash, Recover])
    ensures var w' := After(w, [Crash, Recover]);
            id in w'.rows && w'.rows[id].Failed? && w'.free == w'.max
  {
    var down := Next(w, Crash);
    assert [Crash, Recover][1..] == [Recover];
    assert Run(down, [Recover]) && After(down, [Recover]) == Next(down, Recover);
  }

  /** A run whose stage raises and whose failure cannot be written. */
  function StrandingRun(id: RunId): seq<Step> {
    [Create(id), Submit(id), Acquire(id), SetRunning(id), Raise(id), WriteFinal(id, false), Discard(id),
     Release(id), Reap(id)]
  }

  lemma RunFirst(w: Server, step: Step, rest: seq<Step>)
    requires Enabled(w, step) && Run(Next(w, step), rest)
    ensures Run(w, [step] + rest) && After(w, [step] + rest) == After(Next(w, step), rest)
  {
    assert ([step] + rest)[1..] == rest;
  }

  /** The server with this one run. */
  function OnlyRun(id: RunId, max: nat, free: nat, pc: Pc, status: Status, stuck: set<RunId>): Server {
    Server(true, max, free, map[id := pc], {}, map[id := status], map[], {}, {id}, {}, stuck)
  }

  lemma TaskIsSubmitted(id: RunId, max: nat)
    ensures var created := Next(Boot(max), Create(id));
            Enabled(Boot(max), Create(id)) && Enabled(created, Submit(id))
            && Next(created, Submit(id)) == OnlyRun(id, max, max, Waiting, Queued, {})
  {}

  lemma PermitIsAcquired(id: RunId, max: nat)
    requires max > 0
    ensures var waiting := OnlyRun(id, max, max, Waiting, Queued, {});
            Enabled(waiting, Acquire(id))
            && Next(waiting, Acquire(id)) == OnlyRun(id, max, max - 1, Acquired, Queued, {})
    ensures var acquired := OnlyRun(id, max, max - 1, Acquired, Queued, {});
            Enabled(acquired, SetRunning(id))
            && Next(acquired, SetRunning(id)) == OnlyRun(id, max, max - 1, Stage(0), Running, {})
  {}

  lemma StrandingStarts(id: RunId, max: nat)
    requires max > 0
    ensures var steps := [Create(id), Submit(id), Acquire(id), SetRunning(id)];
            Run(Boot(max), steps) && After(Boot(max), steps) == OnlyRun(id, max, max - 1, Stage(0), Running, {})
  {
    var created := Next(Boot(max), Create(id));
    var waiting := OnlyRun(id, max, max, Waiting, Queued, {});
    var acquired := OnlyRun(id, max, max - 1, Acquired, Queued, {});
    var running := OnlyRun(id, max, max - 1, Stage(0), Running, {});
    TaskIsSubmitted(id, max);
    PermitIsAcquired(id, max);
    hide Enabled, Next, OnlyRun;
    RunFirst(acquired, SetRunning(id), []);
    RunFirst(waiting, Acquire(id), [SetRunning(id)]);
    RunFirst(created, Submit(id), [Acquire(id), SetRunning(id)]);
    RunFirst(Boot(max), Create(id), [Submit(id), Acquire(id), SetRunning(id)]);
    hide Run, After;
    var rest := [Submit(id), Acquire(id), SetRunning(id)];
    assert [Create(id)] + rest == [Create(id), Submit(id), Acquire(id), SetRunning(id)];
    assert [Acquire(id)] + [SetRunning(id)] == [Acquire(id), SetRunning(id)];
    assert [Submit(id)] + [Acquire(id), SetRunning(id)] == rest;
  }

  lemma FailureIsNotWritten(id: RunId, max: nat)
    requires max > 0
    ensures var running := OnlyRun(id, max, max - 1, Stage(0), Running, {});
            Enabled(running, Raise(id))
            && Next(running, Raise(id)) == OnlyRun(id, max, max - 1, Failing, Running, {})
    ensures var failing := OnlyRun(id, max, max - 1, Failing, Running, {});
            Enabled(failing, WriteFinal(id, false))
            && Next(failing, WriteFinal(id, false)) == OnlyRun(id, max, max - 1, Closing, Running, {id})
  {}

  lemma PermitIsReleased(id: RunId, max: nat)
    requires max > 0
    ensures var closing := OnlyRun(id, max, max - 1, Closing, Running, {id});
            Enabled(closing, Discard(id))
            && Next(closing, Discard(id)) == OnlyRun(id, max, max - 1, Releasing, Running, {id})
    ensures var releasing := OnlyRun(id, max, max - 1, Releasing, Running, {id});
            Enabled(releasing, Release(id))
            && Next(releasing, Release(id)) == OnlyRun(id, max, max, Done, Running, {id})
  {}

  lemma StrandingEnds(id: RunId, max: nat)
    requires max > 0
    ensures var steps := [Raise(id), WriteFinal(id, false), Discard(id), Release(id)];
            Run(OnlyRun(id, max, max - 1, Stage(0), Running, {}), steps)
            && After(OnlyRun(id, max, max - 1, Stage(0), Running, {}), steps)
               == OnlyRun(id, max, max, Done, Running, {id})
  {
    var running := OnlyRun(id, max, max - 1, Stage(0), Running, {});
    var failing := OnlyRun(id, max, max - 1, Failing, Running, {});
    var closing := OnlyRun(id, max, max - 1, Closing, Running, {id});
    var releasing := OnlyRun(id, max, max - 1, Releasing, Running, {id});
    var done := OnlyRun(id, max, max, Done, Running, {id});
    FailureIsNotWritten(id, max);
    PermitIsReleased(id, max);
    hide Enabled, Next, OnlyRun;
    RunFirst(releasing, Release(id), []);
    RunFirst(closing, Discard(id), [Release(id)]);
    RunFirst(failing, WriteFinal(id, false), [Discard(id), Release(id)]);
    RunFirst(running, Raise(id), [WriteFinal(id, false), Discard(id), Release(id)]);
    hide Run, After;
    var rest := [WriteFinal(id, false), Discard(id), Release(id)];
    assert [Raise(id)] + rest == [Raise(id), WriteFinal(id, false), Discard(id), Release(id)];
    assert [Discard(id)] + [Release(id)] == [Discard(id), Release(id)];
    assert [WriteFinal(id, false)] + [Discard(id), Release(id)] == rest;
  }

  lemma {:induction false} RunAppend(w: Server, a: seq<Step>, b: seq<Step>)
    requires Run(w, a) && Run(After(w, a), b)
    ensures Run(w, a + b) && After(w, a + b) == After(After(w, a), b)
    decreases a
  {
    if a == [] {
      assert a + b == b;
    } else {
      RunAppend(Next(w, a[0]), a[1..], b);
      assert (a + b)[1..] == a[1..] + b;
    }
  }

  /** It does happen: a run strands although every permit is free. */
  lemma StrandingHappens(id: RunId, max: nat)
    requires max > 0
    ensures Run(Boot(max), StrandingRun(id))
    ensures Reachable(After(Boot(max), StrandingRun(id))) && Stranded(After(Boot(max), StrandingRun(id)), id)
    ensures After(Boot(max), StrandingRun(id)).free == max
  {
    var starts := [Create(id), Submit(id), Acquire(id), SetRunning(id)];
    var ends := [Raise(id), WriteFinal(id, false), Discard(id), Release(id)];
    StrandingStarts(id, max);
    StrandingEnds(id, max);
    RunAppend(Boot(max), starts, ends);
    var done := OnlyRun(id, max, max, Done, Running, {id});
    var w := Next(done, Reap(id));
    assert Enabled(done, Reap(id)) && w.up && w.free == max && w.tasks == map[] && w.rows == map[id := Running];
    assert Stranded(w, id);
    hide Enabled, Next, OnlyRun, Stranded;
    RunFirst(done, Reap(id), []);
    assert [Reap(id)] + [] == [Reap(id)] && After(w, []) == w;
    RunAppend(Boot(max), starts + ends, [Reap(id)]);
    assert StrandingRun(id) == starts + ends + [Reap(id)];
  }

  lemma {:induction false} SubsetSize(a: set<RunId>, b: set<RunId>)
    requires a <= b
    ensures |a| <= |b|
  {
    if a != {} {
      var x :| x in a;
      SubsetSize(a - {x}, b - {x});
    }
  }

  // ---------------------------------------------------------------------------------------
  // Statuses only advance
  // ---------------------------------------------------------------------------------------

  function Rank(s: Status): nat {
    match s
    case Queued => 0
    case Running => 1
    case _ => 2
  }

  /** A row of an id already used only moves forward, never leaves a terminal status, and once
      absent stays absent, with nothing stored for it. */
  ghost predicate Advances(w: Server, w': Server) {
    && w.used <= w'.used
    && (forall id :: id in w.rows && id in w'.rows ==>
          && Rank(w.rows[id]) <= Rank(w'.rows[id])
          && (Terminal(w.rows[id]) ==> w'.rows[id] == w.rows[id]))
    && (forall id :: id in w.stored && id in w'.stored ==> w'.stored[id] == w.stored[id])
    && (forall id :: id in w.used && id !in w.rows ==> id !in w'.rows && id !in w'.stored)
  }

  lemma MovedRowAdvances(w: Server, step: Step)
    requires TasksOk(w) && Enabled(w, step) && MovesTask(step) && step.id in w.rows
    ensures
      var w' := Next(w, step);
      step.id in w'.rows && Rank(w.rows[step.id]) <= Rank(w'.rows[step.id])
      && (Terminal(w.rows[step.id]) ==> w'.rows[step.id] == w.rows[step.id])
  {}

  lemma OutcomesStay(w: Server, step: Step)
    requires Inv(w) && Enabled(w, step)
    ensures forall id :: id in w.stored && id in Next(w, step).stored ==> Next(w, step).stored[id] == w.stored[id]
    ensures forall id :: id in w.stored && id !in Next(w, step).stored ==> id !in Next(w, step).rows
    ensures forall id :: id in w.stored ==> id in w.used
  {
    hide RunningOk, DoomedOk;
  }

  lemma NothingStoredForMissing(w: Server, step: Step)
    requires Inv(w) && Enabled(w, step)
    ensures forall id :: id in w.used && id !in w.rows ==> id !in Next(w, step).rows && id !in Next(w, step).stored
  {
    hide TasksOk, RunningOk, DoomedOk;
  }

  lemma OtherStepAdvances(w: Server, step: Step)
    requires TasksOk(w) && Enabled(w, step) && !MovesTask(step)
    ensures
      var w' := Next(w, step);
      w.used <= w'.used
      && forall id :: id in w.rows && id in w'.rows ==>
        Rank(w.rows[id]) <= Rank(w'.rows[id]) && (Terminal(w.rows[id]) ==> w'.rows[id] == w.rows[id])
  {}

  lemma StepAdvances(w: Server, step: Step)
    requires Inv(w) && Enabled(w, step)
    ensures Advances(w, Next(w, step))
  {
    hide TasksOk, RunningOk, StoredOk, DoomedOk, Next, Enabled, Rank, Terminal;
    NothingStoredForMissing(w, step);
    OutcomesStay(w, step);
    if MovesTask(step) {
      MoveFrame(w, step);
      if step.id in w.rows {
        MovedRowAdvances(w, step);
      }
    } else {
      OtherStepAdvances(w, step);
    }
  }

  lemma {:induction false} RunAdvances(w: Server, steps: seq<Step>)
    requires Inv(w) && Run(w, steps)
    ensures Advances(w, After(w, steps))
    decreases steps
  {
    if steps == [] {
      assert forall id :: id in w.stored ==> id in w.rows;
    } else {
      var mid := Next(w, steps[0]);
      StepKeepsInv(w, steps[0]);
      StepAdvances(w, steps[0]);
      RunAdvances(mid, steps[1..]);
      AdvancesThrough(w, mid, After(w, steps));
    }
  }

  lemma AdvancesThrough(w: Server, mid: Server, w': Server)
    requires Advances(w, mid) && Advances(mid, w')
    requires forall id :: id in w.rows ==> id in w.used
    requires forall id :: id in mid.rows ==> id in mid.used
    requires StoredOk(w) && StoredOk(mid)
    ensures Advances(w, w')
  {
    forall id | id in w.stored && id in w'.stored ensures id in mid.stored {
      assert id in w.rows && w.rows[id].Completed?;
      assert id in mid.used;
    }
  }

  /** Exactly the completed runs have their sources and claims stored. */
  lemma StoredIffCompleted(w: Server, id: RunId)
    requires Reachable(w)
    ensures id in w.stored <==> id in w.rows && w.rows[id].Completed?
  {
    ReachableInv(w);
  }

  /** After a restart no row is running, so none is without a live task. */
  lemma RecoveryLeavesNoOrphan(w: Server, id: RunId)
    requires Reachable(w) && Enabled(w, Recover) && id in Next(w, Recover).rows
    ensures !Next(w, Recover).rows[id].Running? && Next(w, Recover).stuck == {}
    ensures Next(w, Recover).rows[id] == if w.rows[id].Running? then Failed else w.rows[id]
    ensures Next(w, Recover).free == w.max
  {
    ReachableInv(w);
    assert Holders(w) == {};
  }

  // ---------------------------------------------------------------------------------------
  // Cancellation
  // ---------------------------------------------------------------------------------------

  predicate IsCompleted(w: Server, id: RunId) {
    id in w.rows && w.rows[id].Completed?
  }

  /** A cancel that returns true while a checkpoint is still ahead is never in vain. */
  lemma CancelledNeverCompletes(w: Server, id: RunId, steps: seq<Step>)
    requires Reachable(w) && w.up && id in w.tasks && BeforeLastCheckpoint(w.tasks[id])
    requires Run(Next(w, Cancel(id)), steps)
    ensures !IsCompleted(After(Next(w, Cancel(id)), steps), id)
  {
    ReachableInv(w);
    var flagged := Next(w, Cancel(id));
    StepKeepsInv(w, Cancel(id));
    RunKeepsInv(flagged, steps);
    DoomedForever(flagged, steps, id);
  }

  lemma {:induction false} DoomedForever(w: Server, steps: seq<Step>, id: RunId)
    requires Run(w, steps) && id in w.doomed
    ensures id in After(w, steps).doomed
    decreases steps
  {
    if steps != [] {
      assert id in Next(w, steps[0]).doomed;
      DoomedForever(Next(w, steps[0]), steps[1..], id);
    }
  }

  ghost predicate CanComplete(w: Server, id: RunId) {
    exists steps :: Run(w, steps) && IsCompleted(After(w, steps), id)
  }

  lemma PersistCompletes(w: Server, id: RunId)
    requires w.up && id in w.tasks && w.tasks[id].Returned? && id in w.rows
    ensures Run(w, [Persist(id)]) && IsCompleted(After(w, [Persist(id)]), id)
  {
    assert After(w, [Persist(id)]) == Next(w, Persist(id));
  }

  lemma LastStageCompletes(w: Server, id: RunId, outcome: Outcome)
    requires w.up && At(w, id, Stage(LAST_STAGE)) && id in w.rows
    ensures Run(w, [StageDone(id, outcome), Persist(id)])
    ensures IsCompleted(After(w, [StageDone(id, outcome), Persist(id)]), id)
  {
    var done := Next(w, StageDone(id, outcome));
    PersistCompletes(done, id);
    var steps := [StageDone(id, outcome), Persist(id)];
    assert steps[1..] == [Persist(id)];
    assert Run(done, steps[1..]) && After(w, steps) == After(done, steps[1..]);
  }

  /** The task of the run has left its stages without an outcome. */
  predicate PastOutcome(w: Server, id: RunId) {
    && id in w.used && id !in w.accepted && !IsCompleted(w, id)
    && (id in w.tasks ==> !BeforeLastCheckpoint(w.tasks[id]) && !w.tasks[id].Stage? && !w.tasks[id].Returned?)
  }

  lemma StepKeepsPastOutcome(w: Server, id: RunId, step: Step)
    requires Enabled(w, step) && PastOutcome(w, id)
    ensures PastOutcome(Next(w, step), id)
  {}

  lemma {:induction false} PastOutcomeNeverCompletes(w: Server, id: RunId, steps: seq<Step>)
    requires Run(w, steps) && PastOutcome(w, id)
    ensures !IsCompleted(After(w, steps), id)
    decreases steps
  {
    hide Enabled, Next;
    if steps != [] {
      StepKeepsPastOutcome(w, id, steps[0]);
      PastOutcomeNeverCompletes(Next(w, steps[0]), id, steps[1..]);
    }
  }

  /** After a cancel of an active run, the run can still complete exactly when its last
      checkpoint has been passed and its outcome is not yet lost. */
  lemma CancelTooLateIff(w: Server, id: RunId)
    requires Reachable(w) && w.up && id in w.tasks && id in w.rows && !Terminal(w.rows[id])
    ensures CanComplete(Next(w, Cancel(id)), id)
       <==> w.tasks[id] == Stage(LAST_STAGE) || w.tasks[id].Returned?
  {
    ReachableInv(w);
    var flagged := Next(w, Cancel(id));
    StepKeepsInv(w, Cancel(id));
    if w.tasks[id].Returned? {
      PersistCompletes(flagged, id);
    } else if w.tasks[id] == Stage(LAST_STAGE) {
      LastStageCompletes(flagged, id, Outcome(0, 0));
    } else {
      forall steps | Run(flagged, steps)
        ensures !IsCompleted(After(flagged, steps), id)
      {
        if BeforeLastCheckpoint(w.tasks[id]) {
          CancelledNeverCompletes(w, id, steps);
        } else {
          PastOutcomeNeverCompletes(flagged, id, steps);
        }
      }
    }
  }

  /** From its first stage a run that nobody cancels passes six stages, with a checkpoint behind
      each of the first five, and what the last one returns is what is stored; if it is flagged
      at any of the checkpoints, that is its end. */
  lemma StagesLeadToOutcome(w: Server, id: RunId, outcome: Outcome, any: Outcome, n: nat)
    requires w.up && At(w, id, Stage(n))
    ensures n < 5 && id in w.flagged ==> At(Next(w, StageDone(id, any)), id, Cancelling)
    ensures n < 5 && id !in w.flagged ==> At(Next(w, StageDone(id, any)), id, Stage(n + 1))
    ensures n == 5 ==> At(Next(w, StageDone(id, outcome)), id, Returned(outcome))
    ensures n == 5 && id in w.rows ==>
      var done := Next(w, StageDone(id, outcome));
      Enabled(done, Persist(id))
      && Next(done, Persist(id)).stored == w.stored[id := outcome]
      && Next(done, Persist(id)).rows == w.rows[id := Completed]
  {}

  lemma FirstStage(w: Server, id: RunId)
    requires Enabled(w, SetRunning(id))
    ensures At(Next(w, SetRunning(id)), id, Stage(0))
    ensures id in w.rows ==> Next(w, SetRunning(id)).rows == w.rows[id := Running]
  {}

  // ---------------------------------------------------------------------------------------
  // Why a run ended as it did
  // ---------------------------------------------------------------------------------------

  /** A cancel, a deletion or the shutdown asks the run to stop. */
  predicate Asks(step: Step, id: RunId) {
    step == Cancel(id) || step == Delete(id) || step.FlagAll?
  }

  /** The last word on the run's flag was a request. */
  predicate Asked(steps: seq<Step>, id: RunId) {
    steps != [] &&
    var last := steps[|steps| - 1];
    Asks(last, id) || (last != Discard(id) && !last.Crash? && Asked(steps[..|steps| - 1], id))
  }

  predicate EverAsked(steps: seq<Step>, id: RunId) {
    exists step :: step in steps && Asks(step, id)
  }

  /** What the state says of a run has its cause among the steps so far. */
  predicate Explained(w: Server, steps: seq<Step>, id: RunId) {
    && (id in w.flagged ==> Asked(steps, id))
    && (id in w.tasks && w.tasks[id].Cancelling? ==> EverAsked(steps, id))
    && (id in w.tasks && w.tasks[id].Failing? ==> Raise(id) in steps)
    && (id in w.rows && w.rows[id].Cancelled? ==> EverAsked(steps, id))
    && (id in w.rows && w.rows[id].Failed? ==> Raise(id) in steps || Recover in steps)
  }

  lemma {:induction false} AskedIsEver(steps: seq<Step>, id: RunId)
    requires Asked(steps, id)
    ensures EverAsked(steps, id)
    decreases |steps|
  {
    var last := steps[|steps| - 1];
    if Asks(last, id) {
      assert last in steps;
    } else {
      AskedIsEver(steps[..|steps| - 1], id);
    }
  }

  lemma AskedAcrossStep(steps: seq<Step>, step: Step, id: RunId)
    ensures Asked(steps + [step], id) <==> Asks(step, id) || (step != Discard(id) && !step.Crash? && Asked(steps, id))
    ensures EverAsked(steps, id) || Asks(step, id) ==> EverAsked(steps + [step], id)
  {
    assert (steps + [step])[..|steps|] == steps;
    assert step in steps + [step];
  }

  /** How a single step can come to say something of a run. */
  lemma StepHasCause(w: Server, step: Step, id: RunId)
    requires Enabled(w, step)
    ensures
      var w' := Next(w, step);
      && (id in w'.flagged ==> Asks(step, id) || (step != Discard(id) && !step.Crash? && id in w.flagged))
      && (id in w'.tasks && w'.tasks[id].Cancelling? ==>
            id in w.tasks && (w.tasks[id].Cancelling? || id in w.flagged))
      && (id in w'.tasks && w'.tasks[id].Failing? ==> step == Raise(id) || (id in w.tasks && w.tasks[id].Failing?))
      && (id in w'.rows && w'.rows[id].Cancelled? ==>
            (id in w.rows && w.rows[id].Cancelled?) || (id in w.tasks && w.tasks[id].Cancelling?))
      && (id in w'.rows && w'.rows[id].Failed? ==>
            step.Recover? || (id in w.rows && w.rows[id].Failed?) || (id in w.tasks && w.tasks[id].Failing?))
  {}

  lemma StepKeepsExplained(w: Server, steps: seq<Step>, step: Step, id: RunId)
    requires Enabled(w, step) && Explained(w, steps, id)
    ensures Explained(Next(w, step), steps + [step], id)
  {
    StepHasCause(w, step, id);
    AskedAcrossStep(steps, step, id);
    if id in w.flagged {
      AskedIsEver(steps, id);
    }
    hide Enabled, Next, Asks, Asked, EverAsked;
  }

  lemma {:induction false} RunKeepsExplained(w: Server, before: seq<Step>, steps: seq<Step>, id: RunId)
    requires Run(w, steps) && Explained(w, before, id)
    ensures Explained(After(w, steps), before + steps, id)
    decreases steps
  {
    if steps == [] {
      assert before + steps == before;
    } else {
      StepKeepsExplained(w, before, steps[0], id);
      hide Explained, Next, Enabled;
      RunKeepsExplained(Next(w, steps[0]), before + [steps[0]], steps[1..], id);
      assert before + [steps[0]] + steps[1..] == before + steps;
    }
  }

  /** In every run of the server: a run is cancelled only if someone asked for it, fails only if
      something was raised or the process died, and no flag is left by the cleanup unless
      someone asks again. */
  lemma EndsHaveCauses(max: nat, steps: seq<Step>, id: RunId)
    requires Run(Boot(max), steps)
    ensures
      var w := After(Boot(max), steps);
      && (id in w.rows && w.rows[id].Cancelled? ==> EverAsked(steps, id))
      && (id in w.rows && w.rows[id].Failed? ==> Raise(id) in steps || Recover in steps)
      && (id in w.flagged ==> Asked(steps, id))
  {
    RunKeepsExplained(Boot(max), [], steps, id);
    assert [] + steps == steps;
  }
}
