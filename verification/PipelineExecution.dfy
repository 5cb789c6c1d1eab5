/**
  How an execution ends that no provider interferes with: sections and cancellations come in any order, at any times.
 */
module PipelineExecution {
  import opened Common
  import opened PipelineTree
  import opened PipelineCallbacks
  import opened PipelineExecutor

  // ---------------------------------------------------------------------
  // Where the coroutine is
  // ---------------------------------------------------------------------

  /** As created by a trigger: nothing has started. */
  predicate Fresh(r: Run) {
    && Inv(r)
    && r.node.status.Queued?
  }

  predicate StagesQueuedFrom(r: Run, i: nat) {
    forall k | i <= k < |r.stages| :: r.stages[k].node.status.Queued?
  }

  predicate JobsQueuedFrom(r: Run, i: nat, j: nat)
    requires HasStage(r, i)
  {
    forall k | j <= k < |r.stages[i].jobs| :: r.stages[i].jobs[k].node.status.Queued?
  }

  /** Before stage `i`. */
  predicate BeforeStage(r: Run, i: nat) {
    && Inv(r)
    && StagesSucceededBefore(r, i)
    && StagesQueuedFrom(r, i)
    && (i < |r.stages| ==> r.node.status.Running?)
  }

  /** Inside stage `i`, before job `j`. */
  predicate BeforeJob(r: Run, i: nat, j: nat) {
    && Inv(r)
    && HasStage(r, i)
    && StagesSucceededBefore(r, i)
    && StagesQueuedFrom(r, i + 1)
    && JobsSucceededBefore(r, i, j)
    && JobsQueuedFrom(r, i, j)
    && (j < |r.stages[i].jobs| ==> r.node.status.Running? && r.stages[i].node.status.Running?)
    && (i + 1 < |r.stages| ==> r.node.status.Running?)
  }

  /** Inside job `j` of stage `i`. */
  predicate DuringJob(r: Run, i: nat, j: nat) {
    && Inv(r)
    && HasJob(r, i, j)
    && StagesSucceededBefore(r, i)
    && StagesQueuedFrom(r, i + 1)
    && JobsSucceededBefore(r, i, j)
    && JobsQueuedFrom(r, i, j + 1)
    && r.node.status.Running? && r.stages[i].node.status.Running? && r.stages[i].jobs[j].node.status.Running?
  }

  /** The coroutine and its unfinished run agree on how far the execution is. */
  predicate Walking(r: Run, pc: Pc) {
    match pc
    case NotStarted => Fresh(r)
    case EnterStage(i) => HasStage(r, i) && BeforeStage(r, i)
    case EnterJob(i, j) => HasJob(r, i, j) && BeforeJob(r, i, j)
    case Waiting(i, j) => DuringJob(r, i, j)
    case LeaveStage(i) => HasStage(r, i + 1) && BeforeJob(r, i, |r.stages[i].jobs|)
    case _ => false
  }

  /** The first job that has not succeeded. */
  function Place(pc: Pc): (nat, nat) {
    match pc
    case EnterStage(i) => (i, 0)
    case EnterJob(i, j) => (i, j)
    case Waiting(i, j) => (i, j)
    case LeaveStage(i) => (i + 1, 0)
    case _ => (0, 0)
  }

  /** Everything before job (i, j) has succeeded, nothing from there on has ended. */
  predicate OpenAt(r: Run, i: nat, j: nat) {
    && Inv(r)
    && HasJob(r, i, j)
    && !r.node.status.IsTerminal() && !r.stages[i].node.status.IsTerminal()
    && StagesSucceededBefore(r, i)
    && StagesQueuedFrom(r, i + 1)
    && JobsSucceededBefore(r, i, j)
    && (forall k | j <= k < |r.stages[i].jobs| :: !r.stages[i].jobs[k].node.status.IsTerminal())
  }

  // ---------------------------------------------------------------------
  // How it ends
  // ---------------------------------------------------------------------

  function StageEnd(k: nat, i: nat, how: Status): Status {
    if k < i then Succeeded else if k == i then how else Cancelled
  }

  function JobEnd(k: nat, l: nat, i: nat, j: nat, how: Status): Status {
    if k < i || (k == i && l < j) then Succeeded else if k == i && l == j then how else Cancelled
  }

  predicate StageEndsAt(stage: Stage, k: nat, i: nat, j: nat, how: Status) {
    && stage.node.status == StageEnd(k, i, how)
    && (forall l | 0 <= l < |stage.jobs| :: stage.jobs[l].node.status == JobEnd(k, l, i, j, how))
  }

  /**
    Everything before job (i, j) succeeded, everything after it was cancelled, and it, its stage and the run ended as
    `how`.
   */
  predicate EndsAt(r: Run, i: nat, j: nat, how: Status) {
    && HasJob(r, i, j)
    && r.node.status == how
    && (forall k | 0 <= k < |r.stages| :: StageEndsAt(r.stages[k], k, i, j, how))
  }

  predicate AllSucceeded(r: Run) {
    && r.node.status.Succeeded?
    && AllStagesSucceeded(r.stages)
    && (forall i | 0 <= i < |r.stages| :: AllJobsSucceeded(r.stages[i].jobs))
  }

  /** No job before (i, j), in stage and job order, is one that fails. */
  ghost predicate NoneFailsBefore(r: Run, i: nat, j: nat) {
    forall k, l | HasJob(r, k, l) && (k < i || (k == i && l < j)) :: !r.stages[k].jobs[l].shouldFail
  }

  ghost predicate NoneFails(r: Run) {
    NoneFailsBefore(r, |r.stages|, 0)
  }

  ghost predicate FirstFailure(r: Run, i: nat, j: nat) {
    HasJob(r, i, j) && r.stages[i].jobs[j].shouldFail && NoneFailsBefore(r, i, j)
  }

  /** The run failed at the first failing job. */
  ghost predicate FailedAtFirst(r0: Run, r: Run) {
    exists i, j :: FirstFailure(r0, i, j) && EndsAt(r, i, j, Failed)
  }

  /** The run was cut off at some job, and no job before it fails. */
  ghost predicate CutOff(r0: Run, r: Run) {
    exists i, j :: NoneFailsBefore(r0, i, j) && EndsAt(r, i, j, Cancelled)
  }

  /** An execution that came from the fresh run `r0`: still walking, or ended as it should. */
  ghost predicate OnTrack(r0: Run, p: Process, cancelled: bool) {
    && TreeForward(r0, p.run) && ProcessInv(p)
    && (match p.run.node.status
        case Queued => Walking(p.run, p.pc) && NoneFailsBefore(r0, Place(p.pc).0, Place(p.pc).1)
        case Running => Walking(p.run, p.pc) && NoneFailsBefore(r0, Place(p.pc).0, Place(p.pc).1)
        case Succeeded => AllSucceeded(p.run) && NoneFails(r0)
        case Failed => FailedAtFirst(r0, p.run)
        case Cancelled => cancelled && CutOff(r0, p.run))
  }

  // ---------------------------------------------------------------------
  // Single sections
  // ---------------------------------------------------------------------

  lemma QueuedStageJobs(r: Run, k: nat)
    requires Inv(r) && HasStage(r, k)
    ensures r.stages[k].node.status.Queued? ==> JobsQueuedFrom(r, k, 0)
    ensures r.stages[k].node.status.Succeeded? ==> AllJobsSucceeded(r.stages[k].jobs)
  {
    assert StageInv(r.node.status, r.stages[k]);
    forall l | 0 <= l < |r.stages[k].jobs| && r.stages[k].node.status.Queued?
      ensures r.stages[k].jobs[l].node.status.Queued?
    {
      assert JobInv(r.node.status, r.stages[k].node.status, r.stages[k].jobs[l]);
    }
  }

  lemma FailEndsAt(r: Run, i: nat, j: nat, message: Message, now: Time)
    requires DuringJob(r, i, j)
    ensures EndsAt(FailJob(r, i, j, message, now).run, i, j, Failed)
  {
    hide Inv, FailJob;
    FailJobComputed(r, i, j, message, now);
    var q := FailedRun(r, i, j, message, now);
    var s := FailJob(r, i, j, message, now).run;
    forall k | 0 <= k < |s.stages|
      ensures StageEndsAt(s.stages[k], k, i, j, Failed)
    {
      QueuedStageJobs(r, k);
      assert s.stages[k] == CancelStage(q.stages[k], "not executed after the pipeline failed", now);
    }
  }

  lemma CancelEndsAt(r: Run, i: nat, j: nat, runMessage: Message, childMessage: string, now: Time)
    requires OpenAt(r, i, j)
    ensures EndsAt(CancelRun(r, runMessage, childMessage, now).run, i, j, Cancelled)
  {
    var q := FinishRun(r, Cancelled, runMessage, now).run;
    var s := CancelRun(r, runMessage, childMessage, now).run;
    forall k | 0 <= k < |s.stages|
      ensures StageEndsAt(s.stages[k], k, i, j, Cancelled)
    {
      QueuedStageJobs(r, k);
      assert s.stages[k] == CancelStage(q.stages[k], childMessage, now);
    }
  }

  /** Wherever the coroutine is, its place is where the unfinished part of the run begins. */
  lemma WalkingIsOpen(r: Run, pc: Pc)
    requires Walking(r, pc) && !r.node.status.IsTerminal()
    ensures OpenAt(r, Place(pc).0, Place(pc).1)
  {
    var i := Place(pc).0;
    match pc
    case LeaveStage(k) =>
      assert StageInv(r.node.status, r.stages[k]);
      QueuedStageJobs(r, i);
      assert StageInv(r.node.status, r.stages[i]);
    case NotStarted =>
      assert StageInv(r.node.status, r.stages[0]);
      AllQueued(r);
      QueuedStageJobs(r, 0);
    case EnterStage(_) =>
      QueuedStageJobs(r, i);
      assert StageInv(r.node.status, r.stages[i]);
    case _ =>
  }

  lemma AllQueued(r: Run)
    requires Fresh(r)
    ensures StagesQueuedFrom(r, 0)
  {
    forall k | 0 <= k < |r.stages|
      ensures r.stages[k].node.status.Queued?
    {
      assert StageInv(r.node.status, r.stages[k]);
    }
  }

  lemma FreshStarts(r: Run, now: Time)
    requires Fresh(r)
    ensures var e := StartRun(r, now);
            e.Done? && HasStage(e.run, 0) && BeforeStage(e.run, 0) && TreeForward(r, e.run)
  {
    StartRunCommits(r, now);
    AllQueued(r);
  }

  lemma StartStageShape(r: Run, i: nat, now: Time)
    requires BeforeStage(r, i) && HasStage(r, i)
    ensures var e := StartStage(r, i, now);
            e.Done? && HasJob(e.run, i, 0) && BeforeJob(e.run, i, 0) && TreeForward(r, e.run)
  {
    QueuedStageJobs(r, i);
    StartStageCommits(r, i, now);
    assert StageInv(r.node.status, r.stages[i]);
  }

  lemma StartJobShape(r: Run, i: nat, j: nat, now: Time)
    requires BeforeJob(r, i, j) && HasJob(r, i, j)
    ensures var e := StartJob(r, i, j, now);
            e.Done? && DuringJob(e.run, i, j) && TreeForward(r, e.run)
  {
    StartJobCommits(r, i, j, now);
  }

  lemma JobDoneShape(r: Run, i: nat, j: nat, now: Time)
    requires DuringJob(r, i, j) && !r.stages[i].jobs[j].shouldFail
    ensures var s := JobSection(r, i, j, now);
            && s.effect.Done? && BeforeJob(s.effect.run, i, j + 1) && TreeForward(r, s.effect.run)
            && s.next == AfterJob(r, i, j)
  {
    SucceedJobCommits(r, i, j, None, now);
    SucceedJobComputed(r, i, j, None, now);
    var q := AggregateStage(FinishJob(r, i, j, Succeeded, None, now).run, i, now).run;
    InvImpliesAssertions(q);
    if j + 1 < |r.stages[i].jobs| {
      assert q.stages[i].jobs[j + 1].node.status.Queued?;
    }
    if i + 1 < |r.stages| {
      assert q.stages[i + 1].node.status.Queued?;
    }
  }

  lemma JobFailShape(r: Run, i: nat, j: nat, now: Time)
    requires DuringJob(r, i, j) && r.stages[i].jobs[j].shouldFail
    ensures var s := JobSection(r, i, j, now);
            s.effect.Done? && EndsAt(s.effect.run, i, j, Failed) && TreeForward(r, s.effect.run)
  {
    var message := Some("deterministic simulated failure");
    FailJobCommits(r, i, j, message, now);
    InvImpliesAssertions(FailJob(r, i, j, message, now).run);
    FailEndsAt(r, i, j, message, now);
  }

  /** Past the last job of stage `i`, the tree is ready for stage `i + 1`, or finished. */
  lemma StageDoneShape(r: Run, i: nat)
    requires HasStage(r, i) && BeforeJob(r, i, |r.stages[i].jobs|)
    ensures BeforeStage(r, i + 1)
    ensures i + 1 == |r.stages| ==> AllSucceeded(r)
  {
    assert StageInv(r.node.status, r.stages[i]);
    forall k | 0 <= k < |r.stages|
      ensures r.stages[k].node.status.Succeeded? ==> AllJobsSucceeded(r.stages[k].jobs)
    {
      QueuedStageJobs(r, k);
    }
  }

  lemma SameJob(r: Run, q: Run, i: nat, j: nat)
    requires TreeForward(r, q) && HasJob(q, i, j)
    ensures HasJob(r, i, j) && |r.stages[i].jobs| == |q.stages[i].jobs|
    ensures q.stages[i].jobs[j].shouldFail == r.stages[i].jobs[j].shouldFail
  {
    assert StageForward(r.stages[i], q.stages[i]);
  }

  lemma NoneFailsNext(r: Run, i: nat, j: nat)
    requires NoneFailsBefore(r, i, j) && HasJob(r, i, j) && !r.stages[i].jobs[j].shouldFail
    ensures NoneFailsBefore(r, i, j + 1)
    ensures j + 1 == |r.stages[i].jobs| ==> NoneFailsBefore(r, i + 1, 0)
  {
  }

  /** Starting the run, a stage or a job, and leaving a stage. */
  lemma QuietSection(r0: Run, r: Run, pc: Pc, now: Time)
    requires TreeForward(r0, r) && Walking(r, pc) && !pc.Waiting? && !r.node.status.IsTerminal()
    requires NoneFailsBefore(r0, Place(pc).0, Place(pc).1)
    ensures PcIn(r, pc)
    ensures var s := Run1(r, pc, false, now);
            && s.effect.Done? && Walking(s.effect.run, s.next) && TreeForward(r, s.effect.run)
            && s.effect.run.node.status.Running?
            && NoneFailsBefore(r0, Place(s.next).0, Place(s.next).1)
  {
    hide StartRun, StartStage, StartJob, AggregateStage, AssertionsHold, Inv;
    match pc
    case NotStarted =>
      FreshStarts(r, now);
      SomeStage(r);
    case EnterStage(i) =>
      StartStageShape(r, i, now);
      QueuedStageJobs(r, i);
      SomeJob(r, i);
    case EnterJob(i, j) =>
      StartJobShape(r, i, j, now);
      BeforeJobOpen(r, i, j);
    case LeaveStage(i) =>
      StageDoneShape(r, i);
      AggregateIdle(r, i, now);
      InvImpliesAssertions(r);
      TreeForwardReflexive(r);
  }

  lemma SomeStage(r: Run)
    requires Inv(r)
    ensures HasStage(r, 0)
  {
  }

  lemma SomeJob(r: Run, i: nat)
    requires Inv(r) && HasStage(r, i)
    ensures HasJob(r, i, 0)
  {
    assert StageInv(r.node.status, r.stages[i]);
  }

  lemma BeforeJobOpen(r: Run, i: nat, j: nat)
    requires BeforeJob(r, i, j) && HasJob(r, i, j)
    ensures r.stages[i].jobs[j].node.status.Queued?
  {
  }

  /** The section after a job's wait. */
  lemma WaitSection(r0: Run, r: Run, i: nat, j: nat, now: Time)
    requires TreeForward(r0, r) && DuringJob(r, i, j) && NoneFailsBefore(r0, i, j)
    ensures var s := Run1(r, Waiting(i, j), false, now);
            && s.effect.Done? && TreeForward(r, s.effect.run)
            && (if r.stages[i].jobs[j].shouldFail
                then FailedAtFirst(r0, s.effect.run) && s.effect.run.node.status.Failed?
                else if s.effect.run.node.status.IsTerminal()
                then s.effect.run.node.status.Succeeded? && AllSucceeded(s.effect.run) && NoneFails(r0)
                else Walking(s.effect.run, s.next) && NoneFailsBefore(r0, Place(s.next).0, Place(s.next).1))
  {
    hide JobSection, Inv;
    SameJob(r0, r, i, j);
    if r.stages[i].jobs[j].shouldFail {
      JobFailShape(r, i, j, now);
      assert FirstFailure(r0, i, j);
    } else {
      JobDoneShape(r, i, j, now);
      NoneFailsNext(r0, i, j);
      AfterJobShape(r0, r, JobSection(r, i, j, now).effect.run, i, j);
    }
  }

  lemma AfterJobShape(r0: Run, r: Run, q: Run, i: nat, j: nat)
    requires TreeForward(r, q) && HasJob(r, i, j) && BeforeJob(q, i, j + 1)
    requires TreeForward(r0, r) && NoneFailsBefore(r0, i, j + 1)
    requires j + 1 == |r0.stages[i].jobs| ==> NoneFailsBefore(r0, i + 1, 0)
    ensures if q.node.status.IsTerminal() then AllSucceeded(q) && NoneFails(r0)
            else Walking(q, AfterJob(r, i, j))
                 && NoneFailsBefore(r0, Place(AfterJob(r, i, j)).0, Place(AfterJob(r, i, j)).1)
  {
    assert StageForward(r.stages[i], q.stages[i]) && StageForward(r0.stages[i], r.stages[i]);
    if j + 1 == |q.stages[i].jobs| {
      StageDoneShape(q, i);
    }
  }

  /** An ended run makes the executor stop and leave it alone, wherever it is. */
  lemma EndedSection(r: Run, pc: Pc, stopped: bool, now: Time)
    requires r.node.status.IsTerminal() && PcIn(r, pc)
    ensures Run1(r, pc, stopped, now) == Section(Done(r), Stopped, false)
  {
  }

  lemma StepOnTrack(r0: Run, p: Process, m: Move, cancelled: bool)
    requires OnTrack(r0, p, cancelled) && Honest(p, m) && (m.Resume? || (m.Cancel? && cancelled))
    ensures OnTrack(r0, Next(p, m), cancelled)
  {
    hide Inv, Run1, TreeForward, Walking, NoneFailsBefore, FailedAtFirst, CutOff, AllSucceeded, PcOk, CancelRun;
    NextSafe(p, m);
    TreeForwardTransitive(r0, p.run, Next(p, m).run);
    PcOkIn(p);
    if p.run.node.status.IsTerminal() {
      if m.Resume? {
        EndedSection(p.run, p.pc, m.stopped, m.now);
      }
    } else if m.Cancel? {
      CancelCutsOff(r0, p, m.now);
    } else if p.pc.Waiting? {
      WalkingWaits(p);
      WaitSection(r0, p.run, p.pc.i, p.pc.j, m.now);
    } else {
      QuietSection(r0, p.run, p.pc, m.now);
    }
  }

  lemma PcOkIn(p: Process)
    requires ProcessInv(p)
    ensures PcIn(p.run, p.pc)
  {
  }

  lemma WalkingWaits(p: Process)
    requires p.pc.Waiting? && Walking(p.run, p.pc)
    ensures DuringJob(p.run, p.pc.i, p.pc.j)
  {
  }

  lemma CancelCutsOff(r0: Run, p: Process, now: Time)
    requires ProcessInv(p) && Walking(p.run, p.pc) && !p.run.node.status.IsTerminal()
    requires NoneFailsBefore(r0, Place(p.pc).0, Place(p.pc).1)
    ensures var q := Next(p, Cancel(now)).run;
            q.node.status.Cancelled? && CutOff(r0, q)
  {
    hide Inv, CancelRun, Walking, NoneFailsBefore;
    WalkingIsOpen(p.run, p.pc);
    CancelEndsAt(p.run, Place(p.pc).0, Place(p.pc).1, Some("cancelled by user"), "pipeline was cancelled", now);
  }

  // ---------------------------------------------------------------------
  // Whole executions
  // ---------------------------------------------------------------------

  /** Sections and cancellations only, and every wait returns the truth. */
  predicate Undisturbed(p: Process, moves: seq<Move>)
    requires ProcessInv(p)
    decreases |moves|
  {
    moves == [] || (
      && (moves[0].Resume? || moves[0].Cancel?) && Honest(p, moves[0])
      && (NextSafe(p, moves[0]); Undisturbed(Next(p, moves[0]), moves[1..])))
  }

  predicate SomeCancel(moves: seq<Move>) {
    exists k | 0 <= k < |moves| :: moves[k].Cancel?
  }

  lemma {:induction false} StaysOnTrack(r0: Run, p: Process, moves: seq<Move>, cancelled: bool)
    requires OnTrack(r0, p, cancelled) && Undisturbed(p, moves) && (SomeCancel(moves) ==> cancelled)
    ensures OnTrack(r0, Play(p, moves), cancelled)
    decreases |moves|
  {
    hide OnTrack, Next, Honest, ProcessInv;
    TrackInv(r0, p, cancelled);
    if moves != [] {
      StepOnTrack(r0, p, moves[0], cancelled);
      assert forall k | 0 <= k < |moves[1..]| :: moves[1..][k] == moves[k + 1];
      StaysOnTrack(r0, Next(p, moves[0]), moves[1..], cancelled);
    }
  }

  lemma {:induction false} UndisturbedAt(p: Process, moves: seq<Move>, n: nat)
    requires ProcessInv(p) && Undisturbed(p, moves) && n < |moves|
    ensures moves[n].Resume? || moves[n].Cancel?
    decreases n
  {
    hide Next, Inv, PcOk;
    if n > 0 {
      NextSafe(p, moves[0]);
      UndisturbedAt(Next(p, moves[0]), moves[1..], n - 1);
    }
  }

  lemma TrackInv(r0: Run, p: Process, cancelled: bool)
    requires OnTrack(r0, p, cancelled)
    ensures ProcessInv(p)
  {
  }

  /** How far an execution has come, and how it ended. */
  ghost predicate Outcome(r0: Run, p: Process, cancelled: bool) {
    && TreeForward(r0, p.run)
    && (p.pc.Stopped? ==> p.run.node.status.IsTerminal())
    && (p.run.node.status.Succeeded? ==> AllSucceeded(p.run) && NoneFails(r0))
    && (p.run.node.status.Failed? ==> FailedAtFirst(r0, p.run))
    && (p.run.node.status.Cancelled? ==> cancelled && CutOff(r0, p.run))
    && (p.pc.Stopped? && !cancelled ==> if NoneFails(r0) then AllSucceeded(p.run) else FailedAtFirst(r0, p.run))
  }

  /**
    Sections and cancellations in any order, at any clock readings: an executor that stops leaves an ended run. The
    run succeeded throughout and no job is one that fails; or it failed at the first failing job, everything before
    it succeeded and everything after it was cancelled; or it was cancelled, which leaves a succeeded part without
    failing jobs and a cancelled rest.
   */
  lemma ExecutionOutcome(r: Run, moves: seq<Move>)
    requires Fresh(r)
    ensures ProcessInv(Process(r, NotStarted))
    ensures Undisturbed(Process(r, NotStarted), moves) ==>
              Outcome(r, Play(Process(r, NotStarted), moves), SomeCancel(moves))
  {
    hide OnTrack, Outcome;
    var p := Process(r, NotStarted);
    FreshOnTrack(r, SomeCancel(moves));
    if Undisturbed(p, moves) {
      StaysOnTrack(r, p, moves, SomeCancel(moves));
      TrackOutcome(r, Play(p, moves), SomeCancel(moves));
    }
  }

  lemma FreshOnTrack(r: Run, cancelled: bool)
    requires Fresh(r)
    ensures ProcessInv(Process(r, NotStarted)) && OnTrack(r, Process(r, NotStarted), cancelled)
  {
    hide Inv, TreeForward;
    TreeForwardReflexive(r);
  }

  lemma TrackOutcome(r0: Run, p: Process, cancelled: bool)
    requires OnTrack(r0, p, cancelled)
    ensures Outcome(r0, p, cancelled)
  {
    hide Inv, TreeForward, AllSucceeded, CutOff;
    if FailedAtFirst(r0, p.run) {
      SomeFails(r0, p.run);
    }
  }

  lemma SomeFails(r0: Run, r: Run)
    requires FailedAtFirst(r0, r)
    ensures !NoneFails(r0)
  {
  }

  // ---------------------------------------------------------------------
  // The executor stops
  // ---------------------------------------------------------------------

  /** The most sections stages `i` and later can take. */
  function StagesLeft(stages: seq<Stage>, i: nat): nat
    decreases |stages| - i
  {
    if i >= |stages| then 2 else 2 * |stages[i].jobs| + 2 + StagesLeft(stages, i + 1)
  }

  /** The most sections the coroutine can still take. */
  function Left(r: Run, pc: Pc): nat
    requires PcIn(r, pc)
  {
    match pc
    case NotStarted => 1 + StagesLeft(r.stages, 0)
    case EnterStage(i) => StagesLeft(r.stages, i)
    case EnterJob(i, j) => 2 * (|r.stages[i].jobs| - j) + 1 + StagesLeft(r.stages, i + 1)
    case Waiting(i, j) => 2 * (|r.stages[i].jobs| - j) + StagesLeft(r.stages, i + 1)
    case LeaveStage(i) => 1 + StagesLeft(r.stages, i + 1)
    case Ending => 2
    case Handling => 1
    case Stopped => 0
  }

  lemma {:induction false} SameStagesLeft(r: Run, q: Run, i: nat)
    requires TreeForward(r, q)
    ensures StagesLeft(q.stages, i) == StagesLeft(r.stages, i)
    decreases |r.stages| - i
  {
    if i < |r.stages| {
      assert StageForward(r.stages[i], q.stages[i]);
      SameStagesLeft(r, q, i + 1);
    }
  }

  lemma SameLeft(r: Run, q: Run, pc: Pc)
    requires PcIn(r, pc) && PcIn(q, pc) && TreeForward(r, q)
    ensures Left(q, pc) == Left(r, pc)
  {
    match pc
    case NotStarted => SameStagesLeft(r, q, 0);
    case EnterStage(i) => SameStagesLeft(r, q, i);
    case EnterJob(i, _) =>
      assert StageForward(r.stages[i], q.stages[i]);
      SameStagesLeft(r, q, i + 1);
    case Waiting(i, _) =>
      assert StageForward(r.stages[i], q.stages[i]);
      SameStagesLeft(r, q, i + 1);
    case LeaveStage(i) => SameStagesLeft(r, q, i + 1);
    case _ =>
  }

  /** Every section, whatever it finds, brings the coroutine closer to its end. */
  lemma SectionShortens(r: Run, pc: Pc, stopped: bool, now: Time)
    requires PcIn(r, pc) && PcIn(r, Run1(r, pc, stopped, now).next) && !pc.Stopped? && |r.stages| > 0
    requires pc.EnterStage? ==> |r.stages[pc.i].jobs| > 0
    ensures Left(r, Run1(r, pc, stopped, now).next) < Left(r, pc)
    ensures !pc.Handling? ==> 1 < Left(r, pc)
  {
    GoesOn(r, pc, stopped, now);
    hide Run1;
    var i := Place(pc).0;
    StagesLeftBound(r.stages, i);
    StagesLeftBound(r.stages, i + 1);
  }

  lemma {:induction false} StagesLeftBound(stages: seq<Stage>, i: nat)
    ensures StagesLeft(stages, i) >= 2
    decreases |stages| - i
  {
    if i < |stages| {
      StagesLeftBound(stages, i + 1);
    }
  }

  /** Where the coroutine can be after a section. */
  lemma GoesOn(r: Run, pc: Pc, stopped: bool, now: Time)
    requires PcIn(r, pc)
    ensures var next := Run1(r, pc, stopped, now).next;
            next.Stopped? || (next.Handling? && !pc.Handling?) ||
            match pc
            case NotStarted => next == if |r.stages| > 0 then EnterStage(0) else Ending
            case EnterStage(i) =>
              next in {AfterStage(r, i), if |r.stages[i].jobs| > 0 then EnterJob(i, 0) else LeaveStage(i)}
            case EnterJob(i, j) => next in {AfterJob(r, i, j), Waiting(i, j)}
            case Waiting(i, j) => next == AfterJob(r, i, j)
            case LeaveStage(i) => next == AfterStage(r, i)
            case _ => false
  {
    hide StartRun, StartStage, StartJob, FailJob, FailRun, AggregateStage, AggregateRun, AssertionsHold, FinishJob;
  }

  function Sections(moves: seq<Move>): nat {
    if moves == [] then 0 else (if moves[0].Resume? || moves[0].ResumeUnsaved? then 1 else 0) + Sections(moves[1..])
  }

  lemma MoveShortens(p: Process, m: Move)
    requires ProcessInv(p)
    ensures ProcessInv(Next(p, m)) && PcIn(p.run, p.pc) && PcIn(Next(p, m).run, Next(p, m).pc)
    ensures Next(p, m).pc.Stopped? || Left(Next(p, m).run, Next(p, m).pc) + Sections([m]) <= Left(p.run, p.pc)
    ensures p.pc.Stopped? ==> Next(p, m).pc.Stopped?
  {
    hide Inv, Run1, Handle, Settle, TreeForward, Left;
    NextSafe(p, m);
    PcOkIn(p);
    PcOkIn(Next(p, m));
    assert Sections([m]) == (if m.Resume? || m.ResumeUnsaved? then 1 else 0);
    match m
    case Deliver(_, _) => SameLeft(p.run, Next(p, m).run, p.pc);
    case Cancel(_) => SameLeft(p.run, Next(p, m).run, p.pc);
    case Shutdown(_) =>
    case Recover(_) =>
    case Resume(stopped, now) => ResumeShortens(p, stopped, now);
    case ResumeUnsaved(stopped, now) => ResumeShortens(p, stopped, now);
  }

  lemma ResumeShortens(p: Process, stopped: bool, now: Time)
    requires ProcessInv(p)
    ensures PcIn(p.run, p.pc)
    ensures var s := Run1(p.run, p.pc, stopped, now);
            && PcIn(s.effect.run, s.next)
            && (if p.pc.Stopped? then s.next.Stopped? && !s.saves
                else Left(s.effect.run, s.next) < Left(p.run, p.pc) && (!s.saves ==> s.effect.run == p.run)
                     && (!p.pc.Handling? ==> Left(p.run, Handling) < Left(p.run, p.pc)))
  {
    hide Inv, TreeForward, Left;
    assert Left(p.run, Handling) == 1 by {
      HandlingIsLast(p.run);
    }
    var s := Run1(p.run, p.pc, stopped, now);
    SectionCommits(p.run, p.pc, stopped, now);
    UnsavedSection(p.run, p.pc, stopped, now);
    if !p.pc.Stopped? {
      SameShape(p.run, s.effect.run, s.next);
      SomeStage(p.run);
      if p.pc.EnterStage? {
        SomeJob(p.run, p.pc.i);
      }
      SectionShortens(p.run, p.pc, stopped, now);
      SameLeft(p.run, s.effect.run, s.next);
    }
  }

  lemma HandlingIsLast(r: Run)
    ensures Left(r, Handling) == 1
  {
  }

  lemma SameShape(r: Run, q: Run, pc: Pc)
    requires TreeForward(r, q) && PcOk(q, pc)
    ensures PcIn(r, pc) && PcIn(q, pc)
  {
    if pc.EnterJob? || pc.Waiting? {
      assert StageForward(r.stages[pc.i], q.stages[pc.i]);
    }
  }

  /**
    Whatever providers, users and the store do in between, the executor stops after a number of sections that
    depends on the numbers of stages and jobs only.
   */
  lemma {:induction false} ExecutorStops(p: Process, moves: seq<Move>)
    requires ProcessInv(p)
    ensures PcIn(p.run, p.pc)
    ensures Sections(moves) >= Left(p.run, p.pc) ==> Play(p, moves).pc.Stopped?
    ensures p.pc.Stopped? ==> Play(p, moves).pc.Stopped?
    decreases |moves|
  {
    hide Next, Inv, PcOk, Left;
    PcOkIn(p);
    if moves == [] {
      NothingLeft(p.run, p.pc);
    } else {
      MoveShortens(p, moves[0]);
      ExecutorStops(Next(p, moves[0]), moves[1..]);
      assert Sections([moves[0]]) + Sections(moves[1..]) == Sections(moves);
    }
  }

  lemma NothingLeft(r: Run, pc: Pc)
    requires PcIn(r, pc)
    ensures Left(r, pc) == 0 ==> pc.Stopped?
  {
    StagesLeftBound(r.stages, Place(pc).0);
    StagesLeftBound(r.stages, Place(pc).0 + 1);
  }

  /** One move more. */
  lemma {:induction false} PlayAppend(p: Process, moves: seq<Move>, m: Move)
    requires ProcessInv(p)
    ensures Play(p, moves + [m]) == Next(Play(p, moves), m)
    decreases |moves|
  {
    hide Next, Inv, PcOk;
    if moves == [] {
      NextSafe(p, m);
      assert Play(Next(p, m), []) == Next(p, m);
    } else {
      NextSafe(p, moves[0]);
      PlayAppend(Next(p, moves[0]), moves[1..], m);
      assert (moves + [m])[1..] == moves[1..] + [m];
    }
  }
}
