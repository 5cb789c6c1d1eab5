/**
  The executor coroutine as a program counter over its lock sections.  Between two sections any
  callback, cancel, shutdown or failed save may happen.
 */
module PipelineExecutor {
  import opened Common
  import opened PipelineTree
  import opened PipelineCallbacks

  datatype Pc =
    | NotStarted
    | EnterStage(i: nat)
    | EnterJob(i: nat, j: nat)
    | Waiting(i: nat, j: nat)
    | LeaveStage(i: nat)
    | Ending
    | Handling
    | Stopped

  /** One lock section: what it did to the tree, where the coroutine goes, and whether it checkpoints. */
  datatype Section = Section(effect: Effect, next: Pc, saves: bool)

  predicate PcIn(r: Run, pc: Pc) {
    match pc
    case EnterStage(i) => HasStage(r, i)
    case EnterJob(i, j) => HasJob(r, i, j)
    case Waiting(i, j) => HasJob(r, i, j)
    case LeaveStage(i) => HasStage(r, i)
    case _ => true
  }

  function AfterStage(r: Run, i: nat): Pc {
    if i + 1 < |r.stages| then EnterStage(i + 1) else Ending
  }

  function AfterJob(r: Run, i: nat, j: nat): Pc
    requires HasStage(r, i)
  {
    if j + 1 < |r.stages[i].jobs| then EnterJob(i, j + 1) else LeaveStage(i)
  }

  /** A raised error takes the coroutine to its exception handler. */
  function Then(e: Effect, next: Pc): Section {
    Section(e, if e.Raised? then Handling else next, e.Done?)
  }

  /** `_assert_run_invariants` at the end of a section. */
  function Asserted(e: Effect): Effect {
    var r :- e;
    if AssertionsHold(r) then e else Raised(r, InvariantError)
  }

  function JobSection(r: Run, i: nat, j: nat, now: Time): Section
    requires HasJob(r, i, j)
  {
    var job := r.stages[i].jobs[j];
    if job.node.status.Succeeded? then
      Then(AggregateStage(r, i, now), AfterJob(r, i, j))
    else if job.shouldFail then
      Then(Asserted(FailJob(r, i, j, Some("deterministic simulated failure"), now)), Stopped)
    else
      var e := FinishJob(r, i, j, Succeeded, None, now);
      Then(Asserted(if e.Done? then AggregateStage(e.run, i, now) else e), AfterJob(r, i, j))
  }

  /** One section; `stopped` is what the wait before it returned. */
  function Run1(r: Run, pc: Pc, stopped: bool, now: Time): Section
    requires PcIn(r, pc)
  {
    match pc
    case NotStarted =>
      if !r.node.status.Queued? then Section(Done(r), Stopped, false)
      else Then(StartRun(r, now), if |r.stages| > 0 then EnterStage(0) else Ending)
    case EnterStage(i) =>
      if !r.node.status.Running? then Section(Done(r), Stopped, false)
      else if r.stages[i].node.status.Succeeded? then Section(Done(r), AfterStage(r, i), false)
      else Then(StartStage(r, i, now), if |r.stages[i].jobs| > 0 then EnterJob(i, 0) else LeaveStage(i))
    case EnterJob(i, j) =>
      if !r.node.status.Running? || !r.stages[i].node.status.Running? then Section(Done(r), Stopped, false)
      else if r.stages[i].jobs[j].node.status.Succeeded? then Then(AggregateStage(r, i, now), AfterJob(r, i, j))
      else Then(StartJob(r, i, j, now), Waiting(i, j))
    case Waiting(i, j) =>
      if stopped || !r.node.status.Running? then Section(Done(r), Stopped, false)
      else JobSection(r, i, j, now)
    case LeaveStage(i) =>
      if !r.node.status.Running? then Section(Done(r), Stopped, false)
      else Then(Asserted(AggregateStage(r, i, now)), AfterStage(r, i))
    case Ending =>
      if !r.node.status.Running? then Section(Done(r), Stopped, false)
      else Then(Asserted(AggregateRun(r, now)), Stopped)
    case Handling =>
      if r.node.status.IsTerminal() then Section(Done(r), Stopped, false)
      else Section(FailRun(r, Some("internal simulator error"), now), Stopped, true)
    case Stopped => Section(Done(r), Stopped, false)
  }

  predicate StagesSucceededBefore(r: Run, i: nat) {
    forall k | 0 <= k < i && k < |r.stages| :: r.stages[k].node.status.Succeeded?
  }

  predicate JobsSucceededBefore(r: Run, i: nat, j: nat) {
    HasStage(r, i) ==> forall k | 0 <= k < j && k < |r.stages[i].jobs| :: r.stages[i].jobs[k].node.status.Succeeded?
  }

  /** Everything the coroutine has walked past is done. */
  predicate Passed(r: Run, pc: Pc) {
    match pc
    case EnterStage(i) => StagesSucceededBefore(r, i)
    case EnterJob(i, j) => StagesSucceededBefore(r, i) && JobsSucceededBefore(r, i, j)
    case Waiting(i, j) => StagesSucceededBefore(r, i) && JobsSucceededBefore(r, i, j)
    case LeaveStage(i) => StagesSucceededBefore(r, i + 1)
    case Ending => AllStagesSucceeded(r.stages)
    case _ => true
  }

  /** What the coroutine relies on when it resumes. */
  predicate PcOk(r: Run, pc: Pc) {
    && PcIn(r, pc)
    && Passed(r, pc)
    && (pc.EnterStage? || pc.EnterJob? || pc.Waiting? || pc.LeaveStage? || pc.Ending? ==> !r.node.status.Queued?)
    && (pc.EnterJob? || pc.Waiting? || pc.LeaveStage? ==> !r.stages[pc.i].node.status.Queued?)
    && (pc.Waiting? ==> !r.stages[pc.i].jobs[pc.j].node.status.Queued?)
  }

  /** Whatever else happened meanwhile, the suspended coroutine can resume. */
  lemma ForwardKeepsPc(r: Run, q: Run, pc: Pc)
    requires PcOk(r, pc) && TreeForward(r, q)
    ensures PcOk(q, pc)
  {
    forall k | 0 <= k < |r.stages|
      ensures r.stages[k].node.status.Succeeded? ==> q.stages[k].node.status.Succeeded?
    {
      assert StageForward(r.stages[k], q.stages[k]);
    }
    if pc.EnterJob? || pc.Waiting? || pc.LeaveStage? {
      assert StageForward(r.stages[pc.i], q.stages[pc.i]);
    }
  }

  lemma JobSectionCommits(r: Run, i: nat, j: nat, now: Time)
    requires Inv(r) && PcOk(r, Waiting(i, j)) && r.node.status.Running?
    ensures var s := JobSection(r, i, j, now);
            Commits(r, s.effect) && PcOk(s.effect.run, s.next)
  {
    hide FailJob, AssertionsHold;
    assert StageInv(Running, r.stages[i]);
    assert JobInv(Running, r.stages[i].node.status, r.stages[i].jobs[j]);
    var s := JobSection(r, i, j, now);
    if r.stages[i].jobs[j].node.status.Succeeded? {
      AggregateIdle(r, i, now);
      ReflexiveCommit(r);
    } else if r.stages[i].jobs[j].shouldFail {
      FailJobCommits(r, i, j, Some("deterministic simulated failure"), now);
      InvImpliesAssertions(FailJob(r, i, j, Some("deterministic simulated failure"), now).run);
    } else {
      SucceedJobCommits(r, i, j, None, now);
      InvImpliesAssertions(AggregateStage(FinishJob(r, i, j, Succeeded, None, now).run, i, now).run);
    }
    PassedJob(r, s.effect.run, i, j);
  }

  /** Walking past job `j` once it succeeded. */
  lemma PassedJob(r: Run, q: Run, i: nat, j: nat)
    requires Inv(q) && PcOk(r, Waiting(i, j)) && TreeForward(r, q)
    ensures q.stages[i].jobs[j].node.status.Succeeded? ==> PcOk(q, AfterJob(r, i, j))
  {
    ForwardKeepsPc(r, q, Waiting(i, j));
    assert StageForward(r.stages[i], q.stages[i]);
    assert StageInv(q.node.status, q.stages[i]);
  }

  lemma StageSectionCommits(r: Run, i: nat, stopped: bool, now: Time)
    requires Inv(r) && PcOk(r, EnterStage(i))
    ensures var s := Run1(r, EnterStage(i), stopped, now);
            Commits(r, s.effect) && PcOk(s.effect.run, s.next)
  {
    ReflexiveCommit(r);
    var pc := EnterStage(i);
    assert StageInv(r.node.status, r.stages[i]);
    if r.node.status.Running? && !r.stages[i].node.status.Succeeded? {
      StartStageCommits(r, i, now);
      ForwardKeepsPc(r, StartStage(r, i, now).run, pc);
    }
  }

  lemma NextJobCommits(r: Run, i: nat, j: nat, stopped: bool, now: Time)
    requires Inv(r) && PcOk(r, EnterJob(i, j))
    ensures var s := Run1(r, EnterJob(i, j), stopped, now);
            Commits(r, s.effect) && PcOk(s.effect.run, s.next)
  {
    ReflexiveCommit(r);
    var pc := EnterJob(i, j);
    assert StageInv(r.node.status, r.stages[i]);
    assert JobInv(r.node.status, r.stages[i].node.status, r.stages[i].jobs[j]);
    AggregateIdle(r, i, now);
    if r.node.status.Running? && r.stages[i].node.status.Running? {
      if r.stages[i].jobs[j].node.status.Succeeded? {
        PassedJob(r, r, i, j);
      } else {
        StartJobCommits(r, i, j, now);
        ForwardKeepsPc(r, StartJob(r, i, j, now).run, pc);
      }
    }
  }

  /**
    From any tree that satisfies the invariant, whatever callbacks did to it since the coroutine
    was suspended, no section raises: every section commits and leaves a resumable coroutine.
   */
  lemma SectionCommits(r: Run, pc: Pc, stopped: bool, now: Time)
    requires Inv(r) && PcOk(r, pc)
    ensures var s := Run1(r, pc, stopped, now);
            Commits(r, s.effect) && PcOk(s.effect.run, s.next)
  {
    ReflexiveCommit(r);
    match pc
    case NotStarted =>
      if r.node.status.Queued? {
        StartRunCommits(r, now);
      }
    case EnterStage(i) => StageSectionCommits(r, i, stopped, now);
    case EnterJob(i, j) => NextJobCommits(r, i, j, stopped, now);
    case Waiting(i, j) =>
      if !stopped && r.node.status.Running? {
        JobSectionCommits(r, i, j, now);
      }
    case LeaveStage(i) =>
      AggregateIdle(r, i, now);
      InvImpliesAssertions(r);
    case Ending =>
      AggregateIdle(r, 0, now);
      InvImpliesAssertions(r);
    case Handling =>
      if !r.node.status.IsTerminal() {
        FailRunCommits(r, Some("internal simulator error"), now);
      }
    case Stopped =>
  }

  // ---------------------------------------------------------------------
  // Every interleaving on one run
  // ---------------------------------------------------------------------

  /** A run together with the executor coroutine suspended on it. */
  datatype Process = Process(run: Run, pc: Pc)

  datatype Move =
    | Deliver(cb: Callback, now: Time)
    | Cancel(now: Time)
    | Shutdown(now: Time)
    | Recover(now: Time)
    | Resume(stopped: bool, now: Time)
    /** The section ran but its checkpoint failed: the tree rolls back, the coroutine handles the error. */
    | ResumeUnsaved(stopped: bool, now: Time)

  /** Cancelling, shutting down and recovering leave a terminal run alone. */
  function Settle(r: Run, runMessage: string, childMessage: string, now: Time): Run {
    if r.node.status.IsTerminal() then r else CancelRun(r, Some(runMessage), childMessage, now).run
  }

  function Next(p: Process, m: Move): Process
    requires PcOk(p.run, p.pc)
  {
    match m
    case Deliver(cb, now) =>
      if cb.WellFormed() then p.(run := Handle(p.run, cb, now).run) else p
    case Cancel(now) => p.(run := Settle(p.run, "cancelled by user", "pipeline was cancelled", now))
    case Shutdown(now) =>
      Process(Settle(p.run, "pipeline service shut down", "pipeline service shut down", now), Stopped)
    case Recover(now) =>
      Process(Settle(p.run, "pipeline interrupted by service restart", "not resumed after service restart", now),
              Stopped)
    case Resume(stopped, now) =>
      var s := Run1(p.run, p.pc, stopped, now);
      Process(s.effect.run, s.next)
    case ResumeUnsaved(stopped, now) =>
      var s := Run1(p.run, p.pc, stopped, now);
      p.(pc := if !s.saves then s.next else if p.pc.Handling? then Stopped else Handling)
  }

  predicate ProcessInv(p: Process) {
    Inv(p.run) && PcOk(p.run, p.pc)
  }

  lemma SettleForward(r: Run, runMessage: string, childMessage: string, now: Time)
    requires Inv(r)
    ensures Inv(Settle(r, runMessage, childMessage, now))
    ensures TreeForward(r, Settle(r, runMessage, childMessage, now))
    ensures Settle(r, runMessage, childMessage, now).node.status.IsTerminal()
  {
    if !r.node.status.IsTerminal() {
      CancelRunCommits(r, Some(runMessage), childMessage, now);
    }
  }

  /** A section that does not checkpoint has not touched the tree. */
  lemma UnsavedSection(r: Run, pc: Pc, stopped: bool, now: Time)
    requires Inv(r) && PcOk(r, pc)
    ensures !Run1(r, pc, stopped, now).saves ==> Run1(r, pc, stopped, now).effect == Done(r)
  {
    SectionCommits(r, pc, stopped, now);
  }

  lemma NextSafe(p: Process, m: Move)
    requires ProcessInv(p)
    ensures ProcessInv(Next(p, m))
    ensures TreeForward(p.run, Next(p, m).run)
  {
    hide Inv, Handle, Run1, Settle;
    TreeForwardReflexive(p.run);
    match m
    case Deliver(cb, now) =>
      if cb.WellFormed() {
        CallbackAllOrNothing(p.run, cb, now);
        ForwardKeepsPc(p.run, Handle(p.run, cb, now).run, p.pc);
      }
    case Cancel(now) =>
      SettleForward(p.run, "cancelled by user", "pipeline was cancelled", now);
      ForwardKeepsPc(p.run, Next(p, m).run, p.pc);
    case Shutdown(now) =>
      SettleForward(p.run, "pipeline service shut down", "pipeline service shut down", now);
    case Recover(now) =>
      SettleForward(p.run, "pipeline interrupted by service restart", "not resumed after service restart", now);
    case Resume(stopped, now) =>
      SectionCommits(p.run, p.pc, stopped, now);
    case ResumeUnsaved(stopped, now) =>
      SectionCommits(p.run, p.pc, stopped, now);
      UnsavedSection(p.run, p.pc, stopped, now);
  }

  function Play(p: Process, moves: seq<Move>): (q: Process)
    requires ProcessInv(p)
    ensures ProcessInv(q)
    decreases |moves|
  {
    if moves == [] then p
    else
      NextSafe(p, moves[0]);
      Play(Next(p, moves[0]), moves[1..])
  }

  /**
    Over every interleaving of executor sections, callbacks, cancels, shutdowns, recoveries and
    failed saves: the tree invariant holds, the internal assertions can never fire, no node moves
    backwards and every terminal node keeps its status, message and timestamps.
   */
  lemma {:induction false} EveryInterleavingIsSafe(p: Process, moves: seq<Move>)
    requires ProcessInv(p)
    ensures Inv(Play(p, moves).run) && AssertionsHold(Play(p, moves).run)
    ensures TreeForward(p.run, Play(p, moves).run)
    decreases |moves|
  {
    InvImpliesAssertions(Play(p, moves).run);
    if moves != [] {
      NextSafe(p, moves[0]);
      EveryInterleavingIsSafe(Next(p, moves[0]), moves[1..]);
      TreeForwardTransitive(p.run, Next(p, moves[0]).run, Play(p, moves).run);
    }
  }

  // ---------------------------------------------------------------------
  // When the executor gives up on a run that is still running
  // ---------------------------------------------------------------------

  lemma JobSectionStops(r: Run, i: nat, j: nat, now: Time)
    requires Inv(r) && PcOk(r, Waiting(i, j)) && r.node.status.Running?
    ensures JobSection(r, i, j, now).next.Stopped? ==> JobSection(r, i, j, now).effect.run.node.status.Failed?
  {
    hide FailJob, AssertionsHold, AggregateStage;
    JobSectionCommits(r, i, j, now);
    assert StageInv(Running, r.stages[i]);
    assert JobInv(Running, r.stages[i].node.status, r.stages[i].jobs[j]);
    if r.stages[i].jobs[j].shouldFail && !r.stages[i].jobs[j].node.status.Succeeded? {
      FailJobCommits(r, i, j, Some("deterministic simulated failure"), now);
    }
  }

  lemma SectionAbandons(r: Run, pc: Pc, stopped: bool, now: Time)
    requires Inv(r) && PcOk(r, pc) && !pc.Stopped?
    requires stopped ==> r.node.status.IsTerminal()
    ensures var s := Run1(r, pc, stopped, now);
            s.next.Stopped? && !s.effect.run.node.status.IsTerminal()
            <==> r.node.status.Running? && (pc.NotStarted? || (pc.EnterJob? && r.stages[pc.i].node.status.Succeeded?))
    ensures var s := Run1(r, pc, stopped, now);
            !s.saves && s.next.Stopped? ==> s.effect == Done(r)
    ensures pc.Handling? ==> (Run1(r, pc, stopped, now).saves <==> !r.node.status.IsTerminal())
  {
    match pc
    case Waiting(i, j) =>
      if r.node.status.Running? {
        JobSectionStops(r, i, j, now);
      }
    case EnterStage(i) =>
      assert StageInv(r.node.status, r.stages[i]);
    case EnterJob(i, j) =>
      assert StageInv(r.node.status, r.stages[i]);
    case Handling =>
      if !r.node.status.IsTerminal() {
        FailRunCommits(r, Some("internal simulator error"), now);
      }
    case _ =>
  }

  /**
    What the wait before a section returned is true to the run: a set cancellation event means that the run has ended.
   */
  predicate Honest(p: Process, m: Move) {
    (m.Resume? || m.ResumeUnsaved?) && m.stopped ==> p.run.node.status.IsTerminal()
  }

  /**
    Whatever happens next, an executor that has not stopped stops and leaves an unfinished run behind in exactly
    three cases: it wakes up for the first time on a run a provider has started, callbacks have finished its stage
    before its next job, or the save fails with which it would have recorded an earlier error.
   */
  lemma AbandonsExactlyWhen(p: Process, m: Move)
    requires ProcessInv(p) && !p.pc.Stopped? && Honest(p, m)
    ensures Next(p, m).pc.Stopped? && !Next(p, m).run.node.status.IsTerminal() <==>
            || (p.run.node.status.Running? && p.pc.NotStarted? && (m.Resume? || m.ResumeUnsaved?))
            || (p.run.node.status.Running? && p.pc.EnterJob? && p.run.stages[p.pc.i].node.status.Succeeded?
                && (m.Resume? || m.ResumeUnsaved?))
            || (!p.run.node.status.IsTerminal() && p.pc.Handling? && m.ResumeUnsaved?)
  {
    hide Inv, Run1, Handle, Settle, PcOk;
    match m
    case Deliver(_, _) =>
    case Cancel(_) =>
    case Shutdown(now) =>
      SettleForward(p.run, "pipeline service shut down", "pipeline service shut down", now);
    case Recover(now) =>
      SettleForward(p.run, "pipeline interrupted by service restart", "not resumed after service restart", now);
    case Resume(stopped, now) =>
      SectionAbandons(p.run, p.pc, stopped, now);
    case ResumeUnsaved(stopped, now) =>
      SectionAbandons(p.run, p.pc, stopped, now);
      SavingSections(p.run, p.pc, stopped, now);
  }

  /** Which sections checkpoint: those that stop the executor on a run that is still running do not. */
  lemma SavingSections(r: Run, pc: Pc, stopped: bool, now: Time)
    requires Inv(r) && PcOk(r, pc)
    ensures r.node.status.Running? && (pc.NotStarted? || (pc.EnterJob? && r.stages[pc.i].node.status.Succeeded?)) ==>
              !Run1(r, pc, stopped, now).saves
    ensures Run1(r, pc, stopped, now).effect.Done? || !Run1(r, pc, stopped, now).saves
  {
    SectionCommits(r, pc, stopped, now);
    if pc.EnterJob? {
      assert StageInv(r.node.status, r.stages[pc.i]);
    }
  }

  const WAITING_JOB := Stage("build", NEW_NODE, [Job("compile", 1, false, NEW_NODE)])

  lemma SmallRunInv(node: Node)
    requires node == NEW_NODE || node == Node(Running, Some(0), None, None)
    ensures Inv(Run("run", "pipeline", 0, node, [WAITING_JOB]))
  {
    assert !WAITING_JOB.jobs[0].node.status.Succeeded?;
    assert StageInv(node.status, WAITING_JOB);
    assert ![WAITING_JOB][0].node.status.Succeeded?;
  }

  /** The first case on a concrete run: the provider reports the run as running before the executor's first section. */
  lemma ProvidersCanStrandTheRun()
    ensures var r := Run("run", "pipeline", 0, NEW_NODE, [WAITING_JOB]);
            var p := Process(r, NotStarted);
            var started := Deliver(Callback("event", PipelineTarget, Running, None, None, None), 0);
            && ProcessInv(p) && ProcessInv(Next(p, started))
            && Next(Next(p, started), Resume(false, 1))
               == Process(r.(node := Node(Running, Some(0), None, None)), Stopped)
  {
    hide FailRun, FailJob, CancelRun, JobSection;
    SmallRunInv(NEW_NODE);
    SmallRunInv(Node(Running, Some(0), None, None));
    var r := Run("run", "pipeline", 0, NEW_NODE, [WAITING_JOB]);
    var p := Process(r, NotStarted);
    var q := r.(node := Node(Running, Some(0), None, None));
    InvImpliesAssertions(q);
    assert Handle(r, Callback("event", PipelineTarget, Running, None, None, None), 0) == Done(q);
  }

  /** The third case on a concrete run: two saves in a row fail, and the queued run has no executor. */
  lemma FailedSavesCanStrandTheRun()
    ensures var r := Run("run", "pipeline", 0, NEW_NODE, [WAITING_JOB]);
            var p := Process(r, NotStarted);
            && ProcessInv(p) && ProcessInv(Next(p, ResumeUnsaved(false, 0)))
            && Next(Next(p, ResumeUnsaved(false, 0)), ResumeUnsaved(false, 1)) == Process(r, Stopped)
  {
    hide FailJob, CancelRun, JobSection, Inv, AssertionsHold, AggregateStage, AggregateRun;
    SmallRunInv(NEW_NODE);
    var r := Run("run", "pipeline", 0, NEW_NODE, [WAITING_JOB]);
    assert Run1(r, NotStarted, false, 0).saves;
    FailRunCommits(r, Some("internal simulator error"), 1);
  }

  const GOING := Node(Running, Some(0), None, None)

  /** A run in its first stage, with one job done and one to go, and another stage after it. */
  const HALF_BUILT := Run("run", "pipeline", 0, GOING, [
    Stage("build", GOING, [Job("compile", 1, false, Node(Succeeded, Some(0), Some(0), None)),
                           Job("link", 1, false, NEW_NODE)]),
    Stage("check", NEW_NODE, [Job("unit", 1, false, NEW_NODE)])])

  lemma HalfBuiltInv()
    ensures Inv(HALF_BUILT) && PcOk(HALF_BUILT, EnterJob(0, 1))
  {
    var build, check := HALF_BUILT.stages[0], HALF_BUILT.stages[1];
    assert !build.jobs[1].node.status.Succeeded? && !check.jobs[0].node.status.Succeeded?;
    assert !AllJobsSucceeded(build.jobs) && !AllJobsSucceeded(check.jobs);
    assert StageInv(Running, build) && StageInv(Running, check);
    assert !HALF_BUILT.stages[1].node.status.Succeeded?;
  }

  /**
    The second case on a concrete run: a callback finishes the last job of a stage, and the executor stops while the
    run goes on.
   */
  lemma CallbacksCanStrandTheRun()
    ensures var r := HALF_BUILT;
            var cb := Callback("event", JobTarget, Succeeded, Some("build"), Some("link"), None);
            var q := ApplyToJob(r, 0, 1, cb, 1);
            && Inv(r) && PcOk(r, EnterJob(0, 1))
            && Validate(r, cb, AtJob(0, 1)).None? && q.Done? && HasJob(q.run, 0, 1)
            && q.run.node.status.Running? && q.run.stages[1].node.status.Queued?
            && Run1(q.run, EnterJob(0, 1), false, 1) == Section(Done(q.run), Stopped, false)
  {
    HalfBuiltInv();
    hide FailRun, FailJob, CancelRun, CancelUnfinishedJobs, JobSection, Inv;
    var r := HALF_BUILT;
    var cb := Callback("event", JobTarget, Succeeded, Some("build"), Some("link"), None);
    var build, check := r.stages[0], r.stages[1];
    var linked := build.jobs[1].(node := Node(Succeeded, Some(1), Some(1), None));
    var q := ApplyToJob(r, 0, 1, cb, 1);
    assert q.run.stages[0].jobs == [build.jobs[0], linked];
    assert AllJobsSucceeded(q.run.stages[0].jobs);
    assert q.run.stages[1] == check && !AllStagesSucceeded(q.run.stages);
    assert Validate(r, cb, AtJob(0, 1)).None?;
    assert q.run.stages[0].node.status.Succeeded?;
    assert Run1(q.run, EnterJob(0, 1), false, 1) == Section(Done(q.run), Stopped, false);
  }
}
