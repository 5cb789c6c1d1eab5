/**
  The run tree of the pipeline simulator: a run owns stages, a stage owns jobs,
  and each of the three carries the same result node.  Mutations that raise half
  way keep what they already wrote, as the objects mutated in place do.
 */
module PipelineTree {
  import opened Common

  type Time = int
  type RunId = string
  type Message = Option<string>

  datatype Status = Queued | Running | Succeeded | Failed | Cancelled {
    predicate IsTerminal() {
      Succeeded? || Failed? || Cancelled?
    }

    /** Position in the lifecycle; a node never moves to a lower rank. */
    function Rank(): nat {
      if Queued? then 0 else if Running? then 1 else 2
    }
  }

  datatype Node = Node(status: Status, startedAt: Option<Time>, finishedAt: Option<Time>, message: Message)

  datatype Job = Job(name: string, durationMs: nat, shouldFail: bool, node: Node)

  datatype Stage = Stage(name: string, node: Node, jobs: seq<Job>)

  datatype Run = Run(id: RunId, name: string, createdAt: Time, node: Node, stages: seq<Stage>)

  datatype Error =
    | TransitionError
    | InvariantError
    | TargetNotFound
    | RunNotFound
    | IdempotencyConflict
    | ServiceClosed
    | StorageError

  const NEW_NODE := Node(Queued, None, None, None)

  // ---------------------------------------------------------------------
  // One result node
  // ---------------------------------------------------------------------

  predicate Allowed(from: Status, to: Status) {
    match from
    case Queued => to.Running? || to.Cancelled?
    case Running => to.IsTerminal()
    case _ => false
  }

  /** None stands for a raised transition error; the node is then unchanged. */
  function Transition(n: Node, to: Status, message: Message, now: Time): Option<Node> {
    if n.status == to then
      Some(n)
    else if !Allowed(n.status, to) then
      None
    else
      Some(Node(to,
                if to.Running? && n.startedAt.None? then Some(now) else n.startedAt,
                if to.IsTerminal() then Some(now) else n.finishedAt,
                if message.Some? then message else n.message))
  }

  function Start(n: Node, now: Time): Option<Node> {
    if n.status.Queued? then Transition(n, Running, None, now)
    else if n.status.Running? then Some(n)
    else None
  }

  function Finish(n: Node, to: Status, message: Message, now: Time): Option<Node>
    requires to.IsTerminal()
  {
    if n.status == to then
      Some(n)
    else
      var m :- if n.status.Queued? && !to.Cancelled? then Start(n, now) else Some(n);
      Transition(m, to, message, now)
  }

  // ---------------------------------------------------------------------
  // Whole-tree mutations
  // ---------------------------------------------------------------------

  /** Raised keeps the tree as far as it was mutated before the error. */
  datatype Effect = Done(run: Run) | Raised(run: Run, error: Error) {
    predicate IsFailure() {
      Raised?
    }

    function PropagateFailure(): Effect
      requires Raised?
    {
      this
    }

    function Extract(): Run
      requires Done?
    {
      run
    }
  }

  predicate HasStage(r: Run, i: int) {
    0 <= i < |r.stages|
  }

  predicate HasJob(r: Run, i: int, j: int) {
    HasStage(r, i) && 0 <= j < |r.stages[i].jobs|
  }

  function SetRun(r: Run, n: Option<Node>): Effect {
    if n.None? then Raised(r, TransitionError) else Done(r.(node := n.value))
  }

  function SetStage(r: Run, i: nat, n: Option<Node>): Effect
    requires HasStage(r, i)
  {
    if n.None? then Raised(r, TransitionError)
    else Done(r.(stages := r.stages[i := r.stages[i].(node := n.value)]))
  }

  function SetJob(r: Run, i: nat, j: nat, n: Option<Node>): Effect
    requires HasJob(r, i, j)
  {
    if n.None? then Raised(r, TransitionError)
    else
      var stage := r.stages[i];
      Done(r.(stages := r.stages[i := stage.(jobs := stage.jobs[j := stage.jobs[j].(node := n.value)])]))
  }

  function StartRun(r: Run, now: Time): Effect {
    SetRun(r, Start(r.node, now))
  }

  function StartStage(r: Run, i: nat, now: Time): Effect
    requires HasStage(r, i)
  {
    SetStage(r, i, Start(r.stages[i].node, now))
  }

  function StartJob(r: Run, i: nat, j: nat, now: Time): Effect
    requires HasJob(r, i, j)
  {
    SetJob(r, i, j, Start(r.stages[i].jobs[j].node, now))
  }

  function FinishRun(r: Run, to: Status, message: Message, now: Time): Effect
    requires to.IsTerminal()
  {
    SetRun(r, Finish(r.node, to, message, now))
  }

  function FinishStage(r: Run, i: nat, to: Status, message: Message, now: Time): Effect
    requires HasStage(r, i) && to.IsTerminal()
  {
    SetStage(r, i, Finish(r.stages[i].node, to, message, now))
  }

  function FinishJob(r: Run, i: nat, j: nat, to: Status, message: Message, now: Time): Effect
    requires HasJob(r, i, j) && to.IsTerminal()
  {
    SetJob(r, i, j, Finish(r.stages[i].jobs[j].node, to, message, now))
  }

  /** Cancelling an unfinished node cannot raise. */
  function CancelNode(n: Node, message: string, now: Time): (m: Node)
    ensures m.status.IsTerminal()
    ensures n.status.IsTerminal() ==> m == n
    ensures !n.status.IsTerminal() ==> m == Node(Cancelled, n.startedAt, Some(now), Some(message))
    ensures !n.status.IsTerminal() ==> Finish(n, Cancelled, Some(message), now) == Some(m)
  {
    if n.status.IsTerminal() then n else Finish(n, Cancelled, Some(message), now).value
  }

  function CancelJob(job: Job, message: string, now: Time): Job {
    job.(node := CancelNode(job.node, message, now))
  }

  function CancelJobs(jobs: seq<Job>, message: string, now: Time): (c: seq<Job>)
    ensures |c| == |jobs|
    ensures forall j | 0 <= j < |jobs| :: c[j] == CancelJob(jobs[j], message, now)
  {
    seq(|jobs|, j requires 0 <= j < |jobs| => CancelJob(jobs[j], message, now))
  }

  function CancelStage(stage: Stage, message: string, now: Time): Stage {
    stage.(node := CancelNode(stage.node, message, now), jobs := CancelJobs(stage.jobs, message, now))
  }

  /** The jobs of one stage only. */
  function CancelUnfinishedJobs(r: Run, i: nat, message: string, now: Time): Run
    requires HasStage(r, i)
  {
    r.(stages := r.stages[i := r.stages[i].(jobs := CancelJobs(r.stages[i].jobs, message, now))])
  }

  function CancelStages(stages: seq<Stage>, message: string, now: Time): (c: seq<Stage>)
    ensures |c| == |stages|
    ensures forall i | 0 <= i < |stages| :: c[i] == CancelStage(stages[i], message, now)
  {
    seq(|stages|, i requires 0 <= i < |stages| => CancelStage(stages[i], message, now))
  }

  function CancelUnfinishedChildren(r: Run, message: string, now: Time): Run {
    r.(stages := CancelStages(r.stages, message, now))
  }

  predicate AllJobsSucceeded(jobs: seq<Job>) {
    forall j | 0 <= j < |jobs| :: jobs[j].node.status.Succeeded?
  }

  predicate AllStagesSucceeded(stages: seq<Stage>) {
    forall i | 0 <= i < |stages| :: stages[i].node.status.Succeeded?
  }

  /** `_mark_terminal`: a check only. */
  function MarkTerminal(r: Run): Effect {
    if r.node.status.IsTerminal() then Done(r) else Raised(r, InvariantError)
  }

  function AggregateRun(r: Run, now: Time): Effect {
    if AllStagesSucceeded(r.stages) then
      var r1 :- FinishRun(r, Succeeded, None, now);
      MarkTerminal(r1)
    else
      Done(r)
  }

  function AggregateStage(r: Run, i: nat, now: Time): Effect
    requires HasStage(r, i)
  {
    var r1 :- if AllJobsSucceeded(r.stages[i].jobs) then FinishStage(r, i, Succeeded, None, now) else Done(r);
    AggregateRun(r1, now)
  }

  function FailRun(r: Run, message: Message, now: Time): Effect {
    var r1 :- FinishRun(r, Failed, message, now);
    MarkTerminal(CancelUnfinishedChildren(r1, "not executed after the pipeline failed", now))
  }

  function FailJob(r: Run, i: nat, j: nat, message: Message, now: Time): Effect
    requires HasJob(r, i, j)
  {
    var stageName := r.stages[i].name;
    var jobName := r.stages[i].jobs[j].name;
    var r1 :- FinishJob(r, i, j, Failed, message, now);
    var r2 :- FinishStage(r1, i, Failed, Some("job " + jobName + " failed"), now);
    var r3 := CancelUnfinishedJobs(r2, i, "not executed after an earlier job failed", now);
    FailRun(r3, Some("stage " + stageName + ", job " + jobName + " failed"), now)
  }

  /** Body shared by cancel, shutdown and restart recovery. */
  function CancelRun(r: Run, runMessage: Message, childMessage: string, now: Time): Effect {
    var r1 :- FinishRun(r, Cancelled, runMessage, now);
    MarkTerminal(CancelUnfinishedChildren(r1, childMessage, now))
  }

  /** The condition `_assert_run_invariants` tests before each commit. */
  predicate AssertionsHold(r: Run) {
    && (forall i | 0 <= i < |r.stages| ::
          && (r.stages[i].node.status.Succeeded? ==> AllJobsSucceeded(r.stages[i].jobs))
          && (r.stages[i].node.status.IsTerminal() ==>
                forall j | 0 <= j < |r.stages[i].jobs| :: r.stages[i].jobs[j].node.status.IsTerminal()))
    && (r.node.status.Succeeded? ==> AllStagesSucceeded(r.stages))
    && (r.node.status.IsTerminal() ==>
          forall i | 0 <= i < |r.stages| :: r.stages[i].node.status.IsTerminal())
  }

  // ---------------------------------------------------------------------
  // The inductive invariant
  // ---------------------------------------------------------------------

  /** Timestamps agree with the status. */
  predicate NodeInv(n: Node) {
    && (n.status.Queued? ==> n.startedAt.None?)
    && (n.startedAt.None? ==> n.status.Queued? || n.status.Cancelled?)
    && (n.finishedAt.Some? <==> n.status.IsTerminal())
  }

  predicate JobInv(run: Status, stage: Status, job: Job) {
    var s := job.node.status;
    && NodeInv(job.node)
    && (s.Running? ==> stage.Running?)
    && (s.Failed? ==> stage.Failed?)
    && (s.Cancelled? ==> run.IsTerminal() && stage.IsTerminal())
    && (stage.Queued? ==> s.Queued?)
    && (stage.IsTerminal() ==> s.IsTerminal())
  }

  predicate StageInv(run: Status, stage: Stage) {
    var s := stage.node.status;
    && NodeInv(stage.node)
    && |stage.jobs| > 0
    && (forall j | 0 <= j < |stage.jobs| :: JobInv(run, s, stage.jobs[j]))
    && (s.Succeeded? <==> AllJobsSucceeded(stage.jobs))
    && (s.Running? ==> run.Running?)
    && (s.Failed? ==> run.Failed?)
    && (s.Cancelled? ==> run.IsTerminal())
    && (run.Queued? ==> s.Queued?)
    && (run.IsTerminal() ==> s.IsTerminal())
  }

  predicate Inv(r: Run) {
    && NodeInv(r.node)
    && |r.stages| > 0
    && (forall i | 0 <= i < |r.stages| :: StageInv(r.node.status, r.stages[i]))
    && (r.node.status.Succeeded? <==> AllStagesSucceeded(r.stages))
  }

  /** A node only moves forward, and a terminal node is frozen: status, message and timestamps. */
  predicate Forward(n: Node, m: Node) {
    && n.status.Rank() <= m.status.Rank()
    && (n.status.IsTerminal() ==> m == n)
    && (n.startedAt.Some? ==> m.startedAt == n.startedAt)
  }

  predicate StageForward(s: Stage, t: Stage) {
    && t.name == s.name
    && Forward(s.node, t.node)
    && |t.jobs| == |s.jobs|
    && (forall j | 0 <= j < |s.jobs| ::
          t.jobs[j] == s.jobs[j].(node := t.jobs[j].node) && Forward(s.jobs[j].node, t.jobs[j].node))
  }

  /** Same shape, and every node moved forward. */
  predicate TreeForward(r: Run, q: Run) {
    && q == r.(node := q.node, stages := q.stages)
    && Forward(r.node, q.node)
    && |q.stages| == |r.stages|
    && (forall i | 0 <= i < |r.stages| :: StageForward(r.stages[i], q.stages[i]))
  }

  lemma TreeForwardReflexive(r: Run)
    ensures TreeForward(r, r)
  {
  }

  lemma TreeForwardTransitive(r: Run, q: Run, s: Run)
    requires TreeForward(r, q) && TreeForward(q, s)
    ensures TreeForward(r, s)
  {
    forall i | 0 <= i < |r.stages|
      ensures StageForward(r.stages[i], s.stages[i])
    {
      assert StageForward(r.stages[i], q.stages[i]) && StageForward(q.stages[i], s.stages[i]);
    }
  }

  /** A mutation that returns normally, moves forward and re-establishes the invariant. */
  predicate Commits(r: Run, e: Effect) {
    e.Done? && Inv(e.run) && TreeForward(r, e.run)
  }

  lemma InvImpliesAssertions(r: Run)
    requires Inv(r)
    ensures AssertionsHold(r)
  {
    forall i | 0 <= i < |r.stages|
      ensures r.stages[i].node.status.IsTerminal() ==>
                forall j | 0 <= j < |r.stages[i].jobs| :: r.stages[i].jobs[j].node.status.IsTerminal()
    {
      assert StageInv(r.node.status, r.stages[i]);
    }
  }

  /** Sweeping one stage of an active run that is about to fail or be cancelled. */
  lemma SweepStage(run: Status, stage: Stage, to: Status, message: string, now: Time)
    requires StageInv(run, stage) && !run.IsTerminal()
    requires to.Failed? || to.Cancelled?
    ensures StageInv(to, CancelStage(stage, message, now))
    ensures StageForward(stage, CancelStage(stage, message, now))
    ensures CancelStage(stage, message, now).node.status.Succeeded? <==> stage.node.status.Succeeded?
  {
    var c := CancelStage(stage, message, now);
    forall j | 0 <= j < |stage.jobs|
      ensures JobInv(to, c.node.status, c.jobs[j])
      ensures c.jobs[j].node.status.Succeeded? <==> stage.jobs[j].node.status.Succeeded?
      ensures c.jobs[j] == stage.jobs[j].(node := c.jobs[j].node) && Forward(stage.jobs[j].node, c.jobs[j].node)
    {
      assert JobInv(run, stage.node.status, stage.jobs[j]);
    }
  }

  /** A failed or cancelled run with all children swept satisfies the invariant again. */
  lemma SweepRestores(r: Run, to: Status, q: Run, message: string, now: Time)
    requires Inv(r) && !r.node.status.IsTerminal()
    requires to.Failed? || to.Cancelled?
    requires q == r.(node := q.node) && q.node.status == to && NodeInv(q.node) && Forward(r.node, q.node)
    ensures Inv(CancelUnfinishedChildren(q, message, now))
    ensures TreeForward(r, CancelUnfinishedChildren(q, message, now))
  {
    var s := CancelUnfinishedChildren(q, message, now);
    forall i | 0 <= i < |r.stages|
      ensures StageInv(to, s.stages[i]) && StageForward(r.stages[i], s.stages[i])
      ensures s.stages[i].node.status.Succeeded? <==> r.stages[i].node.status.Succeeded?
    {
      SweepStage(r.node.status, r.stages[i], to, message, now);
    }
  }

  /** Cancel, shutdown and recovery: never raises on an active run, and keeps the invariant. */
  lemma CancelRunCommits(r: Run, runMessage: Message, childMessage: string, now: Time)
    requires Inv(r) && !r.node.status.IsTerminal()
    ensures Commits(r, CancelRun(r, runMessage, childMessage, now))
    ensures CancelRun(r, runMessage, childMessage, now).run.node.status.Cancelled?
  {
    var q := FinishRun(r, Cancelled, runMessage, now).run;
    SweepRestores(r, Cancelled, q, childMessage, now);
  }

  lemma FailRunCommits(r: Run, message: Message, now: Time)
    requires Inv(r) && !r.node.status.IsTerminal()
    ensures Commits(r, FailRun(r, message, now))
    ensures FailRun(r, message, now).run.node.status.Failed?
  {
    var q := FinishRun(r, Failed, message, now).run;
    SweepRestores(r, Failed, q, "not executed after the pipeline failed", now);
  }

  /** `broken` is an active stage brought to a failed or cancelled end, all of its jobs settled. */
  predicate Breaks(run: Status, stage: Stage, to: Status, broken: Stage) {
    && StageForward(stage, broken)
    && StageInv(to, broken)
    && (broken.node.status.Failed? || broken.node.status.Cancelled?)
  }

  /** Sweeping the other stages after one of them broke. */
  lemma SweepBroken(r: Run, i: nat, broken: Stage, to: Status, q: Run, message: string, now: Time)
    requires Inv(r) && !r.node.status.IsTerminal() && HasStage(r, i)
    requires to.Failed? || to.Cancelled?
    requires Breaks(r.node.status, r.stages[i], to, broken)
    requires q == r.(node := q.node, stages := r.stages[i := broken])
    requires q.node.status == to && NodeInv(q.node) && Forward(r.node, q.node)
    ensures Inv(CancelUnfinishedChildren(q, message, now))
    ensures TreeForward(r, CancelUnfinishedChildren(q, message, now))
  {
    var s := CancelUnfinishedChildren(q, message, now);
    forall k | 0 <= k < |r.stages|
      ensures StageInv(to, s.stages[k]) && StageForward(r.stages[k], s.stages[k])
    {
      if k == i {
        SettledStageUnswept(to, broken, message, now);
      } else {
        SweepStage(r.node.status, r.stages[k], to, message, now);
      }
    }
    assert !s.stages[i].node.status.Succeeded?;
  }

  lemma SettledStageUnswept(run: Status, stage: Stage, message: string, now: Time)
    requires StageInv(run, stage) && stage.node.status.IsTerminal()
    ensures CancelStage(stage, message, now) == stage
  {
    forall j | 0 <= j < |stage.jobs|
      ensures CancelJob(stage.jobs[j], message, now) == stage.jobs[j]
    {
      assert JobInv(run, stage.node.status, stage.jobs[j]);
    }
    assert CancelJobs(stage.jobs, message, now) == stage.jobs;
  }

  /** Ending an active stage, after optionally settling one of its active jobs, breaks it. */
  lemma EndedStageBreaks(run: Status, stage: Stage, to: Status, node: Node, k: Option<nat>, jobNode: Node,
                         message: string, now: Time)
    requires StageInv(run, stage) && !run.IsTerminal() && !stage.node.status.IsTerminal()
    requires to.IsTerminal() && NodeInv(node) && Forward(stage.node, node)
    requires node.status.Cancelled? || (node.status.Failed? && to.Failed?)
    requires k.Some? ==>
               && k.value < |stage.jobs| && NodeInv(jobNode) && Forward(stage.jobs[k.value].node, jobNode)
               && (jobNode.status.Cancelled? || (jobNode.status.Failed? && node.status.Failed?))
    ensures var settled := if k.Some? then stage.jobs[k.value := stage.jobs[k.value].(node := jobNode)] else stage.jobs;
            Breaks(run, stage, to, stage.(node := node, jobs := CancelJobs(settled, message, now)))
  {
    var settled := if k.Some? then stage.jobs[k.value := stage.jobs[k.value].(node := jobNode)] else stage.jobs;
    var b := stage.(node := node, jobs := CancelJobs(settled, message, now));
    forall j | 0 <= j < |stage.jobs|
      ensures JobInv(to, node.status, b.jobs[j])
      ensures b.jobs[j] == stage.jobs[j].(node := b.jobs[j].node) && Forward(stage.jobs[j].node, b.jobs[j].node)
      ensures b.jobs[j].node.status.Succeeded? ==> stage.jobs[j].node.status.Succeeded?
    {
      assert JobInv(run, stage.node.status, stage.jobs[j]);
      assert b.jobs[j] == CancelJob(settled[j], message, now);
    }
    var u :| 0 <= u < |stage.jobs| && !stage.jobs[u].node.status.Succeeded?;
    assert !b.jobs[u].node.status.Succeeded?;
  }

  /** The stage a failing job leaves behind. */
  function FailedStage(stage: Stage, j: nat, message: Message, now: Time): Stage
    requires j < |stage.jobs| && !stage.node.status.IsTerminal() && !stage.jobs[j].node.status.IsTerminal()
  {
    var job := stage.jobs[j];
    stage.(node := Finish(stage.node, Failed, Some("job " + job.name + " failed"), now).value,
           jobs := CancelJobs(stage.jobs[j := job.(node := Finish(job.node, Failed, message, now).value)],
                              "not executed after an earlier job failed", now))
  }

  /** The run after a failing job, before the remaining stages are swept. */
  function FailedRun(r: Run, i: nat, j: nat, message: Message, now: Time): Run
    requires HasJob(r, i, j) && !r.node.status.IsTerminal()
    requires !r.stages[i].node.status.IsTerminal() && !r.stages[i].jobs[j].node.status.IsTerminal()
  {
    var runMessage := Some("stage " + r.stages[i].name + ", job " + r.stages[i].jobs[j].name + " failed");
    r.(node := Finish(r.node, Failed, runMessage, now).value,
       stages := r.stages[i := FailedStage(r.stages[i], j, message, now)])
  }

  lemma FailJobComputed(r: Run, i: nat, j: nat, message: Message, now: Time)
    requires HasJob(r, i, j) && !r.node.status.IsTerminal()
    requires !r.stages[i].node.status.IsTerminal() && !r.stages[i].jobs[j].node.status.IsTerminal()
    ensures FailJob(r, i, j, message, now)
         == Done(CancelUnfinishedChildren(FailedRun(r, i, j, message, now), "not executed after the pipeline failed",
                                          now))
  {
    var stage := r.stages[i];
    var job := stage.jobs[j];
    var r1 := FinishJob(r, i, j, Failed, message, now).run;
    var r2 := FinishStage(r1, i, Failed, Some("job " + job.name + " failed"), now).run;
    var r3 := CancelUnfinishedJobs(r2, i, "not executed after an earlier job failed", now);
    assert r3.stages == r.stages[i := FailedStage(stage, j, message, now)];
  }

  /** A failing job fails its stage and its run and cancels everything unfinished. */
  lemma FailJobCommits(r: Run, i: nat, j: nat, message: Message, now: Time)
    requires Inv(r) && !r.node.status.IsTerminal() && HasJob(r, i, j)
    requires !r.stages[i].jobs[j].node.status.IsTerminal()
    ensures Commits(r, FailJob(r, i, j, message, now))
    ensures FailJob(r, i, j, message, now).run.node.status.Failed?
  {
    var stage := r.stages[i];
    assert StageInv(r.node.status, stage) && JobInv(r.node.status, stage.node.status, stage.jobs[j]);
    var q := FailedRun(r, i, j, message, now);
    var broken := FailedStage(stage, j, message, now);
    EndedStageBreaks(r.node.status, stage, Failed, broken.node, Some(j),
                     Finish(stage.jobs[j].node, Failed, message, now).value,
                     "not executed after an earlier job failed", now);
    SweepBroken(r, i, broken, Failed, q, "not executed after the pipeline failed", now);
    FailJobComputed(r, i, j, message, now);
  }

  // ---------------------------------------------------------------------
  // Starting nodes and aggregating success
  // ---------------------------------------------------------------------

  lemma StartRunCommits(r: Run, now: Time)
    requires Inv(r) && !r.node.status.IsTerminal()
    ensures Commits(r, StartRun(r, now))
    ensures StartRun(r, now).run.node.status.Running?
    ensures StartRun(r, now).run.stages == r.stages
  {
    var q := StartRun(r, now).run;
    forall i | 0 <= i < |r.stages|
      ensures StageInv(Running, q.stages[i]) && StageForward(r.stages[i], q.stages[i])
    {
      assert StageInv(r.node.status, r.stages[i]);
      forall j | 0 <= j < |r.stages[i].jobs|
        ensures JobInv(Running, q.stages[i].node.status, q.stages[i].jobs[j])
      {
        assert JobInv(r.node.status, r.stages[i].node.status, r.stages[i].jobs[j]);
      }
    }
  }

  /** Replacing stage `i` by one that fits keeps the rest of the tree. */
  lemma ReplaceStageCommits(r: Run, i: nat, stage: Stage)
    requires Inv(r) && r.node.status.Running? && HasStage(r, i)
    requires StageInv(Running, stage) && StageForward(r.stages[i], stage)
    requires !stage.node.status.Succeeded?
    ensures Commits(r, Done(r.(stages := r.stages[i := stage])))
  {
    var q := r.(stages := r.stages[i := stage]);
    assert !q.stages[i].node.status.Succeeded?;
  }

  lemma StartStageCommits(r: Run, i: nat, now: Time)
    requires Inv(r) && r.node.status.Running? && HasStage(r, i) && !r.stages[i].node.status.IsTerminal()
    ensures Commits(r, StartStage(r, i, now))
    ensures StartStage(r, i, now).run
            == r.(stages := r.stages[i := r.stages[i].(node := Start(r.stages[i].node, now).value)])
    ensures StartStage(r, i, now).run.stages[i].node.status.Running?
  {
    var stage := StartStage(r, i, now).run.stages[i];
    assert StageInv(Running, r.stages[i]);
    forall j | 0 <= j < |stage.jobs|
      ensures JobInv(Running, Running, stage.jobs[j])
    {
      assert JobInv(Running, r.stages[i].node.status, r.stages[i].jobs[j]);
    }
    ReplaceStageCommits(r, i, stage);
  }

  lemma StartJobCommits(r: Run, i: nat, j: nat, now: Time)
    requires Inv(r) && r.node.status.Running? && HasJob(r, i, j) && r.stages[i].node.status.Running?
    requires !r.stages[i].jobs[j].node.status.IsTerminal()
    ensures Commits(r, StartJob(r, i, j, now))
    ensures StartJob(r, i, j, now).run.stages[i].jobs[j].node.status.Running?
    ensures StartJob(r, i, j, now).run.stages[i].node == r.stages[i].node
  {
    var stage := StartJob(r, i, j, now).run.stages[i];
    assert StageInv(Running, r.stages[i]);
    forall k | 0 <= k < |stage.jobs|
      ensures JobInv(Running, Running, stage.jobs[k])
    {
      assert JobInv(Running, Running, r.stages[i].jobs[k]);
    }
    assert !stage.jobs[j].node.status.Succeeded?;
    ReplaceStageCommits(r, i, stage);
  }

  /** On a tree that already satisfies the invariant, aggregation finds nothing to do. */
  lemma AggregateIdle(r: Run, i: nat, now: Time)
    requires Inv(r) && HasStage(r, i)
    ensures AggregateStage(r, i, now) == Done(r)
    ensures AggregateRun(r, now) == Done(r)
  {
    assert StageInv(r.node.status, r.stages[i]);
    assert r.stages[i := r.stages[i].(node := r.stages[i].node)] == r.stages;
  }

  /** The stage after one of its jobs succeeded and success was aggregated. */
  function SucceededStage(stage: Stage, j: nat, message: Message, now: Time): Stage
    requires j < |stage.jobs| && !stage.jobs[j].node.status.IsTerminal()
  {
    var jobs := stage.jobs[j := stage.jobs[j].(node := Finish(stage.jobs[j].node, Succeeded, message, now).value)];
    stage.(node := if AllJobsSucceeded(jobs) then Finish(stage.node, Succeeded, None, now).GetOr(stage.node)
           else stage.node,
           jobs := jobs)
  }

  /** The run after success was aggregated over its stages. */
  function SucceededRun(r: Run, stages: seq<Stage>, now: Time): Run {
    r.(node := if AllStagesSucceeded(stages) then Finish(r.node, Succeeded, None, now).GetOr(r.node) else r.node,
       stages := stages)
  }

  lemma SucceedJobComputed(r: Run, i: nat, j: nat, message: Message, now: Time)
    requires HasJob(r, i, j) && r.node.status.Running? && r.stages[i].node.status.Running?
    requires !r.stages[i].jobs[j].node.status.IsTerminal()
    ensures var e := FinishJob(r, i, j, Succeeded, message, now);
            && e.Done?
            && AggregateStage(e.run, i, now)
            == Done(SucceededRun(r, r.stages[i := SucceededStage(r.stages[i], j, message, now)], now))
  {
    var e := FinishJob(r, i, j, Succeeded, message, now);
    var stage := SucceededStage(r.stages[i], j, message, now);
    if AllJobsSucceeded(e.run.stages[i].jobs) {
      assert FinishStage(e.run, i, Succeeded, None, now).run.stages == r.stages[i := stage];
    } else {
      assert e.run.stages == r.stages[i := stage];
    }
  }

  lemma SucceededStageInv(stage: Stage, j: nat, message: Message, now: Time)
    requires StageInv(Running, stage) && stage.node.status.Running? && j < |stage.jobs|
    requires !stage.jobs[j].node.status.IsTerminal()
    ensures StageInv(Running, SucceededStage(stage, j, message, now))
    ensures StageForward(stage, SucceededStage(stage, j, message, now))
  {
    var s := SucceededStage(stage, j, message, now);
    forall k | 0 <= k < |stage.jobs|
      ensures JobInv(Running, s.node.status, s.jobs[k])
      ensures s.jobs[k] == stage.jobs[k].(node := s.jobs[k].node) && Forward(stage.jobs[k].node, s.jobs[k].node)
    {
      assert JobInv(Running, Running, stage.jobs[k]);
      if s.node.status.Succeeded? {
        assert s.jobs[k].node.status.Succeeded?;
      }
    }
  }

  /** Aggregating over stages that fit a running run keeps the invariant. */
  lemma SucceededRunInv(r: Run, i: nat, stage: Stage, now: Time)
    requires Inv(r) && r.node.status.Running? && HasStage(r, i)
    requires StageInv(Running, stage) && StageForward(r.stages[i], stage)
    ensures Commits(r, Done(SucceededRun(r, r.stages[i := stage], now)))
  {
    var stages := r.stages[i := stage];
    var q := SucceededRun(r, stages, now);
    forall k | 0 <= k < |stages|
      ensures StageInv(q.node.status, stages[k]) && StageForward(r.stages[k], stages[k])
    {
      assert StageInv(Running, r.stages[k]);
      if AllStagesSucceeded(stages) {
        SucceededStageFits(Running, Succeeded, stages[k]);
      }
    }
  }

  /** Succeeding an active job of a running stage, then aggregating upwards. */
  lemma SucceedJobCommits(r: Run, i: nat, j: nat, message: Message, now: Time)
    requires Inv(r) && r.node.status.Running? && HasJob(r, i, j) && r.stages[i].node.status.Running?
    requires !r.stages[i].jobs[j].node.status.IsTerminal()
    ensures var e := FinishJob(r, i, j, Succeeded, message, now);
            e.Done? && Commits(r, AggregateStage(e.run, i, now))
  {
    assert StageInv(Running, r.stages[i]);
    SucceedJobComputed(r, i, j, message, now);
    SucceededStageInv(r.stages[i], j, message, now);
    SucceededRunInv(r, i, SucceededStage(r.stages[i], j, message, now), now);
  }

  /** A succeeded stage fits under any run that could contain it. */
  lemma SucceededStageFits(run: Status, to: Status, stage: Stage)
    requires StageInv(run, stage) && stage.node.status.Succeeded? && !to.Queued?
    ensures StageInv(to, stage)
  {
    forall j | 0 <= j < |stage.jobs|
      ensures JobInv(to, stage.node.status, stage.jobs[j])
    {
      assert JobInv(run, stage.node.status, stage.jobs[j]);
    }
  }
}
