/** What a provider callback does to the tree, told by the names it carries and the nodes it changes. */
module PipelineCallbackOutcome {
  import opened Common
  import opened PipelineTree
  import opened PipelineOutcomes
  import opened PipelineCallbacks

  // ---------------------------------------------------------------------
  // Which node a callback is about
  // ---------------------------------------------------------------------

  /** Stage `i` is the first with the name. */
  predicate FirstStage(r: Run, name: Option<string>, i: int) {
    HasStage(r, i) && name == Some(r.stages[i].name) && forall k | 0 <= k < i :: name != Some(r.stages[k].name)
  }

  /** Job `j` is the first of the stage with the name. */
  predicate FirstJob(stage: Stage, name: Option<string>, j: int) {
    && 0 <= j < |stage.jobs| && name == Some(stage.jobs[j].name)
    && forall l | 0 <= l < j :: name != Some(stage.jobs[l].name)
  }

  /** Nodes are addressed by stage and job; the run has neither, which reads -1. */
  predicate TargetIs(r: Run, cb: Callback, i: int, j: int) {
    match cb.target
    case PipelineTarget => i == -1 && j == -1
    case StageTarget => FirstStage(r, cb.stageName, i) && j == -1
    case JobTarget => FirstStage(r, cb.stageName, i) && FirstJob(r.stages[i], cb.jobName, j)
  }

  predicate Has(r: Run, i: int, j: int) {
    if j >= 0 then HasJob(r, i, j) else j == -1 && (i == -1 || HasStage(r, i))
  }

  function NodeAt(r: Run, i: int, j: int): Node
    requires Has(r, i, j)
  {
    if i < 0 then r.node else if j < 0 then r.stages[i].node else r.stages[i].jobs[j].node
  }

  // ---------------------------------------------------------------------
  // What becomes of the tree
  // ---------------------------------------------------------------------

  /** The run can still change, as can the stage of a job; and the node stays where it is or moves forward. */
  predicate Timely(r: Run, cb: Callback, i: int, j: int)
    requires Has(r, i, j)
  {
    && (i >= 0 ==> !r.node.status.IsTerminal())
    && (j >= 0 ==> !r.stages[i].node.status.IsTerminal())
    && (NodeAt(r, i, j).status == cb.status || NodeAt(r, i, j).status.Rank() < cb.status.Rank())
  }

  /** A success reported before everything below the node has succeeded. */
  ghost predicate Premature(r: Run, cb: Callback, i: int, j: int)
    requires Has(r, i, j)
  {
    cb.status.Succeeded? && j < 0 &&
    exists k, l | HasJob(r, k, l) && (k == i || i < 0) :: !r.stages[k].jobs[l].node.status.Succeeded?
  }

  /** How messages name a stage or job. */
  function Where(r: Run, i: int, j: int): string
    requires Has(r, i, j) && i >= 0
  {
    if j < 0 then "stage " + r.stages[i].name
    else "stage " + r.stages[i].name + ", job " + r.stages[i].jobs[j].name
  }

  /** Failures and cancellations end the path from the run to the node, each node of it saying why. */
  predicate PathEnded(r: Run, q: Run, i: int, j: int, to: Status, verb: string, now: Time)
    requires Has(r, i, j) && Has(q, i, j)
  {
    && (i >= 0 ==> Ended(r.node, q.node, to, Some(Where(r, i, j) + verb), now))
    && (j >= 0 ==>
          Ended(r.stages[i].node, q.stages[i].node, to, Some("job " + r.stages[i].jobs[j].name + verb), now))
  }

  /** The node changes to the reported status, and the rest of the tree follows. */
  predicate Effected(r: Run, cb: Callback, i: int, j: int, now: Time, q: Run)
    requires Has(r, i, j) && Has(q, i, j)
  {
    var n, m := NodeAt(r, i, j), NodeAt(q, i, j);
    match cb.status
    case Queued => false
    case Running =>
      && Begun(n, m, now) && OnlyPath(r, q, i, j)
      && (i >= 0 ==> Begun(r.node, q.node, now))
      && (j >= 0 ==> Begun(r.stages[i].node, q.stages[i].node, now))
    case Succeeded =>
      && Ended(n, m, Succeeded, cb.message, now) && OnlyPath(r, q, i, j)
      && (i >= 0 ==>
            if AllStagesSucceeded(q.stages) then Ended(r.node, q.node, Succeeded, None, now)
            else Begun(r.node, q.node, now))
      && (j >= 0 ==>
            if AllJobsSucceeded(q.stages[i].jobs) then Ended(r.stages[i].node, q.stages[i].node, Succeeded, None, now)
            else Begun(r.stages[i].node, q.stages[i].node, now))
    case Failed =>
      && Ended(n, m, Failed, cb.message, now) && PathEnded(r, q, i, j, Failed, " failed", now)
      && RestSwept(r, q, i, j,
                   if j < 0 then "not executed after the stage failed" else "not executed after an earlier job failed",
                   "not executed after the pipeline failed", now)
    case Cancelled =>
      && Ended(n, m, Cancelled, cb.message, now) && PathEnded(r, q, i, j, Cancelled, " was cancelled", now)
      && RestSwept(r, q, i, j,
                   if j < 0 then "stage was cancelled by provider" else "not executed after a job was cancelled",
                   if i < 0 then "pipeline was cancelled by provider"
                   else if j < 0 then "not executed after a stage was cancelled"
                   else "not executed after a job was cancelled", now)
  }

  /**
    The answer to a callback about a node: refused with the reason, without effect; or accepted, without effect if the
    node is as reported already.
   */
  ghost predicate Answers(r: Run, cb: Callback, i: int, j: int, now: Time, e: Effect)
    requires Has(r, i, j)
  {
    if !Timely(r, cb, i, j) then e == Raised(r, TransitionError)
    else if Premature(r, cb, i, j) then e == Raised(r, InvariantError)
    else if NodeAt(r, i, j).status == cb.status then e == Done(r)
    else e.Done? && Has(e.run, i, j) && Effected(r, cb, i, j, now, e.run)
  }

  /**
    A callback about a node the run does not have is refused as such, and exactly then. Otherwise it is about the
    first stage and job with the names it carries.
   */
  ghost predicate Reacts(r: Run, cb: Callback, now: Time, e: Effect) {
    && (e == Raised(r, TargetNotFound) <==> forall i, j :: !TargetIs(r, cb, i, j))
    && forall i, j | TargetIs(r, cb, i, j) :: Has(r, i, j) && Answers(r, cb, i, j, now, e)
  }

  // ---------------------------------------------------------------------
  // Proofs
  // ---------------------------------------------------------------------

  predicate Addresses(loc: Location, i: int, j: int) {
    match loc
    case AtRun => i == -1 && j == -1
    case AtStage(k) => i == k && j == -1
    case AtJob(k, l) => i == k && j == l
  }

  lemma TargetIsLocated(r: Run, cb: Callback)
    requires cb.WellFormed()
    ensures Locate(r, cb).Err? ==> Locate(r, cb).error == TargetNotFound && forall i, j :: !TargetIs(r, cb, i, j)
    ensures Locate(r, cb).Ok? ==> forall i, j :: TargetIs(r, cb, i, j) <==> Addresses(Locate(r, cb).value, i, j)
  {
  }

  lemma RankIsAllowed(from: Status, to: Status)
    ensures TransitionAllowed(from, to) <==> from == to || from.Rank() < to.Rank()
  {
  }

  /** What a callback is validated against, in terms of the names. */
  lemma ValidatedExactlyWhen(r: Run, cb: Callback, loc: Location, i: int, j: int)
    requires Inv(r) && loc.In(r)
    requires Addresses(loc, i, j)
    ensures Has(r, i, j) && NodeAt(r, i, j) == loc.NodeOf(r)
    ensures !Timely(r, cb, i, j) ==> Validate(r, cb, loc) == Some(TransitionError)
    ensures Timely(r, cb, i, j) && Premature(r, cb, i, j) ==> Validate(r, cb, loc) == Some(InvariantError)
    ensures Timely(r, cb, i, j) && !Premature(r, cb, i, j) ==> Validate(r, cb, loc).None?
  {
    RankIsAllowed(loc.NodeOf(r).status, cb.status);
    hide TransitionAllowed;
    if Timely(r, cb, i, j) && cb.status.Succeeded? && j < 0 {
      SuccessNeedsJobs(r, i);
    }
  }

  lemma SuccessNeedsJobs(r: Run, i: int)
    requires Inv(r)
    ensures (forall k | 0 <= k < |r.stages| ::
               r.stages[k].node.status.Succeeded? && AllJobsSucceeded(r.stages[k].jobs))
            <==> forall k, l | HasJob(r, k, l) :: r.stages[k].jobs[l].node.status.Succeeded?
    ensures HasStage(r, i) ==>
              (AllJobsSucceeded(r.stages[i].jobs)
               <==> forall k, l | HasJob(r, k, l) && k == i :: r.stages[k].jobs[l].node.status.Succeeded?)
  {
    forall k | 0 <= k < |r.stages|
      ensures r.stages[k].node.status.Succeeded? <==> AllJobsSucceeded(r.stages[k].jobs)
      ensures AllJobsSucceeded(r.stages[k].jobs)
              <==> forall l | HasJob(r, k, l) :: r.stages[k].jobs[l].node.status.Succeeded?
    {
      assert StageInv(r.node.status, r.stages[k]);
    }
  }

  /** A fresh event that reports what is known already changes nothing, not even a message. */
  lemma NothingNew(r: Run, cb: Callback, loc: Location, now: Time)
    requires Inv(r) && loc.In(r) && Validate(r, cb, loc).None? && loc.NodeOf(r).status == cb.status
    ensures ApplyAt(r, loc, cb, now) == Done(r)
  {
    match loc
    case AtRun =>
      if r.node.status.IsTerminal() {
        SettledRunUnswept(r, "not executed after the pipeline failed", now);
        SettledRunUnswept(r, "pipeline was cancelled by provider", now);
      }
    case AtStage(i) =>
      assert StageInv(r.node.status, r.stages[i]);
      Identity(r, i);
      AggregateIdle(r, i, now);
    case AtJob(i, j) =>
      assert StageInv(r.node.status, r.stages[i]);
      assert JobInv(r.node.status, r.stages[i].node.status, r.stages[i].jobs[j]);
      Identity(r, i);
      IdentityJob(r, i, j);
      AggregateIdle(r, i, now);
  }

  lemma RunOutcome(r: Run, cb: Callback, now: Time)
    requires Inv(r) && Validate(r, cb, AtRun).None? && r.node.status != cb.status
    ensures var e := ApplyToRun(r, cb, now);
            e.Done? && Effected(r, cb, -1, -1, now, e.run)
  {
    hide FailRun, CancelRun, StageSwept;
    match cb.status
    case Failed => FailRunOutcome(r, cb.message, now);
    case Cancelled => CancelRunOutcome(r, cb.message, "pipeline was cancelled by provider", now);
    case Running =>
    case Queued =>
    case Succeeded =>
  }

  lemma StageOutcome(r: Run, i: nat, cb: Callback, now: Time)
    requires Inv(r) && HasStage(r, i) && Validate(r, cb, AtStage(i)).None? && r.stages[i].node.status != cb.status
    ensures var e := ApplyToStage(r, i, cb, now);
            e.Done? && HasStage(e.run, i) && Effected(r, cb, i, -1, now, e.run)
  {
    assert StageInv(r.node.status, r.stages[i]);
    match cb.status
    case Queued =>
    case Running =>
    case Succeeded =>
    case Failed => FailedStageOutcome(r, i, cb, now);
    case Cancelled => CancelledStageOutcome(r, i, cb, now);
  }

  /** A stage ended by a callback, with its jobs swept. */
  function EndedStage(stage: Stage, to: Status, message: Message, why: string, now: Time): Stage
    requires to.IsTerminal() && !stage.node.status.IsTerminal()
  {
    stage.(node := Finish(stage.node, to, message, now).value, jobs := CancelJobs(stage.jobs, why, now))
  }

  lemma FailedStageOutcome(r: Run, i: nat, cb: Callback, now: Time)
    requires HasStage(r, i) && !r.node.status.IsTerminal() && !r.stages[i].node.status.IsTerminal()
    requires cb.status.Failed?
    ensures var e := ApplyToStage(r, i, cb, now);
            e.Done? && HasStage(e.run, i) && Effected(r, cb, i, -1, now, e.run)
  {
    var stage := r.stages[i];
    var inside, around := "not executed after the stage failed", "not executed after the pipeline failed";
    var broken := EndedStage(stage, Failed, cb.message, inside, now);
    var q := r.(node := Finish(r.node, Failed, Some("stage " + stage.name + " failed"), now).value,
                stages := r.stages[i := broken]);
    BrokenOutcome(r, i, -1, broken, q, inside, around, now);
    var r1 := StartRun(r, now).run;
    var r2 := FinishStage(r1, i, Failed, cb.message, now).run;
    assert CancelUnfinishedJobs(r2, i, inside, now).stages == q.stages;
    assert ApplyToStage(r, i, cb, now) == Done(CancelUnfinishedChildren(q, around, now));
  }

  lemma CancelledStageOutcome(r: Run, i: nat, cb: Callback, now: Time)
    requires HasStage(r, i) && !r.node.status.IsTerminal() && !r.stages[i].node.status.IsTerminal()
    requires cb.status.Cancelled?
    ensures var e := ApplyToStage(r, i, cb, now);
            e.Done? && HasStage(e.run, i) && Effected(r, cb, i, -1, now, e.run)
  {
    var stage := r.stages[i];
    var inside, around := "stage was cancelled by provider", "not executed after a stage was cancelled";
    var broken := EndedStage(stage, Cancelled, cb.message, inside, now);
    var q := r.(node := Finish(r.node, Cancelled, Some("stage " + stage.name + " was cancelled"), now).value,
                stages := r.stages[i := broken]);
    BrokenOutcome(r, i, -1, broken, q, inside, around, now);
    var r1 := FinishStage(r, i, Cancelled, cb.message, now).run;
    assert CancelUnfinishedJobs(r1, i, inside, now).stages == q.stages;
    assert ApplyToStage(r, i, cb, now) == Done(CancelUnfinishedChildren(q, around, now));
  }

  lemma JobOutcome(r: Run, i: nat, j: nat, cb: Callback, now: Time)
    requires Inv(r) && HasJob(r, i, j) && Validate(r, cb, AtJob(i, j)).None?
    requires r.stages[i].jobs[j].node.status != cb.status
    ensures var e := ApplyToJob(r, i, j, cb, now);
            e.Done? && HasJob(e.run, i, j) && Effected(r, cb, i, j, now, e.run)
  {
    hide ApplyToJob, Effected;
    assert StageInv(r.node.status, r.stages[i]);
    match cb.status
    case Queued => assert false;
    case Cancelled => CancelledJobOutcome(r, i, j, cb, now);
    case _ => StartedJobOutcome(r, i, j, cb, now);
  }

  lemma CancelledJobOutcome(r: Run, i: nat, j: nat, cb: Callback, now: Time)
    requires HasJob(r, i, j) && !r.node.status.IsTerminal() && !r.stages[i].node.status.IsTerminal()
    requires !r.stages[i].jobs[j].node.status.IsTerminal() && cb.status.Cancelled?
    ensures var e := ApplyToJob(r, i, j, cb, now);
            e.Done? && HasJob(e.run, i, j) && Effected(r, cb, i, j, now, e.run)
  {
    hide ApplyToJob;
    var stage, job := r.stages[i], r.stages[i].jobs[j];
    var why := "not executed after a job was cancelled";
    var broken := CancelledJobStage(stage, j, cb.message, now);
    var q := EndedRun(r, i, broken, Cancelled, Some(Where(r, i, j) + " was cancelled"), now);
    JobCancelComputed(r, i, j, cb, now);
    assert broken.jobs[j] == CancelJob(job.(node := Finish(job.node, Cancelled, cb.message, now).value), why, now);
    BrokenOutcome(r, i, j, broken, q, why, why, now);
  }

  /** Run and stage after they have been started, if they were not. */
  function Started(r: Run, i: nat, now: Time): Run
    requires HasStage(r, i) && !r.node.status.IsTerminal() && !r.stages[i].node.status.IsTerminal()
  {
    r.(node := Start(r.node, now).value,
       stages := r.stages[i := r.stages[i].(node := Start(r.stages[i].node, now).value)])
  }

  lemma StartedJobOutcome(r: Run, i: nat, j: nat, cb: Callback, now: Time)
    requires HasJob(r, i, j) && !r.node.status.IsTerminal() && !r.stages[i].node.status.IsTerminal()
    requires !r.stages[i].jobs[j].node.status.IsTerminal()
    requires cb.status.Failed? || cb.status.Succeeded?
             || (cb.status.Running? && r.stages[i].jobs[j].node.status.Queued?)
    ensures var e := ApplyToJob(r, i, j, cb, now);
            e.Done? && HasJob(e.run, i, j) && Effected(r, cb, i, j, now, e.run)
  {
    hide ApplyToJob, Effected;
    StartedComputed(r, i, j, cb, now);
    match cb.status
    case Running => RunningJobOutcome(r, i, j, cb, now);
    case Failed => FailedJobOutcome(r, i, j, cb, now);
    case Succeeded => SucceededJobOutcome(r, i, j, cb, now);
  }

  lemma RunningJobOutcome(r: Run, i: nat, j: nat, cb: Callback, now: Time)
    requires HasJob(r, i, j) && !r.node.status.IsTerminal() && !r.stages[i].node.status.IsTerminal()
    requires !r.stages[i].jobs[j].node.status.IsTerminal()
    requires cb.status.Running? && r.stages[i].jobs[j].node.status.Queued?
    ensures var e := ApplyStarted(Started(r, i, now), i, j, cb, now);
            e.Done? && HasJob(e.run, i, j) && Effected(r, cb, i, j, now, e.run)
  {
    hide FailJob, AggregateStage, FinishJob, RestSwept;
  }

  lemma FailedJobOutcome(r: Run, i: nat, j: nat, cb: Callback, now: Time)
    requires HasJob(r, i, j) && !r.node.status.IsTerminal() && !r.stages[i].node.status.IsTerminal()
    requires !r.stages[i].jobs[j].node.status.IsTerminal()
    requires cb.status.Failed?
    ensures var e := ApplyStarted(Started(r, i, now), i, j, cb, now);
            e.Done? && HasJob(e.run, i, j) && Effected(r, cb, i, j, now, e.run)
  {
    hide FailJob, AggregateStage, FinishJob, OnlyPath, RestSwept;
    var s := Started(r, i, now);
    FailJobOutcome(s, i, j, cb.message, now);
    SweptFromStart(r, i, j, FailJob(s, i, j, cb.message, now).run, "not executed after an earlier job failed",
                   "not executed after the pipeline failed", now);
  }

  /** Starting run and stage first makes no difference to what is swept. */
  lemma SweptFromStart(r: Run, i: nat, j: nat, q: Run, inside: string, around: string, now: Time)
    requires HasJob(r, i, j) && !r.node.status.IsTerminal() && !r.stages[i].node.status.IsTerminal()
    requires RestSwept(Started(r, i, now), q, i, j, inside, around, now)
    ensures RestSwept(r, q, i, j, inside, around, now)
  {
    var s := Started(r, i, now);
    hide Swept, Start;
    forall k | 0 <= k < |r.stages|
      ensures if k == i then StageSwept(r.stages[k], q.stages[k], true, j, inside, now)
              else StageSwept(r.stages[k], q.stages[k], false, -1, around, now)
    {
      assert k != i ==> s.stages[k] == r.stages[k];
    }
  }

  lemma SucceededJobOutcome(r: Run, i: nat, j: nat, cb: Callback, now: Time)
    requires HasJob(r, i, j) && !r.node.status.IsTerminal() && !r.stages[i].node.status.IsTerminal()
    requires !r.stages[i].jobs[j].node.status.IsTerminal()
    requires cb.status.Succeeded?
    ensures var e := ApplyStarted(Started(r, i, now), i, j, cb, now);
            e.Done? && HasJob(e.run, i, j) && Effected(r, cb, i, j, now, e.run)
  {
    hide FailJob, AggregateStage, FinishJob, OnlyPath, RestSwept, AllJobsSucceeded, AllStagesSucceeded;
    var s := Started(r, i, now);
    SucceedJobOutcome(s, i, j, cb.message, now);
    PathFromStart(r, i, j, ApplyStarted(s, i, j, cb, now).run, now);
  }

  lemma PathFromStart(r: Run, i: nat, j: nat, q: Run, now: Time)
    requires HasJob(r, i, j) && !r.node.status.IsTerminal() && !r.stages[i].node.status.IsTerminal()
    requires OnlyPath(Started(r, i, now), q, i, j)
    ensures OnlyPath(r, q, i, j)
  {
    hide Start;
    var s := Started(r, i, now);
    assert forall k | 0 <= k < |r.stages| && k != i :: s.stages[k] == r.stages[k];
  }

  lemma StartedComputed(r: Run, i: nat, j: nat, cb: Callback, now: Time)
    requires HasJob(r, i, j) && !r.node.status.IsTerminal() && !r.stages[i].node.status.IsTerminal()
    requires cb.status.Failed? || cb.status.Succeeded? || cb.status.Running?
    ensures ApplyToJob(r, i, j, cb, now) == ApplyStarted(Started(r, i, now), i, j, cb, now)
  {
    hide FailJob, AggregateStage, FinishJob;
    assert StartStage(StartRun(r, now).run, i, now) == Done(Started(r, i, now));
  }

  lemma AppliedOutcome(r: Run, cb: Callback, loc: Location, i: int, j: int, now: Time)
    requires Inv(r) && loc.In(r) && Validate(r, cb, loc).None? && loc.NodeOf(r).status != cb.status
    requires Addresses(loc, i, j)
    ensures var e := ApplyAt(r, loc, cb, now);
            e.Done? && Has(r, i, j) && Has(e.run, i, j) && Effected(r, cb, i, j, now, e.run)
  {
    hide ApplyToRun, ApplyToStage, ApplyToJob, Effected;
    match loc
    case AtRun => RunOutcome(r, cb, now);
    case AtStage(_) => StageOutcome(r, i, cb, now);
    case AtJob(_, _) => JobOutcome(r, i, j, cb, now);
  }

  lemma AcceptedOutcome(r: Run, cb: Callback, loc: Location, i: int, j: int, now: Time)
    requires Inv(r) && cb.WellFormed() && Locate(r, cb) == Ok(loc) && Validate(r, cb, loc).None?
    requires Addresses(loc, i, j) && Has(r, i, j) && NodeAt(r, i, j) == loc.NodeOf(r)
    ensures var e := Handle(r, cb, now);
            if NodeAt(r, i, j).status == cb.status then e == Done(r)
            else e.Done? && Has(e.run, i, j) && Effected(r, cb, i, j, now, e.run)
  {
    hide ApplyAt, Locate, Validate, Effected, AssertionsHold, Inv;
    AcceptedCallbackCommits(r, loc, cb, now);
    InvImpliesAssertions(ApplyAt(r, loc, cb, now).run);
    if NodeAt(r, i, j).status == cb.status {
      NothingNew(r, cb, loc, now);
    } else {
      AppliedOutcome(r, cb, loc, i, j, now);
    }
  }

  lemma CallbackOutcome(r: Run, cb: Callback, now: Time)
    requires Inv(r) && cb.WellFormed()
    ensures Reacts(r, cb, now, Handle(r, cb, now))
  {
    hide ApplyAt, Locate, TargetIs, Validate, Timely, Premature, Effected, AssertionsHold, Inv;
    TargetIsLocated(r, cb);
    if Locate(r, cb).Ok? {
      var loc := Locate(r, cb).value;
      var i := if loc.AtRun? then -1 else loc.i;
      var j := if loc.AtJob? then loc.j else -1;
      assert Addresses(loc, i, j);
      ValidatedExactlyWhen(r, cb, loc, i, j);
      if Validate(r, cb, loc).None? {
        AcceptedOutcome(r, cb, loc, i, j, now);
      }
    }
  }
}
