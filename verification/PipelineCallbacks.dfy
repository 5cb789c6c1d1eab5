/** Provider callbacks: locating the target, validating, and applying one event to the whole tree. */
module PipelineCallbacks {
  import opened Common
  import opened PipelineTree

  datatype Target = PipelineTarget | StageTarget | JobTarget

  datatype Callback = Callback(
    eventId: string,
    target: Target,
    status: Status,
    stageName: Option<string>,
    jobName: Option<string>,
    message: Message)
  {
    /** The request validator of the callback model. */
    predicate WellFormed() {
      match target
      case PipelineTarget => stageName.None? && jobName.None?
      case StageTarget => stageName.Some? && jobName.None?
      case JobTarget => stageName.Some? && jobName.Some?
    }
  }

  datatype Location = AtRun | AtStage(i: nat) | AtJob(i: nat, j: nat) {
    predicate In(r: Run) {
      match this
      case AtRun => true
      case AtStage(i) => HasStage(r, i)
      case AtJob(i, j) => HasJob(r, i, j)
    }

    function NodeOf(r: Run): Node
      requires In(r)
    {
      match this
      case AtRun => r.node
      case AtStage(i) => r.stages[i].node
      case AtJob(i, j) => r.stages[i].jobs[j].node
    }
  }

  function FindStage(stages: seq<Stage>, name: string): (i: Option<nat>)
    ensures i.None? ==> forall k | 0 <= k < |stages| :: stages[k].name != name
    ensures i.Some? ==> i.value < |stages| && stages[i.value].name == name
    ensures i.Some? ==> forall k | 0 <= k < i.value :: stages[k].name != name
  {
    if stages == [] then None
    else if stages[0].name == name then Some(0)
    else
      var rest :- FindStage(stages[1..], name);
      assert forall k | 1 <= k < |stages| :: stages[k] == stages[1..][k - 1];
      Some(rest + 1)
  }

  function FindJob(jobs: seq<Job>, name: string): (j: Option<nat>)
    ensures j.None? ==> forall k | 0 <= k < |jobs| :: jobs[k].name != name
    ensures j.Some? ==> j.value < |jobs| && jobs[j.value].name == name
    ensures j.Some? ==> forall k | 0 <= k < j.value :: jobs[k].name != name
  {
    if jobs == [] then None
    else if jobs[0].name == name then Some(0)
    else
      var rest :- FindJob(jobs[1..], name);
      assert forall k | 1 <= k < |jobs| :: jobs[k] == jobs[1..][k - 1];
      Some(rest + 1)
  }

  function Locate(r: Run, cb: Callback): (loc: Result<Location, Error>)
    requires cb.WellFormed()
    ensures loc.Ok? ==> loc.value.In(r)
  {
    if cb.target.PipelineTarget? then
      Ok(AtRun)
    else
      match FindStage(r.stages, cb.stageName.value)
      case None => Err(TargetNotFound)
      case Some(i) =>
        if cb.target.StageTarget? then Ok(AtStage(i))
        else
          match FindJob(r.stages[i].jobs, cb.jobName.value)
          case None => Err(TargetNotFound)
          case Some(j) => Ok(AtJob(i, j))
  }

  /** `_assert_transition_allowed`: the table plus the queued-to-finished shortcut. */
  predicate TransitionAllowed(from: Status, to: Status) {
    || from == to
    || (from.Queued? && (to.Succeeded? || to.Failed?))
    || Allowed(from, to)
  }

  function Validate(r: Run, cb: Callback, loc: Location): Option<Error>
    requires loc.In(r)
  {
    if !loc.AtRun? && r.node.status.IsTerminal() then Some(TransitionError)
    else if loc.AtJob? && r.stages[loc.i].node.status.IsTerminal() then Some(TransitionError)
    else if !TransitionAllowed(loc.NodeOf(r).status, cb.status) then Some(TransitionError)
    else if cb.status.Succeeded? && loc.AtRun?
            && !(forall i | 0 <= i < |r.stages| ::
                   r.stages[i].node.status.Succeeded? && AllJobsSucceeded(r.stages[i].jobs)) then Some(InvariantError)
    else if cb.status.Succeeded? && loc.AtStage? && !AllJobsSucceeded(r.stages[loc.i].jobs) then Some(InvariantError)
    else None
  }

  function ApplyToRun(r: Run, cb: Callback, now: Time): Effect {
    match cb.status
    case Queued => SetRun(r, Transition(r.node, Queued, cb.message, now))
    case Running => StartRun(r, now)
    case Succeeded =>
      var r1 :- FinishRun(r, Succeeded, cb.message, now);
      MarkTerminal(r1)
    case Failed => FailRun(r, cb.message, now)
    case Cancelled => CancelRun(r, cb.message, "pipeline was cancelled by provider", now)
  }

  function ApplyToStage(r: Run, i: nat, cb: Callback, now: Time): Effect
    requires HasStage(r, i)
  {
    match cb.status
    case Queued => SetStage(r, i, Transition(r.stages[i].node, Queued, cb.message, now))
    case Running =>
      var r1 :- StartRun(r, now);
      StartStage(r1, i, now)
    case Succeeded =>
      var r1 :- StartRun(r, now);
      var r2 :- FinishStage(r1, i, Succeeded, cb.message, now);
      AggregateStage(r2, i, now)
    case Failed =>
      var r1 :- StartRun(r, now);
      var r2 :- FinishStage(r1, i, Failed, cb.message, now);
      FailRun(CancelUnfinishedJobs(r2, i, "not executed after the stage failed", now),
              Some("stage " + r.stages[i].name + " failed"), now)
    case Cancelled =>
      var r1 :- FinishStage(r, i, Cancelled, cb.message, now);
      CancelRun(CancelUnfinishedJobs(r1, i, "stage was cancelled by provider", now),
                Some("stage " + r.stages[i].name + " was cancelled"),
                "not executed after a stage was cancelled", now)
  }

  function ApplyToJob(r: Run, i: nat, j: nat, cb: Callback, now: Time): Effect
    requires HasJob(r, i, j)
  {
    match cb.status
    case Queued => SetJob(r, i, j, Transition(r.stages[i].jobs[j].node, Queued, cb.message, now))
    case Running =>
      var r1 :- StartRun(r, now);
      var r2 :- StartStage(r1, i, now);
      StartJob(r2, i, j, now)
    case Succeeded =>
      var r1 :- StartRun(r, now);
      var r2 :- StartStage(r1, i, now);
      var r3 :- FinishJob(r2, i, j, Succeeded, cb.message, now);
      AggregateStage(r3, i, now)
    case Failed =>
      var r1 :- StartRun(r, now);
      var r2 :- StartStage(r1, i, now);
      FailJob(r2, i, j, cb.message, now)
    case Cancelled =>
      var r1 :- FinishJob(r, i, j, Cancelled, cb.message, now);
      var r2 :- FinishStage(r1, i, Cancelled, Some("job " + r.stages[i].jobs[j].name + " was cancelled"), now);
      CancelRun(CancelUnfinishedJobs(r2, i, "not executed after a job was cancelled", now),
                Some("stage " + r.stages[i].name + ", job " + r.stages[i].jobs[j].name + " was cancelled"),
                "not executed after a job was cancelled", now)
  }

  function ApplyAt(r: Run, loc: Location, cb: Callback, now: Time): Effect
    requires loc.In(r)
  {
    match loc
    case AtRun => ApplyToRun(r, cb, now)
    case AtStage(i) => ApplyToStage(r, i, cb, now)
    case AtJob(i, j) => ApplyToJob(r, i, j, cb, now)
  }

  /** Locate, validate, apply, re-check: the tree part of `apply_callback`. */
  function Handle(r: Run, cb: Callback, now: Time): Effect
    requires cb.WellFormed()
  {
    match Locate(r, cb)
    case Err(error) => Raised(r, error)
    case Ok(loc) =>
      var rejected := Validate(r, cb, loc);
      if rejected.Some? then Raised(r, rejected.value)
      else
        var r1 :- ApplyAt(r, loc, cb, now);
        if AssertionsHold(r1) then Done(r1) else Raised(r1, InvariantError)
  }

  // ---------------------------------------------------------------------
  // Accepted callbacks never raise and keep the invariant
  // ---------------------------------------------------------------------

  lemma Identity(r: Run, i: nat)
    requires HasStage(r, i)
    ensures r.(stages := r.stages[i := r.stages[i].(node := r.stages[i].node)]) == r
  {
    assert r.stages[i := r.stages[i]] == r.stages;
  }

  lemma IdentityJob(r: Run, i: nat, j: nat)
    requires HasJob(r, i, j)
    ensures SetJob(r, i, j, Some(r.stages[i].jobs[j].node)) == Done(r)
  {
    var jobs := r.stages[i].jobs;
    assert jobs[j := jobs[j]] == jobs;
    assert r.stages[i := r.stages[i]] == r.stages;
  }

  lemma ReflexiveCommit(r: Run)
    requires Inv(r)
    ensures Commits(r, Done(r))
  {
  }

  /** A terminal run has nothing left to sweep. */
  lemma SettledRunUnswept(r: Run, message: string, now: Time)
    requires Inv(r) && r.node.status.IsTerminal()
    ensures CancelUnfinishedChildren(r, message, now) == r
  {
    forall i | 0 <= i < |r.stages|
      ensures CancelStage(r.stages[i], message, now) == r.stages[i]
    {
      assert StageInv(r.node.status, r.stages[i]);
      SettledStageUnswept(r.node.status, r.stages[i], message, now);
    }
    assert CancelStages(r.stages, message, now) == r.stages;
  }

  lemma RunCallbackCommits(r: Run, cb: Callback, now: Time)
    requires Inv(r) && Validate(r, cb, AtRun).None?
    ensures Commits(r, ApplyToRun(r, cb, now))
    ensures ApplyToRun(r, cb, now).run.node.status == cb.status
  {
    if r.node.status == cb.status {
      if r.node.status.IsTerminal() {
        SettledRunUnswept(r, "not executed after the pipeline failed", now);
        SettledRunUnswept(r, "pipeline was cancelled by provider", now);
      }
      assert ApplyToRun(r, cb, now) == Done(r);
      ReflexiveCommit(r);
    } else {
      match cb.status
      case Running => StartRunCommits(r, now);
      case Failed => FailRunCommits(r, cb.message, now);
      case Cancelled => CancelRunCommits(r, cb.message, "pipeline was cancelled by provider", now);
      case Succeeded =>
        assert false;
      case Queued =>
        assert false;
    }
  }

  /** The run after its stage `i` ended as failed or cancelled, before the other stages are swept. */
  function EndedRun(r: Run, i: nat, stage: Stage, to: Status, message: Message, now: Time): Run
    requires HasStage(r, i) && to.IsTerminal() && !r.node.status.IsTerminal()
  {
    r.(node := Finish(r.node, to, message, now).value, stages := r.stages[i := stage])
  }

  lemma BrokenRunCommits(r: Run, i: nat, broken: Stage, to: Status, message: Message, sweep: string, now: Time)
    requires Inv(r) && HasStage(r, i) && !r.node.status.IsTerminal()
    requires to.Failed? || to.Cancelled?
    requires Breaks(r.node.status, r.stages[i], to, broken)
    ensures Commits(r, Done(CancelUnfinishedChildren(EndedRun(r, i, broken, to, message, now), sweep, now)))
    ensures CancelUnfinishedChildren(EndedRun(r, i, broken, to, message, now), sweep, now).stages[i] == broken
  {
    SweepBroken(r, i, broken, to, EndedRun(r, i, broken, to, message, now), sweep, now);
    SettledStageUnswept(to, broken, sweep, now);
  }

  lemma FailedStageCommits(r: Run, i: nat, cb: Callback, now: Time)
    requires Inv(r) && HasStage(r, i) && r.node.status.Running? && !r.stages[i].node.status.IsTerminal()
    requires cb.status.Failed?
    ensures Commits(r, ApplyToStage(r, i, cb, now))
    ensures ApplyToStage(r, i, cb, now).run.stages[i].node.status.Failed?
  {
    var stage := r.stages[i];
    var message := "not executed after the stage failed";
    var node := Finish(stage.node, Failed, cb.message, now).value;
    var broken := stage.(node := node, jobs := CancelJobs(stage.jobs, message, now));
    assert StageInv(Running, stage);
    EndedStageBreaks(Running, stage, Failed, node, None, node, message, now);
    BrokenRunCommits(r, i, broken, Failed, Some("stage " + stage.name + " failed"),
                     "not executed after the pipeline failed", now);
    assert r.stages[i := stage.(node := node)][i := broken] == r.stages[i := broken];
  }

  lemma CancelledStageCommits(r: Run, i: nat, cb: Callback, now: Time)
    requires Inv(r) && HasStage(r, i) && !r.node.status.IsTerminal() && !r.stages[i].node.status.IsTerminal()
    requires cb.status.Cancelled?
    ensures Commits(r, ApplyToStage(r, i, cb, now))
    ensures ApplyToStage(r, i, cb, now).run.stages[i].node.status.Cancelled?
  {
    var stage := r.stages[i];
    var message := "stage was cancelled by provider";
    var node := Finish(stage.node, Cancelled, cb.message, now).value;
    var broken := stage.(node := node, jobs := CancelJobs(stage.jobs, message, now));
    assert StageInv(r.node.status, stage);
    EndedStageBreaks(r.node.status, stage, Cancelled, node, None, node, message, now);
    BrokenRunCommits(r, i, broken, Cancelled, Some("stage " + stage.name + " was cancelled"),
                     "not executed after a stage was cancelled", now);
    assert r.stages[i := stage.(node := node)][i := broken] == r.stages[i := broken];
  }

  lemma StageCallbackCommits(r: Run, i: nat, cb: Callback, now: Time)
    requires Inv(r) && HasStage(r, i) && Validate(r, cb, AtStage(i)).None?
    ensures Commits(r, ApplyToStage(r, i, cb, now))
    ensures ApplyToStage(r, i, cb, now).run.stages[i].node.status == cb.status
  {
    assert StageInv(r.node.status, r.stages[i]);
    match cb.status {
      case Queued =>
        Identity(r, i);
        ReflexiveCommit(r);
      case Running =>
        StartRunCommits(r, now);
        var q := StartRun(r, now).run;
        StartStageCommits(q, i, now);
        TreeForwardTransitive(r, q, StartStage(q, i, now).run);
      case Succeeded =>
        StartRunCommits(r, now);
        var q := StartRun(r, now).run;
        Identity(q, i);
        AggregateIdle(q, i, now);
      case Failed =>
        StartRunCommits(r, now);
        var q := StartRun(r, now).run;
        FailedStageCommits(q, i, cb, now);
        TreeForwardTransitive(r, q, ApplyToStage(q, i, cb, now).run);
      case Cancelled =>
        CancelledStageCommits(r, i, cb, now);
    }
  }

  /** The stage left behind by a cancelled job. */
  function CancelledJobStage(stage: Stage, j: nat, message: Message, now: Time): Stage
    requires j < |stage.jobs| && !stage.node.status.IsTerminal() && !stage.jobs[j].node.status.IsTerminal()
  {
    var job := stage.jobs[j];
    stage.(node := Finish(stage.node, Cancelled, Some("job " + job.name + " was cancelled"), now).value,
           jobs := CancelJobs(stage.jobs[j := job.(node := Finish(job.node, Cancelled, message, now).value)],
                              "not executed after a job was cancelled", now))
  }

  lemma JobCancelComputed(r: Run, i: nat, j: nat, cb: Callback, now: Time)
    requires HasJob(r, i, j) && !r.node.status.IsTerminal() && !r.stages[i].node.status.IsTerminal()
    requires !r.stages[i].jobs[j].node.status.IsTerminal() && cb.status.Cancelled?
    ensures ApplyToJob(r, i, j, cb, now)
         == Done(CancelUnfinishedChildren(
                   EndedRun(r, i, CancelledJobStage(r.stages[i], j, cb.message, now), Cancelled,
                            Some("stage " + r.stages[i].name + ", job " + r.stages[i].jobs[j].name + " was cancelled"),
                            now),
                   "not executed after a job was cancelled", now))
  {
    var r1 := FinishJob(r, i, j, Cancelled, cb.message, now).run;
    var r2 := FinishStage(r1, i, Cancelled, Some("job " + r.stages[i].jobs[j].name + " was cancelled"), now).run;
    assert CancelUnfinishedJobs(r2, i, "not executed after a job was cancelled", now).stages
        == r.stages[i := CancelledJobStage(r.stages[i], j, cb.message, now)];
  }

  lemma JobCancelCommits(r: Run, i: nat, j: nat, cb: Callback, now: Time)
    requires Inv(r) && HasJob(r, i, j) && !r.node.status.IsTerminal() && !r.stages[i].node.status.IsTerminal()
    requires !r.stages[i].jobs[j].node.status.IsTerminal() && cb.status.Cancelled?
    ensures Commits(r, ApplyToJob(r, i, j, cb, now))
    ensures ApplyToJob(r, i, j, cb, now).run.stages[i].jobs[j].node.status.Cancelled?
  {
    var stage := r.stages[i];
    var job := stage.jobs[j];
    var message := "not executed after a job was cancelled";
    var jobNode := Finish(job.node, Cancelled, cb.message, now).value;
    var broken := CancelledJobStage(stage, j, cb.message, now);
    assert StageInv(r.node.status, stage);
    EndedStageBreaks(r.node.status, stage, Cancelled, broken.node, Some(j), jobNode, message, now);
    BrokenRunCommits(r, i, broken, Cancelled, Some("stage " + stage.name + ", job " + job.name + " was cancelled"),
                     message, now);
    JobCancelComputed(r, i, j, cb, now);
    assert broken.jobs[j] == CancelJob(job.(node := jobNode), message, now);
  }

  lemma JobCallbackCommits(r: Run, i: nat, j: nat, cb: Callback, now: Time)
    requires Inv(r) && HasJob(r, i, j) && Validate(r, cb, AtJob(i, j)).None?
    ensures Commits(r, ApplyToJob(r, i, j, cb, now))
    ensures ApplyToJob(r, i, j, cb, now).run.stages[i].jobs[j].node.status == cb.status
  {
    assert StageInv(r.node.status, r.stages[i]);
    assert JobInv(r.node.status, r.stages[i].node.status, r.stages[i].jobs[j]);
    if cb.status.Queued? {
      IdentityJob(r, i, j);
      ReflexiveCommit(r);
    } else if cb.status.Cancelled? {
      JobCancelCommits(r, i, j, cb, now);
    } else {
      StartRunCommits(r, now);
      var q := StartRun(r, now).run;
      StartStageCommits(q, i, now);
      var s := StartStage(q, i, now).run;
      TreeForwardTransitive(r, q, s);
      ApplyStartedCommits(s, i, j, cb, now);
      TreeForwardTransitive(r, s, ApplyStarted(s, i, j, cb, now).run);
    }
  }

  /** What a running, succeeded or failed job callback does once run and stage are running. */
  function ApplyStarted(s: Run, i: nat, j: nat, cb: Callback, now: Time): Effect
    requires HasJob(s, i, j) && (cb.status.Running? || cb.status.Succeeded? || cb.status.Failed?)
  {
    if cb.status.Running? then StartJob(s, i, j, now)
    else if cb.status.Failed? then FailJob(s, i, j, cb.message, now)
    else
      var r3 :- FinishJob(s, i, j, Succeeded, cb.message, now);
      AggregateStage(r3, i, now)
  }

  lemma ApplyStartedCommits(s: Run, i: nat, j: nat, cb: Callback, now: Time)
    requires Inv(s) && HasJob(s, i, j) && s.node.status.Running? && s.stages[i].node.status.Running?
    requires cb.status.Running? || cb.status.Succeeded? || cb.status.Failed?
    requires TransitionAllowed(s.stages[i].jobs[j].node.status, cb.status)
    ensures Commits(s, ApplyStarted(s, i, j, cb, now))
    ensures ApplyStarted(s, i, j, cb, now).run.stages[i].jobs[j].node.status == cb.status
  {
    hide FailJob;
    assert StageInv(Running, s.stages[i]) && JobInv(Running, Running, s.stages[i].jobs[j]);
    if cb.status.Running? {
      StartJobCommits(s, i, j, now);
    } else if cb.status.Failed? {
      FailJobCommits(s, i, j, cb.message, now);
      FailedJobStays(s, i, j, cb.message, now);
    } else {
      SucceedStartedCommits(s, i, j, cb.message, now);
    }
  }

  lemma SucceedStartedCommits(s: Run, i: nat, j: nat, message: Message, now: Time)
    requires Inv(s) && HasJob(s, i, j) && s.node.status.Running? && s.stages[i].node.status.Running?
    requires s.stages[i].jobs[j].node.status.Succeeded? || !s.stages[i].jobs[j].node.status.IsTerminal()
    ensures var e := FinishJob(s, i, j, Succeeded, message, now);
            && e.Done?
            && Commits(s, AggregateStage(e.run, i, now))
            && AggregateStage(e.run, i, now).run.stages[i].jobs[j].node.status.Succeeded?
  {
    if s.stages[i].jobs[j].node.status.Succeeded? {
      IdentityJob(s, i, j);
      AggregateIdle(s, i, now);
      ReflexiveCommit(s);
    } else {
      SucceedJobCommits(s, i, j, message, now);
      SucceedJobComputed(s, i, j, message, now);
    }
  }

  lemma FailedJobStays(r: Run, i: nat, j: nat, message: Message, now: Time)
    requires HasJob(r, i, j) && r.node.status.Running? && r.stages[i].node.status.Running?
    requires !r.stages[i].jobs[j].node.status.IsTerminal()
    ensures FailJob(r, i, j, message, now).run.stages[i].jobs[j].node
            == Finish(r.stages[i].jobs[j].node, Failed, message, now).value
  {
    FailJobComputed(r, i, j, message, now);
    var q := FailedRun(r, i, j, message, now);
    var settled := r.stages[i].jobs[j :=
                                    r.stages[i].jobs[j].(node := Finish(r.stages[i].jobs[j].node, Failed, message,
                                                                        now).value)];
    assert q.stages[i].jobs[j] == CancelJob(settled[j], "not executed after an earlier job failed", now);
    assert CancelStages(q.stages, "not executed after the pipeline failed", now)[i]
        == CancelStage(q.stages[i], "not executed after the pipeline failed", now);
  }

  lemma AcceptedCallbackCommits(r: Run, loc: Location, cb: Callback, now: Time)
    requires Inv(r) && loc.In(r) && Validate(r, cb, loc).None?
    ensures var e := ApplyAt(r, loc, cb, now);
            Commits(r, e) && loc.In(e.run) && loc.NodeOf(e.run).status == cb.status
  {
    match loc
    case AtRun => RunCallbackCommits(r, cb, now);
    case AtStage(i) => StageCallbackCommits(r, i, cb, now);
    case AtJob(i, j) =>
      JobCallbackCommits(r, i, j, cb, now);
      assert StageForward(r.stages[i], ApplyAt(r, loc, cb, now).run.stages[i]);
  }

  /**
    A callback is all or nothing.  Either it is rejected and the tree is untouched, or it is
    applied in full: nothing raises after validation, the invariant and the frozen terminal
    nodes are kept, and the node it names ends in the status it names.
   */
  lemma CallbackAllOrNothing(r: Run, cb: Callback, now: Time)
    requires Inv(r) && cb.WellFormed()
    ensures var e := Handle(r, cb, now);
            var loc := Locate(r, cb);
            if loc.Ok? && Validate(r, cb, loc.value).None?
            then Commits(r, e) && loc.value.In(e.run) && loc.value.NodeOf(e.run).status == cb.status
            else e.Raised? && e.run == r
  {
    var loc := Locate(r, cb);
    if loc.Ok? && Validate(r, cb, loc.value).None? {
      AcceptedCallbackCommits(r, loc.value, cb, now);
      InvImpliesAssertions(ApplyAt(r, loc.value, cb, now).run);
    }
  }
}
