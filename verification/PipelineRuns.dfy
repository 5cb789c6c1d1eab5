/** The run object the service mutates in place, proved against the tree functions. */
module PipelineRuns {
  import opened Common
  import opened PipelineTree
  import opened PipelineCallbacks
  import opened PipelineCallbackOutcome
  import opened PipelineExecutor
  import opened PipelineExecution

  class PipelineRun {
    const id: RunId
    const name: string
    const createdAt: Time
    var status: Status
    var startedAt: Option<Time>
    var finishedAt: Option<Time>
    var message: Message
    var stages: seq<Stage>

    function View(): Run
      reads this
    {
      Run(id, name, createdAt, Node(status, startedAt, finishedAt, message), stages)
    }

    /** The object now is what `e` says, and `error` is what it raised. */
    ghost predicate Became(e: Effect, error: Option<Error>)
      reads this
    {
      e == if error.None? then Done(View()) else Raised(View(), error.value)
    }

    constructor (view: Run)
      ensures View() == view
    {
      id, name, createdAt := view.id, view.name, view.createdAt;
      status, startedAt, finishedAt, message :=
        view.node.status, view.node.startedAt, view.node.finishedAt, view.node.message;
      stages := view.stages;
    }

    method TransitionRun(to: Status, newMessage: Message, now: Time) returns (error: Option<Error>)
      modifies this
      ensures Became(SetRun(old(View()), Transition(old(View()).node, to, newMessage, now)), error)
    {
      if status == to {
        return None;
      }
      if !Allowed(status, to) {
        return Some(TransitionError);
      }
      status := to;
      if to.Running? && startedAt.None? {
        startedAt := Some(now);
      }
      if to.IsTerminal() {
        finishedAt := Some(now);
      }
      if newMessage.Some? {
        message := newMessage;
      }
      return None;
    }

    method Start(now: Time) returns (error: Option<Error>)
      modifies this
      ensures Became(StartRun(old(View()), now), error)
    {
      if status.Queued? {
        error := TransitionRun(Running, None, now);
      } else {
        error := if status.Running? then None else Some(TransitionError);
      }
    }

    method Finish(to: Status, newMessage: Message, now: Time) returns (error: Option<Error>)
      requires to.IsTerminal()
      modifies this
      ensures Became(FinishRun(old(View()), to, newMessage, now), error)
    {
      if status == to {
        return None;
      }
      if status.Queued? && !to.Cancelled? {
        error := Start(now);
      }
      error := TransitionRun(to, newMessage, now);
    }

    /** Write back the node of stage `i`, or report that its transition was refused. */
    method PutStage(i: nat, n: Option<Node>) returns (error: Option<Error>)
      requires i < |stages|
      modifies this`stages
      ensures Became(SetStage(old(View()), i, n), error)
    {
      if n.None? {
        return Some(TransitionError);
      }
      stages := stages[i := stages[i].(node := n.value)];
      return None;
    }

    method PutJob(i: nat, j: nat, n: Option<Node>) returns (error: Option<Error>)
      requires HasJob(View(), i, j)
      modifies this`stages
      ensures Became(SetJob(old(View()), i, j, n), error)
    {
      if n.None? {
        return Some(TransitionError);
      }
      stages := stages[i := stages[i].(jobs := stages[i].jobs[j := stages[i].jobs[j].(node := n.value)])];
      return None;
    }

    method CancelJobsOf(i: nat, text: string, now: Time)
      requires i < |stages|
      modifies this`stages
      ensures View() == CancelUnfinishedJobs(old(View()), i, text, now)
    {
      var jobs := stages[i].jobs;
      var j := 0;
      while j < |jobs|
        invariant 0 <= j <= |jobs| == |stages[i].jobs|
        invariant forall k | 0 <= k < j :: jobs[k] == CancelJob(stages[i].jobs[k], text, now)
        invariant forall k | j <= k < |jobs| :: jobs[k] == stages[i].jobs[k]
      {
        if !jobs[j].node.status.IsTerminal() {
          jobs := jobs[j := CancelJob(jobs[j], text, now)];
        }
        j := j + 1;
      }
      assert jobs == CancelJobs(stages[i].jobs, text, now);
      stages := stages[i := stages[i].(jobs := jobs)];
    }

    method CancelChildren(text: string, now: Time)
      modifies this`stages
      ensures View() == CancelUnfinishedChildren(old(View()), text, now)
    {
      ghost var before := stages;
      var i := 0;
      while i < |stages|
        invariant 0 <= i <= |before| == |stages|
        invariant forall k | 0 <= k < i :: stages[k] == CancelStage(before[k], text, now)
        invariant forall k | i <= k < |before| :: stages[k] == before[k]
        decreases |before| - i
      {
        CancelJobsOf(i, text, now);
        stages := stages[i := stages[i].(node := CancelNode(stages[i].node, text, now))];
        i := i + 1;
      }
      assert stages == CancelStages(before, text, now);
    }

    /** `_mark_terminal` */
    method CheckTerminal() returns (error: Option<Error>)
      ensures error == if status.IsTerminal() then None else Some(InvariantError)
    {
      error := if status.IsTerminal() then None else Some(InvariantError);
    }

    /** `_aggregate_success`, with or without a stage. */
    method Aggregate(stage: Option<nat>, now: Time) returns (error: Option<Error>)
      requires stage.Some? ==> stage.value < |stages|
      modifies this
      ensures Became(if stage.Some? then AggregateStage(old(View()), stage.value, now)
                     else AggregateRun(old(View()), now), error)
    {
      if stage.Some? {
        var all := true;
        for j := 0 to |stages[stage.value].jobs|
          invariant all <==> AllJobsSucceeded(stages[stage.value].jobs[..j])
        {
          assert stages[stage.value].jobs[..j + 1] == stages[stage.value].jobs[..j] + [stages[stage.value].jobs[j]];
          all := all && stages[stage.value].jobs[j].node.status.Succeeded?;
        }
        assert stages[stage.value].jobs[..|stages[stage.value].jobs|] == stages[stage.value].jobs;
        if all {
          error := PutStage(stage.value, PipelineTree.Finish(stages[stage.value].node, Succeeded, None, now));
          if error.Some? {
            return;
          }
        }
      }
      var done := true;
      for i := 0 to |stages|
        invariant done <==> AllStagesSucceeded(stages[..i])
      {
        done := done && stages[i].node.status.Succeeded?;
      }
      assert stages[..|stages|] == stages;
      if done {
        error := Finish(Succeeded, None, now);
        if error.Some? {
          return;
        }
        error := CheckTerminal();
        return;
      }
      error := None;
    }

    method Fail(newMessage: Message, now: Time) returns (error: Option<Error>)
      modifies this
      ensures Became(FailRun(old(View()), newMessage, now), error)
    {
      error := Finish(Failed, newMessage, now);
      if error.Some? {
        return;
      }
      CancelChildren("not executed after the pipeline failed", now);
      error := CheckTerminal();
    }

    method FailAt(i: nat, j: nat, newMessage: Message, now: Time) returns (error: Option<Error>)
      requires HasJob(View(), i, j)
      modifies this
      ensures Became(FailJob(old(View()), i, j, newMessage, now), error)
    {
      var stageName, jobName := stages[i].name, stages[i].jobs[j].name;
      error := PutJob(i, j, PipelineTree.Finish(stages[i].jobs[j].node, Failed, newMessage, now));
      if error.Some? {
        return;
      }
      error := PutStage(i, PipelineTree.Finish(stages[i].node, Failed, Some("job " + jobName + " failed"), now));
      if error.Some? {
        return;
      }
      CancelJobsOf(i, "not executed after an earlier job failed", now);
      error := Fail(Some("stage " + stageName + ", job " + jobName + " failed"), now);
    }

    /** The in-place part of cancel, shutdown and recovery. */
    method CancelAll(runMessage: Message, childMessage: string, now: Time) returns (error: Option<Error>)
      modifies this
      ensures Became(CancelRun(old(View()), runMessage, childMessage, now), error)
    {
      error := Finish(Cancelled, runMessage, now);
      if error.Some? {
        return;
      }
      CancelChildren(childMessage, now);
      error := CheckTerminal();
    }

    method ApplyRunCallback(cb: Callback, now: Time) returns (error: Option<Error>)
      modifies this
      ensures Became(ApplyToRun(old(View()), cb, now), error)
    {
      match cb.status {
        case Queued => error := TransitionRun(Queued, cb.message, now);
        case Running => error := Start(now);
        case Succeeded =>
          error := Finish(Succeeded, cb.message, now);
          if error.None? {
            error := CheckTerminal();
          }
        case Failed => error := Fail(cb.message, now);
        case Cancelled => error := CancelAll(cb.message, "pipeline was cancelled by provider", now);
      }
    }

    method ApplyStageCallback(i: nat, cb: Callback, now: Time) returns (error: Option<Error>)
      requires i < |stages|
      modifies this
      ensures Became(ApplyToStage(old(View()), i, cb, now), error)
    {
      if cb.status.Queued? {
        error := PutStage(i, Transition(stages[i].node, Queued, cb.message, now));
        return;
      }
      if cb.status.Cancelled? {
        var stageName := stages[i].name;
        error := PutStage(i, PipelineTree.Finish(stages[i].node, Cancelled, cb.message, now));
        if error.None? {
          CancelJobsOf(i, "stage was cancelled by provider", now);
          error := CancelAll(Some("stage " + stageName + " was cancelled"), "not executed after a stage was cancelled",
                             now);
        }
        return;
      }
      error := Start(now);
      if error.Some? {
        return;
      }
      if cb.status.Running? {
        error := PutStage(i, PipelineTree.Start(stages[i].node, now));
        return;
      }
      var stageName := stages[i].name;
      error := PutStage(i, PipelineTree.Finish(stages[i].node, cb.status, cb.message, now));
      if error.Some? {
        return;
      }
      if cb.status.Succeeded? {
        error := Aggregate(Some(i), now);
      } else {
        CancelJobsOf(i, "not executed after the stage failed", now);
        error := Fail(Some("stage " + stageName + " failed"), now);
      }
    }

    method ApplyJobCallback(i: nat, j: nat, cb: Callback, now: Time) returns (error: Option<Error>)
      requires HasJob(View(), i, j)
      modifies this
      ensures Became(ApplyToJob(old(View()), i, j, cb, now), error)
    {
      var stageName, jobName := stages[i].name, stages[i].jobs[j].name;
      if cb.status.Queued? {
        error := PutJob(i, j, Transition(stages[i].jobs[j].node, Queued, cb.message, now));
        return;
      }
      if cb.status.Cancelled? {
        error := PutJob(i, j, PipelineTree.Finish(stages[i].jobs[j].node, Cancelled, cb.message, now));
        if error.None? {
          error := PutStage(i, PipelineTree.Finish(stages[i].node, Cancelled,
                                                   Some("job " + jobName + " was cancelled"), now));
          if error.None? {
            CancelJobsOf(i, "not executed after a job was cancelled", now);
            error := CancelAll(Some("stage " + stageName + ", job " + jobName + " was cancelled"),
                               "not executed after a job was cancelled", now);
          }
        }
        return;
      }
      error := Start(now);
      if error.Some? {
        return;
      }
      error := PutStage(i, PipelineTree.Start(stages[i].node, now));
      if error.Some? {
        return;
      }
      if cb.status.Running? {
        error := PutJob(i, j, PipelineTree.Start(stages[i].jobs[j].node, now));
      } else if cb.status.Failed? {
        error := FailAt(i, j, cb.message, now);
      } else {
        error := PutJob(i, j, PipelineTree.Finish(stages[i].jobs[j].node, Succeeded, cb.message, now));
        if error.None? {
          error := Aggregate(Some(i), now);
        }
      }
    }

    /** Locate, validate, apply and re-check. */
    method TakeCallback(cb: Callback, now: Time) returns (error: Option<Error>)
      requires cb.WellFormed()
      modifies this
      ensures Became(Handle(old(View()), cb, now), error)
    {
      var located := Locate(View(), cb);
      if located.Err? {
        return Some(located.error);
      }
      error := Validate(View(), cb, located.value);
      if error.Some? {
        return;
      }
      match located.value {
        case AtRun => error := ApplyRunCallback(cb, now);
        case AtStage(i) => error := ApplyStageCallback(i, cb, now);
        case AtJob(i, j) => error := ApplyJobCallback(i, j, cb, now);
      }
      if error.None? && !AssertionsHold(View()) {
        error := Some(InvariantError);
      }
    }

    /** One provider event: refused without a trace, or in full effect on the node it names. */
    method HandleCallback(cb: Callback, now: Time) returns (error: Option<Error>)
      requires cb.WellFormed()
      modifies this
      ensures Became(Handle(old(View()), cb, now), error)
      ensures Inv(old(View())) ==>
                Reacts(old(View()), cb, now, if error.None? then Done(View()) else Raised(View(), error.value))
    {
      hide Reacts, Inv, AssertionsHold, Handle;
      if Inv(View()) {
        CallbackOutcome(View(), cb, now);
      }
      error := TakeCallback(cb, now);
    }

    /** The lock section after a job's wait. */
    method SettleJob(i: nat, j: nat, now: Time) returns (error: Option<Error>)
      requires HasJob(View(), i, j)
      modifies this
      ensures Became(JobSection(old(View()), i, j, now).effect, error)
    {
      var job := stages[i].jobs[j];
      if job.node.status.Succeeded? {
        error := Aggregate(Some(i), now);
        return;
      }
      if job.shouldFail {
        error := FailAt(i, j, Some("deterministic simulated failure"), now);
      } else {
        error := PutJob(i, j, PipelineTree.Finish(job.node, Succeeded, None, now));
        if error.None? {
          error := Aggregate(Some(i), now);
        }
      }
      if error.None? && !AssertionsHold(View()) {
        error := Some(InvariantError);
      }
    }

    method StageAfter(i: nat) returns (next: Pc)
      ensures next == AfterStage(View(), i)
    {
      return if i + 1 < |stages| then EnterStage(i + 1) else PipelineExecutor.Ending;
    }

    method JobAfter(i: nat, j: nat) returns (next: Pc)
      requires i < |stages|
      ensures next == AfterJob(View(), i, j)
    {
      return if j + 1 < |stages[i].jobs| then EnterJob(i, j + 1) else LeaveStage(i);
    }

    /** One lock section of the executor, wherever it was suspended. */
    method RunSection(pc: Pc, stopped: bool, now: Time) returns (next: Pc, saves: bool, error: Option<Error>)
      requires PcIn(View(), pc)
      modifies this
      ensures Became(Run1(old(View()), pc, stopped, now).effect, error)
      ensures next == Run1(old(View()), pc, stopped, now).next && saves == Run1(old(View()), pc, stopped, now).saves
    {
      next, saves, error := PipelineExecutor.Stopped, false, None;
      match pc {
        case NotStarted =>
          if status.Queued? {
            next, saves := if |stages| > 0 then EnterStage(0) else PipelineExecutor.Ending, true;
            error := Start(now);
          }
        case EnterStage(i) =>
          if status.Running? {
            if stages[i].node.status.Succeeded? {
              next := StageAfter(i);
            } else {
              next, saves := if |stages[i].jobs| > 0 then EnterJob(i, 0) else LeaveStage(i), true;
              error := PutStage(i, PipelineTree.Start(stages[i].node, now));
            }
          }
        case EnterJob(i, j) =>
          if status.Running? && stages[i].node.status.Running? {
            saves := true;
            if stages[i].jobs[j].node.status.Succeeded? {
              next := JobAfter(i, j);
              error := Aggregate(Some(i), now);
            } else {
              next := Waiting(i, j);
              error := PutJob(i, j, PipelineTree.Start(stages[i].jobs[j].node, now));
            }
          }
        case Waiting(i, j) =>
          if !stopped && status.Running? {
            saves := true;
            if !stages[i].jobs[j].shouldFail || stages[i].jobs[j].node.status.Succeeded? {
              next := JobAfter(i, j);
            }
            error := SettleJob(i, j, now);
          }
        case LeaveStage(i) =>
          if status.Running? {
            saves := true;
            next := StageAfter(i);
            error := Aggregate(Some(i), now);
            if error.None? && !AssertionsHold(View()) {
              error := Some(InvariantError);
            }
          }
        case Ending =>
          if status.Running? {
            saves := true;
            error := Aggregate(None, now);
            if error.None? && !AssertionsHold(View()) {
              error := Some(InvariantError);
            }
          }
        case Handling =>
          if !status.IsTerminal() {
            saves := true;
            error := Fail(Some("internal simulator error"), now);
          }
          return;
        case Stopped =>
      }
      if error.Some? {
        next, saves := Handling, false;
      }
    }

    /** A user's cancellation; one of an ended run changes nothing. */
    method CancelByUser(now: Time)
      requires Inv(View())
      modifies this
      ensures View() == Settle(old(View()), "cancelled by user", "pipeline was cancelled", now)
    {
      if !status.IsTerminal() {
        CancelRunCommits(View(), Some("cancelled by user"), "pipeline was cancelled", now);
        var error := CancelAll(Some("cancelled by user"), "pipeline was cancelled", now);
      }
    }

    /**
      The executor of a fresh run that no provider interferes with: its sections and cancellations come in any order,
      each with its own clock reading.
     */
    method Execute(moves: seq<Move>) returns (pc: Pc)
      requires Fresh(View()) && Undisturbed(Process(View(), NotStarted), moves)
      modifies this
      ensures Process(View(), pc) == Play(Process(old(View()), NotStarted), moves)
      ensures Outcome(old(View()), Process(View(), pc), SomeCancel(moves))
    {
      hide Inv, Run1, Settle, Outcome, PcOk, Fresh, Undisturbed;
      ghost var r0 := View();
      ghost var start := Process(r0, NotStarted);
      ExecutionOutcome(r0, moves);
      pc := NotStarted;
      for n := 0 to |moves|
        invariant Process(View(), pc) == Play(start, moves[..n])
      {
        assert moves[..n + 1] == moves[..n] + [moves[n]];
        PlayAppend(start, moves[..n], moves[n]);
        UndisturbedAt(start, moves, n);
        PcOkIn(Process(View(), pc));
        match moves[n] {
          case Cancel(now) => CancelByUser(now);
          case Resume(stopped, now) =>
            SectionCommits(View(), pc, stopped, now);
            var saves, error;
            pc, saves, error := RunSection(pc, stopped, now);
          case _ => assert false;
        }
      }
      assert moves[..|moves|] == moves;
    }
  }
}
