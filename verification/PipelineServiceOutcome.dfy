/** How the runs of a service end when no provider interferes with them, whatever happens to the other runs. */
module PipelineServiceOutcome {
  import opened Common
  import opened PipelineTree
  import opened PipelineCallbacks
  import opened PipelineExecutor
  import opened PipelineExecution
  import opened PipelineStore
  import opened PipelineSystem

  /** Run `id` and its executor; a finished executor has left the task table. */
  function ProcessOf(w: Service, id: RunId): Process
    requires id in w.state.runs
  {
    Process(w.state.runs[id], if id in w.tasks then w.tasks[id] else Stopped)
  }

  /**
    The operation leaves run `id` to its executor and its users: no callback for it, no crash, no successful shutdown,
    and its own sections are saved. Anything may happen to other runs.
   */
  predicate Spares(op: Op, id: RunId) {
    match op
    case Restart => false
    case Shutdown(_, saveFails) => saveFails
    case ApplyCallback(other, _, _, _, _) => other != id
    case Resume(other, _, _, saveFails) => other == id ==> !saveFails
    case _ => true
  }

  predicate Cancels(op: Op, id: RunId) {
    op.Cancel? && op.id == id
  }

  predicate SomeCancels(ops: seq<Op>, id: RunId) {
    exists k | 0 <= k < |ops| :: Cancels(ops[k], id)
  }

  /** Such an operation is no move or one move of the run and its executor. */
  lemma StepIsMove(w: Service, op: Op, id: RunId) returns (m: Option<Move>)
    requires ServiceInv(w) && Possible(w, op) && w.up && id in w.state.runs && Spares(op, id)
    ensures Step(w, op).up && id in Step(w, op).state.runs
    ensures m.None? ==> ProcessOf(Step(w, op), id) == ProcessOf(w, id)
    ensures m.Some? ==>
              && ProcessInv(ProcessOf(w, id)) && Honest(ProcessOf(w, id), m.value)
              && ProcessOf(Step(w, op), id) == Next(ProcessOf(w, id), m.value)
              && (m.value.Resume? || (m.value.Cancel? && Cancels(op, id)))
  {
    hide Inv, TreeForward, Grows, Run1, CancelRun, Handle, NewRun;
    m := None;
    match op
    case Initialize(_, _) =>
    case Trigger(request, newId, now, saveFails) =>
      TriggerSparesOthers(w, request, newId, now, saveFails, id);
    case Cancel(other, now, saveFails) =>
      RunOf(w.state, id);
      ProcessIs(w, id);
      if other == id {
        m := CancelIsMove(w, id, now, saveFails);
      } else if other in w.state.runs {
        CancelSparesOthers(w, other, now, saveFails, id);
      }
    case ApplyCallback(other, cb, fingerprint, now, saveFails) =>
      DeliverySparesOthers(w, other, cb, fingerprint, now, saveFails, id);
    case Resume(other, stopped, now, saveFails) =>
      ProcessIs(w, id);
      TaskAt(w, other);
      if other == id {
        ResumedIsNext(w.state, id, w.tasks[id], stopped, now, saveFails);
        m := Some(PipelineExecutor.Resume(stopped, now));
      } else {
        ResumeSparesOthers(w, other, stopped, now, saveFails, id);
      }
    case Shutdown(_, _) =>
  }

  lemma ProcessIs(w: Service, id: RunId)
    requires ServiceInv(w) && id in w.state.runs
    ensures ProcessInv(ProcessOf(w, id))
  {
    hide Inv, TasksMatch;
    RunOf(w.state, id);
    if id in w.tasks {
      TaskAt(w, id);
    }
  }

  lemma CancelIsMove(w: Service, id: RunId, now: Time, saveFails: bool) returns (m: Option<Move>)
    requires ServiceInv(w) && w.up && id in w.state.runs
    ensures id in Step(w, Op.Cancel(id, now, saveFails)).state.runs && ProcessInv(ProcessOf(w, id))
    ensures m.None? ==> ProcessOf(Step(w, Op.Cancel(id, now, saveFails)), id) == ProcessOf(w, id)
    ensures m.Some? ==> && m.value == PipelineExecutor.Cancel(now)
                        && ProcessOf(Step(w, Op.Cancel(id, now, saveFails)), id) == Next(ProcessOf(w, id), m.value)
  {
    hide Inv, TreeForward, CancelRun;
    ProcessIs(w, id);
    RunOf(w.state, id);
    var r := w.state.runs[id];
    var acts := !w.closed && !r.node.status.IsTerminal() && !saveFails;
    m := if acts then Some(PipelineExecutor.Cancel(now)) else None;
    if acts {
      CancelRunCommits(r, Some("cancelled by user"), "pipeline was cancelled", now);
      SameId(r, CancelRun(r, Some("cancelled by user"), "pipeline was cancelled", now).run);
    }
  }

  lemma TriggerSparesOthers(w: Service, request: TriggerRequest, newId: RunId, now: Time, saveFails: bool, id: RunId)
    requires ServiceInv(w) && Possible(w, Trigger(request, newId, now, saveFails)) && id in w.state.runs
    ensures id in Step(w, Trigger(request, newId, now, saveFails)).state.runs
    ensures ProcessOf(Step(w, Trigger(request, newId, now, saveFails)), id) == ProcessOf(w, id)
  {
    hide Inv, TreeForward, NewRun;
    NewRunIsFresh(request, newId, now);
  }

  lemma CancelSparesOthers(w: Service, other: RunId, now: Time, saveFails: bool, id: RunId)
    requires ServiceInv(w) && w.up && id in w.state.runs && other in w.state.runs && other != id
    ensures id in Step(w, Op.Cancel(other, now, saveFails)).state.runs
    ensures ProcessOf(Step(w, Op.Cancel(other, now, saveFails)), id) == ProcessOf(w, id)
  {
    hide Inv, TreeForward, CancelRun;
    RunOf(w.state, other);
    var r := w.state.runs[other];
    if !r.node.status.IsTerminal() {
      CancelRunCommits(r, Some("cancelled by user"), "pipeline was cancelled", now);
      SameId(r, CancelRun(r, Some("cancelled by user"), "pipeline was cancelled", now).run);
    }
  }

  lemma DeliverySparesOthers(w: Service, other: RunId, cb: Callback, fingerprint: Fingerprint, now: Time,
                             saveFails: bool, id: RunId)
    requires ServiceInv(w) && w.up && cb.WellFormed() && id in w.state.runs && other != id
    ensures id in Step(w, ApplyCallback(other, cb, fingerprint, now, saveFails)).state.runs
    ensures ProcessOf(Step(w, ApplyCallback(other, cb, fingerprint, now, saveFails)), id) == ProcessOf(w, id)
  {
    hide Inv, TreeForward, Handle;
    if Decide(w.state, other, cb, fingerprint).NewEvent? {
      RunOf(w.state, other);
      CallbackAllOrNothing(w.state.runs[other], cb, now);
      var e := Handle(w.state.runs[other], cb, now);
      if e.Done? {
        SameId(w.state.runs[other], e.run);
      }
    }
  }

  lemma ResumeSparesOthers(w: Service, other: RunId, stopped: bool, now: Time, saveFails: bool, id: RunId)
    requires ServiceInv(w) && Possible(w, Op.Resume(other, stopped, now, saveFails)) && id in w.state.runs
             && other != id
    ensures id in Step(w, Op.Resume(other, stopped, now, saveFails)).state.runs
    ensures ProcessOf(Step(w, Op.Resume(other, stopped, now, saveFails)), id) == ProcessOf(w, id)
  {
    hide Inv, TreeForward, Run1;
    TaskAt(w, other);
    RunOf(w.state, other);
    SectionCommits(w.state.runs[other], w.tasks[other], stopped, now);
    SameId(w.state.runs[other], Run1(w.state.runs[other], w.tasks[other], stopped, now).effect.run);
  }

  /** An execution on track stays on track over any history that spares the run. */
  lemma {:induction false} HistoryStaysOnTrack(r0: Run, w: Service, ops: seq<Op>, id: RunId, cancelled: bool)
    requires ServiceInv(w) && w.up && id in w.state.runs && OnTrack(r0, ProcessOf(w, id), cancelled)
    requires forall k | 0 <= k < |ops| :: Spares(ops[k], id)
    requires SomeCancels(ops, id) ==> cancelled
    ensures id in After(w, ops).state.runs && OnTrack(r0, ProcessOf(After(w, ops), id), cancelled)
    decreases |ops|
  {
    hide ServiceInv, Possible, Step, OnTrack, Spares, Cancels, ProcessOf, Next;
    if ops != [] {
      var rest := ops[1..];
      assert forall k | 0 <= k < |rest| :: rest[k] == ops[k + 1];
      if !Possible(w, ops[0]) {
        HistoryStaysOnTrack(r0, w, rest, id, cancelled);
      } else {
        StepKeeps(w, ops[0]);
        var m := StepIsMove(w, ops[0], id);
        if m.Some? {
          StepOnTrack(r0, ProcessOf(w, id), m.value, cancelled);
        }
        HistoryStaysOnTrack(r0, Step(w, ops[0]), rest, id, cancelled);
      }
    }
  }

  // ---------------------------------------------------------------------
  // In terms of the request
  // ---------------------------------------------------------------------

  /** The request asks for job `j` of stage `i`. */
  predicate Asked(request: TriggerRequest, i: int, j: int) {
    0 <= i < |request.stages| && 0 <= j < |request.stages[i].jobs|
  }

  /** No requested job before (i, j), in stage and job order, should fail. */
  ghost predicate NoneShouldFailBefore(request: TriggerRequest, i: nat, j: nat) {
    forall k, l | Asked(request, k, l) && (k < i || (k == i && l < j)) :: !request.stages[k].jobs[l].shouldFail
  }

  ghost predicate NoneShouldFail(request: TriggerRequest) {
    NoneShouldFailBefore(request, |request.stages|, 0)
  }

  /** The run failed at the first requested job that should fail. */
  ghost predicate FailedAsAsked(request: TriggerRequest, r: Run) {
    exists i: nat, j: nat ::
      && Asked(request, i, j) && request.stages[i].jobs[j].shouldFail && NoneShouldFailBefore(request, i, j)
      && EndsAt(r, i, j, Failed)
  }

  /** The run was cancelled at some job, and no requested job before it should fail. */
  ghost predicate CutOffAsAsked(request: TriggerRequest, r: Run) {
    exists i: nat, j: nat :: Asked(request, i, j) && NoneShouldFailBefore(request, i, j) && EndsAt(r, i, j, Cancelled)
  }

  /**
    The run is the requested one. An executor that stopped left it ended; it succeeded only if no requested job should
    fail, failed only at the first that should, and was cancelled only by a cancellation.
   */
  ghost predicate EndsAsAsked(request: TriggerRequest, p: Process, cancelled: bool) {
    && MadeFor(p.run, request)
    && (p.pc.Stopped? ==> p.run.node.status.IsTerminal())
    && (p.run.node.status.Succeeded? ==> AllSucceeded(p.run) && NoneShouldFail(request))
    && (p.run.node.status.Failed? ==> FailedAsAsked(request, p.run))
    && (p.run.node.status.Cancelled? ==> cancelled && CutOffAsAsked(request, p.run))
    && (p.pc.Stopped? && !cancelled ==>
          if NoneShouldFail(request) then AllSucceeded(p.run) else FailedAsAsked(request, p.run))
  }

  lemma SameJobs(request: TriggerRequest, r: Run, i: nat, j: nat)
    requires MadeFor(r, request)
    ensures forall k, l :: HasJob(r, k, l) <==> Asked(request, k, l)
    ensures forall k, l | Asked(request, k, l) :: r.stages[k].jobs[l].shouldFail == request.stages[k].jobs[l].shouldFail
    ensures NoneFailsBefore(r, i, j) <==> NoneShouldFailBefore(request, i, j)
  {
    assert forall k | 0 <= k < |r.stages| :: StageMadeFor(r.stages[k], request.stages[k]);
    forall k, l | Asked(request, k, l)
      ensures r.stages[k].jobs[l].shouldFail == request.stages[k].jobs[l].shouldFail
    {
      assert StageMadeFor(r.stages[k], request.stages[k]);
    }
  }

  lemma OutcomeAsAsked(request: TriggerRequest, r0: Run, p: Process, cancelled: bool)
    requires MadeFor(r0, request) && Outcome(r0, p, cancelled)
    ensures EndsAsAsked(request, p, cancelled)
  {
    hide TreeForward, EndsAt, MadeFor, AllSucceeded, NoneFailsBefore, NoneShouldFailBefore;
    MadeForStays(r0, p.run, request);
    SameJobs(request, r0, |request.stages|, 0);
    SameStages(request, r0);
    if FailedAtFirst(r0, p.run) {
      var i, j :| FirstFailure(r0, i, j) && EndsAt(p.run, i, j, Failed);
      SameJobs(request, r0, i, j);
    }
    if CutOff(r0, p.run) {
      var i, j :| NoneFailsBefore(r0, i, j) && EndsAt(p.run, i, j, Cancelled);
      SameJobs(request, r0, i, j);
      SameJobs(request, p.run, i, j);
      EndIsThere(p.run, i, j, Cancelled);
    }
  }

  lemma SameStages(request: TriggerRequest, r: Run)
    requires MadeFor(r, request)
    ensures |r.stages| == |request.stages|
  {
  }

  lemma EndIsThere(r: Run, i: nat, j: nat, how: Status)
    requires EndsAt(r, i, j, how)
    ensures HasJob(r, i, j)
  {
  }

  /**
    A triggered run in a service with any other runs: over every history that brings no callback, crash or shutdown
    upon it and saves its sections, it ends as its request says.
   */
  lemma ServiceOutcome(w: Service, request: TriggerRequest, id: RunId, now: Time, ops: seq<Op>)
    requires ServiceInv(w) && Possible(w, Trigger(request, id, now, false)) && request.autoStart
    requires !w.closed && (request.idempotencyKey.Some? ==> request.idempotencyKey.value !in w.state.triggerKeys)
    requires forall k | 0 <= k < |ops| :: Spares(ops[k], id)
    ensures ServiceInv(Step(w, Trigger(request, id, now, false)))
    ensures var v := After(Step(w, Trigger(request, id, now, false)), ops);
            && id in v.state.runs
            && EndsAsAsked(request, ProcessOf(v, id), SomeCancels(ops, id))
  {
    hide NewRun, Inv, TreeForward, Grows, TasksMatch, AllSucceeded, FailedAtFirst, CutOff, EndsAsAsked, MadeFor;
    var op := Trigger(request, id, now, false);
    StepKeeps(w, op);
    var r0 := NewRun(request, id, now);
    NewRunIsFresh(request, id, now);
    NewRunIsAsRequested(request, id, now);
    var u := Step(w, op);
    assert ProcessOf(u, id) == Process(r0, NotStarted);
    FreshOnTrack(r0, SomeCancels(ops, id));
    HistoryStaysOnTrack(r0, u, ops, id, SomeCancels(ops, id));
    TrackOutcome(r0, ProcessOf(After(u, ops), id), SomeCancels(ops, id));
    OutcomeAsAsked(request, r0, ProcessOf(After(u, ops), id), SomeCancels(ops, id));
  }
}
