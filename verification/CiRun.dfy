/** One CI run and its quality gate: lazy refresh from a wall clock, cancellation and the human decision. */
module CiRun {
  import opened Common
  import opened CiTimeline

  const WAITING_MESSAGE := "quality checks passed; waiting for approval"
  const CANCELLED_MESSAGE := "cancelled by an authenticated machine request"

  datatype GateStatus = Evaluating | Waiting | Approved | Rejected | GateFailed | GateCancelled

  datatype Decision = Approve | Reject

  /**
    Its canonical JSON is hashed into the fingerprint; with an injective hash, equal fingerprints are equal requests.
   */
  datatype DecisionRequest = DecisionRequest(
    eventId: string,
    decision: Decision,
    actorId: string,
    actorName: string,
    comment: string)

  datatype Approval = Approval(request: DecisionRequest, createdAt: Time)

  datatype RunRow = RunRow(
    definition: string,
    revision: nat,
    status: RunStatus,
    message: Option<string>,
    createdAt: Time,
    updatedAt: Time,
    startedAt: Option<Time>,
    finishedAt: Option<Time>,
    cancelledAt: Option<Time>)

  datatype GateRow = GateRow(
    status: GateStatus,
    reachedAt: Option<Time>,
    decidedAt: Option<Time>,
    updatedAt: Time)

  /** The rows of one run in the run, gate and approval tables. */
  datatype Tracked = Tracked(run: RunRow, gate: Option<GateRow>, approvals: seq<Approval>) {
    predicate Gated(status: GateStatus) {
      gate.Some? && gate.value.status == status
    }

    /** `_public_run_status` */
    function PublicStatus(): RunStatus {
      if Gated(Waiting) then WaitingApproval else run.status
    }
  }

  datatype Error = NotFound(resource: string) | Conflict(detail: string) | Invalid(detail: string)

  /** Whole milliseconds since creation, never negative. */
  function ElapsedMs(createdAt: Time, now: Time): nat {
    if now <= createdAt then 0 else (now - createdAt) / MICROS_PER_MS
  }

  lemma ElapsedMonotone(createdAt: Time, a: Time, b: Time)
    requires a <= b
    ensures ElapsedMs(createdAt, a) <= ElapsedMs(createdAt, b)
  {
  }

  lemma ElapsedAt(createdAt: Time, ms: nat, now: Time)
    ensures At(createdAt, ms) <= now ==> ms <= ElapsedMs(createdAt, now)
    ensures ElapsedMs(createdAt, At(createdAt, ms)) == ms
  {
  }

  // ---------------------------------------------------------------------
  // Operations on the rows of one run
  // ---------------------------------------------------------------------

  function Fresh(d: PipelineDefinition, gated: bool, now: Time): Tracked {
    Tracked(RunRow(d.key, d.revision, Queued, None, now, now, None, None, None),
            if gated then Some(GateRow(Evaluating, None, None, now)) else None,
            [])
  }

  /** What the clock says about a run that neither ended nor waits. */
  datatype Observation = Observation(
    status: RunStatus,
    message: Option<string>,
    startedAt: Option<Time>,
    finishedAt: Option<Time>,
    gateReached: bool)

  function Observe(d: PipelineDefinition, s: Tracked, now: Time): Observation
    requires WellFormed(d)
  {
    var elapsed := ElapsedMs(s.run.createdAt, now);
    var end := TerminalPoint(d);
    var started := Some(At(s.run.createdAt, d.queueDelayMs));
    if end.ms <= elapsed && s.gate.Some? && end.status.Succeeded? then
      Observation(Running, Some(WAITING_MESSAGE), started, None, true)
    else if end.ms <= elapsed then
      Observation(end.status, Some(end.message), started, Some(At(s.run.createdAt, end.ms)), false)
    else if d.queueDelayMs <= elapsed then
      Observation(Running, None, started, None, false)
    else if s.run.status.Running? then
      Observation(Running, s.run.message, s.run.startedAt, None, false)
    else
      Observation(Queued, None, None, None, false)
  }

  function Recorded(run: RunRow, o: Observation, now: Time): RunRow {
    if Observation(run.status, run.message, run.startedAt, run.finishedAt, o.gateReached) == o then run
    else run.(status := o.status, message := o.message, updatedAt := now, startedAt := o.startedAt,
              finishedAt := o.finishedAt)
  }

  function Evaluated(d: PipelineDefinition, run: RunRow, gate: GateRow, o: Observation, now: Time): GateRow
    requires WellFormed(d)
  {
    if gate.status.Evaluating? && o.gateReached then
      gate.(status := Waiting, reachedAt := Some(At(run.createdAt, TerminalPoint(d).ms)), updatedAt := now)
    else if gate.status.Evaluating? && o.status.Failed? then
      gate.(status := GateFailed, updatedAt := now)
    else gate
  }

  /** A waiting run is only ever put back to the waiting state. */
  function Paused(s: Tracked, now: Time): Tracked {
    if s.run.status.Running? && s.run.message == Some(WAITING_MESSAGE) then s
    else s.(run := s.run.(status := Running, message := Some(WAITING_MESSAGE), updatedAt := now, finishedAt := None))
  }

  /** `_refresh_record` */
  function Refreshed(d: PipelineDefinition, s: Tracked, now: Time): Tracked
    requires WellFormed(d)
  {
    if s.run.cancelledAt.Some? || s.run.status.IsTerminal() then s
    else if s.Gated(Waiting) then Paused(s, now)
    else
      var o := Observe(d, s, now);
      s.(run := Recorded(s.run, o, now),
         gate := if s.gate.None? then None else Some(Evaluated(d, s.run, s.gate.value, o, now)))
  }

  function ReachedOr(s: Tracked, now: Time): Time {
    if s.gate.Some? && s.gate.value.reachedAt.Some? then Max(now, s.gate.value.reachedAt.value) else now
  }

  /** The writes of `cancel` on a run that has not ended. */
  function Stopped(d: PipelineDefinition, s: Tracked, now: Time): Tracked {
    var at := ReachedOr(s, now);
    var queued := At(s.run.createdAt, d.queueDelayMs);
    var started := if s.run.startedAt.Some? then s.run.startedAt else if queued <= at then Some(queued) else None;
    s.(run := s.run.(status := Cancelled, message := Some(CANCELLED_MESSAGE), updatedAt := at,
                     startedAt := started, finishedAt := Some(at), cancelledAt := Some(at)),
       gate := if s.gate.None? then None
               else Some(s.gate.value.(status := GateCancelled, decidedAt := Some(at), updatedAt := at)))
  }

  /** `cancel` after its refresh. */
  function Cancel(d: PipelineDefinition, s: Tracked, now: Time): Result<Tracked, Error> {
    if s.run.status.Cancelled? then Ok(s)
    else if s.run.status.IsTerminal() then Err(Conflict("a terminal run cannot be cancelled"))
    else Ok(Stopped(d, s, now))
  }

  /** The writes of an accepted gate decision. */
  function Settled(s: Tracked, request: DecisionRequest, now: Time): Tracked
    requires s.gate.Some?
  {
    var at := ReachedOr(s, now);
    var approved := request.decision.Approve?;
    Tracked(s.run.(status := if approved then Succeeded else Failed,
                   message := Some(if approved then "quality gate approved" else "quality gate rejected"),
                   updatedAt := at, finishedAt := Some(at)),
            Some(s.gate.value.(status := if approved then Approved else Rejected, decidedAt := Some(at),
                               updatedAt := at)),
            s.approvals + [Approval(request, at)])
  }

  function Previous(approvals: seq<Approval>, eventId: string): (p: Option<Approval>)
    ensures p.Some? ==> p.value in approvals && p.value.request.eventId == eventId
    ensures p.None? ==> forall a | a in approvals :: a.request.eventId != eventId
  {
    if approvals == [] then None
    else if approvals[0].request.eventId == eventId then Some(approvals[0])
    else Previous(approvals[1..], eventId)
  }

  /** `decide_gate` after its refresh. */
  function Decide(s: Tracked, request: DecisionRequest, now: Time): Result<Tracked, Error> {
    if s.gate.None? then Err(Conflict("this run has no quality approval gate"))
    else
      var previous := Previous(s.approvals, request.eventId);
      if previous.Some? then
        if previous.value.request != request then Err(Conflict("approval event_id was reused with different input"))
        else Ok(s)
      else if s.approvals != [] then Err(Conflict("the quality gate already has a decision"))
      else if !s.Gated(Waiting) then Err(Conflict("quality checks must pass before the gate can be decided"))
      else Ok(Settled(s, request, now))
  }

  // ---------------------------------------------------------------------
  // The invariant of one run
  // ---------------------------------------------------------------------

  /** Which run, approval and timing states go with each gate status. */
  ghost predicate GateConsistent(d: PipelineDefinition, s: Tracked)
    requires WellFormed(d)
  {
    match s.gate
    case None => s.approvals == []
    case Some(gate) =>
      match gate.status
      case Evaluating =>
        && !s.run.status.IsTerminal() && s.approvals == [] && gate.reachedAt.None? && gate.decidedAt.None?
      case Waiting =>
        && s.run.status.Running? && s.approvals == [] && TerminalPoint(d).status.Succeeded?
        && gate.reachedAt == Some(At(s.run.createdAt, TerminalPoint(d).ms)) && gate.decidedAt.None?
      case Approved =>
        && s.run.status.Succeeded? && Decided(d, s, gate) && s.approvals[0].request.decision.Approve?
      case Rejected =>
        && s.run.status.Failed? && Decided(d, s, gate) && s.approvals[0].request.decision.Reject?
      case GateFailed =>
        && s.run.status.Failed? && s.approvals == [] && TerminalPoint(d).status.Failed?
        && gate.reachedAt.None? && gate.decidedAt.None?
      case GateCancelled =>
        && s.run.status.Cancelled? && s.approvals == [] && gate.decidedAt == s.run.finishedAt
  }

  /** One person decided, after the checks had passed, and the run ended at that moment. */
  ghost predicate Decided(d: PipelineDefinition, s: Tracked, gate: GateRow)
    requires WellFormed(d)
  {
    && |s.approvals| == 1 && TerminalPoint(d).status.Succeeded?
    && gate.reachedAt == Some(At(s.run.createdAt, TerminalPoint(d).ms))
    && gate.decidedAt == s.run.finishedAt == Some(s.approvals[0].createdAt)
    && gate.reachedAt.value <= s.approvals[0].createdAt
    && s.run.message == Some(if gate.status.Approved? then "quality gate approved" else "quality gate rejected")
  }

  /** Which times and messages go with each run status. */
  ghost predicate RunConsistent(d: PipelineDefinition, s: Tracked)
    requires WellFormed(d)
  {
    var run := s.run;
    var end := TerminalPoint(d);
    var started := At(run.createdAt, d.queueDelayMs);
    && run.definition == d.key && run.revision == d.revision
    && (run.cancelledAt.Some? <==> run.status.Cancelled?)
    && (run.finishedAt.Some? <==> run.status.IsTerminal())
    && match run.status
       case Queued => run.startedAt.None? && run.message.None?
       case Running =>
         && run.startedAt == Some(started)
         && (if s.Gated(Waiting) then run.message == Some(WAITING_MESSAGE)
             else run.message.None? && d.queueDelayMs < end.ms)
       case WaitingApproval => false
       case Succeeded =>
         && run.startedAt == Some(started) && end.status.Succeeded?
         && (s.gate.None? ==> run.finishedAt == Some(At(run.createdAt, end.ms)) && run.message == Some(end.message))
       case Failed =>
         && run.startedAt == Some(started)
         && (!s.Gated(Rejected) ==>
               && end.status.Failed?
               && run.finishedAt == Some(At(run.createdAt, end.ms)) && run.message == Some(end.message))
       case Cancelled =>
         && run.message == Some(CANCELLED_MESSAGE) && run.finishedAt == run.cancelledAt
         && (run.startedAt.Some? ==> run.startedAt.value == started)
         && (started <= run.cancelledAt.value ==> run.startedAt.Some?)
         && (end.status.Succeeded? || ElapsedMs(run.createdAt, run.cancelledAt.value) < end.ms)
  }

  ghost predicate Consistent(d: PipelineDefinition, s: Tracked)
    requires WellFormed(d)
  {
    RunConsistent(d, s) && GateConsistent(d, s)
  }

  /** Position in the life cycle; only ever rises. */
  function Rank(status: RunStatus): nat {
    match status
    case Queued => 0
    case Running => 1
    case WaitingApproval => 2
    case _ => 3
  }

  /** A committed change: the public state stays the same or moves on in the life cycle, and an ended run is frozen. */
  predicate Advances(s: Tracked, t: Tracked) {
    && t.run.createdAt == s.run.createdAt
    && (s.gate.Some? <==> t.gate.Some?)
    && (s.run.status.IsTerminal() ==> t == s)
    && s.approvals <= t.approvals
    && (|| (t.PublicStatus() == s.PublicStatus() && t.run.message == s.run.message)
        || Rank(s.PublicStatus()) < Rank(t.PublicStatus()))
  }

  lemma FreshConsistent(d: PipelineDefinition, gated: bool, now: Time)
    requires WellFormed(d)
    ensures Consistent(d, Fresh(d, gated, now))
  {
  }

  lemma RefreshKeepsDefinition(d: PipelineDefinition, s: Tracked, now: Time)
    requires WellFormed(d)
    ensures var t := Refreshed(d, s, now);
            t.run.definition == s.run.definition && t.run.revision == s.run.revision && t.approvals == s.approvals
  {
    hide WellFormed, Observe;
  }

  lemma RefreshConsistent(d: PipelineDefinition, s: Tracked, now: Time)
    requires WellFormed(d) && Consistent(d, s)
    ensures Consistent(d, Refreshed(d, s, now))
    ensures Advances(s, Refreshed(d, s, now))
  {
    hide JobsOf, Timeline, FirstFailure, TerminalPoint, WellFormed;
  }

  /** The run ended now, but if it was waiting, not before the moment its checks had passed. */
  ghost predicate EndedAt(d: PipelineDefinition, t: Tracked, now: Time, waited: bool)
    requires WellFormed(d)
  {
    var passed := t.run.createdAt + TerminalPoint(d).ms * 1000;
    var at := if waited && now < passed then passed else now;
    && t.run.finishedAt == Some(at) && t.run.updatedAt == at
    && (t.run.status.Cancelled? ==> t.run.cancelledAt == Some(at))
    && (t.gate.Some? ==> t.gate.value.decidedAt == Some(at) && t.gate.value.updatedAt == at)
  }

  /** A cancellation succeeds exactly on a run that has not ended, or was cancelled before. */
  lemma CancelConsistent(d: PipelineDefinition, s: Tracked, now: Time)
    requires WellFormed(d) && Consistent(d, s)
    ensures var r := Cancel(d, Refreshed(d, s, now), now);
            && (r.Ok? <==> var status := Refreshed(d, s, now).run.status; !status.Succeeded? && !status.Failed?)
            && (r.Ok? ==> Consistent(d, r.value) && Advances(s, r.value) && r.value.run.status.Cancelled?)
            && (r.Ok? && Refreshed(d, s, now).run.status.Cancelled? ==> r.value == Refreshed(d, s, now))
            && (r.Ok? && !Refreshed(d, s, now).run.status.Cancelled? ==>
                  EndedAt(d, r.value, now, Refreshed(d, s, now).Gated(Waiting)))
  {
    hide JobsOf, Timeline, FirstFailure, TerminalPoint, WellFormed;
    RefreshConsistent(d, s, now);
    var t := Refreshed(d, s, now);
    if t.gate.Some? && t.gate.value.reachedAt.Some? {
      ElapsedAt(s.run.createdAt, TerminalPoint(d).ms, ReachedOr(t, now));
    }
  }

  lemma SettledConsistent(d: PipelineDefinition, t: Tracked, request: DecisionRequest, now: Time)
    requires WellFormed(d) && Consistent(d, t) && t.Gated(Waiting)
    ensures Consistent(d, Settled(t, request, now)) && Advances(t, Settled(t, request, now))
    ensures EndedAt(d, Settled(t, request, now), now, true)
    ensures Settled(t, request, now).approvals
         == t.approvals + [Approval(request, Settled(t, request, now).run.updatedAt)]
    ensures if request.decision.Approve? then Settled(t, request, now).run.status.Succeeded?
            else Settled(t, request, now).run.status.Failed?
  {
    hide JobsOf, Timeline, FirstFailure, TerminalPoint, WellFormed;
  }

  lemma FewApprovals(d: PipelineDefinition, t: Tracked)
    requires WellFormed(d) && Consistent(d, t)
    ensures |t.approvals| <= 1 && (t.gate.None? || t.Gated(Waiting) ==> t.approvals == [])
  {
    hide TerminalPoint, WellFormed;
  }

  /** A decision takes effect exactly once, on a waiting gate; repeating it later is accepted without effect. */
  lemma DecideConsistent(d: PipelineDefinition, s: Tracked, request: DecisionRequest, now: Time)
    requires WellFormed(d) && Consistent(d, s)
    ensures var t := Refreshed(d, s, now);
            var r := Decide(t, request, now);
            && (r.Ok? <==> t.Gated(Waiting) || exists a | a in t.approvals :: a.request == request)
            && (r.Ok? ==> Consistent(d, r.value) && Advances(s, r.value))
            && (r.Ok? && !t.Gated(Waiting) ==> r.value == t)
            && (r.Ok? ==> |r.value.approvals| == 1 && r.value.approvals[0].request == request)
            && (t.Gated(Waiting) ==>
                  && r.Ok? && EndedAt(d, r.value, now, true)
                  && r.value.approvals[0].createdAt == r.value.run.updatedAt
                  && (if request.decision.Approve? then r.value.run.status.Succeeded? else r.value.run.status.Failed?))
  {
    hide Consistent, WellFormed, Refreshed, EndedAt;
    RefreshConsistent(d, s, now);
    var t := Refreshed(d, s, now);
    FewApprovals(d, t);
    if t.Gated(Waiting) {
      SettledConsistent(d, t, request, now);
    }
  }

  lemma RefreshIdempotent(d: PipelineDefinition, s: Tracked, now: Time)
    requires WellFormed(d) && Consistent(d, s)
    ensures Refreshed(d, Refreshed(d, s, now), now) == Refreshed(d, s, now)
  {
    hide JobsOf, Timeline, FirstFailure, TerminalPoint, WellFormed, ElapsedMs;
  }

  /** The gate cannot be bypassed. */
  lemma GateDecidesOutcome(d: PipelineDefinition, s: Tracked)
    requires WellFormed(d) && Consistent(d, s) && s.gate.Some?
    ensures s.run.status.Succeeded? <==> s.Gated(Approved)
    ensures s.run.status.Succeeded? <==> |s.approvals| == 1 && s.approvals[0].request.decision.Approve?
    ensures s.run.status.Failed? <==> s.Gated(Rejected) || s.Gated(GateFailed)
    ensures s.Gated(Rejected) <==> |s.approvals| == 1 && s.approvals[0].request.decision.Reject?
    ensures s.run.status.Cancelled? <==> s.Gated(GateCancelled)
    ensures |s.approvals| <= 1
  {
    hide TerminalPoint, WellFormed;
  }

  // ---------------------------------------------------------------------
  // Lazy refresh does not depend on when and how often it happens
  // ---------------------------------------------------------------------

  function RefreshAll(d: PipelineDefinition, s: Tracked, clocks: seq<Time>): Tracked
    requires WellFormed(d)
    decreases |clocks|
  {
    if clocks == [] then s
    else Refreshed(d, RefreshAll(d, s, clocks[..|clocks| - 1]), clocks[|clocks| - 1])
  }

  /** Everything except the two `updated_at` columns. */
  function Visible(s: Tracked): Tracked {
    s.(run := s.run.(updatedAt := 0), gate := if s.gate.None? then None else Some(s.gate.value.(updatedAt := 0)))
  }

  function Latest(clocks: seq<Time>): Time
    requires clocks != []
  {
    if |clocks| == 1 then clocks[0] else Max(Latest(clocks[..|clocks| - 1]), clocks[|clocks| - 1])
  }

  lemma RefreshSeesOnlyVisible(d: PipelineDefinition, s: Tracked, t: Tracked, now: Time)
    requires WellFormed(d) && Visible(s) == Visible(t)
    ensures Visible(Refreshed(d, s, now)) == Visible(Refreshed(d, t, now))
  {
    hide JobsOf, Timeline, FirstFailure, TerminalPoint, WellFormed;
    assert s.run.(updatedAt := 0) == t.run.(updatedAt := 0);
  }

  lemma RefreshTwice(d: PipelineDefinition, s: Tracked, a: Time, b: Time)
    requires WellFormed(d) && Consistent(d, s)
    ensures Visible(Refreshed(d, Refreshed(d, s, a), b)) == Visible(Refreshed(d, s, Max(a, b)))
  {
    hide JobsOf, Timeline, FirstFailure, TerminalPoint, WellFormed, ElapsedMs;
    ElapsedMonotone(s.run.createdAt, a, Max(a, b));
    ElapsedMonotone(s.run.createdAt, b, Max(a, b));
  }

  /**
    Any refreshes, in any order and with a clock that may jump backwards, amount to one refresh at the latest reading.
   */
  lemma {:induction false} RefreshIsOrderIndependent(d: PipelineDefinition, s: Tracked, clocks: seq<Time>)
    requires WellFormed(d) && Consistent(d, s) && clocks != []
    ensures Visible(RefreshAll(d, s, clocks)) == Visible(Refreshed(d, s, Latest(clocks)))
    decreases |clocks|
  {
    hide Refreshed, Consistent, WellFormed, Visible;
    var n := |clocks| - 1;
    var last := clocks[n];
    if n == 0 {
      assert RefreshAll(d, s, clocks[..0]) == s;
    } else {
      var before := RefreshAll(d, s, clocks[..n]);
      RefreshIsOrderIndependent(d, s, clocks[..n]);
      RefreshSeesOnlyVisible(d, before, Refreshed(d, s, Latest(clocks[..n])), last);
      RefreshTwice(d, s, Latest(clocks[..n]), last);
    }
  }

  /** No refreshes and no clock jumps release a waiting run. */
  lemma {:induction false} OnlyPeopleEndTheWait(d: PipelineDefinition, s: Tracked, clocks: seq<Time>)
    requires WellFormed(d) && Consistent(d, s) && s.Gated(Waiting)
    ensures RefreshAll(d, s, clocks) == s
    decreases |clocks|
  {
    if clocks != [] {
      OnlyPeopleEndTheWait(d, s, clocks[..|clocks| - 1]);
    }
  }

  // ---------------------------------------------------------------------
  // What a reader of the run sees
  // ---------------------------------------------------------------------

  /** The point on the timeline at which `_run_view` shows the jobs. */
  function ShownMs(run: RunRow, now: Time): nat {
    var base := run.cancelledAt.GetOr(now);
    ElapsedMs(run.createdAt,
              if run.status.IsTerminal() && run.finishedAt.Some? then Max(base, run.finishedAt.value)
              else if run.status.Running? && run.startedAt.Some? then Max(base, run.startedAt.value)
              else base)
  }

  function ShownJobs(d: PipelineDefinition, s: Tracked, now: Time): seq<JobView> {
    JobViews(d, s.run.createdAt, ShownMs(s.run, now), s.run.cancelledAt)
  }

  /** The run row and its job views tell the same story, except for a waiting run under a clock set back. */
  ghost predicate Coherent(d: PipelineDefinition, s: Tracked, views: seq<JobView>)
    requires WellFormed(d) && |views| == |Timeline(d)|
  {
    var n := |Timeline(d)|;
    match s.PublicStatus()
    case Queued => Shape(views, 0, None, Queued)
    case Running => exists a :: Shape(views, a, None, Queued) || Shape(views, a, Some(Running), Queued)
    case WaitingApproval => true
    case Succeeded => Shape(views, n, None, Succeeded)
    case Failed =>
      if s.Gated(Rejected) then Shape(views, n, None, Succeeded)
      else
        var f := FirstFailure(Timeline(d));
        f.Some? && (Timeline(d)[f.value].job.durationMs > 0 ==> Shape(views, f.value, Some(Failed), Cancelled))
    case Cancelled => exists a :: Shape(views, a, None, Cancelled)
  }

  /** After the refresh every read starts with, the job views agree with the run row. */
  lemma ViewsAgreeWithRun(d: PipelineDefinition, s: Tracked, now: Time)
    requires WellFormed(d) && Consistent(d, s) && Refreshed(d, s, now) == s
    ensures Coherent(d, s, ShownJobs(d, s, now))
  {
    hide JobsOf, Timeline, FirstFailure, TerminalPoint, WellFormed, JobViews, Shape;
    var created := s.run.createdAt;
    var ms := ShownMs(s.run, now);
    var end := TerminalPoint(d);
    match s.PublicStatus()
    case Queued => QueuedShape(d, created, ms);
    case Running =>
      ElapsedAt(created, d.queueDelayMs, now);
      RunningShape(d, created, ms);
    case WaitingApproval =>
    case Succeeded =>
      EndsAfterChecks(d, s);
      ElapsedAt(created, end.ms, Max(now, s.run.finishedAt.value));
      SucceededShape(d, created, ms, None);
    case Failed =>
      EndsAfterChecks(d, s);
      ElapsedAt(created, end.ms, Max(now, s.run.finishedAt.value));
      if s.Gated(Rejected) {
        SucceededShape(d, created, ms, None);
      } else {
        FailingDefinition(d);
        FailedShape(d, created, ms, None);
      }
    case Cancelled =>
      var at := s.run.cancelledAt.value;
      if ms < end.ms {
        CancelledShape(d, created, ms, at);
      } else {
        SucceededShape(d, created, ms, Some(at));
        AllSucceeded(JobViews(d, created, ms, Some(at)), |Timeline(d)|);
      }
  }

  /** A run that was not cancelled never ends before its checks do. */
  lemma EndsAfterChecks(d: PipelineDefinition, s: Tracked)
    requires WellFormed(d) && Consistent(d, s) && (s.run.status.Succeeded? || s.run.status.Failed?)
    ensures s.run.finishedAt.Some? && At(s.run.createdAt, TerminalPoint(d).ms) <= s.run.finishedAt.value
  {
    hide JobsOf, Timeline, FirstFailure, TerminalPoint, WellFormed;
  }

  lemma AllSucceeded(views: seq<JobView>, n: nat)
    requires n == |views| && Shape(views, n, None, Succeeded)
    ensures Shape(views, n, None, Cancelled)
  {
  }

  lemma FailingDefinition(d: PipelineDefinition)
    requires WellFormed(d)
    ensures TerminalPoint(d).status.Failed? <==> FirstFailure(Timeline(d)).Some?
  {
  }

  lemma QueuedShape(d: PipelineDefinition, createdAt: Time, elapsedMs: nat)
    requires WellFormed(d) && elapsedMs < d.queueDelayMs
    ensures Shape(JobViews(d, createdAt, elapsedMs, None), 0, None, Queued)
  {
    forall k | 0 <= k < |Timeline(d)|
      ensures elapsedMs < Timeline(d)[k].startMs
    {
      SlotAfterDelay(d, k);
    }
  }

  /**
    A waiting run shows every job as succeeded exactly while the clock has not been set back before the checks ended.
   */
  lemma WaitingViewsExactlyWhen(d: PipelineDefinition, s: Tracked, now: Time)
    requires WellFormed(d) && Consistent(d, s) && s.Gated(Waiting)
    ensures Shape(ShownJobs(d, s, now), |Timeline(d)|, None, Succeeded)
       <==> d.queueDelayMs == TerminalPoint(d).ms || At(s.run.createdAt, TerminalPoint(d).ms) <= now
  {
    hide JobsOf, Timeline, TerminalPoint, WellFormed, JobViews, FirstFailure;
    var end := TerminalPoint(d);
    SucceededVisibleExactlyWhen(d, s.run.createdAt, ShownMs(s.run, now), None);
    FailingDefinition(d);
    ElapsedAt(s.run.createdAt, d.queueDelayMs, now);
    ElapsedAt(s.run.createdAt, end.ms, now);
  }

  /**
    The exception on a concrete run: it waits for approval, the clock is set back to its creation, and its only job
    reads RUNNING.
   */
  lemma WaitingViewsUnderASetBackClock()
    ensures var d :=
      PipelineDefinition("local-quality-gate", "P", 1, 50,
                         [StageDefinition("s", "S", [JobDefinition("j", "J", 100, false)])]);
            WellFormed(d)
            && var s := Refreshed(d, Fresh(d, true, 0), 150_000);
               && s.PublicStatus().WaitingApproval? && Refreshed(d, s, 0) == s
               && |Timeline(d)| == 1 && ShownJobs(d, s, 0)[0].status.Running?
  {
    var job := JobDefinition("j", "J", 100, false);
    var stages := [StageDefinition("s", "S", [job])];
    var d := PipelineDefinition("local-quality-gate", "P", 1, 50, stages);
    assert JobsOf(stages[1..]) == [];
    assert JobsOf(stages) == [job];
    assert Start([job], 50, 1) == Start([job], 50, 0) + 100 == 150;
    assert Timeline(d) == [Slot(job, 50, 150)];
    assert !Timeline(d)[0].job.shouldFail;
    assert TerminalPoint(d).ms == 150 && TerminalPoint(d).status.Succeeded?;
  }
}
