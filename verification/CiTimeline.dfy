/** Fixed CI definitions, the timeline they imply, and the job views shown at any elapsed time. */
module CiTimeline {
  import opened Common

  /** Microseconds since an arbitrary epoch. */
  type Time = int

  const MICROS_PER_MS := 1000

  datatype RunStatus = Queued | Running | WaitingApproval | Succeeded | Failed | Cancelled {
    predicate IsTerminal() {
      Succeeded? || Failed? || Cancelled?
    }
  }

  datatype JobDefinition = JobDefinition(key: string, name: string, durationMs: nat, shouldFail: bool)

  datatype StageDefinition = StageDefinition(key: string, name: string, jobs: seq<JobDefinition>)

  datatype PipelineDefinition = PipelineDefinition(
    key: string,
    name: string,
    revision: nat,
    queueDelayMs: nat,
    stages: seq<StageDefinition>)

  function JobsOf(stages: seq<StageDefinition>): seq<JobDefinition> {
    if stages == [] then [] else stages[0].jobs + JobsOf(stages[1..])
  }

  /** What the definition constructors check and the timeline relies on. */
  predicate WellFormed(d: PipelineDefinition) {
    && |d.stages| > 0
    && (forall i | 0 <= i < |d.stages| :: |d.stages[i].jobs| > 0)
    && UniqueKeys(JobsOf(d.stages))
  }

  predicate UniqueKeys(jobs: seq<JobDefinition>) {
    forall k, l | 0 <= k < |jobs| && 0 <= l < |jobs| && jobs[k].key == jobs[l].key :: k == l
  }

  /** The number of jobs in the stages before stage `i`. */
  function JobsBefore(stages: seq<StageDefinition>, i: nat): nat
    requires i <= |stages|
  {
    if i == 0 then 0 else JobsBefore(stages, i - 1) + |stages[i - 1].jobs|
  }

  /** Where the jobs of stage `i` lie among all jobs. */
  lemma {:induction false} JobsOfStage(stages: seq<StageDefinition>, i: nat)
    requires i <= |stages|
    ensures JobsBefore(stages, i) <= |JobsOf(stages)|
    ensures i == |stages| ==> JobsBefore(stages, i) == |JobsOf(stages)|
    ensures i < |stages| ==> JobsBefore(stages, i + 1) <= |JobsOf(stages)|
    ensures i < |stages| ==> JobsBefore(stages, i + 1) == JobsBefore(stages, i) + |stages[i].jobs|
    ensures i < |stages| ==> JobsOf(stages)[JobsBefore(stages, i)..JobsBefore(stages, i + 1)] == stages[i].jobs
    decreases |stages|
  {
    if i > 0 {
      JobsOfStage(stages[1..], i - 1);
      JobsBeforeTail(stages, i);
      if i < |stages| {
        JobsBeforeTail(stages, i + 1);
      }
    } else if stages != [] {
      assert JobsBefore(stages, 1) == |stages[0].jobs|;
    }
  }

  lemma {:induction false} JobsBeforeTail(stages: seq<StageDefinition>, i: nat)
    requires 1 <= i <= |stages|
    ensures JobsBefore(stages, i) == |stages[0].jobs| + JobsBefore(stages[1..], i - 1)
  {
    if i > 1 {
      JobsBeforeTail(stages, i - 1);
    } else {
      assert JobsBefore(stages, 0) == 0;
    }
  }

  datatype Slot = Slot(job: JobDefinition, startMs: nat, finishMs: nat)

  /** Jobs run back to back: job `k` starts after the queue delay and the durations of all jobs before it. */
  function Start(jobs: seq<JobDefinition>, delayMs: nat, k: nat): nat
    requires k <= |jobs|
  {
    if k == 0 then delayMs else Start(jobs, delayMs, k - 1) + jobs[k - 1].durationMs
  }

  function Timeline(d: PipelineDefinition): (slots: seq<Slot>)
    ensures |slots| == |JobsOf(d.stages)|
  {
    var jobs := JobsOf(d.stages);
    seq(|jobs|, k requires 0 <= k < |jobs| =>
      Slot(jobs[k], Start(jobs, d.queueDelayMs, k), Start(jobs, d.queueDelayMs, k + 1)))
  }

  lemma {:induction false} StartOrdered(jobs: seq<JobDefinition>, delayMs: nat, k: nat, l: nat)
    requires k <= l <= |jobs|
    ensures delayMs <= Start(jobs, delayMs, k) <= Start(jobs, delayMs, l)
    decreases l
  {
    if k < l {
      StartOrdered(jobs, delayMs, k, l - 1);
    } else if l > 0 {
      StartOrdered(jobs, delayMs, l - 1, l - 1);
    }
  }

  /** Slots do not overlap and come in order. */
  lemma SlotsOrdered(d: PipelineDefinition, k: nat, l: nat)
    requires k < l < |Timeline(d)|
    ensures Timeline(d)[k].finishMs <= Timeline(d)[l].startMs
  {
    StartOrdered(JobsOf(d.stages), d.queueDelayMs, k + 1, l);
  }

  lemma SlotAfterDelay(d: PipelineDefinition, k: nat)
    requires k < |Timeline(d)|
    ensures d.queueDelayMs <= Timeline(d)[k].startMs
    ensures Timeline(d)[k].finishMs == Timeline(d)[k].startMs + Timeline(d)[k].job.durationMs
  {
    StartOrdered(JobsOf(d.stages), d.queueDelayMs, 0, k);
  }

  /** `_timeline`: nested loops with a running offset. */
  method ComputeTimeline(d: PipelineDefinition) returns (slots: seq<Slot>)
    ensures slots == Timeline(d)
  {
    hide JobsOf, Timeline, Start;
    ghost var all := JobsOf(d.stages);
    var offset := d.queueDelayMs;
    slots := [];
    TimelineStarts(d);
    for i := 0 to |d.stages|
      invariant |slots| == JobsBefore(d.stages, i) <= |all|
      invariant slots == Timeline(d)[..|slots|] && offset == Start(all, d.queueDelayMs, |slots|)
    {
      var jobs := d.stages[i].jobs;
      ghost var before := |slots|;
      JobsOfStage(d.stages, i);
      for j := 0 to |jobs|
        invariant |slots| == before + j <= |all|
        invariant slots == Timeline(d)[..|slots|] && offset == Start(all, d.queueDelayMs, |slots|)
      {
        assert all[before..before + |jobs|][j] == all[before + j];
        TimelineGoesOn(d, |slots|);
        slots := slots + [Slot(jobs[j], offset, offset + jobs[j].durationMs)];
        offset := offset + jobs[j].durationMs;
      }
    }
    JobsOfStage(d.stages, |d.stages|);
  }

  lemma TimelineStarts(d: PipelineDefinition)
    ensures Start(JobsOf(d.stages), d.queueDelayMs, 0) == d.queueDelayMs && Timeline(d)[..0] == []
  {
    hide JobsOf;
  }

  lemma TimelineGoesOn(d: PipelineDefinition, n: nat)
    requires n < |JobsOf(d.stages)|
    ensures var job, start := JobsOf(d.stages)[n], Start(JobsOf(d.stages), d.queueDelayMs, n);
            && Start(JobsOf(d.stages), d.queueDelayMs, n + 1) == start + job.durationMs
            && Timeline(d)[..n + 1] == Timeline(d)[..n] + [Slot(job, start, start + job.durationMs)]
  {
    hide JobsOf;
  }

  /** The first failing slot, if any. */
  function FirstFailure(slots: seq<Slot>): (f: Option<nat>)
    ensures f.None? ==> forall k | 0 <= k < |slots| :: !slots[k].job.shouldFail
    ensures f.Some? ==> f.value < |slots| && slots[f.value].job.shouldFail
    ensures f.Some? ==> forall k | 0 <= k < f.value :: !slots[k].job.shouldFail
  {
    if slots == [] then None
    else if slots[0].job.shouldFail then Some(0)
    else
      var rest :- FirstFailure(slots[1..]);
      assert forall k | 1 <= k < |slots| :: slots[k] == slots[1..][k - 1];
      Some(rest + 1)
  }

  datatype Terminal = Terminal(ms: nat, status: RunStatus, message: string)

  lemma JobsNonempty(d: PipelineDefinition)
    requires WellFormed(d)
    ensures |Timeline(d)| > 0
  {
  }

  /** `_terminal_point` */
  function TerminalPoint(d: PipelineDefinition): (t: Terminal)
    requires WellFormed(d)
    ensures d.queueDelayMs <= t.ms
    ensures t.status.Succeeded? || t.status.Failed?
  {
    JobsNonempty(d);
    var slots := Timeline(d);
    match FirstFailure(slots)
    case Some(f) =>
      SlotAfterDelay(d, f);
      Terminal(slots[f].finishMs, Failed, "fixed job " + slots[f].job.key + " failed")
    case None =>
      SlotAfterDelay(d, |slots| - 1);
      Terminal(slots[|slots| - 1].finishMs, Succeeded, "completed by the deterministic local executor")
  }

  // ---------------------------------------------------------------------
  // Job and stage views
  // ---------------------------------------------------------------------

  datatype JobView = JobView(
    key: string,
    status: RunStatus,
    startedAt: Option<Time>,
    finishedAt: Option<Time>,
    message: Option<string>)

  function At(createdAt: Time, ms: nat): Time {
    createdAt + ms * MICROS_PER_MS
  }

  /** The body of the slot loop of `_stage_views`. */
  function ViewSlot(slot: Slot, failure: Option<Slot>, createdAt: Time, elapsedMs: nat,
                    cancelledAt: Option<Time>): JobView
  {
    var startAt := At(createdAt, slot.startMs);
    var failed := failure.Some? && elapsedMs >= failure.value.finishMs;
    if failed && slot.startMs >= failure.value.finishMs then
      JobView(slot.job.key, Cancelled, None, Some(At(createdAt, failure.value.finishMs)),
              Some("cancelled after an earlier fixed job failed"))
    else if cancelledAt.Some? && elapsedMs < slot.finishMs then
      JobView(slot.job.key, Cancelled, if elapsedMs >= slot.startMs then Some(startAt) else None, cancelledAt,
              Some("cancelled by machine request"))
    else if elapsedMs >= slot.finishMs then
      if slot.job.shouldFail then
        JobView(slot.job.key, Failed, Some(startAt), Some(At(createdAt, slot.finishMs)),
                Some("failed by the immutable local teaching definition"))
      else
        JobView(slot.job.key, Succeeded, Some(startAt), Some(At(createdAt, slot.finishMs)), None)
    else if elapsedMs >= slot.startMs then
      JobView(slot.job.key, Running, Some(startAt), None, None)
    else
      JobView(slot.job.key, Queued, None, None, None)
  }

  function FailureSlot(slots: seq<Slot>): Option<Slot> {
    var f :- FirstFailure(slots);
    Some(slots[f])
  }

  /** The views of all jobs in stage and job order. */
  function JobViews(d: PipelineDefinition, createdAt: Time, elapsedMs: nat,
                    cancelledAt: Option<Time>): (views: seq<JobView>)
    ensures |views| == |Timeline(d)|
  {
    var slots := Timeline(d);
    seq(|slots|, k requires 0 <= k < |slots| => ViewSlot(slots[k], FailureSlot(slots), createdAt, elapsedMs,
                                                         cancelledAt))
  }

  datatype StageView = StageView(
    key: string,
    status: RunStatus,
    jobs: seq<JobView>,
    startedAt: Option<Time>,
    finishedAt: Option<Time>,
    message: Option<string>)

  predicate Has(jobs: seq<JobView>, status: RunStatus) {
    exists k | 0 <= k < |jobs| :: jobs[k].status == status
  }

  function StageStatus(jobs: seq<JobView>): RunStatus {
    if Has(jobs, Failed) then Failed
    else if jobs != [] && (forall k | 0 <= k < |jobs| :: jobs[k].status.Succeeded?) then Succeeded
    else if Has(jobs, Cancelled) then Cancelled
    else if Has(jobs, Running) || Has(jobs, Succeeded) then Running
    else Queued
  }

  function Earliest(jobs: seq<JobView>): Option<Time> {
    if jobs == [] then None
    else
      var rest := Earliest(jobs[1..]);
      if jobs[0].startedAt.None? then rest
      else if rest.None? then jobs[0].startedAt
      else Some(Min(jobs[0].startedAt.value, rest.value))
  }

  function Latest(jobs: seq<JobView>): Option<Time> {
    if jobs == [] then None
    else
      var rest := Latest(jobs[1..]);
      if jobs[0].finishedAt.None? then rest
      else if rest.None? then jobs[0].finishedAt
      else Some(Max(jobs[0].finishedAt.value, rest.value))
  }

  function ViewStage(key: string, jobs: seq<JobView>): StageView {
    var status := StageStatus(jobs);
    StageView(key, status, jobs, Earliest(jobs), if status.IsTerminal() then Latest(jobs) else None,
              if status.Failed? then Some("stage failed")
              else if status.Cancelled? then Some("stage was cancelled")
              else None)
  }

  function StageViews(stages: seq<StageDefinition>, views: seq<JobView>): (r: seq<StageView>)
    requires |views| == |JobsOf(stages)|
    ensures |r| == |stages|
  {
    seq(|stages|, i requires 0 <= i < |stages| =>
      JobsOfStage(stages, i);
      ViewStage(stages[i].key, views[JobsBefore(stages, i)..JobsBefore(stages, i + 1)]))
  }

  predicate Keyed(byKey: map<string, JobView>, jobs: seq<JobDefinition>, views: seq<JobView>)
    requires |views| == |jobs|
  {
    forall k | 0 <= k < |jobs| :: jobs[k].key in byKey && byKey[jobs[k].key] == views[k]
  }

  /** The first loop of `_stage_views` fills a dictionary by job key, which loses nothing because keys are unique. */
  method ComputeJobViews(d: PipelineDefinition, createdAt: Time, elapsedMs: nat, cancelledAt: Option<Time>)
    returns (byKey: map<string, JobView>)
    requires WellFormed(d)
    ensures Keyed(byKey, JobsOf(d.stages), JobViews(d, createdAt, elapsedMs, cancelledAt))
  {
    hide ViewSlot, FirstFailure, Start, JobsOf;
    ghost var all := JobsOf(d.stages);
    ghost var views := JobViews(d, createdAt, elapsedMs, cancelledAt);
    var slots := ComputeTimeline(d);
    var failure := FirstFailure(slots);
    byKey := map[];
    for k := 0 to |slots|
      invariant forall l | 0 <= l < k :: all[l].key in byKey && byKey[all[l].key] == views[l]
    {
      var view := ComputeJobView(slots[k], if failure.Some? then Some(slots[failure.value]) else None, createdAt,
                                 elapsedMs, cancelledAt);
      byKey := byKey[slots[k].job.key := view];
    }
  }

  /** The body of that loop. */
  method ComputeJobView(slot: Slot, failure: Option<Slot>, createdAt: Time, elapsedMs: nat, cancelledAt: Option<Time>)
    returns (view: JobView)
    ensures view == ViewSlot(slot, failure, createdAt, elapsedMs, cancelledAt)
  {
    var failed := failure.Some? && elapsedMs >= failure.value.finishMs;
    var startAt, finishAt := createdAt + slot.startMs * 1000, createdAt + slot.finishMs * 1000;
    var status := Queued;
    var startedAt: Option<Time>, finishedAt: Option<Time>, message: Option<string> := None, None, None;
    if failed && slot.startMs >= failure.value.finishMs {
      status := Cancelled;
      finishedAt := Some(createdAt + failure.value.finishMs * 1000);
      message := Some("cancelled after an earlier fixed job failed");
    } else if cancelledAt.Some? && elapsedMs < slot.finishMs {
      status := Cancelled;
      if elapsedMs >= slot.startMs {
        startedAt := Some(startAt);
      }
      finishedAt := cancelledAt;
      message := Some("cancelled by machine request");
    } else if elapsedMs >= slot.finishMs {
      startedAt, finishedAt := Some(startAt), Some(finishAt);
      if slot.job.shouldFail {
        status := Failed;
        message := Some("failed by the immutable local teaching definition");
      } else {
        status := Succeeded;
      }
    } else if elapsedMs >= slot.startMs {
      status := Running;
      startedAt := Some(startAt);
    }
    view := JobView(slot.job.key, status, startedAt, finishedAt, message);
  }

  /** `_stage_views`: the dictionary is read back stage by stage. */
  method ComputeStageViews(d: PipelineDefinition, createdAt: Time, elapsedMs: nat, cancelledAt: Option<Time>)
    returns (stages: seq<StageView>)
    requires WellFormed(d)
    ensures stages == StageViews(d.stages, JobViews(d, createdAt, elapsedMs, cancelledAt))
  {
    hide JobViews, ViewStage, Timeline, JobsOf, JobsBefore, WellFormed;
    ghost var views := JobViews(d, createdAt, elapsedMs, cancelledAt);
    var byKey := ComputeJobViews(d, createdAt, elapsedMs, cancelledAt);
    stages := [];
    for i := 0 to |d.stages|
      invariant |stages| == i
      invariant forall l | 0 <= l < i :: stages[l] == StageViews(d.stages, views)[l]
    {
      JobsOfStage(d.stages, i);
      var jobs := ReadBack(d.stages[i].jobs, byKey, views[JobsBefore(d.stages, i)..JobsBefore(d.stages, i + 1)]);
      var stage := ComputeStageView(d.stages[i].key, jobs);
      stages := stages + [stage];
    }
  }

  /** The status of a stage and its times from its jobs. */
  method ComputeStageView(key: string, jobs: seq<JobView>) returns (stage: StageView)
    ensures stage == ViewStage(key, jobs)
  {
    var statuses := set j | j in jobs :: j.status;
    StatusesOf(jobs, statuses);
    var status :=
      if Failed in statuses then Failed
      else if statuses == {Succeeded} then Succeeded
      else if Cancelled in statuses then Cancelled
      else if Running in statuses || Succeeded in statuses then Running
      else Queued;
    var first: Option<Time>, last: Option<Time> := None, None;
    for n := |jobs| downto 0
      invariant first == Earliest(jobs[n..]) && last == Latest(jobs[n..])
    {
      var job := jobs[n];
      if job.startedAt.Some? && (first.None? || job.startedAt.value < first.value) {
        first := job.startedAt;
      }
      if job.finishedAt.Some? && (last.None? || job.finishedAt.value > last.value) {
        last := job.finishedAt;
      }
      assert jobs[n..] == [job] + jobs[n + 1..];
    }
    assert jobs[0..] == jobs;
    stage := StageView(key, status, jobs, first, if status.IsTerminal() then last else None,
                       if status.Failed? then Some("stage failed")
                       else if status.Cancelled? then Some("stage was cancelled")
                       else None);
  }

  lemma StatusesOf(jobs: seq<JobView>, statuses: set<RunStatus>)
    requires statuses == set j | j in jobs :: j.status
    ensures forall status :: status in statuses <==> Has(jobs, status)
    ensures statuses == {Succeeded} <==> jobs != [] && forall k | 0 <= k < |jobs| :: jobs[k].status.Succeeded?
  {
    forall k | 0 <= k < |jobs|
      ensures jobs[k].status in statuses
    {
      assert jobs[k] in jobs;
    }
    if jobs != [] {
      assert jobs[0] in jobs;
    }
  }

  method ReadBack(keyed: seq<JobDefinition>, byKey: map<string, JobView>, ghost views: seq<JobView>)
    returns (jobs: seq<JobView>)
    requires |views| == |keyed| && Keyed(byKey, keyed, views)
    ensures jobs == views
  {
    jobs := [];
    for j := 0 to |keyed|
      invariant |jobs| == j
      invariant forall l | 0 <= l < j :: jobs[l] == views[l]
    {
      jobs := jobs + [byKey[keyed[j].key]];
    }
  }

  // ---------------------------------------------------------------------
  // The shapes a reader can see
  // ---------------------------------------------------------------------

  /** `a` times SUCCEEDED, then `middle` if given, then only `rest`. */
  predicate Shape(views: seq<JobView>, a: nat, middle: Option<RunStatus>, rest: RunStatus) {
    && a <= |views|
    && (middle.Some? ==> a < |views| && views[a].status == middle.value)
    && (forall k | 0 <= k < a :: views[k].status.Succeeded?)
    && (forall k | (if middle.Some? then a + 1 else a) <= k < |views| :: views[k].status == rest)
  }

  /** The number of slots finished by `elapsedMs`. */
  function FinishedBy(slots: seq<Slot>, elapsedMs: nat): (n: nat)
    ensures n <= |slots|
    ensures forall k | 0 <= k < n :: slots[k].finishMs <= elapsedMs
    ensures n < |slots| ==> elapsedMs < slots[n].finishMs
  {
    if slots == [] || elapsedMs < slots[0].finishMs then 0
    else
      var rest := FinishedBy(slots[1..], elapsedMs);
      assert forall k | 1 <= k < |slots| :: slots[k] == slots[1..][k - 1];
      1 + rest
  }

  /** Before the terminal point, uncancelled: SUCCEEDED*, at most one RUNNING, QUEUED*. */
  lemma RunningShape(d: PipelineDefinition, createdAt: Time, elapsedMs: nat)
    requires WellFormed(d) && elapsedMs < TerminalPoint(d).ms
    ensures var views := JobViews(d, createdAt, elapsedMs, None);
            exists a :: Shape(views, a, None, Queued) || Shape(views, a, Some(Running), Queued)
  {
    hide Timeline, FirstFailure, TerminalPoint, WellFormed, FinishedBy;
    var slots := Timeline(d);
    var views := JobViews(d, createdAt, elapsedMs, None);
    var a := FinishedBy(slots, elapsedMs);
    BeforeFailure(d, elapsedMs, a);
    forall k | a < k < |slots|
      ensures elapsedMs < slots[k].startMs <= slots[k].finishMs
    {
      SlotsOrdered(d, a, k);
      SlotAfterDelay(d, k);
    }
    if a < |slots| && slots[a].startMs <= elapsedMs {
      assert Shape(views, a, Some(Running), Queued);
    } else {
      assert Shape(views, a, None, Queued);
    }
  }

  /** Before the terminal point no finished slot is a failing one. */
  lemma BeforeFailure(d: PipelineDefinition, elapsedMs: nat, a: nat)
    requires WellFormed(d) && elapsedMs < TerminalPoint(d).ms
    requires a <= |Timeline(d)| && forall k | 0 <= k < a :: Timeline(d)[k].finishMs <= elapsedMs
    ensures forall k | 0 <= k < a :: !Timeline(d)[k].job.shouldFail
    ensures FailureSlot(Timeline(d)).Some? ==> elapsedMs < FailureSlot(Timeline(d)).value.finishMs
  {
    var slots := Timeline(d);
    if FirstFailure(slots).Some? {
      assert !(FirstFailure(slots).value < a);
    }
  }

  /** Cancelled before the terminal point: SUCCEEDED* CANCELLED*. */
  lemma CancelledShape(d: PipelineDefinition, createdAt: Time, elapsedMs: nat, cancelledAt: Time)
    requires WellFormed(d) && elapsedMs < TerminalPoint(d).ms
    ensures exists a :: Shape(JobViews(d, createdAt, elapsedMs, Some(cancelledAt)), a, None, Cancelled)
  {
    hide Timeline, FirstFailure, TerminalPoint, WellFormed, FinishedBy;
    var slots := Timeline(d);
    var a := FinishedBy(slots, elapsedMs);
    BeforeFailure(d, elapsedMs, a);
    forall k | a < k < |slots|
      ensures elapsedMs < slots[k].finishMs
    {
      SlotsOrdered(d, a, k);
      SlotAfterDelay(d, k);
    }
    assert Shape(JobViews(d, createdAt, elapsedMs, Some(cancelledAt)), a, None, Cancelled);
  }

  /** From the terminal point on, a definition without failing job shows SUCCEEDED everywhere, cancelled or not. */
  lemma SucceededShape(d: PipelineDefinition, createdAt: Time, elapsedMs: nat, cancelledAt: Option<Time>)
    requires WellFormed(d) && TerminalPoint(d).status.Succeeded? && TerminalPoint(d).ms <= elapsedMs
    ensures Shape(JobViews(d, createdAt, elapsedMs, cancelledAt), |Timeline(d)|, None, Succeeded)
  {
    JobsNonempty(d);
    var slots := Timeline(d);
    forall k | 0 <= k < |slots|
      ensures slots[k].finishMs <= elapsedMs
    {
      if k < |slots| - 1 {
        SlotsOrdered(d, k, |slots| - 1);
      }
    }
  }

  /** From the terminal point on, with a failing job of positive duration: SUCCEEDED* FAILED CANCELLED*. */
  lemma FailedShape(d: PipelineDefinition, createdAt: Time, elapsedMs: nat, cancelledAt: Option<Time>)
    requires WellFormed(d) && TerminalPoint(d).ms <= elapsedMs
    requires FirstFailure(Timeline(d)).Some?
    ensures var f := FirstFailure(Timeline(d)).value;
            Timeline(d)[f].job.durationMs > 0
            ==> Shape(JobViews(d, createdAt, elapsedMs, cancelledAt), f, Some(Failed), Cancelled)
  {
    var slots := Timeline(d);
    var f := FirstFailure(slots).value;
    if slots[f].job.durationMs > 0 {
      forall k | 0 <= k < |slots|
        ensures k < f ==> slots[k].finishMs <= slots[f].startMs
        ensures f < k ==> slots[f].finishMs <= slots[k].startMs
      {
        if k < f {
          SlotsOrdered(d, k, f);
        } else if f < k {
          SlotsOrdered(d, f, k);
        }
      }
    }
  }

  /**
    Some job reads FAILED exactly from the terminal point of a failing definition on, and only
    when the first failing job takes time: one of zero duration reads CANCELLED instead.
   */
  lemma FailedVisibleExactlyWhen(d: PipelineDefinition, createdAt: Time, elapsedMs: nat, cancelledAt: Option<Time>)
    requires WellFormed(d)
    ensures Has(JobViews(d, createdAt, elapsedMs, cancelledAt), Failed)
       <==> var f := FirstFailure(Timeline(d));
            f.Some? && TerminalPoint(d).ms <= elapsedMs && Timeline(d)[f.value].job.durationMs > 0
  {
    hide Timeline, FirstFailure, WellFormed;
    JobsNonempty(d);
    var slots := Timeline(d);
    var views := JobViews(d, createdAt, elapsedMs, cancelledAt);
    var f := FirstFailure(slots);
    if f.Some? {
      SlotAfterDelay(d, f.value);
      if TerminalPoint(d).ms <= elapsedMs {
        FailedShape(d, createdAt, elapsedMs, cancelledAt);
      }
      forall k | f.value < k < |slots|
        ensures slots[f.value].finishMs <= slots[k].startMs <= slots[k].finishMs
      {
        SlotsOrdered(d, f.value, k);
        SlotAfterDelay(d, k);
      }
    }
  }

  /** Every job reads SUCCEEDED exactly from the terminal point of a failure-free definition on. */
  lemma SucceededVisibleExactlyWhen(d: PipelineDefinition, createdAt: Time, elapsedMs: nat, cancelledAt: Option<Time>)
    requires WellFormed(d)
    ensures (forall k | 0 <= k < |Timeline(d)| :: JobViews(d, createdAt, elapsedMs, cancelledAt)[k].status.Succeeded?)
       <==> FirstFailure(Timeline(d)).None? && TerminalPoint(d).ms <= elapsedMs
  {
    JobsNonempty(d);
    var slots := Timeline(d);
    var views := JobViews(d, createdAt, elapsedMs, cancelledAt);
    if FirstFailure(slots).None? && TerminalPoint(d).ms <= elapsedMs {
      SucceededShape(d, createdAt, elapsedMs, cancelledAt);
    } else if FirstFailure(slots).Some? {
      assert !views[FirstFailure(slots).value].status.Succeeded?;
    } else {
      assert !views[|slots| - 1].status.Succeeded?;
    }
  }

  /** The zero-duration edge on a concrete definition: the run fails at once, yet no job reads FAILED. */
  lemma ZeroDurationFailureIsHidden()
    ensures var d :=
      PipelineDefinition("p", "P", 1, 0, [StageDefinition("s", "S", [JobDefinition("j", "J", 0, true)])]);
            && WellFormed(d)
            && TerminalPoint(d).status.Failed? && TerminalPoint(d).ms == 0
            && JobViews(d, 0, 0, None)[0].status.Cancelled?
  {
    var job := JobDefinition("j", "J", 0, true);
    var stages := [StageDefinition("s", "S", [job])];
    assert JobsOf(stages[1..]) == [];
    assert JobsOf(stages) == [job];
    assert Start([job], 0, 1) == Start([job], 0, 0) + 0;
  }
}
