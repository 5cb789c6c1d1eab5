/** What the stages of a run view show, told by their jobs and by the run. */
module CiStages {
  import opened Common
  import opened CiTimeline
  import opened CiRun

  // ---------------------------------------------------------------------
  // One stage
  // ---------------------------------------------------------------------

  /** The start of a stage is the first moment one of its jobs started; it has none exactly if no job has. */
  lemma {:induction false} EarliestIsLeast(jobs: seq<JobView>)
    ensures Earliest(jobs).None? <==> forall k | 0 <= k < |jobs| :: jobs[k].startedAt.None?
    ensures Earliest(jobs).Some? ==>
              && (exists k | 0 <= k < |jobs| :: jobs[k].startedAt == Earliest(jobs))
              && forall k | 0 <= k < |jobs| && jobs[k].startedAt.Some? ::
                   Earliest(jobs).value <= jobs[k].startedAt.value
  {
    if jobs != [] {
      EarliestIsLeast(jobs[1..]);
      assert forall k | 1 <= k < |jobs| :: jobs[k] == jobs[1..][k - 1];
      if k :| 0 <= k < |jobs| - 1 && jobs[1..][k].startedAt == Earliest(jobs[1..]) {
        assert jobs[k + 1].startedAt == Earliest(jobs[1..]);
      }
    }
  }

  /** Its end, likewise, is the last moment one of them finished. */
  lemma {:induction false} LatestIsGreatest(jobs: seq<JobView>)
    ensures CiTimeline.Latest(jobs).None? <==> forall k | 0 <= k < |jobs| :: jobs[k].finishedAt.None?
    ensures CiTimeline.Latest(jobs).Some? ==>
              && (exists k | 0 <= k < |jobs| :: jobs[k].finishedAt == CiTimeline.Latest(jobs))
              && forall k | 0 <= k < |jobs| && jobs[k].finishedAt.Some? ::
                   jobs[k].finishedAt.value <= CiTimeline.Latest(jobs).value
  {
    if jobs != [] {
      LatestIsGreatest(jobs[1..]);
      assert forall k | 1 <= k < |jobs| :: jobs[k] == jobs[1..][k - 1];
      if k :| 0 <= k < |jobs| - 1 && jobs[1..][k].finishedAt == CiTimeline.Latest(jobs[1..]) {
        assert jobs[k + 1].finishedAt == CiTimeline.Latest(jobs[1..]);
      }
    }
  }

  // ---------------------------------------------------------------------
  // All stages
  // ---------------------------------------------------------------------

  /** `b` times SUCCEEDED, then `middle` if given, then only `rest`. */
  predicate StagesShape(stages: seq<StageView>, b: nat, middle: Option<RunStatus>, rest: RunStatus) {
    && b <= |stages|
    && (middle.Some? ==> b < |stages| && stages[b].status == middle.value)
    && (forall i | 0 <= i < b :: stages[i].status.Succeeded?)
    && (forall i | (if middle.Some? then b + 1 else b) <= i < |stages| :: stages[i].status == rest)
  }

  predicate SameStatus(jobs: seq<JobView>, status: RunStatus) {
    forall k | 0 <= k < |jobs| :: jobs[k].status == status
  }

  lemma UniformStage(jobs: seq<JobView>, status: RunStatus)
    requires jobs != [] && SameStatus(jobs, status) && !status.WaitingApproval?
    ensures StageStatus(jobs) == status
  {
    assert jobs[0].status == status;
  }

  /** The status of the stage in which the jobs stop having succeeded. */
  lemma BrokenStage(jobs: seq<JobView>, a: nat, middle: Option<RunStatus>, rest: RunStatus)
    requires a < |jobs| && Shape(jobs, a, middle, rest)
    requires rest.Queued? || rest.Cancelled?
    requires middle.Some? ==> (middle.value.Running? && rest.Queued?) || (middle.value.Failed? && rest.Cancelled?)
    ensures StageStatus(jobs)
         == if middle.Some? then middle.value else if a > 0 && rest.Queued? then Running else rest
  {
    assert jobs[a].status == if middle.Some? then middle.value else rest;
    assert a > 0 ==> jobs[0].status.Succeeded?;
  }

  lemma TailViews(stages: seq<StageDefinition>, views: seq<JobView>)
    requires stages != [] && |views| == |JobsOf(stages)|
    ensures |stages[0].jobs| <= |views| && |views[|stages[0].jobs|..]| == |JobsOf(stages[1..])|
    ensures StageViews(stages, views)
         == [ViewStage(stages[0].key, views[..|stages[0].jobs|])]
            + StageViews(stages[1..], views[|stages[0].jobs|..])
  {
    hide ViewStage;
    var n := |stages[0].jobs|;
    var all, tail := StageViews(stages, views), StageViews(stages[1..], views[n..]);
    assert JobsBefore(stages, 1) == n && JobsBefore(stages, 0) == 0;
    forall i | 1 <= i < |stages|
      ensures all[i] == tail[i - 1]
    {
      TailView(stages, views, i);
    }
  }

  lemma TailView(stages: seq<StageDefinition>, views: seq<JobView>, i: nat)
    requires 1 <= i < |stages| && |views| == |JobsOf(stages)| == |stages[0].jobs| + |JobsOf(stages[1..])|
    ensures StageViews(stages, views)[i] == StageViews(stages[1..], views[|stages[0].jobs|..])[i - 1]
  {
    hide ViewStage, JobsOf, JobsBefore;
    JobsOfStage(stages, i);
    JobsOfStage(stages[1..], i - 1);
    JobsBeforeTail(stages, i);
    JobsBeforeTail(stages, i + 1);
    assert views[|stages[0].jobs|..][JobsBefore(stages[1..], i - 1)..JobsBefore(stages[1..], i)]
        == views[JobsBefore(stages, i)..JobsBefore(stages, i + 1)];
  }

  lemma {:induction false} UniformStages(stages: seq<StageDefinition>, views: seq<JobView>, status: RunStatus)
    requires |views| == |JobsOf(stages)| && SameStatus(views, status) && !status.WaitingApproval?
    requires forall i | 0 <= i < |stages| :: |stages[i].jobs| > 0
    ensures StagesShape(StageViews(stages, views), 0, None, status)
    decreases |stages|
  {
    if stages != [] {
      TailViews(stages, views);
      UniformStage(views[..|stages[0].jobs|], status);
      UniformStages(stages[1..], views[|stages[0].jobs|..], status);
    }
  }

  /** Where the stages stop having succeeded, and what is there. */
  function BreakOf(stages: seq<StageDefinition>, a: nat, middle: Option<RunStatus>, rest: RunStatus)
    : (nat, Option<RunStatus>)
    decreases |stages|
  {
    if stages == [] then (0, None)
    else if a >= |stages[0].jobs| then
      var (b, m) := BreakOf(stages[1..], a - |stages[0].jobs|, middle, rest);
      (b + 1, m)
    else (0, if middle.None? && a > 0 && rest.Queued? then Some(Running) else middle)
  }

  /**
    If the jobs read SUCCEEDED, then at most one other status, then only `rest`, so do the stages: the stage in which
    the jobs break off is running or failed as its job is, or running between two jobs.
   */
  lemma {:induction false} StagesFollowJobs(stages: seq<StageDefinition>, views: seq<JobView>, a: nat,
                                            middle: Option<RunStatus>, rest: RunStatus)
    requires |views| == |JobsOf(stages)| && Shape(views, a, middle, rest)
    requires forall i | 0 <= i < |stages| :: |stages[i].jobs| > 0
    requires rest.Queued? || rest.Cancelled?
    requires middle.Some? ==> (middle.value.Running? && rest.Queued?) || (middle.value.Failed? && rest.Cancelled?)
    ensures var (b, m) := BreakOf(stages, a, middle, rest);
            && StagesShape(StageViews(stages, views), b, m, rest)
            && (m.Some? <==> middle.Some? || (m == Some(Running) && rest.Queued?))
            && (middle.Some? ==> m == middle)
    decreases |stages|
  {
    hide ViewStage, StageViews, StageStatus, Shape, JobsOf;
    if stages == [] {
      NoStages(stages, views, a, middle, rest);
    } else {
      TailViews(stages, views);
      var n := |stages[0].jobs|;
      var first, tail := views[..n], views[n..];
      StageOfView(stages[0].key, first);
      ShapeParts(views, n, a, middle, rest);
      if a >= n {
        UniformStage(first, Succeeded);
        StagesFollowJobs(stages[1..], tail, a - n, middle, rest);
      } else {
        BrokenStage(first, a, middle, rest);
        UniformStages(stages[1..], tail, rest);
      }
    }
  }

  lemma NoStages(stages: seq<StageDefinition>, views: seq<JobView>, a: nat, middle: Option<RunStatus>, rest: RunStatus)
    requires stages == [] && |views| == |JobsOf(stages)| && Shape(views, a, middle, rest)
    ensures StageViews(stages, views) == [] && middle.None?
  {
  }

  /** A cut through the jobs lies in their succeeded part, or leaves only `rest` behind it. */
  lemma ShapeParts(views: seq<JobView>, n: nat, a: nat, middle: Option<RunStatus>, rest: RunStatus)
    requires n <= |views| && Shape(views, a, middle, rest)
    ensures a >= n ==> SameStatus(views[..n], Succeeded) && Shape(views[n..], a - n, middle, rest)
    ensures a < n ==> Shape(views[..n], a, middle, rest) && SameStatus(views[n..], rest)
  {
  }

  lemma StageOfView(key: string, jobs: seq<JobView>)
    ensures ViewStage(key, jobs).status == StageStatus(jobs)
  {
  }

  // ---------------------------------------------------------------------
  // The stages of a run
  // ---------------------------------------------------------------------

  /** How the stages of a run read, by its public status; nothing is claimed about a waiting run. */
  ghost predicate StagesAgree(d: PipelineDefinition, s: Tracked, stages: seq<StageView>)
    requires WellFormed(d)
  {
    match s.PublicStatus()
    case Queued => StagesShape(stages, 0, None, Queued)
    case Running => exists b :: StagesShape(stages, b, None, Queued) || StagesShape(stages, b, Some(Running), Queued)
    case WaitingApproval => true
    case Succeeded => StagesShape(stages, |stages|, None, Succeeded)
    case Failed =>
      if s.Gated(Rejected) then StagesShape(stages, |stages|, None, Succeeded)
      else
        var f := FirstFailure(Timeline(d));
        && f.Some?
        && (Timeline(d)[f.value].job.durationMs > 0 ==> exists b :: StagesShape(stages, b, Some(Failed), Cancelled))
    case Cancelled => exists b :: StagesShape(stages, b, None, Cancelled)
  }

  /** After the refresh every read starts with, the stages agree with the run row. */
  lemma StagesAgreeWithRun(d: PipelineDefinition, s: Tracked, now: Time)
    requires WellFormed(d) && Consistent(d, s) && Refreshed(d, s, now) == s
    ensures StagesAgree(d, s, StageViews(d.stages, ShownJobs(d, s, now)))
  {
    hide JobsOf, FirstFailure, TerminalPoint, ViewStage, StageViews, JobViews, Refreshed, Consistent, BreakOf, Shape,
         StagesShape;
    ViewsAgreeWithRun(d, s, now);
    var views := ShownJobs(d, s, now);
    JobsAndStages(d, views);
    match s.PublicStatus()
    case Queued =>
      ShapeIsUniform(views, 0, Queued);
      UniformStages(d.stages, views, Queued);
    case Running =>
      var a :| Shape(views, a, None, Queued) || Shape(views, a, Some(Running), Queued);
      var middle := if Shape(views, a, None, Queued) then None else Some(Running);
      StagesFollowJobs(d.stages, views, a, middle, Queued);
      var (b, m) := BreakOf(d.stages, a, middle, Queued);
      assert m == None || m == Some(Running);
    case WaitingApproval =>
    case Succeeded => AllStagesSucceed(d, views);
    case Failed =>
      if s.Gated(Rejected) {
        AllStagesSucceed(d, views);
      } else {
        var f := FirstFailure(Timeline(d)).value;
        if Timeline(d)[f].job.durationMs > 0 {
          StagesFollowJobs(d.stages, views, f, Some(Failed), Cancelled);
          var (b, m) := BreakOf(d.stages, f, Some(Failed), Cancelled);
          assert StagesShape(StageViews(d.stages, views), b, Some(Failed), Cancelled);
        }
      }
    case Cancelled =>
      var a :| Shape(views, a, None, Cancelled);
      StagesFollowJobs(d.stages, views, a, None, Cancelled);
      var (b, m) := BreakOf(d.stages, a, None, Cancelled);
      assert StagesShape(StageViews(d.stages, views), b, None, Cancelled);
  }

  lemma JobsAndStages(d: PipelineDefinition, views: seq<JobView>)
    requires WellFormed(d) && |views| == |Timeline(d)|
    ensures |views| == |JobsOf(d.stages)| && forall i | 0 <= i < |d.stages| :: |d.stages[i].jobs| > 0
  {
  }

  lemma ShapeIsUniform(views: seq<JobView>, a: nat, status: RunStatus)
    requires Shape(views, a, None, status) && (a == 0 || status.Succeeded?)
    ensures SameStatus(views, status)
  {
  }

  lemma AllStagesSucceed(d: PipelineDefinition, views: seq<JobView>)
    requires WellFormed(d) && |views| == |Timeline(d)| && Shape(views, |Timeline(d)|, None, Succeeded)
    ensures StagesShape(StageViews(d.stages, views), |d.stages|, None, Succeeded)
  {
    JobsAndStages(d, views);
    ShapeIsUniform(views, |views|, Succeeded);
    UniformStages(d.stages, views, Succeeded);
  }
}
