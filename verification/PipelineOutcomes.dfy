/** Which nodes the mutations of an active run change, and what they become. */
module PipelineOutcomes {
  import opened Common
  import opened PipelineTree

  /** How a node starts; a started one stays as it is. */
  predicate Begun(n: Node, m: Node, now: Time) {
    m == if n.status.Running? then n else Node(Running, Some(n.startedAt.GetOr(now)), n.finishedAt, n.message)
  }

  /** How a node ends now: its start is kept, or falls together with its end unless it is cancelled. */
  predicate Ended(n: Node, m: Node, to: Status, message: Message, now: Time) {
    && m.status == to
    && m.finishedAt == Some(now)
    && m.startedAt == (if n.status.Queued? && !to.Cancelled? then Some(n.startedAt.GetOr(now)) else n.startedAt)
    && m.message == (if message.Some? then message else n.message)
  }

  /** Unfinished nodes end as cancelled, saying why; finished ones are as before. */
  predicate Swept(n: Node, m: Node, why: string, now: Time) {
    if n.status.IsTerminal() then m == n else Ended(n, m, Cancelled, Some(why), now)
  }

  /** A stage after a sweep that spares its job `j`, and its own node if it is the one that ended. */
  predicate StageSwept(s: Stage, t: Stage, ended: bool, j: int, why: string, now: Time) {
    && t == s.(node := t.node, jobs := t.jobs)
    && |t.jobs| == |s.jobs|
    && (!ended ==> Swept(s.node, t.node, why, now))
    && forall l | 0 <= l < |s.jobs| ::
         t.jobs[l] == s.jobs[l].(node := t.jobs[l].node) && (l != j ==> Swept(s.jobs[l].node, t.jobs[l].node, why, now))
  }

  /** All nodes below the run, except stage `i` and its job `j`, after a sweep inside the stage and one around it. */
  predicate RestSwept(r: Run, q: Run, i: int, j: int, inside: string, around: string, now: Time) {
    && q == r.(node := q.node, stages := q.stages)
    && |q.stages| == |r.stages|
    && forall k | 0 <= k < |r.stages| ::
         if k == i then StageSwept(r.stages[k], q.stages[k], true, j, inside, now)
         else StageSwept(r.stages[k], q.stages[k], false, -1, around, now)
  }

  lemma SweepOutcome(r: Run, q: Run, why: string, now: Time)
    requires q == r.(node := q.node)
    ensures RestSwept(r, CancelUnfinishedChildren(q, why, now), -1, -1, "", why, now)
  {
  }

  /** Cancelling ends the run and every unfinished node below it as cancelled, and touches nothing else. */
  lemma CancelRunOutcome(r: Run, runMessage: Message, childMessage: string, now: Time)
    requires !r.node.status.IsTerminal()
    ensures var e := CancelRun(r, runMessage, childMessage, now);
            && e.Done? && Ended(r.node, e.run.node, Cancelled, runMessage, now)
            && RestSwept(r, e.run, -1, -1, "", childMessage, now)
  {
    SweepOutcome(r, FinishRun(r, Cancelled, runMessage, now).run, childMessage, now);
  }

  lemma FailRunOutcome(r: Run, message: Message, now: Time)
    requires !r.node.status.IsTerminal()
    ensures var e := FailRun(r, message, now);
            && e.Done? && Ended(r.node, e.run.node, Failed, message, now)
            && RestSwept(r, e.run, -1, -1, "", "not executed after the pipeline failed", now)
  {
    SweepOutcome(r, FinishRun(r, Failed, message, now).run, "not executed after the pipeline failed", now);
  }

  /** The stage `i` has ended and swept its jobs; sweeping the run leaves it alone and sweeps the others. */
  lemma BrokenOutcome(r: Run, i: nat, j: int, broken: Stage, q: Run, inside: string, around: string, now: Time)
    requires HasStage(r, i) && q == r.(node := q.node, stages := r.stages[i := broken])
    requires broken.node.status.IsTerminal() && StageSwept(r.stages[i], broken, true, j, inside, now)
    requires 0 <= j < |broken.jobs| ==> broken.jobs[j].node.status.IsTerminal()
    ensures RestSwept(r, CancelUnfinishedChildren(q, around, now), i, j, inside, around, now)
    ensures CancelUnfinishedChildren(q, around, now).stages[i] == broken
  {
    var s := CancelUnfinishedChildren(q, around, now);
    forall l | 0 <= l < |broken.jobs|
      ensures s.stages[i].jobs[l] == broken.jobs[l]
    {
      assert broken.jobs[l].node.status.IsTerminal();
    }
    assert s.stages[i].jobs == broken.jobs;
  }

  /** A failing job fails, with its stage and its run, which say so; every other unfinished node is cancelled. */
  lemma FailJobOutcome(r: Run, i: nat, j: nat, message: Message, now: Time)
    requires HasJob(r, i, j) && !r.node.status.IsTerminal()
    requires !r.stages[i].node.status.IsTerminal() && !r.stages[i].jobs[j].node.status.IsTerminal()
    ensures var e := FailJob(r, i, j, message, now);
            var stage, job := r.stages[i], r.stages[i].jobs[j];
            && e.Done? && HasJob(e.run, i, j)
            && RestSwept(r, e.run, i, j, "not executed after an earlier job failed",
                         "not executed after the pipeline failed", now)
            && Ended(job.node, e.run.stages[i].jobs[j].node, Failed, message, now)
            && Ended(stage.node, e.run.stages[i].node, Failed, Some("job " + job.name + " failed"), now)
            && Ended(r.node, e.run.node, Failed, Some("stage " + stage.name + ", job " + job.name + " failed"), now)
  {
    FailJobComputed(r, i, j, message, now);
    FailedStageOutcome(r.stages[i], j, message, now);
    BrokenOutcome(r, i, j, FailedStage(r.stages[i], j, message, now), FailedRun(r, i, j, message, now),
                  "not executed after an earlier job failed", "not executed after the pipeline failed", now);
  }

  lemma FailedStageOutcome(stage: Stage, j: nat, message: Message, now: Time)
    requires j < |stage.jobs| && !stage.node.status.IsTerminal() && !stage.jobs[j].node.status.IsTerminal()
    ensures var t := FailedStage(stage, j, message, now);
            && StageSwept(stage, t, true, j, "not executed after an earlier job failed", now)
            && Ended(stage.jobs[j].node, t.jobs[j].node, Failed, message, now)
            && Ended(stage.node, t.node, Failed, Some("job " + stage.jobs[j].name + " failed"), now)
  {
    var failed := stage.jobs[j].(node := Finish(stage.jobs[j].node, Failed, message, now).value);
    assert FailedStage(stage, j, message, now).jobs[j]
        == CancelJob(failed, "not executed after an earlier job failed", now);
  }

  /** A succeeding job changes itself only, unless it was the last one missing of its stage, or of the run. */
  lemma SucceedJobOutcome(r: Run, i: nat, j: nat, message: Message, now: Time)
    requires HasJob(r, i, j) && r.node.status.Running? && r.stages[i].node.status.Running?
    requires !r.stages[i].jobs[j].node.status.IsTerminal()
    ensures var e := FinishJob(r, i, j, Succeeded, message, now);
            e.Done? && HasStage(e.run, i)
            && var q := AggregateStage(e.run, i, now).run;
               && AggregateStage(e.run, i, now).Done? && HasJob(q, i, j) && OnlyPath(r, q, i, j)
               && Ended(r.stages[i].jobs[j].node, q.stages[i].jobs[j].node, Succeeded, message, now)
               && (if AllJobsSucceeded(q.stages[i].jobs)
                   then Ended(r.stages[i].node, q.stages[i].node, Succeeded, None, now)
                   else q.stages[i].node == r.stages[i].node)
               && (if AllStagesSucceeded(q.stages) then Ended(r.node, q.node, Succeeded, None, now)
                   else q.node == r.node)
  {
    SucceedJobComputed(r, i, j, message, now);
  }

  /** Nothing changed but nodes on the path from the run to stage `i` and its job `j`. */
  predicate OnlyPath(r: Run, q: Run, i: int, j: int) {
    && q == r.(node := q.node, stages := q.stages)
    && |q.stages| == |r.stages|
    && (forall k | 0 <= k < |r.stages| && k != i :: q.stages[k] == r.stages[k])
    && (0 <= i < |r.stages| ==>
          && q.stages[i] == r.stages[i].(node := q.stages[i].node, jobs := q.stages[i].jobs)
          && |q.stages[i].jobs| == |r.stages[i].jobs|
          && forall l | 0 <= l < |r.stages[i].jobs| ::
               q.stages[i].jobs[l] == if l == j then r.stages[i].jobs[l].(node := q.stages[i].jobs[l].node)
                                      else r.stages[i].jobs[l])
  }
}
