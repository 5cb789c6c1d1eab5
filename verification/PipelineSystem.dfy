/**
  The pipeline service as one value: what its operations return and leave behind, and what holds over any history of
  them, failed saves, crashes and restarts included.
 */
module PipelineSystem {
  import opened Common
  import opened PipelineTree
  import opened PipelineCallbacks
  import opened PipelineExecutor
  import opened PipelineExecution
  import opened PipelineStore

  datatype JobSpec = JobSpec(name: string, durationMs: nat, shouldFail: bool)

  datatype StageSpec = StageSpec(name: string, jobs: seq<JobSpec>)

  datatype TriggerRequest = TriggerRequest(
    name: string,
    stages: seq<StageSpec>,
    idempotencyKey: Option<string>,
    autoStart: bool,
    fingerprint: Fingerprint)
  {
    /** The minimum lengths the request model enforces. */
    predicate WellFormed() {
      && |stages| > 0
      && (forall i | 0 <= i < |stages| :: |stages[i].jobs| > 0)
    }
  }

  function NewJob(spec: JobSpec): Job {
    Job(spec.name, spec.durationMs, spec.shouldFail, NEW_NODE)
  }

  function NewStage(spec: StageSpec): Stage {
    Stage(spec.name, NEW_NODE, seq(|spec.jobs|, j requires 0 <= j < |spec.jobs| => NewJob(spec.jobs[j])))
  }

  function NewRun(request: TriggerRequest, id: RunId, now: Time): Run {
    Run(id, request.name, now, NEW_NODE,
        seq(|request.stages|, i requires 0 <= i < |request.stages| => NewStage(request.stages[i])))
  }

  /** The stages and jobs of the run are those of the request, in its order. */
  predicate MadeFor(r: Run, request: TriggerRequest) {
    && r.name == request.name
    && |r.stages| == |request.stages|
    && forall i | 0 <= i < |r.stages| :: StageMadeFor(r.stages[i], request.stages[i])
  }

  predicate StageMadeFor(stage: Stage, spec: StageSpec) {
    && stage.name == spec.name
    && |stage.jobs| == |spec.jobs|
    && forall j | 0 <= j < |stage.jobs| ::
         && stage.jobs[j].name == spec.jobs[j].name
         && stage.jobs[j].durationMs == spec.jobs[j].durationMs
         && stage.jobs[j].shouldFail == spec.jobs[j].shouldFail
  }

  /** A run is created as it was asked for, with nothing started and nothing said. */
  lemma NewRunIsAsRequested(request: TriggerRequest, id: RunId, now: Time)
    ensures var r := NewRun(request, id, now);
            && MadeFor(r, request) && r.id == id && r.createdAt == now && r.node == NEW_NODE
            && (forall i | 0 <= i < |r.stages| :: r.stages[i].node == NEW_NODE)
            && forall i, j | HasJob(r, i, j) :: r.stages[i].jobs[j].node == NEW_NODE
  {
  }

  lemma MadeForStays(r: Run, q: Run, request: TriggerRequest)
    requires MadeFor(r, request) && TreeForward(r, q)
    ensures MadeFor(q, request)
  {
    forall i | 0 <= i < |q.stages|
      ensures StageMadeFor(q.stages[i], request.stages[i])
    {
      assert StageForward(r.stages[i], q.stages[i]) && StageMadeFor(r.stages[i], request.stages[i]);
    }
  }

  lemma NewRunIsFresh(request: TriggerRequest, id: RunId, now: Time)
    requires request.WellFormed()
    ensures Fresh(NewRun(request, id, now)) && PcOk(NewRun(request, id, now), NotStarted)
    ensures NewRun(request, id, now).id == id
  {
    var r := NewRun(request, id, now);
    forall i | 0 <= i < |r.stages|
      ensures StageInv(r.node.status, r.stages[i])
    {
      assert r.stages[i] == NewStage(request.stages[i]);
      assert r.stages[i].jobs[0].node == NEW_NODE;
    }
    assert r.stages[0].node == NEW_NODE;
  }

  predicate RunsInv(runs: map<RunId, Run>) {
    forall k {:trigger Inv(runs[k])} | k in runs :: Inv(runs[k])
  }

  /** What every durable and every in-memory state satisfies between lock sections. */
  predicate StateInv(s: State) {
    Persistable(s) && RunsInv(s.runs)
  }

  function AddRun(s: State, run: Run, key: Option<string>, fingerprint: Fingerprint): State {
    State(s.runs[run.id := run],
          if key.Some? then s.triggerKeys[key.value := (run.id, fingerprint)] else s.triggerKeys,
          s.callbackEvents[run.id := map[]])
  }

  function PutRun(s: State, run: Run): State {
    s.(runs := s.runs[run.id := run])
  }

  function RecordEvent(s: State, id: RunId, eventId: string, fingerprint: Fingerprint): State
    requires id in s.callbackEvents
  {
    s.(callbackEvents := s.callbackEvents[id := s.callbackEvents[id][eventId := fingerprint]])
  }

  function SettleRuns(s: State, runMessage: string, childMessage: string, now: Time): State {
    s.(runs := map k | k in s.runs :: Settle(s.runs[k], runMessage, childMessage, now))
  }

  predicate RunsGrow(s: map<RunId, Run>, t: map<RunId, Run>) {
    s.Keys <= t.Keys && forall k {:trigger TreeForward(s[k], t[k])} | k in s :: TreeForward(s[k], t[k])
  }

  predicate LogGrows(s: map<string, Fingerprint>, t: map<string, Fingerprint>) {
    forall e | e in s :: e in t && t[e] == s[e]
  }

  predicate AllTerminal(runs: map<RunId, Run>) {
    forall k {:trigger runs[k].node.status.IsTerminal()} | k in runs :: runs[k].node.status.IsTerminal()
  }

  /** Later states keep every run, moved forward, every trigger key and every recorded event. */
  predicate Grows(s: State, t: State) {
    && RunsGrow(s.runs, t.runs)
    && (forall k | k in s.triggerKeys :: k in t.triggerKeys && t.triggerKeys[k] == s.triggerKeys[k])
    && (forall k | k in s.callbackEvents :: k in t.callbackEvents && LogGrows(s.callbackEvents[k], t.callbackEvents[k]))
  }

  lemma RunsGrowReflexive(s: map<RunId, Run>)
    ensures RunsGrow(s, s)
  {
    forall k | k in s
      ensures TreeForward(s[k], s[k])
    {
      TreeForwardReflexive(s[k]);
    }
  }

  lemma GrowsReflexive(s: State)
    ensures Grows(s, s)
  {
    RunsGrowReflexive(s.runs);
  }

  lemma RunsGrowAt(s: map<RunId, Run>, id: RunId, run: Run)
    requires id in s ==> TreeForward(s[id], run)
    ensures RunsGrow(s, s[id := run])
  {
    RunsGrowReflexive(s);
    forall k | k in s
      ensures TreeForward(s[k], s[id := run][k])
    {
    }
  }

  lemma GrowsTransitive(s: State, t: State, u: State)
    requires Grows(s, t) && Grows(t, u)
    ensures Grows(s, u)
  {
    forall k | k in s.runs
      ensures k in u.runs && TreeForward(s.runs[k], u.runs[k])
    {
      TreeForwardTransitive(s.runs[k], t.runs[k], u.runs[k]);
    }
    forall k | k in s.callbackEvents
      ensures k in u.callbackEvents && LogGrows(s.callbackEvents[k], u.callbackEvents[k])
    {
      assert LogGrows(s.callbackEvents[k], t.callbackEvents[k]) && LogGrows(t.callbackEvents[k], u.callbackEvents[k]);
    }
  }

  /** The idempotency decision on a callback, before the tree is looked at. */
  datatype Decision = UnknownRun | Duplicate | Conflict | NewEvent

  function Decide(s: State, id: RunId, cb: Callback, fingerprint: Fingerprint): Decision {
    if id !in s.runs || id !in s.callbackEvents then UnknownRun
    else if cb.eventId !in s.callbackEvents[id] then NewEvent
    else if s.callbackEvents[id][cb.eventId] == fingerprint then Duplicate
    else Conflict
  }

  lemma PutRunKeeps(s: State, run: Run)
    requires StateInv(s) && run.id in s.runs && Inv(run) && TreeForward(s.runs[run.id], run)
    ensures StateInv(PutRun(s, run)) && Grows(s, PutRun(s, run))
  {
    RunsGrowAt(s.runs, run.id, run);
  }

  lemma RecordEventKeeps(s: State, id: RunId, eventId: string, fingerprint: Fingerprint)
    requires StateInv(s) && id in s.runs && eventId !in s.callbackEvents[id]
    ensures StateInv(RecordEvent(s, id, eventId, fingerprint)) && Grows(s, RecordEvent(s, id, eventId, fingerprint))
  {
    RunsGrowReflexive(s.runs);
  }

  lemma AddRunGrows(s: State, run: Run, key: Option<string>, fingerprint: Fingerprint)
    requires Keyed(s) && run.id !in s.runs
    requires key.Some? ==> key.value !in s.triggerKeys
    ensures Grows(s, AddRun(s, run, key, fingerprint))
  {
    RunsGrowAt(s.runs, run.id, run);
  }

  lemma AddRunKeeps(s: State, run: Run, key: Option<string>, fingerprint: Fingerprint)
    requires StateInv(s) && Inv(run)
    ensures StateInv(AddRun(s, run, key, fingerprint))
  {
  }

  lemma SettleRunsKeeps(s: State, runMessage: string, childMessage: string, now: Time)
    requires StateInv(s)
    ensures StateInv(SettleRuns(s, runMessage, childMessage, now))
    ensures Grows(s, SettleRuns(s, runMessage, childMessage, now))
    ensures AllTerminal(SettleRuns(s, runMessage, childMessage, now).runs)
  {
    hide Settle, Inv, TreeForward;
    var t := SettleRuns(s, runMessage, childMessage, now);
    forall k | k in s.runs
      ensures Inv(t.runs[k]) && TreeForward(s.runs[k], t.runs[k]) && t.runs[k].node.status.IsTerminal()
              && t.runs[k].id == s.runs[k].id
    {
      SettleForward(s.runs[k], runMessage, childMessage, now);
      SettleKeepsId(s.runs[k], runMessage, childMessage, now);
    }
  }

  lemma SettleKeepsId(r: Run, runMessage: string, childMessage: string, now: Time)
    requires Inv(r)
    ensures Settle(r, runMessage, childMessage, now).id == r.id
  {
    hide Inv;
    SettleForward(r, runMessage, childMessage, now);
  }

  // ---------------------------------------------------------------------
  // What each operation returns and leaves behind
  // ---------------------------------------------------------------------

  function Triggered(s: State, closed: bool, request: TriggerRequest, newId: RunId, now: Time, saveFails: bool)
    : (Result<(Run, bool), Error>, State)
    requires Persistable(s)
  {
    var key := request.idempotencyKey;
    if closed then (Err(ServiceClosed), s)
    else if key.Some? && key.value in s.triggerKeys then
      var previous := s.triggerKeys[key.value];
      (if previous.1 == request.fingerprint then Ok((s.runs[previous.0], true)) else Err(IdempotencyConflict), s)
    else if saveFails then (Err(StorageError), s)
    else (Ok((NewRun(request, newId, now), false)), AddRun(s, NewRun(request, newId, now), key, request.fingerprint))
  }

  function CancelledBy(s: State, closed: bool, id: RunId, now: Time, saveFails: bool)
    : (Result<(Run, bool), Error>, State)
  {
    if closed then (Err(ServiceClosed), s)
    else if id !in s.runs then (Err(RunNotFound), s)
    else if s.runs[id].node.status.Cancelled? then (Ok((s.runs[id], true)), s)
    else if s.runs[id].node.status.IsTerminal() then (Err(TransitionError), s)
    else if saveFails then (Err(StorageError), s)
    else
      var run := CancelRun(s.runs[id], Some("cancelled by user"), "pipeline was cancelled", now).run;
      (Ok((run, false)), PutRun(s, run))
  }

  function Delivered(s: State, closed: bool, id: RunId, cb: Callback, fingerprint: Fingerprint, now: Time,
                     saveFails: bool)
    : (Result<(Run, bool), Error>, State)
    requires Persistable(s) && cb.WellFormed()
  {
    if closed then (Err(ServiceClosed), s)
    else
      match Decide(s, id, cb, fingerprint)
      case UnknownRun => (Err(RunNotFound), s)
      case Duplicate => (Ok((s.runs[id], true)), s)
      case Conflict => (Err(IdempotencyConflict), s)
      case NewEvent =>
        match Handle(s.runs[id], cb, now)
        case Raised(_, error) => (Err(error), s)
        case Done(run) =>
          if saveFails then (Err(StorageError), s)
          else (Ok((run, false)), RecordEvent(PutRun(s, run), id, cb.eventId, fingerprint))
  }

  function Resumed(s: State, id: RunId, pc: Pc, stopped: bool, now: Time, saveFails: bool): (Pc, State)
    requires id in s.runs && PcOk(s.runs[id], pc)
  {
    var section := Run1(s.runs[id], pc, stopped, now);
    if !section.saves then (section.next, s)
    else if saveFails then (if pc.Handling? then Stopped else Handling, s)
    else (section.next, PutRun(s, section.effect.run))
  }

  lemma DeliveredKeeps(s: State, run: Run, eventId: string, fingerprint: Fingerprint)
    requires StateInv(s) && run.id in s.runs && Inv(run) && TreeForward(s.runs[run.id], run)
    requires eventId !in s.callbackEvents[run.id]
    ensures StateInv(RecordEvent(PutRun(s, run), run.id, eventId, fingerprint))
    ensures Grows(s, RecordEvent(PutRun(s, run), run.id, eventId, fingerprint))
  {
    PutRunKeeps(s, run);
    RecordEventKeeps(PutRun(s, run), run.id, eventId, fingerprint);
    GrowsTransitive(s, PutRun(s, run), RecordEvent(PutRun(s, run), run.id, eventId, fingerprint));
  }

  lemma DeliveredGrows(s: State, run: Run, eventId: string, fingerprint: Fingerprint)
    requires StateInv(s) && run.id in s.runs && Inv(run) && TreeForward(s.runs[run.id], run)
    requires eventId !in s.callbackEvents[run.id]
    ensures StateInv(RecordEvent(PutRun(s, run), run.id, eventId, fingerprint))
    ensures RunsGrow(s.runs, s.runs[run.id := run])
    ensures s.runs[run.id := run].Keys == s.runs.Keys && run.id in s.callbackEvents
  {
    DeliveredKeeps(s, run, eventId, fingerprint);
  }

  predicate TasksMatch(runs: map<RunId, Run>, tasks: map<RunId, Pc>) {
    tasks.Keys <= runs.Keys && forall k {:trigger PcOk(runs[k], tasks[k])} | k in tasks :: PcOk(runs[k], tasks[k])
  }

  lemma TasksFollow(s: map<RunId, Run>, t: map<RunId, Run>, tasks: map<RunId, Pc>)
    requires RunsGrow(s, t) && TasksMatch(s, tasks)
    ensures TasksMatch(t, tasks)
  {
    forall k | k in tasks
      ensures k in t && PcOk(t[k], tasks[k])
    {
      ForwardKeepsPc(s[k], t[k], tasks[k]);
    }
  }

  lemma TasksAdd(runs: map<RunId, Run>, tasks: map<RunId, Pc>, id: RunId, pc: Pc)
    requires TasksMatch(runs, tasks) && id in runs && PcOk(runs[id], pc)
    ensures TasksMatch(runs, tasks[id := pc])
  {
    forall k | k in tasks[id := pc]
      ensures PcOk(runs[k], tasks[id := pc][k])
    {
      if k != id {
        assert PcOk(runs[k], tasks[k]);
      }
    }
  }

  // ---------------------------------------------------------------------
  // Histories
  // ---------------------------------------------------------------------

  /**
    What the database holds, which is also what memory holds once the process is up; where the executors are
    suspended; and whether `shutdown` was called.
   */
  datatype Service = Service(state: State, tasks: map<RunId, Pc>, closed: bool, up: bool)

  datatype Op =
    /** The process ends without warning; a new one over the same database has yet to initialise. */
    | Restart
    | Initialize(now: Time, fails: bool)
    | Trigger(request: TriggerRequest, newId: RunId, now: Time, saveFails: bool)
    | Cancel(id: RunId, now: Time, saveFails: bool)
    | ApplyCallback(id: RunId, cb: Callback, fingerprint: Fingerprint, now: Time, saveFails: bool)
    | Resume(id: RunId, stopped: bool, now: Time, saveFails: bool)
    | Shutdown(now: Time, saveFails: bool)

  function Recovered(s: State, now: Time): State {
    SettleRuns(s, "pipeline interrupted by service restart", "not resumed after service restart", now)
  }

  function ShutDown(s: State, now: Time): State {
    SettleRuns(s, "pipeline service shut down", "pipeline service shut down", now)
  }

  predicate ServiceInv(w: Service) {
    StateInv(w.state) && TasksMatch(w.state.runs, w.tasks) && (!w.up ==> w.tasks == map[])
  }

  /**
    New identifiers are new, requests are well formed, only live executors resume, and a wait ends early only on an
    ended run.
   */
  predicate Possible(w: Service, op: Op) {
    match op
    case Restart => true
    case Initialize(_, _) => true
    case Trigger(request, newId, _, _) => w.up && request.WellFormed() && newId !in w.state.runs
    case Cancel(_, _, _) => w.up
    case ApplyCallback(_, cb, _, _, _) => w.up && cb.WellFormed()
    case Resume(id, stopped, _, _) =>
      w.up && id in w.tasks && (stopped ==> id in w.state.runs && w.state.runs[id].node.status.IsTerminal())
    case Shutdown(_, _) => w.up
  }

  function Step(w: Service, op: Op): Service
    requires ServiceInv(w) && Possible(w, op)
  {
    match op
    case Restart => Service(w.state, map[], false, false)
    case Initialize(now, fails) =>
      if w.up || fails then w else w.(state := Recovered(w.state, now), up := true)
    case Trigger(request, newId, now, saveFails) =>
      var (result, state) := Triggered(w.state, w.closed, request, newId, now, saveFails);
      var starts := request.autoStart && result.Ok? && !result.value.1;
      w.(state := state, tasks := if starts then w.tasks[newId := NotStarted] else w.tasks)
    case Cancel(id, now, saveFails) => w.(state := CancelledBy(w.state, w.closed, id, now, saveFails).1)
    case ApplyCallback(id, cb, fingerprint, now, saveFails) =>
      w.(state := Delivered(w.state, w.closed, id, cb, fingerprint, now, saveFails).1)
    case Resume(id, stopped, now, saveFails) =>
      assert PcOk(w.state.runs[id], w.tasks[id]);
      var (next, state) := Resumed(w.state, id, w.tasks[id], stopped, now, saveFails);
      w.(state := state, tasks := if next.Stopped? then w.tasks - {id} else w.tasks[id := next])
    case Shutdown(now, saveFails) =>
      if saveFails then w.(closed := true) else w.(state := ShutDown(w.state, now), tasks := map[], closed := true)
  }

  lemma TriggeredKeeps(s: State, closed: bool, request: TriggerRequest, newId: RunId, now: Time, saveFails: bool)
    requires StateInv(s) && request.WellFormed() && newId !in s.runs
    ensures var (result, t) := Triggered(s, closed, request, newId, now, saveFails);
            && StateInv(t) && Grows(s, t)
            && (result.Ok? && !result.value.1 ==> newId in t.runs && PcOk(t.runs[newId], NotStarted))
  {
    hide NewRun, Inv, Grows, PcOk, Persistable, TreeForward;
    GrowsReflexive(s);
    var run := NewRun(request, newId, now);
    NewRunIsFresh(request, newId, now);
    FreshInv(run);
    KeyedOf(s);
    if !closed && !saveFails && !(request.idempotencyKey.Some? && request.idempotencyKey.value in s.triggerKeys) {
      AddRunGrows(s, run, request.idempotencyKey, request.fingerprint);
      AddRunKeeps(s, run, request.idempotencyKey, request.fingerprint);
    }
  }

  lemma FreshInv(r: Run)
    requires Fresh(r)
    ensures Inv(r)
  {
  }

  lemma KeyedOf(s: State)
    requires StateInv(s)
    ensures Keyed(s)
  {
  }

  lemma CancelledKeeps(s: State, closed: bool, id: RunId, now: Time, saveFails: bool)
    requires StateInv(s)
    ensures var t := CancelledBy(s, closed, id, now, saveFails).1;
            StateInv(t) && Grows(s, t)
  {
    hide CancelRun, Inv, Grows, TreeForward;
    GrowsReflexive(s);
    if id in s.runs && !s.runs[id].node.status.IsTerminal() {
      RunOf(s, id);
      CancelRunCommits(s.runs[id], Some("cancelled by user"), "pipeline was cancelled", now);
      var run := CancelRun(s.runs[id], Some("cancelled by user"), "pipeline was cancelled", now).run;
      SameId(s.runs[id], run);
      PutRunKeeps(s, run);
    }
  }

  lemma RunOf(s: State, id: RunId)
    requires StateInv(s) && id in s.runs
    ensures Inv(s.runs[id]) && s.runs[id].id == id && id in s.callbackEvents
  {
  }

  lemma SameId(r: Run, q: Run)
    requires TreeForward(r, q)
    ensures q.id == r.id
  {
  }

  lemma DeliveryKeeps(s: State, closed: bool, id: RunId, cb: Callback, fingerprint: Fingerprint, now: Time,
                      saveFails: bool)
    requires StateInv(s) && cb.WellFormed()
    ensures var t := Delivered(s, closed, id, cb, fingerprint, now, saveFails).1;
            StateInv(t) && Grows(s, t)
  {
    hide Handle, Inv, Grows, TreeForward;
    GrowsReflexive(s);
    if Decide(s, id, cb, fingerprint).NewEvent? {
      RunOf(s, id);
      CallbackAllOrNothing(s.runs[id], cb, now);
      var e := Handle(s.runs[id], cb, now);
      if e.Done? {
        SameId(s.runs[id], e.run);
        DeliveredKeeps(s, e.run, cb.eventId, fingerprint);
      }
    }
  }

  lemma ResumedKeeps(s: State, id: RunId, pc: Pc, stopped: bool, now: Time, saveFails: bool)
    requires StateInv(s) && id in s.runs && PcOk(s.runs[id], pc)
    ensures var (next, t) := Resumed(s, id, pc, stopped, now, saveFails);
            StateInv(t) && Grows(s, t) && id in t.runs && PcOk(t.runs[id], next)
  {
    hide Run1, Inv, Grows, TreeForward;
    GrowsReflexive(s);
    RunOf(s, id);
    SectionCommits(s.runs[id], pc, stopped, now);
    UnsavedSection(s.runs[id], pc, stopped, now);
    SavingSections(s.runs[id], pc, stopped, now);
    var section := Run1(s.runs[id], pc, stopped, now);
    SameId(s.runs[id], section.effect.run);
    PutRunKeeps(s, section.effect.run);
  }

  /** One section inside the service is one move of the run and its coroutine. */
  lemma ResumedIsNext(s: State, id: RunId, pc: Pc, stopped: bool, now: Time, saveFails: bool)
    requires StateInv(s) && id in s.runs && PcOk(s.runs[id], pc)
    ensures var (next, t) := Resumed(s, id, pc, stopped, now, saveFails);
            && id in t.runs
            && Process(t.runs[id], next)
               == Next(Process(s.runs[id], pc),
                       if saveFails then PipelineExecutor.ResumeUnsaved(stopped, now)
                       else PipelineExecutor.Resume(stopped, now))
  {
    hide Run1, Inv, TreeForward;
    RunOf(s, id);
    SectionCommits(s.runs[id], pc, stopped, now);
    UnsavedSection(s.runs[id], pc, stopped, now);
    SameId(s.runs[id], Run1(s.runs[id], pc, stopped, now).effect.run);
  }

  lemma TasksKept(w: Service, t: State)
    requires ServiceInv(w) && Grows(w.state, t)
    ensures TasksMatch(t.runs, w.tasks)
  {
    TasksFollow(w.state.runs, t.runs, w.tasks);
  }

  /** Every operation keeps the invariant, and what the service knows only grows. */
  lemma StepKeeps(w: Service, op: Op)
    requires ServiceInv(w) && Possible(w, op)
    ensures ServiceInv(Step(w, op)) && Grows(w.state, Step(w, op).state)
  {
    assert Persistable(w.state);
    hide StateInv, Persistable, Grows, TasksMatch, Triggered, CancelledBy, Delivered, Resumed, SettleRuns, PcOk;
    match op
    case Restart =>
      GrowsReflexive(w.state);
      NoTasks(w.state.runs);
    case Initialize(now, _) =>
      GrowsReflexive(w.state);
      SettleRunsKeeps(w.state, "pipeline interrupted by service restart", "not resumed after service restart", now);
      NoTasks(Recovered(w.state, now).runs);
    case Trigger(request, newId, now, saveFails) =>
      TriggeredKeeps(w.state, w.closed, request, newId, now, saveFails);
      var (result, t) := Triggered(w.state, w.closed, request, newId, now, saveFails);
      TasksKept(w, t);
      if result.Ok? && !result.value.1 {
        TasksAdd(t.runs, w.tasks, newId, NotStarted);
      }
    case Cancel(id, now, saveFails) =>
      CancelledKeeps(w.state, w.closed, id, now, saveFails);
      TasksKept(w, CancelledBy(w.state, w.closed, id, now, saveFails).1);
    case ApplyCallback(id, cb, fingerprint, now, saveFails) =>
      DeliveryKeeps(w.state, w.closed, id, cb, fingerprint, now, saveFails);
      TasksKept(w, Delivered(w.state, w.closed, id, cb, fingerprint, now, saveFails).1);
    case Resume(id, stopped, now, saveFails) =>
      TaskAt(w, id);
      ResumedKeeps(w.state, id, w.tasks[id], stopped, now, saveFails);
      var (next, t) := Resumed(w.state, id, w.tasks[id], stopped, now, saveFails);
      TasksKept(w, t);
      TasksAdd(t.runs, w.tasks, id, next);
      TasksDrop(t.runs, w.tasks, id);
    case Shutdown(now, saveFails) =>
      GrowsReflexive(w.state);
      SettleRunsKeeps(w.state, "pipeline service shut down", "pipeline service shut down", now);
      NoTasks(ShutDown(w.state, now).runs);
  }

  lemma TaskAt(w: Service, id: RunId)
    requires ServiceInv(w) && id in w.tasks
    ensures id in w.state.runs && PcOk(w.state.runs[id], w.tasks[id])
  {
  }

  lemma NoTasks(runs: map<RunId, Run>)
    ensures TasksMatch(runs, map[])
  {
  }

  lemma TasksDrop(runs: map<RunId, Run>, tasks: map<RunId, Pc>, id: RunId)
    requires TasksMatch(runs, tasks)
    ensures TasksMatch(runs, tasks - {id})
  {
  }

  /** From `w`, the operation leads to `v`, which knows everything `w` did. */
  ghost predicate Steps(w: Service, op: Op, v: Service) {
    ServiceInv(w) && Possible(w, op) && v == Step(w, op) && Grows(w.state, v.state)
  }

  lemma ItSteps(w: Service, op: Op, v: Service)
    requires ServiceInv(w) && Possible(w, op) && v == Step(w, op)
    ensures Steps(w, op, v)
  {
    StepKeeps(w, op);
  }

  lemma TriggerIsStep(w: Service, v: Service, request: TriggerRequest, newId: RunId, now: Time, saveFails: bool,
                      result: Result<(Run, bool), Error>)
    requires ServiceInv(w) && w.up && request.WellFormed() && newId !in w.state.runs
    requires Persistable(w.state) && (result, v.state) == Triggered(w.state, w.closed, request, newId, now, saveFails)
    requires v.closed == w.closed && v.up
    requires v.tasks == if request.autoStart && result.Ok? && !result.value.1 then w.tasks[newId := NotStarted]
             else w.tasks
    ensures Steps(w, Trigger(request, newId, now, saveFails), v)
  {
    hide Triggered;
    ItSteps(w, Trigger(request, newId, now, saveFails), v);
  }

  lemma CancelIsStep(w: Service, v: Service, id: RunId, now: Time, saveFails: bool)
    requires ServiceInv(w) && w.up
    requires v == w.(state := CancelledBy(w.state, w.closed, id, now, saveFails).1)
    ensures Steps(w, Op.Cancel(id, now, saveFails), v)
  {
    hide CancelledBy;
    ItSteps(w, Op.Cancel(id, now, saveFails), v);
  }

  lemma DeliveryIsStep(w: Service, v: Service, id: RunId, cb: Callback, fingerprint: Fingerprint, now: Time,
                       saveFails: bool)
    requires ServiceInv(w) && w.up && cb.WellFormed()
    requires Persistable(w.state)
    requires v == w.(state := Delivered(w.state, w.closed, id, cb, fingerprint, now, saveFails).1)
    ensures Steps(w, ApplyCallback(id, cb, fingerprint, now, saveFails), v)
  {
    hide Delivered;
    ItSteps(w, ApplyCallback(id, cb, fingerprint, now, saveFails), v);
  }

  lemma ResumeIsStep(w: Service, v: Service, id: RunId, stopped: bool, now: Time, saveFails: bool, next: Pc)
    requires ServiceInv(w) && w.up && id in w.tasks && id in w.state.runs && PcOk(w.state.runs[id], w.tasks[id])
    requires stopped ==> w.state.runs[id].node.status.IsTerminal()
    requires (next, v.state) == Resumed(w.state, id, w.tasks[id], stopped, now, saveFails)
    requires v.closed == w.closed && v.up
    requires v.tasks == if next.Stopped? then w.tasks - {id} else w.tasks[id := next]
    ensures Steps(w, Op.Resume(id, stopped, now, saveFails), v)
  {
    hide Resumed, PcOk;
    ItSteps(w, Op.Resume(id, stopped, now, saveFails), v);
  }

  lemma ShutdownIsStep(w: Service, v: Service, now: Time, saveFails: bool)
    requires ServiceInv(w) && w.up && v.closed && v.up
    requires if saveFails then v.state == w.state && v.tasks == w.tasks
             else v.state == ShutDown(w.state, now) && v.tasks == map[]
    ensures Steps(w, Op.Shutdown(now, saveFails), v)
  {
    hide ShutDown;
    ItSteps(w, Op.Shutdown(now, saveFails), v);
  }

  lemma InitializeIsStep(w: Service, v: Service, now: Time, ok: bool)
    requires ServiceInv(w) && v.tasks == w.tasks && v.closed == w.closed && v.up == ok && (w.up ==> ok)
    requires v.state == if ok && !w.up then Recovered(w.state, now) else w.state
    ensures Steps(w, Initialize(now, !ok), v)
  {
    StepKeeps(w, Initialize(now, !ok));
  }

  /** The service after any operations; impossible ones are skipped. */
  function After(w: Service, ops: seq<Op>): (v: Service)
    requires ServiceInv(w)
    ensures ServiceInv(v)
    decreases |ops|
  {
    if ops == [] then w
    else if !Possible(w, ops[0]) then After(w, ops[1..])
    else
      StepKeeps(w, ops[0]);
      After(Step(w, ops[0]), ops[1..])
  }

  /** Over every history, failed saves, crashes and restarts included, nothing the service knows is lost. */
  lemma {:induction false} HistoryGrows(w: Service, ops: seq<Op>)
    requires ServiceInv(w)
    ensures Grows(w.state, After(w, ops).state)
    decreases |ops|
  {
    hide Grows, ServiceInv, Possible, Step;
    if ops == [] {
      GrowsReflexive(w.state);
    } else if !Possible(w, ops[0]) {
      HistoryGrows(w, ops[1..]);
    } else {
      StepKeeps(w, ops[0]);
      HistoryGrows(Step(w, ops[0]), ops[1..]);
      GrowsTransitive(w.state, Step(w, ops[0]).state, After(w, ops).state);
    }
  }

  /**
    Once an event is accepted, then after any operations, failed saves, crashes and restarts, delivering it again
    changes nothing and answers with the run as it is; other content under its identifier is a conflict.
   */
  lemma RedeliveryIsDuplicate(w: Service, id: RunId, cb: Callback, fingerprint: Fingerprint, now: Time, ops: seq<Op>,
                              again: Callback, other: Fingerprint, later: Time, saveFails: bool)
    requires ServiceInv(w) && Possible(w, ApplyCallback(id, cb, fingerprint, now, false))
    requires Delivered(w.state, w.closed, id, cb, fingerprint, now, false).0.Ok?
    requires again.WellFormed() && again.eventId == cb.eventId
    ensures ServiceInv(Step(w, ApplyCallback(id, cb, fingerprint, now, false)))
    ensures var v := After(Step(w, ApplyCallback(id, cb, fingerprint, now, false)), ops);
            && id in v.state.runs
            && Delivered(v.state, v.closed, id, again, other, later, saveFails)
               == (if v.closed then Err(ServiceClosed) else if other == fingerprint then Ok((v.state.runs[id], true))
                   else Err(IdempotencyConflict),
                   v.state)
  {
    hide Handle, StateInv, Grows, TasksMatch;
    var op := ApplyCallback(id, cb, fingerprint, now, false);
    StepKeeps(w, op);
    var u := Step(w, op);
    HistoryGrows(u, ops);
    var v := After(u, ops);
    EventRecorded(w, id, cb, fingerprint, now);
    KnownEvent(u.state, v.state, id, cb.eventId);
  }

  lemma EventRecorded(w: Service, id: RunId, cb: Callback, fingerprint: Fingerprint, now: Time)
    requires ServiceInv(w) && Possible(w, ApplyCallback(id, cb, fingerprint, now, false))
    requires Delivered(w.state, w.closed, id, cb, fingerprint, now, false).0.Ok?
    ensures var s := Step(w, ApplyCallback(id, cb, fingerprint, now, false)).state;
            && id in s.runs && id in s.callbackEvents
            && cb.eventId in s.callbackEvents[id] && s.callbackEvents[id][cb.eventId] == fingerprint
  {
    hide Handle, Inv, TreeForward;
    if Decide(w.state, id, cb, fingerprint).NewEvent? {
      RunOf(w.state, id);
      CallbackAllOrNothing(w.state.runs[id], cb, now);
      SameId(w.state.runs[id], Handle(w.state.runs[id], cb, now).run);
    }
  }

  lemma KnownEvent(s: State, t: State, id: RunId, eventId: string)
    requires Grows(s, t) && id in s.runs && id in s.callbackEvents && eventId in s.callbackEvents[id]
    ensures id in t.runs && id in t.callbackEvents && eventId in t.callbackEvents[id]
    ensures t.callbackEvents[id][eventId] == s.callbackEvents[id][eventId]
  {
    assert LogGrows(s.callbackEvents[id], t.callbackEvents[id]);
    assert TreeForward(s.runs[id], t.runs[id]);
  }

  /** Once a run has ended, no operation, crash or restart changes anything about it. */
  lemma EndedRunsAreFrozen(w: Service, ops: seq<Op>, id: RunId)
    requires ServiceInv(w) && id in w.state.runs && w.state.runs[id].node.status.IsTerminal()
    ensures id in After(w, ops).state.runs && After(w, ops).state.runs[id] == w.state.runs[id]
  {
    hide Inv, TreeForward;
    HistoryGrows(w, ops);
    RunOf(w.state, id);
    assert TreeForward(w.state.runs[id], After(w, ops).state.runs[id]);
    TerminalTreeIsFrozen(w.state.runs[id], After(w, ops).state.runs[id]);
  }

  /** In a run that has ended every node has, and ended nodes are frozen. */
  lemma TerminalTreeIsFrozen(r: Run, q: Run)
    requires Inv(r) && r.node.status.IsTerminal() && TreeForward(r, q)
    ensures q == r
  {
    forall i | 0 <= i < |r.stages|
      ensures q.stages[i] == r.stages[i]
    {
      assert StageInv(r.node.status, r.stages[i]) && StageForward(r.stages[i], q.stages[i]);
      forall j | 0 <= j < |r.stages[i].jobs|
        ensures q.stages[i].jobs[j] == r.stages[i].jobs[j]
      {
        assert JobInv(r.node.status, r.stages[i].node.status, r.stages[i].jobs[j]);
      }
      assert q.stages[i].jobs == r.stages[i].jobs;
    }
    assert q.stages == r.stages;
  }

  /**
    Once a trigger with a key is accepted, then after any operations, crashes and restarts the same request is
    answered with the run it created, and another request under the key is a conflict; neither changes anything.
   */
  lemma RetriggerIsReplay(w: Service, request: TriggerRequest, newId: RunId, now: Time, ops: seq<Op>,
                          again: TriggerRequest,
                          freshId: RunId, later: Time, saveFails: bool)
    requires ServiceInv(w) && Possible(w, Trigger(request, newId, now, false)) && request.idempotencyKey.Some?
    requires Triggered(w.state, w.closed, request, newId, now, false).0.Ok?
    requires again.idempotencyKey == request.idempotencyKey
    ensures ServiceInv(Step(w, Trigger(request, newId, now, false)))
    ensures var id := Triggered(w.state, w.closed, request, newId, now, false).0.value.0.id;
            var v := After(Step(w, Trigger(request, newId, now, false)), ops);
            && id in v.state.runs
            && Triggered(v.state, v.closed, again, freshId, later, saveFails)
               == (if v.closed then Err(ServiceClosed)
                   else if again.fingerprint == request.fingerprint then Ok((v.state.runs[id], true))
                   else Err(IdempotencyConflict),
                   v.state)
  {
    hide NewRun, Inv, Grows, TasksMatch;
    var op := Trigger(request, newId, now, false);
    StepKeeps(w, op);
    var u := Step(w, op);
    HistoryGrows(u, ops);
    var v := After(u, ops);
    NewRunIsFresh(request, newId, now);
    var key, id := request.idempotencyKey.value, Triggered(w.state, w.closed, request, newId, now, false).0.value.0.id;
    assert key in u.state.triggerKeys && u.state.triggerKeys[key] == (id, request.fingerprint);
    KnownKey(u.state, v.state, key);
  }

  lemma KnownKey(s: State, t: State, key: string)
    requires Grows(s, t) && key in s.triggerKeys
    ensures key in t.triggerKeys && t.triggerKeys[key] == s.triggerKeys[key]
  {
  }
}
