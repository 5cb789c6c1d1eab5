/**
  The pipeline service: one process lock, every mutation checkpointed, a failed checkpoint rolled
  back to what is durable.  Each method is one lock section after `_initialize_locked`.
 */
module PipelineService {
  import opened Common
  import opened PipelineTree
  import opened PipelineCallbacks
  import opened PipelineCallbackOutcome
  import opened PipelineExecutor
  import opened PipelineExecution
  import opened PipelineRuns
  import opened PipelineStore
  import opened PipelineSystem

  /** Which storage calls of a checkpoint fail. */
  datatype Faults = Faults(save: bool, reload: bool)

  predicate EventsMatch(runs: map<RunId, Run>, events: map<RunId, bool>) {
    && events.Keys == runs.Keys
    && (forall k {:trigger events[k]} | k in runs :: events[k] == runs[k].node.status.IsTerminal())
  }

  class PipelineService {
    const store: Store
    var runs: map<RunId, Run>
    var triggerKeys: map<string, (RunId, Fingerprint)>
    var callbackEvents: map<RunId, map<string, Fingerprint>>
    var cancelEvents: map<RunId, bool>
    var completionEvents: map<RunId, bool>
    var tasks: map<RunId, Pc>
    var durable: Option<State>
    var initialized: bool
    var closed: bool

    function Memory(): State
      reads `runs, `triggerKeys, `callbackEvents
    {
      State(runs, triggerKeys, callbackEvents)
    }

    /** The completion and cancellation events are set exactly for terminal runs. */
    ghost predicate EventsPublished()
      reads `runs, `cancelEvents, `completionEvents
    {
      EventsMatch(runs, cancelEvents) && EventsMatch(runs, completionEvents)
    }

    /** Memory is exactly what the database holds. */
    ghost predicate InSync()
      reads `runs, `triggerKeys, `callbackEvents, `durable, store
    {
      && store.Valid()
      && store.committed == Memory()
      && durable == Some(Memory())
    }

    /** What every lock section finds and leaves. */
    ghost predicate Steady()
      reads this, store
    {
      && StateInv(Memory())
      && InSync()
      && EventsPublished()
      && TasksMatch(runs, tasks)
    }

    ghost predicate Ready()
      reads this, store
    {
      initialized && Steady()
    }

    /** The service as a value; before initialisation only the database counts. */
    ghost function Now(): Service
      reads this, store
    {
      Service(if initialized then Memory() else store.committed, tasks, closed, initialized)
    }

    lemma ReadyIsInv()
      requires Ready()
      ensures ServiceInv(Now()) && Persistable(Now().state)
    {
    }

    /** A new process over an existing database. */
    constructor (store: Store)
      ensures this.store == store && !initialized && !closed && tasks == map[]
    {
      this.store := store;
      runs, triggerKeys, callbackEvents, cancelEvents, completionEvents := map[], map[], map[], map[], map[];
      tasks, durable, initialized, closed := map[], None, false, false;
    }

    /** `_synchronize_terminal_events_locked` */
    method PublishEvents()
      requires cancelEvents.Keys == runs.Keys == completionEvents.Keys
      modifies this`cancelEvents, this`completionEvents
      ensures EventsPublished()
    {
      var todo := runs.Keys;
      while todo != {}
        invariant todo <= runs.Keys
        invariant cancelEvents.Keys == runs.Keys == completionEvents.Keys
        invariant forall k | k in runs && k !in todo ::
                    cancelEvents[k] == runs[k].node.status.IsTerminal() == completionEvents[k]
      {
        var k :| k in todo;
        cancelEvents := cancelEvents[k := runs[k].node.status.IsTerminal()];
        completionEvents := completionEvents[k := runs[k].node.status.IsTerminal()];
        todo := todo - {k};
      }
    }

    /** `_restore_state_locked`: the given state replaces the memory, and its events follow. */
    method Restore(state: State)
      requires state.callbackEvents.Keys == state.runs.Keys
      modifies this`runs, this`triggerKeys, this`callbackEvents, this`cancelEvents, this`completionEvents
      ensures Memory() == state && EventsPublished()
    {
      runs, triggerKeys := state.runs, state.triggerKeys;
      callbackEvents := map k | k in state.runs :: state.callbackEvents[k];
      assert callbackEvents == state.callbackEvents;
      cancelEvents := map k | k in runs :: runs[k].node.status.IsTerminal();
      completionEvents := map k | k in runs :: runs[k].node.status.IsTerminal();
    }

    /** Save the memory; when that fails, bring memory back to what is durable. */
    method Checkpoint(faults: Faults) returns (ok: bool)
      requires Persistable(Memory())
      requires store.Valid() && durable == Some(store.committed)
      requires cancelEvents.Keys == runs.Keys == completionEvents.Keys
      modifies store, this`runs, this`triggerKeys, this`callbackEvents, this`cancelEvents, this`completionEvents,
               this`durable
      ensures ok <==> !faults.save
      ensures Memory() == if ok then old(Memory()) else old(store.committed)
      ensures InSync() && EventsPublished()
    {
      var candidate := Memory();
      ok := store.Save(candidate, faults.save);
      if ok {
        durable := Some(candidate);
        PublishEvents();
      } else {
        var loaded := store.Load(faults.reload);
        Restore(if loaded.Some? then loaded.value else durable.value);
      }
    }

    /** Checkpoint a mutated memory; afterwards the service is steady, in the new state or the one before. */
    method Conclude(ghost before: State, faults: Faults) returns (saved: bool)
      requires StateInv(Memory()) && StateInv(before) && RunsGrow(before.runs, runs)
      requires store.Valid() && store.committed == before && durable == Some(before)
      requires cancelEvents.Keys == runs.Keys == completionEvents.Keys
      requires TasksMatch(before.runs, tasks)
      modifies store, this`runs, this`triggerKeys, this`callbackEvents, this`cancelEvents, this`completionEvents,
               this`durable
      ensures saved <==> !faults.save
      ensures Steady() && Memory() == if saved then old(Memory()) else before
    {
      TasksFollow(before.runs, runs, tasks);
      saved := Checkpoint(faults);
    }

    /** Sweep every unfinished run with the given messages; says whether there was one. */
    method SettleAll(runMessage: string, childMessage: string, now: Time) returns (changed: bool)
      modifies this`runs
      ensures Memory() == SettleRuns(old(Memory()), runMessage, childMessage, now)
      ensures changed <==> exists k :: k in runs && !old(runs)[k].node.status.IsTerminal()
      ensures !changed ==> runs == old(runs)
    {
      hide CancelRun, Inv;
      changed := false;
      var todo := runs.Keys;
      while todo != {}
        invariant todo <= runs.Keys == old(runs).Keys
        invariant forall k | k in runs ::
                    runs[k] == if k in todo then old(runs)[k] else Settle(old(runs)[k], runMessage, childMessage, now)
        invariant changed <==> exists k :: k in runs && k !in todo && !old(runs)[k].node.status.IsTerminal()
        invariant !changed ==> runs == old(runs)
      {
        var k :| k in todo;
        var run := new PipelineRun(runs[k]);
        if !run.status.IsTerminal() {
          var error := run.CancelAll(Some(runMessage), childMessage, now);
          runs := runs[k := run.View()];
          changed := true;
        }
        todo := todo - {k};
      }
    }

    /** The recovery half of `_initialize_locked`, on freshly loaded memory. */
    method RecoverLoaded(now: Time, faults: Faults) returns (ok: bool)
      requires InSync() && EventsPublished() && StateInv(Memory())
      modifies store, this`runs, this`triggerKeys, this`callbackEvents, this`cancelEvents, this`completionEvents,
               this`durable
      ensures InSync()
      ensures ok <==> !faults.save || AllTerminal(old(runs))
      ensures ok ==> EventsPublished() && StateInv(Memory()) && AllTerminal(runs)
      ensures Memory() == if ok then Recovered(old(Memory()), now) else old(Memory())
    {
      SettleRunsKeeps(Memory(), "pipeline interrupted by service restart", "not resumed after service restart", now);
      var changed := SettleAll("pipeline interrupted by service restart", "not resumed after service restart", now);
      ok := true;
      if changed {
        ok := Checkpoint(faults);
      }
    }

    method LoadAndRecover(now: Time, loadFault: bool, faults: Faults, ghost settled: bool) returns (ok: bool)
      requires store.Valid() && StateInv(store.committed) && settled == AllTerminal(store.committed.runs)
      modifies store, this`runs, this`triggerKeys, this`callbackEvents, this`cancelEvents, this`completionEvents,
               this`durable
      ensures if ok
              then && InSync() && EventsPublished() && StateInv(Memory()) && AllTerminal(runs)
                   && Memory() == Recovered(old(store.committed), now)
              else store.Valid() && store.committed == old(store.committed)
      ensures ok <==> !loadFault && (!faults.save || settled)
    {
      var loaded := store.Load(loadFault);
      if loaded.None? {
        return false;
      }
      Restore(loaded.value);
      durable := loaded;
      ok := RecoverLoaded(now, faults);
    }

    /** `_initialize_locked`: a restarted process finds no active run; an initialized one is left alone. */
    method Initialize(now: Time, loadFault: bool, faults: Faults) returns (ok: bool)
      requires initialized ==> Ready()
      requires !initialized ==> tasks == map[] && store.Valid() && StateInv(store.committed)
      modifies this, store
      ensures ok <==> initialized
      ensures tasks == old(tasks) && closed == old(closed)
      ensures ok ==> Ready()
      ensures ok <==> old(initialized) || (!loadFault && (!faults.save || AllTerminal(old(store.committed).runs)))
      ensures Steps(old(Now()), Op.Initialize(now, !ok), Now())
      ensures old(initialized) ==> ok && Memory() == old(Memory())
      ensures !old(initialized) && ok ==>
                && Memory() == Recovered(old(store.committed), now)
                && AllTerminal(runs)
      ensures !ok ==> store.Valid() && store.committed == old(store.committed)
    {
      hide Inv, StateInv, AllTerminal, Recovered, EventsPublished, TasksMatch, Store.Valid, ServiceInv, Steps;
      StartIsInv();
      ghost var before := Now();
      ok := true;
      if !initialized {
        ok := Boot(now, loadFault, faults);
      }
      InitializeIsStep(before, Now(), now, ok);
    }

    method Boot(now: Time, loadFault: bool, faults: Faults) returns (ok: bool)
      requires !initialized && tasks == map[] && store.Valid() && StateInv(store.committed)
      modifies this, store
      ensures ok == initialized && tasks == old(tasks) && closed == old(closed)
      ensures ok <==> !loadFault && (!faults.save || AllTerminal(old(store.committed).runs))
      ensures ok ==> Ready() && Memory() == Recovered(old(store.committed), now) && AllTerminal(runs)
      ensures !ok ==> store.Valid() && store.committed == old(store.committed)
    {
      hide Inv, StateInv, Recovered, TasksMatch, Store.Valid;
      ok := LoadAndRecover(now, loadFault, faults, AllTerminal(store.committed.runs));
      initialized := ok;
      NoTasks(runs);
    }

    lemma StartIsInv()
      requires initialized ==> Ready()
      requires !initialized ==> tasks == map[] && store.Valid() && StateInv(store.committed)
      ensures ServiceInv(Now())
    {
      NoTasks(store.committed.runs);
    }

    /** Where the executor of run `id` is suspended; a stopped one leaves the task table. */
    method SetTask(id: RunId, next: Pc)
      requires Steady() && id in runs && PcOk(runs[id], next)
      modifies this`tasks
      ensures Steady()
      ensures tasks == if next.Stopped? then old(tasks) - {id} else old(tasks)[id := next]
    {
      hide Inv, StateInv, InSync, EventsPublished;
      TasksAdd(runs, tasks, id, next);
      tasks := if next.Stopped? then tasks - {id} else tasks[id := next];
    }

    /** Enter a new run in every dictionary. */
    method Enter(run: Run, key: Option<string>, fingerprint: Fingerprint)
      requires cancelEvents.Keys == runs.Keys == completionEvents.Keys
      modifies this`runs, this`triggerKeys, this`callbackEvents, this`cancelEvents, this`completionEvents
      ensures Memory() == AddRun(old(Memory()), run, key, fingerprint)
      ensures cancelEvents.Keys == runs.Keys == completionEvents.Keys
    {
      runs := runs[run.id := run];
      callbackEvents := callbackEvents[run.id := map[]];
      cancelEvents := cancelEvents[run.id := false];
      completionEvents := completionEvents[run.id := false];
      triggerKeys := if key.Some? then triggerKeys[key.value := (run.id, fingerprint)] else triggerKeys;
    }

    method InsertRun(run: Run, key: Option<string>, fingerprint: Fingerprint, faults: Faults) returns (saved: bool)
      requires Steady()
      requires run.id !in runs && Inv(run) && (key.Some? ==> key.value !in triggerKeys)
      modifies store, this`runs, this`triggerKeys, this`callbackEvents, this`cancelEvents, this`completionEvents,
               this`durable
      ensures saved <==> !faults.save
      ensures Steady()
      ensures Memory() == if saved then AddRun(old(Memory()), run, key, fingerprint) else old(Memory())
    {
      AddRunKeeps(Memory(), run, key, fingerprint);
      RunsGrowAt(runs, run.id, run);
      Enter(run, key, fingerprint);
      saved := Conclude(old(Memory()), faults);
    }

    /**
      `trigger`: a known key replays or conflicts without a trace; otherwise the new run is
      visible in memory and in the database, or, when the save fails, in neither.
     */
    method Trigger(request: TriggerRequest, newId: RunId, now: Time, faults: Faults)
      returns (result: Result<(Run, bool), Error>)
      requires Ready() && request.WellFormed() && newId !in runs
      modifies this, store
      ensures Ready() && closed == old(closed)
      ensures (result, Memory()) == Triggered(old(Memory()), old(closed), request, newId, now, faults.save)
      ensures result.Ok? && !result.value.1 ==>
                var run := result.value.0;
                && newId in runs && runs[newId] == run && run.createdAt == now
                && Fresh(run) && MadeFor(run, request)
                && (request.autoStart ==> newId in tasks && tasks[newId] == NotStarted)
      ensures Steps(old(Now()), Op.Trigger(request, newId, now, faults.save), Now())
    {
      ReadyIsInv();
      hide StateInv, Persistable, EventsPublished, InSync, TasksMatch, ServiceInv, Steps, Triggered, Fresh, MadeFor;
      ghost var before := Now();
      NewRunIsFresh(request, newId, now);
      NewRunIsAsRequested(request, newId, now);
      result := Admit(request, newId, now, faults);
      AdmittedIsNew(before.state, before.closed, request, newId, now, faults.save);
      TriggerIsStep(before, Now(), request, newId, now, faults.save, result);
    }

    lemma AdmittedIsNew(s: State, closed: bool, request: TriggerRequest, newId: RunId, now: Time, saveFails: bool)
      requires Persistable(s) && newId == NewRun(request, newId, now).id
      ensures var (result, t) := Triggered(s, closed, request, newId, now, saveFails);
              result.Ok? && !result.value.1 ==>
                && result.value.0 == NewRun(request, newId, now)
                && newId in t.runs && t.runs[newId] == result.value.0
    {
      hide NewRun, Persistable;
    }

    method Admit(request: TriggerRequest, newId: RunId, now: Time, faults: Faults)
      returns (result: Result<(Run, bool), Error>)
      requires Ready() && request.WellFormed() && newId !in runs
      modifies this, store
      ensures Ready() && closed == old(closed)
      ensures (result, Memory()) == Triggered(old(Memory()), old(closed), request, newId, now, faults.save)
      ensures tasks == if request.autoStart && result.Ok? && !result.value.1 then old(tasks)[newId := NotStarted]
              else old(tasks)
    {
      hide NewRun, InSync, EventsPublished;
      if closed {
        return Err(ServiceClosed);
      }
      if request.idempotencyKey.Some? && request.idempotencyKey.value in triggerKeys {
        var previous := triggerKeys[request.idempotencyKey.value];
        if previous.1 != request.fingerprint {
          return Err(IdempotencyConflict);
        }
        return Ok((runs[previous.0], true));
      }
      var run := NewRun(request, newId, now);
      NewRunIsFresh(request, newId, now);
      var saved := InsertRun(run, request.idempotencyKey, request.fingerprint, faults);
      if !saved {
        return Err(StorageError);
      }
      if request.autoStart {
        SetTask(newId, NotStarted);
      }
      return Ok((run, false));
    }

    /** Write a mutated run back and checkpoint. */
    method Commit(run: Run, faults: Faults) returns (saved: bool)
      requires Steady()
      requires run.id in runs && Inv(run) && TreeForward(runs[run.id], run)
      modifies store, this`runs, this`triggerKeys, this`callbackEvents, this`cancelEvents, this`completionEvents,
               this`durable
      ensures saved <==> !faults.save
      ensures Steady()
      ensures Memory() == if saved then PutRun(old(Memory()), run) else old(Memory())
      ensures RunsGrow(old(runs), runs)
    {
      hide Inv, TreeForward;
      RunsGrowReflexive(runs);
      PutRunKeeps(Memory(), run);
      runs := runs[run.id := run];
      saved := Conclude(old(Memory()), faults);
    }

    /** The same with an event entered in the run's log. */
    method CommitEvent(run: Run, eventId: string, fingerprint: Fingerprint, faults: Faults) returns (saved: bool)
      requires Steady()
      requires run.id in runs && Inv(run) && TreeForward(runs[run.id], run)
      requires eventId !in callbackEvents[run.id]
      modifies store, this`runs, this`triggerKeys, this`callbackEvents, this`cancelEvents, this`completionEvents,
               this`durable
      ensures saved <==> !faults.save
      ensures Steady()
      ensures Memory() == if saved then RecordEvent(PutRun(old(Memory()), run), run.id, eventId, fingerprint)
              else old(Memory())
    {
      hide Inv, TreeForward, RunsInv, Persistable, Grows, RunsGrow, TasksMatch;
      DeliveredGrows(Memory(), run, eventId, fingerprint);
      runs := runs[run.id := run];
      callbackEvents := callbackEvents[run.id := callbackEvents[run.id][eventId := fingerprint]];
      saved := Conclude(old(Memory()), faults);
    }

    /** Cancel an active run in place and commit it. */
    method CancelActive(id: RunId, now: Time, faults: Faults) returns (result: Result<(Run, bool), Error>)
      requires Steady()
      requires id in runs && !runs[id].node.status.IsTerminal()
      modifies store, this`runs, this`triggerKeys, this`callbackEvents, this`cancelEvents, this`completionEvents,
               this`durable
      ensures Steady()
      ensures (result, Memory()) == CancelledBy(old(Memory()), false, id, now, faults.save)
    {
      hide CancelRun;
      assert Inv(runs[id]) && runs[id].id == id;
      CancelRunCommits(runs[id], Some("cancelled by user"), "pipeline was cancelled", now);
      var run := new PipelineRun(runs[id]);
      var error := run.CancelAll(Some("cancelled by user"), "pipeline was cancelled", now);
      InvImpliesAssertions(run.View());
      if error.Some? || !AssertionsHold(run.View()) {
        return Err(InvariantError);
      }
      var saved := Commit(run.View(), faults);
      return if saved then Ok((run.View(), false)) else Err(StorageError);
    }

    method Cancel(id: RunId, now: Time, faults: Faults) returns (result: Result<(Run, bool), Error>)
      requires Ready()
      modifies this, store
      ensures Ready() && closed == old(closed) && tasks == old(tasks)
      ensures (result, Memory()) == CancelledBy(old(Memory()), old(closed), id, now, faults.save)
      ensures Steps(old(Now()), Op.Cancel(id, now, faults.save), Now())
    {
      hide Inv, CancelRun, PutRun, StateInv, EventsPublished, InSync, TasksMatch, ServiceInv, Steps;
      ReadyIsInv();
      ghost var before := Now();
      if closed {
        result := Err(ServiceClosed);
      } else if id !in runs {
        result := Err(RunNotFound);
      } else if runs[id].node.status.Cancelled? {
        result := Ok((runs[id], true));
      } else if runs[id].node.status.IsTerminal() {
        result := Err(TransitionError);
      } else {
        result := CancelActive(id, now, faults);
      }
      CancelIsStep(before, Now(), id, now, faults.save);
    }

    /** Apply an event to run `id` in place; a raised error leaves whatever it wrote in memory, which is nothing. */
    method HandleInPlace(id: RunId, cb: Callback, now: Time) returns (after: Run, error: Option<Error>)
      requires StateInv(Memory()) && id in runs && cb.WellFormed()
      modifies this`runs
      ensures runs == old(runs)
      ensures Handle(old(runs)[id], cb, now) == if error.None? then Done(after) else Raised(old(runs)[id], error.value)
      ensures error.None? ==> after.id == id && Inv(after) && TreeForward(old(runs)[id], after)
    {
      hide Handle, Reacts, TreeForward;
      assert Inv(runs[id]) && runs[id].id == id;
      hide Inv, StateInv;
      CallbackAllOrNothing(runs[id], cb, now);
      var run := new PipelineRun(runs[id]);
      error := run.HandleCallback(cb, now);
      after := run.View();
      if error.Some? {
        runs := runs[id := run.View()];
        assert runs == old(runs);
      }
    }

    /** Handle an event no log knows: apply it, record it, and commit both together. */
    method DeliverNew(id: RunId, cb: Callback, fingerprint: Fingerprint, now: Time, faults: Faults)
      returns (result: Result<(Run, bool), Error>)
      requires Steady()
      requires cb.WellFormed() && Decide(Memory(), id, cb, fingerprint).NewEvent?
      modifies store, this`runs, this`triggerKeys, this`callbackEvents, this`cancelEvents, this`completionEvents,
               this`durable
      ensures Steady()
      ensures (result, Memory()) == Delivered(old(Memory()), false, id, cb, fingerprint, now, faults.save)
    {
      hide Inv, TreeForward, Handle, InSync, EventsPublished;
      var after, error := HandleInPlace(id, cb, now);
      if error.Some? {
        return Err(error.value);
      }
      var saved := CommitEvent(after, cb.eventId, fingerprint, faults);
      return if saved then Ok((after, false)) else Err(StorageError);
    }

    lemma DeliveryReacts(s: State, id: RunId, cb: Callback, fingerprint: Fingerprint, now: Time)
      requires StateInv(s) && cb.WellFormed()
      ensures var (result, t) := Delivered(s, false, id, cb, fingerprint, now, false);
              Decide(s, id, cb, fingerprint).NewEvent? ==>
                && id in t.runs
                && Reacts(s.runs[id], cb, now,
                          if result.Ok? then Done(t.runs[id]) else Raised(s.runs[id], result.error))
    {
      hide Inv, TreeForward, Handle, Reacts;
      if Decide(s, id, cb, fingerprint).NewEvent? {
        RunOf(s, id);
        CallbackAllOrNothing(s.runs[id], cb, now);
        CallbackOutcome(s.runs[id], cb, now);
        var e := Handle(s.runs[id], cb, now);
        if e.Done? {
          SameId(s.runs[id], e.run);
        }
      }
    }

    /** `apply_callback` with its idempotency log. */
    method ApplyCallback(id: RunId, cb: Callback, fingerprint: Fingerprint, now: Time, faults: Faults)
      returns (result: Result<(Run, bool), Error>)
      requires Ready() && cb.WellFormed()
      modifies this, store
      ensures Ready() && closed == old(closed) && tasks == old(tasks)
      ensures (result, Memory()) == Delivered(old(Memory()), old(closed), id, cb, fingerprint, now, faults.save)
      ensures !old(closed) && id in old(runs) && cb.eventId !in old(callbackEvents)[id] && !faults.save ==>
                && id in runs
                && Reacts(old(runs)[id], cb, now,
                          if result.Ok? then Done(runs[id]) else Raised(old(runs)[id], result.error))
      ensures Steps(old(Now()), Op.ApplyCallback(id, cb, fingerprint, now, faults.save), Now())
    {
      hide Inv, EventsPublished, InSync, TasksMatch, ServiceInv, Steps, Handle, Reacts;
      ReadyIsInv();
      ghost var before := Now();
      DeliveryReacts(Memory(), id, cb, fingerprint, now);
      if closed {
        result := Err(ServiceClosed);
      } else if id !in runs {
        result := Err(RunNotFound);
      } else if cb.eventId !in callbackEvents[id] {
        result := DeliverNew(id, cb, fingerprint, now, faults);
      } else if callbackEvents[id][cb.eventId] != fingerprint {
        result := Err(IdempotencyConflict);
      } else {
        result := Ok((runs[id], true));
      }
      DeliveryIsStep(before, Now(), id, cb, fingerprint, now, faults.save);
    }

    /** Run one executor section in place; commit it if the section checkpoints. */
    method ResumeSection(id: RunId, pc: Pc, stopped: bool, now: Time, faults: Faults) returns (next: Pc)
      requires Steady()
      requires id in runs && PcOk(runs[id], pc)
      modifies store, this`runs, this`triggerKeys, this`callbackEvents, this`cancelEvents, this`completionEvents,
               this`durable
      ensures Steady()
      ensures id in runs && PcOk(runs[id], next)
      ensures (next, Memory()) == Resumed(old(Memory()), id, pc, stopped, now, faults.save)
    {
      hide Run1, TreeForward, InSync, EventsPublished;
      assert Inv(runs[id]) && runs[id].id == id;
      SectionCommits(runs[id], pc, stopped, now);
      var run := new PipelineRun(runs[id]);
      var saves, error;
      next, saves, error := run.RunSection(pc, stopped, now);
      if saves {
        var saved := Commit(run.View(), faults);
        if !saved {
          next := if pc.Handling? then Stopped else Handling;
        }
      } else {
        UnsavedSection(runs[id], pc, stopped, now);
        assert runs[id := run.View()] == runs;
      }
    }

    /** The executor of run `id` wakes up for one lock section. */
    method Resume(id: RunId, stopped: bool, now: Time, faults: Faults) returns (next: Pc)
      requires Ready() && id in tasks
      requires stopped ==> cancelEvents[id]
      modifies this, store
      ensures Ready() && closed == old(closed)
      ensures (next, Memory()) == Resumed(old(Memory()), id, old(tasks)[id], stopped, now, faults.save)
      ensures tasks == if next.Stopped? then old(tasks) - {id} else old(tasks)[id := next]
      ensures Steps(old(Now()), Op.Resume(id, stopped, now, faults.save), Now())
    {
      hide Inv, Run1, Resumed, StateInv, InSync, ServiceInv, Steps;
      assert PcOk(runs[id], tasks[id]);
      ReadyIsInv();
      ghost var before := Now();
      next := ResumeSection(id, tasks[id], stopped, now, faults);
      SetTask(id, next);
      ResumeIsStep(before, Now(), id, stopped, now, faults.save, next);
    }

    method StopRuns(now: Time, faults: Faults) returns (ok: bool)
      requires Steady()
      modifies store, this`runs, this`triggerKeys, this`callbackEvents, this`cancelEvents, this`completionEvents,
               this`durable
      ensures Steady()
      ensures ok <==> !faults.save
      ensures Memory() == if ok then ShutDown(old(Memory()), now)
                          else old(Memory())
      ensures ok ==> AllTerminal(runs)
    {
      SettleRunsKeeps(Memory(), "pipeline service shut down", "pipeline service shut down", now);
      var changed := SettleAll("pipeline service shut down", "pipeline service shut down", now);
      ok := Conclude(old(Memory()), faults);
    }

    /** `shutdown`: on success every run is terminal and no executor is left. */
    method Shutdown(now: Time, faults: Faults) returns (ok: bool)
      requires Ready()
      modifies this, store
      ensures Ready() && closed
      ensures ok <==> !faults.save
      ensures Memory() == if ok then ShutDown(old(Memory()), now)
                          else old(Memory())
      ensures if ok then AllTerminal(runs) && tasks == map[] else tasks == old(tasks)
      ensures Steps(old(Now()), Op.Shutdown(now, faults.save), Now())
    {
      hide Inv, ShutDown, StateInv, InSync, EventsPublished, ServiceInv, Steps;
      ReadyIsInv();
      ghost var before := Now();
      closed := true;
      ok := StopRuns(now, faults);
      tasks := if ok then map[] else tasks;
      ShutdownIsStep(before, Now(), now, faults.save);
    }
  }
}
