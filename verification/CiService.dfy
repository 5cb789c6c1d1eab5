/** The CI lab service: one object per process over the shared tables, every method one transaction. */
module CiService {
  import opened Common
  import opened CiTimeline
  import opened CiRun
  import opened CiOutbox
  import opened CiSystem
  import opened CiClaims
  import opened CiStages

  datatype RunView = RunView(
    runId: nat,
    status: RunStatus,
    message: Option<string>,
    startedAt: Option<Time>,
    finishedAt: Option<Time>,
    stages: seq<StageView>,
    gate: Option<GateRow>,
    approvals: seq<Approval>,
    webhookSequence: nat,
    replayed: bool)

  function LastSequence(outbox: seq<Delivery>): nat {
    if outbox == [] then 0 else outbox[|outbox| - 1].sequence
  }

  /** `_run_view` */
  function ViewOf(r: nat, d: PipelineDefinition, rec: Record, now: Time, replayed: bool): RunView {
    var s := rec.tracked;
    RunView(r, s.PublicStatus(), s.run.message, s.run.startedAt, s.run.finishedAt,
            StageViews(d.stages, ShownJobs(d, s, now)),
            s.gate, s.approvals, LastSequence(rec.outbox), replayed)
  }

  /** `_terminal_point` */
  method FindTerminal(d: PipelineDefinition) returns (t: Terminal)
    requires WellFormed(d)
    ensures t == TerminalPoint(d)
  {
    hide JobsOf;
    var slots := ComputeTimeline(d);
    JobsNonempty(d);
    var failure := FirstFailure(slots);
    if failure.Some? {
      var slot := slots[failure.value];
      return Terminal(slot.finishMs, Failed, "fixed job " + slot.job.key + " failed");
    }
    t := Terminal(slots[|slots| - 1].finishMs, Succeeded, "completed by the deterministic local executor");
  }

  /** `_refresh_record` as it is written: variables first, then the row updates. */
  method Refresh(d: PipelineDefinition, s: Tracked, now: Time) returns (t: Tracked)
    requires WellFormed(d)
    ensures t == Refreshed(d, s, now)
  {
    hide WellFormed, TerminalPoint, Timeline, JobsOf, FirstFailure;
    var run, gate := s.run, s.gate;
    if run.cancelledAt.Some? || run.status.IsTerminal() {
      return s;
    }
    if gate.Some? && gate.value.status.Waiting? {
      if !run.status.Running? || run.message != Some(WAITING_MESSAGE) {
        run := run.(status := Running, message := Some(WAITING_MESSAGE), updatedAt := now, finishedAt := None);
      }
      return s.(run := run);
    }
    var elapsed := if now < run.createdAt then 0 else (now - run.createdAt) / 1000;
    var end := FindTerminal(d);
    var startedAt: Option<Time> := None;
    var finishedAt: Option<Time> := None;
    var status := Queued;
    var message: Option<string> := None;
    var gateReached := false;
    if d.queueDelayMs <= elapsed {
      startedAt := Some(run.createdAt + d.queueDelayMs * 1000);
      status := Running;
    }
    var terminalAt := run.createdAt + end.ms * 1000;
    if end.ms <= elapsed {
      if gate.Some? && end.status.Succeeded? {
        status := Running;
        message := Some(WAITING_MESSAGE);
        gateReached := true;
      } else {
        status := end.status;
        message := Some(end.message);
        finishedAt := Some(terminalAt);
      }
    }
    if run.status.Running? && status.Queued? {
      status := Running;
      message := run.message;
      startedAt := run.startedAt;
      finishedAt := None;
    }
    if run.status != status || run.startedAt != startedAt || run.finishedAt != finishedAt || run.message != message {
      run := run.(status := status, message := message, updatedAt := now, startedAt := startedAt,
                  finishedAt := finishedAt);
    }
    if gate.Some? {
      if gate.value.status.Evaluating? && gateReached {
        gate := Some(gate.value.(status := Waiting, reachedAt := Some(terminalAt), updatedAt := now));
      } else if gate.value.status.Evaluating? && status.Failed? {
        gate := Some(gate.value.(status := GateFailed, updatedAt := now));
      }
    }
    t := Tracked(run, gate, s.approvals);
  }

  /** `_public_run_status` */
  method StatusShown(s: Tracked) returns (status: RunStatus)
    ensures status == s.PublicStatus()
  {
    status := if s.gate.Some? && s.gate.value.status.Waiting? then WaitingApproval else s.run.status;
  }

  /** `_enqueue_webhook_if_changed` on the new rows of a run. */
  method File(r: nat, rec: Record, t: Tracked, at: Time) returns (after: Record)
    requires Snapshots(rec.outbox)
    ensures after == Filed(r, rec, t, at)
  {
    after := rec.(tracked := t);
    if rec.subscription.None? {
      return;
    }
    var rows := rec.outbox;
    var status := StatusShown(t);
    var sequence, occurredAt := 1, t.run.updatedAt;
    if t.gate.Some? && t.gate.value.updatedAt > occurredAt {
      occurredAt := t.gate.value.updatedAt;
    }
    if rows != [] {
      var latest := rows[|rows| - 1];
      if latest.publicStatus == status && latest.message == t.run.message {
        return;
      }
      sequence := latest.sequence + 1;
      if latest.occurredAt > occurredAt {
        occurredAt := latest.occurredAt;
      }
    }
    if at > occurredAt {
      occurredAt := at;
    }
    var to := rec.subscription.value;
    var body := Json(to.connectionId, to.correlationId, r, t.run.message, occurredAt, sequence, status);
    var row := Delivery(sequence := sequence, occurredAt := occurredAt, publicStatus := status,
                        message := t.run.message, body := body, bodySha256 := Sha256(body), status := Pending,
                        attempts := 0, maxAttempts := 8, availableAt := at, lease := None,
                        lastError := None, version := 0, createdAt := at, updatedAt := at, deliveredAt := None,
                        deadLetteredAt := None);
    after := after.(outbox := rows + [row]);
  }

  /** The clock, but never before the checks were over. */
  method MomentOf(s: Tracked, now: Time) returns (at: Time)
    ensures at == ReachedOr(s, now)
  {
    at := now;
    if s.gate.Some? && s.gate.value.reachedAt.Some? && s.gate.value.reachedAt.value > at {
      at := s.gate.value.reachedAt.value;
    }
  }

  /** The writes of `cancel`, on refreshed rows. */
  method StopRun(d: PipelineDefinition, s: Tracked, now: Time) returns (result: Result<Tracked, Error>)
    ensures result == Cancel(d, s, now)
  {
    if s.run.status.Cancelled? {
      return Ok(s);
    }
    if s.run.status.Succeeded? || s.run.status.Failed? {
      return Err(Conflict("a terminal run cannot be cancelled"));
    }
    var at := MomentOf(s, now);
    var run := s.run.(status := Cancelled, message := Some("cancelled by an authenticated machine request"),
                      updatedAt := at, finishedAt := Some(at), cancelledAt := Some(at));
    var queuedUntil := s.run.createdAt + d.queueDelayMs * 1000;
    if run.startedAt.None? && at >= queuedUntil {
      run := run.(startedAt := Some(queuedUntil));
    }
    var gate := s.gate;
    if gate.Some? {
      gate := Some(gate.value.(status := GateCancelled, decidedAt := Some(at), updatedAt := at));
    }
    result := Ok(Tracked(run, gate, s.approvals));
  }

  /** The recorded decision with this event identifier, if any. */
  method FindDecision(approvals: seq<Approval>, eventId: string) returns (found: Option<Approval>)
    ensures found == Previous(approvals, eventId)
  {
    found := None;
    for n := |approvals| downto 0
      invariant found == Previous(approvals[n..], eventId)
    {
      assert approvals[n..] == [approvals[n]] + approvals[n + 1..];
      if approvals[n].request.eventId == eventId {
        found := Some(approvals[n]);
      }
    }
    assert approvals[0..] == approvals;
  }

  /** The writes of `decide_gate`, on refreshed rows. */
  method JudgeGate(s: Tracked, request: DecisionRequest, now: Time) returns (result: Result<Tracked, Error>)
    ensures result == Decide(s, request, now)
  {
    if s.gate.None? {
      return Err(Conflict("this run has no quality approval gate"));
    }
    var previous := FindDecision(s.approvals, request.eventId);
    if previous.Some? {
      if previous.value.request != request {
        return Err(Conflict("approval event_id was reused with different input"));
      }
      return Ok(s);
    }
    if |s.approvals| > 0 {
      return Err(Conflict("the quality gate already has a decision"));
    }
    if !s.gate.value.status.Waiting? {
      return Err(Conflict("quality checks must pass before the gate can be decided"));
    }
    var at := MomentOf(s, now);
    var run, gate := s.run.(updatedAt := at, finishedAt := Some(at)), s.gate.value.(decidedAt := Some(at),
                                                                                    updatedAt := at);
    match request.decision {
      case Approve =>
        run := run.(status := Succeeded, message := Some("quality gate approved"));
        gate := gate.(status := Approved);
      case Reject =>
        run := run.(status := Failed, message := Some("quality gate rejected"));
        gate := gate.(status := Rejected);
    }
    result := Ok(Tracked(run, Some(gate), s.approvals + [Approval(request, at)]));
  }

  /** `_require_webhook_delivery_lease` */
  method CheckLease(x: Delivery, claim: Claim, now: Time) returns (error: Option<Error>)
    ensures error == if Holds(x, claim, now) then None
                     else Some(Conflict("webhook delivery lease is invalid or expired"))
  {
    if !x.status.Claimed? || x.lease.None? || x.lease.value.owner != claim.workerId
       || x.lease.value.tokenHash != claim.token || x.lease.value.expiresAt <= now || x.version != claim.version {
      return Some(Conflict("webhook delivery lease is invalid or expired"));
    }
    error := None;
  }

  /** The writes of `claim_webhook_delivery` to the row it found. */
  method TakeRow(x: Delivery, worker: string, token: nat, leaseSeconds: nat, now: Time) returns (y: Delivery)
    requires 5 <= leaseSeconds
    ensures y == ClaimedRow(x, worker, token, leaseSeconds, now)
    ensures Intact(x) && x.deliveredAt.None? && x.deadLetteredAt.None? ==>
              Takes(x, y, worker, token, now + leaseSeconds * 1_000_000, now)
    ensures Intact(x) ==> forall run, sequence ::
                Holds(y, Claim(run, sequence, worker, token, y.version, y.body, y.attempts, y.maxAttempts), now)
  {
    y := if x.bodySha256 == Sha256(x.body) then
      x.(status := Claimed, attempts := x.attempts + 1,
         lease := Some(Lease(worker, token, now + leaseSeconds * 1_000_000)), lastError := None, updatedAt := now,
         deliveredAt := None, deadLetteredAt := None, version := x.version + 1)
    else
      x.(status := DeadLetter, lease := None, lastError := Some("payload_integrity_error"), updatedAt := now,
         deadLetteredAt := Some(now), version := x.version + 1);
  }

  /** The write of `complete_webhook_delivery`. */
  method CompleteRow(x: Delivery, claim: Claim, now: Time) returns (result: Result<Delivery, Error>)
    ensures result == DeliveryEffect(x, Complete(claim), now)
  {
    var error := CheckLease(x, claim, now);
    if error.Some? {
      return Err(error.value);
    }
    result := Ok(x.(status := Delivered, lease := None, lastError := None, updatedAt := now, deliveredAt := Some(now),
                    deadLetteredAt := None, version := x.version + 1));
  }

  /** The write of `fail_webhook_delivery`. */
  method FailRow(x: Delivery, claim: Claim, errorCode: string, retryable: bool, now: Time)
    returns (result: Result<Delivery, Error>)
    ensures result == DeliveryEffect(x, Fail(claim, errorCode, retryable), now)
  {
    var error := CheckLease(x, claim, now);
    if error.Some? {
      return Err(error.value);
    }
    var y := x.(lease := None, lastError := Some(errorCode), updatedAt := now, deliveredAt := None,
                version := x.version + 1);
    if retryable && x.attempts < x.maxAttempts {
      var seconds, n := 1, 1;
      while n < x.attempts
        invariant 1 <= n && (n <= x.attempts || n == 1) && seconds == Power2(n - 1)
      {
        seconds, n := seconds * 2, n + 1;
      }
      y := y.(status := RetryWait, deadLetteredAt := None,
              availableAt := now + (if seconds > 300 then 300 else seconds) * 1_000_000);
    } else {
      y := y.(status := DeadLetter, deadLetteredAt := Some(now));
    }
    result := Ok(y);
  }

  /** The write of `retry_webhook_delivery`. */
  method RetryRow(x: Delivery, now: Time) returns (result: Result<Delivery, Error>)
    ensures forall call: DeliveryCall | call.Retry? :: result == DeliveryEffect(x, call, now)
  {
    match x.status {
      case Pending => result := Ok(x);
      case RetryWait => result := Ok(x);
      case DeadLetter =>
        result := Ok(x.(status := Pending, attempts := 0, maxAttempts := 8, availableAt := now, lease := None,
                        lastError := None, updatedAt := now, deliveredAt := None, deadLetteredAt := None,
                        version := x.version + 1));
      case _ => result := Err(Conflict("only a dead-letter webhook delivery can be retried"));
    }
  }

  class CiLabService {
    const registry: Registry
    const ids: Identifiers
    ghost const catalogue: Catalogue
    var records: Records

    ghost predicate Valid()
      reads this
    {
      Compiled(catalogue, registry) && Inv(catalogue, records)
    }

    /** A process opens the shared database, new or left by earlier processes with other registries. */
    constructor (registry: Registry, ids: Identifiers, records: Records, ghost catalogue: Catalogue)
      requires Compiled(catalogue, registry) && Inv(catalogue, records)
      ensures Valid() && this.registry == registry && this.ids == ids && this.records == records
              && this.catalogue == catalogue
    {
      this.registry := registry;
      this.ids := ids;
      this.records := records;
      this.catalogue := catalogue;
    }

    method Show(r: nat, d: PipelineDefinition, rec: Record, now: Time, replayed: bool) returns (view: RunView)
      requires WellFormed(d)
      ensures view == ViewOf(r, d, rec, now, replayed)
    {
      hide WellFormed, StageViews, JobViews;
      var s := rec.tracked;
      var run := s.run;
      var status := StatusShown(s);
      var at := if run.cancelledAt.Some? then run.cancelledAt.value else now;
      if run.status.IsTerminal() && run.finishedAt.Some? {
        at := if run.finishedAt.value > at then run.finishedAt.value else at;
      } else if run.status.Running? && run.startedAt.Some? {
        at := if run.startedAt.value > at then run.startedAt.value else at;
      }
      var elapsed := if at < run.createdAt then 0 else (at - run.createdAt) / 1000;
      var stages := ComputeStageViews(d, run.createdAt, elapsed, run.cancelledAt);
      var sequence := if rec.outbox == [] then 0 else rec.outbox[|rec.outbox| - 1].sequence;
      view := RunView(r, status, run.message, run.startedAt, run.finishedAt, stages, s.gate, s.approvals, sequence,
                      replayed);
    }

    /** The run with this idempotency key, if any. */
    method FindKey(key: string) returns (found: Option<nat>)
      ensures found.None? ==> forall r | r in records :: records[r].key != key
      ensures found.Some? ==> found.value in records && records[found.value].key == key
    {
      var todo := records.Keys;
      while todo != {}
        invariant todo <= records.Keys
        invariant forall r | r in records && r !in todo :: records[r].key != key
      {
        var r :| r in todo;
        if records[r].key == key {
          return Some(r);
        }
        todo := todo - {r};
      }
      found := None;
    }

    /** `trigger`: `runId` is the fresh identifier a new run would get. */
    method Trigger(definition: string, request: TriggerRequest, key: string, runId: nat, now: Time)
      returns (result: Result<RunView, Error>)
      requires Valid() && request.Bound() && runId !in records
      modifies this
      ensures Valid() && Evolves(old(records), records)
      ensures Next(catalogue, ids, registry, old(records), Call.Trigger(definition, request, key, runId), now, records)
      ensures result.Err? ==> records == old(records)
      ensures result.Ok? ==> Acceptable(registry, Call.Trigger(definition, request, key, runId))
      ensures !Acceptable(registry, Call.Trigger(definition, request, key, runId)) ==> result.Err?
      ensures Acceptable(registry, Call.Trigger(definition, request, key, runId)) ==>
                (result.Err? <==> exists r :: r in old(records) && old(records)[r].key == key
                                              && !SameInput(registry[definition], request, old(records)[r]))
      ensures result.Ok? ==>
                var r := result.value.runId;
                && r in records && records[r].key == key && SameInput(registry[definition], request, records[r])
                && (result.value.replayed <==> r in old(records))
                && (!result.value.replayed ==> r == runId)
                && result.value == ViewOf(r, registry[definition], records[r], now, result.value.replayed)
    {
      hide Inv, Evolves, Filed, Created, WellFormed, SafeText, ViewOf, Refreshed;
      ghost var call := Call.Trigger(definition, request, key, runId);
      EvolvesReflexive(records);
      if definition !in registry {
        return Err(NotFound("definition"));
      }
      var d := registry[definition];
      if !SafeText(key, "._:-") {
        return Err(Invalid("Idempotency-Key must contain 1-200 safe ASCII characters"));
      }
      if request.correlationId.Some? && request.correlationId.value != key {
        return Err(Invalid("correlation_id must match the Idempotency-Key header"));
      }
      var previous := FindKey(key);
      if previous.Some? {
        KeysAreUnique(catalogue, records, previous.value);
        result := Replayed(previous.value, d, request, call, now);
      } else {
        var rec := Insert(d, request, key, runId, now);
        CreatedFields(runId, d, request, key, now);
        ghost var before := records;
        records := records[runId := rec];
        assert TriggerStep(catalogue, registry, before, call, now, records);
        NextKeeps(catalogue, ids, registry, before, call, now, records);
        var view := Show(runId, d, rec, now, false);
        ViewFields(runId, d, rec, now, false);
        result := Ok(view);
      }
    }

    /** The inserts of `trigger`. */
    method Insert(d: PipelineDefinition, request: TriggerRequest, key: string, runId: nat, now: Time)
      returns (rec: Record)
      requires request.Bound()
      ensures rec == Created(runId, d, request, key, now)
    {
      var run := RunRow(definition := d.key, revision := d.revision, status := Queued, message := None,
                        createdAt := now, updatedAt := now, startedAt := None, finishedAt := None,
                        cancelledAt := None);
      var gate: Option<GateRow> := None;
      if d.key == "local-quality-gate" {
        gate := Some(GateRow(status := Evaluating, reachedAt := None, decidedAt := None, updatedAt := now));
      }
      var subscription: Option<Subscription> := None;
      if request.connectionId.Some? {
        subscription := Some(Subscription(request.connectionId.value, request.correlationId.value));
      }
      var t := Tracked(run, gate, []);
      rec := File(runId, Record(key, request, t, subscription, []), t, now);
    }

    /** The replay branch of `trigger`. */
    method Replayed(r: nat, d: PipelineDefinition, request: TriggerRequest, ghost call: Call, now: Time)
      returns (result: Result<RunView, Error>)
      requires Valid() && r in records && call.Trigger? && call.request == request && request.Bound()
      requires records[r].key == call.key && Acceptable(registry, call) && registry[call.definition] == d
      modifies this
      ensures Valid() && Evolves(old(records), records)
      ensures Next(catalogue, ids, registry, old(records), call, now, records)
      ensures result.Err? ==> records == old(records)
      ensures result.Err? <==> !SameInput(d, request, old(records)[r])
      ensures result.Ok? ==> && r in records && records[r].key == call.key && SameInput(d, request, records[r])
                             && result.value == ViewOf(r, d, records[r], now, true)
                             && result.value.runId == r && result.value.replayed
    {
      hide Inv, Evolves, WellFormed, ViewOf, Refreshed, Filed, Snapshots, Next, TriggerStep;
      StandingStill(catalogue, ids, registry, records, call, now);
      var rec := records[r];
      if !(rec.tracked.run.definition == d.key && rec.tracked.run.revision == d.revision && rec.request == request) {
        return Err(Conflict("Idempotency-Key was reused with different trigger input"));
      }
      RowsAreSnapshots(r);
      var t := Refresh(d, rec.tracked, now);
      var after := File(r, rec, t, now);
      ghost var before := records;
      records := records[r := after];
      FiledFields(r, rec, t, now);
      RefreshKeepsDefinition(d, rec.tracked, now);
      assert Replay(catalogue, registry, before, call, now, r, records);
      ReplayIsNext(catalogue, ids, registry, before, call, now, r, records);
      var view := Show(r, d, after, now, true);
      ViewFields(r, d, after, now, true);
      result := Ok(view);
    }

    /** `_definition_for_record` */
    method RequireDefinition(run: RunRow) returns (result: Result<PipelineDefinition, Error>)
      ensures result == Lookup(registry, run)
    {
      if run.definition !in registry {
        return Err(NotFound("definition"));
      }
      var d := registry[run.definition];
      if d.revision != run.revision {
        return Err(Conflict("the immutable definition revision for this run is unavailable"));
      }
      result := Ok(d);
    }

    lemma RowsAreSnapshots(r: nat)
      requires Valid() && r in records
      ensures Snapshots(records[r].outbox)
    {
      assert RecordInv(catalogue, r, records[r]);
    }

    /** `get`, `cancel` and `decide_gate`: look up, refresh, act, file, show. */
    method RunCallOn(r: nat, call: RunCall, now: Time) returns (result: Result<RunView, Error>)
      requires Valid()
      modifies this
      ensures Valid() && Evolves(old(records), records)
      ensures Next(catalogue, ids, registry, old(records), OnRun(r, call), now, records)
      ensures result.Err? ==> records == old(records)
      ensures r !in old(records) ==> result.Err? && result.error.NotFound?
      ensures r in old(records) ==>
                var rec := old(records)[r];
                var lookup := Lookup(registry, rec.tracked.run);
                && (lookup.Err? ==> result == Err(lookup.error))
                && (lookup.Ok? ==>
                      var effect := RunEffect(r, lookup.value, rec, call, now);
                      && (effect.Err? ==> result == Err(effect.error))
                      && (effect.Ok? ==> && records == old(records)[r := effect.value]
                                         && result
                                            == Ok(ViewOf(r, lookup.value, effect.value, now,
                                                         NothingNew(lookup.value, rec, call, now)))))
    {
      hide Inv, Evolves, WellFormed, ViewOf, Refreshed, Cancel, Decide, Filed, ReachedOr, Snapshots, Next;
      StandingStill(catalogue, ids, registry, records, OnRun(r, call), now);
      if r !in records {
        return Err(NotFound("run"));
      }
      var rec := records[r];
      var d :- RequireDefinition(rec.tracked.run);
      LookupInCatalogue(catalogue, registry, rec.tracked.run);
      RowsAreSnapshots(r);
      var t := Refresh(d, rec.tracked, now);
      var u, at, replayed := t, now, false;
      match call {
        case Read =>
        case Stop =>
          u :- StopRun(d, t, now);
          replayed := t.run.status.Cancelled?;
        case Judge(request) =>
          u :- JudgeGate(t, request, now);
          replayed := t.gate.None? || !t.gate.value.status.Waiting?;
      }
      if !call.Read? && !replayed {
        at := MomentOf(t, now);
      }
      var after := File(r, rec, u, at);
      ghost var before := records;
      records := records[r := after];
      assert RunStep(catalogue, registry, before, OnRun(r, call), now, records);
      RunStepIsNext(catalogue, ids, registry, before, OnRun(r, call), now, records);
      var view := Show(r, d, after, now, replayed);
      result := Ok(view);
    }

    /** Whether the answer says that nothing new happened. */
    static predicate NothingNew(d: PipelineDefinition, rec: Record, call: RunCall, now: Time)
      requires WellFormed(d)
    {
      var t := Refreshed(d, rec.tracked, now);
      match call
      case Read => false
      case Stop => t.run.status.Cancelled?
      case Judge(_) => !t.Gated(Waiting)
    }

    /** The oldest run that can advance and is not picked yet. */
    method NextOldest(picked: set<nat>) returns (next: Option<nat>)
      ensures IsNextOldest(records, picked, next)
    {
      next := None;
      var todo := records.Keys;
      while todo != {}
        invariant todo <= records.Keys
        invariant next.Some? ==>
                    next.value in records && next.value !in todo && Advanceable(records[next.value])
                    && next.value !in picked
        invariant forall r | r in records && r !in todo && Advanceable(records[r]) && r !in picked ::
                    next.Some? && (r == next.value || Older(records, next.value, r))
      {
        var r :| r in todo;
        var run, gate := records[r].tracked.run, records[r].tracked.gate;
        if records[r].subscription.Some? && run.status in {Queued, Running}
           && (gate.None? || gate.value.status != Waiting) && r !in picked {
          if next.None? || run.createdAt < records[next.value].tracked.run.createdAt
             || (run.createdAt == records[next.value].tracked.run.createdAt && r < next.value) {
            next := Some(r);
          }
        }
        todo := todo - {r};
      }
    }

    /** The loop of `advance_webhook_runs_once` on its working copy. */
    method Sweep(limit: nat, now: Time) returns (result: Result<(Records, nat), Error>, ghost picked: set<nat>)
      requires Valid()
      ensures result.Ok? ==> Oldest(records, limit, picked)
      ensures result.Ok? ==> Swept(catalogue, registry, records, picked, now, result.value.0, result.value.1)
    {
      hide WellFormed, Refreshed, Compiled, Filed, Lookup, IsNextOldest, OldestSoFar, Oldest, Swept, Inv;
      var work := records;
      var done: set<nat> := {};
      picked := {};
      var created := 0;
      NothingPicked(records);
      NothingSwept(catalogue, registry, records, now);
      var next := NextOldest(done);
      while next.Some? && |done| < limit
        invariant picked == done && |done| <= limit
        invariant work.Keys == records.Keys
        invariant IsNextOldest(records, done, next) && OldestSoFar(records, done)
        invariant Swept(catalogue, registry, records, done, now, work, created)
        decreases limit - |done|
      {
        var r := next.value;
        PickOldest(records, done, r);
        var rec := records[r];
        var d :- RequireDefinition(rec.tracked.run);
        LookupInCatalogue(catalogue, registry, rec.tracked.run);
        RowsAreSnapshots(r);
        var t := Refresh(d, rec.tracked, now);
        var after := File(r, rec, t, now);
        SweepOne(catalogue, registry, records, done, now, work, created, r);
        work := work[r := after];
        done := done + {r};
        picked := done;
        created := if after.outbox != rec.outbox then created + 1 else created;
        next := NextOldest(done);
      }
      PickedOldest(records, done, next, limit);
      result := Ok((work, created));
    }

    /** `advance_webhook_runs_once`: one transaction for up to `limit` runs; the result counts the runs it reported. */
    method AdvanceOnce(limit: int, now: Time) returns (result: Result<nat, Error>)
      requires Valid()
      modifies this
      ensures Valid() && Evolves(old(records), records)
      ensures Next(catalogue, ids, registry, old(records), Advance(if limit < 0 then 0 else limit), now, records)
      ensures result.Err? ==> records == old(records)
      ensures !(1 <= limit <= 500) ==> result.Err?
      ensures result.Ok? ==> exists picked ::
                Oldest(old(records), limit, picked)
                && Swept(catalogue, registry, old(records), picked, now, records, result.value)
    {
      hide Inv, Evolves, Oldest, AdvanceStep, Compiled;
      EvolvesReflexive(records);
      if !(1 <= limit <= 500) {
        return Err(Invalid("webhook refresh limit must be between 1 and 500"));
      }
      ghost var before := records;
      var swept, picked := Sweep(limit, now);
      if swept.Err? {
        return Err(swept.error);
      }
      assert Next(catalogue, ids, registry, before, Advance(limit), now, swept.value.0);
      NextKeeps(catalogue, ids, registry, before, Advance(limit), now, swept.value.0);
      records := swept.value.0;
      result := Ok(swept.value.1);
    }

    /** The claim query. */
    method FirstDueRow(lapsed: Records, now: Time) returns (c: Option<(nat, nat)>)
      ensures c.None? ==> forall r: nat, k: nat :: !EligibleRow(lapsed, r, k, now)
      ensures c.Some? ==> FirstDue(lapsed, ids, c.value.0, c.value.1, now)
    {
      hide Eligible;
      c := None;
      var todo := lapsed.Keys;
      while todo != {}
        invariant todo <= lapsed.Keys
        invariant c.Some? ==> EligibleRow(lapsed, c.value.0, c.value.1, now)
        invariant forall r: nat, l: nat | r !in todo && EligibleRow(lapsed, r, l, now) ::
                    c.Some? && NotSooner(lapsed, r, l, c.value)
      {
        var r :| r in todo;
        var rows := lapsed[r].outbox;
        for k := 0 to |rows|
          invariant c.Some? ==> EligibleRow(lapsed, c.value.0, c.value.1, now)
          invariant forall q: nat, l: nat | q !in todo && EligibleRow(lapsed, q, l, now) ::
                      c.Some? && NotSooner(lapsed, q, l, c.value)
          invariant forall l: nat | l < k && EligibleRow(lapsed, r, l, now) ::
                      c.Some? && NotSooner(lapsed, r, l, c.value)
        {
          if Eligible(rows, k, now) {
            if c.None?
               || Sooner(rows[k], ids(r, k + 1), lapsed[c.value.0].outbox[c.value.1], ids(c.value.0, c.value.1 + 1)) {
              c := Some((r, k));
            }
          }
        }
        todo := todo - {r};
      }
    }

    predicate NotSooner(lapsed: Records, r: nat, l: nat, c: (nat, nat))
      requires r in lapsed && l < |lapsed[r].outbox| && c.0 in lapsed && c.1 < |lapsed[c.0].outbox|
    {
      !Sooner(lapsed[r].outbox[l], ids(r, l + 1), lapsed[c.0].outbox[c.1], ids(c.0, c.1 + 1))
    }

    /** `claim_webhook_delivery`; `token` is freshly drawn. */
    method ClaimDelivery(worker: string, leaseSeconds: int, token: nat, now: Time)
      returns (result: Result<Option<Claim>, Error>)
      requires Valid()
      modifies this
      ensures Valid() && Evolves(old(records), records)
      ensures result.Err? <==> !SafeText(worker, "._:@-") || !(5 <= leaseSeconds <= 300)
      ensures result.Err? ==> records == old(records)
      ensures result.Ok? ==> ClaimStep(ids, old(records), ClaimNext(worker, leaseSeconds, token), now, records)
      ensures result.Ok? ==>
                (result.value.Some? <==> exists r: nat, k: nat :: Claimable(old(records), r, k, now))
      ensures result.Ok? && result.value.None? ==> OnlyExpires(old(records), records, now, None)
      ensures result.Ok? && result.value.Some? ==>
                var claim := result.value.value;
                var (r, k) := (claim.runId, claim.sequence - 1);
                && claim.sequence >= 1 && ClaimedFirst(old(records), ids, r, k, now)
                && OnlyExpires(old(records), records, now, Some((r, k)))
                && Takes(old(records)[r].outbox[k], records[r].outbox[k], worker, token,
                         now + leaseSeconds * 1_000_000, now)
                && Holds(records[r].outbox[k], claim, now) && claim.body == records[r].outbox[k].body
                && claim.attempts == records[r].outbox[k].attempts
                && claim.maxAttempts == records[r].outbox[k].maxAttempts
    {
      hide Inv, Evolves, Eligible, SafeText, FirstDue, ClaimedFirst, Lapsed, AtHead, OnlyExpires, ClaimedRow,
           Takes, Holds, Intact, Claimable, EligibleRow;
      EvolvesReflexive(records);
      if !SafeText(worker, "._:@-") {
        return Err(Invalid("webhook worker_id is invalid"));
      }
      if !(5 <= leaseSeconds <= 300) {
        return Err(Invalid("webhook lease_seconds must be between 5 and 300"));
      }
      ghost var call := ClaimNext(worker, leaseSeconds, token);
      ghost var before := records;
      LapseExpires(before, now);
      var lapsed := LapseAll(records, now);
      var c := FirstDueRow(lapsed, now);
      if c.None? {
        records := lapsed;
        NoneClaimable(before, now);
        NextKeeps(catalogue, ids, registry, before, call, now, records);
        return Ok(None);
      }
      var (r, k) := c.value;
      FirstIsEligible(lapsed, ids, r, k, now);
      FirstDueExactlyWhen(catalogue, ids, before, r, k, now);
      ClaimableExactlyWhen(catalogue, before, r, k, now);
      ClaimableIsOpen(catalogue, before, r, k, now);
      DueRowIsIntact(catalogue, before, now, r, k);
      var x := lapsed[r].outbox[k];
      var y := TakeRow(x, worker, token, leaseSeconds, now);
      records := WithRow(lapsed, r, k + 1, y);
      assert ClaimStep(ids, before, call, now, records);
      NextKeeps(catalogue, ids, registry, before, call, now, records);
      OneTaken(before, records, r, k, y, now);
      result := Ok(if Intact(x) then Some(Claim(r, k + 1, worker, token, y.version, y.body, y.attempts, y.maxAttempts))
                   else None);
    }

    lemma NoneClaimable(before: Records, now: Time)
      requires ValidCatalogue(catalogue) && Inv(catalogue, before)
      requires forall r: nat, k: nat :: !EligibleRow(LapseAll(before, now), r, k, now)
      ensures forall r: nat, k: nat :: !Claimable(before, r, k, now)
    {
      hide Inv, Claimable, EligibleRow, LapseAll;
      forall r: nat, k: nat
        ensures !Claimable(before, r, k, now)
      {
        ClaimableExactlyWhen(catalogue, before, r, k, now);
      }
    }

    lemma OneTaken(before: Records, after: Records, r: nat, k: nat, y: Delivery, now: Time)
      requires RowAt(before, r, k) && after == WithRow(LapseAll(before, now), r, k + 1, y)
      ensures OnlyExpires(before, after, now, Some((r, k)))
    {
      LapseExpires(before, now);
      hide Lapsed, Expires;
    }

    /** Other processes use the database. */
    method LetOthersAct(after: Records)
      requires Valid() && Reaches(catalogue, ids, records, after)
      modifies this
      ensures Valid() && records == after && Evolves(old(records), records)
    {
      hide Inv, Evolves, Reaches;
      ReachesKeeps(catalogue, ids, records, after);
      records := after;
    }

    /** `complete_webhook_delivery`, `fail_webhook_delivery` and `retry_webhook_delivery`. */
    method Settle(call: DeliveryCall, now: Time) returns (result: Result<Delivery, Error>)
      requires Valid()
      modifies this
      ensures Valid() && Evolves(old(records), records)
      ensures result.Err? ==> records == old(records)
      ensures Next(catalogue, ids, registry, old(records), OnDelivery(call), now, records)
      ensures result.Ok? <==> && (call.Fail? ==> ValidErrorCode(call.errorCode))
                              && HasRow(old(records), call.Run(), call.Row())
                              && DeliveryEffect(old(records)[call.Run()].outbox[call.Row() - 1], call, now).Ok?
      ensures result.Ok? ==> DeliveryStep(old(records), call, now, records)
      ensures result.Ok? ==>
                HasRow(records, call.Run(), call.Row()) && records[call.Run()].outbox[call.Row() - 1] == result.value
    {
      hide Inv, Evolves, DeliveryEffect, ValidErrorCode;
      EvolvesReflexive(records);
      if call.Fail? {
        var valid := CheckErrorCode(call.errorCode);
        if !valid {
          return Err(Invalid("webhook delivery error code is invalid"));
        }
      }
      if !HasRow(records, call.Run(), call.Row()) {
        return Err(NotFound("webhook delivery"));
      }
      var x := records[call.Run()].outbox[call.Row() - 1];
      var y: Delivery;
      match call {
        case Complete(claim) => y :- CompleteRow(x, claim, now);
        case Fail(claim, errorCode, retryable) => y :- FailRow(x, claim, errorCode, retryable, now);
        case Retry(_, _) => y :- RetryRow(x, now);
      }
      ghost var before := records;
      records := WithRow(records, call.Run(), call.Row(), y);
      assert DeliveryStep(before, call, now, records);
      NextKeeps(catalogue, ids, registry, before, OnDelivery(call), now, records);
      result := Ok(y);
    }
  }

  /** A lower-case letter, then up to 99 lower-case letters, digits or underscores. */
  predicate ValidErrorCode(code: string) {
    && 1 <= |code| <= 100
    && 'a' <= code[0] <= 'z'
    && forall i | 1 <= i < |code| :: 'a' <= code[i] <= 'z' || '0' <= code[i] <= '9' || code[i] == '_'
  }

  method CheckErrorCode(code: string) returns (valid: bool)
    ensures valid <==> ValidErrorCode(code)
  {
    if code == "" || |code| > 100 || code[0] < 'a' || code[0] > 'z' {
      return false;
    }
    return forall i | 0 <= i < |code| :: code[i] == '_' || '0' <= code[i] <= '9' || 'a' <= code[i] <= 'z';
  }

  ghost predicate IsNextOldest(records: Records, picked: set<nat>, next: Option<nat>) {
    match next
    case None => forall r | r in records && Advanceable(records[r]) :: r in picked
    case Some(n) =>
      && n in records && Advanceable(records[n]) && n !in picked
      && forall r | r in records && Advanceable(records[r]) && r !in picked && r != n :: Older(records, n, r)
  }

  ghost predicate OldestSoFar(records: Records, picked: set<nat>) {
    && (forall r | r in picked :: r in records && Advanceable(records[r]))
    && forall q, r | q in picked && r in records && Advanceable(records[r]) && r !in picked :: Older(records, q, r)
  }

  /** The runs whose outbox a sweep extended. */
  function Reportedly(before: Records, after: Records, picked: set<nat>): set<nat> {
    set r | r in picked && r in before && r in after && after[r].outbox != before[r].outbox
  }

  /** Exactly the picked runs were refreshed and filed, and `created` counts those with something to report. */
  ghost predicate Swept(c: Catalogue, registry: Registry, before: Records, picked: set<nat>, now: Time, after: Records,
                        created: nat)
    requires Compiled(c, registry)
  {
    AdvanceStep(c, registry, before, picked, now, after) && created == |Reportedly(before, after, picked)|
  }

  lemma NothingSwept(c: Catalogue, registry: Registry, records: Records, now: Time)
    requires Compiled(c, registry)
    ensures Swept(c, registry, records, {}, now, records, 0)
  {
    assert Reportedly(records, records, {}) == {};
  }

  lemma SweepOne(c: Catalogue, registry: Registry, before: Records, picked: set<nat>, now: Time, work: Records,
                 created: nat, r: nat)
    requires Compiled(c, registry) && Swept(c, registry, before, picked, now, work, created)
    requires r in before && r !in picked && Lookup(registry, before[r].tracked.run).Ok?
    ensures var after :=
      Filed(r, before[r], Refreshed(Lookup(registry, before[r].tracked.run).value, before[r].tracked, now), now);
            Swept(c, registry, before, picked + {r}, now, work[r := after],
                  if after.outbox != before[r].outbox then created + 1 else created)
  {
    LookupInCatalogue(c, registry, before[r].tracked.run);
    hide Compiled, Filed, Refreshed, Lookup, WellFormed, Reportedly;
    var after := Filed(r, before[r], Refreshed(Lookup(registry, before[r].tracked.run).value, before[r].tracked, now),
                       now);
    ReportOne(before, work, picked, r, after);
  }

  lemma ReportOne(before: Records, work: Records, picked: set<nat>, r: nat, after: Record)
    requires r in before && r !in picked
    ensures |Reportedly(before, work[r := after], picked + {r})|
         == |Reportedly(before, work, picked)| + (if after.outbox != before[r].outbox then 1 else 0)
  {
    var told, more := Reportedly(before, work, picked), Reportedly(before, work[r := after], picked + {r});
    assert r !in told;
    if after.outbox != before[r].outbox {
      assert more == told + {r};
    } else {
      assert more == told;
    }
  }

  lemma NothingPicked(records: Records)
    ensures OldestSoFar(records, {})
  {
  }

  lemma PickOldest(records: Records, picked: set<nat>, n: nat)
    requires OldestSoFar(records, picked) && IsNextOldest(records, picked, Some(n))
    ensures OldestSoFar(records, picked + {n}) && n in records && n !in picked
  {
    hide Advanceable;
  }

  lemma PickedOldest(records: Records, picked: set<nat>, next: Option<nat>, limit: nat)
    requires OldestSoFar(records, picked) && IsNextOldest(records, picked, next)
    requires |picked| == limit || (next.None? && |picked| <= limit)
    ensures Oldest(records, limit, picked)
  {
    hide Advanceable;
  }

  lemma KeysAreUnique(c: Catalogue, records: Records, r: nat)
    requires ValidCatalogue(c) && Inv(c, records) && r in records
    ensures forall q | q in records && records[q].key == records[r].key :: q == r
  {
    hide RecordInv;
  }

  lemma CreatedFields(r: nat, d: PipelineDefinition, request: TriggerRequest, key: string, now: Time)
    ensures Created(r, d, request, key, now).key == key
    ensures SameInput(d, request, Created(r, d, request, key, now))
  {
  }

  lemma FiledFields(r: nat, rec: Record, t: Tracked, at: Time)
    ensures Filed(r, rec, t, at).key == rec.key && Filed(r, rec, t, at).request == rec.request
    ensures Filed(r, rec, t, at).tracked == t
  {
  }

  lemma ViewFields(r: nat, d: PipelineDefinition, rec: Record, now: Time, replayed: bool)
    ensures ViewOf(r, d, rec, now, replayed).runId == r && ViewOf(r, d, rec, now, replayed).replayed == replayed
  {
  }

  lemma FirstIsEligible(lapsed: Records, ids: Identifiers, r: nat, k: nat, now: Time)
    requires FirstDue(lapsed, ids, r, k, now)
    ensures EligibleRow(lapsed, r, k, now)
  {
  }

  /** The integrity check of a claim never fires on rows this service wrote. */
  lemma DueRowIsIntact(c: Catalogue, records: Records, now: Time, r: nat, k: nat)
    requires ValidCatalogue(c) && Inv(c, records) && EligibleRow(LapseAll(records, now), r, k, now)
    ensures Intact(LapseAll(records, now)[r].outbox[k])
    ensures LapseAll(records, now)[r].outbox[k].attempts < LapseAll(records, now)[r].outbox[k].maxAttempts
  {
    hide RecordInv, RecordEvolves;
    LapseKeeps(c, records, now);
    ClaimedRowInv(c, r, LapseAll(records, now)[r], k, "", 0, 5, now);
  }

  /** What `get` shows of a run: jobs, run row, gate and sequence number agree. */
  lemma ViewIsCoherent(c: Catalogue, r: nat, rec: Record, now: Time)
    requires ValidCatalogue(c) && RecordInv(c, r, rec)
    ensures var d := c[(rec.tracked.run.definition, rec.tracked.run.revision)];
            var after := Filed(r, rec, Refreshed(d, rec.tracked, now), now);
            && Coherent(d, after.tracked, ShownJobs(d, after.tracked, now))
            && StagesAgree(d, after.tracked, ViewOf(r, d, after, now, false).stages)
            && ViewOf(r, d, after, now, false).webhookSequence == |after.outbox|
            && (rec.subscription.Some? ==>
                  after.outbox != []
                  && after.outbox[|after.outbox| - 1].publicStatus == ViewOf(r, d, after, now, false).status)
  {
    hide Coherent, StagesAgree, Refreshed, Consistent, WellFormed, RecordEvolves, ShownJobs;
    RecordConsistent(c, r, rec);
    var d := c[(rec.tracked.run.definition, rec.tracked.run.revision)];
    var t := Refreshed(d, rec.tracked, now);
    RefreshConsistent(d, rec.tracked, now);
    RefreshIdempotent(d, rec.tracked, now);
    ViewsAgreeWithRun(d, t, now);
    StagesAgreeWithRun(d, t, now);
    RunEffectInv(c, r, rec, Read, now);
    ReadEffect(r, d, rec, now);
    assert RecordInv(c, r, Filed(r, rec, t, now));
  }
}
