/** All runs of the CI lab and the atomic calls on them: what every committed call keeps, over whole histories. */
module CiSystem {
  import opened Common
  import opened CiTimeline
  import opened CiRun
  import opened CiOutbox

  const GATED_DEFINITION := "local-quality-gate"

  /** A definition revision is immutable, so key and revision determine the definition in every process. */
  type Catalogue = map<(string, nat), PipelineDefinition>

  /** The definitions compiled into one process. */
  type Registry = map<string, PipelineDefinition>

  datatype TriggerRequest = TriggerRequest(
    ref: Option<string>,
    variables: map<string, string>,
    connectionId: Option<string>,
    correlationId: Option<string>)
  {
    /** What the request validator demands. */
    predicate Bound() {
      connectionId.Some? <==> correlationId.Some?
    }

    function Target(): Option<Subscription> {
      if connectionId.Some? && correlationId.Some? then Some(Subscription(connectionId.value, correlationId.value))
      else None
    }
  }

  /** The rows of one run in all five tables. */
  datatype Record = Record(
    key: string,
    request: TriggerRequest,
    tracked: Tracked,
    subscription: Option<Subscription>,
    outbox: seq<Delivery>)

  type Records = map<nat, Record>

  ghost predicate ValidCatalogue(c: Catalogue) {
    forall p | p in c :: WellFormed(c[p]) && (c[p].key, c[p].revision) == p
  }

  ghost predicate Compiled(c: Catalogue, registry: Registry) {
    && ValidCatalogue(c)
    && forall k | k in registry ::
         registry[k].key == k && (k, registry[k].revision) in c && c[(k, registry[k].revision)] == registry[k]
  }

  /** `_definition_for_record` */
  function Lookup(registry: Registry, run: RunRow): Result<PipelineDefinition, Error> {
    if run.definition !in registry then Err(NotFound("definition"))
    else if registry[run.definition].revision != run.revision then
      Err(Conflict("the immutable definition revision for this run is unavailable"))
    else Ok(registry[run.definition])
  }

  // ---------------------------------------------------------------------
  // Effects on one record
  // ---------------------------------------------------------------------

  /** New run rows together with the snapshot they call for. */
  function Filed(r: nat, rec: Record, t: Tracked, at: Time): Record {
    rec.(tracked := t, outbox := Enqueued(r, rec.subscription, t, rec.outbox, at))
  }

  function Created(r: nat, d: PipelineDefinition, request: TriggerRequest, key: string, now: Time): Record {
    var t := Fresh(d, d.key == GATED_DEFINITION, now);
    Record(key, request, t, request.Target(), Enqueued(r, request.Target(), t, [], now))
  }

  datatype RunCall = Read | Stop | Judge(request: DecisionRequest)

  /** `get`, `cancel` and `decide_gate` on the record of one run. */
  function RunEffect(r: nat, d: PipelineDefinition, rec: Record, call: RunCall, now: Time): Result<Record, Error>
    requires WellFormed(d)
  {
    var t := Refreshed(d, rec.tracked, now);
    match call
    case Read => Ok(Filed(r, rec, t, now))
    case Stop =>
      var u :- Cancel(d, t, now);
      Ok(Filed(r, rec, u, if t.run.status.Cancelled? then now else ReachedOr(t, now)))
    case Judge(request) =>
      var u :- Decide(t, request, now);
      Ok(Filed(r, rec, u, if t.Gated(Waiting) then ReachedOr(t, now) else now))
  }

  datatype DeliveryCall =
    | Complete(claim: Claim)
    | Fail(claim: Claim, errorCode: string, retryable: bool)
    | Retry(runId: nat, sequence: nat)
  {
    function Run(): nat {
      if Retry? then runId else claim.runId
    }

    function Row(): nat {
      if Retry? then sequence else claim.sequence
    }
  }

  /** `complete_webhook_delivery`, `fail_webhook_delivery` and `retry_webhook_delivery` on the row they name. */
  function DeliveryEffect(x: Delivery, call: DeliveryCall, now: Time): Result<Delivery, Error> {
    match call
    case Complete(claim) =>
      if Holds(x, claim, now) then Ok(Completed(x, now))
      else Err(Conflict("webhook delivery lease is invalid or expired"))
    case Fail(claim, errorCode, retryable) =>
      if Holds(x, claim, now) then Ok(FailedAttempt(x, errorCode, retryable, now))
      else Err(Conflict("webhook delivery lease is invalid or expired"))
    case Retry(_, _) => Requeued(x, now)
  }

  predicate HasRow(records: Records, r: nat, sequence: nat) {
    r in records && 1 <= sequence <= |records[r].outbox|
  }

  function WithRow(records: Records, r: nat, sequence: nat, y: Delivery): Records
    requires HasRow(records, r, sequence)
  {
    records[r := records[r].(outbox := records[r].outbox[sequence - 1 := y])]
  }

  function LapsedRows(outbox: seq<Delivery>, now: Time): (after: seq<Delivery>)
    ensures |after| == |outbox|
    ensures forall k | 0 <= k < |outbox| :: after[k] == Lapsed(outbox[k], now)
  {
    seq(|outbox|, k requires 0 <= k < |outbox| => Lapsed(outbox[k], now))
  }

  function LapseAll(records: Records, now: Time): Records {
    map r | r in records :: records[r].(outbox := LapsedRows(records[r].outbox, now))
  }

  predicate EligibleRow(records: Records, r: nat, k: nat, now: Time) {
    r in records && k < |records[r].outbox| && Eligible(records[r].outbox, k, now)
  }

  /** The claim order: due time, creation time, then the row's own (random) identifier. */
  predicate Sooner(x: Delivery, xId: nat, y: Delivery, yId: nat) {
    || x.availableAt < y.availableAt
    || (x.availableAt == y.availableAt
        && (x.createdAt < y.createdAt || (x.createdAt == y.createdAt && xId < yId)))
  }

  /** The row identifiers drawn when rows are inserted. */
  type Identifiers = (nat, nat) -> nat

  ghost predicate FirstDue(records: Records, ids: Identifiers, r: nat, k: nat, now: Time) {
    && EligibleRow(records, r, k, now)
    && forall q: nat, l: nat | EligibleRow(records, q, l, now) ::
         !Sooner(records[q].outbox[l], ids(q, l + 1), records[r].outbox[k], ids(r, k + 1))
  }

  function ClaimedRow(x: Delivery, worker: string, token: nat, leaseSeconds: nat, now: Time): Delivery {
    if Intact(x) then Leased(x, worker, token, leaseSeconds, now) else Corrupted(x, now)
  }

  /** A run whose clock can still move it: subscribed, queued or running, and not waiting for a decision. */
  predicate Advanceable(rec: Record) {
    rec.subscription.Some? && (rec.tracked.run.status.Queued? || rec.tracked.run.status.Running?)
    && !rec.tracked.Gated(Waiting)
  }

  predicate Older(records: Records, a: nat, b: nat)
    requires a in records && b in records
  {
    || records[a].tracked.run.createdAt < records[b].tracked.run.createdAt
    || (records[a].tracked.run.createdAt == records[b].tracked.run.createdAt && a < b)
  }

  /** The oldest `limit` runs that can still advance. */
  ghost predicate Oldest(records: Records, limit: nat, picked: set<nat>) {
    && (forall r | r in picked :: r in records && Advanceable(records[r]))
    && |picked| <= limit
    && (forall r | r in records && Advanceable(records[r]) && r !in picked ::
          |picked| == limit && forall q | q in picked :: Older(records, q, r))
  }

  // ---------------------------------------------------------------------
  // Committed calls
  // ---------------------------------------------------------------------

  datatype Call =
    | Trigger(definition: string, request: TriggerRequest, key: string, runId: nat)
    | OnRun(runId: nat, runCall: RunCall)
    | Advance(limit: nat)
    | ClaimNext(worker: string, leaseSeconds: nat, token: nat)
    | OnDelivery(deliveryCall: DeliveryCall)

  /** The checks of `trigger` before it looks at the database. */
  predicate Acceptable(registry: Registry, call: Call)
    requires call.Trigger?
  {
    && call.definition in registry
    && SafeText(call.key, "._:-")
    && (call.request.correlationId.Some? ==> call.request.correlationId.value == call.key)
  }

  /** The stored fingerprint is that of this request. */
  predicate SameInput(d: PipelineDefinition, request: TriggerRequest, rec: Record) {
    rec.tracked.run.definition == d.key && rec.tracked.run.revision == d.revision && rec.request == request
  }

  ghost predicate TriggerStep(c: Catalogue, registry: Registry, before: Records, call: Call, now: Time, after: Records)
    requires Compiled(c, registry) && call.Trigger?
  {
    || (exists r :: Replay(c, registry, before, call, now, r, after))
    || (Acceptable(registry, call) && call.runId !in before
        && (forall r | r in before :: before[r].key != call.key)
        && after == before[call.runId := Created(call.runId, registry[call.definition], call.request, call.key, now)])
  }

  ghost predicate Replay(c: Catalogue, registry: Registry, before: Records, call: Call, now: Time, r: nat,
                         after: Records)
    requires Compiled(c, registry) && call.Trigger?
  {
    && r in before && before[r].key == call.key
    && Acceptable(registry, call) && SameInput(registry[call.definition], call.request, before[r])
    && Lookup(registry, before[r].tracked.run).Ok?
    && after
       == before[r := Filed(r, before[r],
                            Refreshed(Lookup(registry, before[r].tracked.run).value, before[r].tracked, now), now)]
  }

  ghost predicate RunStep(c: Catalogue, registry: Registry, before: Records, call: Call, now: Time, after: Records)
    requires Compiled(c, registry) && call.OnRun?
  {
    var r := call.runId;
    && r in before
    && Lookup(registry, before[r].tracked.run).Ok?
    && var effect := RunEffect(r, Lookup(registry, before[r].tracked.run).value, before[r], call.runCall, now);
       effect.Ok? && after == before[r := effect.value]
  }

  ghost predicate AdvanceStep(c: Catalogue, registry: Registry, before: Records, picked: set<nat>, now: Time,
                              after: Records)
    requires Compiled(c, registry)
  {
    && after.Keys == before.Keys
    && (forall r | r in picked ::
          && r in before && Lookup(registry, before[r].tracked.run).Ok?
          && after[r]
             == Filed(r, before[r], Refreshed(Lookup(registry, before[r].tracked.run).value, before[r].tracked, now),
                      now))
    && forall r | r in before && r !in picked :: after[r] == before[r]
  }

  ghost predicate ClaimStep(ids: Identifiers, before: Records, call: Call, now: Time, after: Records)
    requires call.ClaimNext?
  {
    var lapsed := LapseAll(before, now);
    if exists r: nat, k: nat :: EligibleRow(lapsed, r, k, now) then
      exists r: nat, k: nat ::
        && FirstDue(lapsed, ids, r, k, now)
        && after
           == WithRow(lapsed, r, k + 1, ClaimedRow(lapsed[r].outbox[k], call.worker, call.token, call.leaseSeconds,
                                                   now))
    else after == lapsed
  }

  ghost predicate DeliveryStep(before: Records, call: DeliveryCall, now: Time, after: Records) {
    && HasRow(before, call.Run(), call.Row())
    && var effect := DeliveryEffect(before[call.Run()].outbox[call.Row() - 1], call, now);
       effect.Ok? && after == WithRow(before, call.Run(), call.Row(), effect.value)
  }

  /** One call on the shared database by a process with the given registry; a call that raises changes nothing. */
  ghost predicate Next(c: Catalogue, ids: Identifiers, registry: Registry, before: Records, call: Call, now: Time,
                       after: Records)
    requires Compiled(c, registry)
  {
    || after == before
    || match call
       case Trigger(_, request, _, _) => request.Bound() && TriggerStep(c, registry, before, call, now, after)
       case OnRun(_, _) => RunStep(c, registry, before, call, now, after)
       case Advance(limit) =>
         exists picked :: Oldest(before, limit, picked) && AdvanceStep(c, registry, before, picked, now, after)
       case ClaimNext(_, _, _) => ClaimStep(ids, before, call, now, after)
       case OnDelivery(deliveryCall) => DeliveryStep(before, deliveryCall, now, after)
  }

  // ---------------------------------------------------------------------
  // What every committed call keeps
  // ---------------------------------------------------------------------

  /** Every snapshot is addressed as the run was subscribed. */
  ghost predicate Routed(r: nat, to: Option<Subscription>, outbox: seq<Delivery>) {
    forall k | 0 <= k < |outbox| ::
      && to == Some(Subscription(outbox[k].body.connectionId, outbox[k].body.correlationId))
      && outbox[k].body.externalId == r
  }

  ghost predicate RecordInv(c: Catalogue, r: nat, rec: Record)
    requires ValidCatalogue(c)
  {
    var run := rec.tracked.run;
    && (run.definition, run.revision) in c
    && Consistent(c[(run.definition, run.revision)], rec.tracked)
    && (rec.tracked.gate.Some? <==> run.definition == GATED_DEFINITION)
    && rec.subscription == rec.request.Target()
    && Snapshots(rec.outbox)
    && UpToDate(rec.subscription, rec.tracked, rec.outbox)
    && Deliverable(rec.outbox)
    && Routed(r, rec.subscription, rec.outbox)
  }

  ghost predicate Inv(c: Catalogue, records: Records)
    requires ValidCatalogue(c)
  {
    && (forall r {:trigger records[r]} | r in records :: RecordInv(c, r, records[r]))
    && (forall r, q | r in records && q in records && records[r].key == records[q].key :: r == q)
  }

  ghost predicate RecordEvolves(before: Record, after: Record) {
    && after.key == before.key && after.request == before.request && after.subscription == before.subscription
    && Advances(before.tracked, after.tracked)
    && OutboxMoves(before.outbox, after.outbox)
  }

  ghost predicate Evolves(before: Records, after: Records) {
    forall r {:trigger before[r]} {:trigger after[r]} | r in before :: r in after && RecordEvolves(before[r], after[r])
  }

  lemma CreatedInv(c: Catalogue, r: nat, d: PipelineDefinition, request: TriggerRequest, key: string, now: Time)
    requires ValidCatalogue(c) && (d.key, d.revision) in c && c[(d.key, d.revision)] == d
    requires request.Bound()
    ensures RecordInv(c, r, Created(r, d, request, key, now))
  {
    hide WellFormed, Consistent, Enqueued, Snapshots;
    var t := Fresh(d, d.key == GATED_DEFINITION, now);
    FreshConsistent(d, d.key == GATED_DEFINITION, now);
    EnqueueFirst(r, request.Target(), t, now);
    FirstSnapshot(r, request.Target(), t, now);
  }

  lemma FirstSnapshot(r: nat, to: Option<Subscription>, t: Tracked, now: Time)
    ensures Deliverable(Enqueued(r, to, t, [], now)) && Routed(r, to, Enqueued(r, to, t, [], now))
  {
    assert InOrder(Enqueued(r, to, t, [], now), 0);
  }

  /** Filing any forward move of the run rows keeps the record's invariant. */
  lemma FiledInv(c: Catalogue, r: nat, rec: Record, t: Tracked, at: Time)
    requires ValidCatalogue(c) && RecordInv(c, r, rec)
    requires (t.run.definition, t.run.revision) in c && t.run.definition == rec.tracked.run.definition
    requires Consistent(c[(t.run.definition, t.run.revision)], t) && Advances(rec.tracked, t)
    ensures RecordInv(c, r, Filed(r, rec, t, at)) && RecordEvolves(rec, Filed(r, rec, t, at))
  {
    hide WellFormed, Consistent, Advances, Snapshots, UpToDate, Deliverable, OutboxMoves;
    EnqueueAfterChange(r, rec.subscription, rec.tracked, t, rec.outbox, at);
    var after := Enqueued(r, rec.subscription, t, rec.outbox, at);
    if after == rec.outbox {
      Unmoved(rec.outbox);
    } else {
      AppendUntouched(rec.outbox, Snapshot(r, rec.subscription.value, t, rec.outbox, at));
    }
    assert t.gate.Some? <==> rec.tracked.gate.Some? by {
      SameGate(rec.tracked, t);
    }
  }

  lemma SameGate(s: Tracked, t: Tracked)
    requires Advances(s, t)
    ensures s.gate.Some? <==> t.gate.Some?
  {
  }

  lemma Unmoved(outbox: seq<Delivery>)
    ensures OutboxMoves(outbox, outbox)
  {
  }

  lemma RunEffectInv(c: Catalogue, r: nat, rec: Record, call: RunCall, now: Time)
    requires ValidCatalogue(c) && RecordInv(c, r, rec)
    ensures var d := c[(rec.tracked.run.definition, rec.tracked.run.revision)];
            var effect := RunEffect(r, d, rec, call, now);
            effect.Ok? ==> RecordInv(c, r, effect.value) && RecordEvolves(rec, effect.value)
  {
    hide WellFormed, Consistent, Advances, Snapshots, UpToDate, Deliverable, RecordInv, Refreshed, Cancel, Decide,
         Filed, RecordEvolves;
    RecordConsistent(c, r, rec);
    var d := c[(rec.tracked.run.definition, rec.tracked.run.revision)];
    RefreshConsistent(d, rec.tracked, now);
    var t := Refreshed(d, rec.tracked, now);
    match call
    case Read =>
      SameDefinition(d, t);
      FiledInv(c, r, rec, t, now);
    case Stop =>
      CancelConsistent(d, rec.tracked, now);
      var u := Cancel(d, t, now);
      if u.Ok? {
        SameDefinition(d, u.value);
        FiledInv(c, r, rec, u.value, if t.run.status.Cancelled? then now else ReachedOr(t, now));
      }
    case Judge(request) =>
      DecideConsistent(d, rec.tracked, request, now);
      var u := Decide(t, request, now);
      if u.Ok? {
        SameDefinition(d, u.value);
        FiledInv(c, r, rec, u.value, if t.Gated(Waiting) then ReachedOr(t, now) else now);
      }
  }

  lemma RecordConsistent(c: Catalogue, r: nat, rec: Record)
    requires ValidCatalogue(c) && RecordInv(c, r, rec)
    ensures var p := (rec.tracked.run.definition, rec.tracked.run.revision);
            p in c && WellFormed(c[p]) && Consistent(c[p], rec.tracked) && p == (c[p].key, c[p].revision)
  {
  }

  lemma SameDefinition(d: PipelineDefinition, t: Tracked)
    requires WellFormed(d) && Consistent(d, t)
    ensures t.run.definition == d.key && t.run.revision == d.revision
  {
  }

  /** Any change of delivery columns only, in place and in order, keeps the record's invariant. */
  lemma RowsInv(c: Catalogue, r: nat, rec: Record, outbox: seq<Delivery>)
    requires ValidCatalogue(c) && RecordInv(c, r, rec)
    requires |outbox| == |rec.outbox| && OutboxMoves(rec.outbox, outbox) && Deliverable(outbox)
    ensures RecordInv(c, r, rec.(outbox := outbox)) && RecordEvolves(rec, rec.(outbox := outbox))
  {
    hide WellFormed, Consistent, Deliverable;
    assert forall k | 0 <= k < |outbox| :: Moves(rec.outbox[k], outbox[k]);
  }

  lemma LapseInOrder(outbox: seq<Delivery>, now: Time)
    requires Deliverable(outbox)
    ensures Deliverable(LapsedRows(outbox, now)) && OutboxMoves(outbox, LapsedRows(outbox, now))
  {
    var head: nat :| InOrder(outbox, head);
    assert InOrder(LapsedRows(outbox, now), head);
  }

  lemma LapseInv(c: Catalogue, r: nat, rec: Record, now: Time)
    requires ValidCatalogue(c) && RecordInv(c, r, rec)
    ensures var after := rec.(outbox := LapsedRows(rec.outbox, now));
            RecordInv(c, r, after) && RecordEvolves(rec, after)
  {
    hide WellFormed, Consistent, Deliverable, OutboxMoves, Snapshots, UpToDate, Routed, RecordEvolves;
    LapseInOrder(rec.outbox, now);
    RowsInv(c, r, rec, LapsedRows(rec.outbox, now));
  }

  lemma ClaimedRowInv(c: Catalogue, r: nat, rec: Record, k: nat, worker: string, token: nat, leaseSeconds: nat,
                      now: Time)
    requires ValidCatalogue(c) && RecordInv(c, r, rec) && k < |rec.outbox| && Eligible(rec.outbox, k, now)
    ensures var after := rec.(outbox := rec.outbox[k := ClaimedRow(rec.outbox[k], worker, token, leaseSeconds, now)]);
            RecordInv(c, r, after) && RecordEvolves(rec, after)
    ensures Intact(rec.outbox[k])
    ensures forall l | 0 <= l < |rec.outbox| && l != k :: !rec.outbox[l].status.Claimed?
  {
    hide WellFormed, Consistent, AtHead;
    var y := ClaimedRow(rec.outbox[k], worker, token, leaseSeconds, now);
    assert RowShape(rec.outbox[k]);
    ClaimChange(rec.outbox, k, y);
    RowsInv(c, r, rec, rec.outbox[k := y]);
  }

  lemma DeliveryEffectInv(c: Catalogue, r: nat, rec: Record, k: nat, call: DeliveryCall, now: Time)
    requires ValidCatalogue(c) && RecordInv(c, r, rec) && k < |rec.outbox|
    ensures var effect := DeliveryEffect(rec.outbox[k], call, now);
            effect.Ok? ==> var after := rec.(outbox := rec.outbox[k := effect.value]);
                           RecordInv(c, r, after) && RecordEvolves(rec, after)
  {
    hide WellFormed, Consistent, BackoffSeconds;
    var x := rec.outbox[k];
    var effect := DeliveryEffect(x, call, now);
    assert RowShape(x);
    if effect.Ok? && effect.value != x {
      HeadChange(rec.outbox, k, effect.value);
      RowsInv(c, r, rec, rec.outbox[k := effect.value]);
    } else if effect.Ok? {
      assert rec.outbox[k := x] == rec.outbox;
      RowsUnchanged(rec);
    }
  }

  lemma RowsUnchanged(rec: Record)
    ensures RecordEvolves(rec, rec)
  {
  }

  /** Replacing one record keeps the invariant of all. */
  lemma UpdateInv(c: Catalogue, records: Records, r: nat, after: Record)
    requires ValidCatalogue(c) && Inv(c, records) && r in records
    requires RecordInv(c, r, after) && RecordEvolves(records[r], after)
    ensures Inv(c, records[r := after]) && Evolves(records, records[r := after])
  {
    hide RecordInv, RecordEvolves;
    assert after.key == records[r].key by {
      SameKey(records[r], after);
    }
    forall q | q in records
      ensures RecordEvolves(records[q], records[r := after][q])
    {
      RowsUnchanged(records[q]);
    }
  }

  lemma SameKey(before: Record, after: Record)
    requires RecordEvolves(before, after)
    ensures before.key == after.key
  {
  }

  /** The same for a change of many records at once. */
  lemma UpdateAllInv(c: Catalogue, before: Records, after: Records)
    requires ValidCatalogue(c) && Inv(c, before) && after.Keys == before.Keys
    requires forall r {:trigger after[r]} | r in before ::
               RecordInv(c, r, after[r]) && RecordEvolves(before[r], after[r])
    ensures Inv(c, after) && Evolves(before, after)
  {
    hide RecordInv, RecordEvolves;
    forall r | r in before
      ensures before[r].key == after[r].key
    {
      SameKey(before[r], after[r]);
    }
  }

  lemma LookupInCatalogue(c: Catalogue, registry: Registry, run: RunRow)
    requires Compiled(c, registry) && Lookup(registry, run).Ok?
    ensures (run.definition, run.revision) in c && Lookup(registry, run).value == c[(run.definition, run.revision)]
    ensures WellFormed(Lookup(registry, run).value)
  {
  }

  lemma TriggerKeeps(c: Catalogue, registry: Registry, before: Records, call: Call, now: Time, after: Records)
    requires Compiled(c, registry) && Inv(c, before) && call.Trigger? && call.request.Bound()
    requires TriggerStep(c, registry, before, call, now, after)
    ensures Inv(c, after) && Evolves(before, after)
  {
    hide RecordInv, RecordEvolves, RunEffect, Created, Lookup, Filed, WellFormed;
    if r :| Replay(c, registry, before, call, now, r, after) {
      LookupInCatalogue(c, registry, before[r].tracked.run);
      RunEffectInv(c, r, before[r], Read, now);
      ReadEffect(r, Lookup(registry, before[r].tracked.run).value, before[r], now);
      UpdateInv(c, before, r, after[r]);
    } else {
      var d := registry[call.definition];
      CreatedInv(c, call.runId, d, call.request, call.key, now);
      assert after[call.runId].key == call.key by {
        CreatedKey(call.runId, d, call.request, call.key, now);
      }
      forall r | r in before
        ensures RecordEvolves(before[r], after[r])
      {
        RowsUnchanged(before[r]);
      }
    }
  }

  lemma ReadEffect(r: nat, d: PipelineDefinition, rec: Record, now: Time)
    requires WellFormed(d)
    ensures RunEffect(r, d, rec, Read, now) == Ok(Filed(r, rec, Refreshed(d, rec.tracked, now), now))
  {
  }

  lemma CreatedKey(r: nat, d: PipelineDefinition, request: TriggerRequest, key: string, now: Time)
    ensures Created(r, d, request, key, now).key == key
  {
  }

  lemma RunKeeps(c: Catalogue, registry: Registry, before: Records, call: Call, now: Time, after: Records)
    requires Compiled(c, registry) && Inv(c, before) && call.OnRun?
    requires RunStep(c, registry, before, call, now, after)
    ensures Inv(c, after) && Evolves(before, after)
  {
    hide RecordInv, RecordEvolves, RunEffect, Lookup, WellFormed;
    var r := call.runId;
    LookupInCatalogue(c, registry, before[r].tracked.run);
    RunEffectInv(c, r, before[r], call.runCall, now);
    UpdateInv(c, before, r, after[r]);
  }

  lemma AdvanceKeeps(c: Catalogue, registry: Registry, before: Records, picked: set<nat>, now: Time, after: Records)
    requires Compiled(c, registry) && Inv(c, before)
    requires AdvanceStep(c, registry, before, picked, now, after)
    ensures Inv(c, after) && Evolves(before, after)
  {
    hide RecordInv, RecordEvolves, RunEffect, Lookup, Filed, WellFormed;
    forall r | r in before
      ensures RecordInv(c, r, after[r]) && RecordEvolves(before[r], after[r])
    {
      if r in picked {
        LookupInCatalogue(c, registry, before[r].tracked.run);
        RunEffectInv(c, r, before[r], Read, now);
        ReadEffect(r, Lookup(registry, before[r].tracked.run).value, before[r], now);
      } else {
        RowsUnchanged(before[r]);
      }
    }
    UpdateAllInv(c, before, after);
  }

  lemma LapseKeeps(c: Catalogue, before: Records, now: Time)
    requires ValidCatalogue(c) && Inv(c, before)
    ensures Inv(c, LapseAll(before, now)) && Evolves(before, LapseAll(before, now))
  {
    hide RecordInv, RecordEvolves;
    forall r | r in before
      ensures RecordInv(c, r, LapseAll(before, now)[r]) && RecordEvolves(before[r], LapseAll(before, now)[r])
    {
      LapseInv(c, r, before[r], now);
    }
    UpdateAllInv(c, before, LapseAll(before, now));
  }

  lemma ClaimKeeps(c: Catalogue, ids: Identifiers, before: Records, call: Call, now: Time, after: Records)
    requires ValidCatalogue(c) && Inv(c, before) && call.ClaimNext?
    requires ClaimStep(ids, before, call, now, after)
    ensures Inv(c, after) && Evolves(before, after)
  {
    hide RecordInv, RecordEvolves, Eligible, ClaimedRow;
    var lapsed := LapseAll(before, now);
    LapseKeeps(c, before, now);
    if exists r: nat, k: nat :: EligibleRow(lapsed, r, k, now) {
      var r: nat, k: nat :|
        && FirstDue(lapsed, ids, r, k, now)
        && after
           == WithRow(lapsed, r, k + 1, ClaimedRow(lapsed[r].outbox[k], call.worker, call.token, call.leaseSeconds,
                                                   now));
      ClaimedRowInv(c, r, lapsed[r], k, call.worker, call.token, call.leaseSeconds, now);
      UpdateInv(c, lapsed, r, after[r]);
      EvolvesTransitive(before, lapsed, after);
    }
  }

  lemma DeliveryKeeps(c: Catalogue, before: Records, call: DeliveryCall, now: Time, after: Records)
    requires ValidCatalogue(c) && Inv(c, before) && DeliveryStep(before, call, now, after)
    ensures Inv(c, after) && Evolves(before, after)
  {
    hide RecordInv, RecordEvolves, DeliveryEffect;
    DeliveryEffectInv(c, call.Run(), before[call.Run()], call.Row() - 1, call, now);
    UpdateInv(c, before, call.Run(), after[call.Run()]);
  }

  lemma RecordEvolvesTransitive(a: Record, b: Record, c: Record)
    requires RecordEvolves(a, b) && RecordEvolves(b, c)
    ensures RecordEvolves(a, c)
  {
    forall k | 0 <= k < |a.outbox|
      ensures Moves(a.outbox[k], c.outbox[k])
    {
      assert Moves(a.outbox[k], b.outbox[k]) && Moves(b.outbox[k], c.outbox[k]);
    }
  }

  lemma EvolvesTransitive(a: Records, b: Records, c: Records)
    requires Evolves(a, b) && Evolves(b, c)
    ensures Evolves(a, c)
  {
    hide RecordEvolves;
    forall r | r in a
      ensures r in c && RecordEvolves(a[r], c[r])
    {
      assert r in b && RecordEvolves(a[r], b[r]);
      assert r in c && RecordEvolves(b[r], c[r]);
      RecordEvolvesTransitive(a[r], b[r], c[r]);
    }
  }

  lemma EvolvesReflexive(a: Records)
    ensures Evolves(a, a)
  {
    hide RecordEvolves;
    forall r | r in a
      ensures RecordEvolves(a[r], a[r])
    {
      RowsUnchanged(a[r]);
    }
  }

  lemma NextKeeps(c: Catalogue, ids: Identifiers, registry: Registry, before: Records, call: Call, now: Time,
                  after: Records)
    requires Compiled(c, registry) && Inv(c, before)
    requires Next(c, ids, registry, before, call, now, after)
    ensures Inv(c, after) && Evolves(before, after)
  {
    hide Inv, Evolves, TriggerStep, RunStep, AdvanceStep, ClaimStep, DeliveryStep, Oldest;
    if after == before {
      EvolvesReflexive(before);
    } else {
      match call
      case Trigger(_, _, _, _) => TriggerKeeps(c, registry, before, call, now, after);
      case OnRun(_, _) => RunKeeps(c, registry, before, call, now, after);
      case Advance(limit) =>
        var picked :| Oldest(before, limit, picked) && AdvanceStep(c, registry, before, picked, now, after);
        AdvanceKeeps(c, registry, before, picked, now, after);
      case ClaimNext(_, _, _) => ClaimKeeps(c, ids, before, call, now, after);
      case OnDelivery(deliveryCall) => DeliveryKeeps(c, before, deliveryCall, now, after);
    }
  }

  /** A call that changes nothing is a step. */
  lemma StandingStill(c: Catalogue, ids: Identifiers, registry: Registry, before: Records, call: Call, now: Time)
    requires Compiled(c, registry)
    ensures Next(c, ids, registry, before, call, now, before) && Evolves(before, before)
  {
    EvolvesReflexive(before);
  }

  lemma RunStepIsNext(c: Catalogue, ids: Identifiers, registry: Registry, before: Records, call: Call, now: Time,
                      after: Records)
    requires Compiled(c, registry) && Inv(c, before) && call.OnRun?
    requires RunStep(c, registry, before, call, now, after)
    ensures Next(c, ids, registry, before, call, now, after) && Inv(c, after) && Evolves(before, after)
  {
    hide Inv, Evolves, RunStep;
    NextKeeps(c, ids, registry, before, call, now, after);
  }

  lemma ReplayIsNext(c: Catalogue, ids: Identifiers, registry: Registry, before: Records, call: Call, now: Time,
                     r: nat, after: Records)
    requires Compiled(c, registry) && Inv(c, before) && call.Trigger? && call.request.Bound()
    requires Replay(c, registry, before, call, now, r, after)
    ensures Next(c, ids, registry, before, call, now, after) && Inv(c, after) && Evolves(before, after)
  {
    hide Inv, Evolves, Replay;
    NextKeeps(c, ids, registry, before, call, now, after);
  }

  // ---------------------------------------------------------------------
  // Whole histories
  // ---------------------------------------------------------------------

  /** A call as it was issued: by some process, at some reading of its clock. */
  datatype Issued = Issued(registry: Registry, call: Call, now: Time)

  /** `states[i]` becomes `states[i + 1]` by the i-th call; calls come in any order from any processes. */
  ghost predicate Path(c: Catalogue, ids: Identifiers, states: seq<Records>, calls: seq<Issued>) {
    && ValidCatalogue(c)
    && |states| == |calls| + 1
    && forall i | 0 <= i < |calls| ::
         && Compiled(c, calls[i].registry)
         && Next(c, ids, calls[i].registry, states[i], calls[i].call, calls[i].now, states[i + 1])
  }

  /** A path from the empty database. */
  ghost predicate History(c: Catalogue, ids: Identifiers, states: seq<Records>, calls: seq<Issued>) {
    Path(c, ids, states, calls) && states[0] == map[]
  }

  ghost predicate PathFromTo(c: Catalogue, ids: Identifiers, before: Records, states: seq<Records>, calls: seq<Issued>,
                             after: Records)
  {
    |states| == |calls| + 1 && Path(c, ids, states, calls) && states[0] == before && states[|calls|] == after
  }

  /** Some calls of any processes lead from one state of the database to the other. */
  ghost predicate Reaches(c: Catalogue, ids: Identifiers, before: Records, after: Records) {
    exists states, calls :: PathFromTo(c, ids, before, states, calls, after)
  }

  lemma {:induction false} PathKeeps(c: Catalogue, ids: Identifiers, states: seq<Records>, calls: seq<Issued>, j: nat)
    requires Path(c, ids, states, calls) && Inv(c, states[0]) && j < |states|
    ensures Inv(c, states[j]) && Evolves(states[0], states[j])
    decreases j
  {
    hide Inv, Evolves, Next, Compiled;
    if j == 0 {
      EvolvesReflexive(states[0]);
    } else {
      var step := calls[j - 1];
      PathKeeps(c, ids, states, calls, j - 1);
      NextKeeps(c, ids, step.registry, states[j - 1], step.call, step.now, states[j]);
      EvolvesTransitive(states[0], states[j - 1], states[j]);
    }
  }

  lemma ReachesKeeps(c: Catalogue, ids: Identifiers, before: Records, after: Records)
    requires ValidCatalogue(c) && Inv(c, before) && Reaches(c, ids, before, after)
    ensures Inv(c, after) && Evolves(before, after)
  {
    hide Inv, Evolves, Path;
    var states, calls :| PathFromTo(c, ids, before, states, calls, after);
    PathKeeps(c, ids, states, calls, |calls|);
  }

  /** Over every history each run keeps its invariant, its state only moves forward, and versions only rise. */
  lemma {:induction false} EveryHistoryIsSafe(c: Catalogue, ids: Identifiers, states: seq<Records>, calls: seq<Issued>,
                                              i: nat, j: nat)
    requires History(c, ids, states, calls) && i <= j < |states|
    ensures Inv(c, states[j])
    ensures Evolves(states[i], states[j])
    decreases j
  {
    hide Inv, Evolves, Next, Compiled;
    if j == 0 {
      EmptyInv(c);
      EvolvesReflexive(states[0]);
    } else {
      var step := calls[j - 1];
      EveryHistoryIsSafe(c, ids, states, calls, Min(i, j - 1), j - 1);
      NextKeeps(c, ids, step.registry, states[j - 1], step.call, step.now, states[j]);
      if i == j {
        EvolvesReflexive(states[j]);
      } else {
        EvolvesTransitive(states[i], states[j - 1], states[j]);
      }
    }
  }

  lemma EmptyInv(c: Catalogue)
    requires ValidCatalogue(c)
    ensures Inv(c, map[])
  {
  }

  /**
    Whatever happened since, a claim still holds exactly if its row has kept its version, and so is untouched, and its
    lease runs.
   */
  lemma ClaimStandsExactlyWhen(before: Records, after: Records, claim: Claim, claimedAt: Time, now: Time)
    requires Evolves(before, after) && HasRow(before, claim.runId, claim.sequence)
    requires Holds(before[claim.runId].outbox[claim.sequence - 1], claim, claimedAt)
    ensures HasRow(after, claim.runId, claim.sequence)
    ensures var x, y := before[claim.runId].outbox[claim.sequence - 1], after[claim.runId].outbox[claim.sequence - 1];
            && (Holds(y, claim, now) <==> y.version == claim.version && now < x.lease.value.expiresAt)
            && (y.version == claim.version ==> y == x)
  {
    var r := claim.runId;
    assert RecordEvolves(before[r], after[r]);
    assert Moves(before[r].outbox[claim.sequence - 1], after[r].outbox[claim.sequence - 1]);
  }

  /**
    Once a delivery has moved past the version a worker claimed, that worker can never settle it, at any later time.
   */
  lemma SupersededClaimIsRefused(c: Catalogue, ids: Identifiers, states: seq<Records>, calls: seq<Issued>, i: nat,
                                 j: nat, claim: Claim, now: Time)
    requires History(c, ids, states, calls) && i <= j < |states|
    requires HasRow(states[i], claim.runId, claim.sequence)
    requires claim.version < states[i][claim.runId].outbox[claim.sequence - 1].version
    ensures HasRow(states[j], claim.runId, claim.sequence)
    ensures !Holds(states[j][claim.runId].outbox[claim.sequence - 1], claim, now)
    ensures forall after :: !DeliveryStep(states[j], Complete(claim), now, after)
    ensures forall after, code, retryable :: !DeliveryStep(states[j], Fail(claim, code, retryable), now, after)
  {
    hide Inv, History;
    EveryHistoryIsSafe(c, ids, states, calls, i, j);
    var r := claim.runId;
    assert RecordEvolves(states[i][r], states[j][r]);
    assert Moves(states[i][r].outbox[claim.sequence - 1], states[j][r].outbox[claim.sequence - 1]);
  }

  /** The outbox of a subscribed run at any point of any history. */
  lemma OutboxTellsTheStory(c: Catalogue, ids: Identifiers, states: seq<Records>, calls: seq<Issued>, j: nat, r: nat)
    requires History(c, ids, states, calls) && j < |states| && r in states[j] && states[j][r].subscription.Some?
    ensures var rec := states[j][r];
            var outbox := rec.outbox;
            && 1 <= |outbox| <= 4
            && (forall k | 0 <= k < |outbox| :: outbox[k].sequence == k + 1)
            && outbox[|outbox| - 1].publicStatus == rec.tracked.PublicStatus()
            && outbox[|outbox| - 1].message == rec.tracked.run.message
            && (forall k, l | 0 <= k < l < |outbox| ::
                  outbox[k].occurredAt <= outbox[l].occurredAt
                  && Rank(outbox[k].publicStatus) < Rank(outbox[l].publicStatus))
            && (forall k | 0 <= k < |outbox| && outbox[k].publicStatus.IsTerminal() :: k == |outbox| - 1)
  {
    hide Deliverable, Routed, Consistent, Next;
    EveryHistoryIsSafe(c, ids, states, calls, j, j);
    var outbox := states[j][r].outbox;
    assert RecordInv(c, r, states[j][r]);
    forall k | 0 <= k < |outbox|
      ensures |outbox| <= 4 && (outbox[k].publicStatus.IsTerminal() ==> k == |outbox| - 1)
    {
      AtMostFour(outbox, k);
    }
  }

  /** At any point of any history, a gated run succeeded exactly if a person approved it. */
  lemma NobodyBypassesTheGate(c: Catalogue, ids: Identifiers, states: seq<Records>, calls: seq<Issued>, j: nat, r: nat)
    requires History(c, ids, states, calls) && j < |states| && r in states[j]
    requires states[j][r].tracked.run.definition == "local-quality-gate"
    ensures var s := states[j][r].tracked;
            && s.gate.Some?
            && (s.run.status.Succeeded? <==> s.Gated(Approved))
            && (s.run.status.Succeeded? <==> |s.approvals| == 1 && s.approvals[0].request.decision.Approve?)
            && (s.run.status.Failed? <==> s.Gated(Rejected) || s.Gated(GateFailed))
            && (s.run.status.Cancelled? <==> s.Gated(GateCancelled))
  {
    hide Consistent, Next, Snapshots, UpToDate, Deliverable, Routed, WellFormed;
    EveryHistoryIsSafe(c, ids, states, calls, j, j);
    assert RecordInv(c, r, states[j][r]);
    RecordConsistent(c, r, states[j][r]);
    var run := states[j][r].tracked.run;
    GateDecidesOutcome(c[(run.definition, run.revision)], states[j][r].tracked);
  }

  /** Delivered snapshots are a prefix, and only the snapshot after them can be attempted. */
  lemma DeliveriesStayInOrder(c: Catalogue, ids: Identifiers, states: seq<Records>, calls: seq<Issued>, j: nat, r: nat,
                              k: nat, l: nat)
    requires History(c, ids, states, calls) && j < |states| && r in states[j] && k < l < |states[j][r].outbox|
    ensures var outbox := states[j][r].outbox;
            && (outbox[l].status.Delivered? || outbox[l].status.Claimed? || outbox[l].attempts > 0 ==>
                  outbox[k].status.Delivered?)
            && outbox[k].attempts <= outbox[k].maxAttempts <= 20
  {
    hide Consistent, Next, UpToDate, Routed, WellFormed;
    EveryHistoryIsSafe(c, ids, states, calls, j, j);
    assert RecordInv(c, r, states[j][r]);
    assert RowShape(states[j][r].outbox[k]);
    DeliveryIsInOrder(states[j][r].outbox, k, l);
  }

  /** A call that is neither a cancellation nor a decision for run `r`. */
  predicate Harmless(call: Call, r: nat) {
    call.OnRun? && call.runId == r ==> call.runCall.Read?
  }

  /** Refreshing a waiting run leaves its rows as they are. */
  lemma FiledWaiting(c: Catalogue, registry: Registry, records: Records, r: nat, now: Time)
    requires Compiled(c, registry) && Inv(c, records) && r in records && records[r].tracked.Gated(Waiting)
    requires Lookup(registry, records[r].tracked.run).Ok?
    ensures var d := Lookup(registry, records[r].tracked.run).value;
            && WellFormed(d)
            && Filed(r, records[r], Refreshed(d, records[r].tracked, now), now).tracked == records[r].tracked
  {
    hide RecordInv, Enqueued, Lookup;
    LookupInCatalogue(c, registry, records[r].tracked.run);
    RecordConsistent(c, r, records[r]);
  }

  lemma StillWaiting(c: Catalogue, ids: Identifiers, registry: Registry, before: Records, call: Call, now: Time,
                     after: Records, r: nat)
    requires Compiled(c, registry) && Inv(c, before) && Next(c, ids, registry, before, call, now, after)
    requires r in before && before[r].tracked.Gated(Waiting) && Harmless(call, r)
    ensures r in after && after[r].tracked == before[r].tracked
  {
    hide Inv, TriggerStep, RunStep, AdvanceStep, ClaimStep, DeliveryStep, Oldest, Compiled;
    if after != before {
      match call
      case Trigger(_, _, _, _) => TriggerWaits(c, registry, before, call, now, after, r);
      case OnRun(_, _) => ReadWaits(c, registry, before, call, now, after, r);
      case Advance(limit) =>
        var picked :| Oldest(before, limit, picked) && AdvanceStep(c, registry, before, picked, now, after);
        AdvanceWaits(c, registry, before, picked, now, after, r);
      case ClaimNext(_, _, _) => ClaimLeavesRuns(ids, before, call, now, after, r);
      case OnDelivery(deliveryCall) =>
        assert DeliveryStep(before, deliveryCall, now, after);
        DeliveryLeavesRuns(before, deliveryCall, now, after, r);
    }
  }

  lemma TriggerWaits(c: Catalogue, registry: Registry, before: Records, call: Call, now: Time, after: Records, r: nat)
    requires Compiled(c, registry) && Inv(c, before) && call.Trigger?
             && TriggerStep(c, registry, before, call, now, after)
    requires r in before && before[r].tracked.Gated(Waiting)
    ensures r in after && after[r].tracked == before[r].tracked
  {
    hide Inv, Lookup, Filed, Refreshed, Created, Acceptable, SameInput, Compiled, WellFormed;
    if q :| Replay(c, registry, before, call, now, q, after) {
      if q == r {
        FiledWaiting(c, registry, before, r, now);
      }
    }
  }

  lemma ReadWaits(c: Catalogue, registry: Registry, before: Records, call: Call, now: Time, after: Records, r: nat)
    requires Compiled(c, registry) && Inv(c, before) && call.OnRun? && RunStep(c, registry, before, call, now, after)
    requires r in before && before[r].tracked.Gated(Waiting) && Harmless(call, r)
    ensures r in after && after[r].tracked == before[r].tracked
  {
    hide Inv, Lookup, Filed, RunEffect, Compiled, WellFormed;
    if call.runId == r {
      FiledWaiting(c, registry, before, r, now);
      ReadEffect(r, Lookup(registry, before[r].tracked.run).value, before[r], now);
    }
  }

  lemma AdvanceWaits(c: Catalogue, registry: Registry, before: Records, picked: set<nat>, now: Time, after: Records,
                     r: nat)
    requires Compiled(c, registry) && Inv(c, before) && AdvanceStep(c, registry, before, picked, now, after)
    requires r in before && before[r].tracked.Gated(Waiting)
    ensures r in after && after[r].tracked == before[r].tracked
  {
    hide Inv, Lookup, Filed, Refreshed, Compiled, WellFormed;
    if r in picked {
      FiledWaiting(c, registry, before, r, now);
    }
  }

  lemma ClaimLeavesRuns(ids: Identifiers, before: Records, call: Call, now: Time, after: Records, r: nat)
    requires call.ClaimNext? && ClaimStep(ids, before, call, now, after) && r in before
    ensures r in after && after[r].tracked == before[r].tracked
  {
    hide Eligible, ClaimedRow, Lapsed, Sooner;
  }

  lemma DeliveryLeavesRuns(before: Records, call: DeliveryCall, now: Time, after: Records, r: nat)
    requires DeliveryStep(before, call, now, after) && r in before
    ensures r in after && after[r].tracked == before[r].tracked
  {
    hide DeliveryEffect;
  }

  /** Whatever else happens, and however the clocks run, a waiting run waits until somebody decides or cancels. */
  lemma {:induction false} OnlyADecisionEndsTheWait(
    c: Catalogue, ids: Identifiers, states: seq<Records>, calls: seq<Issued>, i: nat, j: nat, r: nat)
    requires History(c, ids, states, calls) && i <= j < |states|
    requires r in states[i] && states[i][r].tracked.Gated(Waiting)
    requires forall k | i <= k < j :: Harmless(calls[k].call, r)
    ensures r in states[j] && states[j][r].tracked == states[i][r].tracked
    decreases j
  {
    hide Next, Compiled, Inv, Evolves, Harmless, ValidCatalogue;
    if i < j {
      OnlyADecisionEndsTheWait(c, ids, states, calls, i, j - 1, r);
      EveryHistoryIsSafe(c, ids, states, calls, j - 1, j - 1);
      var step := calls[j - 1];
      StillWaiting(c, ids, step.registry, states[j - 1], step.call, step.now, states[j], r);
    }
  }
}
