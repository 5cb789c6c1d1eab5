/** The webhook worker of the CI lab: refresh, claim one delivery, send it, settle the claim by the answer. */
module CiWorker {
  import opened Common
  import opened CiTimeline
  import opened CiRun
  import opened CiOutbox
  import opened CiSystem
  import opened CiService
  import opened DecimalText

  /**
    What the request comes back with; a missing or non-text field of the answer is None. A delivery whose connection
    identifier is no UUID is never sent.
   */
  datatype Response =
    | NotSent
    | NetworkFailure
    | TransportFailure
    | TooLarge
    | Answer(status: Status, outcome: Option<string>, eventId: Option<string>)

  datatype Outcome = Outcome(delivered: bool, retryable: bool, errorCode: string)

  const SUCCESSES := {"applied", "duplicate", "stale", "reconcile_required"}

  /** An HTTP status has three digits. */
  type Status = n: int | 100 <= n <= 999 witness 100

  function HttpCode(status: Status): string {
    "http_" + Decimal(status)
  }

  /** `_deliver` */
  function OutcomeOf(sent: string, response: Response): Outcome {
    match response
    case NotSent => Outcome(false, false, "connection_id_invalid")
    case NetworkFailure => Outcome(false, true, "network_error")
    case TransportFailure => Outcome(false, true, "http_transport_error")
    case TooLarge => Outcome(false, false, "response_too_large")
    case Answer(status, outcome, eventId) =>
      if status in {408, 425, 429} || status >= 500 then Outcome(false, true, HttpCode(status))
      else if !(200 <= status < 300) then Outcome(false, false, HttpCode(status))
      else if outcome.None? || eventId.None? then Outcome(false, false, "response_invalid")
      else if eventId.value != sent then Outcome(false, false, "response_event_mismatch")
      else if outcome.value in SUCCESSES then Outcome(true, false, "")
      else Outcome(false, false, "response_result_invalid")
  }

  /** Delivered means a success answer for this very event; only failures outside the receiver's verdict are retried. */
  lemma OutcomeExactlyWhen(sent: string, response: Response)
    ensures OutcomeOf(sent, response).delivered <==>
            && response.Answer? && 200 <= response.status < 300 && response.eventId == Some(sent)
            && response.outcome.Some? && response.outcome.value in SUCCESSES
    ensures OutcomeOf(sent, response).retryable <==>
            || response.NetworkFailure? || response.TransportFailure?
            || (response.Answer? && (response.status in {408, 425, 429} || response.status >= 500))
    ensures !(OutcomeOf(sent, response).delivered && OutcomeOf(sent, response).retryable)
    ensures !OutcomeOf(sent, response).delivered ==> ValidErrorCode(OutcomeOf(sent, response).errorCode)
  {
    hide HttpCode, ValidErrorCode;
    TransportCodesAreValid();
    AnswerCodesAreValid();
    if response.Answer? {
      HttpCodeIsValid(response.status);
    }
  }

  lemma TransportCodesAreValid()
    ensures ValidErrorCode("connection_id_invalid") && ValidErrorCode("network_error")
    ensures ValidErrorCode("http_transport_error") && ValidErrorCode("response_too_large")
  {
  }

  lemma AnswerCodesAreValid()
    ensures ValidErrorCode("response_invalid") && ValidErrorCode("response_event_mismatch")
            && ValidErrorCode("response_result_invalid")
  {
  }

  lemma HttpCodeIsValid(status: Status)
    ensures ValidErrorCode(HttpCode(status))
  {
    NumberOfDecimal(status);
    DecimalLength(status, 3);
    assert Power10(2) == 100 && Power10(3) == 1000;
    var code := HttpCode(status);
    assert code == "http_" + code[5..] && code[5..] == Decimal(status) && |code| == 8;
  }

  /** `_deliver`, from the answer on. */
  method Interpret(sent: string, response: Response) returns (outcome: Outcome)
    ensures outcome == OutcomeOf(sent, response)
  {
    match response {
      case NotSent => outcome := Outcome(false, false, "connection_id_invalid");
      case NetworkFailure => outcome := Outcome(false, true, "network_error");
      case TransportFailure => outcome := Outcome(false, true, "http_transport_error");
      case TooLarge => outcome := Outcome(false, false, "response_too_large");
      case Answer(status, verdict, eventId) =>
        var code := "http_" + Decimal(status);
        if status == 408 || status == 425 || status == 429 || 500 <= status {
          outcome := Outcome(false, true, code);
        } else if status < 200 || 300 <= status {
          outcome := Outcome(false, false, code);
        } else if verdict.None? || eventId.None? {
          outcome := Outcome(false, false, "response_invalid");
        } else if eventId.value != sent {
          outcome := Outcome(false, false, "response_event_mismatch");
        } else if verdict.value !in {"applied", "duplicate", "stale", "reconcile_required"} {
          outcome := Outcome(false, false, "response_result_invalid");
        } else {
          outcome := Outcome(true, false, "");
        }
    }
  }

  /** How the claimed row looks after the answer was recorded in time; a retry waits one to three hundred seconds. */
  predicate SettledBy(before: Delivery, after: Delivery, outcome: Outcome, now: Time) {
    && Moves(before, after)
    && (outcome.delivered <==> after.status.Delivered?)
    && (!outcome.delivered && outcome.retryable && before.attempts < before.maxAttempts <==> after.status.RetryWait?)
    && (after.status.RetryWait? ==> now + 1_000_000 <= after.availableAt <= now + 300_000_000)
    && (after.status.Delivered? || after.status.RetryWait? || after.status.DeadLetter?)
  }

  /** How the worker reports an outcome. */
  function CallFor(claim: Claim, outcome: Outcome): DeliveryCall {
    if outcome.delivered then DeliveryCall.Complete(claim)
    else DeliveryCall.Fail(claim, outcome.errorCode, outcome.retryable)
  }

  class CiLabWebhookWorker {
    const service: CiLabService
    const workerId: string
    const leaseSeconds: int
    const refreshLimit: int
    /** The event identifier drawn for each row. */
    const eventIds: (nat, nat) -> string

    constructor (service: CiLabService, workerId: string, leaseSeconds: int, refreshLimit: int,
                 eventIds: (nat, nat) -> string)
      requires SafeText(workerId, "._:@-") && 5 <= leaseSeconds <= 300 && 1 <= refreshLimit <= 500
      ensures this.service == service && this.workerId == workerId && this.leaseSeconds == leaseSeconds
      ensures this.refreshLimit == refreshLimit && this.eventIds == eventIds
    {
      this.service, this.workerId, this.leaseSeconds, this.refreshLimit, this.eventIds :=
        service, workerId, leaseSeconds, refreshLimit, eventIds;
    }

    /**
      The end of `run_once`, in whatever state other processes have left the tables since the claim: the answer is
      recorded exactly if the claim still holds; otherwise the conflict is swallowed and nothing changes.
     */
    method Report(claim: Claim, response: Response, now: Time)
      requires service.Valid()
      modifies service
      ensures service.Valid() && Evolves(old(service.records), service.records)
      ensures var outcome := OutcomeOf(eventIds(claim.runId, claim.sequence), response);
              if HasRow(old(service.records), claim.runId, claim.sequence)
                 && Holds(old(service.records)[claim.runId].outbox[claim.sequence - 1], claim, now)
              then && HasRow(service.records, claim.runId, claim.sequence)
                   && SettledBy(old(service.records)[claim.runId].outbox[claim.sequence - 1],
                                service.records[claim.runId].outbox[claim.sequence - 1], outcome, now)
                   && DeliveryStep(old(service.records), CallFor(claim, outcome), now, service.records)
              else service.records == old(service.records)
    {
      hide Inv, Evolves, OutcomeOf, RecordInv, ValidErrorCode, SettledBy, DeliveryEffect;
      var outcome := Interpret(eventIds(claim.runId, claim.sequence), response);
      OutcomeExactlyWhen(eventIds(claim.runId, claim.sequence), response);
      ghost var before := service.records;
      var settled := service.Settle(CallFor(claim, outcome), now);
      if HasRow(before, claim.runId, claim.sequence) {
        SettleEffect(before[claim.runId].outbox[claim.sequence - 1], claim, outcome, now);
      }
    }

    /**
      `run_once`: three transactions at three readings of the clock, between which other processes do anything:
      `others(0, ..)` after the refresh, `others(1, ..)` after the claim. The answer settles the claimed row exactly if
      nobody has touched it since and the lease still runs; otherwise this worker changes nothing more.
     */
    method RunOnce(token: nat, response: Response, refreshAt: Time, claimAt: Time, settleAt: Time,
                   others: (nat, Records) -> Records)
      returns (handled: Result<Option<Claim>, Error>, ghost leased: Records, ghost met: Records)
      requires service.Valid() && SafeText(workerId, "._:@-") && 5 <= leaseSeconds <= 300 && 1 <= refreshLimit <= 500
      requires forall n, before :: Reaches(service.catalogue, service.ids, before, others(n, before))
      modifies service
      ensures service.Valid() && Evolves(old(service.records), service.records)
      ensures handled.Err? ==> service.records == old(service.records)
      ensures handled.Ok? && handled.value.Some? ==>
                var claim := handled.value.value;
                && HasRow(leased, claim.runId, claim.sequence)
                && var x := leased[claim.runId].outbox[claim.sequence - 1];
                && Holds(x, claim, claimAt) && x.lease.value.expiresAt == claimAt + leaseSeconds * 1_000_000
                && met == others(1, leased) && HasRow(met, claim.runId, claim.sequence)
                && var outcome := OutcomeOf(eventIds(claim.runId, claim.sequence), response);
                   if met[claim.runId].outbox[claim.sequence - 1].version == claim.version
                      && settleAt < claimAt + leaseSeconds * 1_000_000
                   then && HasRow(service.records, claim.runId, claim.sequence)
                        && SettledBy(x, service.records[claim.runId].outbox[claim.sequence - 1], outcome, settleAt)
                        && DeliveryStep(met, CallFor(claim, outcome), settleAt, service.records)
                   else service.records == met
    {
      hide Inv, Evolves, SafeText, OutcomeOf, SettledBy, DeliveryStep, Reaches;
      leased, met := service.records, service.records;
      ghost var start := service.records;
      var taken := Take(token, refreshAt, claimAt, others);
      if taken.Err? || taken.value.None? {
        handled := taken;
        return;
      }
      var claim := taken.value.value;
      leased := service.records;
      Interleave(others, 1);
      met := service.records;
      ClaimStandsExactlyWhen(leased, met, claim, claimAt, settleAt);
      EvolvesTransitive(start, leased, met);
      Report(claim, response, settleAt);
      EvolvesTransitive(start, met, service.records);
      handled := Ok(Some(claim));
    }

    /** The refresh and the claim of `run_once`. */
    method Take(token: nat, refreshAt: Time, claimAt: Time, others: (nat, Records) -> Records)
      returns (taken: Result<Option<Claim>, Error>)
      requires service.Valid() && SafeText(workerId, "._:@-") && 5 <= leaseSeconds <= 300 && 1 <= refreshLimit <= 500
      requires forall n, before :: Reaches(service.catalogue, service.ids, before, others(n, before))
      modifies service
      ensures service.Valid() && Evolves(old(service.records), service.records)
      ensures taken.Err? ==> service.records == old(service.records)
      ensures taken.Ok? && taken.value.Some? ==>
                var claim := taken.value.value;
                && HasRow(service.records, claim.runId, claim.sequence)
                && var x := service.records[claim.runId].outbox[claim.sequence - 1];
                   Holds(x, claim, claimAt) && x.lease.value.expiresAt == claimAt + leaseSeconds * 1_000_000
    {
      hide Inv, Evolves, SafeText, FirstDue, ClaimStep, Lapsed, Eligible, RecordInv, Reaches;
      ghost var start := service.records;
      var swept := service.AdvanceOnce(refreshLimit, refreshAt);
      if swept.Err? {
        return Err(swept.error);
      }
      ghost var refreshed := service.records;
      Interleave(others, 0);
      ghost var found := service.records;
      EvolvesTransitive(start, refreshed, found);
      taken := service.ClaimDelivery(workerId, leaseSeconds, token, claimAt);
      EvolvesTransitive(start, found, service.records);
    }

    /** Other processes act; what was reached before has still been reached from. */
    method Interleave(others: (nat, Records) -> Records, n: nat)
      requires service.Valid() && Reaches(service.catalogue, service.ids, service.records, others(n, service.records))
      modifies service
      ensures service.Valid() && service.records == others(n, old(service.records))
              && Evolves(old(service.records), service.records)
    {
      hide Inv, Evolves, Reaches;
      service.LetOthersAct(others(n, service.records));
    }

    lemma SettleEffect(x: Delivery, claim: Claim, outcome: Outcome, now: Time)
      requires !(outcome.delivered && outcome.retryable)
      ensures var effect := DeliveryEffect(x, CallFor(claim, outcome), now);
              && (effect.Ok? <==> Holds(x, claim, now))
              && (effect.Ok? ==> SettledBy(x, effect.value, outcome, now))
    {
      FailedAttemptWaits(x, outcome.errorCode, outcome.retryable, now);
    }
  }
}
