/** The webhook outbox of one run: ordered snapshots, head-of-line delivery, leases with version fencing, retries. */
module CiOutbox {
  import opened Common
  import opened CiTimeline
  import opened CiRun

  const DEFAULT_MAX_ATTEMPTS: nat := 8

  datatype DeliveryStatus = Pending | Claimed | RetryWait | Delivered | DeadLetter

  /** The canonical JSON document of a snapshot; injective in its fields. */
  datatype Body = Json(
    connectionId: string,
    correlationId: string,
    externalId: nat,
    message: Option<string>,
    occurredAt: Time,
    sequence: nat,
    status: RunStatus)

  /** SHA-256 of a body, taken to be injective. */
  datatype Digest = Sha256(body: Body)

  datatype Lease = Lease(owner: string, tokenHash: nat, expiresAt: Time)

  /** A row of the delivery table; the pair of run and sequence number identifies it. */
  datatype Delivery = Delivery(
    sequence: nat,
    occurredAt: Time,
    publicStatus: RunStatus,
    message: Option<string>,
    body: Body,
    bodySha256: Digest,
    status: DeliveryStatus,
    attempts: nat,
    maxAttempts: nat,
    availableAt: Time,
    lease: Option<Lease>,
    lastError: Option<string>,
    version: nat,
    createdAt: Time,
    updatedAt: Time,
    deliveredAt: Option<Time>,
    deadLetteredAt: Option<Time>)

  datatype Subscription = Subscription(connectionId: string, correlationId: string)

  // ---------------------------------------------------------------------
  // Writing snapshots
  // ---------------------------------------------------------------------

  function OccurredAt(s: Tracked, outbox: seq<Delivery>, now: Time): Time {
    var a := if s.gate.Some? then Max(s.run.updatedAt, s.gate.value.updatedAt) else s.run.updatedAt;
    var b := if outbox != [] then Max(a, outbox[|outbox| - 1].occurredAt) else a;
    Max(b, now)
  }

  function Snapshot(runId: nat, to: Subscription, s: Tracked, outbox: seq<Delivery>, now: Time): Delivery {
    var sequence := |outbox| + 1;
    var at := OccurredAt(s, outbox, now);
    var body := Json(to.connectionId, to.correlationId, runId, s.run.message, at, sequence, s.PublicStatus());
    Delivery(sequence, at, s.PublicStatus(), s.run.message, body, Sha256(body),
             Pending, 0, DEFAULT_MAX_ATTEMPTS, now, None, None, 0, now, now, None, None)
  }

  predicate Reported(s: Tracked, outbox: seq<Delivery>) {
    && outbox != []
    && var latest := outbox[|outbox| - 1];
       latest.publicStatus == s.PublicStatus() && latest.message == s.run.message
  }

  /** `_enqueue_webhook_if_changed` */
  function Enqueued(runId: nat, to: Option<Subscription>, s: Tracked, outbox: seq<Delivery>, now: Time): seq<Delivery> {
    if to.None? || Reported(s, outbox) then outbox
    else outbox + [Snapshot(runId, to.value, s, outbox, now)]
  }

  /** The snapshots of one run: numbered from 1 without gaps, in time and life-cycle order, bodies as written. */
  ghost predicate Snapshots(outbox: seq<Delivery>) {
    && (forall k | 0 <= k < |outbox| ::
          && outbox[k].sequence == k + 1
          && outbox[k].bodySha256 == Sha256(outbox[k].body)
          && outbox[k].body.sequence == k + 1
          && outbox[k].body.status == outbox[k].publicStatus
          && outbox[k].body.message == outbox[k].message
          && outbox[k].body.occurredAt == outbox[k].occurredAt)
    && (forall k, l | 0 <= k < l < |outbox| ::
          && outbox[k].occurredAt <= outbox[l].occurredAt
          && Rank(outbox[k].publicStatus) < Rank(outbox[l].publicStatus))
  }

  /** The last snapshot of a subscribed run is its current public state; other runs have none. */
  ghost predicate UpToDate(to: Option<Subscription>, s: Tracked, outbox: seq<Delivery>) {
    if to.None? then outbox == [] else Reported(s, outbox)
  }

  lemma EnqueueFirst(runId: nat, to: Option<Subscription>, s: Tracked, now: Time)
    ensures Snapshots(Enqueued(runId, to, s, [], now))
    ensures UpToDate(to, s, Enqueued(runId, to, s, [], now))
  {
  }

  /** Every committed change of the public state appends exactly one snapshot; anything else appends none. */
  lemma EnqueueAfterChange(runId: nat, to: Option<Subscription>, s: Tracked, t: Tracked, outbox: seq<Delivery>,
                           now: Time)
    requires Snapshots(outbox) && UpToDate(to, s, outbox) && Advances(s, t)
    ensures var after := Enqueued(runId, to, t, outbox, now);
            && Snapshots(after) && UpToDate(to, t, after)
            && outbox <= after
            && |after| == |outbox| + (if to.Some? && t.PublicStatus() != s.PublicStatus() then 1 else 0)
  {
    var after := Enqueued(runId, to, t, outbox, now);
    if after != outbox {
      var last := outbox[|outbox| - 1];
      forall k | 0 <= k < |outbox|
        ensures outbox[k].occurredAt <= last.occurredAt && Rank(outbox[k].publicStatus) <= Rank(last.publicStatus)
      {
      }
    }
  }

  /** A run is reported at most four times, and nothing follows a terminal report. */
  lemma {:induction false} AtMostFour(outbox: seq<Delivery>, k: nat)
    requires Snapshots(outbox) && k < |outbox|
    ensures k <= Rank(outbox[k].publicStatus) <= 3
    ensures |outbox| <= 4
    ensures outbox[k].publicStatus.IsTerminal() ==> k == |outbox| - 1
    decreases k
  {
    if k > 0 {
      AtMostFour(outbox, k - 1);
    }
    if k < |outbox| - 1 {
      RankBounds(outbox, |outbox| - 1);
    } else {
      RankBounds(outbox, k);
    }
  }

  lemma {:induction false} RankBounds(outbox: seq<Delivery>, k: nat)
    requires Snapshots(outbox) && k < |outbox|
    ensures k <= Rank(outbox[k].publicStatus) <= 3
  {
    if k > 0 {
      RankBounds(outbox, k - 1);
      assert Rank(outbox[k - 1].publicStatus) < Rank(outbox[k].publicStatus);
    }
  }

  // ---------------------------------------------------------------------
  // Delivering snapshots
  // ---------------------------------------------------------------------

  /** What a worker holds while it delivers; the secret token is known to it alone. */
  datatype Claim = Claim(runId: nat, sequence: nat, workerId: string, token: nat, version: nat, body: Body,
                         attempts: nat, maxAttempts: nat)

  /** The first step of a claim: an expired lease of a final attempt becomes a dead letter. */
  function Lapsed(x: Delivery, now: Time): Delivery {
    if x.status.Claimed? && x.lease.Some? && x.lease.value.expiresAt <= now && x.maxAttempts <= x.attempts then
      x.(status := DeadLetter, lease := None, lastError := Some("lease_expired"), updatedAt := now,
         deadLetteredAt := Some(now), version := x.version + 1)
    else x
  }

  predicate Due(x: Delivery, now: Time) {
    && (|| ((x.status.Pending? || x.status.RetryWait?) && x.availableAt <= now)
        || (x.status.Claimed? && x.lease.Some? && x.lease.value.expiresAt <= now))
    && x.attempts < x.maxAttempts
  }

  /** No earlier snapshot of the run is undelivered. */
  predicate AtHead(outbox: seq<Delivery>, k: nat)
    requires k < |outbox|
  {
    forall l | 0 <= l < |outbox| && outbox[l].sequence < outbox[k].sequence :: outbox[l].status.Delivered?
  }

  predicate Eligible(outbox: seq<Delivery>, k: nat, now: Time)
    requires k < |outbox|
  {
    Due(outbox[k], now) && AtHead(outbox, k)
  }

  function Corrupted(x: Delivery, now: Time): Delivery {
    x.(status := DeadLetter, lease := None, lastError := Some("payload_integrity_error"), updatedAt := now,
       deadLetteredAt := Some(now), version := x.version + 1)
  }

  function Leased(x: Delivery, worker: string, token: nat, leaseSeconds: nat, now: Time): Delivery {
    x.(status := Claimed, attempts := x.attempts + 1,
       lease := Some(Lease(worker, token, now + leaseSeconds * 1_000_000)), lastError := None, updatedAt := now,
       deliveredAt := None, deadLetteredAt := None, version := x.version + 1)
  }

  predicate Intact(x: Delivery) {
    x.bodySha256 == Sha256(x.body)
  }

  /** `_require_webhook_delivery_lease` */
  predicate Holds(x: Delivery, claim: Claim, now: Time) {
    && x.status.Claimed?
    && x.lease.Some?
    && x.lease.value.owner == claim.workerId
    && x.lease.value.tokenHash == claim.token
    && now < x.lease.value.expiresAt
    && x.version == claim.version
  }

  function Completed(x: Delivery, now: Time): Delivery {
    x.(status := Delivered, lease := None, lastError := None, updatedAt := now, deliveredAt := Some(now),
       deadLetteredAt := None, version := x.version + 1)
  }

  function Power2(n: nat): nat {
    if n == 0 then 1 else 2 * Power2(n - 1)
  }

  /** Seconds until the next attempt: exponential, capped at five minutes. */
  function BackoffSeconds(attempts: nat): nat {
    Min(300, Power2(Max(0, attempts - 1)))
  }

  lemma {:induction false} BackoffBounded(attempts: nat)
    ensures 1 <= BackoffSeconds(attempts) <= 300
    ensures BackoffSeconds(attempts) <= BackoffSeconds(attempts + 1)
    ensures attempts <= 1 ==> BackoffSeconds(attempts) == 1
    ensures 1 <= attempts ==>
              BackoffSeconds(attempts + 1)
              == if BackoffSeconds(attempts) < 150 then 2 * BackoffSeconds(attempts) else 300
  {
    PowerPositive(Max(0, attempts - 1));
  }

  lemma {:induction false} PowerPositive(n: nat)
    ensures 1 <= Power2(n)
  {
    if n > 0 {
      PowerPositive(n - 1);
    }
  }

  function FailedAttempt(x: Delivery, errorCode: string, retryable: bool, now: Time): Delivery {
    var again := retryable && x.attempts < x.maxAttempts;
    x.(status := if again then RetryWait else DeadLetter,
       availableAt := if again then now + BackoffSeconds(x.attempts) * 1_000_000 else x.availableAt,
       lease := None, lastError := Some(errorCode), updatedAt := now, deliveredAt := None,
       deadLetteredAt := if again then None else Some(now), version := x.version + 1)
  }

  /** `retry_webhook_delivery` on the row it finds. */
  function Requeued(x: Delivery, now: Time): Result<Delivery, Error> {
    if x.status.Pending? || x.status.RetryWait? then Ok(x)
    else if !x.status.DeadLetter? then Err(Conflict("only a dead-letter webhook delivery can be retried"))
    else Ok(x.(status := Pending, attempts := 0, maxAttempts := DEFAULT_MAX_ATTEMPTS, availableAt := now, lease := None,
               lastError := None, updatedAt := now, deliveredAt := None, deadLetteredAt := None,
               version := x.version + 1))
  }

  /** The shape the table's check constraints demand of a row, and what the attempts say about the status. */
  predicate RowShape(x: Delivery) {
    && x.attempts <= x.maxAttempts
    && 1 <= x.maxAttempts <= 20
    && (x.lease.Some? <==> x.status.Claimed?)
    && (x.deliveredAt.Some? <==> x.status.Delivered?)
    && (x.deadLetteredAt.Some? <==> x.status.DeadLetter?)
    && (x.status.Pending? ==> x.attempts == 0)
    && (x.status.RetryWait? ==> 1 <= x.attempts < x.maxAttempts)
    && (x.status.Claimed? || x.status.Delivered? ==> 1 <= x.attempts)
  }

  /** Never attempted. */
  predicate Untouched(x: Delivery) {
    x.status.Pending? && x.attempts == 0 && x.version == 0
  }

  /** Delivered snapshots first, then the one being worked on, then untouched ones. */
  ghost predicate InOrder(outbox: seq<Delivery>, head: nat) {
    && head <= |outbox|
    && (forall k | 0 <= k < head :: outbox[k].status.Delivered?)
    && (forall k | head < k < |outbox| :: Untouched(outbox[k]))
    && (head < |outbox| ==> !outbox[head].status.Delivered?)
  }

  ghost predicate Deliverable(outbox: seq<Delivery>) {
    && (forall k | 0 <= k < |outbox| :: RowShape(outbox[k]))
    && exists head: nat :: InOrder(outbox, head)
  }

  /** What delivering may change in a row: never its snapshot, and every change raises the version. */
  predicate Moves(x: Delivery, y: Delivery) {
    && y.sequence == x.sequence && y.occurredAt == x.occurredAt && y.publicStatus == x.publicStatus
    && y.message == x.message && y.body == x.body && y.bodySha256 == x.bodySha256 && y.createdAt == x.createdAt
    && (y == x || (x.version < y.version && !x.status.Delivered?))
  }

  /** Rows never disappear, delivered ones are frozen. */
  ghost predicate OutboxMoves(before: seq<Delivery>, after: seq<Delivery>) {
    && |before| <= |after|
    && forall k | 0 <= k < |before| :: Moves(before[k], after[k])
  }

  /** A change of the head row to any well-shaped row keeps the queue in order. */
  lemma HeadChange(outbox: seq<Delivery>, k: nat, y: Delivery)
    requires Deliverable(outbox) && k < |outbox|
    requires RowShape(y) && Moves(outbox[k], y) && !Untouched(outbox[k])
    ensures Deliverable(outbox[k := y]) && OutboxMoves(outbox, outbox[k := y])
  {
    var head: nat :| InOrder(outbox, head);
    if y == outbox[k] {
      assert outbox[k := y] == outbox;
    } else {
      assert k == head;
      assert InOrder(outbox[k := y], if y.status.Delivered? then head + 1 else head);
    }
  }

  /** A claim takes only the head row, whatever its state. */
  lemma ClaimChange(outbox: seq<Delivery>, k: nat, y: Delivery)
    requires Deliverable(outbox) && Snapshots(outbox) && k < |outbox| && AtHead(outbox, k)
    requires RowShape(y) && Moves(outbox[k], y) && !outbox[k].status.Delivered? && !y.status.Delivered?
    ensures Deliverable(outbox[k := y]) && OutboxMoves(outbox, outbox[k := y])
    ensures forall l | 0 <= l < |outbox| && l != k :: !outbox[l].status.Claimed?
  {
    var head: nat :| InOrder(outbox, head);
    assert k == head;
    assert InOrder(outbox[k := y], head);
  }

  lemma {:induction false} AppendUntouched(outbox: seq<Delivery>, y: Delivery)
    requires Deliverable(outbox) && RowShape(y) && Untouched(y)
    ensures Deliverable(outbox + [y]) && OutboxMoves(outbox, outbox + [y])
  {
    var head: nat :| InOrder(outbox, head);
    assert InOrder(outbox + [y], head);
  }

  /** Delivered snapshots form a prefix of the sequence numbers and at most one snapshot is out for delivery. */
  lemma DeliveryIsInOrder(outbox: seq<Delivery>, k: nat, l: nat)
    requires Snapshots(outbox) && Deliverable(outbox) && k < |outbox| && l < |outbox|
    requires outbox[k].sequence < outbox[l].sequence
    ensures outbox[l].status.Delivered? ==> outbox[k].status.Delivered?
    ensures outbox[l].status.Claimed? ==> outbox[k].status.Delivered?
    ensures outbox[l].attempts > 0 ==> outbox[k].status.Delivered?
  {
    var head: nat :| InOrder(outbox, head);
  }

  /** A failed attempt is tried again after one to three hundred seconds, unless it was the last one. */
  lemma FailedAttemptWaits(x: Delivery, errorCode: string, retryable: bool, now: Time)
    ensures var y := FailedAttempt(x, errorCode, retryable, now);
            y.status.RetryWait? ==> now + 1_000_000 <= y.availableAt <= now + 300_000_000
  {
    BackoffBounded(x.attempts);
  }
}
