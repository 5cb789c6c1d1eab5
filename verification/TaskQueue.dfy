/**
  The automation task queue: at-least-once claims with leases, bounded attempts, cancellation and idempotent enqueue.
 */
module TaskQueue {
  import opened Common

  /** Microseconds. */
  type Time = int

  const SECOND := 1_000_000

  datatype TaskStatus = Queued | Running | RetryWait | Succeeded | Failed | Cancelled | DeadLetter {
    predicate IsTerminal() {
      Succeeded? || Failed? || Cancelled? || DeadLetter?
    }

    predicate IsActive() {
      Queued? || Running? || RetryWait?
    }
  }

  /** Idempotency keys: those callers choose, and those the scheduler derives from a fire. */
  datatype Key = Named(text: string) | ForFire(schedule: nat, instant: Time) | ForManual(schedule: nat, fire: nat)

  /** What the request fingerprint covers; `payload` is its canonical JSON text. */
  datatype Request = Request(
    taskType: string,
    payload: string,
    queue: string,
    priority: int,
    maxAttempts: int,
    schedule: Option<nat>,
    availableAt: Option<Time>)
  {
    /** The bounds of the task model. */
    predicate Valid() {
      && 1 <= |taskType| <= 100
      && 1 <= |queue| <= 100
      && 0 <= priority <= 100
      && 1 <= maxAttempts <= 100
    }
  }

  datatype Task = Task(
    request: Request,
    key: Option<Key>,
    status: TaskStatus,
    attempts: nat,
    availableAt: Time,
    leaseOwner: Option<string>,
    leaseToken: Option<nat>,
    leaseExpiresAt: Option<Time>,
    heartbeatAt: Option<Time>,
    cancelRequested: bool,
    result: Option<string>,
    errorCode: Option<string>,
    createdAt: Time,
    startedAt: Option<Time>,
    finishedAt: Option<Time>)

  datatype Error = NotFound | Conflict(detail: string) | LeaseInvalid | Invalid(detail: string)

  // ---------------------------------------------------------------------
  // Retry delays
  // ---------------------------------------------------------------------

  datatype RetryPolicy = RetryPolicy(baseSeconds: real, maximumSeconds: real, jitterRatio: real)

  const DEFAULT_POLICY := RetryPolicy(1.0, 300.0, 0.2)

  function Doubled(x: real, n: nat): real {
    if n == 0 then x else 2.0 * Doubled(x, n - 1)
  }

  function Nominal(policy: RetryPolicy, attempt: nat): real
    requires 1 <= attempt
  {
    var grown := Doubled(policy.baseSeconds, attempt - 1);
    if grown < policy.maximumSeconds then grown else policy.maximumSeconds
  }

  function Scaled(x: real, factor: real): real {
    x * factor
  }

  /** `RetryPolicy.delay` */
  function Delay(policy: RetryPolicy, attempt: nat, entropy: real): real
    requires 1 <= attempt && 0.0 <= entropy <= 1.0
  {
    var base := Nominal(policy, attempt);
    var delay := base + Scaled(Scaled(base, policy.jitterRatio), 2.0 * entropy - 1.0);
    if delay < 0.0 then 0.0 else delay
  }

  lemma {:induction false} DoubledGrows(x: real, n: nat)
    requires 0.0 <= x
    ensures 0.0 <= x <= Doubled(x, n) <= Doubled(x, n + 1)
  {
    if n > 0 {
      DoubledGrows(x, n - 1);
    }
  }

  lemma NominalBounds(policy: RetryPolicy, attempt: nat)
    requires 1 <= attempt && 0.0 <= policy.baseSeconds && 0.0 <= policy.maximumSeconds
    ensures 0.0 <= Nominal(policy, attempt) <= Nominal(policy, attempt + 1) <= policy.maximumSeconds
  {
    DoubledGrows(policy.baseSeconds, attempt - 1);
    DoubledGrows(policy.baseSeconds, attempt);
  }

  /** The delay starts with the base, doubles with every attempt and stops growing at the maximum. */
  lemma {:induction false} NominalDoubles(policy: RetryPolicy, attempt: nat)
    requires 1 <= attempt && 0.0 <= policy.baseSeconds && 0.0 <= policy.maximumSeconds
    ensures Nominal(policy, 1)
         == if policy.baseSeconds < policy.maximumSeconds then policy.baseSeconds else policy.maximumSeconds
    ensures var twice := Nominal(policy, attempt) + Nominal(policy, attempt);
            Nominal(policy, attempt + 1) == if twice < policy.maximumSeconds then twice else policy.maximumSeconds
  {
    DoubledGrows(policy.baseSeconds, attempt - 1);
  }

  /** Jitter takes off its full share at no entropy, nothing in the middle, and adds the share at full entropy. */
  lemma DelaySpread(policy: RetryPolicy, attempt: nat)
    requires 1 <= attempt && 0.0 <= policy.baseSeconds && 0.0 <= policy.maximumSeconds
    requires 0.0 <= policy.jitterRatio <= 1.0
    ensures Delay(policy, attempt, 0.5) == Nominal(policy, attempt)
    ensures Delay(policy, attempt, 0.0) == Nominal(policy, attempt) * (1.0 - policy.jitterRatio)
    ensures Delay(policy, attempt, 1.0) == Nominal(policy, attempt) * (1.0 + policy.jitterRatio)
  {
    hide Nominal;
    NominalBounds(policy, attempt);
    var base := Nominal(policy, attempt);
    assert base * (1.0 - policy.jitterRatio) == base - base * policy.jitterRatio >= 0.0 by {
      ScaledBetween(base, policy.jitterRatio);
    }
    assert base * (1.0 + policy.jitterRatio) == base + base * policy.jitterRatio;
  }

  /** By default the first retry waits one second, from the tenth on five minutes, give or take a fifth. */
  lemma DefaultDelays(attempt: nat, entropy: real)
    requires 1 <= attempt && 0.0 <= entropy <= 1.0
    ensures Delay(DEFAULT_POLICY, 1, entropy) == 0.8 + 0.4 * entropy
    ensures 10 <= attempt ==> Delay(DEFAULT_POLICY, attempt, entropy) == 240.0 + 120.0 * entropy
  {
    if 10 <= attempt {
      LateDoubling(attempt - 1);
    }
  }

  lemma {:induction false} LateDoubling(n: nat)
    requires 9 <= n
    ensures Doubled(1.0, n) >= 512.0
  {
    if n == 9 {
      assert Doubled(1.0, 3) == 8.0;
      assert Doubled(1.0, 6) == 64.0;
    } else {
      LateDoubling(n - 1);
    }
  }

  lemma ScaledBetween(x: real, factor: real)
    requires 0.0 <= x && -1.0 <= factor <= 1.0
    ensures -x <= Scaled(x, factor) <= x
    ensures 0.0 <= factor ==> 0.0 <= Scaled(x, factor)
  {
  }

  /** Jitter stays within its share of a nominal delay that never shrinks and never passes the maximum. */
  lemma DelayBounds(policy: RetryPolicy, attempt: nat, entropy: real)
    requires 1 <= attempt && 0.0 <= entropy <= 1.0
    requires 0.0 <= policy.baseSeconds && 0.0 <= policy.maximumSeconds && 0.0 <= policy.jitterRatio <= 1.0
    ensures var base := Nominal(policy, attempt);
            var share := Scaled(base, policy.jitterRatio);
            && base - share <= Delay(policy, attempt, entropy) <= base + share <= 2.0 * base
            && 0.0 <= base <= Nominal(policy, attempt + 1) <= policy.maximumSeconds
  {
    hide Nominal, Scaled;
    NominalBounds(policy, attempt);
    var base := Nominal(policy, attempt);
    ScaledBetween(base, policy.jitterRatio);
    ScaledBetween(Scaled(base, policy.jitterRatio), 2.0 * entropy - 1.0);
  }

  function Micros(seconds: real): Time {
    (seconds * 1_000_000.0 + 0.5).Floor
  }

  /** The nearest microsecond. */
  lemma MicrosIsNearest(seconds: real)
    ensures Micros(seconds) as real - 0.5 <= seconds * 1_000_000.0 <= Micros(seconds) as real + 0.5
  {
  }

  /** A retry never becomes due before the failure it follows. */
  lemma RetryIsLater(policy: RetryPolicy, attempt: nat, entropy: real)
    requires 1 <= attempt && 0.0 <= entropy <= 1.0
    ensures 0 <= Micros(Delay(policy, attempt, entropy))
  {
    hide Nominal, Scaled;
  }

  /** One draw of randomness per task. */
  type Entropy = nat -> real

  ghost predicate UnitInterval(entropy: Entropy) {
    forall id :: 0.0 <= entropy(id) <= 1.0
  }

  // ---------------------------------------------------------------------
  // Transitions of one task
  // ---------------------------------------------------------------------

  function NewTask(request: Request, key: Option<Key>, now: Time): Task {
    Task(request, key, Queued, 0, request.availableAt.GetOr(now), None, None, None, None, false, None, None, now, None,
         None)
  }

  function Unleased(t: Task): Task {
    t.(leaseOwner := None, leaseToken := None, leaseExpiresAt := None, heartbeatAt := None)
  }

  function Claimed(t: Task, worker: string, token: nat, leaseSeconds: int, now: Time): Task {
    t.(status := Running, attempts := t.attempts + 1, leaseOwner := Some(worker), leaseToken := Some(token),
       leaseExpiresAt := Some(now + leaseSeconds * SECOND), heartbeatAt := Some(now),
       startedAt := if t.startedAt.Some? then t.startedAt else Some(now))
  }

  function Renewed(t: Task, leaseSeconds: int, now: Time): Task {
    t.(heartbeatAt := Some(now), leaseExpiresAt := Some(now + leaseSeconds * SECOND))
  }

  function Completed(t: Task, result: string, now: Time): Task {
    Unleased(t.(status := if t.cancelRequested then Cancelled else Succeeded,
                result := if t.cancelRequested then None else Some(result),
                finishedAt := Some(now)))
  }

  /**
    What becomes of an attempt that did not complete; a pending cancellation dominates. A stored running task has an
    attempt.
   */
  function Retried(policy: RetryPolicy, t: Task, entropy: real, now: Time): Task
    requires 0.0 <= entropy <= 1.0
  {
    Unleased(
      if t.cancelRequested then t.(status := Cancelled, finishedAt := Some(now))
      else if t.attempts < t.request.maxAttempts then
        t.(status := RetryWait, availableAt := now + Micros(Delay(policy, Max(1, t.attempts), entropy)))
      else t.(status := DeadLetter, finishedAt := Some(now)))
  }

  function FailedWith(policy: RetryPolicy, t: Task, errorCode: string, retryable: bool, entropy: real, now: Time): Task
    requires 0.0 <= entropy <= 1.0
  {
    var u := t.(errorCode := Some(errorCode));
    if retryable || t.cancelRequested then Retried(policy, u, entropy, now)
    else Unleased(u.(status := Failed, finishedAt := Some(now)))
  }

  predicate Expired(t: Task, now: Time) {
    t.status.Running? && t.leaseExpiresAt.Some? && t.leaseExpiresAt.value <= now
  }

  /** `_recover_expired_locked` on one task. */
  function Recovered(policy: RetryPolicy, t: Task, entropy: real, now: Time): Task
    requires 0.0 <= entropy <= 1.0
  {
    if Expired(t, now) then Retried(policy, t.(errorCode := Some("lease_expired")), entropy, now) else t
  }

  function CancelAsked(t: Task, now: Time): Task {
    if t.status.Queued? || t.status.RetryWait? then
      Unleased(t.(status := Cancelled, cancelRequested := true, finishedAt := Some(now)))
    else if t.status.Running? then t.(cancelRequested := true)
    else t
  }

  function CancelConfirmed(t: Task, now: Time): Task {
    Unleased(t.(status := Cancelled, finishedAt := Some(now)))
  }

  /** `_require_valid_lease` */
  predicate Holds(t: Task, worker: string, token: nat, now: Time) {
    && t.status.Running?
    && t.leaseOwner == Some(worker)
    && t.leaseToken == Some(token)
    && t.leaseExpiresAt.Some? && now < t.leaseExpiresAt.value
  }

  predicate Eligible(t: Task, queues: set<string>, now: Time) {
    && t.request.queue in queues
    && (t.status.Queued? || t.status.RetryWait?)
    && t.availableAt <= now
    && !t.cancelRequested
  }

  /** The claim order: higher priority, then earlier due, then older, then the smaller identifier. */
  predicate Sooner(x: Task, xId: nat, y: Task, yId: nat) {
    || x.request.priority > y.request.priority
    || (x.request.priority == y.request.priority
        && (|| x.availableAt < y.availableAt
            || (x.availableAt == y.availableAt
                && (x.createdAt < y.createdAt || (x.createdAt == y.createdAt && xId < yId)))))
  }

  /**
    No task of lower priority comes first; among equal priorities none that is due later; then none that is younger;
    then none with the greater identifier.
   */
  predicate Precedes(x: Task, xId: nat, y: Task, yId: nat) {
    && y.request.priority <= x.request.priority
    && (y.request.priority == x.request.priority ==>
          && x.availableAt <= y.availableAt
          && (x.availableAt == y.availableAt ==>
                && x.createdAt <= y.createdAt
                && (x.createdAt == y.createdAt ==> xId < yId)))
  }

  lemma SoonerExactlyWhen(x: Task, xId: nat, y: Task, yId: nat)
    ensures Sooner(x, xId, y, yId) <==> Precedes(x, xId, y, yId)
  {
  }

  /** The shape every stored task has. */
  predicate TaskInv(t: Task) {
    && t.request.Valid()
    && t.attempts <= t.request.maxAttempts
    && (t.status.Running? <==> t.leaseOwner.Some?)
    && (t.status.Running? <==> t.leaseToken.Some?)
    && (t.status.Running? <==> t.leaseExpiresAt.Some?)
    && (t.status.Running? <==> t.heartbeatAt.Some?)
    && (t.status.Queued? ==> t.attempts == 0 && !t.cancelRequested)
    && (t.status.Running? ==> 1 <= t.attempts)
    && (t.status.RetryWait? ==> 1 <= t.attempts < t.request.maxAttempts && !t.cancelRequested)
    && (t.status.DeadLetter? ==> t.attempts == t.request.maxAttempts)
    && (t.status.Cancelled? <==> t.status.IsTerminal() && t.cancelRequested)
    && (t.finishedAt.Some? <==> t.status.IsTerminal())
    && (t.result.Some? <==> t.status.Succeeded?)
    && (t.startedAt.Some? <==> 1 <= t.attempts)
  }

  /** How a task may change: identity stays, ends and cancellation requests are final, attempts only grow. */
  predicate TaskEvolves(t: Task, u: Task) {
    && u.request == t.request && u.key == t.key && u.createdAt == t.createdAt
    && t.attempts <= u.attempts
    && (t.cancelRequested ==> u.cancelRequested)
    && (t.status.IsTerminal() ==> u == t)
    && (u.status.Queued? ==> t.status.Queued?)
  }

  // ---------------------------------------------------------------------
  // Queues
  // ---------------------------------------------------------------------

  /**
    The two dictionaries of the queue, and two records of the past: `claims` holds the tokens each task was
    claimed with, in order, and `issued` says for every token ever drawn which claim it was drawn for.
   */
  datatype Queue = Queue(
    tasks: map<nat, Task>,
    keys: map<(string, Key), (nat, Request)>,
    claims: map<nat, seq<nat>>,
    issued: map<nat, (nat, nat)>)

  const EMPTY := Queue(map[], map[], map[], map[])

  datatype Call =
    | Enqueue(id: nat, request: Request, key: Option<Key>)
    | Claim(worker: string, queues: set<string>, leaseSeconds: int, token: nat)
    | Heartbeat(id: nat, worker: string, token: nat, leaseSeconds: int)
    | Complete(id: nat, worker: string, token: nat, result: string)
    | Fail(id: nat, worker: string, token: nat, errorCode: string, retryable: bool)
    | RequestCancel(id: nat)
    | AcknowledgeCancel(id: nat, worker: string, token: nat)
    | Recover
  {
    /** A call of anyone but the scheduler, who alone marks tasks with a schedule and derives keys from fires. */
    predicate IsForeign() {
      Enqueue? ==> request.schedule.None? && (key.Some? ==> key.value.Named?)
    }
  }

  /** Claims of a task are counted by its attempts, and a running task is leased to its latest claim. */
  ghost predicate RowInv(id: nat, t: Task, claims: seq<nat>, issued: map<nat, (nat, nat)>) {
    && TaskInv(t)
    && |claims| == t.attempts
    && (t.status.Running? ==> t.leaseToken == Some(claims[|claims| - 1]))
    && forall i | 0 <= i < |claims| :: claims[i] in issued && issued[claims[i]] == (id, i)
  }

  /** Every key names the one task created for it. */
  ghost predicate KeysConsistent(tasks: map<nat, Task>, keys: map<(string, Key), (nat, Request)>) {
    && (forall k | k in keys ::
          && keys[k].0 in tasks
          && tasks[keys[k].0].request == keys[k].1
          && tasks[keys[k].0].key == Some(k.1)
          && k.0 == keys[k].1.taskType)
    && (forall id | id in tasks && tasks[id].key.Some? ::
          var k := (tasks[id].request.taskType, tasks[id].key.value);
          k in keys && keys[k].0 == id)
  }

  ghost predicate Inv(q: Queue) {
    && q.claims.Keys == q.tasks.Keys
    && (forall id {:trigger q.tasks[id]} {:trigger q.claims[id]} | id in q.tasks ::
          RowInv(id, q.tasks[id], q.claims[id], q.issued))
    && KeysConsistent(q.tasks, q.keys)
  }

  ghost predicate Evolves(p: Queue, q: Queue) {
    && p.claims.Keys == p.tasks.Keys && q.claims.Keys == q.tasks.Keys
    && (forall id {:trigger q.tasks[id]} {:trigger p.tasks[id]} | id in p.tasks ::
          id in q.tasks && TaskEvolves(p.tasks[id], q.tasks[id]) && p.claims[id] <= q.claims[id])
    && (forall k | k in p.keys :: k in q.keys && q.keys[k] == p.keys[k])
  }

  /** Only the row of `id` changes. */
  function WithTask(q: Queue, id: nat, t: Task): Queue {
    q.(tasks := q.tasks[id := t])
  }

  function RecoverAll(policy: RetryPolicy, q: Queue, entropy: Entropy, now: Time): Queue
    requires UnitInterval(entropy)
  {
    q.(tasks := map id | id in q.tasks :: Recovered(policy, q.tasks[id], entropy(id), now))
  }

  function Enqueued(q: Queue, id: nat, request: Request, key: Option<Key>, now: Time): Queue {
    Queue(q.tasks[id := NewTask(request, key, now)],
          if key.Some? then q.keys[(request.taskType, key.value) := (id, request)] else q.keys,
          q.claims[id := []], q.issued)
  }

  ghost predicate FirstEligible(q: Queue, queues: set<string>, now: Time, id: nat) {
    && id in q.tasks && Eligible(q.tasks[id], queues, now)
    && forall other | other in q.tasks && Eligible(q.tasks[other], queues, now) && other != id ::
         Sooner(q.tasks[id], id, q.tasks[other], other)
  }

  function ClaimedBy(q: Queue, id: nat, worker: string, token: nat, leaseSeconds: int, now: Time): Queue
    requires id in q.tasks && id in q.claims
  {
    q.(tasks := q.tasks[id := Claimed(q.tasks[id], worker, token, leaseSeconds, now)],
       claims := q.claims[id := q.claims[id] + [token]],
       issued := q.issued[token := (id, |q.claims[id]|)])
  }

  /** Nothing that waits in a subscribed queue is due, unless it was asked to stop. */
  predicate NoneReady(tasks: map<nat, Task>, queues: set<string>, now: Time) {
    forall id | id in tasks && tasks[id].status in {Queued, RetryWait} && tasks[id].request.queue in queues ::
      tasks[id].cancelRequested || now < tasks[id].availableAt
  }

  /** Task `id`, which was free, is out on a new attempt until `until`; it comes before all that still wait. */
  predicate TookFirst(before: map<nat, Task>, after: map<nat, Task>, id: nat, queues: set<string>, until: Time,
                      now: Time)
  {
    && id in before && id in after
    && var t, u := before[id], after[id];
    && (|| t.status in {Queued, RetryWait}
        || (t.status.Running? && t.leaseExpiresAt.Some? && t.leaseExpiresAt.value <= now))
    && u.request == t.request && u.attempts == t.attempts + 1 && u.status.Running? && u.leaseExpiresAt == Some(until)
    && u.request.queue in queues && u.availableAt <= now && !u.cancelRequested
    && forall other | other in after && after[other].status in {Queued, RetryWait} ::
         after[other].request.queue in queues && after[other].availableAt <= now && !after[other].cancelRequested
         ==> Precedes(u, id, after[other], other)
  }

  lemma ClaimTakesFirst(policy: RetryPolicy, q: Queue, queues: set<string>, id: nat, worker: string, token: nat,
                        leaseSeconds: int, entropy: Entropy, now: Time)
    requires UnitInterval(entropy) && id in q.claims
    requires FirstEligible(RecoverAll(policy, q, entropy, now), queues, now, id)
    ensures TookFirst(q.tasks,
                      ClaimedBy(RecoverAll(policy, q, entropy, now), id, worker, token, leaseSeconds, now).tasks,
                      id, queues, now + leaseSeconds * 1_000_000, now)
  {
    hide Recovered, Sooner, Precedes;
    var s := RecoverAll(policy, q, entropy, now);
    RecoveredWas(policy, q.tasks[id], entropy(id), now);
    forall other | other in s.tasks && Eligible(s.tasks[other], queues, now) && other != id
      ensures Precedes(s.tasks[id], id, s.tasks[other], other)
    {
      SoonerExactlyWhen(s.tasks[id], id, s.tasks[other], other);
    }
    StillPrecedes(s.tasks[id], worker, token, leaseSeconds, now);
  }

  /** Being claimed does not change a task's place in the order. */
  lemma StillPrecedes(t: Task, worker: string, token: nat, leaseSeconds: int, now: Time)
    ensures forall id, u, other :: Precedes(t, id, u, other) ==>
              Precedes(Claimed(t, worker, token, leaseSeconds, now), id, u, other)
  {
  }

  /** Recovery leaves waiting tasks alone and makes only tasks with an expired lease wait. */
  lemma RecoveredWas(policy: RetryPolicy, t: Task, entropy: real, now: Time)
    requires 0.0 <= entropy <= 1.0
    ensures var u := Recovered(policy, t, entropy, now);
            && u.request == t.request && u.attempts == t.attempts
            && (u.status in {Queued, RetryWait} ==>
                  t.status in {Queued, RetryWait}
                  || (t.status.Running? && t.leaseExpiresAt.Some? && t.leaseExpiresAt.value <= now))
  {
    hide Delay, Micros;
  }

  lemma NoneEligible(tasks: map<nat, Task>, queues: set<string>, now: Time)
    requires forall id | id in tasks :: !Eligible(tasks[id], queues, now)
    ensures NoneReady(tasks, queues, now)
  {
  }

  /** One call that took effect; calls that raise leave the queue alone. */
  ghost predicate Next(policy: RetryPolicy, q: Queue, call: Call, entropy: Entropy, now: Time, r: Queue)
    requires UnitInterval(entropy)
  {
    || r == q
    || match call
       case Enqueue(id, request, key) =>
         && id !in q.tasks && request.Valid()
         && (key.Some? ==> (request.taskType, key.value) !in q.keys)
         && r == Enqueued(q, id, request, key, now)
       case Claim(worker, queues, leaseSeconds, token) =>
         var s := RecoverAll(policy, q, entropy, now);
         && 1 <= leaseSeconds && token !in q.issued
         && if exists id :: id in s.tasks && Eligible(s.tasks[id], queues, now)
            then exists id | id in s.tasks && id in s.claims ::
              FirstEligible(s, queues, now, id) && r == ClaimedBy(s, id, worker, token, leaseSeconds, now)
            else r == s
       case Heartbeat(id, worker, token, leaseSeconds) =>
         && id in q.tasks && Holds(q.tasks[id], worker, token, now) && 1 <= leaseSeconds
         && r == WithTask(q, id, Renewed(q.tasks[id], leaseSeconds, now))
       case Complete(id, worker, token, result) =>
         && id in q.tasks && Holds(q.tasks[id], worker, token, now)
         && r == WithTask(q, id, Completed(q.tasks[id], result, now))
       case Fail(id, worker, token, errorCode, retryable) =>
         && id in q.tasks && Holds(q.tasks[id], worker, token, now)
         && r == WithTask(q, id, FailedWith(policy, q.tasks[id], errorCode, retryable, entropy(id), now))
       case RequestCancel(id) =>
         id in q.tasks && r == WithTask(q, id, CancelAsked(q.tasks[id], now))
       case AcknowledgeCancel(id, worker, token) =>
         && id in q.tasks && Holds(q.tasks[id], worker, token, now) && q.tasks[id].cancelRequested
         && r == WithTask(q, id, CancelConfirmed(q.tasks[id], now))
       case Recover => r == RecoverAll(policy, q, entropy, now)
  }

  // ---------------------------------------------------------------------
  // What every call keeps
  // ---------------------------------------------------------------------

  /** Changing one task without claiming it. */
  lemma WithTaskKeeps(q: Queue, id: nat, t: Task)
    requires Inv(q) && id in q.tasks && TaskInv(t) && TaskEvolves(q.tasks[id], t) && t.attempts == q.tasks[id].attempts
    requires t.status.Running? ==> q.tasks[id].status.Running? && t.leaseToken == q.tasks[id].leaseToken
    ensures Inv(WithTask(q, id, t)) && Evolves(q, WithTask(q, id, t))
  {
    hide TaskInv, KeysConsistent;
    SameKeys(q.tasks, q.tasks[id := t], q.keys);
  }

  lemma SameKeys(before: map<nat, Task>, after: map<nat, Task>, keys: map<(string, Key), (nat, Request)>)
    requires KeysConsistent(before, keys) && after.Keys == before.Keys
    requires forall id {:trigger after[id]} | id in before ::
               after[id].request == before[id].request && after[id].key == before[id].key
    ensures KeysConsistent(after, keys)
  {
  }

  lemma RecoveredKeeps(policy: RetryPolicy, t: Task, entropy: real, now: Time)
    requires TaskInv(t) && 0.0 <= entropy <= 1.0
    ensures var u := Recovered(policy, t, entropy, now);
            && TaskInv(u) && TaskEvolves(t, u) && u.attempts == t.attempts
            && (u.status.Running? ==> u == t)
            && !Expired(u, now)
            && (u != t && u.status.RetryWait? ==> now <= u.availableAt)
  {
    hide Delay, Micros;
    RetryIsLater(policy, Max(1, t.attempts), entropy);
  }

  lemma RecoverKeeps(policy: RetryPolicy, q: Queue, entropy: Entropy, now: Time)
    requires UnitInterval(entropy) && Inv(q)
    ensures Inv(RecoverAll(policy, q, entropy, now)) && Evolves(q, RecoverAll(policy, q, entropy, now))
  {
    hide TaskInv, Recovered, KeysConsistent;
    var r := RecoverAll(policy, q, entropy, now);
    forall id | id in q.tasks
      ensures && TaskInv(r.tasks[id]) && TaskEvolves(q.tasks[id], r.tasks[id])
              && r.tasks[id].attempts == q.tasks[id].attempts
              && (r.tasks[id].status.Running? ==> r.tasks[id] == q.tasks[id])
    {
      assert RowInv(id, q.tasks[id], q.claims[id], q.issued);
      RecoveredKeeps(policy, q.tasks[id], entropy(id), now);
    }
    SameKeys(q.tasks, r.tasks, q.keys);
  }

  lemma EnqueueKeeps(q: Queue, id: nat, request: Request, key: Option<Key>, now: Time)
    requires Inv(q) && id !in q.tasks && request.Valid()
    requires key.Some? ==> (request.taskType, key.value) !in q.keys
    ensures Inv(Enqueued(q, id, request, key, now)) && Evolves(q, Enqueued(q, id, request, key, now))
  {
    hide RowInv, KeysConsistent;
    var t := NewTask(request, key, now);
    NewRow(id, t, q.issued);
    NewKey(q.tasks, q.keys, id, t);
  }

  lemma NewRow(id: nat, t: Task, issued: map<nat, (nat, nat)>)
    requires t.request.Valid() && t == NewTask(t.request, t.key, t.createdAt)
    ensures RowInv(id, t, [], issued)
  {
  }

  lemma NewKey(tasks: map<nat, Task>, keys: map<(string, Key), (nat, Request)>, id: nat, t: Task)
    requires KeysConsistent(tasks, keys) && id !in tasks
    requires t.key.Some? ==> (t.request.taskType, t.key.value) !in keys
    ensures KeysConsistent(tasks[id := t],
                           if t.key.Some? then keys[(t.request.taskType, t.key.value) := (id, t.request)] else keys)
  {
  }

  /** Claiming with a fresh token; the tokens of other claims stay what they were. */
  lemma ClaimKeeps(q: Queue, id: nat, worker: string, token: nat, leaseSeconds: int, now: Time)
    requires Inv(q) && id in q.tasks && (q.tasks[id].status.Queued? || q.tasks[id].status.RetryWait?)
             && token !in q.issued
    ensures var r := ClaimedBy(q, id, worker, token, leaseSeconds, now);
            Inv(r) && Evolves(q, r)
  {
    hide RowInv, KeysConsistent;
    var r := ClaimedBy(q, id, worker, token, leaseSeconds, now);
    ClaimedRow(id, q.tasks[id], q.claims[id], q.issued, worker, token, leaseSeconds, now);
    forall other | other in q.tasks && other != id
      ensures RowInv(other, r.tasks[other], r.claims[other], r.issued)
    {
      OtherRow(other, q.tasks[other], q.claims[other], q.issued, token, (id, |q.claims[id]|));
    }
    SameKeys(q.tasks, r.tasks, q.keys);
  }

  lemma ClaimedRow(id: nat, t: Task, claims: seq<nat>, issued: map<nat, (nat, nat)>, worker: string, token: nat,
                   leaseSeconds: int, now: Time)
    requires RowInv(id, t, claims, issued) && (t.status.Queued? || t.status.RetryWait?) && token !in issued
    ensures var u := Claimed(t, worker, token, leaseSeconds, now);
            RowInv(id, u, claims + [token], issued[token := (id, |claims|)]) && TaskEvolves(t, u)
  {
  }

  lemma OtherRow(id: nat, t: Task, claims: seq<nat>, issued: map<nat, (nat, nat)>, token: nat, drawn: (nat, nat))
    requires RowInv(id, t, claims, issued) && token !in issued
    ensures RowInv(id, t, claims, issued[token := drawn])
  {
    hide TaskInv;
  }

  lemma EvolvesTransitive(p: Queue, q: Queue, r: Queue)
    requires Evolves(p, q) && Evolves(q, r)
    ensures Evolves(p, r)
  {
    forall id | id in p.tasks
      ensures id in r.tasks && TaskEvolves(p.tasks[id], r.tasks[id]) && p.claims[id] <= r.claims[id]
    {
      assert id in q.tasks && p.claims[id] <= q.claims[id];
      assert id in r.tasks && q.claims[id] <= r.claims[id];
    }
  }

  /** The changes a lease holder makes to its task. */
  lemma SettleKeeps(policy: RetryPolicy, t: Task, worker: string, token: nat, entropy: real, now: Time, result: string,
                    errorCode: string,
                    retryable: bool, leaseSeconds: int)
    requires TaskInv(t) && Holds(t, worker, token, now) && 0.0 <= entropy <= 1.0
    ensures var u := Renewed(t, leaseSeconds, now);
            TaskInv(u) && TaskEvolves(t, u) && u.attempts == t.attempts && u.leaseToken == t.leaseToken
    ensures var u := Completed(t, result, now);
            TaskInv(u) && TaskEvolves(t, u) && u.attempts == t.attempts && u.status.IsTerminal()
    ensures var u := FailedWith(policy, t, errorCode, retryable, entropy, now);
            && TaskInv(u) && TaskEvolves(t, u) && u.attempts == t.attempts && !u.status.Running?
            && (u.status.RetryWait? <==> retryable && !t.cancelRequested && t.attempts < t.request.maxAttempts)
            && (u.status.RetryWait? ==> now <= u.availableAt)
            && (u.status.Cancelled? <==> t.cancelRequested)
    ensures t.cancelRequested ==> var u := CancelConfirmed(t, now);
            TaskInv(u) && TaskEvolves(t, u) && u.attempts == t.attempts && u.status.IsTerminal()
  {
    hide Delay, Micros;
    RetryIsLater(policy, Max(1, t.attempts), entropy);
  }

  lemma AskKeeps(t: Task, now: Time)
    requires TaskInv(t)
    ensures var u := CancelAsked(t, now);
            && TaskInv(u) && TaskEvolves(t, u) && u.attempts == t.attempts
            && (u.status.Running? ==> t.status.Running? && u.leaseToken == t.leaseToken)
            && (u.status.IsActive() ==> u.cancelRequested)
  {
  }

  lemma NextKeeps(policy: RetryPolicy, q: Queue, call: Call, entropy: Entropy, now: Time, r: Queue)
    requires UnitInterval(entropy) && Inv(q) && Next(policy, q, call, entropy, now, r)
    ensures Inv(r) && Evolves(q, r)
  {
    if r == q {
      EvolvesReflexive(q);
    } else if call.Claim? {
      ClaimStepKeeps(policy, q, call, entropy, now, r);
    } else {
      OtherStepKeeps(policy, q, call, entropy, now, r);
    }
  }

  lemma EvolvesReflexive(q: Queue)
    requires q.claims.Keys == q.tasks.Keys
    ensures Evolves(q, q)
  {
  }

  lemma ClaimStepKeeps(policy: RetryPolicy, q: Queue, call: Call, entropy: Entropy, now: Time, r: Queue)
    requires UnitInterval(entropy) && Inv(q) && Next(policy, q, call, entropy, now, r) && call.Claim?
    ensures Inv(r) && Evolves(q, r)
  {
    hide RowInv, KeysConsistent, Recovered, FirstEligible;
    RecoverKeeps(policy, q, entropy, now);
    var s := RecoverAll(policy, q, entropy, now);
    if r == q {
    } else if exists id :: id in s.tasks && Eligible(s.tasks[id], call.queues, now) {
      var id :| id in s.tasks && id in s.claims && FirstEligible(s, call.queues, now, id)
             && r == ClaimedBy(s, id, call.worker, call.token, call.leaseSeconds, now);
      FirstWaits(s, call.queues, now, id);
      ClaimKeeps(s, id, call.worker, call.token, call.leaseSeconds, now);
      EvolvesTransitive(q, s, r);
    }
  }

  lemma FirstWaits(q: Queue, queues: set<string>, now: Time, id: nat)
    requires FirstEligible(q, queues, now, id)
    ensures id in q.tasks && (q.tasks[id].status.Queued? || q.tasks[id].status.RetryWait?)
            && Eligible(q.tasks[id], queues, now)
  {
  }

  lemma OtherStepKeeps(policy: RetryPolicy, q: Queue, call: Call, entropy: Entropy, now: Time, r: Queue)
    requires UnitInterval(entropy) && Inv(q) && Next(policy, q, call, entropy, now, r) && !call.Claim? && r != q
    ensures Inv(r) && Evolves(q, r)
  {
    hide Evolves, TaskInv, TaskEvolves, Completed, Renewed, FailedWith, CancelAsked, CancelConfirmed, KeysConsistent,
         Enqueued, RecoverAll;
    match call
    case Enqueue(id, request, key) => EnqueueKeeps(q, id, request, key, now);
    case Heartbeat(id, worker, token, leaseSeconds) =>
      SettleKeeps(policy, q.tasks[id], worker, token, entropy(id), now, "", "", true, leaseSeconds);
      WithTaskKeeps(q, id, r.tasks[id]);
    case Complete(id, worker, token, result) =>
      SettleKeeps(policy, q.tasks[id], worker, token, entropy(id), now, result, "", true, 1);
      WithTaskKeeps(q, id, r.tasks[id]);
    case Fail(id, worker, token, errorCode, retryable) =>
      SettleKeeps(policy, q.tasks[id], worker, token, entropy(id), now, "", errorCode, retryable, 1);
      WithTaskKeeps(q, id, r.tasks[id]);
    case RequestCancel(id) =>
      AskKeeps(q.tasks[id], now);
      WithTaskKeeps(q, id, r.tasks[id]);
    case AcknowledgeCancel(id, worker, token) =>
      SettleKeeps(policy, q.tasks[id], worker, token, entropy(id), now, "", "", true, 1);
      WithTaskKeeps(q, id, r.tasks[id]);
    case Recover => RecoverKeeps(policy, q, entropy, now);
  }

  // ---------------------------------------------------------------------
  // Tasks of one schedule
  // ---------------------------------------------------------------------

  ghost function ActiveIds(tasks: map<nat, Task>, schedule: nat): set<nat> {
    set id | id in tasks && tasks[id].request.schedule == Some(schedule) && tasks[id].status.IsActive()
  }

  /** Active tasks of a schedule that nobody asked to cancel. */
  ghost function UncancelledIds(tasks: map<nat, Task>, schedule: nat): set<nat> {
    set id | id in tasks && tasks[id].request.schedule == Some(schedule) && tasks[id].status.IsActive()
             && !tasks[id].cancelRequested
  }

  /** What producers and workers may do to the queue between two steps of the scheduler. */
  ghost predicate Foreign(p: Queue, q: Queue) {
    && Evolves(p, q)
    && (forall id | id in q.tasks && id !in p.tasks :: q.tasks[id].request.schedule.None?)
    && (forall k | k in q.keys && k !in p.keys :: k.1.Named?)
  }

  lemma ForeignTransitive(p: Queue, q: Queue, r: Queue)
    requires Foreign(p, q) && Foreign(q, r)
    ensures Foreign(p, r)
  {
    EvolvesTransitive(p, q, r);
    forall id | id in r.tasks && id !in p.tasks
      ensures r.tasks[id].request.schedule.None?
    {
      if id in q.tasks {
        assert TaskEvolves(q.tasks[id], r.tasks[id]);
      }
    }
  }

  /** Producers and workers never activate a task of a schedule, nor take back a cancellation. */
  lemma ForeignNeverActivates(p: Queue, q: Queue, schedule: nat)
    requires Foreign(p, q)
    ensures ActiveIds(q.tasks, schedule) <= ActiveIds(p.tasks, schedule)
    ensures UncancelledIds(q.tasks, schedule) <= UncancelledIds(p.tasks, schedule)
  {
    forall id | id in ActiveIds(q.tasks, schedule)
      ensures id in ActiveIds(p.tasks, schedule)
      ensures id in UncancelledIds(q.tasks, schedule) ==> id in UncancelledIds(p.tasks, schedule)
    {
      assert id in p.tasks && TaskEvolves(p.tasks[id], q.tasks[id]);
    }
  }

  // ---------------------------------------------------------------------
  // Whole histories
  // ---------------------------------------------------------------------

  datatype Issued = Issued(call: Call, entropy: Entropy, now: Time)

  /** Calls of any workers in any order, at any clock readings. */
  ghost predicate History(policy: RetryPolicy, states: seq<Queue>, calls: seq<Issued>) {
    && |states| == |calls| + 1
    && states[0] == EMPTY
    && forall i {:trigger calls[i]} | 0 <= i < |calls| ::
         && UnitInterval(calls[i].entropy)
         && Next(policy, states[i], calls[i].call, calls[i].entropy, calls[i].now, states[i + 1])
  }

  lemma {:induction false} EveryHistoryIsSafe(policy: RetryPolicy, states: seq<Queue>, calls: seq<Issued>, i: nat,
                                              j: nat)
    requires History(policy, states, calls) && i <= j < |states|
    ensures Inv(states[j])
    ensures Evolves(states[i], states[j])
    decreases j
  {
    hide Inv, Evolves, Next;
    if j == 0 {
      EmptyInv();
    } else {
      var step := calls[j - 1];
      EveryHistoryIsSafe(policy, states, calls, Min(i, j - 1), j - 1);
      NextKeeps(policy, states[j - 1], step.call, step.entropy, step.now, states[j]);
      if i == j {
        KeysOf(states[j]);
        EvolvesReflexive(states[j]);
      } else {
        EvolvesTransitive(states[i], states[j - 1], states[j]);
      }
    }
  }

  lemma EmptyInv()
    ensures Inv(EMPTY) && Evolves(EMPTY, EMPTY)
  {
  }

  lemma KeysOf(q: Queue)
    requires Inv(q)
    ensures q.claims.Keys == q.tasks.Keys
  {
  }

  /** What a task looks like at any point of any history, and that an ended task is frozen from there on. */
  lemma TasksStayInShape(policy: RetryPolicy, states: seq<Queue>, calls: seq<Issued>, i: nat, j: nat, id: nat)
    requires History(policy, states, calls) && i <= j < |states| && id in states[i].tasks
    ensures id in states[j].tasks && id in states[j].claims
    ensures var t := states[j].tasks[id];
            && |states[j].claims[id]| == t.attempts <= t.request.maxAttempts
            && (t.status.Running? <==> t.leaseToken.Some? && t.leaseOwner.Some? && t.leaseExpiresAt.Some?)
            && (t.status.RetryWait? ==> 1 <= t.attempts < t.request.maxAttempts)
            && (t.status.DeadLetter? ==> t.attempts == t.request.maxAttempts)
            && (t.status.Cancelled? <==> t.status.IsTerminal() && t.cancelRequested)
    ensures states[i].tasks[id].status.IsTerminal() ==> states[j].tasks[id] == states[i].tasks[id]
  {
    hide Next;
    EveryHistoryIsSafe(policy, states, calls, i, j);
    assert RowInv(id, states[j].tasks[id], states[j].claims[id], states[j].issued);
    assert TaskEvolves(states[i].tasks[id], states[j].tasks[id]);
  }

  /**
    Only the latest claim of a task can renew or settle it: the token of any earlier claim, and of any claim
    of another task, is refused from then on, whatever the clock says.
   */
  lemma OnlyTheLatestClaimSettles(policy: RetryPolicy, states: seq<Queue>, calls: seq<Issued>, i: nat, j: nat, id: nat,
                                  k: nat,
                                  other: nat, worker: string, now: Time)
    requires History(policy, states, calls) && i <= j < |states|
    requires id in states[i].tasks && id in states[i].claims && k < |states[i].claims[id]| && other in states[j].tasks
    requires other != id || k < |states[i].claims[id]| - 1
    ensures !Holds(states[j].tasks[other], worker, states[i].claims[id][k], now)
  {
    hide Next;
    EveryHistoryIsSafe(policy, states, calls, i, j);
    var token := states[i].claims[id][k];
    assert id in states[j].tasks && states[i].claims[id] <= states[j].claims[id];
    assert states[j].claims[id][k] == token;
    assert RowInv(id, states[j].tasks[id], states[j].claims[id], states[j].issued);
    assert RowInv(other, states[j].tasks[other], states[j].claims[other], states[j].issued);
    assert states[j].issued[token] == (id, k);
    var n := |states[j].claims[other]|;
    if n > 0 {
      assert states[j].issued[states[j].claims[other][n - 1]] == (other, n - 1);
    }
  }

  /** Asking to cancel wins over every other outcome. */
  lemma CancellationDominates(policy: RetryPolicy, states: seq<Queue>, calls: seq<Issued>, i: nat, j: nat, id: nat)
    requires History(policy, states, calls) && i <= j < |states|
    requires id in states[i].tasks && states[i].tasks[id].cancelRequested
    ensures id in states[j].tasks && (states[j].tasks[id].status.Running? || states[j].tasks[id].status.Cancelled?)
  {
    hide Next;
    EveryHistoryIsSafe(policy, states, calls, i, j);
    assert RowInv(id, states[j].tasks[id], states[j].claims[id], states[j].issued);
    assert TaskEvolves(states[i].tasks[id], states[j].tasks[id]);
  }
}
