/** The in-memory task queue: dictionaries updated in place under one lock, so every method is one atomic step. */
module InMemoryTaskQueue {
  import opened Common
  import opened TaskQueue

  /** Called with the entropy source of the moment and a fresh identifier or token where the source draws one. */
  class InMemoryTaskQueue {
    const policy: RetryPolicy
    var tasks: map<nat, Task>
    var keys: map<(string, Key), (nat, Request)>
    ghost var claims: map<nat, seq<nat>>
    /** The tokens drawn so far: the generator never draws one twice. */
    var issued: map<nat, (nat, nat)>

    ghost function St(): Queue
      reads this
    {
      Queue(tasks, keys, claims, issued)
    }

    ghost predicate Valid()
      reads this
    {
      Inv(St())
    }

    constructor (policy: RetryPolicy)
      ensures St() == EMPTY && Valid() && this.policy == policy
    {
      this.policy := policy;
      tasks, keys, claims, issued := map[], map[], map[], map[];
      new;
      EmptyInv();
    }

    predicate KeyValid(key: Option<Key>) {
      key.Some? && key.value.Named? ==> 1 <= |key.value.text| <= 200
    }

    method WithinBounds(request: Request, key: Option<Key>) returns (acceptable: bool)
      ensures acceptable <==> request.Valid() && KeyValid(key)
    {
      if |request.taskType| == 0 || |request.taskType| > 100 || |request.queue| == 0 || |request.queue| > 100 {
        return false;
      }
      if request.priority < 0 || request.priority > 100 || request.maxAttempts < 1 || request.maxAttempts > 100 {
        return false;
      }
      return key.None? || !key.value.Named? || (key.value.text != "" && |key.value.text| <= 200);
    }

    /** `enqueue`: a known key answers with the task it created, or raises when the input differs. */
    method Enqueue(request: Request, key: Option<Key>, id: nat, now: Time) returns (result: Result<(nat, bool), Error>)
      requires Valid() && id !in tasks
      modifies this
      ensures Valid() && Evolves(old(St()), St())
      ensures result.Err? ==> St() == old(St())
      ensures key.Some? && (request.taskType, key.value) in old(keys) ==>
                var (first, input) := old(keys)[(request.taskType, key.value)];
                && St() == old(St())
                && (result.Ok? <==> input == request)
                && (result.Ok? ==> result.value == (first, true) && first in tasks && tasks[first].request == request)
      ensures !(key.Some? && (request.taskType, key.value) in old(keys)) ==>
                && (result.Ok? <==> request.Valid() && KeyValid(key))
                && (result.Ok? ==> result.value == (id, false) && St() == Enqueued(old(St()), id, request, key, now))
      ensures result.Ok? && !result.value.1 ==>
                && id in tasks && tasks == old(tasks)[id := tasks[id]]
                && var t := tasks[id];
                   && t.request == request && t.key == key && t.status.Queued? && t.attempts == 0
                   && t.createdAt == now
                   && t.availableAt == (if request.availableAt.Some? then request.availableAt.value else now)
    {
      hide RowInv, Evolves, Enqueued;
      EvolvesReflexive(St());
      if key.Some? && (request.taskType, key.value) in keys {
        var (first, input) := keys[(request.taskType, key.value)];
        if input != request {
          return Err(Conflict("task idempotency key was reused with different input"));
        }
        return Ok((first, true));
      }
      var acceptable := WithinBounds(request, key);
      if !acceptable {
        return Err(Invalid("task is out of bounds"));
      }
      EnqueueKeeps(St(), id, request, key, now);
      Insert(request, key, id, now);
      result := Ok((id, false));
    }

    method Insert(request: Request, key: Option<Key>, id: nat, now: Time)
      requires id !in tasks
      modifies this
      ensures St() == Enqueued(old(St()), id, request, key, now)
      ensures id in tasks && tasks == old(tasks)[id := tasks[id]]
      ensures var t := tasks[id];
              && t.request == request && t.key == key && t.status.Queued? && t.attempts == 0
              && t.createdAt == now
              && t.availableAt == (if request.availableAt.Some? then request.availableAt.value else now)
    {
      var dueAt := match request.availableAt case Some(at) => at case None => now;
      tasks := tasks[id := Task(request := request, key := key, status := Queued, attempts := 0, availableAt := dueAt,
                                leaseOwner := None, leaseToken := None, leaseExpiresAt := None, heartbeatAt := None,
                                cancelRequested := false, result := None, errorCode := None, createdAt := now,
                                startedAt := None, finishedAt := None)];
      keys := if key.Some? then keys[(request.taskType, key.value) := (id, request)] else keys;
      claims := claims[id := []];
    }

    /** `RetryPolicy.delay`, in microseconds. */
    method DrawDelay(attempt: nat, entropy: real) returns (delay: Time)
      requires 1 <= attempt && 0.0 <= entropy <= 1.0
      ensures delay == Micros(Delay(policy, attempt, entropy))
    {
      var seconds := policy.baseSeconds;
      for n := 1 to attempt
        invariant seconds == Doubled(policy.baseSeconds, n - 1)
      {
        seconds := 2.0 * seconds;
      }
      if seconds > policy.maximumSeconds {
        seconds := policy.maximumSeconds;
      }
      var share := seconds * policy.jitterRatio;
      assert share == Scaled(seconds, policy.jitterRatio);
      var jitter := share * (2.0 * entropy - 1.0);
      assert jitter == Scaled(share, 2.0 * entropy - 1.0);
      seconds := seconds + jitter;
      if seconds < 0.0 {
        seconds := 0.0;
      }
      delay := (seconds * 1_000_000.0 + 0.5).Floor;
    }

    /** The loop body of `_recover_expired_locked`. */
    method RecoverOne(t: Task, entropy: real, now: Time) returns (u: Task, recovered: bool)
      requires 0.0 <= entropy <= 1.0
      ensures u == Recovered(policy, t, entropy, now) && recovered == Expired(t, now)
    {
      hide Delay, Micros;
      u, recovered := t, false;
      if t.status.Running? && t.leaseExpiresAt.Some? && t.leaseExpiresAt.value <= now {
        u := u.(errorCode := Some("lease_expired"), leaseOwner := None, leaseToken := None, leaseExpiresAt := None,
                heartbeatAt := None);
        recovered := true;
        if t.cancelRequested {
          u := u.(status := Cancelled, finishedAt := Some(now));
        } else if t.attempts < t.request.maxAttempts {
          var delay := DrawDelay(if t.attempts < 1 then 1 else t.attempts, entropy);
          u := u.(status := RetryWait, availableAt := now + delay);
        } else {
          u := u.(status := DeadLetter, finishedAt := Some(now));
        }
      }
    }

    /** The writes of `fail` to a task its worker holds. */
    method FailOne(t: Task, errorCode: string, retryable: bool, entropy: real, now: Time) returns (u: Task)
      requires 0.0 <= entropy <= 1.0
      ensures u == FailedWith(policy, t, errorCode, retryable, entropy, now)
    {
      hide Delay, Micros;
      u := t.(errorCode := Some(errorCode), leaseOwner := None, leaseToken := None, leaseExpiresAt := None,
              heartbeatAt := None);
      if t.cancelRequested {
        u := u.(status := Cancelled, finishedAt := Some(now));
      } else if retryable && t.attempts < t.request.maxAttempts {
        var delay := DrawDelay(if t.attempts < 1 then 1 else t.attempts, entropy);
        u := u.(status := RetryWait, availableAt := now + delay);
      } else if retryable {
        u := u.(status := DeadLetter, finishedAt := Some(now));
      } else {
        u := u.(status := Failed, finishedAt := Some(now));
      }
    }

    /** `_recover_expired_locked`: one pass over all tasks; returns those it changed. */
    method RecoverExpired(entropy: Entropy, now: Time) returns (changed: set<nat>)
      requires Valid() && UnitInterval(entropy)
      modifies this`tasks
      ensures St() == RecoverAll(policy, old(St()), entropy, now)
      ensures Valid() && Evolves(old(St()), St())
      ensures changed == set id | id in old(tasks) && Expired(old(tasks)[id], now)
      ensures forall id | id in tasks :: !Expired(tasks[id], now)
    {
      hide Inv, Evolves, Expired, Recovered;
      ghost var before := St();
      RecoverKeeps(policy, before, entropy, now);
      var all := tasks;
      var todo := tasks.Keys;
      var recovered := tasks;
      changed := {};
      while todo != {}
        invariant todo <= all.Keys && recovered.Keys == all.Keys
        invariant forall id | id in all ::
                    recovered[id] == if id in todo then all[id] else Recovered(policy, all[id], entropy(id), now)
        invariant changed == set id | id in all && id !in todo && Expired(all[id], now)
      {
        var id :| id in todo;
        var u, expired := RecoverOne(all[id], entropy(id), now);
        if expired {
          changed := changed + {id};
        }
        recovered := recovered[id := u];
        todo := todo - {id};
      }
      assert recovered == RecoverAll(policy, before, entropy, now).tasks;
      tasks := recovered;
      forall id | id in tasks
        ensures !Expired(tasks[id], now)
      {
        ShapeOf(before, id);
        RecoveredKeeps(policy, all[id], entropy(id), now);
      }
    }

    lemma ShapeOf(q: Queue, id: nat)
      requires Inv(q) && id in q.tasks
      ensures TaskInv(q.tasks[id]) && id in q.claims && |q.claims[id]| == q.tasks[id].attempts
    {
      assert RowInv(id, q.tasks[id], q.claims[id], q.issued);
    }

    /** `min` over the eligible tasks. */
    method SelectNext(queues: set<string>, now: Time) returns (next: Option<nat>)
      ensures next.None? ==> forall id | id in tasks :: !Eligible(tasks[id], queues, now)
      ensures next.Some? ==> next.value in tasks && FirstEligible(St(), queues, now, next.value)
    {
      next := None;
      var todo := tasks.Keys;
      while todo != {}
        invariant todo <= tasks.Keys
        invariant next.Some? ==> next.value in tasks && next.value !in todo && Eligible(tasks[next.value], queues, now)
        invariant forall id | id in tasks && id !in todo && Eligible(tasks[id], queues, now) ::
                    next.Some? && (id == next.value || Sooner(tasks[next.value], next.value, tasks[id], id))
      {
        var id :| id in todo;
        var t := tasks[id];
        if t.request.queue in queues && t.status in {Queued, RetryWait} && t.availableAt <= now && !t.cancelRequested {
          if next.None? {
            next := Some(id);
          } else {
            var first := tasks[next.value];
            var earlier :=
              if t.request.priority != first.request.priority then t.request.priority > first.request.priority
              else if t.availableAt != first.availableAt then t.availableAt < first.availableAt
              else if t.createdAt != first.createdAt then t.createdAt < first.createdAt
              else id < next.value;
            if earlier {
              next := Some(id);
            }
          }
        }
        todo := todo - {id};
      }
    }

    /** The writes of `claim` to the task it selected. */
    method Lend(id: nat, worker: string, token: nat, leaseSeconds: int, now: Time)
      requires Valid() && id in tasks && tasks[id].status in {Queued, RetryWait} && token !in issued
      requires 1 <= leaseSeconds
      modifies this
      ensures Valid() && Evolves(old(St()), St())
      ensures id in old(claims) && St() == ClaimedBy(old(St()), id, worker, token, leaseSeconds, now)
      ensures Holds(tasks[id], worker, token, now)
    {
      hide Inv, Evolves;
      ghost var between := St();
      ShapeOf(between, id);
      ClaimKeeps(between, id, worker, token, leaseSeconds, now);
      issued := issued[token := (id, tasks[id].attempts)];
      claims := claims[id := claims[id] + [token]];
      var t := tasks[id];
      t := t.(status := Running, attempts := t.attempts + 1, leaseOwner := Some(worker), leaseToken := Some(token),
              leaseExpiresAt := Some(now + leaseSeconds * 1_000_000), heartbeatAt := Some(now));
      if t.startedAt.None? {
        t := t.(startedAt := Some(now));
      }
      tasks := tasks[id := t];
    }

    /** `claim`: expired leases are recovered first, then the first eligible task is leased. */
    method Claim(worker: string, queues: set<string>, leaseSeconds: int, token: nat, entropy: Entropy, now: Time)
      returns (result: Result<Option<nat>, Error>)
      requires Valid() && UnitInterval(entropy) && token !in issued
      modifies this
      ensures Valid() && Evolves(old(St()), St())
      ensures result.Err? <==> worker == "" || leaseSeconds < 1 || queues == {}
      ensures result.Err? ==> St() == old(St())
      ensures result.Ok? ==>
                Next(policy, old(St()), Call.Claim(worker, queues, leaseSeconds, token), entropy, now, St())
      ensures result.Ok? && result.value.None? ==>
                && St() == RecoverAll(policy, old(St()), entropy, now)
                && forall id | id in tasks :: !Eligible(tasks[id], queues, now)
      ensures result.Ok? && result.value.Some? ==>
                var id := result.value.value;
                && FirstEligible(RecoverAll(policy, old(St()), entropy, now), queues, now, id)
                && id in tasks && Holds(tasks[id], worker, token, now) && claims[id] == old(claims)[id] + [token]
      ensures result.Ok? && result.value.None? ==> NoneReady(tasks, queues, now)
      ensures result.Ok? && result.value.Some? ==>
                TookFirst(old(tasks), tasks, result.value.value, queues, now + leaseSeconds * 1_000_000, now)
    {
      hide Inv, Evolves, Eligible, FirstEligible, RecoverAll, TookFirst, NoneReady;
      KeysOf(St());
      EvolvesReflexive(St());
      if worker == "" || leaseSeconds < 1 {
        return Err(Invalid("worker id and lease duration are required"));
      }
      if queues == {} {
        return Err(Invalid("worker must subscribe to at least one queue"));
      }
      ghost var before := St();
      var changed := RecoverExpired(entropy, now);
      var next := SelectNext(queues, now);
      ghost var between := St();
      KeysOf(between);
      if next.Some? {
        ClaimTakesFirst(policy, before, queues, next.value, worker, token, leaseSeconds, entropy, now);
        FirstWaits(between, queues, now, next.value);
        Lend(next.value, worker, token, leaseSeconds, now);
        EvolvesTransitive(before, between, St());
      } else {
        NoneEligible(tasks, queues, now);
      }
      result := Ok(next);
    }

    /** `_require_valid_lease`: the task a worker may act on. */
    method RequireLease(id: nat, worker: string, token: nat, now: Time) returns (result: Result<Task, Error>)
      ensures result == if id !in tasks then Err(NotFound)
                        else if Holds(tasks[id], worker, token, now) then Ok(tasks[id])
                        else Err(LeaseInvalid)
    {
      if id !in tasks {
        return Err(NotFound);
      }
      var t := tasks[id];
      if t.status != Running || t.leaseOwner != Some(worker) || t.leaseToken != Some(token)
         || t.leaseExpiresAt.None? || t.leaseExpiresAt.value <= now {
        return Err(LeaseInvalid);
      }
      result := Ok(t);
    }

    /** Writes one task back; the caller has shown that its shape and history are kept. */
    method Store(id: nat, t: Task)
      requires Valid() && id in tasks && TaskInv(t) && TaskEvolves(tasks[id], t) && t.attempts == tasks[id].attempts
      requires t.status.Running? ==> tasks[id].status.Running? && t.leaseToken == tasks[id].leaseToken
      modifies this`tasks
      ensures St() == WithTask(old(St()), id, t)
      ensures Valid() && Evolves(old(St()), St())
    {
      hide Inv, Evolves, TaskInv, TaskEvolves;
      WithTaskKeeps(St(), id, t);
      tasks := tasks[id := t];
    }

    method Heartbeat(id: nat, worker: string, token: nat, leaseSeconds: int, now: Time)
      returns (result: Result<Task, Error>)
      requires Valid()
      modifies this`tasks
      ensures Valid() && Evolves(old(St()), St())
      ensures result.Ok? <==> 1 <= leaseSeconds && id in old(tasks) && Holds(old(tasks)[id], worker, token, now)
      ensures result.Ok? ==> St() == WithTask(old(St()), id, Renewed(old(tasks)[id], leaseSeconds, now))
      ensures result.Ok? ==>
                forall later | later < now + leaseSeconds * SECOND :: Holds(result.value, worker, token, later)
      ensures result.Err? ==> St() == old(St())
    {
      hide Evolves, RowInv;
      KeysOf(St());
      EvolvesReflexive(St());
      if leaseSeconds < 1 {
        return Err(Invalid("task lease duration must be positive"));
      }
      var t :- RequireLease(id, worker, token, now);
      ShapeOf(St(), id);
      SettleKeeps(policy, t, worker, token, 0.0, now, "", "", true, leaseSeconds);
      Store(id, t.(heartbeatAt := Some(now), leaseExpiresAt := Some(now + leaseSeconds * 1_000_000)));
      result := Ok(tasks[id]);
    }

    method Complete(id: nat, worker: string, token: nat, value: string, now: Time) returns (result: Result<Task, Error>)
      requires Valid()
      modifies this`tasks
      ensures Valid() && Evolves(old(St()), St())
      ensures result.Ok? <==> id in old(tasks) && Holds(old(tasks)[id], worker, token, now)
      ensures result.Ok? ==> St() == WithTask(old(St()), id, Completed(old(tasks)[id], value, now))
      ensures result.Ok? ==> (result.value.status.Cancelled? <==> old(tasks)[id].cancelRequested)
      ensures result.Ok? ==> (result.value.status.Succeeded? <==> !old(tasks)[id].cancelRequested)
      ensures result.Err? ==> St() == old(St())
    {
      hide Evolves, RowInv;
      KeysOf(St());
      EvolvesReflexive(St());
      var t :- RequireLease(id, worker, token, now);
      ShapeOf(St(), id);
      SettleKeeps(policy, t, worker, token, 0.0, now, value, "", true, 1);
      var u := t.(finishedAt := Some(now), leaseOwner := None, leaseToken := None, leaseExpiresAt := None,
                  heartbeatAt := None);
      if t.cancelRequested {
        u := u.(status := Cancelled, result := None);
      } else {
        u := u.(status := Succeeded, result := Some(value));
      }
      Store(id, u);
      result := Ok(tasks[id]);
    }

    method Fail(id: nat, worker: string, token: nat, errorCode: string, retryable: bool, entropy: real, now: Time)
      returns (result: Result<Task, Error>)
      requires Valid() && 0.0 <= entropy <= 1.0
      modifies this`tasks
      ensures Valid() && Evolves(old(St()), St())
      ensures result.Ok? <==> 1 <= |errorCode| <= 100 && id in old(tasks) && Holds(old(tasks)[id], worker, token, now)
      ensures result.Ok? ==>
                St() == WithTask(old(St()), id, FailedWith(policy, old(tasks)[id], errorCode, retryable, entropy, now))
      ensures result.Ok? ==> var t := old(tasks)[id];
                             && (result.value.status.Cancelled? <==> t.cancelRequested)
                             && (result.value.status.RetryWait?
                                 <==> retryable && !t.cancelRequested && t.attempts < t.request.maxAttempts)
      ensures result.Err? ==> St() == old(St())
    {
      hide Evolves, RowInv, FailedWith;
      KeysOf(St());
      EvolvesReflexive(St());
      if errorCode == "" || |errorCode| > 100 {
        return Err(Invalid("task error code is invalid"));
      }
      var t :- RequireLease(id, worker, token, now);
      ShapeOf(St(), id);
      SettleKeeps(policy, t, worker, token, entropy, now, "", errorCode, retryable, 1);
      var u := FailOne(t, errorCode, retryable, entropy, now);
      Store(id, u);
      result := Ok(tasks[id]);
    }

    /** `request_cancel`: waiting tasks end at once, a running one is flagged, an ended one stays as it is. */
    method RequestCancel(id: nat, now: Time) returns (result: Result<Task, Error>)
      requires Valid()
      modifies this`tasks
      ensures Valid() && Evolves(old(St()), St())
      ensures result.Ok? <==> id in old(tasks)
      ensures result.Ok? ==> St() == WithTask(old(St()), id, CancelAsked(old(tasks)[id], now))
      ensures result.Ok? ==>
                result.value.status.IsTerminal() || (result.value.status.Running? && result.value.cancelRequested)
      ensures result.Err? ==> St() == old(St())
    {
      hide Evolves, RowInv;
      KeysOf(St());
      EvolvesReflexive(St());
      if id !in tasks {
        return Err(NotFound);
      }
      var t := tasks[id];
      ShapeOf(St(), id);
      AskKeeps(t, now);
      var u := t;
      if t.status in {Queued, RetryWait} {
        u := u.(status := Cancelled, cancelRequested := true, finishedAt := Some(now), leaseOwner := None,
                leaseToken := None, leaseExpiresAt := None, heartbeatAt := None);
      } else if t.status.Running? {
        u := u.(cancelRequested := true);
      }
      Store(id, u);
      result := Ok(tasks[id]);
    }

    method AcknowledgeCancel(id: nat, worker: string, token: nat, now: Time) returns (result: Result<Task, Error>)
      requires Valid()
      modifies this`tasks
      ensures Valid() && Evolves(old(St()), St())
      ensures result.Ok?
              <==> id in old(tasks) && Holds(old(tasks)[id], worker, token, now) && old(tasks)[id].cancelRequested
      ensures result.Ok? ==> St() == WithTask(old(St()), id, CancelConfirmed(old(tasks)[id], now))
      ensures result.Ok? ==> result.value.status.Cancelled?
      ensures result.Err? ==> St() == old(St())
    {
      hide Evolves, RowInv;
      KeysOf(St());
      EvolvesReflexive(St());
      var t :- RequireLease(id, worker, token, now);
      if !t.cancelRequested {
        return Err(Conflict("task cancellation was not requested"));
      }
      ShapeOf(St(), id);
      SettleKeeps(policy, t, worker, token, 0.0, now, "", "", true, 1);
      Store(id, t.(status := Cancelled, finishedAt := Some(now), leaseOwner := None, leaseToken := None,
                   leaseExpiresAt := None, heartbeatAt := None));
      result := Ok(tasks[id]);
    }

    /** `active_for_schedule` */
    function ActiveFor(schedule: nat): (ids: set<nat>)
      reads this`tasks
      ensures ids == ActiveIds(tasks, schedule)
    {
      set id | id in tasks && tasks[id].request.schedule == Some(schedule) && tasks[id].status.IsActive()
    }

    /** An identifier no task has. */
    method DrawId() returns (id: nat)
      ensures id !in tasks
    {
      id := 0;
      var todo := tasks.Keys;
      while todo != {}
        invariant todo <= tasks.Keys
        invariant forall other | other in tasks && other !in todo :: other < id
      {
        var other :| other in todo;
        id := if id <= other then other + 1 else id;
        todo := todo - {other};
      }
    }

    /** Dispatches one call of a producer or worker; one that raises has no effect. */
    method Perform(step: Issued)
      requires Valid() && UnitInterval(step.entropy) && step.call.IsForeign()
      modifies this
      ensures Valid() && Foreign(old(St()), St())
    {
      hide Inv, Evolves, Foreign;
      Unmoved(St());
      match step.call {
        case Enqueue(id, request, key) =>
          if id !in tasks {
            PerformEnqueue(id, request, key, step.now);
          }
        case Claim(worker, queues, leaseSeconds, token) =>
          if token !in issued {
            PerformClaim(worker, queues, leaseSeconds, token, step.entropy, step.now);
          }
        case Recover => PerformRecover(step.entropy, step.now);
        case _ => PerformOnTask(step);
      }
    }

    lemma Unmoved(q: Queue)
      requires Inv(q)
      ensures Foreign(q, q)
    {
      KeysOf(q);
      EvolvesReflexive(q);
    }

    method PerformEnqueue(id: nat, request: Request, key: Option<Key>, now: Time)
      requires Valid() && id !in tasks && request.schedule.None? && (key.Some? ==> key.value.Named?)
      modifies this
      ensures Valid() && Foreign(old(St()), St())
    {
      hide Inv, Evolves;
      var r := Enqueue(request, key, id, now);
    }

    method PerformClaim(worker: string, queues: set<string>, leaseSeconds: int, token: nat, entropy: Entropy, now: Time)
      requires Valid() && UnitInterval(entropy) && token !in issued
      modifies this
      ensures Valid() && Foreign(old(St()), St())
    {
      hide Inv, Evolves, Foreign, Next, RecoverAll, FirstEligible, Eligible, Holds;
      ghost var before := St();
      Unmoved(before);
      var r := Claim(worker, queues, leaseSeconds, token, entropy, now);
      if r.Ok? {
        ClaimIsForeign(before, St(), worker, queues, leaseSeconds, token, entropy, now);
      }
    }

    lemma ClaimIsForeign(p: Queue, q: Queue, worker: string, queues: set<string>, leaseSeconds: int, token: nat,
                         entropy: Entropy, now: Time)
      requires UnitInterval(entropy) && Evolves(p, q)
      requires Next(policy, p, Call.Claim(worker, queues, leaseSeconds, token), entropy, now, q)
      ensures Foreign(p, q)
    {
      hide Evolves, FirstEligible, Eligible;
    }

    method PerformRecover(entropy: Entropy, now: Time)
      requires Valid() && UnitInterval(entropy)
      modifies this
      ensures Valid() && Foreign(old(St()), St())
    {
      hide Inv, Evolves;
      KeysOf(St());
      var changed := RecoverExpired(entropy, now);
    }

    /** The calls about one task. */
    method PerformOnTask(step: Issued)
      requires Valid() && UnitInterval(step.entropy)
      modifies this
      ensures Valid() && Foreign(old(St()), St())
    {
      hide Inv, Evolves;
      KeysOf(St());
      EvolvesReflexive(St());
      match step.call {
        case Heartbeat(id, worker, token, leaseSeconds) =>
          var r := Heartbeat(id, worker, token, leaseSeconds, step.now);
        case Complete(id, worker, token, value) =>
          var r := Complete(id, worker, token, value, step.now);
        case Fail(id, worker, token, errorCode, retryable) =>
          var r := Fail(id, worker, token, errorCode, retryable, step.entropy(id), step.now);
        case RequestCancel(id) =>
          var r := RequestCancel(id, step.now);
        case AcknowledgeCancel(id, worker, token) =>
          var r := AcknowledgeCancel(id, worker, token, step.now);
        case _ =>
      }
    }
  }
}
