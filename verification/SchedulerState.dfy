/** What the scheduler's dictionaries and the queue it shares say together, and how each step keeps it so. */
module SchedulerState {
  import opened Common
  import opened CronSearch
  import opened Scheduler
  import Q = TaskQueue

  // ---------------------------------------------------------------------
  // Fires and queue keys
  // ---------------------------------------------------------------------

  /** Fires and queue keys agree, and only tasks of known schedules carry a schedule. */
  ghost predicate Tidy(q: Q.Queue, fires: Fires, ids: set<nat>) {
    && (forall k | k in q.keys && k.1.ForFire? :: 0 <= k.1.instant && (k.1.schedule, CronKey(k.1.instant)) in fires)
    && (forall k | k in q.keys && k.1.ForManual? :: (k.1.schedule, ManualKey(k.1.fire)) in fires)
    && (forall id | id in q.tasks && q.tasks[id].request.schedule.Some? :: q.tasks[id].request.schedule.value in ids)
    && (forall k | k in fires :: k.0 in ids)
  }

  lemma ForeignKeepsTidy(p: Q.Queue, q: Q.Queue, fires: Fires, ids: set<nat>)
    requires Q.Foreign(p, q) && Tidy(p, fires, ids)
    ensures Tidy(q, fires, ids)
  {
    forall id | id in q.tasks && q.tasks[id].request.schedule.Some?
      ensures q.tasks[id].request.schedule.value in ids
    {
      assert id in p.tasks && Q.TaskEvolves(p.tasks[id], q.tasks[id]);
    }
  }

  lemma EnqueueKeepsTidy(q: Q.Queue, id: nat, request: Q.Request, key: Q.Key, now: Q.Time, fires: Fires, after: Fires,
                         ids: set<nat>)
    requires Tidy(q, fires, ids) && id !in q.tasks
    requires request.schedule.Some? && request.schedule.value in ids
    requires forall k | k in fires :: k in after
    requires forall k | k in after :: k.0 in ids
    requires match key
             case Named(_) => false
             case ForFire(s, i) => 0 <= i && (s, CronKey(i)) in after
             case ForManual(s, f) => (s, ManualKey(f)) in after
    ensures Tidy(Q.Enqueued(q, id, request, Some(key), now), after, ids)
  {
  }

  lemma TidyMoreFires(q: Q.Queue, fires: Fires, after: Fires, ids: set<nat>)
    requires Tidy(q, fires, ids) && (forall k | k in fires :: k in after)
             && (forall k | k in after :: k in fires || k.0 in ids)
    ensures Tidy(q, after, ids)
  {
  }

  lemma ManualKeyIsNew(q: Q.Queue, fires: Fires, ids: set<nat>, taskType: string, s: nat, fireId: nat)
    requires Tidy(q, fires, ids) && (s, ManualKey(fireId)) !in fires
    ensures (taskType, Q.ForManual(s, fireId)) !in q.keys
  {
  }

  lemma TidyFires(q: Q.Queue, before: Fires, after: Fires, ids: set<nat>)
    requires Tidy(q, before, ids) && forall k | k in after :: k in before || k.0 in ids
    ensures forall k | k in after :: k.0 in ids
  {
  }

  // ---------------------------------------------------------------------
  // Every enqueued fire has its task
  // ---------------------------------------------------------------------

  function KeyOf(k: (nat, FireKey)): Q.Key {
    match k.1
    case CronKey(instant) => Q.ForFire(k.0, instant)
    case ManualKey(id) => Q.ForManual(k.0, id)
  }

  /**
    An enqueued fire has a task in the queue: the one its schedule asks for at that instant, under the key of the
    fire.
   */
  ghost predicate BackedAt(q: Q.Queue, schedules: map<nat, Schedule>, k: (nat, FireKey), fire: Fire) {
    && (k.1.CronKey? ==> fire.scheduledFor == k.1.instant)
    && (fire.status.Enqueued? <==> fire.task.Some?)
    && (fire.task.Some? ==>
          && k.0 in schedules && fire.task.value in q.tasks
          && q.tasks[fire.task.value].request == schedules[k.0].Request(k.0, fire.scheduledFor)
          && q.tasks[fire.task.value].key == Some(KeyOf(k)))
  }

  ghost predicate Backed(q: Q.Queue, schedules: map<nat, Schedule>, fires: Fires) {
    forall k {:trigger fires[k]} | k in fires :: BackedAt(q, schedules, k, fires[k])
  }

  lemma EvolvesKeepsBacked(p: Q.Queue, q: Q.Queue, schedules: map<nat, Schedule>, fires: Fires)
    requires Q.Evolves(p, q) && Backed(p, schedules, fires)
    ensures Backed(q, schedules, fires)
  {
    forall k | k in fires
      ensures BackedAt(q, schedules, k, fires[k])
    {
      assert BackedAt(p, schedules, k, fires[k]);
      if fires[k].task.Some? {
        var id := fires[k].task.value;
        assert Q.TaskEvolves(p.tasks[id], q.tasks[id]);
      }
    }
  }

  /** What a fire asks the queue for depends on fields of a schedule that never change. */
  ghost predicate SameTasks(before: map<nat, Schedule>, after: map<nat, Schedule>) {
    forall s | s in before :: s in after && forall i: Instant :: after[s].Request(s, i) == before[s].Request(s, i)
  }

  lemma SameTasksKeepsBacked(q: Q.Queue, before: map<nat, Schedule>, after: map<nat, Schedule>, fires: Fires)
    requires SameTasks(before, after) && Backed(q, before, fires)
    ensures Backed(q, after, fires)
  {
    forall k | k in fires
      ensures BackedAt(q, after, k, fires[k])
    {
      assert BackedAt(q, before, k, fires[k]);
    }
  }

  lemma BackedMore(q: Q.Queue, schedules: map<nat, Schedule>, before: Fires, after: Fires)
    requires Backed(q, schedules, before)
    requires forall k | k in after :: (k in before && after[k] == before[k]) || BackedAt(q, schedules, k, after[k])
    ensures Backed(q, schedules, after)
  {
    forall k | k in after
      ensures BackedAt(q, schedules, k, after[k])
    {
      assert k in before ==> BackedAt(q, schedules, k, before[k]);
    }
  }

  // ---------------------------------------------------------------------
  // Overlap
  // ---------------------------------------------------------------------

  /** The overlap promise of one schedule. */
  ghost predicate NoOverlap(q: Q.Queue, s: nat, overlap: OverlapPolicy) {
    && (overlap.Forbid? ==> |Q.ActiveIds(q.tasks, s)| <= 1)
    && (overlap.Replace? ==> |Q.UncancelledIds(q.tasks, s)| <= 1)
  }

  ghost predicate AllNoOverlap(q: Q.Queue, schedules: map<nat, Schedule>, manual: set<nat>) {
    forall s | s in schedules && s !in manual :: NoOverlap(q, s, schedules[s].overlap)
  }

  lemma SubsetSize(a: set<nat>, b: set<nat>)
    requires a <= b
    ensures |a| <= |b|
  {
    assert b == a + (b - a);
  }

  lemma ForeignKeepsNoOverlap(p: Q.Queue, q: Q.Queue, schedules: map<nat, Schedule>, manual: set<nat>)
    requires Q.Foreign(p, q) && AllNoOverlap(p, schedules, manual)
    ensures AllNoOverlap(q, schedules, manual)
  {
    hide Q.Foreign, Q.ActiveIds, Q.UncancelledIds;
    forall s | s in schedules && s !in manual
      ensures NoOverlap(q, s, schedules[s].overlap)
    {
      assert NoOverlap(p, s, schedules[s].overlap);
      Q.ForeignNeverActivates(p, q, s);
      SubsetSize(Q.ActiveIds(q.tasks, s), Q.ActiveIds(p.tasks, s));
      SubsetSize(Q.UncancelledIds(q.tasks, s), Q.UncancelledIds(p.tasks, s));
    }
  }

  /** A cancellation request is itself something any user of the queue may do, and takes the task off the list. */
  lemma AskClears(q: Q.Queue, id: nat, s: nat, now: Q.Time)
    requires Q.Inv(q) && id in q.tasks
    ensures var r := Q.WithTask(q, id, Q.CancelAsked(q.tasks[id], now));
            Q.Foreign(q, r) && Q.UncancelledIds(r.tasks, s) <= Q.UncancelledIds(q.tasks, s) - {id}
  {
    AskIsForeign(q, id, now);
    Asked(q.tasks[id], now);
    hide Q.Inv, Q.Foreign, Q.CancelAsked, Q.UncancelledIds;
    TakenOff(q.tasks, id, Q.CancelAsked(q.tasks[id], now), s);
  }

  lemma AskIsForeign(q: Q.Queue, id: nat, now: Q.Time)
    requires Q.Inv(q) && id in q.tasks
    ensures Q.Foreign(q, Q.WithTask(q, id, Q.CancelAsked(q.tasks[id], now)))
  {
    var t := q.tasks[id];
    assert Q.TaskInv(t) by {
      assert Q.RowInv(id, t, q.claims[id], q.issued);
    }
    hide Q.Inv, Q.TaskInv, Q.Evolves, Q.CancelAsked, Q.TaskEvolves;
    Q.AskKeeps(t, now);
    Q.WithTaskKeeps(q, id, Q.CancelAsked(t, now));
  }

  lemma Asked(t: Q.Task, now: Q.Time)
    ensures var u := Q.CancelAsked(t, now);
            u.request == t.request && (u.status.IsActive() ==> u.cancelRequested)
  {
  }

  lemma TakenOff(tasks: map<nat, Q.Task>, id: nat, u: Q.Task, s: nat)
    requires id in tasks && u.request == tasks[id].request && (u.status.IsActive() ==> u.cancelRequested)
    ensures Q.UncancelledIds(tasks[id := u], s) <= Q.UncancelledIds(tasks, s) - {id}
  {
  }

  /** Enqueueing the task of a fire adds one active task to its schedule and none to others. */
  lemma EnqueueAddsOne(q: Q.Queue, id: nat, request: Q.Request, key: Q.Key, s: nat, now: Q.Time)
    requires id !in q.tasks && request.schedule == Some(s)
    ensures var r := Q.Enqueued(q, id, request, Some(key), now);
            && Q.ActiveIds(r.tasks, s) == Q.ActiveIds(q.tasks, s) + {id}
            && Q.UncancelledIds(r.tasks, s) == Q.UncancelledIds(q.tasks, s) + {id}
            && (forall other | other != s :: Q.ActiveIds(r.tasks, other) == Q.ActiveIds(q.tasks, other)
                                          && Q.UncancelledIds(r.tasks, other) == Q.UncancelledIds(q.tasks, other))
  {
    var r := Q.Enqueued(q, id, request, Some(key), now);
    assert r.tasks[id].status.Queued? && r.tasks[id].request == request && !r.tasks[id].cancelRequested;
    assert Q.ActiveIds(r.tasks, s) == Q.ActiveIds(q.tasks, s) + {id};
    assert Q.UncancelledIds(r.tasks, s) == Q.UncancelledIds(q.tasks, s) + {id};
    forall other | other != s
      ensures Q.ActiveIds(r.tasks, other) == Q.ActiveIds(q.tasks, other)
      ensures Q.UncancelledIds(r.tasks, other) == Q.UncancelledIds(q.tasks, other)
    {
    }
  }

  lemma EnqueueKeepsNoOverlap(q: Q.Queue, id: nat, request: Q.Request, key: Q.Key, s: nat, now: Q.Time,
                              schedules: map<nat, Schedule>, manual: set<nat>)
    requires AllNoOverlap(q, schedules, manual) && id !in q.tasks && request.schedule == Some(s) && s in schedules
    requires s !in manual && schedules[s].overlap.Forbid? ==> Q.ActiveIds(q.tasks, s) == {}
    requires s !in manual && schedules[s].overlap.Replace? ==> Q.UncancelledIds(q.tasks, s) == {}
    ensures AllNoOverlap(Q.Enqueued(q, id, request, Some(key), now), schedules, manual)
  {
    EnqueueAddsOne(q, id, request, key, s, now);
    hide Q.ActiveIds, Q.UncancelledIds, Q.Enqueued;
    var r := Q.Enqueued(q, id, request, Some(key), now);
    forall other | other in schedules && other !in manual
      ensures NoOverlap(r, other, schedules[other].overlap)
    {
      assert NoOverlap(q, other, schedules[other].overlap);
    }
  }

  lemma EnqueueByHand(q: Q.Queue, id: nat, request: Q.Request, key: Q.Key, s: nat, now: Q.Time, schedules: map<nat,
                      Schedule>, manual: set<nat>)
    requires AllNoOverlap(q, schedules, manual) && id !in q.tasks && request.schedule == Some(s) && s in schedules
             && s in manual
    ensures AllNoOverlap(Q.Enqueued(q, id, request, Some(key), now), schedules, manual)
  {
    hide AllNoOverlap;
    EnqueueKeepsNoOverlap(q, id, request, key, s, now, schedules, manual);
  }

  lemma FewerPromises(q: Q.Queue, schedules: map<nat, Schedule>, manual: set<nat>, more: set<nat>)
    requires AllNoOverlap(q, schedules, manual) && manual <= more
    ensures AllNoOverlap(q, schedules, more)
  {
  }

  lemma SameOverlap(q: Q.Queue, before: map<nat, Schedule>, after: map<nat, Schedule>, manual: set<nat>)
    requires AllNoOverlap(q, before, manual) && after.Keys == before.Keys
    requires forall s | s in before :: after[s].overlap == before[s].overlap
    ensures AllNoOverlap(q, after, manual)
  {
    hide NoOverlap;
    forall s | s in after && s !in manual
      ensures NoOverlap(q, s, after[s].overlap)
    {
      assert NoOverlap(q, s, before[s].overlap);
    }
  }

  /** A schedule id never used before has no tasks and no fires. */
  lemma NewScheduleIsIdle(q: Q.Queue, fires: Fires, schedules: map<nat, Schedule>, manual: set<nat>, s: nat,
                          sched: Schedule)
    requires Tidy(q, fires, schedules.Keys) && AllNoOverlap(q, schedules, manual) && s !in schedules
    ensures Tidy(q, fires, schedules[s := sched].Keys) && AllNoOverlap(q, schedules[s := sched], manual)
    ensures forall k | k in fires :: k.0 != s
  {
    assert Q.ActiveIds(q.tasks, s) == {} && Q.UncancelledIds(q.tasks, s) == {};
    hide Q.ActiveIds, Q.UncancelledIds;
    forall other | other in schedules[s := sched] && other !in manual
      ensures NoOverlap(q, other, schedules[s := sched][other].overlap)
    {
      if other != s {
        assert NoOverlap(q, other, schedules[other].overlap);
      }
    }
  }

  /** Whatever others do to the queue, what it says together with the scheduler's dictionaries stands. */
  lemma ForeignKeepsBase(p: Q.Queue, q: Q.Queue, schedules: map<nat, Schedule>, fires: Fires, manual: set<nat>)
    requires Q.Foreign(p, q) && Tidy(p, fires, schedules.Keys) && Backed(p, schedules, fires)
             && AllNoOverlap(p, schedules, manual)
    ensures Tidy(q, fires, schedules.Keys) && Backed(q, schedules, fires) && AllNoOverlap(q, schedules, manual)
  {
    hide Tidy, Backed, AllNoOverlap, Q.Evolves;
    ForeignKeepsTidy(p, q, fires, schedules.Keys);
    EvolvesKeepsBacked(p, q, schedules, fires);
    ForeignKeepsNoOverlap(p, q, schedules, manual);
  }

  /** So it does when the task of a cron fire is enqueued. */
  lemma FireKeeps(q: Q.Queue, r: Q.Queue, schedules: map<nat, Schedule>, before: Fires, after: Fires, manual: set<nat>,
                  s: nat, instant: Instant, id: nat, request: Q.Request, now: Instant, fire: Fire)
    requires Tidy(q, before, schedules.Keys) && Backed(q, schedules, before) && AllNoOverlap(q, schedules, manual)
    requires Q.Evolves(q, r) && id !in q.tasks && r == Q.Enqueued(q, id, request, Some(Q.ForFire(s, instant)), now)
    requires s in schedules && request == schedules[s].Request(s, instant)
    requires fire == Fire(instant, Enqueued, Some(id), now)
    requires (s, CronKey(instant)) !in before && after == before[(s, CronKey(instant)) := fire]
    requires s !in manual && schedules[s].overlap.Forbid? ==> Q.ActiveIds(q.tasks, s) == {}
    requires s !in manual && schedules[s].overlap.Replace? ==> Q.UncancelledIds(q.tasks, s) == {}
    ensures Tidy(r, after, schedules.Keys) && Backed(r, schedules, after) && AllNoOverlap(r, schedules, manual)
    ensures Q.ActiveIds(r.tasks, s) == Q.ActiveIds(q.tasks, s) + {id}
    ensures Q.UncancelledIds(r.tasks, s) == Q.UncancelledIds(q.tasks, s) + {id}
  {
    hide Q.Evolves, Q.ActiveIds, Q.UncancelledIds, AllNoOverlap, Backed, Tidy;
    var key := Q.ForFire(s, instant);
    TidyFires(q, before, after, schedules.Keys);
    EnqueueKeepsTidy(q, id, request, key, now, before, after, schedules.Keys);
    EnqueueKeepsNoOverlap(q, id, request, key, s, now, schedules, manual);
    EnqueueAddsOne(q, id, request, key, s, now);
    EvolvesKeepsBacked(q, r, schedules, before);
    BackedMore(r, schedules, before, after);
  }

  /** A cron fire that was not recorded has no task either. */
  lemma FireKeyIsNew(q: Q.Queue, fires: Fires, ids: set<nat>, taskType: string, s: nat, instant: Instant)
    requires Tidy(q, fires, ids) && (s, CronKey(instant)) !in fires
    ensures (taskType, Q.ForFire(s, instant)) !in q.keys
  {
  }

  /** So it does when a manual fire is enqueued. */
  lemma ManualKeeps(q: Q.Queue, r: Q.Queue, schedules: map<nat, Schedule>, before: Fires, after: Fires,
                    manual: set<nat>, s: nat,
                    fireId: nat, id: nat, request: Q.Request, now: Instant, fire: Fire)
    requires Tidy(q, before, schedules.Keys) && Backed(q, schedules, before) && AllNoOverlap(q, schedules, manual)
    requires Q.Evolves(q, r) && id !in q.tasks && r == Q.Enqueued(q, id, request, Some(Q.ForManual(s, fireId)), now)
    requires s in schedules && request == schedules[s].Request(s, now) && fire == Fire(now, Enqueued, Some(id), now)
    requires (s, ManualKey(fireId)) !in before && after == before[(s, ManualKey(fireId)) := fire]
    ensures Tidy(r, after, schedules.Keys) && Backed(r, schedules, after) && AllNoOverlap(r, schedules, manual + {s})
  {
    hide Q.Evolves, Tidy, AllNoOverlap, Backed;
    var key := Q.ForManual(s, fireId);
    TidyFires(q, before, after, schedules.Keys);
    EnqueueKeepsTidy(q, id, request, key, now, before, after, schedules.Keys);
    FewerPromises(q, schedules, manual, manual + {s});
    EnqueueByHand(q, id, request, key, s, now, schedules, manual + {s});
    EvolvesKeepsBacked(q, r, schedules, before);
    BackedMore(r, schedules, before, after);
  }

  // ---------------------------------------------------------------------
  // What the overlap check saw
  // ---------------------------------------------------------------------

  /** The tasks of the new fires. */
  ghost function TasksOf(before: Fires, after: Fires): set<nat> {
    set k | k in after && k !in before && after[k].task.Some? :: after[k].task.value
  }

  /**
    `c` is the queue at one moment between `p` and `q`, when an active task of schedule `s` is one that was active
    at `p` or one of `mine`.
   */
  ghost predicate Checked(p: Q.Queue, c: Q.Queue, q: Q.Queue, s: nat, mine: set<nat>) {
    Q.Evolves(p, c) && Q.Evolves(c, q) && Q.ActiveIds(c.tasks, s) <= Q.ActiveIds(p.tasks, s) + mine
  }

  /** A selected fire is skipped exactly if the policy is FORBID and the check at `c` found an active task. */
  ghost predicate SkippedIfBusy(sched: Schedule, s: nat, fire: Fire, c: Q.Queue) {
    && (fire.status.SkippedOverlap? <==> sched.overlap.Forbid? && Q.ActiveIds(c.tasks, s) != {})
    && (fire.status.Enqueued? <==> !fire.status.SkippedOverlap?)
  }

  /** One selected instant: others act from `p` to the check at `c`; the fire is done at `q`. */
  ghost predicate FiredOne(sched: Schedule, s: nat, now: Instant, fire: Fire, p: Q.Queue, c: Q.Queue, q: Q.Queue) {
    && fire.createdAt == now && SkippedIfBusy(sched, s, fire, c)
    && (fire.status.Enqueued? <==> fire.task.Some?)
    && Q.Foreign(p, c) && Q.Evolves(c, q)
    && Q.ActiveIds(q.tasks, s) <= Q.ActiveIds(c.tasks, s) + (if fire.task.Some? then {fire.task.value} else {})
    && (sched.overlap.Replace? && fire.task.Some? ==> Q.UncancelledIds(q.tasks, s) <= {fire.task.value})
  }

  ghost predicate SelectedAt(sched: Schedule, s: nat, now: Instant, fire: Fire, p: Q.Queue, c: Q.Queue, q: Q.Queue,
                             mine: set<nat>)
  {
    fire.createdAt == now && SkippedIfBusy(sched, s, fire, c) && Checked(p, c, q, s, mine)
  }

  /** The selected fires of one catch-up, each with the moment of its check. */
  ghost predicate Selected(sched: Schedule, s: nat, now: Instant, before: Fires, after: Fires, p: Q.Queue, q: Q.Queue,
                           checks: map<(nat, FireKey), Q.Queue>)
  {
    forall k {:trigger after[k]} | k in after && k !in before && !after[k].status.SkippedMisfire? ::
      k in checks && SelectedAt(sched, s, now, after[k], p, checks[k], q, TasksOf(before, after))
  }

  /** So far, the active tasks of the schedule are old ones and those of the new fires. */
  ghost predicate Reached(p: Q.Queue, q: Q.Queue, s: nat, before: Fires, after: Fires) {
    Q.Evolves(p, q) && Q.ActiveIds(q.tasks, s) <= Q.ActiveIds(p.tasks, s) + TasksOf(before, after)
  }

  lemma NothingReached(q: Q.Queue, s: nat, fires: Fires)
    requires Q.Inv(q)
    ensures Reached(q, q, s, fires, fires)
  {
    Q.EvolvesReflexive(q);
  }

  lemma OneMoreSelected(sched: Schedule, s: nat, now: Instant, before: Fires, between: Fires, after: Fires,
                        k: (nat, FireKey),
                        p: Q.Queue, o: Q.Queue, c: Q.Queue, q: Q.Queue, checks: map<(nat, FireKey), Q.Queue>)
    requires Selected(sched, s, now, before, between, p, o, checks) && Reached(p, o, s, before, between)
    requires k !in between && k in after && after == between[k := after[k]] && (forall l | l in before :: l in between)
    requires FiredOne(sched, s, now, after[k], o, c, q)
    ensures Selected(sched, s, now, before, after, p, q, checks[k := c]) && Reached(p, q, s, before, after)
  {
    hide Q.Evolves, Q.ActiveIds, Q.UncancelledIds;
    var longer := checks[k := c];
    Q.EvolvesTransitive(p, o, c);
    Q.EvolvesTransitive(p, c, q);
    Q.EvolvesTransitive(o, c, q);
    Q.ForeignNeverActivates(o, c, s);
    MoreTasks(before, between, after, k);
    forall l | l in after && l !in before && !after[l].status.SkippedMisfire?
      ensures l in longer && SelectedAt(sched, s, now, after[l], p, longer[l], q, TasksOf(before, after))
    {
      if l != k {
        assert l in between && after[l] == between[l];
        assert SelectedAt(sched, s, now, between[l], p, checks[l], o, TasksOf(before, between));
        Q.EvolvesTransitive(checks[l], o, q);
      }
    }
  }

  lemma MoreTasks(before: Fires, between: Fires, after: Fires, k: (nat, FireKey))
    requires k !in between && k in after && after == between[k := after[k]] && (forall l | l in before :: l in between)
    ensures TasksOf(before, after) == TasksOf(before, between) + if after[k].task.Some? then {after[k].task.value}
            else {}
  {
    forall id | id in TasksOf(before, between)
      ensures id in TasksOf(before, after)
    {
      var l :| l in between && l !in before && between[l].task == Some(id);
      assert after[l] == between[l];
    }
  }

  /** How the new fires of one catch-up are marked. */
  ghost predicate Marked(sched: Schedule, s: nat, before: Fires, after: Fires, due: seq<Instant>, now: Instant,
                         p: Q.Queue, q: Q.Queue,
                         checks: map<(nat, FireKey), Q.Queue>)
  {
    && (forall k {:trigger after[k]} | k in after && k !in before ::
          && k.1.CronKey? && after[k].createdAt == now
          && (after[k].status.SkippedMisfire? <==> k.1.instant in Split(sched, due, now).1))
    && Selected(sched, s, now, before, after, p, q, checks)
  }

  /** New fires are missed in the first step and selected in the second. */
  lemma AllMarked(sched: Schedule, before: Fires, between: Fires, after: Fires, s: nat, due: seq<Instant>,
                  now: Instant, p: Q.Queue,
                  q: Q.Queue, checks: map<(nat, FireKey), Q.Queue>)
    requires sched.Valid() && Increasing(due) && due != []
    requires Recorded(before, between, s, Split(sched, due, now).1)
             && Recorded(between, after, s, Split(sched, due, now).0)
    requires forall k | k in between && k !in before :: between[k] == Fire(k.1.instant, SkippedMisfire, None, now)
    requires forall k | k in after && k !in between :: !after[k].status.SkippedMisfire?
    requires Selected(sched, s, now, between, after, p, q, checks)
    ensures Marked(sched, s, before, after, due, now, p, q, checks)
  {
    hide Split, Checked, SkippedIfBusy;
    SplitIsCut(sched, due, now);
    var (selected, skipped) := Split(sched, due, now);
    assert TasksOf(before, after) == TasksOf(between, after);
    forall k | k in after && k !in before
      ensures k.1.CronKey? && after[k].createdAt == now
      ensures after[k].status.SkippedMisfire? <==> k.1.instant in skipped
    {
      if k !in between {
        assert k.1.instant !in skipped;
        assert SelectedAt(sched, s, now, after[k], p, checks[k], q, TasksOf(between, after));
      }
    }
  }

  // ---------------------------------------------------------------------
  // Recorded instants
  // ---------------------------------------------------------------------

  /** The fires of `s` at the given instants were added, and nothing else changed. */
  ghost predicate Recorded(before: Fires, after: Fires, s: nat, instants: seq<Instant>) {
    && (forall k :: k in after <==> k in before || (k.0 == s && k.1.CronKey? && k.1.instant in instants))
    && (forall k | k in before :: after[k] == before[k])
  }

  lemma RecordedTwice(a: Fires, b: Fires, c: Fires, s: nat, first: seq<Instant>, second: seq<Instant>)
    requires Recorded(a, b, s, first) && Recorded(b, c, s, second)
    ensures Recorded(a, c, s, first + second)
  {
  }

  lemma NothingRecorded(fires: Fires, s: nat)
    ensures Recorded(fires, fires, s, [])
  {
  }

  lemma RecordedMore(before: Fires, between: Fires, after: Fires, s: nat, instants: seq<Instant>, next: Instant)
    requires Recorded(before, between, s, instants)
    requires (s, CronKey(next)) in after && after == between[(s, CronKey(next)) := after[(s, CronKey(next))]]
    requires (s, CronKey(next)) in between ==> after == between
    ensures Recorded(before, after, s, instants + [next])
  {
  }

  lemma RecordedKeeps(before: Fires, after: Fires, s: nat, instants: seq<Instant>)
    requires Recorded(before, after, s, instants)
    ensures forall k | k in before :: k in after && after[k] == before[k]
  {
  }

  lemma MissedRecorded(before: Fires, after: Fires, s: nat, missed: seq<Instant>)
    requires forall k :: k in after <==> k in before || (k.0 == s && k.1.CronKey? && k.1.instant in missed)
    requires forall k | k in before :: after[k] == before[k]
    ensures Recorded(before, after, s, missed)
  {
  }

  lemma TidyRecorded(q: Q.Queue, before: Fires, after: Fires, s: nat, instants: seq<Instant>, ids: set<nat>)
    requires Tidy(q, before, ids) && Recorded(before, after, s, instants) && s in ids
    ensures Tidy(q, after, ids)
  {
  }

  lemma MissedBacked(q: Q.Queue, schedules: map<nat, Schedule>, before: Fires, after: Fires, s: nat,
                     missed: seq<Instant>, now: Instant)
    requires Backed(q, schedules, before) && Recorded(before, after, s, missed)
    requires forall k | k in after && k !in before :: after[k] == Fire(k.1.instant, SkippedMisfire, None, now)
    ensures Backed(q, schedules, after)
  {
    BackedMore(q, schedules, before, after);
  }

  lemma CreatedTwice(before: Fires, between: Fires, after: Fires, s: nat, skipped: seq<Instant>, selected: seq<Instant>,
                     missed: seq<(nat, FireKey)>, fired: seq<(nat, FireKey)>)
    requires Recorded(before, between, s, skipped) && Recorded(between, after, s, selected)
    requires forall k :: k in missed <==> k in between && k !in before
    requires forall k :: k in fired <==> k in after && k !in between
    ensures forall k :: k in missed + fired <==> k in after && k !in before
  {
  }

  lemma FirstIsDue(e: CronExpression, zone: Zone, first: Instant, now: Instant, due: seq<Instant>, next: Instant)
    requires DueList(e, zone, first, now, due, next)
    ensures first <= now
  {
    assert due[0] <= now;
  }

  lemma DueListFacts(e: CronExpression, zone: Zone, first: Instant, now: Instant, due: seq<Instant>, next: Instant)
    requires DueList(e, zone, first, now, due, next)
    ensures due != [] && Increasing(due) && now < next && IsMatch(e, zone, next) && Quiet(e, zone, now, next)
    ensures forall i | i in due :: first <= i <= now
  {
    hide IsMatch;
    forall i | i in due
      ensures first <= i <= now
    {
      var k :| 0 <= k < |due| && due[k] == i;
      assert k > 0 ==> due[0] < due[k];
    }
    assert first == due[0] <= now;
  }

  // ---------------------------------------------------------------------
  // Exact records
  // ---------------------------------------------------------------------

  /** The dictionaries fit together. */
  ghost predicate Shaped(schedules: map<nat, Schedule>, expressions: map<nat, CronExpression>, zones: map<string, Zone>,
                         since: map<nat, Instant>, horizon: map<nat, Instant>)
  {
    && expressions.Keys == schedules.Keys
    && (forall s | s in schedules ::
          schedules[s].Valid() && schedules[s].timezone in zones && schedules[s].nextRunAt.Some?)
    && since.Keys == horizon.Keys && since.Keys <= schedules.Keys
  }

  /** The cron fires of a schedule lie between its first planned run and its next one. */
  ghost predicate Windowed(schedules: map<nat, Schedule>, fires: Fires, begun: map<nat, Instant>) {
    && begun.Keys == schedules.Keys
    && (forall s | s in schedules :: schedules[s].nextRunAt.Some? && begun[s] <= schedules[s].nextRunAt.value)
    && (forall s, i: Instant | (s, CronKey(i)) in fires ::
          s in schedules && begun[s] <= i < schedules[s].nextRunAt.value)
  }

  ghost predicate TimelyAt(schedules: map<nat, Schedule>, expressions: map<nat, CronExpression>, zones: map<string,
                           Zone>, fires: Fires,
                           since: map<nat, Instant>, horizon: map<nat, Instant>, s: nat)
  {
    && s in since && s in horizon && s in schedules && s in expressions && schedules[s].timezone in zones
    && Timely(expressions[s], zones[schedules[s].timezone], fires, s, since[s], horizon[s], schedules[s].nextRunAt)
  }

  ghost predicate AllTimely(schedules: map<nat, Schedule>, expressions: map<nat, CronExpression>, zones: map<string,
                            Zone>, fires: Fires,
                            since: map<nat, Instant>, horizon: map<nat, Instant>)
  {
    forall s | s in since :: TimelyAt(schedules, expressions, zones, fires, since, horizon, s)
  }

  /** The schedule after `_fire_due_locked`. */
  function Ran(sched: Schedule, last: Instant, next: Instant, now: Instant): Schedule {
    sched.(lastRunAt := Some(last), nextRunAt := Some(next), version := sched.version + 1, updatedAt := now)
  }

  /** The record of `s` starts now, unless it started before. */
  function Started(since: map<nat, Instant>, s: nat, now: Instant): map<nat, Instant> {
    if s in since then since else since[s := now]
  }

  function Seen(horizon: map<nat, Instant>, s: nat, now: Instant): map<nat, Instant> {
    horizon[s := if s in horizon then Max(horizon[s], now) else now]
  }

  /** All enabled schedules have seen the tick at `now`. */
  function Latest(schedules: map<nat, Schedule>, horizon: map<nat, Instant>, now: Instant): map<nat, Instant> {
    map s | s in horizon :: if s in schedules && schedules[s].enabled then Max(horizon[s], now) else horizon[s]
  }

  predicate IsDue(sched: Schedule, now: Instant) {
    sched.enabled && sched.nextRunAt.Some? && sched.nextRunAt.value <= now
  }

  function DueIds(schedules: map<nat, Schedule>, now: Instant): set<nat> {
    set s | s in schedules && IsDue(schedules[s], now)
  }

  /** Once nothing is due, the record of every enabled schedule is exact up to the present. */
  lemma AllIdle(schedules: map<nat, Schedule>, expressions: map<nat, CronExpression>, zones: map<string, Zone>,
                fires: Fires,
                since: map<nat, Instant>, horizon: map<nat, Instant>, now: Instant)
    requires Shaped(schedules, expressions, zones, since, horizon)
             && AllTimely(schedules, expressions, zones, fires, since, horizon)
    requires DueIds(schedules, now) == {}
    ensures Shaped(schedules, expressions, zones, since, Latest(schedules, horizon, now))
    ensures AllTimely(schedules, expressions, zones, fires, since, Latest(schedules, horizon, now))
  {
    hide Timely;
    var latest := Latest(schedules, horizon, now);
    forall s | s in since
      ensures TimelyAt(schedules, expressions, zones, fires, since, latest, s)
    {
      assert TimelyAt(schedules, expressions, zones, fires, since, horizon, s);
      assert s !in DueIds(schedules, now);
      if schedules[s].enabled {
        TimelyIdle(expressions[s], zones[schedules[s].timezone], fires, s, since[s], horizon[s],
                   schedules[s].nextRunAt, now);
      }
    }
  }

  lemma TimelyHasNext(e: CronExpression, zone: Zone, fires: Fires, s: nat, since: Instant, horizon: Instant,
                      next: Option<Instant>)
    requires Timely(e, zone, fires, s, since, horizon, next)
    ensures next.Some? && horizon < next.value
  {
  }

  /** Everything due was recorded once, marked as the misfire and overlap policies say, and the schedule moved on. */
  ghost predicate CaughtUp(e: CronExpression, zone: Zone, sched: Schedule, before: Fires, after: Fires, s: nat,
                           now: Instant,
                           due: seq<Instant>, next: Instant, ran: Schedule, p: Q.Queue, q: Q.Queue,
                           checks: map<(nat, FireKey), Q.Queue>)
  {
    && sched.nextRunAt.Some? && DueList(e, zone, sched.nextRunAt.value, now, due, next)
    && Recorded(before, after, s, due) && Marked(sched, s, before, after, due, now, p, q, checks)
    && ran == Ran(sched, due[|due| - 1], next, now)
  }

  lemma RanAsks(schedules: map<nat, Schedule>, s: nat, last: Instant, next: Instant, now: Instant)
    requires s in schedules
    ensures SameTasks(schedules, schedules[s := Ran(schedules[s], last, next, now)])
  {
  }

  lemma RanShaped(schedules: map<nat, Schedule>, expressions: map<nat, CronExpression>, zones: map<string, Zone>,
                  since: map<nat, Instant>,
                  horizon: map<nat, Instant>, s: nat, last: Instant, next: Instant, now: Instant)
    requires Shaped(schedules, expressions, zones, since, horizon) && s in schedules
    ensures Shaped(schedules[s := Ran(schedules[s], last, next, now)], expressions, zones, Started(since, s, now),
                   Seen(horizon, s, now))
  {
    hide Schedule.Valid;
    var sched := schedules[s];
    assert sched.Valid() ==> Ran(sched, last, next, now).Valid() by {
      RanValid(sched, last, next, now);
    }
  }

  lemma RanValid(sched: Schedule, last: Instant, next: Instant, now: Instant)
    requires sched.Valid()
    ensures Ran(sched, last, next, now).Valid()
  {
  }

  lemma CatchUpKeepsWindowed(schedules: map<nat, Schedule>, before: Fires, after: Fires, begun: map<nat, Instant>,
                             s: nat, ran: Schedule,
                             e: CronExpression, zone: Zone, now: Instant, due: seq<Instant>, next: Instant)
    requires Windowed(schedules, before, begun) && s in schedules && Recorded(before, after, s, due)
    requires DueList(e, zone, schedules[s].nextRunAt.value, now, due, next) && ran.nextRunAt == Some(next)
    ensures Windowed(schedules[s := ran], after, begun)
  {
    hide DueList;
    DueListFacts(e, zone, schedules[s].nextRunAt.value, now, due, next);
    FirstIsDue(e, zone, schedules[s].nextRunAt.value, now, due, next);
  }

  lemma CatchUpKeepsTimely(schedules: map<nat, Schedule>, expressions: map<nat, CronExpression>, zones: map<string,
                           Zone>, before: Fires,
                           after: Fires, begun: map<nat, Instant>, since: map<nat, Instant>, horizon: map<nat,
                           Instant>, s: nat,
                           now: Instant, due: seq<Instant>, next: Instant)
    requires Shaped(schedules, expressions, zones, since, horizon)
             && AllTimely(schedules, expressions, zones, before, since, horizon)
    requires Windowed(schedules, before, begun)
    requires s in schedules && Recorded(before, after, s, due)
    requires DueList(expressions[s], zones[schedules[s].timezone], schedules[s].nextRunAt.value, now, due, next)
    ensures due != []
    ensures var ran := schedules[s := Ran(schedules[s], due[|due| - 1], next, now)];
            && Shaped(ran, expressions, zones, Started(since, s, now), Seen(horizon, s, now))
            && AllTimely(ran, expressions, zones, after, Started(since, s, now), Seen(horizon, s, now))
            && Windowed(ran, after, begun) && SameTasks(schedules, ran)
  {
    DueListFacts(expressions[s], zones[schedules[s].timezone], schedules[s].nextRunAt.value, now, due, next);
    hide DueList, Recorded, TimelyAt, Windowed, SameTasks;
    var last := due[|due| - 1];
    RanShaped(schedules, expressions, zones, since, horizon, s, last, next, now);
    RanAsks(schedules, s, last, next, now);
    CatchUpKeepsWindowed(schedules, before, after, begun, s, Ran(schedules[s], last, next, now), expressions[s],
                         zones[schedules[s].timezone], now, due, next);
    var ran := schedules[s := Ran(schedules[s], last, next, now)];
    forall other | other in Started(since, s, now)
      ensures TimelyAt(ran, expressions, zones, after, Started(since, s, now), Seen(horizon, s, now), other)
    {
      if other in since {
        CaughtUpAt(schedules, expressions, zones, before, after, since, horizon, s, now, due, next, other);
      } else {
        FreshAt(schedules, expressions, zones, before, after, begun, since, horizon, s, now, due, next);
      }
    }
  }

  /** A schedule whose first run was given has an exact record from its first catch-up on. */
  lemma FreshAt(schedules: map<nat, Schedule>, expressions: map<nat, CronExpression>, zones: map<string, Zone>,
                before: Fires, after: Fires,
                begun: map<nat, Instant>, since: map<nat, Instant>, horizon: map<nat, Instant>, s: nat, now: Instant,
                due: seq<Instant>,
                next: Instant)
    requires Shaped(schedules, expressions, zones, since, horizon) && Windowed(schedules, before, begun) && s !in since
    requires s in schedules && Recorded(before, after, s, due) && due != []
    requires DueList(expressions[s], zones[schedules[s].timezone], schedules[s].nextRunAt.value, now, due, next)
    ensures TimelyAt(schedules[s := Ran(schedules[s], due[|due| - 1], next, now)], expressions, zones, after,
                     Started(since, s, now),
                     Seen(horizon, s, now), s)
  {
    hide DueList, Timely;
    var e, zone := expressions[s], zones[schedules[s].timezone];
    DueListFacts(e, zone, schedules[s].nextRunAt.value, now, due, next);
    FirstIsDue(e, zone, schedules[s].nextRunAt.value, now, due, next);
    TimelyFromNow(e, zone, after, s, now, next);
  }

  lemma CaughtUpAt(schedules: map<nat, Schedule>, expressions: map<nat, CronExpression>, zones: map<string, Zone>,
                   before: Fires,
                   after: Fires, since: map<nat, Instant>, horizon: map<nat, Instant>, s: nat, now: Instant,
                   due: seq<Instant>,
                   next: Instant, other: nat)
    requires TimelyAt(schedules, expressions, zones, before, since, horizon, other) && since.Keys == horizon.Keys
    requires s in schedules && Recorded(before, after, s, due) && due != []
    requires other == s ==> && schedules[s].nextRunAt.Some?
                            && DueList(expressions[s], zones[schedules[s].timezone], schedules[s].nextRunAt.value, now,
                                       due, next)
    ensures TimelyAt(schedules[s := Ran(schedules[s], due[|due| - 1], next, now)], expressions, zones, after,
                     Started(since, s, now),
                     Seen(horizon, s, now), other)
  {
    hide Timely, DueList, Recorded;
    CaughtUpOne(expressions[other], zones[schedules[other].timezone], before, after, s, other, since[other],
                horizon[other],
                schedules[other].nextRunAt, now, due, next);
  }

  /** The records of the schedule that caught up and of any other. */
  lemma CaughtUpOne(e: CronExpression, zone: Zone, before: Fires, after: Fires, s: nat, other: nat, since: Instant,
                    horizon: Instant,
                    planned: Option<Instant>, now: Instant, due: seq<Instant>, next: Instant)
    requires Timely(e, zone, before, other, since, horizon, planned) && Recorded(before, after, s, due)
    requires other == s ==> planned.Some? && DueList(e, zone, planned.value, now, due, next)
    ensures other == s ==> Timely(e, zone, after, s, since, Max(horizon, now), Some(next))
    ensures other != s ==> Timely(e, zone, after, other, since, horizon, planned)
  {
    hide Timely, DueList, Recorded;
    if other == s {
      TimelyHasNext(e, zone, before, s, since, horizon, planned);
      FirstIsDue(e, zone, planned.value, now, due, next);
      TimelyAfterCatchUp(e, zone, before, after, s, since, horizon, planned.value, now, due, next);
    } else {
      TimelyElsewhere(e, zone, before, after, s, other, due, since, horizon, planned);
    }
  }

  /** The record of a schedule depends on its own fires only. */
  lemma TimelyElsewhere(e: CronExpression, zone: Zone, before: Fires, after: Fires, s: nat, other: nat,
                        instants: seq<Instant>,
                        since: Instant, horizon: Instant, next: Option<Instant>)
    requires Timely(e, zone, before, other, since, horizon, next) && Recorded(before, after, s, instants) && other != s
    ensures Timely(e, zone, after, other, since, horizon, next)
  {
    hide IsMatch;
  }

  lemma TimelyAfterCatchUp(e: CronExpression, zone: Zone, before: Fires, after: Fires, s: nat, since: Instant,
                           horizon: Instant,
                           first: Instant, now: Instant, due: seq<Instant>, next: Instant)
    requires Timely(e, zone, before, s, since, horizon, Some(first)) && DueList(e, zone, first, now, due, next)
    requires Recorded(before, after, s, due)
    ensures Timely(e, zone, after, s, since, now, Some(next))
  {
    hide IsMatch, DueList;
    TimelyFired(e, zone, before, after, s, since, horizon, first, now, due, next);
  }

  /** Writing a known schedule anew keeps the dictionaries together. */
  lemma StoredShaped(schedules: map<nat, Schedule>, expressions: map<nat, CronExpression>, zones: map<string, Zone>,
                     since: map<nat, Instant>, horizon: map<nat, Instant>, s: nat, stored: Schedule)
    requires Shaped(schedules, expressions, zones, since, horizon)
    requires s in schedules && stored.Valid() && stored.timezone in zones && stored.nextRunAt.Some?
    ensures Shaped(schedules[s := stored], expressions, zones, since, horizon)
  {
    hide Schedule.Valid;
  }

  /** So does adding one, or moving its next run up. */
  lemma StoredWindowed(schedules: map<nat, Schedule>, fires: Fires, begun: map<nat, Instant>, s: nat, stored: Schedule)
    requires Windowed(schedules, fires, begun) && stored.nextRunAt.Some?
    requires s in schedules ==> schedules[s].nextRunAt.Some? && schedules[s].nextRunAt.value <= stored.nextRunAt.value
    ensures Windowed(schedules[s := stored], fires,
                     if s in schedules then begun else begun[s := stored.nextRunAt.value])
  {
  }

  lemma AddShaped(schedules: map<nat, Schedule>, expressions: map<nat, CronExpression>, zones: map<string, Zone>,
                  since: map<nat, Instant>, horizon: map<nat, Instant>, s: nat, stored: Schedule, e: CronExpression,
                  now: Instant)
    requires Shaped(schedules, expressions, zones, since, horizon)
    requires s !in schedules && stored.Valid() && stored.timezone in zones && stored.nextRunAt.Some?
    ensures Shaped(schedules[s := stored], expressions[s := e], zones, since, horizon)
    ensures Shaped(schedules[s := stored], expressions[s := e], zones, since[s := now], horizon[s := now])
  {
    hide Schedule.Valid;
  }

  /** Records of other schedules, and the record of `s` if there is one, survive. */
  lemma StoredTimely(schedules: map<nat, Schedule>, expressions: map<nat, CronExpression>, zones: map<string, Zone>,
                     fires: Fires,
                     since: map<nat, Instant>, horizon: map<nat, Instant>, later: map<nat, Schedule>, parsed: map<nat,
                     CronExpression>,
                     from: map<nat, Instant>, to: map<nat, Instant>, s: nat)
    requires AllTimely(schedules, expressions, zones, fires, since, horizon)
    requires forall other | other in since && other != s ::
               && other in later && other in schedules && later[other] == schedules[other]
               && other in parsed && other in expressions && parsed[other] == expressions[other]
               && other in to && other in horizon && to[other] == horizon[other]
    requires forall other | other in from && other != s :: other in since && from[other] == since[other]
    requires s in from ==> TimelyAt(later, parsed, zones, fires, from, to, s)
    ensures AllTimely(later, parsed, zones, fires, from, to)
  {
    hide Timely;
    forall other | other in from
      ensures TimelyAt(later, parsed, zones, fires, from, to, other)
    {
      assert other != s ==> TimelyAt(schedules, expressions, zones, fires, since, horizon, other);
    }
  }

  /** A new schedule; its record starts now if its first run was searched for. */
  lemma AddKeepsTimely(schedules: map<nat, Schedule>, expressions: map<nat, CronExpression>, zones: map<string, Zone>,
                       fires: Fires,
                       begun: map<nat, Instant>, since: map<nat, Instant>, horizon: map<nat, Instant>, s: nat,
                       stored: Schedule,
                       e: CronExpression, now: Instant, exact: bool)
    requires Shaped(schedules, expressions, zones, since, horizon)
             && AllTimely(schedules, expressions, zones, fires, since, horizon)
    requires Windowed(schedules, fires, begun)
    requires s !in schedules && stored.Valid() && stored.timezone in zones && stored.nextRunAt.Some?
    requires forall k | k in fires :: k.0 != s
    requires exact ==> && now < stored.nextRunAt.value && IsMatch(e, zones[stored.timezone], stored.nextRunAt.value)
                       && Quiet(e, zones[stored.timezone], now, stored.nextRunAt.value)
    ensures Windowed(schedules[s := stored], fires, begun[s := stored.nextRunAt.value])
    ensures AllTimely(schedules[s := stored], expressions[s := e], zones, fires,
                      if exact then since[s := now] else since, if exact then horizon[s := now] else horizon)
  {
    hide Schedule.Valid, Timely, IsMatch, Quiet, AllTimely, Windowed;
    StoredWindowed(schedules, fires, begun, s, stored);
    var later, parsed := schedules[s := stored], expressions[s := e];
    if exact {
      TimelyFromNow(e, zones[stored.timezone], fires, s, now, stored.nextRunAt.value);
      StoredTimely(schedules, expressions, zones, fires, since, horizon, later, parsed, since[s := now],
                   horizon[s := now], s);
    } else {
      StoredTimely(schedules, expressions, zones, fires, since, horizon, later, parsed, since, horizon, s);
    }
  }

  /** Writing a schedule without touching when it runs. */
  lemma TouchKeepsTimely(schedules: map<nat, Schedule>, expressions: map<nat, CronExpression>, zones: map<string,
                         Zone>, fires: Fires,
                         begun: map<nat, Instant>, since: map<nat, Instant>, horizon: map<nat, Instant>, s: nat,
                         stored: Schedule)
    requires Shaped(schedules, expressions, zones, since, horizon)
             && AllTimely(schedules, expressions, zones, fires, since, horizon)
    requires Windowed(schedules, fires, begun)
    requires s in schedules && stored.Valid() && stored.timezone == schedules[s].timezone
    requires stored.nextRunAt == schedules[s].nextRunAt
    ensures Shaped(schedules[s := stored], expressions, zones, since, horizon)
    ensures AllTimely(schedules[s := stored], expressions, zones, fires, since, horizon)
    ensures Windowed(schedules[s := stored], fires, begun)
  {
    hide Schedule.Valid, Timely, Windowed;
    StoredShaped(schedules, expressions, zones, since, horizon, s, stored);
    StoredWindowed(schedules, fires, begun, s, stored);
    assert s in since ==> TimelyAt(schedules, expressions, zones, fires, since, horizon, s);
    hide AllTimely;
    StoredTimely(schedules, expressions, zones, fires, since, horizon, schedules[s := stored], expressions, since,
                 horizon, s);
  }

  /** A record that starts anew. */
  lemma ShapedAnew(schedules: map<nat, Schedule>, expressions: map<nat, CronExpression>, zones: map<string, Zone>,
                   since: map<nat, Instant>, horizon: map<nat, Instant>, s: nat, now: Instant)
    requires Shaped(schedules, expressions, zones, since, horizon) && s in schedules
    ensures Shaped(schedules, expressions, zones, since[s := now], horizon[s := now])
  {
    hide Schedule.Valid;
  }

  /** The record of an overdue schedule that moves to the first match after now. */
  lemma MovedTimely(schedules: map<nat, Schedule>, expressions: map<nat, CronExpression>, zones: map<string, Zone>,
                    fires: Fires,
                    since: map<nat, Instant>, horizon: map<nat, Instant>, s: nat, stored: Schedule, now: Instant)
    requires AllTimely(schedules, expressions, zones, fires, since, horizon) && since.Keys == horizon.Keys
    requires s in schedules && s in expressions && stored.timezone in zones && stored.nextRunAt.Some?
    requires Timely(expressions[s], zones[stored.timezone], fires, s, now, now, stored.nextRunAt)
    ensures AllTimely(schedules[s := stored], expressions, zones, fires, since[s := now], horizon[s := now])
  {
    hide Timely;
    var later, from, to := schedules[s := stored], since[s := now], horizon[s := now];
    forall other | other in from
      ensures TimelyAt(later, expressions, zones, fires, from, to, other)
    {
      assert other != s ==> TimelyAt(schedules, expressions, zones, fires, since, horizon, other);
    }
  }

  lemma NoneAfter(schedules: map<nat, Schedule>, fires: Fires, begun: map<nat, Instant>, s: nat, now: Instant)
    requires Windowed(schedules, fires, begun) && s in schedules && schedules[s].nextRunAt.value <= now
    ensures forall i: Instant | (s, CronKey(i)) in fires :: i <= now
  {
  }

  /** An overdue schedule that moves to the first match after now starts its record anew. */
  lemma MoveKeepsTimely(schedules: map<nat, Schedule>, expressions: map<nat, CronExpression>, zones: map<string, Zone>,
                        fires: Fires,
                        begun: map<nat, Instant>, since: map<nat, Instant>, horizon: map<nat, Instant>, s: nat,
                        stored: Schedule,
                        now: Instant)
    requires Shaped(schedules, expressions, zones, since, horizon)
             && AllTimely(schedules, expressions, zones, fires, since, horizon)
    requires Windowed(schedules, fires, begun)
    requires s in schedules && stored.Valid() && stored.timezone == schedules[s].timezone
             && schedules[s].nextRunAt.value <= now
    requires stored.nextRunAt.Some? && now < stored.nextRunAt.value
    requires IsMatch(expressions[s], zones[stored.timezone], stored.nextRunAt.value)
    requires Quiet(expressions[s], zones[stored.timezone], now, stored.nextRunAt.value)
    ensures Shaped(schedules[s := stored], expressions, zones, since[s := now], horizon[s := now])
    ensures AllTimely(schedules[s := stored], expressions, zones, fires, since[s := now], horizon[s := now])
    ensures Windowed(schedules[s := stored], fires, begun)
  {
    hide Schedule.Valid, Timely, IsMatch, Quiet, AllTimely, Windowed;
    StoredShaped(schedules, expressions, zones, since, horizon, s, stored);
    ShapedAnew(schedules[s := stored], expressions, zones, since, horizon, s, now);
    StoredWindowed(schedules, fires, begun, s, stored);
    NoneAfter(schedules, fires, begun, s, now);
    TimelyFromNow(expressions[s], zones[stored.timezone], fires, s, now, stored.nextRunAt.value);
    MovedTimely(schedules, expressions, zones, fires, since, horizon, s, stored, now);
  }

  /** A manual fire is no cron fire, even of the same minute. */
  lemma SameCronFires(schedules: map<nat, Schedule>, expressions: map<nat, CronExpression>, zones: map<string, Zone>,
                      before: Fires, after: Fires,
                      begun: map<nat, Instant>, since: map<nat, Instant>, horizon: map<nat, Instant>)
    requires AllTimely(schedules, expressions, zones, before, since, horizon) && Windowed(schedules, before, begun)
    requires forall k: (nat, FireKey) | k.1.CronKey? :: k in after <==> k in before
    ensures AllTimely(schedules, expressions, zones, after, since, horizon) && Windowed(schedules, after, begun)
  {
    hide IsMatch, Quiet;
    forall s | s in since
      ensures TimelyAt(schedules, expressions, zones, after, since, horizon, s)
    {
      assert TimelyAt(schedules, expressions, zones, before, since, horizon, s);
    }
  }

  /** The order of `tick`: next run first, then the identifier. */
  predicate ComesFirst(schedules: map<nat, Schedule>, s: nat, r: nat)
    requires s in schedules && r in schedules && schedules[s].nextRunAt.Some? && schedules[r].nextRunAt.Some?
  {
    || schedules[s].nextRunAt.value < schedules[r].nextRunAt.value
    || (schedules[s].nextRunAt == schedules[r].nextRunAt && s < r)
  }

  /**
    The cron fires of a schedule never lie before its first planned run, and from `since` on they are exactly the
    matching minutes up to `horizon`.
   */
  ghost predicate AllExact(schedules: map<nat, Schedule>, expressions: map<nat, CronExpression>, zones: map<string,
                           Zone>, fires: Fires,
                           begun: map<nat, Instant>, since: map<nat, Instant>, horizon: map<nat, Instant>)
  {
    && (forall s, i: Instant | (s, CronKey(i)) in fires :: s in begun && begun[s] <= i)
    && (forall s, i: Instant | s in since && since[s] < i ::
          && s in horizon && s in expressions && s in schedules && schedules[s].timezone in zones
          && ((s, CronKey(i)) in fires
              <==> i <= horizon[s] && IsMatch(expressions[s], zones[schedules[s].timezone], i)))
  }

  lemma AllTimelyMeans(schedules: map<nat, Schedule>, expressions: map<nat, CronExpression>, zones: map<string, Zone>,
                       fires: Fires,
                       begun: map<nat, Instant>, since: map<nat, Instant>, horizon: map<nat, Instant>)
    requires AllTimely(schedules, expressions, zones, fires, since, horizon) && Windowed(schedules, fires, begun)
    ensures AllExact(schedules, expressions, zones, fires, begun, since, horizon)
  {
    hide IsMatch;
    forall s, i: Instant | s in since && since[s] < i
      ensures s in horizon && s in expressions && s in schedules && schedules[s].timezone in zones
      ensures (s, CronKey(i)) in fires <==> i <= horizon[s] && IsMatch(expressions[s], zones[schedules[s].timezone], i)
    {
      assert TimelyAt(schedules, expressions, zones, fires, since, horizon, s);
    }
  }

  /** A tick at `now` lets records start and horizons advance, and nothing else. */
  ghost predicate Advances(since: map<nat, Instant>, horizon: map<nat, Instant>, later: map<nat, Instant>,
                           further: map<nat, Instant>,
                           now: Instant)
  {
    && since.Keys == horizon.Keys && later.Keys == further.Keys
    && (forall s | s in since ::
          s in later && later[s] == since[s] && (further[s] == horizon[s] || further[s] == Max(horizon[s], now)))
    && (forall s | s in later && s !in since :: later[s] == further[s] == now)
  }

  lemma SeenAdvances(since: map<nat, Instant>, horizon: map<nat, Instant>, later: map<nat, Instant>, further: map<nat,
                     Instant>,
                     s: nat, now: Instant)
    requires Advances(since, horizon, later, further, now)
    ensures Advances(since, horizon, Started(later, s, now), Seen(further, s, now), now)
  {
  }

  /** The record of every enabled schedule that has one reaches up to now. */
  ghost predicate UpToDate(schedules: map<nat, Schedule>, since: map<nat, Instant>, horizon: map<nat, Instant>,
                           now: Instant)
  {
    forall s | s in since && s in schedules && schedules[s].enabled :: s in horizon && now <= horizon[s]
  }

  lemma LatestAdvances(since: map<nat, Instant>, horizon: map<nat, Instant>, later: map<nat, Instant>,
                       further: map<nat, Instant>,
                       schedules: map<nat, Schedule>, now: Instant)
    requires Advances(since, horizon, later, further, now)
    ensures Advances(since, horizon, later, Latest(schedules, further, now), now)
    ensures UpToDate(schedules, later, Latest(schedules, further, now), now)
  {
  }

  /** `created` lists the new fires, and old ones are as before. */
  ghost predicate Created(before: Fires, after: Fires, created: seq<(nat, FireKey)>) {
    && (forall k | k in before :: k in after && after[k] == before[k])
    && (forall k :: k in created <==> k in after && k !in before)
  }

  lemma NoneCreated(fires: Fires)
    ensures Created(fires, fires, [])
  {
  }

  lemma CreatedMore(before: Fires, between: Fires, after: Fires, created: seq<(nat, FireKey)>,
                    more: seq<(nat, FireKey)>)
    requires Created(before, between, created)
    requires forall k | k in between :: k in after && after[k] == between[k]
    requires forall k :: k in more <==> k in after && k !in between
    ensures Created(before, after, created + more)
  {
  }

  lemma CreatedMeans(before: Fires, after: Fires, created: seq<(nat, FireKey)>)
    requires Created(before, after, created)
    ensures forall k | k in before :: k in after && after[k] == before[k]
    ensures forall k :: k in created <==> k in after && k !in before
  {
  }

  /** During a tick: the schedules in `todo` are due and untouched, no other one is due any more. */
  ghost predicate Pending(plan: map<nat, Schedule>, schedules: map<nat, Schedule>, todo: set<nat>, now: Instant) {
    && schedules.Keys == plan.Keys && todo <= plan.Keys
    && (forall s | s in plan && (s in todo || !IsDue(plan[s], now)) :: schedules[s] == plan[s])
    && (forall s | s in plan && s !in todo :: !IsDue(schedules[s], now))
    && (forall s | s in todo :: IsDue(plan[s], now))
  }

  lemma AllPending(plan: map<nat, Schedule>, now: Instant)
    ensures Pending(plan, plan, DueIds(plan, now), now)
  {
  }

  lemma PendingAre(plan: map<nat, Schedule>, schedules: map<nat, Schedule>, todo: set<nat>, now: Instant)
    requires Pending(plan, schedules, todo, now)
    ensures schedules.Keys == plan.Keys && todo <= DueIds(plan, now)
    ensures forall s | s in todo :: s in schedules && schedules[s] == plan[s] && IsDue(schedules[s], now)
  {
  }

  lemma PendingLess(plan: map<nat, Schedule>, schedules: map<nat, Schedule>, after: map<nat, Schedule>, todo: set<nat>,
                    s: nat, now: Instant)
    requires Pending(plan, schedules, todo, now) && s in todo
    requires s in after && after == schedules[s := after[s]] && !IsDue(after[s], now)
    ensures Pending(plan, after, todo - {s}, now)
  {
  }

  lemma NonePending(plan: map<nat, Schedule>, schedules: map<nat, Schedule>, now: Instant)
    requires Pending(plan, schedules, {}, now)
    ensures schedules.Keys == plan.Keys && forall s | s in schedules :: !IsDue(schedules[s], now)
  {
  }

  // ---------------------------------------------------------------------
  // When a call raises
  // ---------------------------------------------------------------------

  /** `add` does not take the schedule: text, zone, or no match in the window after now. */
  ghost predicate Rejected(schedule: Schedule, zones: map<string, Zone>, now: Instant) {
    || !Accepted(schedule.cron)
    || schedule.timezone !in zones
    || forall e | Denotes(schedule.cron, e) :: Exhausts(e, zones[schedule.timezone], now)
  }

  /** Enabling has to search, and finds nothing. */
  ghost predicate CannotMove(sched: Schedule, e: CronExpression, zone: Zone, now: Instant) {
    sched.nextRunAt.Some? && sched.nextRunAt.value <= now && Exhausts(e, zone, now)
  }
}
