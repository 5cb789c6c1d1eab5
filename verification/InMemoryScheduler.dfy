/** The in-memory scheduler over a task queue it shares with producers and workers. */
module InMemoryScheduler {
  import opened Calendar
  import opened Common
  import opened CronSearch
  import opened Scheduler
  import opened SchedulerState
  import Q = TaskQueue
  import InMemoryTaskQueue

  class InMemoryScheduler {
    const queue: InMemoryTaskQueue.InMemoryTaskQueue
    const zones: map<string, Zone>
    const maxDue: nat
    /** What the other users of the queue do while the scheduler waits for the n-th time: anything. */
    const others: nat -> seq<Q.Issued>
    var awaits: nat
    var schedules: map<nat, Schedule>
    var expressions: map<nat, CronExpression>
    var fires: Fires
    /** The first planned run of each schedule. */
    ghost var begun: map<nat, Instant>
    /** From when on the record of a schedule is exact, and up to when. */
    ghost var since: map<nat, Instant>
    ghost var horizon: map<nat, Instant>
    /** Schedules that were run by hand. */
    ghost var manual: set<nat>

    ghost predicate OthersForeign() {
      forall n: nat, i: nat | i < |others(n)| :: Q.UnitInterval(others(n)[i].entropy) && others(n)[i].call.IsForeign()
    }

    ghost predicate Structured()
      reads this`schedules, this`expressions, this`since, this`horizon
    {
      1 <= maxDue && OthersForeign() && Shaped(schedules, expressions, zones, since, horizon)
    }

    ghost predicate Base()
      reads this, queue
    {
      && Structured() && queue.Valid()
      && Tidy(queue.St(), fires, schedules.Keys)
      && Backed(queue.St(), schedules, fires)
      && AllNoOverlap(queue.St(), schedules, manual)
    }

    ghost predicate Valid()
      reads this, queue
    {
      Base() && Windowed(schedules, fires, begun) && AllTimely(schedules, expressions, zones, fires, since, horizon)
    }

    constructor (queue: InMemoryTaskQueue.InMemoryTaskQueue, zones: map<string, Zone>, maxDue: nat,
                 others: nat -> seq<Q.Issued>)
      requires queue.Valid() && 1 <= maxDue
      requires forall n: nat, i: nat | i < |others(n)| ::
                 Q.UnitInterval(others(n)[i].entropy) && others(n)[i].call.IsForeign()
      requires forall k | k in queue.keys :: k.1.Named?
      requires forall id | id in queue.tasks :: queue.tasks[id].request.schedule.None?
      ensures Valid() && schedules == map[] && fires == map[]
      ensures this.queue == queue && this.zones == zones && this.maxDue == maxDue
    {
      this.queue, this.zones, this.maxDue, this.others := queue, zones, maxDue, others;
      awaits, schedules, expressions, fires := 0, map[], map[], map[];
      begun, since, horizon, manual := map[], map[], map[], {};
    }

    /** Gives way to the other users of the queue. */
    method Await()
      requires queue.Valid() && OthersForeign()
      modifies this`awaits, queue
      ensures queue.Valid() && Q.Foreign(old(queue.St()), queue.St())
    {
      hide Q.Inv, Q.Evolves;
      var steps := others(awaits);
      ghost var start := queue.St();
      Q.KeysOf(start);
      Q.EvolvesReflexive(start);
      for i := 0 to |steps|
        invariant queue.Valid() && Q.Foreign(start, queue.St())
      {
        ghost var before := queue.St();
        queue.Perform(steps[i]);
        Q.ForeignTransitive(start, before, queue.St());
      }
      awaits := awaits + 1;
    }

    /** Whatever others do to the queue, the scheduler's invariant stands. */
    method LetOthersRun()
      requires Valid()
      modifies this`awaits, queue
      ensures Valid()
    {
      hide Q.Inv, Q.Foreign, Tidy, Backed, AllNoOverlap, AllTimely, Windowed;
      ghost var before := queue.St();
      Await();
      ForeignKeepsBase(before, queue.St(), schedules, fires, manual);
    }

    /**
      Between any two calls, whatever producers and workers do: a FORBID schedule never run by hand has at most one
      active task, a REPLACE schedule at most one that nobody asked to cancel.
     */
    lemma NeverOverlaps(s: nat)
      requires Valid() && s in schedules && s !in manual
      ensures schedules[s].overlap.Forbid? ==> |queue.ActiveFor(s)| <= 1
      ensures schedules[s].overlap.Replace? ==> |Q.UncancelledIds(queue.tasks, s)| <= 1
    {
      assert NoOverlap(queue.St(), s, schedules[s].overlap);
    }

    /**
      Between any two calls, every enqueued fire has a task in the queue that asks for what its schedule says at the
      instant of the fire, and no two fires share one.
     */
    lemma EveryFireHasItsTask(k: (nat, FireKey), l: (nat, FireKey))
      requires Valid() && k in fires && fires[k].status.Enqueued?
      ensures k.0 in schedules && fires[k].task.Some? && fires[k].task.value in queue.tasks
      ensures var request, sched := queue.tasks[fires[k].task.value].request, schedules[k.0];
              && request.taskType == sched.taskType && request.payload == sched.payload && request.queue == sched.queue
              && request.priority == sched.priority && request.maxAttempts == sched.maxAttempts
              && request.schedule == Some(k.0) && request.availableAt == Some(fires[k].scheduledFor)
      ensures k.1.CronKey? ==> fires[k].scheduledFor == k.1.instant
      ensures l in fires && l != k ==> fires[l].task != fires[k].task
    {
      hide Q.Inv, Tidy, AllNoOverlap, Structured, Windowed, AllTimely, Schedule.Valid;
      assert BackedAt(queue.St(), schedules, k, fires[k]);
      if l in fires {
        assert BackedAt(queue.St(), schedules, l, fires[l]);
      }
    }

    // -------------------------------------------------------------------
    // tick
    // -------------------------------------------------------------------

    /** The loop of `_fire_due_locked` that collects due instants. */
    method DueUpTo(e: CronExpression, zone: Zone, first: Instant, now: Instant)
      returns (result: Result<(seq<Instant>, Instant), Error>)
      requires first <= now
      ensures result.Err? <==> CannotCatchUp(e, zone, first, now, maxDue)
      ensures result.Ok? ==> DueList(e, zone, first, now, result.value.0, result.value.1) && |result.value.0| <= maxDue
    {
      hide IsMatch, CannotCatchUp, Exhausts;
      var due: seq<Instant> := [];
      var cursor := first;
      while cursor <= now
        invariant Increasing(due) && |due| <= maxDue
        invariant forall k | 0 <= k < |due| :: due[k] <= now
        invariant due == [] ==> cursor == first
        invariant due != [] ==> due[0] == first && due[|due| - 1] < cursor && IsMatch(e, zone, cursor)
        invariant forall k | 1 <= k < |due| :: IsMatch(e, zone, due[k])
        invariant forall i: Instant | first < i < cursor && IsMatch(e, zone, i) :: i in due
        invariant forall i | i in due :: i in DueSet(e, zone, first, now) && !Exhausts(e, zone, i)
        decreases now - cursor
      {
        assert cursor in DueSet(e, zone, first, now);
        due := due + [cursor];
        if |due| > maxDue {
          TooManyAreDue(e, zone, first, now, maxDue, due);
          return Err(TooManyDue);
        }
        var t := NextAfter(e, zone, cursor);
        ExhaustsMeans(e, zone, cursor);
        if t.Err? {
          ExhaustedAt(e, zone, first, now, maxDue, cursor);
          return Err(Exhausted);
        }
        NextIsLeast(e, zone, cursor, t.value);
        cursor := t.value * MINUTE;
      }
      AllAreDue(e, zone, first, now, maxDue, due, cursor);
      result := Ok((due, cursor));
    }

    lemma ExhaustsMeans(e: CronExpression, zone: Zone, i: Instant)
      ensures Exhausts(e, zone, i) <==> NoMatch(e, zone, i / MINUTE + 1, i / MINUTE + 1 + MAX_SEARCH)
    {
    }

    lemma ExhaustedAt(e: CronExpression, zone: Zone, first: Instant, now: Instant, maxDue: nat, i: Instant)
      requires i in DueSet(e, zone, first, now) && Exhausts(e, zone, i)
      ensures CannotCatchUp(e, zone, first, now, maxDue)
    {
    }

    /** `_record_fire` for the missed instants. */
    method RecordMissed(s: nat, missed: seq<Instant>, now: Instant) returns (created: seq<(nat, FireKey)>)
      modifies this`fires
      ensures forall k :: k in fires <==> k in old(fires) || (k.0 == s && k.1.CronKey? && k.1.instant in missed)
      ensures forall k | k in old(fires) :: fires[k] == old(fires)[k]
      ensures forall k | k in fires && k !in old(fires) :: fires[k] == Fire(k.1.instant, SkippedMisfire, None, now)
      ensures forall k :: k in created <==> k in fires && k !in old(fires)
    {
      created := [];
      ghost var before := fires;
      for n := 0 to |missed|
        invariant forall k :: k in fires <==> k in before || (k.0 == s && k.1.CronKey? && k.1.instant in missed[..n])
        invariant forall k | k in before :: fires[k] == before[k]
        invariant forall k | k in fires && k !in before :: fires[k] == Fire(k.1.instant, SkippedMisfire, None, now)
        invariant forall k :: k in created <==> k in fires && k !in before
      {
        var key := (s, CronKey(missed[n]));
        assert missed[..n + 1] == missed[..n] + [missed[n]];
        var isNew := key !in fires;
        created := if isNew then created + [key] else created;
        fires := if isNew then fires[key := Fire(missed[n], SkippedMisfire, None, now)] else fires;
      }
      assert missed[..|missed|] == missed;
    }

    /** Asks every task in `active` to stop; afterwards no task of the schedule is active without such a request. */
    method CancelActive(s: nat, active: set<nat>, now: Instant)
      requires queue.Valid() && OthersForeign()
      requires active == Q.ActiveIds(queue.tasks, s)
      modifies this`awaits, queue
      ensures queue.Valid() && Q.Foreign(old(queue.St()), queue.St())
      ensures Q.UncancelledIds(queue.tasks, s) == {}
    {
      hide Q.Inv, Q.Evolves, Q.CancelAsked;
      ghost var start := queue.St();
      Q.KeysOf(start);
      Q.EvolvesReflexive(start);
      var todo := active;
      assert forall id | id in active :: id in start.tasks;
      while todo != {}
        invariant queue.Valid() && Q.Foreign(start, queue.St())
        invariant todo <= active
        invariant Q.UncancelledIds(queue.tasks, s) <= todo
      {
        var id :| id in todo;
        ghost var a := queue.St();
        Await();
        ghost var b := queue.St();
        Q.ForeignNeverActivates(a, b, s);
        Q.ForeignTransitive(start, a, b);
        StillThere(start, b, id);
        AskClears(b, id, s, now);
        var r := queue.RequestCancel(id, now);
        Q.ForeignTransitive(start, b, queue.St());
        todo := todo - {id};
      }
    }

    lemma StillThere(p: Q.Queue, q: Q.Queue, id: nat)
      requires Q.Foreign(p, q) && id in p.tasks
      ensures id in q.tasks
    {
    }

    /**
      One selected instant: skip it, or cancel what it replaces, and enqueue its task. `checked` is the queue when
      the overlap policy looked at it.
     */
    method FireOne(s: nat, instant: Instant, now: Instant) returns (ghost checked: Q.Queue)
      requires Base() && s in schedules && (s, CronKey(instant)) !in fires
      modifies this`fires, this`awaits, queue
      ensures Base()
      ensures (s, CronKey(instant)) in fires
              && fires == old(fires)[(s, CronKey(instant)) := fires[(s, CronKey(instant))]]
      ensures FiredOne(schedules[s], s, now, fires[(s, CronKey(instant))], old(queue.St()), checked, queue.St())
    {
      hide Q.Inv, Q.Foreign, Q.Evolves, Q.ActiveIds, Q.UncancelledIds, Tidy, Backed, AllNoOverlap, Structured;
      var sched := schedules[s];
      ghost var q0 := queue.St();
      KnownSchedule(s);
      Await();
      checked := queue.St();
      ForeignKeepsBase(q0, checked, schedules, fires, manual);
      var active := queue.ActiveFor(s);
      if sched.overlap.Forbid? && active != {} {
        Same(checked);
        ForeignEvolves(checked, checked);
        SkipOne(s, instant, now);
      } else {
        EnqueueOne(s, instant, now, active);
      }
    }

    method SkipOne(s: nat, instant: Instant, now: Instant)
      requires Base() && s in schedules && (s, CronKey(instant)) !in fires
      modifies this`fires
      ensures Base()
      ensures fires == old(fires)[(s, CronKey(instant)) := Fire(instant, SkippedOverlap, None, now)]
    {
      hide Q.Inv, Tidy, Backed, AllNoOverlap, Structured;
      fires := fires[(s, CronKey(instant)) := Fire(instant, SkippedOverlap, None, now)];
      TidyMoreFires(queue.St(), old(fires), fires, schedules.Keys);
      BackedMore(queue.St(), schedules, old(fires), fires);
    }

    /** Cancel what the fire replaces, then enqueue its task. */
    method EnqueueOne(s: nat, instant: Instant, now: Instant, active: set<nat>)
      requires Base() && s in schedules && (s, CronKey(instant)) !in fires
      requires active == Q.ActiveIds(queue.tasks, s) && (schedules[s].overlap.Forbid? ==> active == {})
      modifies this`fires, this`awaits, queue
      ensures Base()
      ensures (s, CronKey(instant)) in fires
              && fires == old(fires)[(s, CronKey(instant)) := fires[(s, CronKey(instant))]]
      ensures var fire := fires[(s, CronKey(instant))];
              && fire.createdAt == now && fire.status.Enqueued? && fire.task.Some?
              && Q.ActiveIds(queue.tasks, s) <= Q.ActiveIds(old(queue.tasks), s) + {fire.task.value}
              && (schedules[s].overlap.Replace? ==> Q.UncancelledIds(queue.tasks, s) <= {fire.task.value})
      ensures Q.Evolves(old(queue.St()), queue.St())
    {
      hide Q.Inv, Q.Foreign, Q.Evolves, Q.ActiveIds, Q.UncancelledIds, Tidy, Backed, AllNoOverlap, Structured;
      KnownSchedule(s);
      ghost var q1 := queue.St();
      Same(q1);
      if schedules[s].overlap.Replace? {
        CancelActive(s, active, now);
      }
      ghost var q2 := queue.St();
      assert Q.Foreign(q1, q2);
      Await();
      ghost var q3 := queue.St();
      Q.ForeignTransitive(q1, q2, q3);
      Q.ForeignNeverActivates(q1, q3, s);
      Q.ForeignNeverActivates(q2, q3, s);
      ForeignKeepsBase(q1, q3, schedules, fires, manual);
      EnqueueFire(s, instant, now);
      ForeignEvolves(q1, q3);
      Q.EvolvesTransitive(q1, q3, queue.St());
    }

    lemma ForeignEvolves(p: Q.Queue, q: Q.Queue)
      requires Q.Foreign(p, q)
      ensures Q.Evolves(p, q)
    {
    }

    lemma KnownSchedule(s: nat)
      requires Structured() && s in schedules
      ensures schedules[s].Valid() && OthersForeign() && s in expressions && schedules[s].timezone in zones
              && schedules[s].nextRunAt.Some?
    {
    }

    lemma Same(q: Q.Queue)
      requires Q.Inv(q)
      ensures Q.Foreign(q, q)
    {
      Q.KeysOf(q);
      Q.EvolvesReflexive(q);
    }

    /** The enqueue call of one fire, which cannot be a replay, and its record. */
    method EnqueueFire(s: nat, instant: Instant, now: Instant)
      requires Base() && s in schedules && (s, CronKey(instant)) !in fires
      requires s !in manual && schedules[s].overlap.Forbid? ==> Q.ActiveIds(queue.tasks, s) == {}
      requires s !in manual && schedules[s].overlap.Replace? ==> Q.UncancelledIds(queue.tasks, s) == {}
      modifies this`fires, queue
      ensures Base() && Q.Evolves(old(queue.St()), queue.St())
      ensures (s, CronKey(instant)) in fires
              && fires == old(fires)[(s, CronKey(instant)) := fires[(s, CronKey(instant))]]
      ensures var fire := fires[(s, CronKey(instant))];
              && fire.createdAt == now && fire.status.Enqueued? && fire.task.Some?
              && Q.ActiveIds(queue.tasks, s) == Q.ActiveIds(old(queue.tasks), s) + {fire.task.value}
              && Q.UncancelledIds(queue.tasks, s) == Q.UncancelledIds(old(queue.tasks), s) + {fire.task.value}
    {
      hide Q.Inv, Q.Evolves, Q.ActiveIds, Q.UncancelledIds, Q.Enqueued, AllNoOverlap, Structured, Backed, Tidy,
           Schedule.Valid;
      KnownSchedule(s);
      var sched := schedules[s];
      var request := Q.Request(taskType := sched.taskType, payload := sched.payload, queue := sched.queue,
                               priority := sched.priority, maxAttempts := sched.maxAttempts, schedule := Some(s),
                               availableAt := Some(instant));
      RequestValid(schedules[s], s, instant);
      var key := Q.ForFire(s, instant);
      ghost var before := queue.St();
      FireKeyIsNew(before, fires, schedules.Keys, request.taskType, s, instant);
      var id := queue.DrawId();
      var r := queue.Enqueue(request, Some(key), id, now);
      var fire := Fire(instant, Enqueued, Some(id), now);
      fires := fires[(s, CronKey(instant)) := fire];
      FireKeeps(before, queue.St(), schedules, old(fires), fires, manual, s, instant, id, request, now, fire);
    }

    /** The loop of `_fire_due_locked` over the selected instants; one recorded before is left alone. */
    method FireSelected(s: nat, selected: seq<Instant>, now: Instant)
      returns (created: seq<(nat, FireKey)>, ghost checks: map<(nat, FireKey), Q.Queue>)
      requires Base() && s in schedules
      modifies this`fires, this`awaits, queue
      ensures Base() && Recorded(old(fires), fires, s, selected)
      ensures forall k :: k in created <==> k in fires && k !in old(fires)
      ensures forall k | k in fires && k !in old(fires) :: !fires[k].status.SkippedMisfire?
      ensures Selected(schedules[s], s, now, old(fires), fires, old(queue.St()), queue.St(), checks)
    {
      hide Tidy, AllNoOverlap, Backed, Structured, Q.Inv, Selected, Reached, SkippedIfBusy, Recorded;
      created, checks := [], map[];
      ghost var before, start := fires, queue.St();
      NothingSelected(schedules[s], s, now, before, start);
      NothingRecorded(before, s);
      for n := 0 to |selected|
        invariant Base() && Recorded(before, fires, s, selected[..n])
        invariant forall k :: k in created <==> k in fires && k !in before
        invariant forall k | k in fires && k !in before :: !fires[k].status.SkippedMisfire?
        invariant Selected(schedules[s], s, now, before, fires, start, queue.St(), checks)
        invariant Reached(start, queue.St(), s, before, fires)
      {
        var key := (s, CronKey(selected[n]));
        assert selected[..n + 1] == selected[..n] + [selected[n]];
        RecordedKeeps(before, fires, s, selected[..n]);
        ghost var between := fires;
        if key !in fires {
          ghost var o := queue.St();
          ghost var checked := FireOne(s, selected[n], now);
          OneMoreSelected(schedules[s], s, now, before, between, fires, key, start, o, checked, queue.St(), checks);
          SkippedIfBusyMeans(schedules[s], s, fires[key], checked);
          checks := checks[key := checked];
          created := created + [key];
        }
        RecordedMore(before, between, fires, s, selected[..n], selected[n]);
      }
      assert selected[..|selected|] == selected;
    }

    lemma NothingSelected(sched: Schedule, s: nat, now: Instant, fires: Fires, q: Q.Queue)
      requires Q.Inv(q)
      ensures Selected(sched, s, now, fires, fires, q, q, map[]) && Reached(q, q, s, fires, fires)
    {
      NothingReached(q, s, fires);
    }

    lemma SkippedIfBusyMeans(sched: Schedule, s: nat, fire: Fire, c: Q.Queue)
      requires SkippedIfBusy(sched, s, fire, c)
      ensures !fire.status.SkippedMisfire?
    {
    }

    /** The part of `_fire_due_locked` before the schedule itself is written: collect, split, record, fire. */
    method CatchUp(s: nat, first: Instant, now: Instant)
      returns (result: Result<seq<(nat, FireKey)>, Error>, due: seq<Instant>, next: Instant,
               ghost checks: map<(nat, FireKey), Q.Queue>)
      requires Base() && s in schedules && s in expressions && schedules[s].timezone in zones && first <= now
      modifies this`fires, this`awaits, queue
      ensures Base()
      ensures result.Err? <==> CannotCatchUp(expressions[s], zones[schedules[s].timezone], first, now, maxDue)
      ensures result.Err? ==> fires == old(fires) && queue.St() == old(queue.St())
      ensures result.Ok? ==>
                DueList(expressions[s], zones[schedules[s].timezone], first, now, due, next) && |due| <= maxDue
      ensures result.Ok? ==> Recorded(old(fires), fires, s, due)
      ensures result.Ok? ==> Marked(schedules[s], s, old(fires), fires, due, now, old(queue.St()), queue.St(), checks)
      ensures result.Ok? ==> forall k :: k in result.value <==> k in fires && k !in old(fires)
    {
      hide Tidy, AllNoOverlap, Backed, Q.Inv, DueList, Split, Recorded, Structured, Marked, Selected, CannotCatchUp;
      due, next, checks := [], 0, map[];
      var sched := schedules[s];
      KnownSchedule(s);
      var e, zone := expressions[s], zones[sched.timezone];
      var collected := DueUpTo(e, zone, first, now);
      if collected.Err? {
        return Err(collected.error), due, next, checks;
      }
      due, next := collected.value.0, collected.value.1;
      var (selected, skipped) := Split(sched, due, now);
      ghost var before, start := fires, queue.St();
      DueListFacts(e, zone, first, now, due, next);
      SplitIsCut(sched, due, now);
      var missed := RecordMissed(s, skipped, now);
      MissedRecorded(before, fires, s, skipped);
      ghost var between := fires;
      TidyRecorded(start, before, between, s, skipped, schedules.Keys);
      MissedBacked(start, schedules, before, between, s, skipped, now);
      var fired;
      fired, checks := FireSelected(s, selected, now);
      RecordedTwice(before, between, fires, s, skipped, selected);
      AllMarked(sched, before, between, fires, s, due, now, start, queue.St(), checks);
      CreatedTwice(before, between, fires, s, skipped, selected, missed, fired);
      result := Ok(missed + fired);
    }

    /** Schedule `s` cannot catch up at `now`: too much is due, or a search window after a due instant is empty. */
    ghost predicate Stuck(s: nat, sched: Schedule, now: Instant)
      reads this`expressions
    {
      && s in expressions && sched.timezone in zones && sched.nextRunAt.Some?
      && CannotCatchUp(expressions[s], zones[sched.timezone], sched.nextRunAt.value, now, maxDue)
    }

    /**
      `_fire_due_locked`: raises exactly if the due instants are too many or end in an empty search window, and then
      changes nothing.
     */
    method FireDue(s: nat, now: Instant)
      returns (result: Result<seq<(nat, FireKey)>, Error>, ghost due: seq<Instant>, ghost next: Instant,
               ghost checks: map<(nat, FireKey), Q.Queue>)
      requires Valid() && s in schedules && IsDue(schedules[s], now)
      modifies this`schedules, this`fires, this`awaits, this`since, this`horizon, queue
      ensures Valid()
      ensures old(schedules)[s].timezone in zones && s in expressions
      ensures result.Err? <==> Stuck(s, old(schedules)[s], now)
      ensures result.Err? ==>
                schedules == old(schedules) && fires == old(fires) && since == old(since) && horizon == old(horizon)
                              && queue.St() == old(queue.St())
      ensures result.Ok? ==>
                && s in schedules && schedules == old(schedules)[s := schedules[s]] && |due| <= maxDue
                && CaughtUp(expressions[s], zones[old(schedules)[s].timezone], old(schedules)[s], old(fires), fires, s,
                            now, due, next,
                            schedules[s], old(queue.St()), queue.St(), checks)
                && since == Started(old(since), s, now) && horizon == Seen(old(horizon), s, now)
      ensures forall k | k in old(fires) :: k in fires && fires[k] == old(fires)[k]
      ensures result.Ok? ==> forall k :: k in result.value <==> k in fires && k !in old(fires)
    {
      hide Tidy, AllNoOverlap, Backed, Q.Inv, AllTimely, Windowed, DueList, Recorded, OthersForeign, Marked, Shaped,
           CannotCatchUp,
           SameTasks;
      KnownSchedule(s);
      var sched := schedules[s];
      ghost var before, plan := fires, schedules;
      var created, last, planned;
      created, last, planned, checks := CatchUp(s, sched.nextRunAt.value, now);
      due, next := last, planned;
      if created.Err? {
        return created, due, next, checks;
      }
      CatchUpKeepsTimely(schedules, expressions, zones, before, fires, begun, since, horizon, s, now, due, next);
      schedules := schedules[s := sched.(lastRunAt := Some(last[|last| - 1]), nextRunAt := Some(planned),
                                         version := sched.version + 1, updatedAt := now)];
      since := Started(since, s, now);
      horizon := Seen(horizon, s, now);
      SameOverlap(queue.St(), plan, schedules, manual);
      SameTasksKeepsBacked(queue.St(), plan, schedules, fires);
      RecordedKeeps(before, fires, s, due);
      result := created;
    }

    lemma CaughtUpMeans(e: CronExpression, zone: Zone, sched: Schedule, before: Fires, after: Fires, s: nat,
                        now: Instant,
                        due: seq<Instant>, next: Instant, ran: Schedule, p: Q.Queue, q: Q.Queue,
                        checks: map<(nat, FireKey), Q.Queue>)
      requires CaughtUp(e, zone, sched, before, after, s, now, due, next, ran, p, q, checks)
      ensures !IsDue(ran, now) && ran.enabled == sched.enabled
    {
      hide IsMatch;
    }

    /** The due schedule that comes first: by its next run, then by its identifier. */
    method NextDue(todo: set<nat>) returns (s: nat)
      requires todo != {} && forall r | r in todo :: r in schedules && schedules[r].nextRunAt.Some?
      ensures s in todo
      ensures forall r | r in todo && r != s :: ComesFirst(schedules, s, r)
    {
      s :| s in todo;
      var rest := todo - {s};
      while rest != {}
        invariant s in todo && rest <= todo && s !in rest
        invariant forall r | r in todo && r !in rest && r != s :: ComesFirst(schedules, s, r)
      {
        var r :| r in rest;
        rest := rest - {r};
        var planned, first := schedules[r].nextRunAt.value, schedules[s].nextRunAt.value;
        if planned < first || (planned == first && r < s) {
          s := r;
        }
      }
    }

    /**
      `tick`: every enabled schedule that is due catches up, and the call raises exactly if one of them cannot. When
      it returns normally, every schedule that was due has an exact record, and the record of every enabled schedule
      that has one is exact up to now at least.
     */
    method Tick(now: Instant) returns (result: Result<seq<(nat, FireKey)>, Error>)
      requires Valid()
      modifies this`schedules, this`fires, this`awaits, this`since, this`horizon, queue
      ensures Valid() && schedules.Keys == old(schedules).Keys
      ensures result.Err? <==> exists s | s in DueIds(old(schedules), now) :: Stuck(s, old(schedules)[s], now)
      ensures forall k | k in old(fires) :: k in fires && fires[k] == old(fires)[k]
      ensures Advances(old(since), old(horizon), since, horizon, now)
      ensures result.Ok? ==> DueIds(schedules, now) == {} && DueIds(old(schedules), now) <= since.Keys
      ensures result.Ok? ==> forall k :: k in result.value <==> k in fires && k !in old(fires)
      ensures result.Ok? ==> UpToDate(schedules, since, horizon, now)
      ensures AllExact(schedules, expressions, zones, fires, begun, since, horizon)
    {
      hide Tidy, AllNoOverlap, Backed, Q.Inv, AllTimely, Windowed, CaughtUp, OthersForeign, Shaped, ComesFirst,
           AllExact, Advances,
           Seen, Started, Latest, Stuck, Pending, UpToDate, Created;
      ghost var plan, before, from, to := schedules, fires, since, horizon;
      var todo := set s | s in schedules && schedules[s].enabled && schedules[s].nextRunAt.Some?
                          && schedules[s].nextRunAt.value <= now;
      DueIdsAre(schedules, todo, now);
      var created: seq<(nat, FireKey)> := [];
      StartTick(schedules, expressions, zones, since, horizon, now);
      AllPending(schedules, now);
      NoneCreated(fires);
      while todo != {}
        invariant Valid() && Pending(plan, schedules, todo, now)
        invariant forall s | s in DueIds(plan, now) && s !in todo :: !Stuck(s, plan[s], now) && s in since
        invariant Advances(from, to, since, horizon, now)
        invariant Created(before, fires, created)
      {
        PendingAre(plan, schedules, todo, now);
        var s := NextDue(todo);
        SeenAdvances(from, to, since, horizon, s, now);
        StartedKeys(since, s, now);
        ghost var current, was, early, q := schedules, schedules[s], fires, queue.St();
        ghost var due, next, checks;
        var fired;
        fired, due, next, checks := FireDue(s, now);
        if fired.Err? {
          assert s in DueIds(plan, now) && Stuck(s, plan[s], now);
          AllTimelyMeans(schedules, expressions, zones, fires, begun, since, horizon);
          CreatedMeans(before, fires, created);
          return fired;
        }
        CaughtUpMeans(expressions[s], zones[was.timezone], was, early, fires, s, now, due, next, schedules[s], q,
                      queue.St(), checks);
        PendingLess(plan, current, schedules, todo, s, now);
        CreatedMore(before, early, fires, created, fired.value);
        created := created + fired.value;
        todo := todo - {s};
      }
      CreatedMeans(before, fires, created);
      NonePending(plan, schedules, now);
      EndTick(now);
      LatestAdvances(from, to, since, horizon, schedules, now);
      horizon := Latest(schedules, horizon, now);
      AllTimelyMeans(schedules, expressions, zones, fires, begun, since, horizon);
      result := Ok(created);
    }

    lemma DueIdsAre(schedules: map<nat, Schedule>, ids: set<nat>, now: Instant)
      requires forall s :: s in ids <==> s in schedules && schedules[s].enabled && schedules[s].nextRunAt.Some?
                                         && schedules[s].nextRunAt.value <= now
      ensures ids == DueIds(schedules, now)
    {
    }

    lemma StartTick(schedules: map<nat, Schedule>, expressions: map<nat, CronExpression>, zones: map<string, Zone>,
                    since: map<nat, Instant>, horizon: map<nat, Instant>, now: Instant)
      requires Shaped(schedules, expressions, zones, since, horizon)
      ensures Advances(since, horizon, since, horizon, now)
    {
    }

    lemma StartedKeys(since: map<nat, Instant>, s: nat, now: Instant)
      ensures Started(since, s, now).Keys == since.Keys + {s}
    {
    }

    lemma EndTick(now: Instant)
      requires Valid() && forall s | s in schedules :: !IsDue(schedules[s], now)
      ensures Shaped(schedules, expressions, zones, since, Latest(schedules, horizon, now))
      ensures AllTimely(schedules, expressions, zones, fires, since, Latest(schedules, horizon, now))
    {
      hide AllTimely, Shaped, Latest;
      assert DueIds(schedules, now) == {};
      AllIdle(schedules, expressions, zones, fires, since, horizon, now);
    }

    // -------------------------------------------------------------------
    // Schedules
    // -------------------------------------------------------------------

    /** The checks and the search of `add`. */
    method FirstRun(schedule: Schedule, now: Instant) returns (result: Result<(CronExpression, Instant), Error>)
      ensures result.Err? <==> Rejected(schedule, zones, now)
      ensures result.Ok? ==>
                var (e, next) := result.value;
                && schedule.timezone in zones && Denotes(schedule.cron, e)
                && now < next && IsMatch(e, zones[schedule.timezone], next)
                && Quiet(e, zones[schedule.timezone], now, next)
    {
      hide IsMatch, Quiet, MatchesDay, NoMatch, Accepted, Denotes;
      var parsed := Parse(schedule.cron);
      if parsed.Err? {
        return Err(Malformed);
      }
      if schedule.timezone !in zones {
        return Err(UnknownZone);
      }
      var t := NextAfter(parsed.value, zones[schedule.timezone], now);
      forall e | Denotes(schedule.cron, e)
        ensures e == parsed.value
      {
        DenotesOne(schedule.cron, e, parsed.value);
      }
      if t.Err? {
        return Err(Exhausted);
      }
      NextIsLeast(parsed.value, zones[schedule.timezone], now, t.value);
      result := Ok((parsed.value, t.value * MINUTE));
    }

    /**
      `add`: raises exactly for a known identifier or a rejected schedule, even a disabled one; the first run is the
      first match after now unless given.
     */
    method Add(s: nat, schedule: Schedule, now: Instant) returns (result: Result<Schedule, Error>)
      requires Valid() && schedule.Valid()
      modifies this`schedules, this`expressions, this`begun, this`since, this`horizon
      ensures Valid()
      ensures result.Err? <==> s in old(schedules) || Rejected(schedule, zones, now)
      ensures result.Err? ==> schedules == old(schedules) && expressions == old(expressions) && since == old(since)
      ensures result.Ok? ==>
                && s in expressions && schedule.timezone in zones && Denotes(schedule.cron, expressions[s])
                && result.value == schedule.(nextRunAt := result.value.nextRunAt, createdAt := now, updatedAt := now)
                && schedules == old(schedules)[s := result.value] && result.value.nextRunAt.Some?
                && (schedule.nextRunAt.Some? ==> result.value.nextRunAt == schedule.nextRunAt)
                && (schedule.nextRunAt.None? ==>
                      && now < result.value.nextRunAt.value
                      && IsMatch(expressions[s], zones[schedule.timezone], result.value.nextRunAt.value)
                      && Quiet(expressions[s], zones[schedule.timezone], now, result.value.nextRunAt.value))
                && begun == old(begun)[s := result.value.nextRunAt.value]
                && since == (if schedule.nextRunAt.None? then old(since)[s := now] else old(since)) && s !in old(since)
    {
      hide Tidy, AllNoOverlap, Backed, Q.Inv, AllTimely, Windowed, OthersForeign, Shaped, IsMatch, Quiet, Denotes,
           Rejected, SameTasks;
      var planned := FirstRun(schedule, now);
      if planned.Err? {
        return Err(planned.error);
      }
      if s in schedules {
        return Err(Conflict);
      }
      var (e, calculated) := planned.value;
      var stored := schedule.(nextRunAt := if schedule.nextRunAt.Some? then schedule.nextRunAt else Some(calculated),
                              createdAt := now, updatedAt := now);
      NewScheduleIsIdle(queue.St(), fires, schedules, manual, s, stored);
      KnownBefore(schedules, expressions, zones, since, horizon, s);
      AddShaped(schedules, expressions, zones, since, horizon, s, stored, e, now);
      AddKeepsTimely(schedules, expressions, zones, fires, begun, since, horizon, s, stored, e, now,
                     schedule.nextRunAt.None?);
      SameTasksAdded(schedules, s, stored);
      SameTasksKeepsBacked(queue.St(), schedules, schedules[s := stored], fires);
      schedules := schedules[s := stored];
      expressions := expressions[s := e];
      begun := begun[s := stored.nextRunAt.value];
      since := if schedule.nextRunAt.None? then since[s := now] else since;
      horizon := if schedule.nextRunAt.None? then horizon[s := now] else horizon;
      result := Ok(stored);
    }

    lemma KnownBefore(schedules: map<nat, Schedule>, expressions: map<nat, CronExpression>, zones: map<string, Zone>,
                      since: map<nat, Instant>, horizon: map<nat, Instant>, s: nat)
      requires Shaped(schedules, expressions, zones, since, horizon) && s !in schedules
      ensures s !in since
    {
    }

    lemma SameTasksAdded(schedules: map<nat, Schedule>, s: nat, stored: Schedule)
      requires s in schedules ==> forall i: Instant :: stored.Request(s, i) == schedules[s].Request(s, i)
      ensures SameTasks(schedules, schedules[s := stored])
    {
    }

    /**
      `set_enabled`: enabling moves a run that is already due to the first match after now, and the record starts
      anew there; the minutes in between are never recorded. The call raises exactly for an unknown identifier or if
      that search finds nothing; the flag is then set all the same.
     */
    method SetEnabled(s: nat, enabled: bool, now: Instant) returns (result: Result<Schedule, Error>)
      requires Valid()
      modifies this`schedules, this`since, this`horizon
      ensures Valid()
      ensures s in old(schedules) ==>
                s in expressions && old(schedules)[s].timezone in zones && old(schedules)[s].nextRunAt.Some?
      ensures result.Err? <==>
                || s !in old(schedules)
                || (enabled && CannotMove(old(schedules)[s], expressions[s], zones[old(schedules)[s].timezone], now))
      ensures s !in old(schedules) ==> result == Err(NotFound) && schedules == old(schedules)
      ensures s in old(schedules) && result.Err? ==>
                && result == Err(Exhausted)
                && schedules == old(schedules)[s := old(schedules)[s].(enabled := true)]
                && (schedules != old(schedules) <==> !old(schedules)[s].enabled)
      ensures result.Ok? ==>
                var was := old(schedules)[s];
                && result.value
                   == was.(enabled := enabled, nextRunAt := result.value.nextRunAt, version := was.version + 1,
                           updatedAt := now)
                && schedules == old(schedules)[s := result.value] && result.value.nextRunAt.Some?
      ensures result.Ok? ==>
                var was, next := old(schedules)[s], result.value.nextRunAt.value;
                if enabled && was.nextRunAt.value <= now
                then now < next && IsMatch(expressions[s], zones[was.timezone], next)
                     && Quiet(expressions[s], zones[was.timezone], now, next)
                else next == was.nextRunAt.value
      ensures since == if result.Ok? && enabled && old(schedules)[s].nextRunAt.value <= now then old(since)[s := now]
              else old(since)
    {
      hide Tidy, AllNoOverlap, Backed, Q.Inv, AllTimely, Windowed, OthersForeign, Shaped, IsMatch, Quiet, SameTasks,
           CannotMove;
      if s !in schedules {
        return Err(NotFound);
      }
      KnownSchedule(s);
      var next := Rescheduled(s, enabled, now);
      var was := schedules[s];
      var sched := if next.Err? then was.(enabled := enabled)
                   else was.(enabled := enabled, nextRunAt := Some(next.value), version := was.version + 1,
                             updatedAt := now);
      var moved := next.Ok? && enabled && was.nextRunAt.value <= now;
      WriteSchedule(s, sched, moved, now);
      result := if next.Err? then Err(Exhausted) else Ok(sched);
    }

    /** Write the switched schedule back; if its run moved, its record starts anew. */
    method WriteSchedule(s: nat, sched: Schedule, moved: bool, now: Instant)
      requires Valid() && s in schedules && s in expressions && schedules[s].nextRunAt.Some? && sched.nextRunAt.Some?
      requires sched
               == schedules[s].(enabled := sched.enabled, nextRunAt := sched.nextRunAt, version := sched.version,
                                updatedAt := sched.updatedAt)
      requires schedules[s].timezone in zones && schedules[s].Valid()
      requires if moved
               then schedules[s].nextRunAt.value <= now < sched.nextRunAt.value
                    && IsMatch(expressions[s], zones[sched.timezone], sched.nextRunAt.value)
                    && Quiet(expressions[s], zones[sched.timezone], now, sched.nextRunAt.value)
               else sched.nextRunAt == schedules[s].nextRunAt
      modifies this`schedules, this`since, this`horizon
      ensures Valid() && schedules == old(schedules)[s := sched]
      ensures since == if moved then old(since)[s := now] else old(since)
    {
      hide Tidy, AllNoOverlap, Backed, Q.Inv, AllTimely, Windowed, OthersForeign, Shaped, IsMatch, Quiet, SameTasks;
      ghost var plan := schedules;
      if moved {
        MoveKeepsTimely(schedules, expressions, zones, fires, begun, since, horizon, s, sched, now);
      } else {
        TouchKeepsTimely(schedules, expressions, zones, fires, begun, since, horizon, s, sched);
      }
      SameTasksAdded(schedules, s, sched);
      schedules := schedules[s := sched];
      since := if moved then since[s := now] else since;
      horizon := if moved then horizon[s := now] else horizon;
      SameOverlap(queue.St(), plan, schedules, manual);
      SameTasksKeepsBacked(queue.St(), plan, schedules, fires);
    }

    /** When an enabled schedule runs next: as planned, unless that is already past. */
    method Rescheduled(s: nat, enabled: bool, now: Instant) returns (result: Result<Instant, Error>)
      requires s in schedules && s in expressions && schedules[s].nextRunAt.Some? && schedules[s].timezone in zones
      ensures result.Err? <==> enabled && CannotMove(schedules[s], expressions[s], zones[schedules[s].timezone], now)
      ensures result.Ok? && (!enabled || now < schedules[s].nextRunAt.value) ==>
                result.value == schedules[s].nextRunAt.value
      ensures result.Ok? && enabled && schedules[s].nextRunAt.value <= now ==>
                && now < result.value && IsMatch(expressions[s], zones[schedules[s].timezone], result.value)
                && Quiet(expressions[s], zones[schedules[s].timezone], now, result.value)
    {
      hide IsMatch, Quiet, NoMatch;
      if !enabled || now < schedules[s].nextRunAt.value {
        return Ok(schedules[s].nextRunAt.value);
      }
      var t := NextAfter(expressions[s], zones[schedules[s].timezone], now);
      if t.Err? {
        return Err(Exhausted);
      }
      NextIsLeast(expressions[s], zones[schedules[s].timezone], now, t.value);
      result := Ok(t.value * MINUTE);
    }

    /** `run_now`: always enqueues, whatever the overlap policy; `fireId` is fresh. */
    method RunNow(s: nat, fireId: nat, now: Instant) returns (result: Result<Fire, Error>)
      requires Valid() && (s, ManualKey(fireId)) !in fires
      modifies this`fires, this`awaits, this`manual, queue
      ensures Valid()
      ensures result.Ok? <==> s in schedules
      ensures result.Err? ==> fires == old(fires)
      ensures result.Ok? ==>
                fires == old(fires)[(s, ManualKey(fireId)) := result.value] && result.value.status.Enqueued?
      ensures result.Ok? ==> result.value.task.Some? && result.value.task.value in queue.tasks
                             && queue.tasks[result.value.task.value].request == schedules[s].Request(s, now)
    {
      hide Tidy, AllNoOverlap, Backed, Q.Inv, Q.Foreign, Q.Evolves, AllTimely, Windowed, OthersForeign, Shaped;
      if s !in schedules {
        return Err(NotFound);
      }
      KnownSchedule(s);
      ghost var q0 := queue.St();
      Await();
      ForeignKeepsBase(q0, queue.St(), schedules, fires, manual);
      var fire := EnqueueByHand(s, fireId, now);
      result := Ok(fire);
    }

    /** The enqueue call of a manual fire and its record. */
    method EnqueueByHand(s: nat, fireId: nat, now: Instant) returns (fire: Fire)
      requires Valid() && s in schedules && schedules[s].Valid() && (s, ManualKey(fireId)) !in fires
      modifies this`fires, this`manual, queue
      ensures Valid()
      ensures fires == old(fires)[(s, ManualKey(fireId)) := fire] && fire.status.Enqueued?
      ensures fire.task.Some? && fire.task.value in queue.tasks
              && queue.tasks[fire.task.value].request == schedules[s].Request(s, now)
    {
      hide Tidy, AllNoOverlap, Backed, Q.Inv, Q.Evolves, AllTimely, Windowed, OthersForeign, Shaped, Schedule.Valid;
      ghost var q1, before, hands := queue.St(), fires, manual;
      var sched := schedules[s];
      var request := Q.Request(taskType := sched.taskType, payload := sched.payload, queue := sched.queue,
                               priority := sched.priority, maxAttempts := sched.maxAttempts, schedule := Some(s),
                               availableAt := Some(now));
      var key := Q.ForManual(s, fireId);
      RequestValid(schedules[s], s, now);
      ManualKeyIsNew(q1, fires, schedules.Keys, request.taskType, s, fireId);
      var id := queue.DrawId();
      var r := queue.Enqueue(request, Some(key), id, now);
      fire := Fire(now, Enqueued, Some(id), now);
      fires := fires[(s, ManualKey(fireId)) := fire];
      manual := manual + {s};
      ManualKeeps(q1, queue.St(), schedules, before, fires, hands, s, fireId, id, request, now, fire);
      SameCronFires(schedules, expressions, zones, before, fires, begun, since, horizon);
    }

    lemma RequestValid(sched: Schedule, s: nat, instant: Instant)
      requires sched.Valid()
      ensures sched.Request(s, instant).Valid()
    {
    }
  }

  // ---------------------------------------------------------------------
  // A schedule that is switched on although the call raises
  // ---------------------------------------------------------------------

  /** The first minutes of 28 and 29 February 2096. */
  const FEBRUARY_28: nat := DayNumber(Date(2096, 2, 28)) * 1440
  const FEBRUARY_29: nat := DayNumber(Date(2096, 2, 29)) * 1440

  /** The disabled schedule of midnight every 29 February. */
  function LeapSchedule(): Schedule {
    Schedule("report", "", "default", 0, 1, LEAP_DAYS, "UTC", Skip, Allow, 0, 1, false, None, None, 1, 0, 0)
  }

  lemma LeapDates()
    ensures FEBRUARY_28 + 1440 == FEBRUARY_29 && FEBRUARY_29 + 1440 == MARCH_2096
  {
    hide DaysBeforeYear;
    assert DaysBeforeMonth(2096, 3) == DaysBeforeMonth(2096, 2) + 29;
  }

  lemma LeapDayMatches()
    ensures IsMatch(LeapDays(), UTC, FEBRUARY_29 * MINUTE)
  {
    hide Matches, DaysBeforeYear, DaysBeforeMonth, DateOf;
    var d := Date(2096, 2, 29);
    DateOfDayNumber(d);
    UtcMatches(LeapDays(), DayNumber(d), 0, 0);
    assert (FEBRUARY_29 * MINUTE) / MINUTE == FEBRUARY_29 && (FEBRUARY_29 * MINUTE) % MINUTE == 0;
  }

  lemma LeapScheduleIsTaken(zones: map<string, Zone>)
    requires zones == map["UTC" := UTC]
    ensures LeapSchedule().Valid() && !Rejected(LeapSchedule(), zones, FEBRUARY_28 * MINUTE)
  {
    hide Matches, Accepted, Denotes, MatchAfter, DayNumber;
    LeapDaysAreLost();
    LeapDayMatches();
    LeapDates();
    assert (FEBRUARY_28 * MINUTE) / MINUTE == FEBRUARY_28 && (FEBRUARY_29 * MINUTE) / MINUTE == FEBRUARY_29;
    assert !Exhausts(LeapDays(), UTC, FEBRUARY_28 * MINUTE);
  }

  /** On 1 March its run is past, and the search for the next one fails. */
  lemma LeapScheduleIsLost(e: CronExpression, sched: Schedule)
    requires Denotes(LEAP_DAYS, e) && sched.nextRunAt.Some?
             && Quiet(e, UTC, FEBRUARY_28 * MINUTE, sched.nextRunAt.value)
    ensures CannotMove(sched, e, UTC, MARCH_2096 * MINUTE)
  {
    hide IsMatch, Denotes, MatchesEveryYear, DayNumber, Matches;
    LeapDaysAreLost();
    DenotesOne(LEAP_DAYS, e, LeapDays());
    LeapDayMatches();
    LeapDates();
    assert sched.nextRunAt.value <= FEBRUARY_29 * MINUTE;
    assert (MARCH_2096 * MINUTE) / MINUTE == MARCH_2096;
  }

  /** Added on 28 February 2096 and enabled on 1 March, the schedule is enabled afterwards although the call raises. */
  method EnablingCanFailHalfWay() returns (result: Result<Schedule, Error>, before: Schedule, after: Schedule)
    ensures result == Err(Exhausted)
    ensures !before.enabled && before.cron == LEAP_DAYS && after == before.(enabled := true)
  {
    hide Accepted, Denotes, Rejected, CannotMove, Quiet, IsMatch, Q.Inv, Tidy, Backed, Shaped, Windowed, AllTimely,
         DayNumber;
    var queue := new InMemoryTaskQueue.InMemoryTaskQueue(Q.DEFAULT_POLICY);
    var scheduler := new InMemoryScheduler(queue, map["UTC" := UTC], 1, _ => []);
    LeapScheduleIsTaken(scheduler.zones);
    var added := scheduler.Add(0, LeapSchedule(), FEBRUARY_28 * MINUTE);
    before := scheduler.schedules[0];
    LeapScheduleIsLost(scheduler.expressions[0], before);
    result := scheduler.SetEnabled(0, true, MARCH_2096 * MINUTE);
    after := scheduler.schedules[0];
  }
}
