/**
  Schedules and their fires: which instants are due, what the misfire policy selects, and what a schedule has
  recorded.
 */
module Scheduler {
  import opened Common
  import opened CronSearch
  import Q = TaskQueue

  /** Microseconds since the start of year 1, in UTC. */
  type Instant = nat

  datatype MisfirePolicy = Skip | FireOnce | CatchUpLimited

  datatype OverlapPolicy = Forbid | Allow | Replace

  datatype FireStatus = Enqueued | SkippedMisfire | SkippedOverlap

  /** A cron fire is identified by its instant, a manual one by a fresh number. */
  datatype FireKey = CronKey(instant: Instant) | ManualKey(id: nat)

  datatype Fire = Fire(scheduledFor: Instant, status: FireStatus, task: Option<nat>, createdAt: Instant)

  type Fires = map<(nat, FireKey), Fire>

  datatype Schedule = Schedule(
    taskType: string,
    payload: string,
    queue: string,
    priority: int,
    maxAttempts: int,
    cron: string,
    timezone: string,
    misfire: MisfirePolicy,
    overlap: OverlapPolicy,
    graceSeconds: nat,
    catchUpLimit: nat,
    enabled: bool,
    nextRunAt: Option<Instant>,
    lastRunAt: Option<Instant>,
    version: nat,
    createdAt: Instant,
    updatedAt: Instant)
  {
    /** The bounds of the schedule model. */
    predicate Valid() {
      && 1 <= |taskType| <= 100 && 1 <= |queue| <= 100
      && 0 <= priority <= 100 && 1 <= maxAttempts <= 100
      && 1 <= catchUpLimit <= 100 && graceSeconds <= 86400
    }

    /** The task a fire of schedule `s` enqueues. */
    function Request(s: nat, instant: Instant): Q.Request {
      Q.Request(taskType, payload, queue, priority, maxAttempts, Some(s), Some(instant))
    }
  }

  datatype Error = Malformed | UnknownZone | Exhausted | TooManyDue | NotFound | Conflict | QueueError

  // ---------------------------------------------------------------------
  // Misfires
  // ---------------------------------------------------------------------

  function Filter(due: seq<Instant>, keep: Instant -> bool): seq<Instant> {
    if due == [] then []
    else (if keep(due[0]) then [due[0]] else []) + Filter(due[1..], keep)
  }

  /** The instants before the cutoff, and those from it on. */
  function Early(due: seq<Instant>, cutoff: int): seq<Instant> {
    Filter(due, (i: Instant) => i < cutoff)
  }

  function Late(due: seq<Instant>, cutoff: int): seq<Instant> {
    Filter(due, (i: Instant) => i >= cutoff)
  }

  /** `_apply_misfire_policy`: the instants to run and those to record as missed. */
  function Split(sched: Schedule, due: seq<Instant>, now: Instant): (seq<Instant>, seq<Instant>) {
    if due == [] then ([], [])
    else match sched.misfire
      case FireOnce => ([due[|due| - 1]], due[..|due| - 1])
      case CatchUpLimited =>
        var cut := if |due| <= sched.catchUpLimit then 0 else |due| - sched.catchUpLimit;
        (due[cut..], due[..cut])
      case Skip =>
        var cutoff := now - sched.graceSeconds * Q.SECOND;
        (Late(due, cutoff), Early(due, cutoff))
  }

  predicate Increasing(due: seq<Instant>) {
    forall i, j | 0 <= i < j < |due| :: due[i] < due[j]
  }

  lemma FilterStep(due: seq<Instant>, cutoff: int)
    requires due != []
    ensures Early(due, cutoff) == (if due[0] < cutoff then [due[0]] else []) + Early(due[1..], cutoff)
    ensures Late(due, cutoff) == (if due[0] >= cutoff then [due[0]] else []) + Late(due[1..], cutoff)
  {
  }

  lemma NothingEarly(due: seq<Instant>, cutoff: int)
    requires due == []
    ensures Early(due, cutoff) == [] && Late(due, cutoff) == []
  {
  }

  /** In an increasing list the early instants come first. */
  lemma {:induction false} FilterCuts(due: seq<Instant>, cutoff: int)
    requires Increasing(due)
    ensures Early(due, cutoff) + Late(due, cutoff) == due
    ensures forall i | i in Early(due, cutoff) :: i < cutoff
    ensures forall i | i in Late(due, cutoff) :: i >= cutoff
    ensures due != [] && due[0] >= cutoff ==> Early(due, cutoff) == []
    decreases |due|
  {
    hide Early, Late, Increasing;
    if due == [] {
      NothingEarly(due, cutoff);
    } else {
      var rest := due[1..];
      IncreasingRest(due);
      FilterStep(due, cutoff);
      FilterCuts(rest, cutoff);
      if rest == [] {
        NothingEarly(rest, cutoff);
      }
      var early := if due[0] < cutoff then [due[0]] else [];
      var late := if due[0] >= cutoff then [due[0]] else [];
      Joined(due, early, late, Early(rest, cutoff), Late(rest, cutoff));
    }
  }

  lemma IncreasingRest(due: seq<Instant>)
    requires Increasing(due) && due != []
    ensures Increasing(due[1..]) && (due[1..] != [] ==> due[0] < due[1..][0])
  {
  }

  /** A first instant that is early, or late with nothing early after it, is put in front of its part. */
  lemma Joined(due: seq<Instant>, early: seq<Instant>, late: seq<Instant>, restEarly: seq<Instant>,
               restLate: seq<Instant>)
    requires due != [] && restEarly + restLate == due[1..]
    requires early + late == [due[0]] && (late != [] ==> early == [] && restEarly == [])
    requires early != [] ==> late == []
    ensures (early + restEarly) + (late + restLate) == due
    ensures forall i | i in early + restEarly :: i in early || i in restEarly
    ensures forall i | i in late + restLate :: i in late || i in restLate
  {
    assert due == [due[0]] + due[1..];
  }

  /** Skipped and selected instants cut the due list in two, at the place the policy promises. */
  lemma SplitIsCut(sched: Schedule, due: seq<Instant>, now: Instant)
    requires sched.Valid() && Increasing(due) && due != []
    ensures var (selected, skipped) := Split(sched, due, now);
            && skipped + selected == due
            && (sched.misfire.FireOnce? ==> |selected| == 1)
            && (sched.misfire.CatchUpLimited? ==> |selected| == Min(sched.catchUpLimit, |due|))
            && (sched.misfire.Skip? ==> forall i | i in due ::
                  i in selected <==> now - sched.graceSeconds * Q.SECOND <= i)
  {
    hide Split, Increasing;
    match sched.misfire
    case FireOnce => FireOnceIsCut(sched, due, now);
    case CatchUpLimited => CatchUpIsCut(sched, due, now);
    case Skip => SkipIsCut(sched, due, now);
  }

  lemma FireOnceIsCut(sched: Schedule, due: seq<Instant>, now: Instant)
    requires sched.misfire.FireOnce? && due != []
    ensures Split(sched, due, now).1 + Split(sched, due, now).0 == due && |Split(sched, due, now).0| == 1
  {
    hide Filter;
  }

  lemma CatchUpIsCut(sched: Schedule, due: seq<Instant>, now: Instant)
    requires sched.misfire.CatchUpLimited? && due != []
    ensures Split(sched, due, now).1 + Split(sched, due, now).0 == due
    ensures |Split(sched, due, now).0| == Min(sched.catchUpLimit, |due|)
  {
    hide Filter;
  }

  lemma SkipIsCut(sched: Schedule, due: seq<Instant>, now: Instant)
    requires sched.misfire.Skip? && Increasing(due) && due != []
    ensures Split(sched, due, now).1 + Split(sched, due, now).0 == due
    ensures forall i | i in due :: i in Split(sched, due, now).0 <==> now - sched.graceSeconds * Q.SECOND <= i
  {
    var cutoff := now - sched.graceSeconds * Q.SECOND;
    SplitBySkip(sched, due, now);
    hide Split, Early, Late, Increasing;
    FilterCuts(due, cutoff);
    forall i | i in due
      ensures i in Late(due, cutoff) <==> cutoff <= i
    {
      assert i in Early(due, cutoff) + Late(due, cutoff);
    }
  }

  lemma SplitBySkip(sched: Schedule, due: seq<Instant>, now: Instant)
    requires sched.misfire.Skip? && due != []
    ensures var cutoff := now - sched.graceSeconds * Q.SECOND;
            Split(sched, due, now) == (Late(due, cutoff), Early(due, cutoff))
  {
    hide Filter;
  }

  // ---------------------------------------------------------------------
  // Due instants
  // ---------------------------------------------------------------------

  /** A whole minute that the expression matches. */
  predicate IsMatch(e: CronExpression, zone: Zone, i: Instant) {
    i % MINUTE == 0 && Matches(e, zone, i / MINUTE)
  }

  /** No match strictly between two instants. */
  ghost predicate Quiet(e: CronExpression, zone: Zone, from: Instant, to: Instant) {
    forall i: Instant | from < i < to :: !IsMatch(e, zone, i)
  }

  /** What `next_after` finds, in terms of instants. */
  lemma NextIsLeast(e: CronExpression, zone: Zone, instant: Instant, t: nat)
    requires instant / MINUTE < t && Matches(e, zone, t) && NoMatch(e, zone, instant / MINUTE + 1, t)
    ensures instant < t * MINUTE && IsMatch(e, zone, t * MINUTE) && Quiet(e, zone, instant, t * MINUTE)
  {
    hide Matches;
    assert (t * MINUTE) / MINUTE == t && (t * MINUTE) % MINUTE == 0;
    forall i: Instant | instant < i < t * MINUTE && i % MINUTE == 0
      ensures !Matches(e, zone, i / MINUTE)
    {
      assert instant / MINUTE + 1 <= i / MINUTE < t;
    }
  }

  /** `due` lists `first` and all matches after it up to `now`; `next` is the first match after `now`. */
  ghost predicate DueList(e: CronExpression, zone: Zone, first: Instant, now: Instant, due: seq<Instant>,
                          next: Instant)
  {
    && due != [] && due[0] == first && Increasing(due)
    && (forall k | 0 <= k < |due| :: due[k] <= now)
    && (forall k | 1 <= k < |due| :: IsMatch(e, zone, due[k]))
    && now < next && IsMatch(e, zone, next)
    && (forall i: Instant | first < i < next && IsMatch(e, zone, i) :: i in due)
  }

  // ---------------------------------------------------------------------
  // What a schedule has recorded
  // ---------------------------------------------------------------------

  /**
    The record of a schedule from `since` on: its cron fires after that are exactly the matching minutes up to
    `horizon`, and `next` is the first match after `horizon`.
   */
  ghost predicate Timely(e: CronExpression, zone: Zone, fires: Fires, s: nat, since: Instant, horizon: Instant,
                         next: Option<Instant>)
  {
    && since <= horizon
    && next.Some? && horizon < next.value && IsMatch(e, zone, next.value)
    && Quiet(e, zone, horizon, next.value)
    && forall i: Instant | since < i :: (s, CronKey(i)) in fires <==> i <= horizon && IsMatch(e, zone, i)
  }

  /** Time passes without reaching the next run. */
  lemma TimelyIdle(e: CronExpression, zone: Zone, fires: Fires, s: nat, since: Instant, horizon: Instant,
                   next: Option<Instant>, now: Instant)
    requires Timely(e, zone, fires, s, since, horizon, next) && now < next.value
    ensures Timely(e, zone, fires, s, since, Max(horizon, now), next)
  {
    hide IsMatch;
    var h := Max(horizon, now);
    assert Quiet(e, zone, h, next.value);
    forall i: Instant | since < i
      ensures (s, CronKey(i)) in fires <==> i <= h && IsMatch(e, zone, i)
    {
      if horizon < i <= h {
        assert !IsMatch(e, zone, i);
      }
    }
  }

  /** Recording everything due brings the record up to the present. */
  lemma TimelyFired(e: CronExpression, zone: Zone, before: Fires, after: Fires, s: nat, since: Instant,
                    horizon: Instant, first: Instant,
                    now: Instant, due: seq<Instant>, next: Instant)
    requires Timely(e, zone, before, s, since, horizon, Some(first)) && DueList(e, zone, first, now, due, next)
    requires forall i: Instant :: (s, CronKey(i)) in after <==> (s, CronKey(i)) in before || i in due
    ensures Timely(e, zone, after, s, since, now, Some(next))
  {
    hide IsMatch;
    assert first == due[0] <= now;
    forall i: Instant | since < i
      ensures (s, CronKey(i)) in after <==> i <= now && IsMatch(e, zone, i)
    {
      if i in due {
        var k :| 0 <= k < |due| && due[k] == i;
      }
      assert horizon < i <= now && IsMatch(e, zone, i) ==> first <= i;
    }
    assert forall i | i in due :: i <= now;
  }

  /** A schedule without later fires has an exact record from now on, once its next run is the first match after now. */
  lemma TimelyFromNow(e: CronExpression, zone: Zone, fires: Fires, s: nat, now: Instant, next: Instant)
    requires forall i: Instant | (s, CronKey(i)) in fires :: i <= now
    requires now < next && IsMatch(e, zone, next) && Quiet(e, zone, now, next)
    ensures Timely(e, zone, fires, s, now, now, Some(next))
  {
    hide IsMatch;
  }

  // ---------------------------------------------------------------------
  // When a due schedule cannot catch up
  // ---------------------------------------------------------------------

  /** The planned run and the matches after it up to now. */
  ghost function DueSet(e: CronExpression, zone: Zone, first: Instant, now: Instant): set<Instant> {
    set i: Instant | first <= i <= now && (i == first || IsMatch(e, zone, i))
  }

  /** The search for the first match after an instant finds none in its window. */
  ghost predicate Exhausts(e: CronExpression, zone: Zone, instant: Instant) {
    NoMatch(e, zone, instant / MINUTE + 1, instant / MINUTE + 1 + MAX_SEARCH)
  }

  /** Too many instants are due, or the search window after one of them is empty. */
  ghost predicate CannotCatchUp(e: CronExpression, zone: Zone, first: Instant, now: Instant, maxDue: nat) {
    |DueSet(e, zone, first, now)| > maxDue || exists i | i in DueSet(e, zone, first, now) :: Exhausts(e, zone, i)
  }

  ghost function Elements(due: seq<Instant>): set<Instant> {
    set i | i in due
  }

  lemma {:induction false} IncreasingSize(due: seq<Instant>)
    requires Increasing(due)
    ensures |Elements(due)| == |due|
  {
    if due == [] {
      assert Elements(due) == {};
    } else {
      var last := due[|due| - 1];
      var rest := due[..|due| - 1];
      IncreasingSize(rest);
      assert last !in Elements(rest);
      assert due == rest + [last];
      assert Elements(due) == Elements(rest) + {last};
    }
  }

  /** A list of more due instants than allowed shows that there are too many. */
  lemma TooManyAreDue(e: CronExpression, zone: Zone, first: Instant, now: Instant, maxDue: nat, due: seq<Instant>)
    requires Increasing(due) && |due| > maxDue && forall i | i in due :: i in DueSet(e, zone, first, now)
    ensures CannotCatchUp(e, zone, first, now, maxDue)
  {
    IncreasingSize(due);
    hide IsMatch, Increasing;
    var all := DueSet(e, zone, first, now);
    assert Elements(due) <= all;
    assert all == Elements(due) + (all - Elements(due));
    assert |all| >= |Elements(due)|;
  }

  lemma AllAreDue(e: CronExpression, zone: Zone, first: Instant, now: Instant, maxDue: nat, due: seq<Instant>,
                  next: Instant)
    requires DueList(e, zone, first, now, due, next) && |due| <= maxDue
    requires forall i | i in due :: !Exhausts(e, zone, i)
    ensures !CannotCatchUp(e, zone, first, now, maxDue)
  {
    hide IsMatch, Exhausts;
    IncreasingSize(due);
    forall i: Instant
      ensures i in DueSet(e, zone, first, now) <==> i in due
    {
      if i in due {
        var k :| 0 <= k < |due| && due[k] == i;
      }
    }
    assert DueSet(e, zone, first, now) == Elements(due);
  }
}
