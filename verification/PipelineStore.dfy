/** The three snapshot tables, and saving and loading the service state through them. */
module PipelineStore {
  import opened Common
  import opened PipelineTree

  type Fingerprint = string

  /** The complete durable state of the service. */
  datatype State = State(
    runs: map<RunId, Run>,
    triggerKeys: map<string, (RunId, Fingerprint)>,
    callbackEvents: map<RunId, map<string, Fingerprint>>)

  const EMPTY_STATE := State(map[], map[], map[])

  /** A run as its validated JSON text; the codec itself is left out. */
  datatype Snapshot = Json(run: Run)

  datatype Tables = Tables(
    runRows: map<RunId, Snapshot>,
    triggerRows: map<string, (RunId, Fingerprint)>,
    eventRows: map<(RunId, string), Fingerprint>)

  predicate UniqueIds(runs: map<RunId, Run>) {
    forall k, l | k in runs && l in runs && runs[k].id == runs[l].id :: k == l
  }

  function Ids(runs: map<RunId, Run>): set<RunId> {
    set k | k in runs :: runs[k].id
  }

  /** The primary and foreign keys of the three tables accept every row of the state. */
  predicate Storable(s: State) {
    && UniqueIds(s.runs)
    && (forall k | k in s.triggerKeys :: s.triggerKeys[k].0 in Ids(s.runs))
    && (forall r | r in s.callbackEvents :: s.callbackEvents[r] != map[] ==> r in Ids(s.runs))
  }

  ghost function RunWithId(runs: map<RunId, Run>, id: RunId): (r: Run)
    requires id in Ids(runs)
    ensures r.id == id
  {
    var k :| k in runs && runs[k].id == id;
    runs[k]
  }

  lemma RunWithIdUnique(runs: map<RunId, Run>, k: RunId)
    requires UniqueIds(runs) && k in runs
    ensures runs[k].id in Ids(runs) && RunWithId(runs, runs[k].id) == runs[k]
  {
  }

  ghost function RunRowsOf(runs: map<RunId, Run>): map<RunId, Snapshot> {
    map i | i in Ids(runs) :: Json(RunWithId(runs, i))
  }

  function EventRowsOf(logs: map<RunId, map<string, Fingerprint>>): map<(RunId, string), Fingerprint> {
    map r, e | r in logs && e in logs[r] :: (r, e) := logs[r][e]
  }

  ghost function Flatten(s: State): Tables {
    Tables(RunRowsOf(s.runs), s.triggerKeys, EventRowsOf(s.callbackEvents))
  }

  /** The event rows of one run, keyed by event id. */
  function EventsOf(rows: map<(RunId, string), Fingerprint>, r: RunId): map<string, Fingerprint> {
    map k | k in rows && k.0 == r :: k.1 := rows[k]
  }

  function EventOwners(rows: map<(RunId, string), Fingerprint>): set<RunId> {
    set k | k in rows :: k.0
  }

  function Regroup(t: Tables): State {
    State(
      map k | k in t.runRows :: t.runRows[k].run,
      t.triggerRows,
      map r | r in t.runRows.Keys + EventOwners(t.eventRows) :: EventsOf(t.eventRows, r))
  }

  predicate KeyedRuns(runs: map<RunId, Run>) {
    forall k {:trigger runs[k].id} | k in runs :: runs[k].id == k
  }

  /** Runs sit under their own id and every run has an event log. */
  predicate Keyed(s: State) {
    && KeyedRuns(s.runs)
    && s.callbackEvents.Keys == s.runs.Keys
  }

  lemma EventsOfRows(rows: map<(RunId, string), Fingerprint>, r: RunId, log: map<string, Fingerprint>)
    requires forall e :: e in log <==> (r, e) in rows
    requires forall e | e in log :: log[e] == rows[(r, e)]
    ensures EventsOf(rows, r) == log
  {
    forall e
      ensures e in EventsOf(rows, r) <==> e in log
    {
      assert e in EventsOf(rows, r) <==> (r, e) in rows;
    }
  }

  lemma RegroupedLogs(t: Tables, logs: map<RunId, map<string, Fingerprint>>)
    requires logs.Keys == t.runRows.Keys + EventOwners(t.eventRows)
    requires forall r, e | r in logs :: e in logs[r] <==> (r, e) in t.eventRows
    requires forall r, e | r in logs && e in logs[r] :: logs[r][e] == t.eventRows[(r, e)]
    ensures Regroup(t).callbackEvents == logs
  {
    hide EventsOf;
    forall r | r in logs
      ensures EventsOf(t.eventRows, r) == logs[r]
    {
      EventsOfRows(t.eventRows, r, logs[r]);
    }
  }

  lemma EventsRoundTrip(logs: map<RunId, map<string, Fingerprint>>, r: RunId)
    ensures EventsOf(EventRowsOf(logs), r) == if r in logs then logs[r] else map[]
  {
    var rows := EventRowsOf(logs);
    var want := if r in logs then logs[r] else map[];
    forall e
      ensures e in EventsOf(rows, r) <==> e in want
      ensures e in want ==> EventsOf(rows, r)[e] == want[e]
    {
      assert (r, e) in rows <==> e in want;
    }
  }

  lemma LoadedRun(s: State, k: RunId)
    requires UniqueIds(s.runs) && k in s.runs
    ensures var l := Regroup(Flatten(s)).runs;
            s.runs[k].id in l && l[s.runs[k].id] == s.runs[k]
  {
    RunWithIdUnique(s.runs, k);
  }

  lemma LoadedLogs(s: State)
    requires Storable(s)
    ensures Regroup(Flatten(s)).callbackEvents.Keys == Ids(s.runs)
  {
    hide RunRowsOf, EventRowsOf, EventsOf, Ids, Storable;
    RegroupedKeys(Flatten(s));
    RunRowKeys(s.runs);
    OwnersExist(s);
  }

  lemma RegroupedKeys(t: Tables)
    ensures Regroup(t).callbackEvents.Keys == t.runRows.Keys + EventOwners(t.eventRows)
  {
    hide EventsOf;
  }

  lemma RunRowKeys(runs: map<RunId, Run>)
    ensures RunRowsOf(runs).Keys == Ids(runs)
  {
  }

  lemma OwnersExist(s: State)
    requires Storable(s)
    ensures EventOwners(EventRowsOf(s.callbackEvents)) <= Ids(s.runs)
  {
    hide Ids;
    var rows := EventRowsOf(s.callbackEvents);
    forall k | k in rows
      ensures k.0 in Ids(s.runs)
    {
      assert k.1 in s.callbackEvents[k.0];
    }
  }

  lemma KeyedIds(runs: map<RunId, Run>)
    requires KeyedRuns(runs)
    ensures Ids(runs) == runs.Keys
  {
    forall k | k in runs
      ensures k in Ids(runs)
    {
      assert runs[k].id == k;
    }
  }

  lemma LoadedRunWhenKeyed(s: State, k: RunId)
    requires UniqueIds(s.runs) && k in s.runs && s.runs[k].id == k
    ensures k in Regroup(Flatten(s)).runs && Regroup(Flatten(s)).runs[k] == s.runs[k]
  {
    LoadedRun(s, k);
  }

  lemma LoadedRunsWhenKeyed(s: State)
    requires UniqueIds(s.runs) && KeyedRuns(s.runs)
    ensures Regroup(Flatten(s)).runs == s.runs
  {
    KeyedIds(s.runs);
    var l := Regroup(Flatten(s)).runs;
    assert l.Keys == s.runs.Keys;
    forall k | k in s.runs.Keys
      ensures l[k] == s.runs[k]
    {
      LoadedRunWhenKeyed(s, k);
    }
  }

  lemma LoadedLogsWhenKeyed(s: State)
    requires Storable(s) && Ids(s.runs) == s.callbackEvents.Keys
    ensures Regroup(Flatten(s)).callbackEvents == s.callbackEvents
  {
    hide RunRowsOf, EventRowsOf, EventsOf, Storable, Ids;
    LoadedLogs(s);
    forall r | r in s.callbackEvents
      ensures Regroup(Flatten(s)).callbackEvents[r] == s.callbackEvents[r]
    {
      EventsRoundTrip(s.callbackEvents, r);
    }
  }

  /**
    Loading what was saved gives the state back, nested event logs included, exactly when every
    run sits under its own id and exactly the runs have event logs.
   */
  lemma LoadAfterSave(s: State)
    requires Storable(s)
    ensures Regroup(Flatten(s)) == s <==> Keyed(s)
  {
    if Keyed(s) {
      LoadedRunsWhenKeyed(s);
      KeyedIds(s.runs);
      LoadedLogsWhenKeyed(s);
    }
    if Regroup(Flatten(s)) == s {
      LoadedLogs(s);
      forall k | k in s.runs
        ensures s.runs[k].id == k
      {
        var m :| m in s.runs && s.runs[m].id == k;
        LoadedRun(s, m);
      }
      KeyedIds(s.runs);
    }
  }

  /** A state the tables can hold and give back unchanged. */
  predicate Persistable(s: State) {
    Keyed(s) && forall k {:trigger s.triggerKeys[k]} | k in s.triggerKeys :: s.triggerKeys[k].0 in s.runs
  }

  lemma PersistableIsStorable(s: State)
    requires Persistable(s)
    ensures Storable(s)
  {
    KeyedIds(s.runs);
  }

  // ---------------------------------------------------------------------
  // Filling and reading the tables row by row
  // ---------------------------------------------------------------------

  /** The rows of all runs but those in `todo`. */
  ghost predicate RunsIn(runs: map<RunId, Run>, todo: set<RunId>, rows: map<RunId, Snapshot>) {
    && (forall k | k in runs && k !in todo :: runs[k].id in rows && rows[runs[k].id] == Json(runs[k]))
    && (forall i | i in rows :: exists k | k in runs && k !in todo :: runs[k].id == i)
    && (forall k, l | k in runs && l in runs && k !in todo && l !in todo && runs[k].id == runs[l].id :: k == l)
  }

  lemma NoRunIn(runs: map<RunId, Run>)
    ensures RunsIn(runs, runs.Keys, map[])
  {
  }

  lemma OneMoreRun(runs: map<RunId, Run>, todo: set<RunId>, rows: map<RunId, Snapshot>, k: RunId)
    requires RunsIn(runs, todo, rows) && k in todo && k in runs && runs[k].id !in rows
    ensures RunsIn(runs, todo - {k}, rows[runs[k].id := Json(runs[k])])
  {
    var more := rows[runs[k].id := Json(runs[k])];
    forall i | i in more
      ensures exists l | l in runs && l !in todo - {k} :: runs[l].id == i
    {
      if i != runs[k].id {
        var l :| l in runs && l !in todo && runs[l].id == i;
      }
    }
  }

  lemma SecondRun(runs: map<RunId, Run>, todo: set<RunId>, rows: map<RunId, Snapshot>, k: RunId)
    requires RunsIn(runs, todo, rows) && k in todo && k in runs && runs[k].id in rows
    ensures !UniqueIds(runs)
  {
  }

  lemma AllRunsIn(runs: map<RunId, Run>, rows: map<RunId, Snapshot>)
    requires RunsIn(runs, {}, rows)
    ensures UniqueIds(runs) && rows == RunRowsOf(runs)
  {
    assert UniqueIds(runs);
    forall i | i in Ids(runs)
      ensures i in rows && rows[i] == Json(RunWithId(runs, i))
    {
      var k :| k in runs && runs[k].id == i;
      RunWithIdUnique(runs, k);
    }
    assert rows.Keys == Ids(runs);
  }

  /** The runs of all logs but those in `todo` are known if they have an event. */
  predicate LogsKnown(logs: map<RunId, map<string, Fingerprint>>, todo: set<RunId>, known: map<RunId, Snapshot>) {
    forall r | r in logs && r !in todo :: logs[r] != map[] ==> r in known
  }

  lemma OneMoreKnown(logs: map<RunId, map<string, Fingerprint>>, todo: set<RunId>, known: map<RunId, Snapshot>,
                     r: RunId)
    requires LogsKnown(logs, todo, known) && r in logs && (logs[r] != map[] ==> r in known)
    ensures LogsKnown(logs, todo - {r}, known)
  {
  }

  /** The rows of all logs but those in `todo`. */
  ghost predicate LogsIn(logs: map<RunId, map<string, Fingerprint>>, todo: set<RunId>,
                         rows: map<(RunId, string), Fingerprint>)
  {
    && (forall k | k in rows :: k.0 in logs && k.0 !in todo && k.1 in logs[k.0] && rows[k] == logs[k.0][k.1])
    && (forall r, e | r in logs && r !in todo && e in logs[r] :: (r, e) in rows)
  }

  /** The same with the log of `r`, except its events in `left`. */
  ghost predicate EventsIn(logs: map<RunId, map<string, Fingerprint>>, todo: set<RunId>, r: RunId, left: set<string>,
                           rows: map<(RunId, string), Fingerprint>)
  {
    && r in todo && r in logs
    && (forall k | k in rows ::
          && k.0 in logs && k.1 in logs[k.0] && rows[k] == logs[k.0][k.1]
          && (k.0 !in todo || (k.0 == r && k.1 !in left)))
    && (forall q, e | q in logs && q !in todo && e in logs[q] :: (q, e) in rows)
    && (forall e | e in logs[r] && e !in left :: (r, e) in rows)
  }

  lemma NoLogIn(logs: map<RunId, map<string, Fingerprint>>, known: map<RunId, Snapshot>)
    ensures LogsIn(logs, logs.Keys, map[]) && LogsKnown(logs, logs.Keys, known)
  {
  }

  lemma LogBegins(logs: map<RunId, map<string, Fingerprint>>, todo: set<RunId>,
                  rows: map<(RunId, string), Fingerprint>, r: RunId)
    requires LogsIn(logs, todo, rows) && r in todo && r in logs
    ensures EventsIn(logs, todo, r, logs[r].Keys, rows)
  {
  }

  lemma OneMoreEvent(logs: map<RunId, map<string, Fingerprint>>, todo: set<RunId>, r: RunId, left: set<string>,
                     rows: map<(RunId, string), Fingerprint>, e: string)
    requires EventsIn(logs, todo, r, left, rows) && e in left && e in logs[r]
    ensures EventsIn(logs, todo, r, left - {e}, rows[(r, e) := logs[r][e]])
  {
  }

  lemma LogEnds(logs: map<RunId, map<string, Fingerprint>>, todo: set<RunId>,
                rows: map<(RunId, string), Fingerprint>, r: RunId)
    requires EventsIn(logs, todo, r, {}, rows)
    ensures LogsIn(logs, todo - {r}, rows)
  {
  }

  lemma AllLogsIn(logs: map<RunId, map<string, Fingerprint>>, known: map<RunId, Snapshot>,
                  rows: map<(RunId, string), Fingerprint>)
    requires LogsIn(logs, {}, rows) && LogsKnown(logs, {}, known)
    ensures forall r | r in logs :: logs[r] != map[] ==> r in known
    ensures rows == EventRowsOf(logs)
  {
  }

  /** Every event row outside `todo` is under its run; runs without events have an empty log. */
  ghost predicate Grouped(t: Tables, todo: set<(RunId, string)>, logs: map<RunId, map<string, Fingerprint>>) {
    && (forall r :: r in logs <==> r in t.runRows || exists k | k in t.eventRows && k !in todo :: k.0 == r)
    && (forall r, e | r in logs :: e in logs[r] <==> (r, e) in t.eventRows && (r, e) !in todo)
    && (forall r, e | r in logs && e in logs[r] :: logs[r][e] == t.eventRows[(r, e)])
  }

  lemma NothingGrouped(t: Tables, logs: map<RunId, map<string, Fingerprint>>)
    requires logs == map r | r in t.runRows :: map[]
    ensures Grouped(t, t.eventRows.Keys, logs)
  {
  }

  lemma OneMoreGrouped(t: Tables, todo: set<(RunId, string)>, logs: map<RunId, map<string, Fingerprint>>,
                       k: (RunId, string), log: map<string, Fingerprint>)
    requires Grouped(t, todo, logs) && k in todo && k in t.eventRows
    requires log == if k.0 in logs then logs[k.0] else map[]
    ensures Grouped(t, todo - {k}, logs[k.0 := log[k.1 := t.eventRows[k]]])
  {
    var more, rest := logs[k.0 := log[k.1 := t.eventRows[k]]], todo - {k};
    forall r
      ensures r in more <==> r in t.runRows || exists l | l in t.eventRows && l !in rest :: l.0 == r
    {
      if l :| l in t.eventRows && l !in rest && l.0 == r {
        assert l == k || l !in todo;
      }
      if r in logs && r !in t.runRows {
        var l :| l in t.eventRows && l !in todo && l.0 == r;
      }
    }
    forall r, e | r in more
      ensures e in more[r] <==> (r, e) in t.eventRows && (r, e) !in rest
    {
      if r == k.0 && r !in logs && (r, e) in t.eventRows {
        assert (r, e) !in todo ==> r in logs;
      }
    }
  }

  lemma AllGrouped(t: Tables, logs: map<RunId, map<string, Fingerprint>>)
    requires Grouped(t, {}, logs)
    ensures logs.Keys == t.runRows.Keys + EventOwners(t.eventRows)
    ensures forall r, e | r in logs :: e in logs[r] <==> (r, e) in t.eventRows
    ensures forall r, e | r in logs && e in logs[r] :: logs[r][e] == t.eventRows[(r, e)]
  {
  }

  /** The database file: rows change only through committed transactions. */
  class Store {
    var runRows: map<RunId, Snapshot>
    var triggerRows: map<string, (RunId, Fingerprint)>
    var eventRows: map<(RunId, string), Fingerprint>
    /** The state last committed. */
    ghost var committed: State

    ghost predicate Valid()
      reads this
    {
      Persistable(committed) && Rows() == Flatten(committed)
    }

    constructor ()
      ensures Valid() && committed == EMPTY_STATE
    {
      runRows, triggerRows, eventRows, committed := map[], map[], map[], EMPTY_STATE;
    }

    function Rows(): Tables
      reads this
    {
      Tables(runRows, triggerRows, eventRows)
    }

    /** Insert every run; false when a primary key is violated. */
    method InsertRuns(runs: map<RunId, Run>) returns (ok: bool)
      requires runRows == map[]
      modifies this`runRows
      ensures ok <==> UniqueIds(runs)
      ensures ok ==> runRows == RunRowsOf(runs)
    {
      hide UniqueIds, RunRowsOf, RunsIn;
      var todo := runs.Keys;
      NoRunIn(runs);
      while todo != {}
        invariant todo <= runs.Keys && RunsIn(runs, todo, runRows)
      {
        var k :| k in todo;
        if runs[k].id in runRows {
          SecondRun(runs, todo, runRows, k);
          return false;
        }
        OneMoreRun(runs, todo, runRows, k);
        runRows := runRows[runs[k].id := Json(runs[k])];
        todo := todo - {k};
      }
      AllRunsIn(runs, runRows);
      ok := true;
    }

    method InsertTriggers(keys: map<string, (RunId, Fingerprint)>) returns (ok: bool)
      requires triggerRows == map[]
      modifies this`triggerRows
      ensures ok <==> forall k | k in keys :: keys[k].0 in runRows
      ensures ok ==> triggerRows == keys
    {
      var todo := keys.Keys;
      while todo != {}
        invariant todo <= keys.Keys
        invariant forall k | k in keys && k !in todo :: keys[k].0 in runRows
        invariant triggerRows == map k | k in keys && k !in todo :: keys[k]
      {
        var k :| k in todo;
        if keys[k].0 !in runRows {
          return false;
        }
        triggerRows := triggerRows[k := keys[k]];
        todo := todo - {k};
      }
      ok := true;
    }

    /** The nested loop over runs and their events. */
    method InsertEvents(logs: map<RunId, map<string, Fingerprint>>) returns (ok: bool)
      requires eventRows == map[]
      modifies this`eventRows
      ensures ok <==> forall r | r in logs :: logs[r] != map[] ==> r in runRows
      ensures ok ==> eventRows == EventRowsOf(logs)
    {
      hide EventRowsOf, LogsIn, EventsIn, LogsKnown;
      var todo := logs.Keys;
      NoLogIn(logs, runRows);
      while todo != {}
        invariant todo <= logs.Keys && LogsKnown(logs, todo, runRows) && LogsIn(logs, todo, eventRows)
      {
        var r :| r in todo;
        var left := logs[r].Keys;
        LogBegins(logs, todo, eventRows, r);
        while left != {}
          invariant left <= logs[r].Keys && EventsIn(logs, todo, r, left, eventRows)
          invariant left < logs[r].Keys ==> r in runRows
        {
          var e :| e in left;
          if r !in runRows {
            assert logs[r] != map[];
            return false;
          }
          OneMoreEvent(logs, todo, r, left, eventRows, e);
          eventRows := eventRows[(r, e) := logs[r][e]];
          left := left - {e};
        }
        OneMoreKnown(logs, todo, runRows, r);
        LogEnds(logs, todo, eventRows, r);
        todo := todo - {r};
      }
      AllLogsIn(logs, runRows, eventRows);
      ok := true;
    }

    /** One transaction: empty the tables, insert everything, commit; any failure rolls back. */
    method Replace(state: State, fault: bool) returns (ok: bool)
      modifies this`runRows, this`triggerRows, this`eventRows
      ensures ok <==> Storable(state) && !fault
      ensures Rows() == if ok then Flatten(state) else old(Rows())
    {
      var before := Rows();
      eventRows, triggerRows, runRows := map[], map[], map[];
      ok := InsertRuns(state.runs);
      if ok {
        ok := InsertTriggers(state.triggerKeys);
        if ok {
          ok := InsertEvents(state.callbackEvents);
        }
      }
      if !ok || fault {
        runRows, triggerRows, eventRows := before.runRows, before.triggerRows, before.eventRows;
        ok := false;
      }
    }

    method Save(state: State, fault: bool) returns (ok: bool)
      requires Valid() && Persistable(state)
      modifies this
      ensures Valid()
      ensures ok <==> !fault
      ensures committed == if ok then state else old(committed)
    {
      PersistableIsStorable(state);
      ok := Replace(state, fault);
      if ok {
        committed := state;
      }
    }

    /** Puts every event row under its run, and an empty log under a run without events. */
    method GroupEvents() returns (logs: map<RunId, map<string, Fingerprint>>)
      ensures logs.Keys == runRows.Keys + EventOwners(eventRows)
      ensures forall r, e | r in logs :: e in logs[r] <==> (r, e) in eventRows
      ensures forall r, e | r in logs && e in logs[r] :: logs[r][e] == eventRows[(r, e)]
    {
      hide Grouped;
      logs := map r | r in runRows :: map[];
      var todo := eventRows.Keys;
      NothingGrouped(Rows(), logs);
      while todo != {}
        invariant todo <= eventRows.Keys && Grouped(Rows(), todo, logs)
      {
        var k :| k in todo;
        var log := if k.0 in logs then logs[k.0] else map[];
        OneMoreGrouped(Rows(), todo, logs, k, log);
        logs := logs[k.0 := log[k.1 := eventRows[k]]];
        todo := todo - {k};
      }
      AllGrouped(Rows(), logs);
    }

    /** Fill the dictionaries row by row; None when the database cannot be read. */
    method ReadRows(fault: bool) returns (state: Option<State>)
      ensures state == if fault then None else Some(Regroup(Rows()))
    {
      if fault {
        return None;
      }
      var logs := GroupEvents();
      RegroupedLogs(Rows(), logs);
      state := Some(State(map r | r in runRows :: runRows[r].run, triggerRows, logs));
    }

    /** What is loaded is what was last committed. */
    method Load(fault: bool) returns (state: Option<State>)
      requires Valid()
      ensures state == if fault then None else Some(committed)
    {
      state := ReadRows(fault);
      PersistableIsStorable(committed);
      LoadAfterSave(committed);
    }
  }
}
