/**
  Artifact operations as sequences of awaited steps. Between two steps of one operation any steps of operations on
  other artifacts may come; one artifact has one operation in flight at a time.
 */
module ArtifactSystem {
  import opened Common
  import opened Artifacts

  /** The step an operation awaits. */
  datatype Flight =
    | Auditing
    | Saving
    | DiscardingReported(key: Key)
    | DiscardingReserved(code: string)
    | Failing(code: string)
    | Finalizing(content: Content)
    | DiscardingFailed
    | Quarantining
    | MarkingDeleted(expected: ArtifactStatus)
    | Restoring

  /** The rows, the objects, those moved aside, and the operations in flight. */
  datatype World = World(rows: Rows, live: Objects, trash: map<nat, (Key, Content)>, flights: map<nat, Flight>)

  /**
    One step with what goes wrong in it. An operation whose last write is done only audits, and is no longer in
    flight.
   */
  datatype Move =
    | BeginCreate(id: nat, run: string)
    | BeginDelete(id: nat)
    | Audit(id: nat, fails: bool)
    | Save(id: nat, outcome: SaveOutcome)
    | Discard(id: nat, fault: StorageFault)
    | Write(id: nat, fails: bool)
    | Quarantine(id: nat, fault: StorageFault)
    | Restore(id: nat, fault: StorageFault)

  predicate Awaits(w: World, m: Move) {
    m.id in w.flights &&
    match w.flights[m.id]
    case Auditing => m.Audit?
    case Saving => m.Save?
    case DiscardingReported(_) => m.Discard?
    case DiscardingReserved(_) => m.Discard?
    case DiscardingFailed => m.Discard?
    case Failing(_) => m.Write?
    case Finalizing(_) => m.Write?
    case MarkingDeleted(_) => m.Write?
    case Quarantining => m.Quarantine?
    case Restoring => m.Restore?
  }

  /**
    An operation starts on an artifact that is not in flight, with a free identifier or on a row that can be deleted.
   */
  predicate Possible(w: World, m: Move) {
    match m
    case BeginCreate(id, _) => id !in w.flights && id !in w.rows
    case BeginDelete(id) => id !in w.flights && id in w.rows && (w.rows[id].status.Ready? || w.rows[id].status.Failed?)
    case _ => Awaits(w, m)
  }

  function Landed(w: World, id: nat): World {
    w.(flights := w.flights - {id})
  }

  function Flying(w: World, id: nat, flight: Flight): World {
    w.(flights := w.flights[id := flight])
  }

  /** An object goes away unless the call fails without effect. */
  function Without(live: Objects, key: Key, fault: StorageFault): Objects {
    if fault.FailsClean? then live else live - {key}
  }

  function LiveAfterSave(live: Objects, id: nat, outcome: SaveOutcome): Objects {
    match outcome
    case SaveFails(_, leftover) => if leftover.Some? then live[ForArtifact(id) := leftover.value] else live
    case Saved(key, content) => live[key := content]
  }

  /** What `create` awaits after the upload. */
  function FlightAfterSave(id: nat, outcome: SaveOutcome): Flight {
    match outcome
    case SaveFails(cause, _) => DiscardingReserved(SafeErrorCode(Storage(cause), "upload"))
    case Saved(key, content) =>
      if key != ForArtifact(id) then DiscardingReported(key)
      else if ValidSha256(content.sha256).None? then DiscardingReserved(SafeErrorCode(Storage(Rejected), "finalize"))
      else if content.size <= 0 then DiscardingReserved(SafeErrorCode(Storage(Integrity), "finalize"))
      else Finalizing(content)
  }

  function AfterSave(w: World, id: nat, outcome: SaveOutcome): World {
    Flying(w.(live := LiveAfterSave(w.live, id, outcome)), id, FlightAfterSave(id, outcome))
  }

  function AfterWrite(w: World, id: nat, fails: bool): World
    requires id in w.flights
  {
    match w.flights[id]
    case Failing(code) => Landed(w.(rows := if fails then w.rows else MarkedFailed(w.rows, id, code)), id)
    case Finalizing(content) =>
      var error := FinalizeError(w.rows, id, content, fails);
      if error.Some? then Flying(w, id, DiscardingReserved(SafeErrorCode(error.value, "finalize")))
      else Landed(w.(rows := w.rows[id := Finalized(w.rows[id], content)]), id)
    case MarkingDeleted(expected) =>
      if DeleteError(w.rows, id, expected, fails).None? then
        Landed(w.(rows := w.rows[id := w.rows[id].(status := Deleted)]), id)
      else if expected.Ready? then Flying(w, id, Restoring)
      else Landed(w, id)
    case _ => w
  }

  function AfterDiscard(w: World, id: nat, fault: StorageFault): World
    requires id in w.flights
  {
    match w.flights[id]
    case DiscardingReported(key) =>
      Flying(w.(live := Without(w.live, key, fault)), id, DiscardingReserved("storage_contract_mismatch"))
    case DiscardingReserved(code) => Flying(w.(live := Without(w.live, ForArtifact(id), fault)), id, Failing(code))
    case DiscardingFailed =>
      var discarded := w.(live := Without(w.live, ForArtifact(id), fault));
      if fault.Works? then Flying(discarded, id, MarkingDeleted(Failed)) else Landed(discarded, id)
    case _ => w
  }

  function AfterQuarantine(w: World, id: nat, fault: StorageFault): World {
    var key := ForArtifact(id);
    if key !in w.live || fault.FailsClean? then Landed(w, id)
    else
      var moved := w.(live := w.live - {key}, trash := w.trash[id := (key, w.live[key])]);
      if fault.Works? then Flying(moved, id, MarkingDeleted(Ready)) else Landed(moved, id)
  }

  function AfterRestore(w: World, id: nat, fault: StorageFault): World {
    if id !in w.trash || fault.FailsClean? then Landed(w, id)
    else Landed(w.(live := w.live[w.trash[id].0 := w.trash[id].1], trash := w.trash - {id}), id)
  }

  function Step(w: World, m: Move): World
    requires Possible(w, m)
  {
    match m
    case BeginCreate(id, run) => Flying(w.(rows := w.rows[id := Row(run, Pending, 0, None, None)]), id, Auditing)
    case BeginDelete(id) => Flying(w, id, if w.rows[id].status.Ready? then Quarantining else DiscardingFailed)
    case Audit(id, fails) => if fails then Landed(w, id) else Flying(w, id, Saving)
    case Save(id, outcome) => AfterSave(w, id, outcome)
    case Discard(id, fault) => AfterDiscard(w, id, fault)
    case Write(id, fails) => AfterWrite(w, id, fails)
    case Quarantine(id, fault) => AfterQuarantine(w, id, fault)
    case Restore(id, fault) => AfterRestore(w, id, fault)
  }

  // ---------------------------------------------------------------------
  // What holds of one artifact
  // ---------------------------------------------------------------------

  predicate StatusIs(w: World, id: nat, status: ArtifactStatus) {
    id in w.rows && w.rows[id].status == status
  }

  /** The row is ready and this is its object. */
  predicate Describes(row: Row, content: Content) {
    && row.status.Ready? && content.size == row.size > 0
    && row.sha256.Some? && ValidSha256(content.sha256) == row.sha256
  }

  /** An idle artifact is settled; one in flight is as its next step expects it. */
  predicate InOrder(w: World, id: nat) {
    if id !in w.flights then SettledAt(w.rows, w.live, id)
    else
      match w.flights[id]
      case Finalizing(content) =>
        && StatusIs(w, id, Pending) && ForArtifact(id) in w.live && w.live[ForArtifact(id)] == content
        && content.size > 0 && ValidSha256(content.sha256).Some?
      case DiscardingFailed => StatusIs(w, id, Failed)
      case MarkingDeleted(expected) =>
        && StatusIs(w, id, expected) && ForArtifact(id) !in w.live
        && (expected.Failed? || (expected.Ready? && KeptAside(w, id)))
      case Quarantining => StatusIs(w, id, Ready) && SettledAt(w.rows, w.live, id)
      case Restoring => StatusIs(w, id, Ready) && ForArtifact(id) !in w.live && KeptAside(w, id)
      case _ => StatusIs(w, id, Pending)
  }

  /** The object of a ready row was moved aside. */
  predicate KeptAside(w: World, id: nat) {
    id in w.rows && id in w.trash && w.trash[id].0 == ForArtifact(id) && Describes(w.rows[id], w.trash[id].1)
  }

  /**
    The steps that can break the promise about an artifact: an upload of another one for which the storage reports
    its key, the discard that follows, a quarantine that raises after moving its object, a restore that fails.
   */
  predicate Harms(w: World, m: Move, id: nat) {
    match m
    case Save(other, outcome) => other != id && outcome.Saved? && outcome.key == ForArtifact(id)
    case Discard(other, _) =>
      other != id && other in w.flights && w.flights[other] == DiscardingReported(ForArtifact(id))
    case Quarantine(other, fault) => other == id && fault.FailsDirty?
    case Restore(other, fault) => other == id && fault.FailsClean?
    case _ => false
  }

  /** Nothing about artifact `id` differs. */
  predicate SameAt(w: World, v: World, id: nat) {
    && (id in v.rows <==> id in w.rows) && (id in w.rows ==> v.rows[id] == w.rows[id])
    && (ForArtifact(id) in v.live <==> ForArtifact(id) in w.live)
    && (ForArtifact(id) in w.live ==> v.live[ForArtifact(id)] == w.live[ForArtifact(id)])
    && (id in v.trash <==> id in w.trash) && (id in w.trash ==> v.trash[id] == w.trash[id])
    && (id in v.flights <==> id in w.flights) && (id in w.flights ==> v.flights[id] == w.flights[id])
  }

  /** Objects moved aside go back under the key of their artifact. */
  predicate TrashOwn(w: World) {
    forall id | id in w.trash :: w.trash[id].0 == ForArtifact(id)
  }

  lemma StepKeepsTrash(w: World, m: Move)
    requires Possible(w, m) && TrashOwn(w)
    ensures TrashOwn(Step(w, m))
  {
    hide AfterSave, AfterWrite, AfterDiscard;
    SameTrash(w, m);
  }

  lemma SameTrash(w: World, m: Move)
    requires Possible(w, m)
    ensures !m.Quarantine? && !m.Restore? ==> Step(w, m).trash == w.trash
  {
    hide ValidSha256, SafeErrorCode, FinalizeError, DeleteError, MarkedFailed;
  }

  /** Steps of other operations leave an artifact alone unless they harm it. */
  lemma OthersLeaveAlone(w: World, m: Move, id: nat)
    requires Possible(w, m) && TrashOwn(w) && m.id != id && !Harms(w, m, id)
    ensures SameAt(w, Step(w, m), id)
  {
    hide AfterSave, AfterWrite, AfterDiscard, AfterQuarantine, AfterRestore;
    match m
    case Write(_, _) => WritesOwnRow(w, m.id, m.fails, id);
    case Save(_, _) => SavesElsewhere(w, m.id, m.outcome, id);
    case Discard(_, _) => DiscardsElsewhere(w, m.id, m.fault, id);
    case Quarantine(_, _) => MovesOwnObject(w, m.id, m.fault, id);
    case Restore(_, _) => MovesOwnObject(w, m.id, m.fault, id);
    case _ =>
  }

  lemma SavesElsewhere(w: World, other: nat, outcome: SaveOutcome, id: nat)
    requires other != id && !(outcome.Saved? && outcome.key == ForArtifact(id))
    ensures SameAt(w, AfterSave(w, other, outcome), id)
  {
    hide ValidSha256, SafeErrorCode;
  }

  lemma DiscardsElsewhere(w: World, other: nat, fault: StorageFault, id: nat)
    requires other in w.flights && other != id && w.flights[other] != DiscardingReported(ForArtifact(id))
    ensures SameAt(w, AfterDiscard(w, other, fault), id)
  {
  }

  lemma MovesOwnObject(w: World, other: nat, fault: StorageFault, id: nat)
    requires TrashOwn(w) && other != id
    ensures SameAt(w, AfterQuarantine(w, other, fault), id) && SameAt(w, AfterRestore(w, other, fault), id)
  {
  }

  lemma WritesOwnRow(w: World, other: nat, fails: bool, id: nat)
    requires other in w.flights && other != id
    ensures SameAt(w, AfterWrite(w, other, fails), id)
  {
    hide ValidSha256, SafeErrorCode, Finalized;
  }

  lemma SameInOrder(w: World, v: World, id: nat)
    requires InOrder(w, id) && SameAt(w, v, id)
    ensures InOrder(v, id)
  {
    hide ValidSha256;
  }

  /** Steps of its own operation keep an artifact in order unless they harm it. */
  lemma OwnStepKeeps(w: World, m: Move)
    requires Possible(w, m) && InOrder(w, m.id) && !Harms(w, m, m.id)
    ensures InOrder(Step(w, m), m.id)
  {
    hide ValidSha256, SafeErrorCode;
    match m
    case Write(id, fails) => OwnWriteKeeps(w, id, fails);
    case Save(_, _) =>
    case Discard(_, _) =>
    case Quarantine(_, _) =>
    case Restore(_, _) =>
    case _ =>
  }

  lemma OwnWriteKeeps(w: World, id: nat, fails: bool)
    requires Possible(w, Write(id, fails)) && InOrder(w, id)
    ensures InOrder(AfterWrite(w, id, fails), id)
  {
    hide ValidSha256, SafeErrorCode;
  }

  lemma StepKeepsOrder(w: World, m: Move, id: nat)
    requires Possible(w, m) && TrashOwn(w) && InOrder(w, id) && !Harms(w, m, id)
    ensures InOrder(Step(w, m), id)
  {
    hide Step, InOrder, Harms, SameAt, TrashOwn;
    if m.id == id {
      OwnStepKeeps(w, m);
    } else {
      OthersLeaveAlone(w, m, id);
      SameInOrder(w, Step(w, m), id);
    }
  }

  /** The two steps that lose the object of a ready artifact do lose it. */
  lemma LosingStepsLose(w: World, id: nat)
    requires InOrder(w, id) && id in w.flights
    ensures w.flights[id].Quarantining? ==>
              !SettledAt(Step(w, Quarantine(id, FailsDirty)).rows, Step(w, Quarantine(id, FailsDirty)).live, id)
    ensures w.flights[id].Restoring? ==>
              !SettledAt(Step(w, Restore(id, FailsClean)).rows, Step(w, Restore(id, FailsClean)).live, id)
  {
    hide ValidSha256;
  }

  // ---------------------------------------------------------------------
  // Whole histories
  // ---------------------------------------------------------------------

  /** The world after any steps; impossible ones are skipped. */
  function After(w: World, moves: seq<Move>): World
    decreases |moves|
  {
    if moves == [] then w
    else After(if Possible(w, moves[0]) then Step(w, moves[0]) else w, moves[1..])
  }

  /** No step of the history harms the artifact. */
  predicate Spared(w: World, moves: seq<Move>, id: nat)
    decreases |moves|
  {
    moves != [] ==>
      && (Possible(w, moves[0]) ==> !Harms(w, moves[0], id))
      && Spared(if Possible(w, moves[0]) then Step(w, moves[0]) else w, moves[1..], id)
  }

  lemma {:induction false} HistoryKeepsOrder(w: World, moves: seq<Move>, id: nat)
    requires TrashOwn(w) && InOrder(w, id) && Spared(w, moves, id)
    ensures InOrder(After(w, moves), id)
    decreases |moves|
  {
    hide Step, Possible, InOrder, Harms, TrashOwn;
    if moves != [] {
      if Possible(w, moves[0]) {
        StepKeepsTrash(w, moves[0]);
        StepKeepsOrder(w, moves[0], id);
        HistoryKeepsOrder(Step(w, moves[0]), moves[1..], id);
      } else {
        HistoryKeepsOrder(w, moves[1..], id);
      }
    }
  }

  /**
    From settled stores, over every interleaving of creations and deletions of any artifacts under any failures: an
    artifact that no step harms is settled whenever none of its operations is in flight.
   */
  lemma EveryInterleavingSettles(rows: Rows, live: Objects, moves: seq<Move>, id: nat)
    requires Settled(rows, live) && Spared(World(rows, live, map[], map[]), moves, id)
    ensures var w := After(World(rows, live, map[], map[]), moves);
            id !in w.flights ==> SettledAt(w.rows, w.live, id)
  {
    hide SettledAt, Spared;
    var start := World(rows, live, map[], map[]);
    if id !in rows {
      NoRowIsSettled(rows, live, id);
    }
    HistoryKeepsOrder(start, moves, id);
  }

  lemma NoRowIsSettled(rows: Rows, live: Objects, id: nat)
    requires id !in rows
    ensures SettledAt(rows, live, id)
  {
  }

  // ---------------------------------------------------------------------
  // Composing histories
  // ---------------------------------------------------------------------

  lemma AfterOne(w: World, m: Move)
    requires Possible(w, m)
    ensures After(w, [m]) == Step(w, m)
  {
    assert After(Step(w, m), []) == Step(w, m);
  }

  lemma {:induction false} AfterBoth(w: World, first: seq<Move>, second: seq<Move>)
    ensures After(w, first + second) == After(After(w, first), second)
    decreases |first|
  {
    hide Step, Possible;
    if first == [] {
      assert first + second == second;
    } else {
      assert (first + second)[1..] == first[1..] + second;
      AfterBoth(if Possible(w, first[0]) then Step(w, first[0]) else w, first[1..], second);
    }
  }
}
