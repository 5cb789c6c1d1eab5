/** The artifact service and its object store, changed in place, under any failure of any awaited step. */
module ArtifactService {
  import opened Common
  import opened Artifacts
  import opened ArtifactSystem

  class ObjectStore {
    var live: Objects
    var trash: map<nat, (Key, Content)>

    constructor ()
      ensures live == map[] && trash == map[]
    {
      live, trash := map[], map[];
    }

    method Save(id: nat, outcome: SaveOutcome) returns (stored: Result<(Key, Content), Error>)
      modifies this`live
      ensures outcome.Saved? ==>
                stored == Ok((outcome.key, outcome.content)) && live == old(live)[outcome.key := outcome.content]
      ensures outcome.SaveFails? ==> stored == Err(Storage(outcome.cause))
                                     && live == if outcome.leftover.Some?
                                        then old(live)[ForArtifact(id) := outcome.leftover.value] else old(live)
    {
      match outcome {
        case Saved(key, content) =>
          live := live[key := content];
          stored := Ok((key, content));
        case SaveFails(cause, leftover) =>
          live := if leftover.Some? then live[ForArtifact(id) := leftover.value] else live;
          stored := Err(Storage(cause));
      }
    }

    /** Removing an object that does not exist succeeds. */
    method Discard(key: Key, fault: StorageFault) returns (ok: bool)
      modifies this`live
      ensures ok <==> fault.Works?
      ensures live == if fault.FailsClean? then old(live) else old(live) - {key}
    {
      live := if fault.FailsClean? then live else live - {key};
      ok := fault.Works?;
    }

    /** Moves an object aside; a missing one cannot be moved. */
    method Quarantine(key: Key, id: nat, fault: StorageFault) returns (ok: bool)
      modifies this`live, this`trash
      ensures ok <==> key in old(live) && fault.Works?
      ensures key !in old(live) || fault.FailsClean? ==> live == old(live) && trash == old(trash)
      ensures key in old(live) && !fault.FailsClean? ==>
                live == old(live) - {key} && trash == old(trash)[id := (key, old(live)[key])]
    {
      if key !in live {
        return false;
      }
      trash := if fault.FailsClean? then trash else trash[id := (key, live[key])];
      live := if fault.FailsClean? then live else live - {key};
      ok := fault.Works?;
    }

    method Restore(id: nat, fault: StorageFault) returns (ok: bool)
      requires id in trash
      modifies this`live, this`trash
      ensures ok <==> fault.Works?
      ensures fault.FailsClean? ==> live == old(live) && trash == old(trash)
      ensures !fault.FailsClean? ==>
                live == old(live)[old(trash)[id].0 := old(trash)[id].1] && trash == old(trash) - {id}
    {
      var (key, content) := trash[id];
      live := if fault.FailsClean? then live else live[key := content];
      trash := if fault.FailsClean? then trash else trash - {id};
      ok := fault.Works?;
    }
  }

  /** `_safe_error_code` */
  method CodeFor(error: Error, phase: string) returns (code: string)
    ensures code == SafeErrorCode(error, phase)
  {
    match error {
      case Storage(cause) =>
        match cause {
          case Unavailable => code := "storage_unavailable";
          case Integrity => code := "storage_integrity";
          case Rejected => code := "artifact_rejected";
          case Unexpected => code := phase + "_failed";
        }
      case _ => code := phase + "_failed";
    }
  }

  class ArtifactService {
    const store: ObjectStore
    var rows: Rows

    /** The world with the given operations in flight. */
    ghost function Now(flights: map<nat, Flight>): World
      reads this, store
    {
      World(rows, store.live, store.trash, flights)
    }

    constructor (store: ObjectStore)
      ensures this.store == store && rows == map[] && Settled(rows, store.live)
    {
      this.store := store;
      rows := map[];
    }

    /** `_mark_failed`, best effort: only a pending row fails, and nothing but its status and code changes. */
    method MarkFailed(id: nat, code: string, fault: bool)
      modifies this`rows
      ensures rows.Keys == old(rows).Keys && OtherRowsSame(old(rows), rows, id)
      ensures id in rows ==> rows[id] == old(rows)[id].(status := rows[id].status, errorCode := rows[id].errorCode)
      ensures id in rows && rows[id] != old(rows)[id] ==> old(rows)[id].status.Pending? && rows[id].status.Failed?
      ensures id in rows ==>
                (rows[id].status.Failed? <==> old(rows)[id].status.Failed? || (old(rows)[id].status.Pending? && !fault))
      ensures id in rows && rows[id].status.Failed? && !old(rows)[id].status.Failed? ==>
                rows[id].errorCode == Some(code)
      ensures rows == if fault then old(rows) else MarkedFailed(old(rows), id, code)
    {
      if !fault && id in rows && rows[id].status.Pending? {
        rows := rows[id := rows[id].(status := Failed, errorCode := Some(code))];
      }
    }

    method FinalizeReady(id: nat, content: Content, fault: bool) returns (error: Option<Error>)
      modifies this`rows
      ensures error.None?
              <==> !fault && id in old(rows) && old(rows)[id].status.Pending? && ValidSha256(content.sha256).Some?
      ensures error == FinalizeError(old(rows), id, content, fault)
      ensures error.Some? ==> rows == old(rows)
      ensures error.None? ==> rows == old(rows)[id := Finalized(old(rows)[id], content)]
    {
      if fault {
        return Some(Database);
      }
      if id !in rows {
        return Some(NotFound);
      }
      if !rows[id].status.Pending? {
        return Some(InvalidState);
      }
      var hash := ValidSha256(content.sha256);
      if hash.None? {
        return Some(Storage(Rejected));
      }
      rows := rows[id := rows[id].(status := Ready, size := content.size, sha256 := hash, errorCode := None)];
      error := None;
    }

    /** `_mark_deleted`: deleting again is accepted, any other change in between is not. */
    method MarkDeleted(id: nat, expected: ArtifactStatus, fault: bool) returns (error: Option<Error>)
      modifies this`rows
      ensures error.None?
              <==> !fault && id in old(rows) && (old(rows)[id].status.Deleted? || old(rows)[id].status == expected)
      ensures error == DeleteError(old(rows), id, expected, fault)
      ensures error.Some? ==> rows == old(rows)
      ensures error.None? ==> rows == old(rows)[id := old(rows)[id].(status := Deleted)]
    {
      if fault {
        return Some(Database);
      }
      if id !in rows {
        return Some(NotFound);
      }
      if rows[id].status.Deleted? {
        assert rows[id := rows[id].(status := Deleted)] == rows;
        return None;
      }
      if rows[id].status != expected {
        return Some(InvalidState);
      }
      rows := rows[id := rows[id].(status := Deleted)];
      error := None;
    }

    /** Where a `create` that started from a free identifier ends up. */
    static function CreateEndsIn(f: CreateFaults, id: nat): Option<ArtifactStatus> {
      if f.pending then None
      else if f.auditCreated then Some(Pending)
      else if f.save.Saved? && f.save.key == ForArtifact(id) && ValidSha256(f.save.content.sha256).Some?
              && f.save.content.size > 0 && !f.finalize
      then Some(Ready)
      else if f.markFailed then Some(Pending)
      else Some(Failed)
    }

    /** The code a failed creation leaves in its row, by the step that went wrong. */
    static function FailureCode(f: CreateFaults, id: nat): string {
      match f.save
      case SaveFails(Unavailable, _) => "storage_unavailable"
      case SaveFails(Integrity, _) => "storage_integrity"
      case SaveFails(Rejected, _) => "artifact_rejected"
      case SaveFails(Unexpected, _) => "upload_failed"
      case Saved(key, content) =>
        if key != ForArtifact(id) then "storage_contract_mismatch"
        else if ValidSha256(content.sha256).None? then "artifact_rejected"
        else if content.size <= 0 then "storage_integrity"
        else "finalize_failed"
    }

    /** The upload gets as far as a key that is not the reserved one. */
    static predicate Misreported(f: CreateFaults, id: nat) {
      !f.pending && !f.auditCreated && f.save.Saved? && f.save.key != ForArtifact(id)
    }

    /** The reported key belongs to another artifact, whose row no longer fits what the discard leaves under it. */
    static predicate SpoilsAnother(rows: Rows, f: CreateFaults, id: nat) {
      && Misreported(f, id) && f.save.key.ForArtifact? && f.save.key.id in rows
      && (var owner := rows[f.save.key.id];
          if f.discardReported.FailsClean?
          then owner.status.Deleted? || (owner.status.Ready? && !Fits(owner, f.save.content))
          else owner.status.Ready?)
    }

    static predicate Fits(row: Row, content: Content) {
      content.size == row.size && ValidSha256(content.sha256) == row.sha256
    }

    /** What lies under a misreported key afterwards. */
    static ghost predicate Misplaced(f: CreateFaults, live: Objects, id: nat) {
      Misreported(f, id) ==>
        if f.discardReported.FailsClean? then f.save.key in live && live[f.save.key] == f.save.content
        else f.save.key !in live
    }

    static function TouchedKeys(f: CreateFaults, id: nat): set<Key> {
      if Misreported(f, id) then {ForArtifact(id), f.save.key} else {ForArtifact(id)}
    }

    /**
      `create` under any failures. The final status depends on the failures alone; no other row changes, and no object
      but that under the reserved key and that under a misreported one. The stores stay settled exactly unless the
      misreported key belongs to a ready artifact, whose object the clean-up then discards or which the upload replaced
      by other content, or to a deleted one that keeps the new object. Without a ready row an object can remain under
      the reserved key only if removing it raised without effect.
     */
    method Create(id: nat, run: string, faults: CreateFaults) returns (error: Option<Error>, ghost moves: seq<Move>)
      requires Settled(rows, store.live) && id !in rows && ForArtifact(id) !in store.live
      modifies this`rows, store`live
      ensures Settled(rows, store.live) <==> !SpoilsAnother(old(rows), faults, id)
      ensures SettledAt(rows, store.live, id)
      ensures OtherRowsSame(old(rows), rows, id)
      ensures OtherObjectsSame(old(store.live), store.live, TouchedKeys(faults, id))
              && Misplaced(faults, store.live, id)
      ensures CreateEndsIn(faults, id).None? <==> id !in rows
      ensures id in rows ==> CreateEndsIn(faults, id) == Some(rows[id].status)
      ensures id in rows && rows[id].status.Failed? ==> rows[id].errorCode == Some(FailureCode(faults, id))
      ensures error.None? <==> CreateEndsIn(faults, id) == Some(Ready) && !faults.auditStatus
      ensures ForArtifact(id) in store.live && !(id in rows && rows[id].status.Ready?) ==>
                faults.discardReserved.FailsClean?
      ensures (forall m | m in moves :: m.id == id) && After(old(Now(map[])), moves) == Now(map[])
    {
      hide ValidSha256, Settled, SpoilsAnother, Step, Possible;
      ghost var rows0, live0, start := rows, store.live, Now(map[]);
      OthersOf(rows0, live0);
      moves := [];
      if faults.pending {
        NothingSpoilt(rows0, faults, id);
        return Some(Database), [];
      }
      rows := rows[id := Row(run, Pending, 0, None, None)];
      CreateBegins(start, id, run, faults.auditCreated);
      moves := [BeginCreate(id, run), Move.Audit(id, faults.auditCreated)];
      if faults.auditCreated {
        NothingSpoilt(rows0, faults, id);
        SettleOne(rows0, live0, rows, store.live, id);
        return Some(Error.Audit), moves;
      }
      ghost var more;
      error, more := Upload(id, faults);
      AfterBoth(start, moves, more);
      moves := moves + more;
      CreateSettles(rows0, live0, rows, store.live, id, faults);
      error := if error.None? && faults.auditStatus then Some(Error.Audit) else error;
    }

    static lemma CreateBegins(w: World, id: nat, run: string, fails: bool)
      requires w.flights == map[] && id !in w.rows
      ensures var created := w.(rows := w.rows[id := Row(run, Pending, 0, None, None)]);
              After(w, [BeginCreate(id, run), Move.Audit(id, fails)])
              == if fails then created else Flying(created, id, Saving)
    {
      var begun := Step(w, BeginCreate(id, run));
      AfterOne(w, BeginCreate(id, run));
      AfterOne(begun, Move.Audit(id, fails));
      AfterBoth(w, [BeginCreate(id, run)], [Move.Audit(id, fails)]);
      assert map[id := Auditing] - {id} == map[];
      assert [BeginCreate(id, run)] + [Move.Audit(id, fails)] == [BeginCreate(id, run), Move.Audit(id, fails)];
      assert begun.flights[id := Saving] == w.flights[id := Saving];
    }

    static lemma NothingSpoilt(rows: Rows, f: CreateFaults, id: nat)
      requires !Misreported(f, id)
      ensures !SpoilsAnother(rows, f, id)
    {
    }

    static lemma CreateSettles(rows: Rows, live: Objects, rows': Rows, live': Objects, id: nat, f: CreateFaults)
      requires forall other | other in rows :: SettledAt(rows, live, other)
      requires id !in rows && OtherRowsSame(rows, rows', id) && SettledAt(rows', live', id)
      requires OtherObjectsSame(live, live', TouchedKeys(f, id)) && Misplaced(f, live', id)
      ensures Settled(rows', live') <==> !SpoilsAnother(rows, f, id)
    {
      hide ValidSha256, Settled;
      if Misreported(f, id) && f.save.key.ForArtifact? {
        var owner := f.save.key.id;
        SettleTwo(rows, live, rows', live', id, owner);
        assert owner in rows ==> SettledAt(rows, live, owner);
      } else {
        SameOthers(rows, live, rows', live', id, if Misreported(f, id) then f.save.key else ForArtifact(id));
        SettleOne(rows, live, rows', live', id);
      }
    }

    /** The steps of `create` after its pending row is there. */
    method Upload(id: nat, faults: CreateFaults) returns (error: Option<Error>, ghost moves: seq<Move>)
      requires id in rows && rows[id].status.Pending? && ForArtifact(id) !in store.live && !faults.pending
               && !faults.auditCreated
      modifies this`rows, store`live
      ensures Uploaded(old(rows), old(store.live), rows, store.live, id, faults)
      ensures error.None? <==> rows[id].status.Ready?
      ensures (forall m | m in moves :: m.id == id) && After(old(Now(map[id := Saving])), moves) == Now(map[])
    {
      hide ValidSha256, SafeErrorCode, SettledAt, Step, Possible, After, FlightAfterSave, Uploaded, CreateEndsIn;
      ghost var rows0, live0, start := rows, store.live, Now(map[id := Saving]);
      var stored := store.Save(id, faults.save);
      SaveIsMove(start, id, faults.save);
      ghost var more;
      if stored.Err? {
        error := Some(stored.error);
        FlightOf(id, faults.save);
        var code := CodeFor(stored.error, "upload");
        UploadCodes(id, faults, stored.error);
        more := CleanUp(id, code, faults);
        FailedUpload(rows0, live0, rows, store.live, id, faults);
      } else if stored.value.0 != ForArtifact(id) {
        error := Some(Storage(Integrity));
        FlightOf(id, faults.save);
        more := DropMisreported(id, stored.value.0, faults);
        MisreportedUpload(rows0, live0, rows, store.live, id, faults);
      } else {
        error, more := Accept(id, stored.value.1, faults);
        AcceptedUpload(rows0, live0, rows, store.live, id, faults);
      }
      AfterBoth(start, [Move.Save(id, faults.save)], more);
      moves := [Move.Save(id, faults.save)] + more;
    }

    static lemma FlightOf(id: nat, outcome: SaveOutcome)
      ensures outcome.SaveFails? ==>
                FlightAfterSave(id, outcome) == DiscardingReserved(SafeErrorCode(Storage(outcome.cause), "upload"))
      ensures outcome.Saved? && outcome.key != ForArtifact(id) ==>
                FlightAfterSave(id, outcome) == DiscardingReported(outcome.key)
    {
      hide ValidSha256, SafeErrorCode;
    }

    /** What the steps after the pending row leave behind. */
    static ghost predicate Uploaded(rows: Rows, live: Objects, rows': Rows, live': Objects, id: nat, f: CreateFaults) {
      && OtherRowsSame(rows, rows', id)
      && OtherObjectsSame(live, live', TouchedKeys(f, id)) && Misplaced(f, live', id)
      && id in rows' && SettledAt(rows', live', id)
      && CreateEndsIn(f, id) == Some(rows'[id].status)
      && (rows'[id].status.Failed? ==> rows'[id].errorCode == Some(FailureCode(f, id)))
      && (ForArtifact(id) in live' && !rows'[id].status.Ready? ==> f.discardReserved.FailsClean?)
    }

    static lemma FailedUpload(rows: Rows, live: Objects, rows': Rows, live': Objects, id: nat, f: CreateFaults)
      requires !f.pending && !f.auditCreated && f.save.SaveFails? && id in rows' && OtherRowsSame(rows, rows', id)
      requires rows'[id].status == if f.markFailed then Pending else Failed
      requires rows'[id].status.Failed? ==> rows'[id].errorCode == Some(FailureCode(f, id))
      requires live' == Without(LiveAfterSave(live, id, f.save), ForArtifact(id), f.discardReserved)
      ensures Uploaded(rows, live, rows', live', id, f)
    {
      hide ValidSha256;
    }

    static lemma MisreportedUpload(rows: Rows, live: Objects, rows': Rows, live': Objects, id: nat, f: CreateFaults)
      requires Misreported(f, id) && id in rows' && OtherRowsSame(rows, rows', id)
      requires rows'[id].status == if f.markFailed then Pending else Failed
      requires rows'[id].status.Failed? ==> rows'[id].errorCode == Some(FailureCode(f, id))
      requires live'
               == Without(Without(LiveAfterSave(live, id, f.save), f.save.key, f.discardReported), ForArtifact(id),
                          f.discardReserved)
      ensures Uploaded(rows, live, rows', live', id, f)
    {
      hide ValidSha256;
    }

    static lemma AcceptedUpload(rows: Rows, live: Objects, rows': Rows, live': Objects, id: nat, f: CreateFaults)
      requires !f.pending && !f.auditCreated && f.save.Saved? && f.save.key == ForArtifact(id)
      requires id in rows' && OtherRowsSame(rows, rows', id) && SettledAt(rows', live', id)
      requires CreateEndsIn(f, id) == Some(rows'[id].status)
      requires rows'[id].status.Failed? ==> rows'[id].errorCode == Some(FailureCode(f, id))
      requires live' == if rows'[id].status.Ready? then LiveAfterSave(live, id, f.save)
                        else Without(LiveAfterSave(live, id, f.save), ForArtifact(id), f.discardReserved)
      ensures Uploaded(rows, live, rows', live', id, f)
    {
      hide SettledAt, CreateEndsIn;
    }

    /** The storage reported another key: both objects are dropped. */
    method DropMisreported(id: nat, key: Key, faults: CreateFaults) returns (ghost moves: seq<Move>)
      requires id in rows && rows[id].status.Pending?
      modifies this`rows, store`live
      ensures store.live
              == Without(Without(old(store.live), key, faults.discardReported), ForArtifact(id), faults.discardReserved)
      ensures id in rows && OtherRowsSame(old(rows), rows, id)
      ensures rows[id].status == if faults.markFailed then Pending else Failed
      ensures rows[id].status.Failed? ==> rows[id].errorCode == Some("storage_contract_mismatch")
      ensures (forall m | m in moves :: m.id == id)
              && After(old(Now(map[id := DiscardingReported(key)])), moves) == Now(map[])
    {
      hide Step, Possible, After;
      ghost var start := Now(map[id := DiscardingReported(key)]);
      var discarded := store.Discard(key, faults.discardReported);
      ReportedIsMove(start, id, key, faults.discardReported);
      ghost var more := CleanUp(id, "storage_contract_mismatch", faults);
      AfterBoth(start, [Move.Discard(id, faults.discardReported)], more);
      moves := [Move.Discard(id, faults.discardReported)] + more;
    }

    /** The object is under its own key: check what the storage says of it, and finalize the row. */
    method Accept(id: nat, content: Content, faults: CreateFaults)
      returns (error: Option<Error>, ghost moves: seq<Move>)
      requires id in rows && rows[id].status.Pending? && ForArtifact(id) in store.live
               && store.live[ForArtifact(id)] == content
      modifies this`rows, store`live
      ensures error.None? <==> ValidSha256(content.sha256).Some? && content.size > 0 && !faults.finalize
      ensures id in rows && OtherRowsSame(old(rows), rows, id) && SettledAt(rows, store.live, id)
      ensures rows[id].status == if error.None? then Ready else if faults.markFailed then Pending else Failed
      ensures rows[id].status.Failed? ==>
                rows[id].errorCode
                == Some(if ValidSha256(content.sha256).None? then "artifact_rejected"
                        else if content.size <= 0 then "storage_integrity"
                        else "finalize_failed")
      ensures !faults.pending && !faults.auditCreated && faults.save == Saved(ForArtifact(id), content) ==>
                CreateEndsIn(faults, id) == Some(rows[id].status)
      ensures store.live == if error.None? then old(store.live)
              else Without(old(store.live), ForArtifact(id), faults.discardReserved)
      ensures forall m | m in moves :: m.id == id
      ensures After(old(Now(map[id := FlightAfterSave(id, Saved(ForArtifact(id), content))])), moves) == Now(map[])
    {
      hide ValidSha256, SafeErrorCode, Step, Possible, After;
      if ValidSha256(content.sha256).None? || content.size <= 0 {
        error := Some(Storage(if ValidSha256(content.sha256).None? then Rejected else Integrity));
        var code := CodeFor(error.value, "finalize");
        FinalizeCodes();
        moves := CleanUp(id, code, faults);
      } else {
        error, moves := Complete(id, content, faults);
      }
    }

    /** The finalization of an upload that fits, and its compensation. */
    method Complete(id: nat, content: Content, faults: CreateFaults)
      returns (error: Option<Error>, ghost moves: seq<Move>)
      requires id in rows && rows[id].status.Pending? && ValidSha256(content.sha256).Some?
      modifies this`rows, store`live
      ensures error.None? <==> !faults.finalize
      ensures error.None? ==>
                rows == old(rows)[id := Finalized(old(rows)[id], content)] && store.live == old(store.live)
      ensures error.Some? ==>
                && store.live == Without(old(store.live), ForArtifact(id), faults.discardReserved)
                && id in rows && OtherRowsSame(old(rows), rows, id)
                && rows[id].status == (if faults.markFailed then Pending else Failed)
                && (rows[id].status.Failed? ==> rows[id].errorCode == Some("finalize_failed"))
      ensures (forall m | m in moves :: m.id == id)
              && After(old(Now(map[id := Finalizing(content)])), moves) == Now(map[])
    {
      hide ValidSha256, SafeErrorCode, Step, Possible, After;
      ghost var start := Now(map[id := Finalizing(content)]);
      error := FinalizeReady(id, content, faults.finalize);
      moves := [Write(id, faults.finalize)];
      FinalizeIsMove(start, id, content, faults.finalize);
      if error.Some? {
        var code := CodeFor(error.value, "finalize");
        FinalizeCodes();
        ghost var more := CleanUp(id, code, faults);
        AfterBoth(start, moves, more);
        moves := moves + more;
      }
    }

    static lemma UploadCodes(id: nat, f: CreateFaults, error: Error)
      requires f.save.SaveFails? && error == Storage(f.save.cause)
      ensures SafeErrorCode(error, "upload") == FailureCode(f, id)
    {
    }

    static lemma FinalizeCodes()
      ensures SafeErrorCode(Storage(Rejected), "finalize") == "artifact_rejected"
      ensures SafeErrorCode(Storage(Integrity), "finalize") == "storage_integrity"
      ensures SafeErrorCode(Database, "finalize") == "finalize_failed"
    {
    }

    static lemma SaveIsMove(w: World, id: nat, outcome: SaveOutcome)
      requires w.flights == map[id := Saving]
      ensures After(w, [Move.Save(id, outcome)])
           == w.(live := LiveAfterSave(w.live, id, outcome), flights := map[id := FlightAfterSave(id, outcome)])
    {
      hide FlightAfterSave, LiveAfterSave;
      AfterOne(w, Move.Save(id, outcome));
      assert w.flights[id := FlightAfterSave(id, outcome)] == map[id := FlightAfterSave(id, outcome)];
    }

    static lemma ReportedIsMove(w: World, id: nat, key: Key, fault: StorageFault)
      requires w.flights == map[id := DiscardingReported(key)]
      ensures After(w, [Move.Discard(id, fault)])
           == Flying(w.(live := Without(w.live, key, fault), flights := map[]), id,
                     DiscardingReserved("storage_contract_mismatch"))
    {
      AfterOne(w, Move.Discard(id, fault));
      assert forall flight :: w.flights[id := flight] == map[id := flight];
    }

    static lemma FinalizeIsMove(w: World, id: nat, content: Content, fails: bool)
      requires w.flights == map[id := Finalizing(content)] && id in w.rows && ValidSha256(content.sha256).Some?
      ensures After(w, [Write(id, fails)])
           == var error := FinalizeError(w.rows, id, content, fails);
              if error.Some?
              then Flying(w.(flights := map[]), id, DiscardingReserved(SafeErrorCode(error.value, "finalize")))
              else w.(rows := w.rows[id := Finalized(w.rows[id], content)], flights := map[])
    {
      hide ValidSha256, SafeErrorCode, FinalizeError;
      AfterOne(w, Write(id, fails));
      assert w.flights - {id} == map[];
      assert forall flight :: w.flights[id := flight] == map[id := flight];
    }

    static lemma CleanUpIsMoves(w: World, id: nat, code: string, fault: StorageFault, fails: bool)
      requires w.flights == map[id := DiscardingReserved(code)]
      ensures After(w, [Move.Discard(id, fault), Write(id, fails)])
           == w.(rows := if fails then w.rows else MarkedFailed(w.rows, id, code),
                 live := Without(w.live, ForArtifact(id), fault), flights := map[])
    {
      hide MarkedFailed;
      var discarded := Step(w, Move.Discard(id, fault));
      AfterOne(w, Move.Discard(id, fault));
      AfterOne(discarded, Write(id, fails));
      AfterBoth(w, [Move.Discard(id, fault)], [Write(id, fails)]);
      assert [Move.Discard(id, fault)] + [Write(id, fails)] == [Move.Discard(id, fault), Write(id, fails)];
      assert discarded.flights - {id} == map[];
    }

    lemma OthersOf(rows: Rows, live: Objects)
      requires Settled(rows, live)
      ensures forall other | other in rows :: SettledAt(rows, live, other)
    {
    }

    /** The compensation after a failed upload: remove the object, mark the row, and let neither failure show. */
    method CleanUp(id: nat, code: string, faults: CreateFaults) returns (ghost moves: seq<Move>)
      requires id in rows && rows[id].status.Pending?
      modifies this`rows, store`live
      ensures store.live == Without(old(store.live), ForArtifact(id), faults.discardReserved)
      ensures rows == if faults.markFailed then old(rows)
                      else old(rows)[id := old(rows)[id].(status := Failed, errorCode := Some(code))]
      ensures (forall m | m in moves :: m.id == id)
              && After(old(Now(map[id := DiscardingReserved(code)])), moves) == Now(map[])
    {
      hide Step, Possible, After;
      ghost var start := Now(map[id := DiscardingReserved(code)]);
      var discarded := store.Discard(ForArtifact(id), faults.discardReserved);
      MarkFailed(id, code, faults.markFailed);
      CleanUpIsMoves(start, id, code, faults.discardReserved, faults.markFailed);
      moves := [Move.Discard(id, faults.discardReserved), Write(id, faults.markFailed)];
    }

    /** The two ways in which deleting a ready artifact loses its object without saying so in the row. */
    static predicate LosesObject(f: DeleteFaults) {
      || f.quarantine.FailsDirty?
      || (f.quarantine.Works? && f.markDeleted && f.restore.FailsClean?)
    }

    /** Whether the deletion gets past its lookup and finds a ready row. */
    static predicate ReachesReady(rows: Rows, id: nat, f: DeleteFaults) {
      !f.lookup && id in rows && rows[id].status.Ready? && !f.storageGone
    }

    /**
      `delete` under any failures. The stores stay settled exactly unless the quarantine raised after moving the object,
      or the row could not be written and the object not be put back.
     */
    method Delete(id: nat, faults: DeleteFaults) returns (error: Option<Error>, ghost moves: seq<Move>)
      requires Settled(rows, store.live)
      modifies this`rows, store`live, store`trash
      ensures OthersSame(old(rows), old(store.live), rows, store.live, id)
      ensures Settled(rows, store.live) <==> !(ReachesReady(old(rows), id, faults) && LosesObject(faults))
      ensures ReachesReady(old(rows), id, faults) && LosesObject(faults) ==>
                rows == old(rows) && ForArtifact(id) !in store.live
      ensures error.None? ==> id in rows && rows[id].status.Deleted? && ForArtifact(id) !in store.live
      ensures !faults.lookup && !faults.storageGone && faults.discard.Works? && faults.quarantine.Works?
              && !faults.markDeleted && !faults.audit ==>
                (error.None? <==> id in old(rows) && !old(rows)[id].status.Pending?)
      ensures id in old(rows) ==>
                id in rows && (rows[id] == old(rows)[id] || rows[id] == old(rows)[id].(status := Deleted))
      ensures (forall m | m in moves :: m.id == id) && After(old(Now(map[])), moves) == Now(map[])
    {
      hide ValidSha256, Settled, Step, Possible;
      ghost var rows0, live0, start := rows, store.live, Now(map[]);
      OthersOf(rows0, live0);
      SettleOne(rows0, live0, rows, store.live, id);
      moves := [];
      if faults.lookup {
        return Some(Database), [];
      }
      if id !in rows {
        return Some(NotFound), [];
      }
      var status := rows[id].status;
      if status.Deleted? {
        return None, [];
      }
      if status.Pending? {
        return Some(InvalidState), [];
      }
      if faults.storageGone {
        return Some(Storage(Unavailable)), [];
      }
      DeleteBegins(start, id);
      if status.Failed? {
        error, moves := DeleteFailed(id, faults);
      } else {
        error, moves := DeleteReady(id, faults);
      }
      AfterBoth(start, [BeginDelete(id)], moves);
      moves := [BeginDelete(id)] + moves;
      SettleOne(rows0, live0, rows, store.live, id);
    }

    static lemma DeleteBegins(w: World, id: nat)
      requires w.flights == map[] && id in w.rows && (w.rows[id].status.Ready? || w.rows[id].status.Failed?)
      ensures After(w, [BeginDelete(id)])
              == w.(flights := map[id := if w.rows[id].status.Ready? then Quarantining else DiscardingFailed])
    {
      AfterOne(w, BeginDelete(id));
      assert forall flight :: w.flights[id := flight] == map[id := flight];
    }

    static lemma DiscardIsMove(w: World, id: nat, fault: StorageFault)
      requires w.flights == map[id := DiscardingFailed]
      ensures After(w, [Move.Discard(id, fault)])
           == w.(live := Without(w.live, ForArtifact(id), fault),
                 flights := if fault.Works? then map[id := MarkingDeleted(Failed)] else map[])
    {
      AfterOne(w, Move.Discard(id, fault));
      assert w.flights - {id} == map[];
      assert w.flights[id := MarkingDeleted(Failed)] == map[id := MarkingDeleted(Failed)];
    }

    static lemma DeletionIsMove(w: World, id: nat, expected: ArtifactStatus, fails: bool)
      requires w.flights == map[id := MarkingDeleted(expected)] && id in w.rows && w.rows[id].status == expected
      ensures After(w, [Write(id, fails)])
           == if !fails then w.(rows := w.rows[id := w.rows[id].(status := Deleted)], flights := map[])
              else w.(flights := if expected.Ready? then map[id := Restoring] else map[])
    {
      AfterOne(w, Write(id, fails));
      assert w.flights - {id} == map[];
      assert w.flights[id := Restoring] == map[id := Restoring];
    }

    static lemma QuarantineIsMove(w: World, id: nat, fault: StorageFault)
      requires w.flights == map[id := Quarantining] && ForArtifact(id) in w.live
      ensures After(w, [Move.Quarantine(id, fault)])
           == if fault.FailsClean? then w.(flights := map[])
              else w.(live := w.live - {ForArtifact(id)},
                      trash := w.trash[id := (ForArtifact(id), w.live[ForArtifact(id)])],
                      flights := if fault.Works? then map[id := MarkingDeleted(Ready)] else map[])
    {
      AfterOne(w, Move.Quarantine(id, fault));
      assert w.flights - {id} == map[];
      assert w.flights[id := MarkingDeleted(Ready)] == map[id := MarkingDeleted(Ready)];
    }

    static lemma RestoreIsMove(w: World, id: nat, fault: StorageFault)
      requires w.flights == map[id := Restoring] && id in w.trash
      ensures After(w, [Move.Restore(id, fault)])
           == if fault.FailsClean? then w.(flights := map[])
              else w.(live := w.live[w.trash[id].0 := w.trash[id].1], trash := w.trash - {id}, flights := map[])
    {
      AfterOne(w, Move.Restore(id, fault));
      assert w.flights - {id} == map[];
    }

    /** A failed upload should own no object, but an uncertain one might. */
    method DeleteFailed(id: nat, faults: DeleteFaults) returns (error: Option<Error>, ghost moves: seq<Move>)
      requires id in rows && rows[id].status.Failed?
      modifies this`rows, store`live
      ensures store.live == if faults.discard.FailsClean? then old(store.live) else old(store.live) - {ForArtifact(id)}
      ensures rows == if faults.discard.Works? && !faults.markDeleted
              then old(rows)[id := old(rows)[id].(status := Deleted)] else old(rows)
      ensures error.None? <==> faults.discard.Works? && !faults.markDeleted && !faults.audit
      ensures (forall m | m in moves :: m.id == id) && After(old(Now(map[id := DiscardingFailed])), moves) == Now(map[])
    {
      hide Step, Possible, After;
      ghost var start := Now(map[id := DiscardingFailed]);
      var discarded := store.Discard(ForArtifact(id), faults.discard);
      DiscardIsMove(start, id, faults.discard);
      moves := [Move.Discard(id, faults.discard)];
      if !discarded {
        return Some(Storage(Unexpected)), moves;
      }
      DeletionIsMove(Now(map[id := MarkingDeleted(Failed)]), id, Failed, faults.markDeleted);
      error := MarkDeleted(id, Failed, faults.markDeleted);
      AfterBoth(start, moves, [Write(id, faults.markDeleted)]);
      moves := moves + [Write(id, faults.markDeleted)];
      error := if error.None? && faults.audit then Some(Error.Audit) else error;
    }

    method DeleteReady(id: nat, faults: DeleteFaults) returns (error: Option<Error>, ghost moves: seq<Move>)
      requires id in rows && rows[id].status.Ready? && ForArtifact(id) in store.live
      modifies this`rows, store`live, store`trash
      ensures rows == if faults.quarantine.Works? && !faults.markDeleted
              then old(rows)[id := old(rows)[id].(status := Deleted)] else old(rows)
      ensures store.live == if faults.quarantine.FailsClean?
              || (faults.quarantine.Works? && faults.markDeleted && !faults.restore.FailsClean?)
                            then old(store.live) else old(store.live) - {ForArtifact(id)}
      ensures error.None? <==> faults.quarantine.Works? && !faults.markDeleted && !faults.audit
      ensures (forall m | m in moves :: m.id == id) && After(old(Now(map[id := Quarantining])), moves) == Now(map[])
    {
      hide Step, Possible, After;
      ghost var start := Now(map[id := Quarantining]);
      var moved := store.Quarantine(ForArtifact(id), id, faults.quarantine);
      QuarantineIsMove(start, id, faults.quarantine);
      moves := [Move.Quarantine(id, faults.quarantine)];
      if !moved {
        return Some(Storage(Unexpected)), moves;
      }
      ghost var more;
      error, more := RemoveRow(id, start.live, faults);
      AfterBoth(start, moves, more);
      moves := moves + more;
      error := if error.None? && faults.audit then Some(Error.Audit) else error;
    }

    /** The row of an artifact whose object was moved aside is marked deleted, or the object put back. */
    method RemoveRow(id: nat, ghost live0: Objects, faults: DeleteFaults)
      returns (error: Option<Error>, ghost moves: seq<Move>)
      requires id in rows && rows[id].status.Ready? && ForArtifact(id) in live0
               && store.live == live0 - {ForArtifact(id)}
      requires id in store.trash && store.trash[id] == (ForArtifact(id), live0[ForArtifact(id)])
      modifies this`rows, store`live, store`trash
      ensures error.None? <==> !faults.markDeleted
      ensures rows == if faults.markDeleted then old(rows) else old(rows)[id := old(rows)[id].(status := Deleted)]
      ensures store.live == if faults.markDeleted && !faults.restore.FailsClean? then live0 else old(store.live)
      ensures (forall m | m in moves :: m.id == id)
              && After(old(Now(map[id := MarkingDeleted(Ready)])), moves) == Now(map[])
    {
      hide Step, Possible, After;
      ghost var start := Now(map[id := MarkingDeleted(Ready)]);
      DeletionIsMove(start, id, Ready, faults.markDeleted);
      error := MarkDeleted(id, Ready, faults.markDeleted);
      moves := [Write(id, faults.markDeleted)];
      if error.Some? {
        RestoreIsMove(Now(map[id := Restoring]), id, faults.restore);
        var restored := store.Restore(id, faults.restore);
        assert live0 == (live0 - {ForArtifact(id)})[ForArtifact(id) := live0[ForArtifact(id)]];
        AfterBoth(start, moves, [Move.Restore(id, faults.restore)]);
        moves := moves + [Move.Restore(id, faults.restore)];
      }
    }
  }

  // ---------------------------------------------------------------------
  // Two failures that lose the object of a ready artifact
  // ---------------------------------------------------------------------

  const ZEROS := seq(64, (i: nat) => '0')

  const CREATED :=
    CreateFaults(false, false, Saved(ForArtifact(0), Content(1, ZEROS)), Works, Works, false, false, false)

  lemma ZerosAreValid()
    ensures ValidSha256(ZEROS).Some?
  {
    assert |ZEROS| == 64 && forall i | 0 <= i < 64 :: ZEROS[i] == '0';
  }

  /** Deletion of a ready artifact: the quarantine moves its object but raises, and the row stays ready. */
  method DeletionCanLoseTheObject() returns (rows: Rows, live: Objects)
    ensures 0 in rows && rows[0].status.Ready? && ForArtifact(0) !in live
  {
    hide ValidSha256;
    ZerosAreValid();
    var store := new ObjectStore();
    var service := new ArtifactService(store);
    var created, _ := service.Create(0, "run", CREATED);
    assert ArtifactService.CreateEndsIn(CREATED, 0) == Some(Ready) && 0 in service.rows;
    var faults := DeleteFaults(false, false, Works, FailsDirty, false, Works, false);
    assert ArtifactService.ReachesReady(service.rows, 0, faults) && ArtifactService.LosesObject(faults);
    var deleted, _ := service.Delete(0, faults);
    rows, live := service.rows, store.live;
  }

  /**
    Creation of another artifact: the storage reports the key of the first one, and the clean-up discards its object.
   */
  method MisreportedKeyCanLoseTheObject() returns (rows: Rows, live: Objects)
    ensures 0 in rows && rows[0].status.Ready? && ForArtifact(0) !in live
  {
    hide ValidSha256;
    ZerosAreValid();
    var store := new ObjectStore();
    var service := new ArtifactService(store);
    var first, _ := service.Create(0, "run", CREATED);
    assert ArtifactService.CreateEndsIn(CREATED, 0) == Some(Ready) && 0 in service.rows;
    assert ArtifactService.Misreported(CREATED, 1);
    var second, _ := service.Create(1, "run", CREATED);
    rows, live := service.rows, store.live;
  }
}
