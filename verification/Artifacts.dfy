/**
  Artifact rows and the objects they describe live in two stores that cannot commit together. The service
  compensates: a pending row before the upload, a verified ready row after it, recoverable deletion.
 */
module Artifacts {
  import opened Common

  datatype ArtifactStatus = Pending | Ready | Failed | Deleted

  /** The storage key reserved for an artifact, or any other key a storage might report. */
  datatype Key = ForArtifact(id: nat) | Other(name: string)

  /** What matters of an object: its size and its hash as the storage reports them. */
  datatype Content = Content(size: int, sha256: string)

  datatype Row = Row(run: string, status: ArtifactStatus, size: int, sha256: Option<string>, errorCode: Option<string>)

  datatype Cause = Unavailable | Integrity | Rejected | Unexpected

  datatype Error = NotFound | InvalidState | Storage(cause: Cause) | Database | Audit

  function Lower(c: char): char {
    if 'A' <= c <= 'Z' then c - 'A' + 'a' else c
  }

  /** `validate_sha256`: 64 hexadecimal digits, returned in lower case. */
  function ValidSha256(text: string): Option<string> {
    var lower := seq(|text|, i requires 0 <= i < |text| => Lower(text[i]));
    if |text| == 64
       && forall i | 0 <= i < |text| :: '0' <= lower[i] <= '9' || 'a' <= lower[i] <= 'f' then Some(lower) else None
  }

  /** Exactly 64 hexadecimal digits of either case are a hash; it is kept in lower case. */
  lemma Sha256ExactlyWhen(text: string)
    ensures ValidSha256(text).Some? <==>
            |text| == 64 && forall i | 0 <= i < 64 ::
              '0' <= text[i] <= '9' || 'a' <= text[i] <= 'f' || 'A' <= text[i] <= 'F'
    ensures ValidSha256(text).Some? ==>
              var hash := ValidSha256(text).value;
              && |hash| == 64 && ValidSha256(hash) == Some(hash)
              && forall i | 0 <= i < 64 ::
                   && ('0' <= text[i] <= '9' || 'a' <= text[i] <= 'f' ==> hash[i] == text[i])
                   && ('A' <= text[i] <= 'F' ==> hash[i] == 'a' + (text[i] - 'A'))
  {
    forall i | 0 <= i < |text| {
      LowerHex(text[i]);
    }
    if ValidSha256(text).Some? {
      var hash := ValidSha256(text).value;
      assert forall i | 0 <= i < 64 :: hash[i] == Lower(text[i]) && Lower(hash[i]) == hash[i];
      assert seq(|hash|, i requires 0 <= i < |hash| => Lower(hash[i])) == hash;
    }
  }

  lemma LowerHex(c: char)
    ensures '0' <= Lower(c) <= '9' || 'a' <= Lower(c) <= 'f'
       <==> '0' <= c <= '9' || 'a' <= c <= 'f' || 'A' <= c <= 'F'
    ensures '0' <= c <= '9' || 'a' <= c <= 'f' ==> Lower(c) == c
    ensures 'A' <= c <= 'F' ==> Lower(c) == 'a' + (c - 'A')
    ensures Lower(Lower(c)) == Lower(c)
  {
  }

  /** `_safe_error_code` */
  function SafeErrorCode(error: Error, phase: string): string {
    if error.Storage? && error.cause.Unavailable? then "storage_unavailable"
    else if error.Storage? && error.cause.Integrity? then "storage_integrity"
    else if error.Storage? && error.cause.Rejected? then "artifact_rejected"
    else phase + "_failed"
  }

  // ---------------------------------------------------------------------
  // Faults
  // ---------------------------------------------------------------------

  /** A storage call works, raises without effect, or raises although it took effect. */
  datatype StorageFault = Works | FailsClean | FailsDirty

  /**
    The upload ends with an object under the key the storage reports, or raises and may leave one under the reserved
    key.
   */
  datatype SaveOutcome = Saved(key: Key, content: Content) | SaveFails(cause: Cause, leftover: Option<Content>)

  /** What goes wrong at each awaited step of `create`; a transaction that raises has no effect. */
  datatype CreateFaults = CreateFaults(
    pending: bool,
    auditCreated: bool,
    save: SaveOutcome,
    discardReported: StorageFault,
    discardReserved: StorageFault,
    finalize: bool,
    markFailed: bool,
    auditStatus: bool)

  /** The same for `delete`. */
  datatype DeleteFaults = DeleteFaults(
    lookup: bool,
    storageGone: bool,
    discard: StorageFault,
    quarantine: StorageFault,
    markDeleted: bool,
    restore: StorageFault,
    audit: bool)

  // ---------------------------------------------------------------------
  // What the two stores promise together
  // ---------------------------------------------------------------------

  type Rows = map<nat, Row>

  type Objects = map<Key, Content>

  /** A ready row has its object, of the recorded size and hash; a deleted row has none. */
  predicate SettledAt(rows: Rows, live: Objects, id: nat) {
    id in rows ==>
      && (rows[id].status.Ready? ==>
            && ForArtifact(id) in live
            && live[ForArtifact(id)].size == rows[id].size > 0
            && rows[id].sha256.Some? && ValidSha256(live[ForArtifact(id)].sha256) == rows[id].sha256)
      && (rows[id].status.Deleted? ==> ForArtifact(id) !in live)
  }

  predicate Settled(rows: Rows, live: Objects) {
    forall id | id in rows :: SettledAt(rows, live, id)
  }

  /** Everything about other artifacts is as before. */
  ghost predicate OthersSame(rows: Rows, live: Objects, rows': Rows, live': Objects, id: nat) {
    && (forall other | other != id ::
          (other in rows <==> other in rows') && (other in rows ==> rows'[other] == rows[other]))
    && (forall other | other != id ::
          && (ForArtifact(other) in live <==> ForArtifact(other) in live')
          && (ForArtifact(other) in live ==> live'[ForArtifact(other)] == live[ForArtifact(other)]))
  }

  lemma SettleOne(rows: Rows, live: Objects, rows': Rows, live': Objects, id: nat)
    requires OthersSame(rows, live, rows', live', id)
    requires forall other | other in rows && other != id :: SettledAt(rows, live, other)
    ensures Settled(rows', live') <==> SettledAt(rows', live', id)
  {
    hide ValidSha256;
  }

  /** All rows but that of `id` are as before. */
  ghost predicate OtherRowsSame(rows: Rows, rows': Rows, id: nat) {
    forall other | other != id :: (other in rows <==> other in rows') && (other in rows ==> rows'[other] == rows[other])
  }

  /** All objects but those under the given keys are as before. */
  ghost predicate OtherObjectsSame(live: Objects, live': Objects, keys: set<Key>) {
    forall key | key !in keys :: (key in live <==> key in live') && (key in live ==> live'[key] == live[key])
  }

  /** Work on one artifact that touches the object of another. */
  lemma SettleTwo(rows: Rows, live: Objects, rows': Rows, live': Objects, id: nat, owner: nat)
    requires OtherRowsSame(rows, rows', id) && OtherObjectsSame(live, live', {ForArtifact(id), ForArtifact(owner)})
    requires forall other | other in rows && other != id :: SettledAt(rows, live, other)
    ensures Settled(rows', live') <==> SettledAt(rows', live', id) && SettledAt(rows', live', owner)
  {
    hide ValidSha256;
  }

  lemma SameOthers(rows: Rows, live: Objects, rows': Rows, live': Objects, id: nat, key: Key)
    requires OtherRowsSame(rows, rows', id) && OtherObjectsSame(live, live', {ForArtifact(id), key})
    requires key == ForArtifact(id) || key.Other?
    ensures OthersSame(rows, live, rows', live', id)
  {
  }

  /** `_mark_failed`: a pending row becomes failed, any other is left alone. */
  function MarkedFailed(rows: Rows, id: nat, code: string): Rows {
    if id in rows && rows[id].status.Pending? then rows[id := rows[id].(status := Failed, errorCode := Some(code))]
    else rows
  }

  /** What `_finalize_ready` raises. */
  function FinalizeError(rows: Rows, id: nat, content: Content, fault: bool): (error: Option<Error>)
    ensures error.None? <==> !fault && id in rows && rows[id].status.Pending? && ValidSha256(content.sha256).Some?
  {
    if fault then Some(Database)
    else if id !in rows then Some(NotFound)
    else if !rows[id].status.Pending? then Some(InvalidState)
    else if ValidSha256(content.sha256).None? then Some(Storage(Rejected))
    else None
  }

  /** What `_mark_deleted` raises. */
  function DeleteError(rows: Rows, id: nat, expected: ArtifactStatus, fault: bool): (error: Option<Error>)
    ensures error.None? <==> !fault && id in rows && (rows[id].status.Deleted? || rows[id].status == expected)
  {
    if fault then Some(Database)
    else if id !in rows then Some(NotFound)
    else if !rows[id].status.Deleted? && rows[id].status != expected then Some(InvalidState)
    else None
  }

  /** `_finalize_ready`: only a pending row becomes ready. */
  function Finalized(row: Row, content: Content): Row
    requires ValidSha256(content.sha256).Some?
  {
    row.(status := Ready, size := content.size, sha256 := ValidSha256(content.sha256), errorCode := None)
  }
}
