/** Which webhook deliveries a worker can claim, and what a claim does to the rows, told on their own columns. */
module CiClaims {
  import opened Common
  import opened CiTimeline
  import opened CiRun
  import opened CiOutbox
  import opened CiSystem

  /** Waiting, with its time come. */
  predicate Ripe(x: Delivery, now: Time) {
    (x.status.Pending? || x.status.RetryWait?) && x.availableAt <= now
  }

  /** Claimed by a worker whose lease has run out. */
  predicate Abandoned(x: Delivery, now: Time) {
    x.status.Claimed? && x.lease.Some? && x.lease.value.expiresAt <= now
  }

  /** Row `k` of run `r` has attempts left, nothing undelivered before it, and nobody working on it. */
  predicate Claimable(records: Records, r: nat, k: nat, now: Time) {
    && r in records && k < |records[r].outbox|
    && var x := records[r].outbox[k];
       && x.attempts < x.maxAttempts
       && (forall l | 0 <= l < k :: records[r].outbox[l].status.Delivered?)
       && (Ripe(x, now) || Abandoned(x, now))
  }

  /** The row would be claimed no later: it is due earlier, then older, then has the smaller identifier. */
  predicate NoLater(x: Delivery, xId: nat, y: Delivery, yId: nat) {
    && x.availableAt <= y.availableAt
    && (x.availableAt == y.availableAt ==> x.createdAt <= y.createdAt)
    && (x.availableAt == y.availableAt && x.createdAt == y.createdAt ==> xId <= yId)
  }

  /** Row `k` of run `r` is claimable, and no claimable row comes before it. */
  ghost predicate ClaimedFirst(records: Records, ids: Identifiers, r: nat, k: nat, now: Time) {
    && Claimable(records, r, k, now)
    && forall q: nat, l: nat | Claimable(records, q, l, now) ::
         NoLater(records[r].outbox[k], ids(r, k + 1), records[q].outbox[l], ids(q, l + 1))
  }

  /** Nobody can finish a final attempt whose lease has run out: the row becomes a dead letter. Others stay. */
  predicate Expires(x: Delivery, y: Delivery, now: Time) {
    y == if Abandoned(x, now) && x.attempts >= x.maxAttempts
         then x.(status := DeadLetter, lease := None, lastError := Some("lease_expired"), updatedAt := now,
                 deadLetteredAt := Some(now), version := x.version + 1)
         else x
  }

  /** The run rows are untouched, and every row of the outboxes other than (r, k) at most expires. */
  predicate OnlyExpires(before: Records, after: Records, now: Time, claimed: Option<(nat, nat)>) {
    && after.Keys == before.Keys
    && forall r | r in before ::
         && after[r] == before[r].(outbox := after[r].outbox)
         && |after[r].outbox| == |before[r].outbox|
         && forall k | 0 <= k < |before[r].outbox| && claimed != Some((r, k)) ::
              Expires(before[r].outbox[k], after[r].outbox[k], now)
  }

  /** One more attempt, under a lease of the given length. */
  predicate Takes(x: Delivery, y: Delivery, worker: string, token: nat, expiresAt: Time, now: Time) {
    y == x.(status := Claimed, attempts := x.attempts + 1, lease := Some(Lease(worker, token, expiresAt)),
            lastError := None, updatedAt := now, version := x.version + 1)
  }

  // ---------------------------------------------------------------------
  // The claim query finds these rows
  // ---------------------------------------------------------------------

  lemma ClaimableExactlyWhen(c: Catalogue, records: Records, r: nat, k: nat, now: Time)
    requires ValidCatalogue(c) && Inv(c, records)
    ensures EligibleRow(LapseAll(records, now), r, k, now) <==> Claimable(records, r, k, now)
    ensures Claimable(records, r, k, now) ==> LapseAll(records, now)[r].outbox[k] == records[r].outbox[k]
  {
    hide Inv, Snapshots, AtHead;
    if RowAt(records, r, k) {
      SnapshotsOf(c, records, r);
      RowsInOrder(records[r].outbox, now, k);
    }
  }

  lemma SnapshotsOf(c: Catalogue, records: Records, r: nat)
    requires ValidCatalogue(c) && Inv(c, records) && r in records
    ensures Snapshots(records[r].outbox)
  {
    hide Consistent, Snapshots, UpToDate, Deliverable, Routed;
    assert RecordInv(c, r, records[r]);
  }

  lemma RowsInOrder(rows: seq<Delivery>, now: Time, k: nat)
    requires Snapshots(rows) && k < |rows|
    ensures AtHead(LapsedRows(rows, now), k) <==> forall l | 0 <= l < k :: rows[l].status.Delivered?
  {
    var lapsed := LapsedRows(rows, now);
    assert forall l | 0 <= l < |rows| :: lapsed[l].sequence == rows[l].sequence == l + 1;
    assert forall l | 0 <= l < |rows| :: lapsed[l].status.Delivered? <==> rows[l].status.Delivered?;
  }

  lemma FirstDueExactlyWhen(c: Catalogue, ids: Identifiers, records: Records, r: nat, k: nat, now: Time)
    requires ValidCatalogue(c) && Inv(c, records)
    ensures FirstDue(LapseAll(records, now), ids, r, k, now) <==> ClaimedFirst(records, ids, r, k, now)
  {
    hide EligibleRow, LapseAll, Claimable, Inv;
    var lapsed := LapseAll(records, now);
    forall q: nat, l: nat
      ensures EligibleRow(lapsed, q, l, now) <==> Claimable(records, q, l, now)
      ensures Claimable(records, q, l, now) ==>
                RowAt(lapsed, q, l) && RowAt(records, q, l) && lapsed[q].outbox[l] == records[q].outbox[l]
    {
      ClaimableExactlyWhen(c, records, q, l, now);
      ClaimableIsRow(records, q, l, now);
      EligibleIsRow(lapsed, q, l, now);
    }
  }

  lemma ClaimableIsOpen(c: Catalogue, records: Records, r: nat, k: nat, now: Time)
    requires ValidCatalogue(c) && Inv(c, records) && Claimable(records, r, k, now)
    ensures RowAt(records, r, k)
    ensures records[r].outbox[k].deliveredAt.None? && records[r].outbox[k].deadLetteredAt.None?
  {
    assert RecordInv(c, r, records[r]);
    assert RowShape(records[r].outbox[k]);
  }

  predicate RowAt(records: Records, r: nat, k: nat) {
    r in records && k < |records[r].outbox|
  }

  lemma ClaimableIsRow(records: Records, r: nat, k: nat, now: Time)
    ensures Claimable(records, r, k, now) ==> RowAt(records, r, k)
  {
  }

  lemma EligibleIsRow(records: Records, r: nat, k: nat, now: Time)
    ensures EligibleRow(records, r, k, now) ==> RowAt(records, r, k)
  {
  }

  /** Lapsing expires exactly the final attempts whose lease has run out. */
  lemma LapseExpires(records: Records, now: Time)
    ensures OnlyExpires(records, LapseAll(records, now), now, None)
  {
  }

  /** A worker that died does not block the run: once its lease has run out, any worker can claim the row again. */
  lemma AbandonedIsClaimable(c: Catalogue, records: Records, r: nat, k: nat, now: Time)
    requires ValidCatalogue(c) && Inv(c, records) && RowAt(records, r, k)
    requires records[r].outbox[k].status.Claimed? && records[r].outbox[k].attempts < records[r].outbox[k].maxAttempts
    ensures records[r].outbox[k].lease.Some?
    ensures records[r].outbox[k].lease.value.expiresAt <= now ==> Claimable(records, r, k, now)
  {
    hide Consistent, Snapshots, UpToDate, Routed;
    assert RecordInv(c, r, records[r]);
    var rows := records[r].outbox;
    assert RowShape(rows[k]);
    var head: nat :| InOrder(rows, head);
    assert head == k;
  }
}
