/** When revoking an entitlement queues a sync of the remote folders (RevokeEntitlement and
    enqueueEntitlementSyncTx in v3/internal/platform/access_lines.go). */
module EntitlementSyncs {
  import opened Options
  import opened Text
  import opened Entitlements

  /** This step revokes row `i` while the row has a binding. */
  predicate Revokes(db: Db, op: Op, i: nat) {
    op.RevokeRow? && op.row == i && ReasonGiven(op.reason) && i < |db.rows| && db.rows[i].status != Revoked && db.rows[i].binding.Some?
  }

  /** Row `i` was revoked with a binding at some point. */
  predicate RevokedBefore(ops: seq<Op>, i: nat) {
    ops != [] &&
    var front := ops[..|ops| - 1];
    RevokedBefore(front, i) || Revokes(Run(EMPTY, front), ops[|ops| - 1], i)
  }

  lemma QueuedStep(db: Db, op: Op, i: nat)
    ensures RevokeKey(i) in Step(db, op).queued <==> RevokeKey(i) in db.queued || Revokes(db, op, i)
  {
  }

  lemma {:induction false} QueuedExactlyWhen(ops: seq<Op>, i: nat)
    ensures RevokeKey(i) in Run(EMPTY, ops).queued <==> RevokedBefore(ops, i)
  {
    if ops != [] {
      QueuedExactlyWhen(ops[..|ops| - 1], i);
      QueuedStep(Run(EMPTY, ops[..|ops| - 1]), ops[|ops| - 1], i);
    }
  }

  /** The key of a revocation names the row only: an accepted revocation queues a sync
      exactly when the row has a binding and was never revoked with one before. */
  lemma RevocationSyncsExactlyWhen(ops: seq<Op>, i: nat, reason: string)
    requires RevokeEntitlement(Run(EMPTY, ops), i, reason).1.Ok?
    ensures var db := Run(EMPTY, ops);
      RevokeEntitlement(db, i, reason).0.queued != db.queued <==> db.rows[i].binding.Some? && !RevokedBefore(ops, i)
  {
    QueuedExactlyWhen(ops, i);
  }

  /** A queued grant key names a grant that was made. */
  predicate GrantKeysOk(db: Db) {
    forall k :: k in db.queued && k.GrantKey? ==> k.row < |db.rows| && k.nth <= |db.rows[k.row].granted|
  }

  lemma GrantKeysStep(db: Db, op: Op)
    requires GrantKeysOk(db)
    ensures GrantKeysOk(Step(db, op))
  {
    RowsGrow(db, op);
  }

  lemma RowsGrow(db: Db, op: Op)
    ensures |db.rows| <= |Step(db, op).rows|
    ensures forall i :: 0 <= i < |db.rows| ==> |db.rows[i].granted| <= |Step(db, op).rows[i].granted|
  {
  }

  lemma {:induction false} GrantKeysRun(ops: seq<Op>)
    ensures GrantKeysOk(Run(EMPTY, ops))
  {
    if ops != [] {
      GrantKeysRun(ops[..|ops| - 1]);
      GrantKeysStep(Run(EMPTY, ops[..|ops| - 1]), ops[|ops| - 1]);
    }
  }

  /** Unlike a revocation, every accepted grant queues a sync. */
  lemma GrantsAlwaysSync(ops: seq<Op>, now: int, a: Account, instance: Option<nat>, resource: Resource, days: int)
    requires GrantEntitlement(Run(EMPTY, ops), now, a, instance, resource, days).1.Ok?
    ensures GrantEntitlement(Run(EMPTY, ops), now, a, instance, resource, days).0.queued != Run(EMPTY, ops).queued
  {
    GrantKeysRun(ops);
    var db := Run(EMPTY, ops);
    var (after, r) := GrantEntitlement(db, now, a, instance, resource, days);
    assert GrantKey(r.row, |after.rows[r.row].granted|) in after.queued;
  }

  lemma RunSnoc(ops: seq<Op>, op: Op)
    ensures Run(EMPTY, ops + [op]) == Step(Run(EMPTY, ops), op)
    ensures forall i :: RevokedBefore(ops + [op], i) <==> RevokedBefore(ops, i) || Revokes(Run(EMPTY, ops), op, i)
  {
    assert (ops + [op])[..|ops|] == ops;
  }

  /** The account has one binding and at most one row, which is for this folder. */
  predicate AloneWith(db: Db, a: Account, instance: nat, key: string) {
    && db.bindings == [Binding(a, instance, true, false)] && |db.rows| <= 1
    && (|db.rows| == 1 ==>
          db.rows[0].account == a && db.rows[0].instance == Some(instance) && db.rows[0].resource == ("emby_library", TrimSpace(key)))
  }

  lemma GrantManages(db: Db, a: Account, instance: nat, key: string, now: int, days: int)
    requires AloneWith(db, a, instance, key) && TrimSpace(key) != "" && 1 <= days <= 3650
    ensures var t := Step(db, GrantTo(now, a, None, ("emby_library", key), days));
      AloneWith(t, a, instance, key) && |t.rows| == 1 && Manages(t.rows[0], 0, now)
  {
    assert db.bindings[..0] == [] && Serves(db.bindings[0], a, None);
    assert PickBinding(db.bindings, a, None) == Some(0);
    if |db.rows| == 1 { FoundByKey(db.rows, 0); }
  }

  lemma FirstGrants(a: Account, instance: nat, key: string, now: int, days: int) returns (ops: seq<Op>)
    requires TrimSpace(key) != "" && 1 <= days <= 3650
    ensures AloneWith(Run(EMPTY, ops), a, instance, key) && |Run(EMPTY, ops).rows| == 1
    ensures Manages(Run(EMPTY, ops).rows[0], 0, now)
  {
    var binding := AddBinding(Binding(a, instance, true, false));
    assert Run(EMPTY, []) == EMPTY;
    RunSnoc([], binding);
    RunSnoc([] + [binding], GrantTo(now, a, None, ("emby_library", key), days));
    GrantManages(Run(EMPTY, [] + [binding]), a, instance, key, now, days);
    ops := [] + [binding] + [GrantTo(now, a, None, ("emby_library", key), days)];
  }

  /** Grant, revoke, grant again and revoke again: the second revocation takes the access
      away in the database and queues no sync that would take the folder away. */
  lemma SecondRevocationIsNotSynced(a: Account, instance: nat, key: string, now: int, days: int, reason: string) returns (ops: seq<Op>)
    requires TrimSpace(key) != "" && ReasonGiven(reason) && 1 <= days <= 3650
    ensures var db := Run(EMPTY, ops); var (after, r) := RevokeEntitlement(db, 0, reason);
      && r.Ok? && after.queued == db.queued
      && ManagedFolder(db.rows, 0, now, TrimSpace(key)) && !ManagedFolder(after.rows, 0, now, TrimSpace(key))
  {
    var first := FirstGrants(a, instance, key, now, days);
    RunSnoc(first, RevokeRow(0, reason));
    var second := first + [RevokeRow(0, reason)];
    RunSnoc(second, GrantTo(now, a, None, ("emby_library", key), days));
    GrantManages(Run(EMPTY, second), a, instance, key, now, days);
    ops := second + [GrantTo(now, a, None, ("emby_library", key), days)];
    RevocationSyncsExactlyWhen(ops, 0, reason);
  }
}
