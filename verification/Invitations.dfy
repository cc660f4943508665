/** Accounting of invitation codes over every run of the membership operations
    (redeemInvitationTx, RevokeInvitation and GenerateInvitations in
    v3/internal/platform/membership.go). */
module Invitations {
  import opened Options
  import opened Text
  import opened Memberships

  /** How many redemptions an invitation has. */
  function Uses(rs: seq<Redemption>, i: nat): nat {
    if rs == [] then 0
    else Uses(rs[..|rs| - 1], i) + if rs[|rs| - 1].invitation == i then 1 else 0
  }

  /** How many memberships name it as their source. */
  function Sourced(rows: seq<Membership>, i: nat): nat {
    if rows == [] then 0
    else Sourced(rows[..|rows| - 1], i) + if rows[|rows| - 1].source == Invited(i) then 1 else 0
  }

  predicate InvitationOk(db: Db, i: nat)
    requires i < |db.invitations|
  {
    var inv := db.invitations[i];
    && inv.used == Uses(db.redemptions, i) == Sourced(db.memberships, i)
    && inv.used <= inv.maxUses && inv.maxUses >= 1
    && (inv.status == UsedUp <==> inv.used == inv.maxUses)
  }

  predicate RedemptionOk(db: Db, r: Redemption) {
    && r.invitation < |db.invitations| && r.membership < |db.memberships|
    && db.memberships[r.membership].account == r.account
    && db.memberships[r.membership].source == Invited(r.invitation)
  }

  predicate Inv(db: Db) {
    && (forall i :: 0 <= i < |db.invitations| ==> InvitationOk(db, i))
    && (forall j :: 0 <= j < |db.redemptions| ==> RedemptionOk(db, db.redemptions[j]))
    && (forall i, j :: 0 <= i < j < |db.redemptions| ==>
          !(db.redemptions[i].invitation == db.redemptions[j].invitation && db.redemptions[i].account == db.redemptions[j].account)
          && db.redemptions[i].key != db.redemptions[j].key)
    && (forall i, j :: 0 <= i < j < |db.invitations| ==> db.invitations[i].code != db.invitations[j].code)
    && (forall k :: 0 <= k < |db.memberships| ==>
          db.memberships[k].source.Invited? ==> db.memberships[k].source.invitation < |db.invitations|)
  }

  lemma UsesAppend(rs: seq<Redemption>, r: Redemption, i: nat)
    ensures Uses(rs + [r], i) == Uses(rs, i) + if r.invitation == i then 1 else 0
  {
    assert (rs + [r])[..|rs|] == rs;
  }

  lemma {:induction false} SourcedOfExpired(rows: seq<Membership>, a: Account, i: nat)
    ensures Sourced(ExpireLive(rows, a), i) == Sourced(rows, i)
  {
    if rows != [] {
      assert ExpireLive(rows, a)[..|rows| - 1] == ExpireLive(rows[..|rows| - 1], a);
      SourcedOfExpired(rows[..|rows| - 1], a, i);
    }
  }

  lemma SourcedAfterAssign(rows: seq<Membership>, a: Account, m: Membership, i: nat)
    ensures Sourced(ExpireLive(rows, a) + [m], i) == Sourced(rows, i) + if m.source == Invited(i) then 1 else 0
  {
    assert (ExpireLive(rows, a) + [m])[..|rows|] == ExpireLive(rows, a);
    SourcedOfExpired(rows, a, i);
  }

  lemma {:induction false} NothingRefersTo(db: Db, rs: seq<Redemption>, rows: seq<Membership>, i: nat)
    requires forall j :: 0 <= j < |rs| ==> rs[j].invitation != i
    requires forall k :: 0 <= k < |rows| ==> rows[k].source != Invited(i)
    ensures Uses(rs, i) == 0 && Sourced(rows, i) == 0
    decreases |rs| + |rows|
  {
    if rs != [] { NothingRefersTo(db, rs[..|rs| - 1], rows, i); }
    if rows != [] { NothingRefersTo(db, rs, rows[..|rows| - 1], i); }
  }

  lemma AssignKeeps(db: Db, now: int, a: Account, plan: nat, startsAt: Option<int>, days: int, source: Source)
    requires Inv(db) && !source.Invited?
    ensures Inv(AssignTx(db, now, a, plan, startsAt, days, source).0)
  {
    var db' := AssignTx(db, now, a, plan, startsAt, days, source).0;
    if db' != db {
      forall i | 0 <= i < |db'.invitations| ensures InvitationOk(db', i) {
        assert InvitationOk(db, i);
        SourcedAfterAssign(db.memberships, a, db'.memberships[|db.memberships|], i);
      }
      forall j | 0 <= j < |db'.redemptions| ensures RedemptionOk(db', db'.redemptions[j]) {
        assert RedemptionOk(db, db.redemptions[j]);
      }
    }
  }

  lemma SpentCounts(db: Db, now: int, a: Account, i: nat, key: string)
    requires Inv(db) && i < |db.invitations| && Usable(db.invitations[i], now) && Spend(db, now, a, i, key).1.Ok?
    ensures var db' := Spend(db, now, a, i, key).0; |db'.invitations| == |db.invitations|
    ensures var db' := Spend(db, now, a, i, key).0;
      forall k :: 0 <= k < |db'.invitations| ==> InvitationOk(db', k)
  {
    var db' := Spend(db, now, a, i, key).0;
    var m := db'.memberships[|db.memberships|];
    forall k | 0 <= k < |db'.invitations| ensures InvitationOk(db', k) {
      assert InvitationOk(db, k);
      SourcedAfterAssign(db.memberships, a, m, k);
      UsesAppend(db.redemptions, db'.redemptions[|db.redemptions|], k);
    }
  }

  lemma SpentRefers(db: Db, now: int, a: Account, i: nat, key: string)
    requires Inv(db) && i < |db.invitations| && Spend(db, now, a, i, key).1.Ok?
    ensures var db' := Spend(db, now, a, i, key).0;
      forall j :: 0 <= j < |db'.redemptions| ==> RedemptionOk(db', db'.redemptions[j])
  {
    var db' := Spend(db, now, a, i, key).0;
    forall j | 0 <= j < |db'.redemptions| ensures RedemptionOk(db', db'.redemptions[j]) {
      if j < |db.redemptions| { assert RedemptionOk(db, db.redemptions[j]); }
    }
  }

  lemma SpendKeeps(db: Db, now: int, a: Account, i: nat, key: string)
    requires Inv(db) && i < |db.invitations| && Usable(db.invitations[i], now)
    ensures Inv(Spend(db, now, a, i, key).0)
  {
    if Spend(db, now, a, i, key).1.Ok? {
      SpentCounts(db, now, a, i, key);
      SpentRefers(db, now, a, i, key);
    }
  }

  lemma IssueKeeps(db: Db, now: int, order: Order)
    requires Inv(db)
    ensures Inv(Generate(db, now, order).0)
  {
    var db' := Generate(db, now, order).0;
    if db' != db {
      forall i | 0 <= i < |db'.invitations| ensures InvitationOk(db', i) {
        if i < |db.invitations| { assert InvitationOk(db, i); } else { IssuedIsUnused(db, i); }
      }
      forall j | 0 <= j < |db'.redemptions| ensures RedemptionOk(db', db'.redemptions[j]) {
        assert RedemptionOk(db, db.redemptions[j]);
      }
    }
  }

  lemma IssuedIsUnused(db: Db, i: nat)
    requires Inv(db) && i >= |db.invitations|
    ensures Uses(db.redemptions, i) == 0 && Sourced(db.memberships, i) == 0
  {
    forall j | 0 <= j < |db.redemptions| ensures db.redemptions[j].invitation != i {
      assert RedemptionOk(db, db.redemptions[j]);
    }
    NothingRefersTo(db, db.redemptions, db.memberships, i);
  }

  lemma RevokeKeeps(db: Db, i: nat)
    requires Inv(db)
    ensures Inv(RevokeInvitation(db, i).0)
  {
    var db' := RevokeInvitation(db, i).0;
    forall k | 0 <= k < |db'.invitations| ensures InvitationOk(db', k) { assert InvitationOk(db, k); }
    forall j | 0 <= j < |db'.redemptions| ensures RedemptionOk(db', db'.redemptions[j]) {
      assert RedemptionOk(db, db.redemptions[j]);
    }
  }

  lemma SetPlanKeeps(db: Db, id: nat, plan: Plan)
    requires Inv(db)
    ensures Inv(db.(plans := db.plans[id := plan]))
  {
    var db' := db.(plans := db.plans[id := plan]);
    forall k | 0 <= k < |db'.invitations| ensures InvitationOk(db', k) { assert InvitationOk(db, k); }
    forall j | 0 <= j < |db'.redemptions| ensures RedemptionOk(db', db'.redemptions[j]) {
      assert RedemptionOk(db, db.redemptions[j]);
    }
  }

  lemma StepKeeps(db: Db, op: Op)
    requires Inv(db)
    ensures Inv(Step(db, op).0)
  {
    match op
    case SetPlan(id, plan) => SetPlanKeeps(db, id, plan);
    case Assign(now, a, plan, startsAt, days) => AssignKeeps(db, now, a, plan, startsAt, days, Granted);
    case Sell(now, a, plan, days, purchase) => AssignKeeps(db, now, a, plan, Some(now), days, Purchased(purchase));
    case Redeem(now, a, code, key) =>
      var i := FindCode(db.invitations, TrimSpace(code));
      if Step(db, op).0 != db { SpendKeeps(db, now, a, i, TrimSpace(key)); }
    case Revoke(i) => RevokeKeeps(db, i);
    case Issue(now, order) => IssueKeeps(db, now, order);
  }

  lemma {:induction false} RunKeeps(db: Db, ops: seq<Op>)
    requires Inv(db)
    ensures Inv(Run(db, ops))
    decreases |ops|
  {
    if ops != [] {
      StepKeeps(db, ops[0]);
      RunKeeps(Step(db, ops[0]).0, ops[1..]);
    }
  }

  const EMPTY: Db := Db(map[], [], [], [])

  /** In every reachable state the use count of an invitation is the number of its
      redemptions and of the memberships it paid for, all by different accounts, never
      above the limit; and the code is used up exactly when the limit is reached. */
  lemma InvitationsAddUp(ops: seq<Op>, i: nat)
    requires i < |Run(EMPTY, ops).invitations|
    ensures var db := Run(EMPTY, ops); var inv := db.invitations[i];
      && inv.used == Uses(db.redemptions, i) == Sourced(db.memberships, i) <= inv.maxUses
      && (inv.status == UsedUp <==> inv.used == inv.maxUses)
      && (forall j, k :: 0 <= j < k < |db.redemptions| && db.redemptions[j].invitation == db.redemptions[k].invitation == i
            ==> db.redemptions[j].account != db.redemptions[k].account)
  {
    RunKeeps(EMPTY, ops);
    assert InvitationOk(Run(EMPTY, ops), i);
  }

  // ---- Replays ----

  predicate Survives(inv: Invitation, inv': Invitation) {
    inv'.code == inv.code && inv'.maxUses == inv.maxUses && inv'.used >= inv.used && inv'.plan == inv.plan
    && (inv.status != Open ==> inv' == inv)
  }

  predicate Extends(db: Db, db': Db) {
    && |db.invitations| <= |db'.invitations| && |db.redemptions| <= |db'.redemptions|
    && (forall i :: 0 <= i < |db.invitations| ==> Survives(db.invitations[i], db'.invitations[i]))
    && db'.redemptions[..|db.redemptions|] == db.redemptions
  }

  lemma StepExtends(db: Db, op: Op)
    ensures Extends(db, Step(db, op).0)
  {
    if op.Redeem? && Step(db, op).0 != db {
      SpendExtends(db, op.now, op.account, FindCode(db.invitations, TrimSpace(op.code)), TrimSpace(op.key));
    }
  }

  lemma SpendExtends(db: Db, now: int, a: Account, i: nat, key: string)
    requires i < |db.invitations| && db.invitations[i].status == Open
    ensures Extends(db, Spend(db, now, a, i, key).0)
  {
  }

  lemma ExtendsTransitive(x: Db, y: Db, z: Db)
    requires Extends(x, y) && Extends(y, z)
    ensures Extends(x, z)
  {
    assert z.redemptions[..|x.redemptions|] == z.redemptions[..|y.redemptions|][..|x.redemptions|];
    forall i | 0 <= i < |x.invitations| ensures Survives(x.invitations[i], z.invitations[i]) {
      assert Survives(x.invitations[i], y.invitations[i]) && Survives(y.invitations[i], z.invitations[i]);
    }
  }

  /** Redemptions are permanent; a revoked or used-up code never changes again. */
  lemma {:induction false} RunExtends(db: Db, ops: seq<Op>)
    ensures Extends(db, Run(db, ops))
    decreases |ops|
  {
    if ops != [] {
      StepExtends(db, ops[0]);
      RunExtends(Step(db, ops[0]).0, ops[1..]);
      ExtendsTransitive(db, Step(db, ops[0]).0, Run(db, ops));
    }
  }

  lemma {:induction false} FindCodeStable(xs: seq<Invitation>, ys: seq<Invitation>, code: string)
    requires |xs| <= |ys| && FindCode(xs, code) >= 0
    requires forall i :: 0 <= i < |xs| ==> ys[i].code == xs[i].code
    ensures FindCode(ys, code) == FindCode(xs, code)
    decreases |ys|
  {
    var front := ys[..|ys| - 1];
    if |ys| > |xs| {
      FindCodeStable(xs, front, code);
    } else if FindCode(xs[..|xs| - 1], code) >= 0 {
      FindCodeStable(xs[..|xs| - 1], front, code);
    } else {
      assert forall j :: 0 <= j < |front| ==> front[j].code == xs[..|xs| - 1][j].code;
    }
  }

  lemma {:induction false} FindRedemptionStable(rs: seq<Redemption>, rs': seq<Redemption>, i: nat, a: Account, key: string)
    requires |rs| <= |rs'| && rs'[..|rs|] == rs && FindRedemption(rs, i, a, key) >= 0
    ensures FindRedemption(rs', i, a, key) == FindRedemption(rs, i, a, key)
    decreases |rs'|
  {
    if |rs'| > |rs| {
      var front := rs'[..|rs'| - 1];
      assert front[..|rs|] == rs;
      FindRedemptionStable(rs, front, i, a, key);
    } else {
      assert rs' == rs;
    }
  }

  /** The redemption a request would be replayed from. */
  function ReplayOf(db: Db, a: Account, code: string, key: string): int {
    var i := FindCode(db.invitations, TrimSpace(code));
    if i == -1 then -1 else FindRedemption(db.redemptions, i, a, TrimSpace(key))
  }

  lemma SpendRecords(db: Db, now: int, a: Account, i: nat, key: string)
    requires i < |db.invitations| && FindRedemption(db.redemptions, i, a, key) == -1 && Spend(db, now, a, i, key).1.Ok?
    ensures var (db', r) := Spend(db, now, a, i, key);
      && FindRedemption(db'.redemptions, i, a, key) == |db.redemptions| < |db'.redemptions|
      && db'.redemptions[|db.redemptions|].membership == r.row
  {
    var db' := Spend(db, now, a, i, key).0;
    assert db'.redemptions[..|db.redemptions|] == db.redemptions;
  }

  lemma RedeemRecords(db: Db, now: int, a: Account, code: string, key: string)
    requires RedeemTx(db, now, a, code, key).1.Ok?
    ensures var (db', r) := RedeemTx(db, now, a, code, key);
      0 <= ReplayOf(db', a, code, key) < |db'.redemptions| && db'.redemptions[ReplayOf(db', a, code, key)].membership == r.row
  {
    var i, k := FindCode(db.invitations, TrimSpace(code)), TrimSpace(key);
    if FindRedemption(db.redemptions, i, a, k) == -1 {
      var db' := Spend(db, now, a, i, k).0;
      SpendRecords(db, now, a, i, k);
      SpendExtends(db, now, a, i, k);
      assert forall j :: 0 <= j < |db.invitations| ==> Survives(db.invitations[j], db'.invitations[j]);
      FindCodeStable(db.invitations, db'.invitations, TrimSpace(code));
    }
  }

  /** Redeeming again under the same key, at any later time and whatever happened since,
      even if the code was revoked or expired, answers with the same membership and changes nothing. */
  lemma RedemptionReplays(db: Db, now: int, a: Account, code: string, key: string, ops: seq<Op>, later: int)
    requires RedeemTx(db, now, a, code, key).1.Ok?
    ensures var (db', r) := RedeemTx(db, now, a, code, key);
      RedeemTx(Run(db', ops), later, a, code, key) == (Run(db', ops), r)
  {
    var (db', r) := RedeemTx(db, now, a, code, key);
    var end := Run(db', ops);
    RedeemRecords(db, now, a, code, key);
    RunExtends(db', ops);
    assert forall j :: 0 <= j < |db'.invitations| ==> Survives(db'.invitations[j], end.invitations[j]);
    FindCodeStable(db'.invitations, end.invitations, TrimSpace(code));
    FindRedemptionStable(db'.redemptions, end.redemptions, FindCode(db'.invitations, TrimSpace(code)), a, TrimSpace(key));
  }
}
