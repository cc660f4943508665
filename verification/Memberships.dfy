/** Membership assignment and invitation codes (v3/internal/platform/membership.go).
    One database transaction is one step; an error rolls it back. Times are in seconds. */
module Memberships {
  import opened Options
  import opened Text
  import opened AccessTime

  type Account = string

  datatype Status = Active | Grace | Expired | Canceled

  datatype Plan = Plan(enabled: bool, days: nat)

  /** The source columns: granted by an administrator or a batch, by an invitation, or by
      the purchase with that row number. */
  datatype Source = Granted | Invited(invitation: nat) | Purchased(purchase: nat)

  /** A row of account_memberships; `span` is the granted duration. */
  datatype Membership = Membership(account: Account, plan: nat, status: Status, starts: int, expires: int,
                                   span: nat, source: Source)

  datatype CodeStatus = Open | UsedUp | Revoked

  datatype Invitation = Invitation(code: string, plan: nat, status: CodeStatus, maxUses: nat, used: nat,
                                   expires: Option<int>)

  datatype Redemption = Redemption(invitation: nat, account: Account, membership: nat, key: string)

  datatype Db = Db(plans: map<nat, Plan>, memberships: seq<Membership>, invitations: seq<Invitation>,
                   redemptions: seq<Redemption>)

  datatype Error = Invalid | NotFound | Forbidden | Conflict | Storage

  /** The membership a committed operation answers with. */
  datatype Outcome = Ok(row: nat) | Err(error: Error)

  const DAY: nat := 86400

  predicate Live(m: Membership) {
    m.status == Active || m.status == Grace
  }

  /** Expiry of the current membership. */
  function LiveExpiry(rows: seq<Membership>, a: Account): Option<int> {
    if rows == [] then None
    else
      var m := rows[|rows| - 1];
      if m.account == a && Live(m) then Some(m.expires) else LiveExpiry(rows[..|rows| - 1], a)
  }

  function ExpireLive(rows: seq<Membership>, a: Account): (r: seq<Membership>)
    ensures |r| == |rows|
  {
    seq(|rows|, i requires 0 <= i < |rows| =>
      if rows[i].account == a && Live(rows[i]) then rows[i].(status := Expired) else rows[i])
  }

  /** assignMembershipTx. `startsAt` is None for the zero time. */
  function AssignTx(db: Db, now: int, a: Account, plan: nat, startsAt: Option<int>, days: int,
                    source: Source): (Db, Outcome)
  {
    if plan !in db.plans then (db, Err(NotFound))
    else if !db.plans[plan].enabled then (db, Err(Forbidden))
    else
      var span := (if days <= 0 then db.plans[plan].days else days) * DAY;
      var at := if startsAt.Some? then startsAt.value else now;
      var base := Base(LiveExpiry(db.memberships, a), at);
      var m := Membership(a, plan, Active, at, base + span, span, source);
      (db.(memberships := ExpireLive(db.memberships, a) + [m]), Ok(|db.memberships|))
  }

  function FindCode(invitations: seq<Invitation>, code: string): (i: int)
    ensures -1 <= i < |invitations|
    ensures i >= 0 ==> invitations[i].code == code
    ensures i == -1 ==> forall j :: 0 <= j < |invitations| ==> invitations[j].code != code
  {
    if invitations == [] then -1
    else
      var i := FindCode(invitations[..|invitations| - 1], code);
      if i >= 0 then i else if invitations[|invitations| - 1].code == code then |invitations| - 1 else -1
  }

  function FindRedemption(rs: seq<Redemption>, invitation: nat, a: Account, key: string): (i: int)
    ensures -1 <= i < |rs|
    ensures i >= 0 ==> rs[i].invitation == invitation && rs[i].account == a && rs[i].key == key
    ensures i == -1 ==> forall j :: 0 <= j < |rs| ==> !(rs[j].invitation == invitation && rs[j].account == a && rs[j].key == key)
  {
    if rs == [] then -1
    else
      var last := rs[|rs| - 1];
      var i := FindRedemption(rs[..|rs| - 1], invitation, a, key);
      if i >= 0 then i
      else if last.invitation == invitation && last.account == a && last.key == key then |rs| - 1 else -1
  }

  /** UNIQUE(invitation_id, account_id) and UNIQUE(idempotency_key). */
  predicate Clashes(rs: seq<Redemption>, r: Redemption) {
    exists j :: 0 <= j < |rs| && ((rs[j].invitation == r.invitation && rs[j].account == r.account) || rs[j].key == r.key)
  }

  predicate Usable(inv: Invitation, now: int) {
    inv.status == Open && inv.used < inv.maxUses && !(inv.expires.Some? && inv.expires.value < now)
  }

  function RedeemTx(db: Db, now: int, a: Account, code: string, key: string): (Db, Outcome) {
    var c, k := TrimSpace(code), TrimSpace(key);
    if c == "" || ByteLen(c) > 100 || k == "" || ByteLen(k) > 160 then (db, Err(Invalid))
    else
      var i := FindCode(db.invitations, c);
      if i == -1 then (db, Err(NotFound))
      else
        var replay := FindRedemption(db.redemptions, i, a, k);
        if replay >= 0 then (db, Ok(db.redemptions[replay].membership))
        else if !Usable(db.invitations[i], now) then (db, Err(Conflict))
        else Spend(db, now, a, i, k)
  }

  /** Assign the plan, insert the redemption, count the use. */
  function Spend(db: Db, now: int, a: Account, i: nat, key: string): (Db, Outcome)
    requires i < |db.invitations|
  {
    var inv := db.invitations[i];
    var (db1, r) := AssignTx(db, now, a, inv.plan, Some(now), 0, Invited(i));
    if r.Err? then (db, r)
    else
      var redemption := Redemption(i, a, r.row, key);
      if Clashes(db.redemptions, redemption) then (db, Err(Conflict))
      else
        var status := if inv.used + 1 >= inv.maxUses then UsedUp else Open;
        (db1.(redemptions := db.redemptions + [redemption],
              invitations := db.invitations[i := inv.(used := inv.used + 1, status := status)]), r)
  }

  function RevokeInvitation(db: Db, i: nat): (Db, Outcome) {
    if i >= |db.invitations| || db.invitations[i].status != Open then (db, Err(Conflict))
    else (db.(invitations := db.invitations[i := db.invitations[i].(status := Revoked)]), Ok(i))
  }

  predicate FreshCodes(invitations: seq<Invitation>, codes: seq<string>) {
    && (forall i :: 0 <= i < |codes| ==> FindCode(invitations, codes[i]) == -1)
    && (forall i, j :: 0 <= i < j < |codes| ==> codes[i] != codes[j])
  }

  function NewCodes(codes: seq<string>, plan: nat, maxUses: nat, expires: Option<int>): (r: seq<Invitation>)
    ensures |r| == |codes|
  {
    seq(|codes|, i requires 0 <= i < |codes| => Invitation(codes[i], plan, Open, maxUses, 0, expires))
  }

  /** ^[A-Z0-9]{2,16}$ on the trimmed, upper-cased setting. */
  predicate ValidPrefix(setting: string) {
    var prefix := ToUpper(TrimSpace(setting));
    2 <= |prefix| <= 16 && forall i :: 0 <= i < |prefix| ==> 'A' <= prefix[i] <= 'Z' || '0' <= prefix[i] <= '9'
  }

  /** What an administrator asks for: `prefix` is the configured code prefix, `codes` the
      generated codes. */
  datatype Order = Order(kind: string, plan: nat, prefix: string, codes: seq<string>, maxUses: int, expires: Option<int>)

  predicate WellFormed(o: Order) {
    (o.kind == "registration" || o.kind == "renewal") && 1 <= |o.codes| <= 500 && 1 <= o.maxUses <= 10000
  }

  /** GenerateInvitations. A code that clashes with a stored one fails in the database. */
  function Generate(db: Db, now: int, o: Order): (Db, Outcome) {
    if !WellFormed(o) then (db, Err(Invalid))
    else if o.plan !in db.plans || !db.plans[o.plan].enabled then (db, Err(NotFound))
    else if (o.expires.Some? && o.expires.value < now) || !ValidPrefix(o.prefix) then (db, Err(Invalid))
    else if !FreshCodes(db.invitations, o.codes) then (db, Err(Storage))
    else (db.(invitations := db.invitations + NewCodes(o.codes, o.plan, o.maxUses, o.expires)), Ok(|db.invitations|))
  }

  datatype Op =
    | SetPlan(id: nat, plan: Plan)
    | Assign(now: int, account: Account, plan_: nat, startsAt: Option<int>, days: int)
    | Sell(now: int, account: Account, plan_: nat, days: int, purchase: nat)
    | Redeem(now: int, account: Account, code: string, key: string)
    | Revoke(invitation: nat)
    | Issue(now: int, order: Order)

  function Step(db: Db, op: Op): (Db, Outcome) {
    match op
    case SetPlan(id, plan) => (db.(plans := db.plans[id := plan]), Ok(0))
    case Assign(now, a, plan, startsAt, days) => AssignTx(db, now, a, plan, startsAt, days, Granted)
    case Sell(now, a, plan, days, purchase) => AssignTx(db, now, a, plan, Some(now), days, Purchased(purchase))
    case Redeem(now, a, code, key) => RedeemTx(db, now, a, code, key)
    case Revoke(i) => RevokeInvitation(db, i)
    case Issue(now, order) => Generate(db, now, order)
  }

  function Run(db: Db, ops: seq<Op>): Db
    decreases |ops|
  {
    if ops == [] then db else Run(Step(db, ops[0]).0, ops[1..])
  }

  // ---- One current membership, and its expiry ----

  predicate AtMostOneLive(rows: seq<Membership>) {
    forall i, j :: 0 <= i < j < |rows| && rows[i].account == rows[j].account ==> !(Live(rows[i]) && Live(rows[j]))
  }

  /** What an account was granted, in order. */
  function GrantsOf(rows: seq<Membership>, a: Account): seq<Grant> {
    if rows == [] then []
    else
      var m := rows[|rows| - 1];
      GrantsOf(rows[..|rows| - 1], a) + if m.account == a then [Grant(m.starts, m.span)] else []
  }

  lemma {:induction false} ExpireOthers(rows: seq<Membership>, a: Account, b: Account)
    ensures LiveExpiry(ExpireLive(rows, a), b) == if a == b then None else LiveExpiry(rows, b)
  {
    if rows != [] {
      var front := rows[..|rows| - 1];
      assert ExpireLive(rows, a)[..|rows| - 1] == ExpireLive(front, a);
      ExpireOthers(front, a, b);
    }
  }

  /** The current membership is found wherever it is. */
  lemma {:induction false} LiveExpiryIsThatRow(rows: seq<Membership>, i: nat)
    requires i < |rows| && Live(rows[i]) && AtMostOneLive(rows)
    ensures LiveExpiry(rows, rows[i].account) == Some(rows[i].expires)
  {
    if i < |rows| - 1 { LiveExpiryIsThatRow(rows[..|rows| - 1], i); }
  }

  lemma LiveExpiryOfAppend(rows: seq<Membership>, m: Membership, a: Account)
    ensures LiveExpiry(rows + [m], a) == if m.account == a && Live(m) then Some(m.expires) else LiveExpiry(rows, a)
  {
    assert (rows + [m])[..|rows|] == rows;
  }

  /** The rows added by a step or a run. */
  function Added(db: Db, db': Db): seq<Membership>
    requires |db.memberships| <= |db'.memberships|
  {
    db'.memberships[|db.memberships|..]
  }

  /** Old rows only ever change their status. */
  predicate RowsKept(rows: seq<Membership>, rows': seq<Membership>) {
    && |rows| <= |rows'|
    && forall i :: 0 <= i < |rows| ==> rows'[i] == rows[i].(status := rows'[i].status)
  }

  predicate Accounted(db: Db, db': Db, a: Account) {
    && RowsKept(db.memberships, db'.memberships)
    && (AtMostOneLive(db.memberships) ==> AtMostOneLive(db'.memberships))
    && LiveExpiry(db'.memberships, a) == Expiry(LiveExpiry(db.memberships, a), GrantsOf(Added(db, db'), a))
  }

  lemma Unchanged(db: Db, db': Db, a: Account)
    requires db'.memberships == db.memberships
    ensures Accounted(db, db', a)
  {
    assert Added(db, db') == [];
  }

  lemma ReplacedRows(rows: seq<Membership>, m: Membership)
    ensures RowsKept(rows, ExpireLive(rows, m.account) + [m])
    ensures AtMostOneLive(rows) ==> AtMostOneLive(ExpireLive(rows, m.account) + [m])
  {
  }

  lemma GrantsOfOne(m: Membership, a: Account)
    ensures GrantsOf([m], a) == if m.account == a then [Grant(m.starts, m.span)] else []
  {
    assert [m][..0] == [];
    assert GrantsOf([m][..0], a) == [];
  }

  lemma ReplacedExpiry(rows: seq<Membership>, m: Membership, a: Account)
    requires m.status == Active && m.expires == Base(LiveExpiry(rows, m.account), m.starts) + m.span
    ensures LiveExpiry(ExpireLive(rows, m.account) + [m], a) == Expiry(LiveExpiry(rows, a), GrantsOf([m], a))
  {
    ExpireOthers(rows, m.account, a);
    LiveExpiryOfAppend(ExpireLive(rows, m.account), m, a);
    GrantsOfOne(m, a);
    ExpiryOfAppend(LiveExpiry(rows, a), [], Grant(m.starts, m.span));
    assert [] + [Grant(m.starts, m.span)] == [Grant(m.starts, m.span)];
  }

  lemma AssignAccounts(db: Db, now: int, b: Account, plan: nat, startsAt: Option<int>, days: int, source: Source, a: Account)
    ensures Accounted(db, AssignTx(db, now, b, plan, startsAt, days, source).0, a)
  {
    var (db', r) := AssignTx(db, now, b, plan, startsAt, days, source);
    if r.Err? {
      Unchanged(db, db', a);
    } else {
      var m := db'.memberships[|db.memberships|];
      assert Added(db, db') == [m];
      ReplacedRows(db.memberships, m);
      ReplacedExpiry(db.memberships, m, a);
    }
  }

  lemma SpendAccounts(db: Db, now: int, b: Account, i: nat, key: string, a: Account)
    requires i < |db.invitations|
    ensures Accounted(db, Spend(db, now, b, i, key).0, a)
  {
    var plan := db.invitations[i].plan;
    var db' := Spend(db, now, b, i, key).0;
    var assigned_ := AssignTx(db, now, b, plan, Some(now), 0, Invited(i)).0;
    if db'.memberships == assigned_.memberships {
      AssignAccounts(db, now, b, plan, Some(now), 0, Invited(i), a);
      assert Added(db, db') == Added(db, assigned_);
    } else {
      Unchanged(db, db', a);
    }
  }

  lemma StepAccounts(db: Db, op: Op, a: Account)
    ensures Accounted(db, Step(db, op).0, a)
  {
    match op
    case Assign(now, b, plan, startsAt, days) => AssignAccounts(db, now, b, plan, startsAt, days, Granted, a);
    case Sell(now, b, plan, days, purchase) => AssignAccounts(db, now, b, plan, Some(now), days, Purchased(purchase), a);
    case Redeem(now, b, code, key) =>
      var i := FindCode(db.invitations, TrimSpace(code));
      if Step(db, op).0 != db { SpendAccounts(db, now, b, i, TrimSpace(key), a); } else { Unchanged(db, db, a); }
    case SetPlan(_, _) => Unchanged(db, Step(db, op).0, a);
    case Revoke(_) => Unchanged(db, Step(db, op).0, a);
    case Issue(_, _) => Unchanged(db, Step(db, op).0, a);
  }

  lemma {:induction false} ExpiryConcat(start: Option<int>, gs: seq<Grant>, hs: seq<Grant>)
    ensures Expiry(start, gs + hs) == Expiry(Expiry(start, gs), hs)
  {
    if hs == [] {
      assert gs + hs == gs;
    } else {
      assert (gs + hs)[..|gs + hs| - 1] == gs + hs[..|hs| - 1];
      ExpiryConcat(start, gs, hs[..|hs| - 1]);
    }
  }

  lemma {:induction false} GrantsConcat(rows: seq<Membership>, more: seq<Membership>, a: Account)
    ensures GrantsOf(rows + more, a) == GrantsOf(rows, a) + GrantsOf(more, a)
  {
    if more == [] {
      assert rows + more == rows;
    } else {
      assert (rows + more)[..|rows + more| - 1] == rows + more[..|more| - 1];
      GrantsConcat(rows, more[..|more| - 1], a);
    }
  }

  /** A later status does not change what a row granted. */
  lemma {:induction false} GrantsKept(rows: seq<Membership>, rows': seq<Membership>, a: Account)
    requires |rows| == |rows'| && RowsKept(rows, rows')
    ensures GrantsOf(rows, a) == GrantsOf(rows', a)
  {
    if rows != [] { GrantsKept(rows[..|rows| - 1], rows'[..|rows| - 1], a); }
  }

  lemma AccountedTransitive(x: Db, y: Db, z: Db, a: Account)
    requires Accounted(x, y, a) && Accounted(y, z, a)
    ensures Accounted(x, z, a)
  {
    var n, m := |x.memberships|, |y.memberships|;
    var middle := z.memberships[n..m];
    assert Added(x, z) == middle + Added(y, z);
    GrantsConcat(middle, Added(y, z), a);
    assert RowsKept(Added(x, y), middle);
    GrantsKept(Added(x, y), middle, a);
    ExpiryConcat(LiveExpiry(x.memberships, a), GrantsOf(middle, a), GrantsOf(Added(y, z), a));
  }

  lemma {:induction false} RunAccounts(db: Db, ops: seq<Op>, a: Account)
    ensures Accounted(db, Run(db, ops), a)
    decreases |ops|
  {
    if ops == [] {
      Unchanged(db, db, a);
    } else {
      StepAccounts(db, ops[0], a);
      RunAccounts(Step(db, ops[0]).0, ops[1..], a);
      AccountedTransitive(db, Step(db, ops[0]).0, Run(db, ops), a);
    }
  }

  /** From any state, after any mixture of assignments and redemptions by anyone: still at
      most one current membership, whose expiry is the maximum the grants allow. */
  lemma ExpiryAfterRun(db: Db, ops: seq<Op>, a: Account)
    requires AtMostOneLive(db.memberships)
    ensures AtMostOneLive(Run(db, ops).memberships)
    ensures RowsKept(db.memberships, Run(db, ops).memberships)
    ensures var start := LiveExpiry(db.memberships, a);
      var gs := GrantsOf(Added(db, Run(db, ops)), a);
      var e := LiveExpiry(Run(db, ops).memberships, a);
      if gs == [] then e == start else e.Some? && Bounds(start, gs, e.value) && Attained(start, gs, e.value)
  {
    RunAccounts(db, ops, a);
    var gs := GrantsOf(Added(db, Run(db, ops)), a);
    if gs != [] { ExpiryIsMaximum(LiveExpiry(db.memberships, a), gs); }
  }
}
