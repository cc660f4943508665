/** What assigning a membership, redeeming, revoking and issuing invitations do to the tables,
    in terms of the request (assignMembershipTx, RedeemInvitation, RevokeInvitation and
    GenerateInvitations in v3/internal/platform/membership.go). */
module MembershipEffects {
  import opened Options
  import opened Text
  import AccessTime
  import opened Memberships

  /** The account's rows that still count. */
  predicate Current(rows: seq<Membership>, a: Account, j: int) {
    0 <= j < |rows| && rows[j].account == a && rows[j].status in {Active, Grace}
  }

  /** The new row runs on top of what the latest current row has left after `starts`. */
  predicate RunsOnTop(rows: seq<Membership>, a: Account, starts: int, span: int, expires: int) {
    && (forall j :: 0 <= j < |rows| && Current(rows, a, j) && (forall k :: j < k < |rows| ==> !Current(rows, a, k)) ==>
          expires == (if rows[j].expires > starts then rows[j].expires else starts) + span)
    && ((forall j :: 0 <= j < |rows| ==> !Current(rows, a, j)) ==> expires == starts + span)
  }

  /** The old rows, of which the account's current ones are expired. */
  predicate OthersKept(rows: seq<Membership>, rows': seq<Membership>, a: Account) {
    && |rows'| >= |rows|
    && forall j :: 0 <= j < |rows| ==> rows'[j] == if Current(rows, a, j) then rows[j].(status := Expired) else rows[j]
  }

  /** One row was added for the account. */
  predicate AssignedTo(rows: seq<Membership>, rows': seq<Membership>, a: Account, plan: nat, starts: int, span: int, source: Source) {
    && |rows'| == |rows| + 1 && OthersKept(rows, rows', a)
    && var m := rows'[|rows|];
    && m.account == a && m.plan == plan && m.status == Active && m.starts == starts && m.span == span && m.source == source
    && RunsOnTop(rows, a, starts, span, m.expires)
  }

  lemma {:induction false} NoneCurrent(rows: seq<Membership>, a: Account)
    requires forall j :: 0 <= j < |rows| ==> !Current(rows, a, j)
    ensures LiveExpiry(rows, a) == None
  {
    if rows != [] {
      var front := rows[..|rows| - 1];
      assert !Current(rows, a, |rows| - 1);
      forall j | 0 <= j < |front| ensures !Current(front, a, j) { assert !Current(rows, a, j); }
      NoneCurrent(front, a);
    }
  }

  lemma {:induction false} LatestCurrent(rows: seq<Membership>, a: Account, j: int)
    requires Current(rows, a, j) && forall k :: j < k < |rows| ==> !Current(rows, a, k)
    ensures LiveExpiry(rows, a) == Some(rows[j].expires)
  {
    if j < |rows| - 1 {
      var front := rows[..|rows| - 1];
      assert !Current(rows, a, |rows| - 1);
      forall k | j < k < |front| ensures !Current(front, a, k) { assert !Current(rows, a, k); }
      LatestCurrent(front, a, j);
    }
  }

  lemma BaseIsOnTop(rows: seq<Membership>, a: Account, starts: int, span: int)
    ensures RunsOnTop(rows, a, starts, span, AccessTime.Base(LiveExpiry(rows, a), starts) + span)
  {
    forall j | Current(rows, a, j) && (forall k :: j < k < |rows| ==> !Current(rows, a, k))
      ensures LiveExpiry(rows, a) == Some(rows[j].expires)
    {
      LatestCurrent(rows, a, j);
    }
    if forall j :: 0 <= j < |rows| ==> !Current(rows, a, j) { NoneCurrent(rows, a); }
  }

  predicate PlanOpen(db: Db, plan: nat) {
    plan in db.plans && db.plans[plan].enabled
  }

  /** The days that are asked for, or the plan's. */
  function Span(db: Db, plan: nat, days: int): int
    requires plan in db.plans
  {
    (if days >= 1 then days else db.plans[plan].days) * 86400
  }

  /** An assignment is accepted exactly when the plan is there and enabled. Then the account's
      current membership ends in favour of one row that runs for the days asked for, the plan's
      if none are, on top of what was left; and otherwise nothing changes. */
  lemma AssignDoes(db: Db, now: int, a: Account, plan: nat, startsAt: Option<int>, days: int, source: Source)
    ensures var (db', r) := AssignTx(db, now, a, plan, startsAt, days, source);
      if PlanOpen(db, plan) then
        && r == Ok(|db.memberships|) && db' == db.(memberships := db'.memberships)
        && AssignedTo(db.memberships, db'.memberships, a, plan, if startsAt.Some? then startsAt.value else now, Span(db, plan, days), source)
      else r == Err(if plan in db.plans then Forbidden else NotFound) && db' == db
  {
    if PlanOpen(db, plan) {
      BaseIsOnTop(db.memberships, a, if startsAt.Some? then startsAt.value else now, Span(db, plan, days));
    }
  }

  /** The trimmed code is that of invitation `i`. */
  predicate Names(db: Db, i: nat, code: string) {
    i < |db.invitations| && db.invitations[i].code == TrimSpace(code) && forall j :: 0 <= j < i ==> db.invitations[j].code != TrimSpace(code)
  }

  predicate TextsFit(code: string, key: string) {
    TrimSpace(code) != "" && ByteLen(TrimSpace(code)) <= 100 && TrimSpace(key) != "" && ByteLen(TrimSpace(key)) <= 160
  }

  /** The account has not used this invitation, nor anybody the key. */
  predicate Unredeemed(db: Db, i: nat, a: Account, key: string) {
    forall j :: 0 <= j < |db.redemptions| ==>
      !(db.redemptions[j].invitation == i && db.redemptions[j].account == a) && db.redemptions[j].key != TrimSpace(key)
  }

  predicate Accepts(inv: Invitation, now: int) {
    inv.status == Open && inv.used < inv.maxUses && (inv.expires == None || now <= inv.expires.value)
  }

  predicate Redeemed(db: Db, db': Db, now: int, a: Account, i: nat, key: string)
    requires i < |db.invitations| && db.invitations[i].plan in db.plans
  {
    var inv := db.invitations[i];
    && db'.plans == db.plans
    && AssignedTo(db.memberships, db'.memberships, a, inv.plan, now, db.plans[inv.plan].days * 86400, Invited(i))
    && db'.redemptions == db.redemptions + [Redemption(i, a, |db.memberships|, TrimSpace(key))]
    && |db'.invitations| == |db.invitations|
    && (forall j :: 0 <= j < |db.invitations| && j != i ==> db'.invitations[j] == db.invitations[j])
    && db'.invitations[i] == inv.(used := inv.used + 1, status := if inv.used + 1 < inv.maxUses then Open else UsedUp)
  }

  /** A redemption under a new key is accepted exactly when the invitation is open, not used
      up and not expired, its plan is open and the account has not redeemed it before. Then
      the account gets the plan's days, the redemption is recorded and one use is counted;
      and otherwise nothing changes. */
  lemma RedeemDoes(db: Db, now: int, a: Account, code: string, key: string, i: nat)
    requires Names(db, i, code) && forall j :: 0 <= j < |db.redemptions| ==>
      !(db.redemptions[j].invitation == i && db.redemptions[j].account == a && db.redemptions[j].key == TrimSpace(key))
    ensures var (db', r) := RedeemTx(db, now, a, code, key);
      if TextsFit(code, key) && Accepts(db.invitations[i], now) && PlanOpen(db, db.invitations[i].plan) && Unredeemed(db, i, a, key)
      then r == Ok(|db.memberships|) && Redeemed(db, db', now, a, i, key)
      else r.Err? && db' == db
  {
    FirstCode(db.invitations, TrimSpace(code), i);
    AssignDoes(db, now, a, db.invitations[i].plan, Some(now), 0, Invited(i));
    TrimmedIsFixed(key);
    SpendDoes(db, now, a, i, TrimSpace(key));
  }

  lemma {:induction false} FirstCode(invitations: seq<Invitation>, code: string, i: nat)
    requires i < |invitations| && invitations[i].code == code && forall j :: 0 <= j < i ==> invitations[j].code != code
    ensures FindCode(invitations, code) == i
  {
    if i < |invitations| - 1 { FirstCode(invitations[..|invitations| - 1], code, i); }
  }

  lemma SpendDoes(db: Db, now: int, a: Account, i: nat, key: string)
    requires i < |db.invitations| && TrimSpace(key) == key
    ensures var (db', r) := Spend(db, now, a, i, key);
      if PlanOpen(db, db.invitations[i].plan) && Unredeemed(db, i, a, key)
      then r == Ok(|db.memberships|) && Redeemed(db, db', now, a, i, key)
      else r.Err? && db' == db
  {
    AssignDoes(db, now, a, db.invitations[i].plan, Some(now), 0, Invited(i));
  }

  /** A code nobody issued, or a text that does not fit, is refused. */
  lemma UnknownCodeIsRefused(db: Db, now: int, a: Account, code: string, key: string)
    requires forall j :: 0 <= j < |db.invitations| ==> db.invitations[j].code != TrimSpace(code)
    ensures RedeemTx(db, now, a, code, key) == (db, Err(if TextsFit(code, key) then NotFound else Invalid))
  {
  }

  /** Revoking works exactly on an open invitation, and touches nothing else. */
  lemma RevokeDoes(db: Db, i: nat)
    ensures var (db', r) := RevokeInvitation(db, i);
      if i < |db.invitations| && db.invitations[i].status == Open then
        && r == Ok(i) && db' == db.(invitations := db'.invitations) && |db'.invitations| == |db.invitations|
        && forall j :: 0 <= j < |db.invitations| ==>
             db'.invitations[j] == if j == i then db.invitations[i].(status := Revoked) else db.invitations[j]
      else r == Err(Conflict) && db' == db
  {
  }

  /** The codes are all new and all different. */
  predicate AllNew(db: Db, codes: seq<string>) {
    && (forall i, j :: 0 <= i < |codes| && 0 <= j < |db.invitations| ==> db.invitations[j].code != codes[i])
    && (forall i, j :: 0 <= i < j < |codes| ==> codes[i] != codes[j])
  }

  predicate OrderFits(db: Db, now: int, o: Order) {
    && o.kind in {"registration", "renewal"} && 1 <= |o.codes| <= 500 && 1 <= o.maxUses <= 10000
    && PlanOpen(db, o.plan) && (o.expires == None || o.expires.value >= now) && ValidPrefix(o.prefix) && AllNew(db, o.codes)
  }

  /** An order of invitations is all issued or not at all: one open, unused invitation for
      each code, after those that were there. */
  lemma IssueDoes(db: Db, now: int, o: Order)
    ensures var (db', r) := Generate(db, now, o);
      if OrderFits(db, now, o) then
        && r == Ok(|db.invitations|) && db' == db.(invitations := db'.invitations)
        && |db'.invitations| == |db.invitations| + |o.codes| && db'.invitations[..|db.invitations|] == db.invitations
        && forall j :: 0 <= j < |o.codes| ==>
             db'.invitations[|db.invitations| + j] == Invitation(o.codes[j], o.plan, Open, o.maxUses, 0, o.expires)
      else r.Err? && db' == db
  {
  }
}
