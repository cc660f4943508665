/** The purchase of a membership together with the membership it pays for
    (PurchaseMembership in v3/internal/platform/commerce.go and assignMembershipTx in
    membership.go): one transaction over both sets of tables. */
module MembershipSales {
  import opened Options
  import opened Keys
  import opened Text
  import Ledger
  import Commerce
  import CommerceLaws
  import CommerceEffects
  import Memberships
  import Invitations
  import AccessTime

  /** A membership product joined with its plan. */
  datatype Offer = Offer(details: Commerce.Product, plan: nat, days: int)

  /** `sold` is the membership_id column of membership_purchases. */
  datatype Shop = Shop(money: Commerce.Db, members: Memberships.Db, sold: seq<nat>)

  datatype Action =
    | Pay(op: Commerce.Op)
    | Enrol(change: Memberships.Op)
    | Buy(now: int, account: Uuid, offer: Option<Offer>, key: string, id: Uuid)

  /** What assignMembershipTx answers for the plan of the offer. */
  function Assigned(s: Shop, now: int, account: Uuid, offer: Option<Offer>): (Memberships.Db, Memberships.Outcome) {
    if offer == None then (s.members, Memberships.Err(Memberships.NotFound))
    else Memberships.AssignTx(s.members, now, account, offer.value.plan, Some(now), offer.value.days,
                              Memberships.Purchased(|s.money.purchases|))
  }

  function Purchase(s: Shop, now: int, account: Uuid, offer: Option<Offer>, key: string, id: Uuid): Commerce.Op {
    Commerce.BuyMembership(account, if offer.Some? then Some(offer.value.details) else None,
                           Assigned(s, now, account, offer).1.Ok?, key, id)
  }

  /** Both tables are written, or neither: a replay or an error leaves the members alone. */
  function BuyStep(s: Shop, now: int, account: Uuid, offer: Option<Offer>, key: string, id: Uuid): Shop {
    var (members, r) := Assigned(s, now, account, offer);
    var money := Commerce.Step(s.money, Purchase(s, now, account, offer, key, id)).0;
    if |money.purchases| > |s.money.purchases| && r.Ok? then Shop(money, members, s.sold + [r.row]) else s.(money := money)
  }

  function Act(s: Shop, a: Action): Shop {
    match a
    case Pay(op) => if op.BuyMembership? then s else s.(money := Commerce.Step(s.money, op).0)
    case Enrol(change) => if change.Sell? then s else s.(members := Memberships.Step(s.members, change).0)
    case Buy(now, account, offer, key, id) => BuyStep(s, now, account, offer, key, id)
  }

  function After(s: Shop, actions: seq<Action>): Shop
    decreases |actions|
  {
    if actions == [] then s else After(Act(s, actions[0]), actions[1..])
  }

  const OPENING: Shop := Shop(Commerce.EMPTY, Invitations.EMPTY, [])

  // ---- Each side runs its own machine ----

  lemma {:induction false} MoneyIsRun(s: Shop, actions: seq<Action>) returns (ops: seq<Commerce.Op>)
    ensures After(s, actions).money == Commerce.Run(s.money, ops)
    decreases |actions|
  {
    ops := [];
    if actions != [] {
      var a := actions[0];
      ops := MoneyIsRun(Act(s, a), actions[1..]);
      if a.Buy? {
        ops := [Purchase(s, a.now, a.account, a.offer, a.key, a.id)] + ops;
      } else if a.Pay? && !a.op.BuyMembership? {
        ops := [a.op] + ops;
      }
    }
  }

  lemma {:induction false} MembersAreRun(s: Shop, actions: seq<Action>) returns (ops: seq<Memberships.Op>)
    ensures After(s, actions).members == Memberships.Run(s.members, ops)
    decreases |actions|
  {
    ops := [];
    if actions != [] {
      var a := actions[0];
      ops := MembersAreRun(Act(s, a), actions[1..]);
      if a.Enrol? && !a.change.Sell? {
        ops := [a.change] + ops;
      } else if a.Buy? && Act(s, a).members != s.members {
        ops := [Memberships.Sell(a.now, a.account, a.offer.value.plan, a.offer.value.days, |s.money.purchases|)] + ops;
      }
    }
  }

  // ---- One membership for one purchase ----

  /** Purchase `k` names its membership. */
  predicate Delivered(s: Shop, k: nat)
    requires k < |s.sold| && k < |s.money.purchases|
  {
    && s.sold[k] < |s.members.memberships|
    && s.members.memberships[s.sold[k]].source == Memberships.Purchased(k)
    && s.members.memberships[s.sold[k]].account == s.money.purchases[k].account
  }

  /** Membership `m`, if it was bought, is named by its purchase. */
  predicate PaidFor(s: Shop, m: nat)
    requires m < |s.members.memberships|
  {
    var source := s.members.memberships[m].source;
    source.Purchased? ==> source.purchase < |s.sold| && s.sold[source.purchase] == m
  }

  predicate Matched(s: Shop) {
    && |s.sold| == |s.money.purchases|
    && (forall k :: 0 <= k < |s.sold| ==> Delivered(s, k))
    && (forall m :: 0 <= m < |s.members.memberships| ==> PaidFor(s, m))
  }

  lemma BuyingAddsOne(db: Commerce.Db, op: Commerce.Op)
    requires op.BuyMembership?
    ensures var db' := Commerce.Step(db, op).0;
      || db' == db
      || (op.planOk && |db'.purchases| == |db.purchases| + 1 && db'.purchases[..|db.purchases|] == db.purchases
          && db'.purchases[|db.purchases|].account == op.account)
  {
    var k := TrimSpace(op.key);
    if Commerce.Step(db, op).0 != db {
      ChargingAddsOne(db, op.account, op.product.value.price, op.product.value.currency, op.planOk, k, op.id);
    }
  }

  lemma ChargingAddsOne(db: Commerce.Db, account: Uuid, price: int, currency: string, planOk: bool, key: string, id: Uuid)
    requires account in db.accounts
    ensures var db' := Commerce.ChargeMembership(db, account, price, currency, planOk, key, id).0;
      || db' == db
      || (planOk && |db'.purchases| == |db.purchases| + 1 && db'.purchases[..|db.purchases|] == db.purchases
          && db'.purchases[|db.purchases|].account == account)
  {
  }

  lemma PayingAddsNone(db: Commerce.Db, op: Commerce.Op)
    requires !op.BuyMembership?
    ensures Commerce.Step(db, op).0.purchases == db.purchases
  {
    match op
    case Confirm(now, provider, eventId, orderNo, external, amount) =>
      ConfirmingAddsNone(db, now, provider, eventId, orderNo, external, amount);
    case RefundOrder(order, wallet, money, reason, key) => RefundingAddsNone(db, order, wallet, money, reason, key);
    case Adjust(account, amount, currency, reason, key) => AdjustingAddsNone(db, account, amount, currency, reason, key);
    case SetAccount(_, _) =>
    case CreateOrder(_, _, _, _, _, _, _, _, _) =>
  }

  lemma ConfirmingAddsNone(db: Commerce.Db, now: int, provider: string, eventId: string, orderNo: string, external: string, amount: int)
    ensures Commerce.ConfirmRecharge(db, now, provider, eventId, orderNo, external, amount).0.purchases == db.purchases
  {
  }

  lemma RefundingAddsNone(db: Commerce.Db, order: Uuid, wallet: int, external: int, reason: string, key: string)
    ensures Commerce.RefundRecharge(db, order, wallet, external, reason, key).0.purchases == db.purchases
  {
  }

  lemma AdjustingAddsNone(db: Commerce.Db, account: Uuid, amount: int, currency: string, reason: string, key: string)
    ensures Commerce.AdjustWallet(db, account, amount, currency, reason, key).0.purchases == db.purchases
  {
    if account in db.accounts { IssuingAddsNone(db, account, amount, Ledger.NormalizeCurrency(currency), TrimSpace(key)); }
  }

  lemma IssuingAddsNone(db: Commerce.Db, account: Uuid, amount: int, currency: string, key: string)
    requires account in db.accounts
    ensures Commerce.IssueAdjustment(db, account, amount, currency, key).0.purchases == db.purchases
  {
  }

  lemma AssigningAddsOne(db: Memberships.Db, now: int, a: Memberships.Account, plan: nat, startsAt: Option<int>, days: int,
                         source: Memberships.Source)
    ensures var (db', r) := Memberships.AssignTx(db, now, a, plan, startsAt, days, source);
      if r.Err? then db' == db
      else
        && r.row == |db.memberships| && |db'.memberships| == |db.memberships| + 1
        && db'.memberships[r.row].source == source && db'.memberships[r.row].account == a
        && Memberships.RowsKept(db.memberships, db'.memberships)
  {
  }

  /** Rows that are added without a purchase do not name one. */
  predicate AddsUnsold(rows: seq<Memberships.Membership>, rows': seq<Memberships.Membership>) {
    && Memberships.RowsKept(rows, rows')
    && forall m :: |rows| <= m < |rows'| ==> !rows'[m].source.Purchased?
  }

  lemma EnrollingSellsNone(db: Memberships.Db, op: Memberships.Op)
    requires !op.Sell?
    ensures AddsUnsold(db.memberships, Memberships.Step(db, op).0.memberships)
  {
    match op
    case Assign(now, a, plan, startsAt, days) => AssigningAddsOne(db, now, a, plan, startsAt, days, Memberships.Granted);
    case Redeem(now, a, code, key) =>
      if Memberships.Step(db, op).0 != db {
        var i := Memberships.FindCode(db.invitations, TrimSpace(code));
        AssigningAddsOne(db, now, a, db.invitations[i].plan, Some(now), 0, Memberships.Invited(i));
      }
    case SetPlan(_, _) =>
    case Revoke(_) =>
    case Issue(_, _) =>
  }

  lemma EnrolKeeps(s: Shop, op: Memberships.Op)
    requires Matched(s) && !op.Sell?
    ensures Matched(Act(s, Enrol(op)))
  {
    EnrollingSellsNone(s.members, op);
    var t := Act(s, Enrol(op));
    forall k | 0 <= k < |t.sold| ensures Delivered(t, k) { assert Delivered(s, k); }
    forall m | 0 <= m < |t.members.memberships| ensures PaidFor(t, m) {
      if m < |s.members.memberships| { assert PaidFor(s, m); }
    }
  }

  lemma BuyKeeps(s: Shop, now: int, account: Uuid, offer: Option<Offer>, key: string, id: Uuid)
    requires Matched(s)
    ensures Matched(BuyStep(s, now, account, offer, key, id))
  {
    BuyingAddsOne(s.money, Purchase(s, now, account, offer, key, id));
    if offer.Some? {
      AssigningAddsOne(s.members, now, account, offer.value.plan, Some(now), offer.value.days,
                       Memberships.Purchased(|s.money.purchases|));
    }
    var t := BuyStep(s, now, account, offer, key, id);
    forall k | 0 <= k < |t.sold| ensures Delivered(t, k) {
      if k < |s.sold| { assert Delivered(s, k); }
    }
    forall m | 0 <= m < |t.members.memberships| ensures PaidFor(t, m) {
      if m < |s.members.memberships| { assert PaidFor(s, m); }
    }
  }

  lemma ActKeeps(s: Shop, a: Action)
    requires Matched(s)
    ensures Matched(Act(s, a))
  {
    match a
    case Pay(op) =>
      if !op.BuyMembership? {
        PayingAddsNone(s.money, op);
        forall k | 0 <= k < |s.sold| ensures Delivered(Act(s, a), k) { assert Delivered(s, k); }
        forall m | 0 <= m < |s.members.memberships| ensures PaidFor(Act(s, a), m) { assert PaidFor(s, m); }
      }
    case Enrol(op) => if !op.Sell? { EnrolKeeps(s, op); }
    case Buy(now, account, offer, key, id) => BuyKeeps(s, now, account, offer, key, id);
  }

  /** After any mixture of payments, purchases, grants and redemptions there is one
      membership for each purchase and one purchase for each membership bought, of the
      same account. */
  lemma {:induction false} OneMembershipEach(s: Shop, actions: seq<Action>)
    requires Matched(s)
    ensures Matched(After(s, actions))
    decreases |actions|
  {
    if actions != [] {
      ActKeeps(s, actions[0]);
      OneMembershipEach(Act(s, actions[0]), actions[1..]);
    }
  }

  /** In particular no two purchases share a membership. */
  lemma MembershipsAreNotShared(actions: seq<Action>, j: nat, k: nat)
    requires j < k < |After(OPENING, actions).money.purchases|
    ensures var s := After(OPENING, actions);
      |s.sold| == |s.money.purchases| && s.sold[j] != s.sold[k]
  {
    OneMembershipEach(OPENING, actions);
    var s := After(OPENING, actions);
    assert Delivered(s, j) && Delivered(s, k);
  }

  /** What a product's days amount to under its plan. */
  function Days(plan: Memberships.Plan, days: int): nat {
    if days <= 0 then plan.days else days
  }

  lemma AssigningProlongs(db: Memberships.Db, now: int, a: Memberships.Account, plan: nat, days: int, source: Memberships.Source)
    requires Memberships.AssignTx(db, now, a, plan, Some(now), days, source).1.Ok?
    ensures plan in db.plans
    ensures Memberships.LiveExpiry(Memberships.AssignTx(db, now, a, plan, Some(now), days, source).0.memberships, a)
            == Some(AccessTime.Base(Memberships.LiveExpiry(db.memberships, a), now) + Days(db.plans[plan], days) * Memberships.DAY)
  {
    var db' := Memberships.AssignTx(db, now, a, plan, Some(now), days, source).0;
    Memberships.LiveExpiryOfAppend(Memberships.ExpireLive(db.memberships, a), db'.memberships[|db.memberships|], a);
  }

  lemma BuyDecides(s: Shop, now: int, account: Uuid, offer: Option<Offer>, key: string, id: Uuid)
    ensures var t := BuyStep(s, now, account, offer, key, id);
      || t == s
      || (offer.Some? && Assigned(s, now, account, offer).1.Ok? && t.members == Assigned(s, now, account, offer).0
          && |t.money.purchases| == |s.money.purchases| + 1)
  {
    BuyingAddsOne(s.money, Purchase(s, now, account, offer, key, id));
  }

  /** The membership of the account runs `offer`'s time longer in `t` than in `s`. */
  predicate Prolonged(s: Shop, t: Shop, now: int, account: Uuid, offer: Offer) {
    && offer.plan in s.members.plans
    && Memberships.LiveExpiry(t.members.memberships, account)
       == Some(AccessTime.Base(Memberships.LiveExpiry(s.members.memberships, account), now)
               + Days(s.members.plans[offer.plan], offer.days) * 86400)
  }

  lemma AssignedProlongs(s: Shop, t: Shop, now: int, account: Uuid, offer: Offer)
    requires Assigned(s, now, account, Some(offer)).1.Ok? && t.members == Assigned(s, now, account, Some(offer)).0
    ensures Prolonged(s, t, now, account, offer)
  {
    AssigningProlongs(s.members, now, account, offer.plan, offer.days, Memberships.Purchased(|s.money.purchases|));
  }

  /** A purchase that commits prolongs the account's membership by the product's days (the
      plan's if it names none), on top of what is left; one that does not leaves everything
      alone. */
  lemma BoughtTogether(s: Shop, now: int, account: Uuid, offer: Option<Offer>, key: string, id: Uuid)
    ensures var t := BuyStep(s, now, account, offer, key, id);
      || t == s
      || (|t.money.purchases| == |s.money.purchases| + 1 && offer.Some? && Prolonged(s, t, now, account, offer.value))
  {
    BuyDecides(s, now, account, offer, key, id);
    var t := BuyStep(s, now, account, offer, key, id);
    if t != s { AssignedProlongs(s, t, now, account, offer.value); }
  }

  predicate PlanOpen(s: Shop, plan: nat) {
    plan in s.members.plans && s.members.plans[plan].enabled
  }

  lemma AssignedExactlyWhen(s: Shop, now: int, account: Uuid, offer: Option<Offer>)
    ensures Assigned(s, now, account, offer).1.Ok? <==> offer.Some? && PlanOpen(s, offer.value.plan)
  {
  }

  /** A purchase under a new key: it commits exactly when the product is on offer, its plan is
      open, and the wallet is usable and holds the price; then exactly the price leaves the
      wallet and the membership runs the product's days (the plan's if it names none) longer,
      on top of what is left; and otherwise nothing changes on either side. */
  lemma BuyDoes(s: Shop, now: int, account: Uuid, offer: Option<Offer>, key: string, id: Uuid)
    requires CommerceLaws.Inv(s.money)
    requires forall j :: 0 <= j < |s.money.purchases| ==>
      !(s.money.purchases[j].account == account && s.money.purchases[j].key == TrimSpace(key))
    ensures var t := BuyStep(s, now, account, offer, key, id);
      if offer.Some? && PlanOpen(s, offer.value.plan)
         && CommerceEffects.PurchaseFits(s.money, account, Some(offer.value.details), key)
      then
        && CommerceEffects.PurchaseWritten(s.money, t.money, account, offer.value.details.price, offer.value.details.currency,
                                           TrimSpace(key))
        && Prolonged(s, t, now, account, offer.value)
      else t == s
  {
    AssignedExactlyWhen(s, now, account, offer);
    CommerceEffects.PurchaseDoes(s.money, Purchase(s, now, account, offer, key, id));
    BuyDecides(s, now, account, offer, key, id);
    var t := BuyStep(s, now, account, offer, key, id);
    if t != s { AssignedProlongs(s, t, now, account, offer.value); }
  }
}
