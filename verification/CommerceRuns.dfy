/** What holds of the money store in every reachable state, and what no later
    operation can take back. */
module CommerceRuns {
  import opened Options
  import opened Text
  import opened Keys
  import opened Ledger
  import opened Commerce
  import opened CommerceLaws
  import Refunds
  import RefundLimits

  /** A new pending order has moved no money yet. */
  lemma NewOrderIsUncredited(db: Db, o: Order)
    requires Inv(db) && o.status == Refunds.Pending && o.refunds == [] && FindOrderId(db.orders, o.id) == -1
    ensures CreditOk(db.ledger, o)
  {
    forall i | 0 <= i < |db.ledger|
      ensures db.ledger[i].kind == Recharge || db.ledger[i].kind == Refund ==> db.ledger[i].reference != o.id
    {
      assert Backed(db.ledger[i], db.orders, db.purchases);
    }
    UnreferencedMovesNothing(db.ledger, Recharge, o.id);
    UnreferencedMovesNothing(db.ledger, Refund, o.id);
    assert Amounts([]) == [];
  }

  lemma NewOrderMoney(db: Db, o: Order)
    requires MoneyOk(db.ledger, db.orders, db.purchases) && o.status == Refunds.Pending
    ensures MoneyOk(db.ledger, db.orders + [o], db.purchases)
  {
    var orders' := db.orders + [o];
    forall a: Uuid, c: string ensures WalletOk(db.ledger, orders', db.purchases, a, c) {
      assert WalletOk(db.ledger, db.orders, db.purchases, a, c);
      NetAppend(db.orders, o, a, c);
    }
  }

  lemma NewOrderRows(db: Db, o: Order)
    requires OrdersOk(db.orders) && OrderOk(o) && o.status == Refunds.Pending && FindOrderId(db.orders, o.id) == -1
    ensures OrdersOk(db.orders + [o])
  {
  }

  lemma NewOrderBacks(db: Db, o: Order)
    requires AllBacked(db.ledger, db.orders, db.purchases) && EventsOk(db.orders, db.events)
    ensures AllBacked(db.ledger, db.orders + [o], db.purchases) && EventsOk(db.orders + [o], db.events)
  {
    var orders' := db.orders + [o];
    assert RowsSurvive(db.orders, db.purchases, orders', db.purchases);
    forall i | 0 <= i < |db.ledger| ensures Backed(db.ledger[i], orders', db.purchases) {
      BackedSurvives(db.ledger[i], db.orders, db.purchases, orders', db.purchases);
    }
    EventsSurvive(db.orders, db.events, orders');
  }

  lemma NewOrderCredits(db: Db, o: Order)
    requires CreditsOk(db.ledger, db.orders) && CreditOk(db.ledger, o)
    ensures CreditsOk(db.ledger, db.orders + [o])
  {
  }

  lemma NewOrderKeeps(db: Db, o: Order)
    requires Inv(db) && OrderOk(o) && o.status == Refunds.Pending && FindOrderId(db.orders, o.id) == -1
    ensures Inv(db.(orders := db.orders + [o]))
  {
    NewOrderRows(db, o);
    NewOrderBacks(db, o);
    NewOrderIsUncredited(db, o);
    NewOrderCredits(db, o);
    NewOrderMoney(db, o);
  }

  lemma CreateKeeps(db: Db, now: int, ttl: int, account: Uuid, product: Option<Product>, ready: bool,
                    provider: string, key: string, id: Uuid, orderNo: string)
    requires Inv(db)
    ensures Inv(CreateRechargeOrder(db, now, ttl, account, product, ready, provider, key, id, orderNo).0)
  {
    var (db', r) := CreateRechargeOrder(db, now, ttl, account, product, ready, provider, key, id, orderNo);
    if db' != db {
      NewOrderKeeps(db, db'.orders[|db.orders|]);
    }
  }

  lemma LateKeeps(db: Db, i: nat, ev: string, ext: string, amount: int)
    requires Inv(db) && i < |db.orders| && db.orders[i].status != Refunds.Pending
    ensures Inv(LateCallback(db, i, ev, ext, amount).0)
  {
    var o := db.orders[i];
    if LateCallback(db, i, ev, ext, amount).1.Ok? {
      EventAdded(db.orders, db.events, (o.provider, ev), Event(i, ext, amount, o.txn));
    }
  }

  /** A callback that changes something is the first payment of an order or a later copy. */
  lemma CallbackIs(db: Db, now: int, provider: string, eventId: string, orderNo: string, external: string, amount: int)
    ensures var result := ConfirmRecharge(db, now, provider, eventId, orderNo, external, amount);
      var i := FindOrderNo(db.orders, TrimSpace(orderNo), Normalize(provider));
      var ev, ext := TrimSpace(eventId), TrimSpace(external);
      result.0 != db ==>
        && i >= 0 && ext != "" && ByteLen(ext) <= 160
        && (db.orders[i].status == Refunds.Pending ==>
              amount == db.orders[i].price && result == FirstPayment(db, i, ev, ext, amount))
        && (db.orders[i].status != Refunds.Pending ==> result == LateCallback(db, i, ev, ext, amount))
  {
  }

  lemma ConfirmKeeps(db: Db, now: int, provider: string, eventId: string, orderNo: string, external: string, amount: int)
    requires Inv(db)
    ensures Inv(ConfirmRecharge(db, now, provider, eventId, orderNo, external, amount).0)
  {
    CallbackIs(db, now, provider, eventId, orderNo, external, amount);
    if ConfirmRecharge(db, now, provider, eventId, orderNo, external, amount).0 != db {
      var i, ev, ext := FindOrderNo(db.orders, TrimSpace(orderNo), Normalize(provider)), TrimSpace(eventId), TrimSpace(external);
      TrimmedIsFixed(external);
      if db.orders[i].status == Refunds.Pending { PaymentKeeps(db, i, ev, ext); } else { LateKeeps(db, i, ev, ext, amount); }
    }
  }

  lemma RefundStepKeeps(db: Db, op: Op)
    requires Inv(db) && op.RefundOrder?
    ensures Inv(Step(db, op).0)
  {
    TrimmedIsFixed(op.key);
    if Step(db, op).0 != db {
      RefundKeeps(db, FindOrderId(db.orders, op.order), Refunds.Refund(op.wallet, op.money), TrimSpace(op.key));
    }
  }

  lemma PurchaseStepKeeps(db: Db, op: Op)
    requires Inv(db) && op.BuyMembership?
    ensures Inv(Step(db, op).0)
  {
    TrimmedIsFixed(op.key);
    if Step(db, op).0 != db {
      PurchaseKeeps(db, op.account, op.product.value.price, op.product.value.currency, op.planOk, TrimSpace(op.key), op.id);
    }
  }

  /** Every operation, committed or rolled back, keeps the invariant. */
  lemma StepKeeps(db: Db, op: Op)
    requires Inv(db)
    ensures Inv(Step(db, op).0)
  {
    match op
    case SetAccount(account, active) => SetAccountKeeps(db, account, active);
    case CreateOrder(now, ttl, account, product, ready, provider, key, id, orderNo) =>
      CreateKeeps(db, now, ttl, account, product, ready, provider, key, id, orderNo);
    case Confirm(now, provider, eventId, orderNo, external, amount) =>
      ConfirmKeeps(db, now, provider, eventId, orderNo, external, amount);
    case RefundOrder(_, _, _, _, _) => RefundStepKeeps(db, op);
    case BuyMembership(_, _, _, _, _) => PurchaseStepKeeps(db, op);
    case Adjust(account, amount, currency, reason, key) => AdjustKeeps(db, account, amount, currency, reason, key);
  }

  lemma {:induction false} RunKeeps(db: Db, ops: seq<Op>)
    requires Inv(db)
    ensures Inv(Run(db, ops))
    decreases |ops|
  {
    if ops != [] {
      StepKeeps(db, ops[0]);
      RunKeeps(Step(db, ops[0]).0, ops[1..]);
    }
  }

  lemma ReachableInv(ops: seq<Op>)
    ensures Inv(Run(EMPTY, ops))
  {
    RunKeeps(EMPTY, ops);
  }

  // ---- Conservation ----

  /** Every posted transaction is balanced, and the accounts of a currency sum to zero. */
  lemma BooksAlwaysBalance(ops: seq<Op>, currency: string, accounts: seq<LedgerAccount>)
    requires Lists(accounts, Run(EMPTY, ops).ledger, currency)
    ensures AllBalanced(Run(EMPTY, ops).ledger)
    ensures SumBalances(Run(EMPTY, ops).ledger, accounts) == 0
  {
    ReachableInv(ops);
    TrialBalance(Run(EMPTY, ops).ledger, currency, accounts);
  }

  /** A wallet holds its paid grants less refunds, less purchases, plus adjustments, and is never overdrawn. */
  lemma WalletEquation(ops: seq<Op>, account: Uuid, currency: string)
    ensures var db := Run(EMPTY, ops);
      && Balance(db.ledger, Wallet(account, currency)) >= 0
      && Balance(db.ledger, Wallet(account, currency))
         == NetRecharged(db.orders, account, currency) - Spent(db.purchases, account, currency)
            + Adjusted(db.ledger, account, currency)
  {
    ReachableInv(ops);
    var db := Run(EMPTY, ops);
    assert WalletOk(db.ledger, db.orders, db.purchases, account, currency);
  }

  // ---- Each order is credited once, for its grant ----

  /** The ledger holds one recharge transaction for a paid order, of its grant, and none for a pending one. */
  lemma CreditedExactlyOnce(ops: seq<Op>, i: nat)
    requires i < |Run(EMPTY, ops).orders|
    ensures var db := Run(EMPTY, ops); var o := db.orders[i];
      && Moved(db.ledger, Recharge, o.id) == (if o.status == Refunds.Pending then 0 else o.grant)
      && (forall j, k :: 0 <= j < k < |db.ledger| && db.ledger[j].kind == db.ledger[k].kind == Recharge
            ==> db.ledger[j].reference != o.id || db.ledger[k].reference != o.id)
      && (o.status != Refunds.Pending ==>
            (exists j :: 0 <= j < |db.ledger| && db.ledger[j].kind == Recharge && db.ledger[j].reference == o.id))
  {
    ReachableInv(ops);
    var db := Run(EMPTY, ops);
    var o := db.orders[i];
    assert CreditOk(db.ledger, o) && OrderOk(o);
    forall j | 0 <= j < |db.ledger| && db.ledger[j].kind == Recharge && db.ledger[j].reference == o.id
      ensures db.ledger[j].key == Payment(o.provider, o.external)
    {
      assert Backed(db.ledger[j], db.orders, db.purchases);
    }
    if forall j :: 0 <= j < |db.ledger| && db.ledger[j].kind == Recharge ==> db.ledger[j].reference != o.id {
      UnreferencedMovesNothing(db.ledger, Recharge, o.id);
    }
  }

  /** All callbacks kept for one order agree on external id, amount and ledger transaction. */
  lemma CallbacksAgree(ops: seq<Op>, k: (string, string), l: (string, string))
    requires k in Run(EMPTY, ops).events && l in Run(EMPTY, ops).events
    requires Run(EMPTY, ops).events[k].order == Run(EMPTY, ops).events[l].order
    ensures Run(EMPTY, ops).events[k] == Run(EMPTY, ops).events[l]
    ensures k.0 == l.0
    ensures var o := Run(EMPTY, ops).orders;
            Run(EMPTY, ops).events[k].order < |o| && Run(EMPTY, ops).events[k].amount == o[Run(EMPTY, ops).events[k].order].price
  {
    ReachableInv(ops);
    var db := Run(EMPTY, ops);
    assert EventOk(db.orders, k.0, db.events[k]) && EventOk(db.orders, l.0, db.events[l]);
    assert OrderOk(db.orders[db.events[k].order]);
  }

  /** The refund laws for every order in every reachable state. */
  lemma RefundLaws(ops: seq<Op>, i: nat)
    requires i < |Run(EMPTY, ops).orders|
    ensures var db := Run(EMPTY, ops); var o := db.orders[i]; var rs := Amounts(o.refunds);
      && Moved(db.ledger, Refund, o.id) == Refunds.WalletSum(rs)
      && Refunds.WalletSum(rs) * o.price == Refunds.ExternalSum(rs) * o.grant
      && 0 <= Refunds.WalletSum(rs) <= o.grant && 0 <= Refunds.ExternalSum(rs) <= o.price
      && (o.status == Refunds.FullyRefunded <==> Refunds.WalletSum(rs) == o.grant)
      && (o.status == Refunds.FullyRefunded <==> Refunds.ExternalSum(rs) == o.price)
      && |o.refunds| <= RefundLimits.Gcd(o.grant, o.price)
  {
    ReachableInv(ops);
    var db := Run(EMPTY, ops);
    var o := db.orders[i];
    assert OrderOk(o) && CreditOk(db.ledger, o);
    var rs := Amounts(o.refunds);
    assert o.refunds == [] ==> rs == [];
    Refunds.TotalsStayProportional(o.grant, o.price, rs);
    Refunds.FullTogether(o.grant, o.price, rs);
    RefundLimits.AtMostGcdRefunds(o.grant, o.price, rs);
  }

  // ---- Nothing committed is ever taken back ----

  predicate IsPrefix<T(==)>(xs: seq<T>, ys: seq<T>) {
    |xs| <= |ys| && ys[..|xs|] == xs
  }

  predicate EventsKept(events: map<(string, string), Event>, events': map<(string, string), Event>) {
    forall k :: k in events ==> k in events' && events'[k] == events[k]
  }

  ghost predicate Extends(db: Db, db': Db) {
    && RowsSurvive(db.orders, db.purchases, db'.orders, db'.purchases)
    && IsPrefix(db.ledger, db'.ledger)
    && EventsKept(db.events, db'.events)
    && db.accounts.Keys <= db'.accounts.Keys
  }

  lemma PostExtends(ledger: seq<Txn>, t: Txn)
    ensures Post(ledger, t).Posted? ==> IsPrefix(ledger, Post(ledger, t).ledger)
  {
  }

  lemma OrderReplaced(orders: seq<Order>, purchases: seq<PurchaseRow>, i: nat, o: Order)
    requires i < |orders| && Survives(orders[i], o)
    ensures RowsSurvive(orders, purchases, orders[i := o], purchases)
  {
  }

  lemma LateExtends(db: Db, i: nat, ev: string, ext: string, amount: int)
    requires i < |db.orders| && (db.orders[i].provider, ev) !in db.events
    ensures Extends(db, LateCallback(db, i, ev, ext, amount).0)
  {
  }

  lemma SettlePaymentExtends(db: Db, ledger: seq<Txn>, i: nat, ev: string, ext: string, amount: int, t: nat)
    requires i < |db.orders| && db.orders[i].account in db.accounts && IsPrefix(db.ledger, ledger)
    requires (db.orders[i].provider, ev) !in db.events && db.orders[i].status == Refunds.Pending
    ensures Extends(db, SettlePayment(db, ledger, i, ev, ext, amount, t).0)
  {
    var db' := SettlePayment(db, ledger, i, ev, ext, amount, t).0;
    if !UniqueViolated(db.orders, i, ext, t) {
      OrderReplaced(db.orders, db.purchases, i, db'.orders[i]);
    }
  }

  lemma PaymentExtends(db: Db, i: nat, ev: string, ext: string, amount: int)
    requires i < |db.orders| && (db.orders[i].provider, ev) !in db.events && db.orders[i].status == Refunds.Pending
    ensures Extends(db, FirstPayment(db, i, ev, ext, amount).0)
  {
    var o := db.orders[i];
    PostExtends(db.ledger, RechargeTxn(o, ext));
    if o.account in db.accounts {
      match Post(db.ledger, RechargeTxn(o, ext))
      case Rejected(_) =>
      case Replayed(t) => SettlePaymentExtends(db, db.ledger, i, ev, ext, amount, t);
      case Posted(ledger) => SettlePaymentExtends(db, ledger, i, ev, ext, amount, |db.ledger|);
    }
  }

  lemma SettleRefundExtends(db: Db, ledger: seq<Txn>, i: nat, r: Refunds.Refund, key: string, t: nat)
    requires i < |db.orders| && db.orders[i].account in db.accounts && IsPrefix(db.ledger, ledger)
    requires db.orders[i].status != Refunds.Pending
    ensures Extends(db, SettleRefund(db, ledger, i, r, key, t).0)
  {
    var o' := SettleRefund(db, ledger, i, r, key, t).0.orders[i];
    assert o'.refunds[..|db.orders[i].refunds|] == db.orders[i].refunds;
    OrderReplaced(db.orders, db.purchases, i, o');
  }

  lemma RefundExtends(db: Db, i: nat, r: Refunds.Refund, key: string)
    requires i < |db.orders|
    ensures Extends(db, IssueRefund(db, i, r, key).0)
  {
    var o := db.orders[i];
    PostExtends(db.ledger, RefundTxn(o, r.wallet, key));
    if IssueRefund(db, i, r, key).0 != db {
      match Post(db.ledger, RefundTxn(o, r.wallet, key))
      case Rejected(_) =>
      case Replayed(t) => SettleRefundExtends(db, db.ledger, i, r, key, t);
      case Posted(ledger) => SettleRefundExtends(db, ledger, i, r, key, |db.ledger|);
    }
  }

  lemma SettlePurchaseExtends(db: Db, ledger: seq<Txn>, planOk: bool, row: PurchaseRow)
    requires row.account in db.accounts && IsPrefix(db.ledger, ledger)
    ensures Extends(db, SettlePurchase(db, ledger, planOk, row).0)
  {
  }

  lemma ChargeExtends(db: Db, account: Uuid, price: int, currency: string, planOk: bool, key: string, id: Uuid)
    requires account in db.accounts
    ensures Extends(db, ChargeMembership(db, account, price, currency, planOk, key, id).0)
  {
    var t := PurchaseTxn(account, price, currency, key, id);
    PostExtends(db.ledger, t);
    if ChargeMembership(db, account, price, currency, planOk, key, id).0 != db {
      match Post(db.ledger, t)
      case Rejected(_) =>
      case Replayed(n) => SettlePurchaseExtends(db, db.ledger, planOk, PurchaseRow(key, account, price, currency, n));
      case Posted(ledger) =>
        SettlePurchaseExtends(db, ledger, planOk, PurchaseRow(key, account, price, currency, |db.ledger|));
    }
  }

  lemma SettleAdjustmentExtends(db: Db, ledger: seq<Txn>, account: Uuid, currency: string)
    requires account in db.accounts && IsPrefix(db.ledger, ledger)
    ensures Extends(db, EnsureWallet(db, account, currency).(ledger := ledger))
  {
  }

  lemma AdjustExtends(db: Db, account: Uuid, amount: int, currency: string, key: string)
    requires account in db.accounts
    ensures Extends(db, IssueAdjustment(db, account, amount, currency, key).0)
  {
    var value := if amount < 0 then Negate64(amount) else amount;
    var t := AdjustTxn(account, amount, value, currency, key);
    PostExtends(db.ledger, t);
    if IssueAdjustment(db, account, amount, currency, key).0 != db {
      match Post(db.ledger, t)
      case Rejected(_) =>
      case Replayed(_) => SettleAdjustmentExtends(db, db.ledger, account, currency);
      case Posted(ledger) => SettleAdjustmentExtends(db, ledger, account, currency);
    }
  }

  lemma CallbackExtends(db: Db, now: int, provider: string, eventId: string, orderNo: string, external: string, amount: int)
    ensures Extends(db, ConfirmRecharge(db, now, provider, eventId, orderNo, external, amount).0)
  {
    if ConfirmRecharge(db, now, provider, eventId, orderNo, external, amount).0 != db {
      var i := FindOrderNo(db.orders, TrimSpace(orderNo), Normalize(provider));
      if db.orders[i].status == Refunds.Pending {
        PaymentExtends(db, i, TrimSpace(eventId), TrimSpace(external), amount);
      } else {
        LateExtends(db, i, TrimSpace(eventId), TrimSpace(external), amount);
      }
    }
  }

  lemma BuyingExtends(db: Db, op: Op)
    requires op.BuyMembership?
    ensures Extends(db, Step(db, op).0)
  {
    if Step(db, op).0 != db {
      ChargeExtends(db, op.account, op.product.value.price, op.product.value.currency, op.planOk, TrimSpace(op.key), op.id);
    }
  }

  lemma AdjustingExtends(db: Db, op: Op)
    requires op.Adjust?
    ensures Extends(db, Step(db, op).0)
  {
    if Step(db, op).0 != db {
      AdjustExtends(db, op.account, op.amount, NormalizeCurrency(op.currency), TrimSpace(op.key));
    }
  }

  lemma RefundingExtends(db: Db, op: Op)
    requires op.RefundOrder?
    ensures Extends(db, Step(db, op).0)
  {
    if Step(db, op).0 != db {
      RefundExtends(db, FindOrderId(db.orders, op.order), Refunds.Refund(op.wallet, op.money), TrimSpace(op.key));
    }
  }

  lemma OrderingExtends(db: Db, op: Op)
    requires op.SetAccount? || op.CreateOrder?
    ensures Extends(db, Step(db, op).0)
  {
  }

  lemma StepExtends(db: Db, op: Op)
    ensures Extends(db, Step(db, op).0)
  {
    match op
    case SetAccount(_, _) => OrderingExtends(db, op);
    case CreateOrder(_, _, _, _, _, _, _, _, _) => OrderingExtends(db, op);
    case Confirm(now, provider, eventId, orderNo, external, amount) =>
      CallbackExtends(db, now, provider, eventId, orderNo, external, amount);
    case RefundOrder(_, _, _, _, _) => RefundingExtends(db, op);
    case BuyMembership(_, _, _, _, _) => BuyingExtends(db, op);
    case Adjust(_, _, _, _, _) => AdjustingExtends(db, op);
  }

  lemma SurvivesTransitive(o: Order, p: Order, q: Order)
    requires Survives(o, p) && Survives(p, q)
    ensures Survives(o, q)
  {
    assert q.refunds[..|o.refunds|] == q.refunds[..|p.refunds|][..|o.refunds|];
  }

  lemma ExtendsTransitive(a: Db, b: Db, c: Db)
    requires Extends(a, b) && Extends(b, c)
    ensures Extends(a, c)
  {
    assert c.ledger[..|a.ledger|] == c.ledger[..|b.ledger|][..|a.ledger|];
    assert c.purchases[..|a.purchases|] == c.purchases[..|b.purchases|][..|a.purchases|];
    forall i | 0 <= i < |a.orders| ensures Survives(a.orders[i], c.orders[i]) {
      SurvivesTransitive(a.orders[i], b.orders[i], c.orders[i]);
    }
  }

  /** Ledger rows, purchases, refunds, callbacks and the payment data of an order are permanent. */
  lemma {:induction false} RunExtends(db: Db, ops: seq<Op>)
    ensures Extends(db, Run(db, ops))
    decreases |ops|
  {
    if ops != [] {
      StepExtends(db, ops[0]);
      RunExtends(Step(db, ops[0]).0, ops[1..]);
      ExtendsTransitive(db, Step(db, ops[0]).0, Run(db, ops));
    }
  }
}
