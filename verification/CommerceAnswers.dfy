/** Exactly when the money operations are accepted, in every reachable state. */
module CommerceAnswers {
  import opened Options
  import opened Text
  import opened Keys
  import opened Ledger
  import opened Commerce
  import opened CommerceLaws
  import opened CommerceRuns
  import Refunds

  // ---- Every paid order points to its own ledger transaction ----

  predicate LinkOk(ledger: seq<Txn>, o: Order) {
    o.txn.Some? ==>
      && o.txn.value < |ledger|
      && ledger[o.txn.value].key == Payment(o.provider, o.external) && ledger[o.txn.value].reference == o.id
  }

  predicate AllLinked(ledger: seq<Txn>, orders: seq<Order>) {
    forall i :: 0 <= i < |orders| ==> LinkOk(ledger, orders[i])
  }

  predicate AccountsKnown(db: Db) {
    forall i :: 0 <= i < |db.orders| ==> db.orders[i].account in db.accounts
  }

  predicate NumbersDistinct(orders: seq<Order>) {
    forall i, j :: 0 <= i < j < |orders| ==> orders[i].orderNo != orders[j].orderNo
  }

  /** The references between rows: transaction, account, order number. */
  predicate Linked(db: Db) {
    AllLinked(db.ledger, db.orders) && AccountsKnown(db) && NumbersDistinct(db.orders)
  }

  lemma PaidLinkSurvives(db: Db, db': Db, i: nat)
    requires Inv(db) && Extends(db, db') && i < |db.orders| && LinkOk(db.ledger, db.orders[i])
    requires db.orders[i].status != Refunds.Pending
    ensures LinkOk(db'.ledger, db'.orders[i])
  {
    assert OrderOk(db.orders[i]) && Survives(db.orders[i], db'.orders[i]);
    var t := db.orders[i].txn.value;
    assert db'.ledger[..|db.ledger|][t] == db.ledger[t];
  }

  lemma PendingHasNoLink(db: Db, i: nat)
    requires Inv(db) && i < |db.orders| && db.orders[i].status == Refunds.Pending
    ensures LinkOk(db.ledger, db.orders[i])
  {
    assert OrderOk(db.orders[i]);
  }

  lemma DebitKeepsStatusKnown(db: Db, i: nat, r: Refunds.Refund, k: string)
    requires i < |db.orders| && db.orders[i].status != Refunds.Pending
    ensures var orders' := DebitRefund(db, i, r, k).0.orders;
      |orders'| == |db.orders| && forall j :: 0 <= j < |db.orders| && db.orders[j].status == Refunds.Pending ==> orders'[j] == db.orders[j]
  {
  }

  lemma RefundKeepsPending(db: Db, op: Op)
    requires op.RefundOrder?
    ensures var orders' := Step(db, op).0.orders;
      |orders'| == |db.orders| && forall j :: 0 <= j < |db.orders| && db.orders[j].status == Refunds.Pending ==> orders'[j] == db.orders[j]
  {
    var i, r, k := FindOrderId(db.orders, op.order), Refunds.Refund(op.wallet, op.money), TrimSpace(op.key);
    if Step(db, op).0 != db {
      assert Step(db, op) == IssueRefund(db, i, r, k) == DebitRefund(db, i, r, k);
      DebitKeepsStatusKnown(db, i, r, k);
    }
  }

  lemma ChargeKeepsOrders(db: Db, account: Uuid, price: int, currency: string, planOk: bool, k: string, id: Uuid)
    requires account in db.accounts
    ensures ChargeMembership(db, account, price, currency, planOk, k, id).0.orders == db.orders
  {
  }

  lemma IssueKeepsOrders(db: Db, account: Uuid, amount: int, currency: string, k: string)
    requires account in db.accounts
    ensures IssueAdjustment(db, account, amount, currency, k).0.orders == db.orders
  {
  }

  lemma BuyingKeepsOrders(db: Db, op: Op)
    requires op.BuyMembership?
    ensures Step(db, op).0.orders == db.orders
  {
    if Step(db, op).0 != db {
      ChargeKeepsOrders(db, op.account, op.product.value.price, op.product.value.currency, op.planOk, TrimSpace(op.key), op.id);
    }
  }

  lemma AdjustingKeepsOrders(db: Db, op: Op)
    requires op.Adjust?
    ensures Step(db, op).0.orders == db.orders
  {
    if Step(db, op).0 != db {
      IssueKeepsOrders(db, op.account, op.amount, NormalizeCurrency(op.currency), TrimSpace(op.key));
    }
  }

  lemma OrderingKeepsPending(db: Db, op: Op)
    requires op.SetAccount? || op.CreateOrder?
    ensures var orders' := Step(db, op).0.orders;
      && |db.orders| <= |orders'| && (forall j :: 0 <= j < |db.orders| ==> orders'[j] == db.orders[j])
      && (forall j :: |db.orders| <= j < |orders'| ==> orders'[j].status == Refunds.Pending)
  {
  }

  /** Only the first payment of an order turns it from pending to paid, and orders start pending. */
  lemma OnlyPaymentPays(db: Db, op: Op, i: nat)
    requires !op.Confirm? && i < |Step(db, op).0.orders| && Step(db, op).0.orders[i].status != Refunds.Pending
    ensures i < |db.orders| && db.orders[i].status != Refunds.Pending
  {
    match op
    case SetAccount(_, _) => OrderingKeepsPending(db, op);
    case CreateOrder(_, _, _, _, _, _, _, _, _) => OrderingKeepsPending(db, op);
    case RefundOrder(_, _, _, _, _) => RefundKeepsPending(db, op);
    case BuyMembership(_, _, _, _, _) => BuyingKeepsOrders(db, op);
    case Adjust(_, _, _, _, _) => AdjustingKeepsOrders(db, op);
  }

  lemma PaymentLinks(db: Db, i: nat, ev: string, ext: string)
    requires Inv(db) && AllLinked(db.ledger, db.orders) && i < |db.orders| && db.orders[i].status == Refunds.Pending && IsClientKey(ext)
    ensures AllLinked(FirstPayment(db, i, ev, ext, db.orders[i].price).0.ledger, FirstPayment(db, i, ev, ext, db.orders[i].price).0.orders)
  {
    var o := db.orders[i];
    if FirstPayment(db, i, ev, ext, o.price).1.Ok? {
      PaymentKeeps(db, i, ev, ext);
      PaymentRowWritten(db, i, ev, ext);
      var o' := o.(status := Refunds.Paid, external := ext, paid := Some(o.price), txn := Some(|db.ledger|));
      LinkAdded(db.ledger, db.orders, i, o', RechargeTxn(o, ext));
    }
  }

  lemma LinkAdded(ledger: seq<Txn>, orders: seq<Order>, i: nat, o: Order, t: Txn)
    requires i < |orders| && o.txn == Some(|ledger|) && t.key == Payment(o.provider, o.external) && t.reference == o.id
    requires AllLinked(ledger, orders)
    ensures AllLinked(ledger + [t], orders[i := o])
  {
  }

  /** What the first payment settles with: a new ledger row, or the row that holds its key. */
  lemma PaymentSettles(db: Db, i: nat, ev: string, ext: string)
    requires Inv(db) && i < |db.orders| && IsClientKey(ext) && db.orders[i].account in db.accounts
    ensures var o := db.orders[i];
      var t := RechargeTxn(o, ext);
      var k := FindKey(db.ledger, t.key.Render());
      && (k >= 0 ==> db.ledger[k].key == t.key
                     && FirstPayment(db, i, ev, ext, o.price) == SettlePayment(db, db.ledger, i, ev, ext, o.price, k))
      && (k == -1 ==> FirstPayment(db, i, ev, ext, o.price)
                      == SettlePayment(db, db.ledger + [t], i, ev, ext, o.price, |db.ledger|))
  {
    var t := RechargeTxn(db.orders[i], ext);
    assert OrderOk(db.orders[i]);
    TransferBalanced(t, t.postings[0], t.postings[1]);
    PostOutcome(db.ledger, t);
  }

  lemma PaymentRowWritten(db: Db, i: nat, ev: string, ext: string)
    requires Inv(db) && i < |db.orders| && db.orders[i].status == Refunds.Pending && IsClientKey(ext)
    requires FirstPayment(db, i, ev, ext, db.orders[i].price).1.Ok?
    ensures var db' := FirstPayment(db, i, ev, ext, db.orders[i].price).0;
      db'.orders == db.orders[i := db.orders[i].(status := Refunds.Paid, external := ext, paid := Some(db.orders[i].price),
                                                 txn := Some(|db.ledger|))]
  {
    PaymentSettles(db, i, ev, ext);
    var k := FindKey(db.ledger, RechargeTxn(db.orders[i], ext).key.Render());
    if k >= 0 { ReplayIsRefused(db, i, ext, k); }
  }

  lemma LateLinks(db: Db, i: nat, ev: string, ext: string, amount: int)
    requires AllLinked(db.ledger, db.orders) && i < |db.orders|
    ensures AllLinked(LateCallback(db, i, ev, ext, amount).0.ledger, LateCallback(db, i, ev, ext, amount).0.orders)
  {
  }

  lemma CallbackLinks(db: Db, now: int, provider: string, eventId: string, orderNo: string, external: string, amount: int)
    requires Inv(db) && AllLinked(db.ledger, db.orders)
    ensures AllLinked(ConfirmRecharge(db, now, provider, eventId, orderNo, external, amount).0.ledger, ConfirmRecharge(db, now, provider, eventId, orderNo, external, amount).0.orders)
  {
    CallbackIs(db, now, provider, eventId, orderNo, external, amount);
    if ConfirmRecharge(db, now, provider, eventId, orderNo, external, amount).0 != db {
      var i, ev, ext := FindOrderNo(db.orders, TrimSpace(orderNo), Normalize(provider)), TrimSpace(eventId), TrimSpace(external);
      TrimmedIsFixed(external);
      if db.orders[i].status == Refunds.Pending { PaymentLinks(db, i, ev, ext); } else { LateLinks(db, i, ev, ext, amount); }
    }
  }

  lemma OtherLinks(db: Db, op: Op)
    requires Inv(db) && AllLinked(db.ledger, db.orders) && !op.Confirm?
    ensures AllLinked(Step(db, op).0.ledger, Step(db, op).0.orders)
  {
    var db' := Step(db, op).0;
    StepKeeps(db, op);
    StepExtends(db, op);
    forall i | 0 <= i < |db'.orders| ensures LinkOk(db'.ledger, db'.orders[i]) {
      if db'.orders[i].status == Refunds.Pending {
        PendingHasNoLink(db', i);
      } else {
        OnlyPaymentPays(db, op, i);
        assert LinkOk(db.ledger, db.orders[i]);
        PaidLinkSurvives(db, db', i);
      }
    }
  }

  lemma CallbackKeepsCount(db: Db, now: int, provider: string, eventId: string, orderNo: string, external: string, amount: int)
    ensures |ConfirmRecharge(db, now, provider, eventId, orderNo, external, amount).0.orders| == |db.orders|
  {
    CallbackIs(db, now, provider, eventId, orderNo, external, amount);
  }

  /** Only CreateRechargeOrder adds a row, one at a time, for a known account and under a new number. */
  lemma NewRow(db: Db, op: Op)
    ensures var orders' := Step(db, op).0.orders;
      |orders'| != |db.orders| ==>
        && op.CreateOrder? && |orders'| == |db.orders| + 1
        && orders'[|db.orders|].account in db.accounts && orders'[|db.orders|].orderNo == op.orderNo
        && (forall j :: 0 <= j < |db.orders| ==> db.orders[j].orderNo != op.orderNo)
  {
    match op
    case SetAccount(_, _) =>
    case CreateOrder(_, _, _, _, _, _, _, _, _) =>
    case Confirm(now, provider, eventId, orderNo, external, amount) =>
      CallbackKeepsCount(db, now, provider, eventId, orderNo, external, amount);
    case RefundOrder(_, _, _, _, _) => RefundKeepsPending(db, op);
    case BuyMembership(_, _, _, _, _) => BuyingKeepsOrders(db, op);
    case Adjust(_, _, _, _, _) => AdjustingKeepsOrders(db, op);
  }

  lemma StepKeepsReferences(db: Db, op: Op)
    requires AccountsKnown(db) && NumbersDistinct(db.orders)
    ensures AccountsKnown(Step(db, op).0) && NumbersDistinct(Step(db, op).0.orders)
  {
    var db' := Step(db, op).0;
    StepExtends(db, op);
    NewRow(db, op);
    forall i | 0 <= i < |db.orders|
      ensures db'.orders[i].account == db.orders[i].account && db'.orders[i].orderNo == db.orders[i].orderNo
    {
      assert Survives(db.orders[i], db'.orders[i]);
    }
  }

  lemma StepLinks(db: Db, op: Op)
    requires Inv(db) && Linked(db)
    ensures Linked(Step(db, op).0)
  {
    StepKeepsReferences(db, op);
    if op.Confirm? {
      CallbackLinks(db, op.now, op.provider, op.eventId, op.orderNo, op.external, op.amount);
    } else {
      OtherLinks(db, op);
    }
  }

  lemma {:induction false} RunLinks(db: Db, ops: seq<Op>)
    requires Inv(db) && Linked(db)
    ensures Linked(Run(db, ops))
    decreases |ops|
  {
    if ops != [] {
      StepLinks(db, ops[0]);
      StepKeeps(db, ops[0]);
      RunLinks(Step(db, ops[0]).0, ops[1..]);
    }
  }

  /** In every reachable state a paid order names the ledger transaction that credited it,
      and no two orders name the same one. */
  lemma PaidOrderNamesItsTransaction(ops: seq<Op>, i: nat)
    requires i < |Run(EMPTY, ops).orders|
    ensures var db := Run(EMPTY, ops); var o := db.orders[i];
      && (o.status != Refunds.Pending <==> o.txn.Some?)
      && LinkOk(db.ledger, o)
      && (forall j :: 0 <= j < |db.orders| && j != i && o.txn.Some? ==> db.orders[j].txn != o.txn)
  {
    ReachableInv(ops);
    RunLinks(EMPTY, ops);
    var db := Run(EMPTY, ops);
    var o := db.orders[i];
    assert OrderOk(o) && LinkOk(db.ledger, o);
    forall j | 0 <= j < |db.orders| && j != i && o.txn.Some? ensures db.orders[j].txn != o.txn {
      assert LinkOk(db.ledger, db.orders[j]);
      if i < j { assert db.orders[i].id != db.orders[j].id; } else { assert db.orders[j].id != db.orders[i].id; }
    }
  }

  // ---- Accepted exactly when ----

  predicate Taken(db: Db, i: nat, external: string)
    requires i < |db.orders|
  {
    exists j :: 0 <= j < |db.orders| && j != i && db.orders[j].provider == db.orders[i].provider && db.orders[j].external == external
  }

  /** A pending order's payment is accepted exactly when no other order of the provider
      was paid under the same external id. */
  lemma PaymentAcceptedExactlyWhen(db: Db, i: nat, ev: string, ext: string)
    requires Inv(db) && Linked(db) && i < |db.orders| && db.orders[i].status == Refunds.Pending && IsClientKey(ext)
    ensures FirstPayment(db, i, ev, ext, db.orders[i].price).1.Ok? <==> !Taken(db, i, ext)
  {
    PaymentSettles(db, i, ev, ext);
    var k := FindKey(db.ledger, RechargeTxn(db.orders[i], ext).key.Render());
    if k >= 0 { ReplayTaken(db, i, ext, k); } else { NewRowNamesNobody(db, i, ext); }
  }

  lemma ReplayTaken(db: Db, i: nat, ext: string, k: nat)
    requires Inv(db) && i < |db.orders| && db.orders[i].status == Refunds.Pending && k < |db.ledger|
    requires db.ledger[k].key == Payment(db.orders[i].provider, ext)
    ensures Taken(db, i, ext) && UniqueViolated(db.orders, i, ext, k)
  {
    assert Backed(db.ledger[k], db.orders, db.purchases);
    var j :| 0 <= j < |db.orders| && PaidAs(db.orders[j], db.ledger[k].reference, db.orders[i].provider, ext);
  }

  lemma NewRowNamesNobody(db: Db, i: nat, ext: string)
    requires Linked(db) && i < |db.orders|
    ensures UniqueViolated(db.orders, i, ext, |db.ledger|) <==> Taken(db, i, ext)
  {
    forall j | 0 <= j < |db.orders| ensures db.orders[j].txn != Some(|db.ledger|) { assert LinkOk(db.ledger, db.orders[j]); }
  }

  lemma DebitAcceptedExactlyWhen(db: Db, i: nat, r: Refunds.Refund, k: string)
    requires Inv(db) && i < |db.orders| && IsClientKey(k) && FindRefund(db.orders[i].refunds, k) == -1
    requires r.wallet > 0 && db.orders[i].account in db.accounts
    ensures DebitRefund(db, i, r, k).1.Ok? <==> Balance(db.ledger, Wallet(db.orders[i].account, db.orders[i].currency)) >= r.wallet
  {
    RefundPosts(db, i, r.wallet, k);
  }

  /** A refund under a new key is accepted exactly when the order is paid and not fully
      refunded, the pair is proportionate and fits, and the wallet still holds the amount. */
  lemma RefundAcceptedExactlyWhen(db: Db, i: nat, r: Refunds.Refund, k: string)
    requires Inv(db) && Linked(db) && i < |db.orders| && IsClientKey(k) && FindRefund(db.orders[i].refunds, k) == -1
    requires r.wallet > 0 && r.external > 0
    ensures var o := db.orders[i];
      IssueRefund(db, i, r, k).1.Ok? <==>
        && (o.status == Refunds.Paid || o.status == Refunds.PartiallyRefunded)
        && Refunds.Accepts(o.grant, o.price, Amounts(o.refunds), r)
        && Balance(db.ledger, Wallet(o.account, o.currency)) >= r.wallet
  {
    DebitAcceptedExactlyWhen(db, i, r, k);
  }

  /** A purchase under a new key goes through exactly when the wallet is usable, holds the
      price, and the plan can be assigned. */
  lemma PurchaseAcceptedExactlyWhen(db: Db, account: Uuid, price: int, currency: string, planOk: bool, k: string, id: Uuid)
    requires Inv(db) && account in db.accounts && IsClientKey(k) && FindPurchase(db.purchases, account, k) == -1
    requires price > 0 && IsCurrency(currency)
    ensures ChargeMembership(db, account, price, currency, planOk, k, id).1.Ok? <==>
      && EnsuredStatus(db, account, currency) == Active
      && Balance(db.ledger, Wallet(account, currency)) >= price && planOk
  {
    PurchasePosts(db, PurchaseRow(k, account, price, currency, |db.ledger|), id);
  }

  lemma AdjustmentPostsExactlyWhen(db: Db, account: Uuid, amount: int, currency: string, k: string)
    requires Inv(db) && IsClientKey(k) && amount > MIN_INT64 && amount != 0
    requires FindKey(db.ledger, Adjustment(account, k).Render()) == -1 && NormalizeCurrency(currency) == currency
    ensures var t := AdjustTxn(account, amount, if amount < 0 then Negate64(amount) else amount, currency, k);
      (IsCurrency(currency) ==> Post(db.ledger, t).Posted?) && (!IsCurrency(currency) ==> Post(db.ledger, t).Rejected?)
  {
    var t := AdjustTxn(account, amount, if amount < 0 then Negate64(amount) else amount, currency, k);
    if IsCurrency(currency) { AdjustLedger(db, t, t.postings[1], t.postings[0]); }
  }

  /** A new adjustment goes through exactly when the currency is well formed, the wallet
      covers it, and it is not the one integer that has no negation. */
  lemma AdjustmentAcceptedExactlyWhen(db: Db, account: Uuid, amount: int, currency: string, k: string)
    requires Inv(db) && account in db.accounts && IsClientKey(k) && amount >= MIN_INT64 && amount != 0
    requires FindKey(db.ledger, Adjustment(account, k).Render()) == -1 && NormalizeCurrency(currency) == currency
    ensures IssueAdjustment(db, account, amount, currency, k).1.Ok? <==>
      IsCurrency(currency) && amount != MIN_INT64 && Balance(db.ledger, Wallet(account, currency)) + amount >= 0
  {
    assert WalletOk(db.ledger, db.orders, db.purchases, account, currency);
    if amount == MIN_INT64 {
      MinimumIsRejected(db, account, currency, k);
    } else {
      AdjustmentPostsExactlyWhen(db, account, amount, currency, k);
    }
  }

  // ---- Callbacks as they arrive ----

  predicate WellFormedCallback(provider: string, eventId: string, orderNo: string, external: string, amount: int) {
    && IsProvider(Normalize(provider))
    && TrimSpace(eventId) != "" && ByteLen(TrimSpace(eventId)) <= 180
    && TrimSpace(orderNo) != "" && ByteLen(TrimSpace(orderNo)) <= 80
    && TrimSpace(external) != "" && ByteLen(TrimSpace(external)) <= 160 && amount > 0
  }

  /** What a well-formed callback under a new event id comes to. */
  lemma NewCallbackIs(db: Db, now: int, provider: string, eventId: string, orderNo: string, external: string, amount: int)
    requires WellFormedCallback(provider, eventId, orderNo, external, amount)
    requires (Normalize(provider), TrimSpace(eventId)) !in db.events
    ensures var r := ConfirmRecharge(db, now, provider, eventId, orderNo, external, amount);
      var i := FindOrderNo(db.orders, TrimSpace(orderNo), Normalize(provider));
      var ev, ext := TrimSpace(eventId), TrimSpace(external);
      && (i == -1 ==> r == (db, Err(NotFound)))
      && (i >= 0 && db.orders[i].status != Refunds.Pending ==> r == LateCallback(db, i, ev, ext, amount))
      && (i >= 0 && db.orders[i].status == Refunds.Pending && (now > db.orders[i].expiresAt || amount != db.orders[i].price) ==>
            r == (db, Err(Conflict)))
      && (i >= 0 && db.orders[i].status == Refunds.Pending && now <= db.orders[i].expiresAt && amount == db.orders[i].price ==>
            r == FirstPayment(db, i, ev, ext, amount))
  {
  }

  /** A callback under a new event id is accepted exactly when its order exists and either
      waits for payment, is not expired, costs that amount and its external id is free, or
      was paid with that very external id and amount. */
  lemma CallbackAcceptedExactlyWhen(db: Db, now: int, provider: string, eventId: string, orderNo: string, external: string,
                                    amount: int)
    requires Inv(db) && Linked(db) && WellFormedCallback(provider, eventId, orderNo, external, amount)
    requires (Normalize(provider), TrimSpace(eventId)) !in db.events
    ensures var i := FindOrderNo(db.orders, TrimSpace(orderNo), Normalize(provider));
      var ext := TrimSpace(external);
      ConfirmRecharge(db, now, provider, eventId, orderNo, external, amount).1.Ok? <==>
        i >= 0 && amount == db.orders[i].price
        && (if db.orders[i].status == Refunds.Pending then now <= db.orders[i].expiresAt && !Taken(db, i, ext)
            else db.orders[i].external == ext)
  {
    NewCallbackIs(db, now, provider, eventId, orderNo, external, amount);
    var i, ext := FindOrderNo(db.orders, TrimSpace(orderNo), Normalize(provider)), TrimSpace(external);
    if i >= 0 {
      assert OrderOk(db.orders[i]);
      TrimmedIsFixed(external);
      if db.orders[i].status == Refunds.Pending && amount == db.orders[i].price {
        PaymentAcceptedExactlyWhen(db, i, TrimSpace(eventId), ext);
      }
    }
  }

  // ---- A new order, from its creation to its expiry ----

  /** The minutes an order stays open: the setting, or 30 when it is out of range. */
  function OpenMinutes(ttl: int): int {
    if 5 <= ttl <= 1440 then ttl else 30
  }

  /** The operation is a callback for this order. */
  predicate PaysFor(op: Op, provider: string, orderNo: string) {
    op.Confirm? && Normalize(op.provider) == provider && TrimSpace(op.orderNo) == orderNo
  }

  lemma PaymentLeavesOthers(db: Db, i: nat, j: nat, ev: string, ext: string, amount: int)
    requires i < |db.orders| && j < |db.orders| && i != j
    ensures FirstPayment(db, i, ev, ext, amount).0.orders[j] == db.orders[j]
    ensures LateCallback(db, i, ev, ext, amount).0.orders[j] == db.orders[j]
  {
  }

  /** A pending order changes only by a callback of its own. */
  lemma PendingIsLeftAlone(db: Db, op: Op, i: nat)
    requires i < |db.orders| && db.orders[i].status == Refunds.Pending
    requires !PaysFor(op, db.orders[i].provider, db.orders[i].orderNo)
    ensures i < |Step(db, op).0.orders| && Step(db, op).0.orders[i] == db.orders[i]
  {
    StepExtends(db, op);
    assert Survives(db.orders[i], Step(db, op).0.orders[i]);
    if op.Confirm? {
      CallbackIs(db, op.now, op.provider, op.eventId, op.orderNo, op.external, op.amount);
      var j := FindOrderNo(db.orders, TrimSpace(op.orderNo), Normalize(op.provider));
      if Step(db, op).0 != db {
        assert i != j;
        PaymentLeavesOthers(db, j, i, TrimSpace(op.eventId), TrimSpace(op.external), op.amount);
      }
    } else if Step(db, op).0.orders[i].status != Refunds.Pending {
      OnlyPaymentPays(db, op, i);
    }
  }

  lemma {:induction false} PendingThroughRun(db: Db, ops: seq<Op>, i: nat)
    requires i < |db.orders| && db.orders[i].status == Refunds.Pending
    requires forall k :: 0 <= k < |ops| ==> !PaysFor(ops[k], db.orders[i].provider, db.orders[i].orderNo)
    ensures i < |Run(db, ops).orders| && Run(db, ops).orders[i] == db.orders[i]
    decreases |ops|
  {
    if ops != [] {
      PendingIsLeftAlone(db, ops[0], i);
      PendingThroughRun(Step(db, ops[0]).0, ops[1..], i);
    }
  }

  lemma NumberFindsRow(orders: seq<Order>, i: nat)
    requires NumbersDistinct(orders) && i < |orders|
    ensures FindOrderNo(orders, orders[i].orderNo, orders[i].provider) == i
  {
    var j := FindOrderNo(orders, orders[i].orderNo, orders[i].provider);
    assert j >= 0;
  }

  lemma CreatedRow(db: Db, op: Op)
    requires op.CreateOrder? && Step(db, op).0 != db
    ensures var db' := Step(db, op).0;
      && |db'.orders| == |db.orders| + 1 && op.product.Some?
      && var o := db'.orders[|db.orders|];
      && o.status == Refunds.Pending && o.provider == Normalize(op.provider) && o.orderNo == op.orderNo
      && o.price == op.product.value.price && o.expiresAt == op.now + OpenMinutes(op.ttl) * 60
  {
  }

  /** An order accepted at some time can be paid until it expires, whatever else happens in
      between: the first well-formed callback for it is accepted exactly when it arrives
      within the open minutes, over the product's price, under a free external id. */
  lemma NewOrderStaysPayable(db: Db, op: Op, ops: seq<Op>, pay: Op)
    requires Inv(db) && Linked(db) && op.CreateOrder? && Step(db, op).0 != db
    requires PaysFor(pay, Normalize(op.provider), op.orderNo)
    requires WellFormedCallback(pay.provider, pay.eventId, pay.orderNo, pay.external, pay.amount)
    requires forall k :: 0 <= k < |ops| ==> !PaysFor(ops[k], Normalize(op.provider), op.orderNo)
    ensures var later := Run(Step(db, op).0, ops);
      (Normalize(pay.provider), TrimSpace(pay.eventId)) !in later.events ==>
        && |db.orders| < |later.orders| && op.product.Some?
        && (Step(later, pay).1.Ok? <==>
              && pay.now <= op.now + OpenMinutes(op.ttl) * 60
              && pay.amount == op.product.value.price
              && !Taken(later, |db.orders|, TrimSpace(pay.external)))
  {
    var db', i := Step(db, op).0, |db.orders|;
    var later := Run(db', ops);
    CreatedRow(db, op);
    StepKeeps(db, op);
    StepLinks(db, op);
    RunKeeps(db', ops);
    RunLinks(db', ops);
    PendingThroughRun(db', ops, i);
    NumberFindsRow(later.orders, i);
    if (Normalize(pay.provider), TrimSpace(pay.eventId)) !in later.events {
      CallbackAcceptedExactlyWhen(later, pay.now, pay.provider, pay.eventId, pay.orderNo, pay.external, pay.amount);
    }
  }
}
