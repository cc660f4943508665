/** Idempotency over runs: a committed request, repeated at any later point,
    returns the row it created and changes nothing. */
module CommerceReplay {
  import opened Text
  import opened Keys
  import opened Ledger
  import opened Commerce
  import opened CommerceLaws
  import opened CommerceRuns
  import Refunds

  lemma {:induction false} FindOrderIdStable(orders: seq<Order>, orders': seq<Order>, id: Uuid)
    requires |orders| <= |orders'| && FindOrderId(orders, id) >= 0
    requires forall i :: 0 <= i < |orders| ==> orders'[i].id == orders[i].id
    ensures FindOrderId(orders', id) == FindOrderId(orders, id)
    decreases |orders'|
  {
    var front := orders'[..|orders'| - 1];
    if |orders'| > |orders| {
      FindOrderIdStable(orders, front, id);
    } else if FindOrderId(orders[..|orders| - 1], id) >= 0 {
      FindOrderIdStable(orders[..|orders| - 1], front, id);
    } else {
      assert forall j :: 0 <= j < |front| ==> front[j].id == orders[..|orders| - 1][j].id;
    }
  }

  lemma {:induction false} FindOrderKeyStable(orders: seq<Order>, orders': seq<Order>, key: string)
    requires |orders| <= |orders'| && FindOrderKey(orders, key) >= 0
    requires forall i :: 0 <= i < |orders| ==> orders'[i].key == orders[i].key
    ensures FindOrderKey(orders', key) == FindOrderKey(orders, key)
    decreases |orders'|
  {
    var front := orders'[..|orders'| - 1];
    if |orders'| > |orders| {
      FindOrderKeyStable(orders, front, key);
    } else if FindOrderKey(orders[..|orders| - 1], key) >= 0 {
      FindOrderKeyStable(orders[..|orders| - 1], front, key);
    } else {
      assert forall j :: 0 <= j < |front| ==> front[j].key == orders[..|orders| - 1][j].key;
    }
  }

  lemma {:induction false} FindKeyStable(ledger: seq<Txn>, ledger': seq<Txn>, text: string)
    requires |ledger| <= |ledger'| && ledger'[..|ledger|] == ledger && FindKey(ledger, text) >= 0
    ensures FindKey(ledger', text) == FindKey(ledger, text)
    decreases |ledger'|
  {
    if |ledger'| > |ledger| {
      var front := ledger'[..|ledger'| - 1];
      assert front[..|ledger|] == ledger;
      FindKeyStable(ledger, front, text);
    } else {
      assert ledger' == ledger;
    }
  }

  /** The row a request's idempotency key leads to, -1 while it was never committed. */
  function ReplayRow(db: Db, op: Op): int {
    match op
    case SetAccount(_, _) => 0
    case CreateOrder(_, _, account, _, _, _, key, _, _) => FindOrderKey(db.orders, account + (":" + TrimSpace(key)))
    case Confirm(_, provider, eventId, _, _, _) =>
      var k := (Normalize(provider), TrimSpace(eventId));
      if k in db.events then db.events[k].order else -1
    case RefundOrder(order, _, _, _, key) =>
      var i := FindOrderId(db.orders, order);
      if i == -1 then -1 else FindRefund(db.orders[i].refunds, TrimSpace(key))
    case BuyMembership(account, _, _, key, _) => FindPurchase(db.purchases, account, TrimSpace(key))
    case Adjust(account, _, _, _, key) => FindKey(db.ledger, Adjustment(account, TrimSpace(key)).Render())
  }

  lemma {:induction false} ReplayRowStable(db: Db, db': Db, op: Op)
    requires Extends(db, db') && ReplayRow(db, op) >= 0
    ensures ReplayRow(db', op) == ReplayRow(db, op)
  {
    match op
    case SetAccount(_, _) =>
    case CreateOrder(_, _, account, _, _, _, key, _, _) =>
      FindOrderKeyStable(db.orders, db'.orders, account + (":" + TrimSpace(key)));
    case Confirm(_, _, _, _, _, _) =>
    case RefundOrder(order, _, _, _, key) =>
      var i := FindOrderId(db.orders, order);
      FindOrderIdStable(db.orders, db'.orders, order);
      FindRefundStable(db.orders[i].refunds, db'.orders[i].refunds, TrimSpace(key));
    case BuyMembership(account, _, _, key, _) =>
      FindPurchaseStable(db.purchases, db'.purchases, account, TrimSpace(key));
    case Adjust(account, _, _, _, key) =>
      FindKeyStable(db.ledger, db'.ledger, Adjustment(account, TrimSpace(key)).Render());
  }

  /** Two requests under one idempotency key. */
  predicate SameKey(op: Op, again: Op) {
    match op
    case SetAccount(_, _) => false
    case CreateOrder(_, _, account, _, _, _, key, _, _) =>
      again.CreateOrder? && again.account == account && TrimSpace(again.key) == TrimSpace(key)
    case Confirm(_, provider, eventId, _, _, _) =>
      again.Confirm? && Normalize(again.provider) == Normalize(provider) && TrimSpace(again.eventId) == TrimSpace(eventId)
    case RefundOrder(order, _, _, _, key) =>
      again.RefundOrder? && again.order == order && TrimSpace(again.key) == TrimSpace(key)
    case BuyMembership(account, _, _, key, _) =>
      again.BuyMembership? && again.account == account && TrimSpace(again.key) == TrimSpace(key)
    case Adjust(account, _, _, _, key) =>
      again.Adjust? && again.account == account && TrimSpace(again.key) == TrimSpace(key)
  }

  /** The same callback or request delivered at another time. */
  predicate Resent(op: Op, again: Op) {
    if op.Confirm? then again.Confirm? && again == op.(now := again.now)
    else if op.CreateOrder? then again.CreateOrder? && again == op.(now := again.now, id := again.id, orderNo := again.orderNo)
    else again == op
  }

  lemma SettleRefundRecords(db: Db, ledger: seq<Txn>, i: nat, r: Refunds.Refund, key: string, t: nat)
    requires i < |db.orders| && FindOrderId(db.orders, db.orders[i].id) == i && db.orders[i].account in db.accounts
    requires FindRefund(db.orders[i].refunds, key) == -1
    ensures var (db', res) := SettleRefund(db, ledger, i, r, key, t);
      && res.Ok? && FindOrderId(db'.orders, db.orders[i].id) == i
      && FindRefund(db'.orders[i].refunds, key) == res.row
  {
    var db' := SettleRefund(db, ledger, i, r, key, t).0;
    var o, o' := db.orders[i], db'.orders[i];
    FindOrderIdStable(db.orders, db'.orders, o.id);
    FindRefundAppend(o.refunds, o'.refunds[|o.refunds|], key);
  }

  lemma RefundRecords(db: Db, i: nat, r: Refunds.Refund, key: string)
    requires i < |db.orders| && FindOrderId(db.orders, db.orders[i].id) == i
    requires FindRefund(db.orders[i].refunds, key) == -1 && IssueRefund(db, i, r, key).1.Ok?
    ensures var (db', res) := IssueRefund(db, i, r, key);
      && FindOrderId(db'.orders, db.orders[i].id) == i
      && FindRefund(db'.orders[i].refunds, key) == res.row
  {
    match Post(db.ledger, RefundTxn(db.orders[i], r.wallet, key))
    case Replayed(t) => SettleRefundRecords(db, db.ledger, i, r, key, t);
    case Posted(ledger) => SettleRefundRecords(db, ledger, i, r, key, |db.ledger|);
  }

  /** What the stored callback `k` must say of a request for order number `no`. */
  predicate Records(db: Db, k: (string, string), no: string, ext: string, amount: int, row: int) {
    && k in db.events && db.events[k].order == row < |db.orders|
    && db.orders[row].orderNo == no && db.events[k].external == ext && db.events[k].amount == amount
  }

  lemma SettlePaymentRecords(db: Db, ledger: seq<Txn>, i: nat, ev: string, ext: string, amount: int, t: nat)
    requires i < |db.orders| && db.orders[i].account in db.accounts
    requires SettlePayment(db, ledger, i, ev, ext, amount, t).1.Ok?
    ensures var (db', r) := SettlePayment(db, ledger, i, ev, ext, amount, t);
            Records(db', (db.orders[i].provider, ev), db.orders[i].orderNo, ext, amount, r.row)
  {
  }

  lemma PaymentRecords(db: Db, i: nat, ev: string, ext: string, amount: int)
    requires i < |db.orders| && FirstPayment(db, i, ev, ext, amount).1.Ok?
    ensures var (db', r) := FirstPayment(db, i, ev, ext, amount);
            Records(db', (db.orders[i].provider, ev), db.orders[i].orderNo, ext, amount, r.row)
  {
    match Post(db.ledger, RechargeTxn(db.orders[i], ext))
    case Replayed(t) => SettlePaymentRecords(db, db.ledger, i, ev, ext, amount, t);
    case Posted(ledger) => SettlePaymentRecords(db, ledger, i, ev, ext, amount, |db.ledger|);
  }

  lemma LateRecords(db: Db, i: nat, ev: string, ext: string, amount: int)
    requires i < |db.orders| && LateCallback(db, i, ev, ext, amount).1.Ok?
    ensures var (db', r) := LateCallback(db, i, ev, ext, amount);
            Records(db', (db.orders[i].provider, ev), db.orders[i].orderNo, ext, amount, r.row)
  {
  }

  lemma CallbackRecords(db: Db, now: int, provider: string, eventId: string, orderNo: string, external: string, amount: int)
    requires ConfirmRecharge(db, now, provider, eventId, orderNo, external, amount).1.Ok?
    ensures var (db', r) := ConfirmRecharge(db, now, provider, eventId, orderNo, external, amount);
            Records(db', (Normalize(provider), TrimSpace(eventId)), TrimSpace(orderNo), TrimSpace(external), amount, r.row)
  {
    var p, ev, no, ext := Normalize(provider), TrimSpace(eventId), TrimSpace(orderNo), TrimSpace(external);
    if (p, ev) !in db.events {
      var i := FindOrderNo(db.orders, no, p);
      if db.orders[i].status == Refunds.Pending {
        PaymentRecords(db, i, ev, ext, amount);
      } else {
        LateRecords(db, i, ev, ext, amount);
      }
    }
  }

  lemma FindKeyAppend(ledger: seq<Txn>, t: Txn, text: string)
    ensures FindKey(ledger, text) == -1 && t.key.Render() == text ==> FindKey(ledger + [t], text) == |ledger|
  {
    assert (ledger + [t])[..|ledger|] == ledger;
  }

  lemma PostShape(ledger: seq<Txn>, t: Txn)
    ensures Post(ledger, t).Posted? ==> Post(ledger, t).ledger == ledger + [t.(currency := NormalizeCurrency(t.currency))]
    ensures Post(ledger, t).Replayed? ==> FindKey(ledger, TrimSpace(t.key.Render())) >= 0
  {
  }

  /** A new key is never replayed; once posted it is found at the last row. */
  lemma PostRecords(ledger: seq<Txn>, t: Txn, text: string)
    requires t.key.Render() == text && TrimSpace(text) == text && FindKey(ledger, text) == -1
    ensures !Post(ledger, t).Replayed?
    ensures Post(ledger, t).Posted? ==> FindKey(Post(ledger, t).ledger, text) == |ledger|
  {
    PostShape(ledger, t);
    var u := t.(currency := NormalizeCurrency(t.currency));
    assert u.key == t.key;
    if Post(ledger, t).Posted? {
      FindKeyAppend(ledger, u, text);
    }
  }

  lemma AdjustRecords(db: Db, account: Uuid, amount: int, currency: string, key: string)
    requires account in db.accounts && IsClientKey(key)
    requires FindKey(db.ledger, Adjustment(account, key).Render()) == -1
    requires IssueAdjustment(db, account, amount, currency, key).1.Ok?
    ensures var (db', r) := IssueAdjustment(db, account, amount, currency, key);
            FindKey(db'.ledger, Adjustment(account, key).Render()) == r.row
  {
    var t := AdjustTxn(account, amount, if amount < 0 then Negate64(amount) else amount, currency, key);
    RenderFits(t.key);
    PostRecords(db.ledger, t, t.key.Render());
  }

  lemma FindOrderKeyAppend(orders: seq<Order>, o: Order)
    ensures FindOrderKey(orders, o.key) == -1 ==> FindOrderKey(orders + [o], o.key) == |orders|
  {
    assert (orders + [o])[..|orders|] == orders;
  }

  lemma ReceivedRefundRecords(db: Db, op: Op)
    requires op.RefundOrder? && Step(db, op).1.Ok?
    ensures ReplayRow(Step(db, op).0, op) == Step(db, op).1.row
  {
    var i := FindOrderId(db.orders, op.order);
    if FindRefund(db.orders[i].refunds, TrimSpace(op.key)) == -1 {
      RefundRecords(db, i, Refunds.Refund(op.wallet, op.money), TrimSpace(op.key));
    }
  }

  lemma ReceivedAdjustmentRecords(db: Db, op: Op)
    requires op.Adjust? && Step(db, op).1.Ok?
    ensures ReplayRow(Step(db, op).0, op) == Step(db, op).1.row
  {
    if ReplayRow(db, op) == -1 {
      ClientKeyAfterTrim(op.key);
      AdjustRecords(db, op.account, op.amount, NormalizeCurrency(op.currency), TrimSpace(op.key));
    }
  }

  lemma NewOrderRecords(db: Db, op: Op)
    requires op.CreateOrder? && Step(db, op).1.Ok?
    ensures ReplayRow(Step(db, op).0, op) == Step(db, op).1.row
  {
    if Step(db, op).0 != db { FindOrderKeyAppend(db.orders, Step(db, op).0.orders[|db.orders|]); }
  }

  lemma SettlePurchaseRecords(db: Db, ledger: seq<Txn>, planOk: bool, row: PurchaseRow)
    requires row.account in db.accounts && SettlePurchase(db, ledger, planOk, row).1.Ok?
    requires FindPurchase(db.purchases, row.account, row.key) == -1
    ensures var (db', r) := SettlePurchase(db, ledger, planOk, row);
            FindPurchase(db'.purchases, row.account, row.key) == r.row
  {
    FindPurchaseAppend(db.purchases, row, row.account, row.key);
  }

  lemma ChargeRecords(db: Db, account: Uuid, price: int, currency: string, planOk: bool, key: string, id: Uuid)
    requires account in db.accounts && FindPurchase(db.purchases, account, key) == -1
    requires ChargeMembership(db, account, price, currency, planOk, key, id).1.Ok?
    ensures var (db', r) := ChargeMembership(db, account, price, currency, planOk, key, id);
            FindPurchase(db'.purchases, account, key) == r.row
  {
    match Post(db.ledger, PurchaseTxn(account, price, currency, key, id))
    case Replayed(t) => SettlePurchaseRecords(db, db.ledger, planOk, PurchaseRow(key, account, price, currency, t));
    case Posted(ledger) => SettlePurchaseRecords(db, ledger, planOk, PurchaseRow(key, account, price, currency, |db.ledger|));
  }

  lemma ReceivedPurchaseRecords(db: Db, op: Op)
    requires op.BuyMembership? && Step(db, op).1.Ok?
    ensures ReplayRow(Step(db, op).0, op) == Step(db, op).1.row
  {
    var k := TrimSpace(op.key);
    if FindPurchase(db.purchases, op.account, k) == -1 {
      ChargeRecords(db, op.account, op.product.value.price, op.product.value.currency, op.planOk, k, op.id);
    }
  }

  /** A committed request can be found by its key, under the row it returned. */
  lemma CommitRecords(db: Db, op: Op)
    requires !op.SetAccount? && Step(db, op).1.Ok?
    ensures ReplayRow(Step(db, op).0, op) == Step(db, op).1.row
  {
    match op
    case CreateOrder(_, _, _, _, _, _, _, _, _) => NewOrderRecords(db, op);
    case Confirm(now, provider, eventId, orderNo, external, amount) =>
      CallbackRecords(db, now, provider, eventId, orderNo, external, amount);
    case RefundOrder(_, _, _, _, _) => ReceivedRefundRecords(db, op);
    case BuyMembership(_, _, _, _, _) => ReceivedPurchaseRecords(db, op);
    case Adjust(_, _, _, _, _) => ReceivedAdjustmentRecords(db, op);
  }

  /** Once its key leads to a row, a request is answered from that row or refused. */
  lemma UsedKeyAnswers(db: Db, op: Op)
    requires !op.SetAccount? && ReplayRow(db, op) >= 0
    ensures Step(db, op).0 == db
    ensures Step(db, op).1.Ok? ==> Step(db, op).1.row == ReplayRow(db, op)
  {
  }

  /** Whatever has happened since a request committed, no request under its key
      changes anything or returns another row. */
  lemma KeyIsSpent(db: Db, op: Op, ops: seq<Op>, again: Op)
    requires Step(db, op).1.Ok? && SameKey(op, again)
    ensures var (db', r) := Step(db, op);
      var later := Run(db', ops);
      && Step(later, again).0 == later
      && (Step(later, again).1.Ok? ==> Step(later, again).1 == r)
  {
    var (db', r) := Step(db, op);
    CommitRecords(db, op);
    RunExtends(db', ops);
    ReplayRowStable(db', Run(db', ops), op);
    UsedKeyAnswers(Run(db', ops), again);
  }

  /** A request sent again after any run, however late, returns the row it returned the first time. */
  lemma RepeatedRequestReplays(db: Db, op: Op, ops: seq<Op>, again: Op)
    requires Step(db, op).1.Ok? && !op.SetAccount? && Resent(op, again)
    ensures var (db', r) := Step(db, op);
      Step(Run(db', ops), again) == (Run(db', ops), r)
  {
    var (db', r) := Step(db, op);
    var later := Run(db', ops);
    KeyIsSpent(db, op, ops, again);
    CommitRecords(db, op);
    RunExtends(db', ops);
    ReplayRowStable(db', later, op);
    if op.Confirm? {
      CallbackRecords(db, op.now, op.provider, op.eventId, op.orderNo, op.external, op.amount);
      var k := (Normalize(op.provider), TrimSpace(op.eventId));
      assert Survives(db'.orders[db'.events[k].order], later.orders[db'.events[k].order]);
    }
  }
}
