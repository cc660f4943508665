/** What each money operation does with the amounts it is asked for: when it is accepted, and
    which rows and balances it then changes, in terms of the request and the tables before and
    after. */
module CommerceEffects {
  import opened Options
  import opened Text
  import opened Keys
  import opened Ledger
  import opened Commerce
  import opened CommerceLaws
  import opened CommerceAnswers
  import Refunds

  // ---- Vocabulary ----

  predicate MovesAt(before: seq<Txn>, after: seq<Txn>, from: LedgerAccount, to: LedgerAccount, amount: int, a: LedgerAccount) {
    Balance(after, a) == Balance(before, a) + (if a == to then amount else 0) - (if a == from then amount else 0)
  }

  /** `amount` goes from one account to the other; no other balance changes. */
  ghost predicate Moves(before: seq<Txn>, after: seq<Txn>, from: LedgerAccount, to: LedgerAccount, amount: int) {
    forall a: LedgerAccount :: MovesAt(before, after, from, to, amount, a)
  }

  predicate IsClosed(db: Db, account: Uuid, currency: string) {
    (account, currency) in db.wallets && db.wallets[(account, currency)] == Closed
  }

  /** The account is active and its wallet has not been closed. */
  predicate Usable(db: Db, account: Uuid, currency: string) {
    account in db.accounts && db.accounts[account] && !IsClosed(db, account, currency)
  }

  predicate OtherWalletKept(wallets: map<(Uuid, string), WalletStatus>, wallets': map<(Uuid, string), WalletStatus>,
                            k: (Uuid, string))
  {
    (k in wallets' <==> k in wallets) && (k in wallets ==> wallets'[k] == wallets[k])
  }

  /** One wallet now exists and follows its account unless it is closed; no other changes. */
  ghost predicate WalletFollows(db: Db, db': Db, account: Uuid, currency: string) {
    && (account, currency) in db'.wallets
    && (db'.wallets[(account, currency)] == Closed <==> IsClosed(db, account, currency))
    && (db'.wallets[(account, currency)] == Active <==> Usable(db, account, currency))
    && (forall k: (Uuid, string) :: k != (account, currency) ==> OtherWalletKept(db.wallets, db'.wallets, k))
  }

  lemma EnsuredMeans(db: Db, account: Uuid, currency: string)
    requires account in db.accounts
    ensures WalletFollows(db, Commerce.EnsureWallet(db, account, currency), account, currency)
    ensures EnsuredStatus(db, account, currency) == Active <==> Usable(db, account, currency)
  {
  }

  lemma TransferMoves(ledger: seq<Txn>, t: Txn, p: Posting, q: Posting)
    requires t.postings == [p, q] && p.account != q.account && p.side != q.side && p.amount == q.amount
    ensures p.side == Debit ==> Moves(ledger, ledger + [t], p.account, q.account, p.amount)
    ensures p.side == Credit ==> Moves(ledger, ledger + [t], q.account, p.account, p.amount)
  {
    forall a: LedgerAccount
      ensures if p.side == Debit then MovesAt(ledger, ledger + [t], p.account, q.account, p.amount, a)
              else MovesAt(ledger, ledger + [t], q.account, p.account, p.amount, a)
    {
      BalanceOfAppend(ledger, t, a);
      TwoPostings(p, q, a);
    }
  }

  /** Trimmed and at most 160 bytes. */
  predicate KeyGiven(key: string) {
    TrimSpace(key) != "" && ByteLen(TrimSpace(key)) <= 160
  }

  // ---- New orders ----

  predicate OrderFits(db: Db, op: Op)
    requires op.CreateOrder?
  {
    && IsProvider(Normalize(op.provider)) && KeyGiven(op.key) && op.providerReady
    && op.product.Some? && op.product.value.enabled
    && op.product.value.price > 0 && op.product.value.grant > 0 && IsCurrency(op.product.value.currency)
    && op.account in db.accounts && db.accounts[op.account]
    && forall j :: 0 <= j < |db.orders| ==> db.orders[j].id != op.id && db.orders[j].orderNo != op.orderNo
  }

  /** The row of a new order: what the product asks for and grants, open for its minutes. */
  predicate OrderedRow(o: Order, op: Op)
    requires op.CreateOrder? && op.product.Some?
  {
    && o.id == op.id && o.orderNo == op.orderNo && o.account == op.account && o.provider == Normalize(op.provider)
    && o.key == op.account + ":" + TrimSpace(op.key)
    && o.price == op.product.value.price && o.grant == op.product.value.grant && o.currency == op.product.value.currency
    && o.expiresAt == op.now + 60 * (if 5 <= op.ttl <= 1440 then op.ttl else 30)
    && o.status == Refunds.Pending && o.paid == None && o.txn == None && o.external == "" && o.refunds == []
  }

  /** An order under a new key: accepted exactly when product, provider and account allow it;
      then one row with the product's price and grant is added; and otherwise nothing changes. */
  lemma OrderDoes(db: Db, op: Op)
    requires op.CreateOrder?
    requires forall j :: 0 <= j < |db.orders| ==> db.orders[j].key != op.account + ":" + TrimSpace(op.key)
    ensures Step(db, op).1.Ok? <==> OrderFits(db, op)
    ensures if Step(db, op).1.Ok? then
              && |Step(db, op).0.orders| == |db.orders| + 1 && OrderedRow(Step(db, op).0.orders[|db.orders|], op)
              && Step(db, op).0 == db.(orders := db.orders + [Step(db, op).0.orders[|db.orders|]])
            else Step(db, op).0 == db
  {
    assert op.account + ":" + TrimSpace(op.key) == op.account + (":" + TrimSpace(op.key));
    assert FindOrderKey(db.orders, op.account + (":" + TrimSpace(op.key))) == -1;
  }

  // ---- Payments ----

  /** Everything the payment of a pending order changes: the order, its callback, and the
      wallet, which receives the grant. */
  ghost predicate PaymentWritten(db: Db, db': Db, i: nat, eventId: string, external: string, amount: int)
    requires i < |db.orders|
  {
    var o := db.orders[i];
    && db'.orders == db.orders[i := o.(status := Refunds.Paid, external := external, paid := Some(amount), txn := Some(|db.ledger|))]
    && db'.events == db.events[(o.provider, eventId) := Event(i, external, amount, Some(|db.ledger|))]
    && Moves(db.ledger, db'.ledger, System("cash_clearing", o.currency), Wallet(o.account, o.currency), o.grant)
    && db'.accounts == db.accounts && db'.purchases == db.purchases
    && WalletFollows(db, db', o.account, o.currency)
  }

  lemma PaymentIssued(db: Db, i: nat, ev: string, ext: string)
    requires Inv(db) && i < |db.orders| && db.orders[i].status == Refunds.Pending && IsClientKey(ext)
    ensures var (db', r) := FirstPayment(db, i, ev, ext, db.orders[i].price);
      if r.Ok? then PaymentWritten(db, db', i, ev, ext, db.orders[i].price) else db' == db
  {
    var o := db.orders[i];
    if FirstPayment(db, i, ev, ext, o.price).1.Ok? {
      PaymentKeeps(db, i, ev, ext);
      PaymentSettles(db, i, ev, ext);
      if FindKey(db.ledger, RechargeTxn(o, ext).key.Render()) >= 0 {
        ReplayIsRefused(db, i, ext, FindKey(db.ledger, RechargeTxn(o, ext).key.Render()));
      }
      EnsuredMeans(db, o.account, o.currency);
      var t := RechargeTxn(o, ext);
      TransferMoves(db.ledger, t, t.postings[0], t.postings[1]);
    }
  }

  /** A callback under a new event id that is accepted: the first one for an order credits
      exactly the order's grant to its wallet and records amount and external id; a later
      one only adds its own row; and one that is not accepted changes nothing. */
  lemma CallbackDoes(db: Db, op: Op, i: nat)
    requires Inv(db) && Linked(db) && op.Confirm? && i < |db.orders|
    requires db.orders[i].orderNo == TrimSpace(op.orderNo) && db.orders[i].provider == Normalize(op.provider)
    requires (Normalize(op.provider), TrimSpace(op.eventId)) !in db.events
    ensures var (db', r) := Step(db, op); var o := db.orders[i];
      if r.Err? then db' == db
      else if o.status == Refunds.Pending then PaymentWritten(db, db', i, TrimSpace(op.eventId), TrimSpace(op.external), op.amount)
      else db' == db.(events := db.events[(o.provider, TrimSpace(op.eventId)) := Event(i, TrimSpace(op.external), op.amount, o.txn)])
  {
    NumberFindsRow(db.orders, i);
    TrimmedIsFixed(op.external);
    if WellFormedCallback(op.provider, op.eventId, op.orderNo, op.external, op.amount) {
      NewCallbackIs(db, op.now, op.provider, op.eventId, op.orderNo, op.external, op.amount);
      if db.orders[i].status == Refunds.Pending && op.amount == db.orders[i].price {
        PaymentIssued(db, i, TrimSpace(op.eventId), TrimSpace(op.external));
      }
    }
  }

  lemma KnownEventIs(db: Db, now: int, provider: string, eventId: string, orderNo: string, external: string, amount: int)
    requires (Normalize(provider), TrimSpace(eventId)) in db.events
    requires db.events[(Normalize(provider), TrimSpace(eventId))].order < |db.orders|
    ensures var e := db.events[(Normalize(provider), TrimSpace(eventId))];
      var (db', r) := ConfirmRecharge(db, now, provider, eventId, orderNo, external, amount);
      && db' == db
      && (WellFormedCallback(provider, eventId, orderNo, external, amount) ==>
            r == if db.orders[e.order].orderNo == TrimSpace(orderNo) && e.external == TrimSpace(external) && e.amount == amount
                 then Ok(e.order) else Err(Conflict))
  {
  }

  /** A callback whose event id is known is answered with its order if it names the same
      order, external id and amount as the stored one, and is a conflict otherwise; in either
      case it changes nothing. */
  lemma RepeatedCallbackDoes(db: Db, op: Op)
    requires Inv(db) && op.Confirm? && (Normalize(op.provider), TrimSpace(op.eventId)) in db.events
    ensures var e := db.events[(Normalize(op.provider), TrimSpace(op.eventId))];
      && e.order < |db.orders| && Step(db, op).0 == db
      && (WellFormedCallback(op.provider, op.eventId, op.orderNo, op.external, op.amount) ==>
            Step(db, op).1 == if db.orders[e.order].orderNo == TrimSpace(op.orderNo) && e.external == TrimSpace(op.external)
                                 && e.amount == op.amount
                              then Ok(e.order) else Err(Conflict))
  {
    assert EventOk(db.orders, Normalize(op.provider), db.events[(Normalize(op.provider), TrimSpace(op.eventId))]);
    KnownEventIs(db, op.now, op.provider, op.eventId, op.orderNo, op.external, op.amount);
  }

  // ---- Refunds ----

  predicate RefundAsked(op: Op) {
    && op.RefundOrder? && op.wallet > 0 && op.money > 0 && KeyGiven(op.key)
    && TrimSpace(op.reason) != "" && ByteLen(TrimSpace(op.reason)) <= 500
  }

  /** The order is paid and not yet refunded in full, and has room for the pair; its wallet holds the amount. */
  predicate RefundFits(db: Db, o: Order, wallet: int, money: int) {
    && (o.status == Refunds.Paid || o.status == Refunds.PartiallyRefunded)
    && Refunds.Accepts(o.grant, o.price, Amounts(o.refunds), Refunds.Refund(wallet, money))
    && Balance(db.ledger, Wallet(o.account, o.currency)) >= wallet
  }

  /** Everything a refund changes: one row at the end of the order's refunds, its status,
      and the wallet. */
  ghost predicate RefundWritten(db: Db, db': Db, i: nat, wallet: int, money: int, key: string)
    requires i < |db.orders|
  {
    var o := db.orders[i];
    && |db'.orders| == |db.orders|
    && db'.orders[i] == o.(status := db'.orders[i].status,
                           refunds := o.refunds + [RefundRow(key, Refunds.Refund(wallet, money), |db.ledger|)])
    && db'.orders[i].status == (if Refunds.WalletSum(Amounts(o.refunds)) + wallet == o.grant
                                then Refunds.FullyRefunded else Refunds.PartiallyRefunded)
    && (forall j :: 0 <= j < |db.orders| && j != i ==> db'.orders[j] == db.orders[j])
    && Moves(db.ledger, db'.ledger, Wallet(o.account, o.currency), System("cash_clearing", o.currency), wallet)
    && db'.accounts == db.accounts && db'.events == db.events && db'.purchases == db.purchases
    && WalletFollows(db, db', o.account, o.currency)
  }

  lemma OrderFound(orders: seq<Order>, i: nat)
    requires OrdersOk(orders) && i < |orders|
    ensures FindOrderId(orders, orders[i].id) == i
  {
    var j := FindOrderId(orders, orders[i].id);
    assert j >= 0;
  }

  lemma FullExactly(o: Order, r: Refunds.Refund)
    requires OrderOk(o) && o.status != Refunds.Pending && Refunds.Accepts(o.grant, o.price, Amounts(o.refunds), r)
    ensures Refunds.StatusAfter(o.grant, o.price, Amounts(o.refunds), r)
            == if Refunds.WalletSum(Amounts(o.refunds)) + r.wallet == o.grant then Refunds.FullyRefunded else Refunds.PartiallyRefunded
  {
    var used := Amounts(o.refunds);
    Refunds.SumsOfAppend(used, r);
    Refunds.AcceptedAppend(o.grant, o.price, used, r);
    Refunds.FullTogether(o.grant, o.price, used + [r]);
  }

  lemma RefundIssued(db: Db, i: nat, r: Refunds.Refund, k: string)
    requires Inv(db) && Linked(db) && i < |db.orders| && IsClientKey(k) && FindRefund(db.orders[i].refunds, k) == -1
    requires r.wallet > 0 && r.external > 0 && IssueRefund(db, i, r, k).1.Ok?
    ensures RefundWritten(db, IssueRefund(db, i, r, k).0, i, r.wallet, r.external, k)
  {
    var o := db.orders[i];
    assert OrderOk(o);
    RefundPosts(db, i, r.wallet, k);
    RefundSettles(db, i, r, k);
    SettledRefundWritten(db, i, r, k);
  }

  lemma SettledRefundWritten(db: Db, i: nat, r: Refunds.Refund, k: string)
    requires i < |db.orders| && OrderOk(db.orders[i]) && db.orders[i].status != Refunds.Pending
    requires db.orders[i].account in db.accounts && Refunds.Accepts(db.orders[i].grant, db.orders[i].price, Amounts(db.orders[i].refunds), r)
    ensures var t := RefundTxn(db.orders[i], r.wallet, k);
      RefundWritten(db, SettleRefund(db, db.ledger + [t], i, r, k, |db.ledger|).0, i, r.wallet, r.external, k)
  {
    var o := db.orders[i];
    FullExactly(o, r);
    EnsuredMeans(db, o.account, o.currency);
    var t := RefundTxn(o, r.wallet, k);
    TransferMoves(db.ledger, t, t.postings[0], t.postings[1]);
  }

  lemma RefundStepIs(db: Db, op: Op, i: nat)
    requires Inv(db) && op.RefundOrder? && i < |db.orders| && db.orders[i].id == op.order
    requires FindRefund(db.orders[i].refunds, TrimSpace(op.key)) == -1
    ensures if RefundAsked(op) then Step(db, op) == IssueRefund(db, i, Refunds.Refund(op.wallet, op.money), TrimSpace(op.key))
            else Step(db, op) == (db, Err(Invalid))
  {
    OrderFound(db.orders, i);
  }

  /** A refund request under a new key: accepted exactly when it is well formed and fits its
      order and wallet; then exactly these two amounts are recorded under this key and exactly
      this amount leaves the wallet; and otherwise nothing changes. */
  lemma RefundDoes(db: Db, op: Op, i: nat)
    requires Inv(db) && Linked(db) && op.RefundOrder? && i < |db.orders| && db.orders[i].id == op.order
    requires forall j :: 0 <= j < |db.orders[i].refunds| ==> db.orders[i].refunds[j].key != TrimSpace(op.key)
    ensures Step(db, op).1.Ok? <==> RefundAsked(op) && RefundFits(db, db.orders[i], op.wallet, op.money)
    ensures if Step(db, op).1.Ok? then RefundWritten(db, Step(db, op).0, i, op.wallet, op.money, TrimSpace(op.key))
            else Step(db, op).0 == db
  {
    var r, k := Refunds.Refund(op.wallet, op.money), TrimSpace(op.key);
    assert FindRefund(db.orders[i].refunds, k) == -1;
    RefundStepIs(db, op, i);
    TrimmedIsFixed(op.key);
    if RefundAsked(op) {
      RefundAcceptedExactlyWhen(db, i, r, k);
      if Step(db, op).1.Ok? { RefundIssued(db, i, r, k); } else { RefusedRefundChangesNothing(db, i, r, k); }
    }
  }

  lemma RefusedRefundChangesNothing(db: Db, i: nat, r: Refunds.Refund, k: string)
    requires i < |db.orders| && IssueRefund(db, i, r, k).1.Err?
    ensures IssueRefund(db, i, r, k).0 == db
  {
  }

  /** An unknown order is refunded nothing. */
  lemma UnknownOrderIsRefused(db: Db, op: Op)
    requires op.RefundOrder? && forall i :: 0 <= i < |db.orders| ==> db.orders[i].id != op.order
    ensures Step(db, op).1.Err? && Step(db, op).0 == db
  {
  }

  // ---- Purchases ----

  /** The key is well formed, the product is on offer, the wallet usable and sufficient. */
  predicate PurchaseFits(db: Db, account: Uuid, product: Option<Product>, key: string) {
    && KeyGiven(key) && product.Some? && product.value.enabled
    && product.value.price > 0 && product.value.grant > 0 && IsCurrency(product.value.currency)
    && Usable(db, account, product.value.currency)
    && Balance(db.ledger, Wallet(account, product.value.currency)) >= product.value.price
  }

  ghost predicate PurchaseWritten(db: Db, db': Db, account: Uuid, price: int, currency: string, key: string) {
    && db'.purchases == db.purchases + [PurchaseRow(key, account, price, currency, |db.ledger|)]
    && Moves(db.ledger, db'.ledger, Wallet(account, currency), System("membership_revenue", currency), price)
    && db'.accounts == db.accounts && db'.orders == db.orders && db'.events == db.events
    && WalletFollows(db, db', account, currency)
  }

  lemma PurchaseCharged(db: Db, account: Uuid, price: int, currency: string, planOk: bool, k: string, id: Uuid)
    requires Inv(db) && account in db.accounts && IsClientKey(k) && FindPurchase(db.purchases, account, k) == -1
    requires price > 0 && IsCurrency(currency)
    ensures var (db', r) := ChargeMembership(db, account, price, currency, planOk, k, id);
      if r.Ok? then PurchaseWritten(db, db', account, price, currency, k) else db' == db
  {
    var t := PurchaseTxn(account, price, currency, k, id);
    PurchasePosts(db, PurchaseRow(k, account, price, currency, |db.ledger|), id);
    EnsuredMeans(db, account, currency);
    TransferMoves(db.ledger, t, t.postings[0], t.postings[1]);
  }

  lemma PurchaseStepIs(db: Db, op: Op)
    requires op.BuyMembership? && FindPurchase(db.purchases, op.account, TrimSpace(op.key)) == -1
    ensures var k := TrimSpace(op.key);
      if KeyGiven(op.key) && op.product.Some? && op.product.value.enabled && ProductOk(op.product.value) && op.account in db.accounts
      then Step(db, op) == ChargeMembership(db, op.account, op.product.value.price, op.product.value.currency, op.planOk, k, op.id)
      else Step(db, op).0 == db && Step(db, op).1.Err?
  {
  }

  /** A purchase under a new key: accepted exactly when the product is on offer, the account's
      wallet in the product's currency is usable and holds the product's price, and the plan
      can be assigned; then exactly that price leaves that wallet and is recorded; and
      otherwise nothing changes. */
  lemma PurchaseDoes(db: Db, op: Op)
    requires Inv(db) && op.BuyMembership?
    requires forall j :: 0 <= j < |db.purchases| ==> !(db.purchases[j].account == op.account && db.purchases[j].key == TrimSpace(op.key))
    ensures Step(db, op).1.Ok? <==> PurchaseFits(db, op.account, op.product, op.key) && op.planOk
    ensures if Step(db, op).1.Ok?
            then PurchaseWritten(db, Step(db, op).0, op.account, op.product.value.price, op.product.value.currency, TrimSpace(op.key))
            else Step(db, op).0 == db
  {
    var k := TrimSpace(op.key);
    assert FindPurchase(db.purchases, op.account, k) == -1;
    PurchaseStepIs(db, op);
    TrimmedIsFixed(op.key);
    if KeyGiven(op.key) && op.product.Some? && op.product.value.enabled && ProductOk(op.product.value) && op.account in db.accounts {
      EnsuredMeans(db, op.account, op.product.value.currency);
      PurchaseAcceptedExactlyWhen(db, op.account, op.product.value.price, op.product.value.currency, op.planOk, k, op.id);
      PurchaseCharged(db, op.account, op.product.value.price, op.product.value.currency, op.planOk, k, op.id);
    }
  }

  // ---- Adjustments ----

  predicate AdjustmentFits(db: Db, account: Uuid, amount: int, currency: string, reason: string, key: string) {
    var cur := NormalizeCurrency(currency);
    && amount != 0 && amount != -0x8000_0000_0000_0000 && IsCurrency(cur)
    && TrimSpace(reason) != "" && ByteLen(reason) <= 500 && TrimSpace(key) != "" && ByteLen(key) <= 160
    && Usable(db, account, cur)
    && Balance(db.ledger, Wallet(account, cur)) + amount >= 0
  }

  ghost predicate AdjustmentWritten(db: Db, db': Db, account: Uuid, amount: int, currency: string) {
    && Moves(db.ledger, db'.ledger, System("admin_adjustment", currency), Wallet(account, currency), amount)
    && db'.accounts == db.accounts && db'.orders == db.orders && db'.events == db.events && db'.purchases == db.purchases
    && WalletFollows(db, db', account, currency)
  }

  lemma AdjustMoves(ledger: seq<Txn>, account: Uuid, amount: int, currency: string, k: string)
    requires amount > MIN_INT64
    ensures var t := AdjustTxn(account, amount, if amount < 0 then Negate64(amount) else amount, currency, k);
      Moves(ledger, ledger + [t], System("admin_adjustment", currency), Wallet(account, currency), amount)
  {
    var t := AdjustTxn(account, amount, if amount < 0 then Negate64(amount) else amount, currency, k);
    TransferMoves(ledger, t, t.postings[0], t.postings[1]);
    var system, wallet := System("admin_adjustment", currency), Wallet(account, currency);
    forall a: LedgerAccount ensures MovesAt(ledger, ledger + [t], system, wallet, amount, a) {
      if amount < 0 { assert MovesAt(ledger, ledger + [t], wallet, system, -amount, a); }
    }
  }

  lemma AdjustmentIssued(db: Db, account: Uuid, amount: int, currency: string, k: string)
    requires Inv(db) && account in db.accounts && IsClientKey(k) && amount >= MIN_INT64 && amount != 0
    requires FindKey(db.ledger, Adjustment(account, k).Render()) == -1 && NormalizeCurrency(currency) == currency
    ensures var (db', r) := IssueAdjustment(db, account, amount, currency, k);
      if r.Ok? then AdjustmentWritten(db, db', account, amount, currency) else db' == db
  {
    if amount == MIN_INT64 {
      MinimumIsRejected(db, account, currency, k);
    } else {
      AdjustmentSettles(db, account, amount, currency, k);
      AdjustMoves(db.ledger, account, amount, currency, k);
      EnsuredMeans(db, account, currency);
    }
  }

  lemma AdjustmentSettles(db: Db, account: Uuid, amount: int, currency: string, k: string)
    requires Inv(db) && account in db.accounts && IsClientKey(k) && amount > MIN_INT64 && amount != 0
    requires FindKey(db.ledger, Adjustment(account, k).Render()) == -1 && NormalizeCurrency(currency) == currency
    ensures var (db', r) := IssueAdjustment(db, account, amount, currency, k);
      var t := AdjustTxn(account, amount, if amount < 0 then Negate64(amount) else amount, currency, k);
      db' == if r.Ok? then Commerce.EnsureWallet(db, account, currency).(ledger := db.ledger + [t]) else db
  {
    AdjustmentPostsExactlyWhen(db, account, amount, currency, k);
    var t := AdjustTxn(account, amount, if amount < 0 then Negate64(amount) else amount, currency, k);
    if IsCurrency(currency) { AdjustLedger(db, t, t.postings[1], t.postings[0]); }
  }

  lemma NormalTwice(currency: string)
    ensures NormalizeCurrency(NormalizeCurrency(currency)) == NormalizeCurrency(currency)
  {
    var v := TrimSpace(currency);
    TrimmedIsFixed(currency);
    UpperTrimmed(v);
    TrimmedIsFixed(ToUpper(v));
    assert ToUpper(ToUpper(v)) == ToUpper(v);
  }

  lemma UpperTrimmed(s: string)
    requires IsTrimmed(s)
    ensures IsTrimmed(ToUpper(s))
  {
  }

  lemma AdjustStepIs(db: Db, op: Op)
    requires op.Adjust? && FindKey(db.ledger, Adjustment(op.account, TrimSpace(op.key)).Render()) == -1
    ensures var k, cur := TrimSpace(op.key), NormalizeCurrency(op.currency);
      if op.amount != 0 && TrimSpace(op.reason) != "" && ByteLen(op.reason) <= 500 && k != "" && ByteLen(op.key) <= 160
         && op.account in db.accounts && EnsuredStatus(db, op.account, cur) == Active
      then Step(db, op) == IssueAdjustment(db, op.account, op.amount, cur, k)
      else Step(db, op).0 == db && Step(db, op).1.Err?
  {
  }

  /** An adjustment under a new key: accepted exactly when it is well formed, the wallet is
      usable and does not become negative, and the amount has a negation; then the wallet
      changes by exactly the signed amount; and otherwise nothing changes. */
  lemma AdjustmentDoes(db: Db, op: Op)
    requires Inv(db) && op.Adjust? && op.amount >= MIN_INT64
    requires FindKey(db.ledger, Adjustment(op.account, TrimSpace(op.key)).Render()) == -1
    ensures Step(db, op).1.Ok? <==> AdjustmentFits(db, op.account, op.amount, op.currency, op.reason, op.key)
    ensures if Step(db, op).1.Ok? then AdjustmentWritten(db, Step(db, op).0, op.account, op.amount, NormalizeCurrency(op.currency))
            else Step(db, op).0 == db
  {
    var k, cur := TrimSpace(op.key), NormalizeCurrency(op.currency);
    AdjustStepIs(db, op);
    NormalTwice(op.currency);
    if op.account in db.accounts { EnsuredMeans(db, op.account, cur); }
    if op.amount != 0 && TrimSpace(op.reason) != "" && ByteLen(op.reason) <= 500 && k != "" && ByteLen(op.key) <= 160
       && op.account in db.accounts && EnsuredStatus(db, op.account, cur) == Active
    {
      ClientKeyAfterTrim(op.key);
      AdjustmentAcceptedExactlyWhen(db, op.account, op.amount, cur, k);
      AdjustmentIssued(db, op.account, op.amount, cur, k);
    }
  }
}
