/** Recharge orders, payment callbacks, refunds, membership purchases and wallet
    adjustments (v3/internal/platform/commerce.go, wallet.go). One database
    transaction is one step; an error rolls the whole step back. */
module Commerce {
  import opened Options
  import opened Text
  import opened Keys
  import opened Ledger
  import Refunds

  datatype WalletStatus = Active | Frozen | Closed

  /** A row of recharge_refunds; `txn` is the row number of its ledger transaction. */
  datatype RefundRow = RefundRow(key: string, amounts: Refunds.Refund, txn: nat)

  /** A row of recharge_orders together with its refund rows. */
  datatype Order = Order(id: Uuid, orderNo: string, key: string, account: Uuid, provider: string,
                         price: int, grant: int, currency: string, expiresAt: int,
                         status: Refunds.Status, external: string, paid: Option<int>, txn: Option<nat>,
                         refunds: seq<RefundRow>)

  datatype Event = Event(order: nat, external: string, amount: int, txn: Option<nat>)

  datatype PurchaseRow = PurchaseRow(key: string, account: Uuid, amount: int, currency: string, txn: nat)

  datatype Product = Product(enabled: bool, price: int, grant: int, currency: string)

  datatype Db = Db(
    accounts: map<Uuid, bool>,                      // id -> status is 'active'
    wallets: map<(Uuid, string), WalletStatus>,     // (account, currency) -> status
    ledger: seq<Txn>,
    orders: seq<Order>,
    events: map<(string, string), Event>,           // (provider, event id) -> event
    purchases: seq<PurchaseRow>)

  /** The row a committed operation returns, or the error it rolled back with. */
  datatype Outcome = Ok(row: nat) | Err(error: Error)

  const MIN_INT64: int := -0x8000_0000_0000_0000

  /** Go's negation of an int64: the minimum is its own negation. */
  function Negate64(v: int): int {
    if v == MIN_INT64 then v else -v
  }

  // ---- Row lookups by unique column ----

  function FindOrderKey(orders: seq<Order>, key: string): (i: int)
    ensures -1 <= i < |orders|
    ensures i >= 0 ==> orders[i].key == key
    ensures i == -1 ==> forall j :: 0 <= j < |orders| ==> orders[j].key != key
  {
    if orders == [] then -1
    else
      var i := FindOrderKey(orders[..|orders| - 1], key);
      if i >= 0 then i else if orders[|orders| - 1].key == key then |orders| - 1 else -1
  }

  function FindOrderNo(orders: seq<Order>, orderNo: string, provider: string): (i: int)
    ensures -1 <= i < |orders|
    ensures i >= 0 ==> orders[i].orderNo == orderNo && orders[i].provider == provider
  {
    if orders == [] then -1
    else
      var i := FindOrderNo(orders[..|orders| - 1], orderNo, provider);
      if i >= 0 then i
      else if orders[|orders| - 1].orderNo == orderNo && orders[|orders| - 1].provider == provider
      then |orders| - 1 else -1
  }

  function FindOrderId(orders: seq<Order>, id: Uuid): (i: int)
    ensures -1 <= i < |orders|
    ensures i >= 0 ==> orders[i].id == id
    ensures i == -1 ==> forall j :: 0 <= j < |orders| ==> orders[j].id != id
  {
    if orders == [] then -1
    else
      var i := FindOrderId(orders[..|orders| - 1], id);
      if i >= 0 then i else if orders[|orders| - 1].id == id then |orders| - 1 else -1
  }

  function FindRefund(refunds: seq<RefundRow>, key: string): (i: int)
    ensures -1 <= i < |refunds|
    ensures i >= 0 ==> refunds[i].key == key
    ensures i == -1 ==> forall j :: 0 <= j < |refunds| ==> refunds[j].key != key
  {
    if refunds == [] then -1
    else
      var i := FindRefund(refunds[..|refunds| - 1], key);
      if i >= 0 then i else if refunds[|refunds| - 1].key == key then |refunds| - 1 else -1
  }

  function FindPurchase(purchases: seq<PurchaseRow>, account: Uuid, key: string): (i: int)
    ensures -1 <= i < |purchases|
    ensures i >= 0 ==> purchases[i].account == account && purchases[i].key == key
    ensures i == -1 ==> forall j :: 0 <= j < |purchases| ==> !(purchases[j].account == account && purchases[j].key == key)
  {
    if purchases == [] then -1
    else
      var last := purchases[|purchases| - 1];
      var i := FindPurchase(purchases[..|purchases| - 1], account, key);
      if i >= 0 then i else if last.account == account && last.key == key then |purchases| - 1 else -1
  }

  function Amounts(refunds: seq<RefundRow>): (rs: seq<Refunds.Refund>)
    ensures |rs| == |refunds|
  {
    seq(|refunds|, i requires 0 <= i < |refunds| => refunds[i].amounts)
  }

  /** UNIQUE(provider, external_order_id) and UNIQUE(ledger_transaction_id). */
  predicate UniqueViolated(orders: seq<Order>, i: nat, external: string, txn: nat)
    requires i < |orders|
  {
    exists j :: 0 <= j < |orders| && j != i
      && ((orders[j].provider == orders[i].provider && orders[j].external == external) || orders[j].txn == Some(txn))
  }

  // ---- Wallets ----

  /** ensureWalletTx: create the wallet if missing and follow the account's status. */
  function EnsuredStatus(db: Db, account: Uuid, currency: string): WalletStatus
    requires account in db.accounts
  {
    if (account, currency) in db.wallets && db.wallets[(account, currency)] == Closed then Closed
    else if db.accounts[account] then Active else Frozen
  }

  function EnsureWallet(db: Db, account: Uuid, currency: string): Db
    requires account in db.accounts
  {
    db.(wallets := db.wallets[(account, currency) := EnsuredStatus(db, account, currency)])
  }

  // ---- Operations ----

  datatype Op =
    | SetAccount(account: Uuid, active: bool)
    | CreateOrder(now: int, ttl: int, account: Uuid, product: Option<Product>, providerReady: bool,
                  provider: string, key: string, id: Uuid, orderNo: string)
    | Confirm(now: int, provider: string, eventId: string, orderNo: string, external: string, amount: int)
    | RefundOrder(order: Uuid, wallet: int, money: int, reason: string, key: string)
    | BuyMembership(account: Uuid, product: Option<Product>, planOk: bool, key: string, id: Uuid)
    | Adjust(account: Uuid, amount: int, currency: string, reason: string, key: string)

  /** `product.grant`, `product.price` > 0 is a CHECK of the product tables. */
  predicate ProductOk(p: Product) {
    p.price > 0 && p.grant > 0 && IsCurrency(p.currency)
  }

  function CreateRechargeOrder(db: Db, now: int, ttl: int, account: Uuid, product: Option<Product>,
                               providerReady: bool, provider: string, key: string, id: Uuid,
                               orderNo: string): (Db, Outcome)
  {
    var p, k := Normalize(provider), TrimSpace(key);
    if !IsProvider(p) || k == "" || ByteLen(k) > 160 then (db, Err(Invalid))
    else
      var fullKey := account + (":" + k);
      var i := FindOrderKey(db.orders, fullKey);
      if i >= 0 then (db, Ok(i))
      else if !providerReady || product == None || !product.value.enabled || !ProductOk(product.value)
        then (db, Err(NotFound))
      else if account !in db.accounts || !db.accounts[account] then (db, Err(Forbidden))
      else if FindOrderId(db.orders, id) >= 0 || exists j :: 0 <= j < |db.orders| && db.orders[j].orderNo == orderNo
        then (db, Err(Conflict))
      else
        var minutes := if ttl < 5 || ttl > 1440 then 30 else ttl;
        var o := Order(id, orderNo, fullKey, account, p, product.value.price, product.value.grant,
                       product.value.currency, now + minutes * 60, Refunds.Pending, "", None, None, []);
        (db.(orders := db.orders + [o]), Ok(|db.orders|))
  }

  function ConfirmRecharge(db: Db, now: int, provider: string, eventId: string, orderNo: string,
                           external: string, amount: int): (Db, Outcome)
  {
    var p, ev, no, ext := Normalize(provider), TrimSpace(eventId), TrimSpace(orderNo), TrimSpace(external);
    if !IsProvider(p) || ev == "" || ByteLen(ev) > 180 || no == "" || ByteLen(no) > 80
       || ext == "" || ByteLen(ext) > 160 || amount <= 0 then (db, Err(Invalid))
    else if (p, ev) in db.events then
      var e := db.events[(p, ev)];
      if e.order >= |db.orders| then (db, Err(NotFound))
      else if db.orders[e.order].orderNo != no || e.external != ext || e.amount != amount then (db, Err(Conflict))
      else (db, Ok(e.order))
    else
      var i := FindOrderNo(db.orders, no, p);
      if i == -1 then (db, Err(NotFound))
      else if db.orders[i].status != Refunds.Pending then LateCallback(db, i, ev, ext, amount)
      else if now > db.orders[i].expiresAt || amount != db.orders[i].price then (db, Err(Conflict))
      else FirstPayment(db, i, ev, ext, amount)
  }

  /** A further callback for an order that is already paid or refunded. */
  function LateCallback(db: Db, i: nat, ev: string, ext: string, amount: int): (Db, Outcome)
    requires i < |db.orders|
  {
    var o := db.orders[i];
    if o.external == ext && o.paid == Some(amount) then
      (db.(events := db.events[(o.provider, ev) := Event(i, ext, amount, o.txn)]), Ok(i))
    else (db, Err(Conflict))
  }

  /** The callback that pays a pending order. */
  function FirstPayment(db: Db, i: nat, ev: string, ext: string, amount: int): (Db, Outcome)
    requires i < |db.orders|
  {
    var o := db.orders[i];
    if o.account !in db.accounts then (db, Err(NotFound))
    else
      match Post(db.ledger, RechargeTxn(o, ext))
      case Rejected(error) => (db, Err(error))
      case Replayed(t) => SettlePayment(db, db.ledger, i, ev, ext, amount, t)
      case Posted(ledger) => SettlePayment(db, ledger, i, ev, ext, amount, |db.ledger|)
  }

  function RechargeTxn(o: Order, ext: string): Txn {
    Txn(Payment(o.provider, ext), Recharge, o.currency, o.id, 0,
        [Posting(System("cash_clearing", o.currency), Debit, o.grant),
         Posting(Wallet(o.account, o.currency), Credit, o.grant)])
  }

  /** Record the callback and mark the order paid, unless a unique constraint objects. */
  function SettlePayment(db: Db, ledger: seq<Txn>, i: nat, ev: string, ext: string, amount: int, t: nat): (Db, Outcome)
    requires i < |db.orders| && db.orders[i].account in db.accounts
  {
    if UniqueViolated(db.orders, i, ext, t) then (db, Err(Storage))
    else
      var o := db.orders[i].(status := Refunds.Paid, external := ext, paid := Some(amount), txn := Some(t));
      (EnsureWallet(db, o.account, o.currency).(
         ledger := ledger,
         orders := db.orders[i := o],
         events := db.events[(o.provider, ev) := Event(i, ext, amount, Some(t))]), Ok(i))
  }

  function RefundRecharge(db: Db, order: Uuid, wallet: int, external: int, reason: string, key: string): (Db, Outcome) {
    var why, k := TrimSpace(reason), TrimSpace(key);
    if wallet <= 0 || external <= 0 || why == "" || ByteLen(why) > 500 || k == "" || ByteLen(k) > 160
      then (db, Err(Invalid))
    else
      var i := FindOrderId(db.orders, order);
      if i == -1 then (db, Err(NotFound))
      else if FindRefund(db.orders[i].refunds, k) >= 0 then (db, Ok(FindRefund(db.orders[i].refunds, k)))
      else IssueRefund(db, i, Refunds.Refund(wallet, external), k)
  }

  /** A refund whose key is new. */
  function IssueRefund(db: Db, i: nat, r: Refunds.Refund, key: string): (Db, Outcome)
    requires i < |db.orders|
  {
    var o := db.orders[i];
    var used := Amounts(o.refunds);
    if o.status != Refunds.Paid && o.status != Refunds.PartiallyRefunded then (db, Err(Conflict))
    else if Refunds.WalletSum(used) + r.wallet > o.grant || Refunds.ExternalSum(used) + r.external > o.price
      then (db, Err(Conflict))
    else if r.wallet * o.price != r.external * o.grant then (db, Err(Invalid))
    else DebitRefund(db, i, r, key)
  }

  /** A refund that passes the checks on its amounts. */
  function DebitRefund(db: Db, i: nat, r: Refunds.Refund, key: string): (Db, Outcome)
    requires i < |db.orders|
  {
    var o := db.orders[i];
    if o.account !in db.accounts then (db, Err(NotFound))
    else if Balance(db.ledger, Wallet(o.account, o.currency)) < r.wallet then (db, Err(Forbidden))
    else
      match Post(db.ledger, RefundTxn(o, r.wallet, key))
      case Rejected(error) => (db, Err(error))
      case Replayed(t) => SettleRefund(db, db.ledger, i, r, key, t)
      case Posted(ledger) => SettleRefund(db, ledger, i, r, key, |db.ledger|)
  }

  function RefundTxn(o: Order, wallet: int, key: string): Txn {
    Txn(Refunding(o.id, key), Refund, o.currency, o.id, 0,
        [Posting(Wallet(o.account, o.currency), Debit, wallet),
         Posting(System("cash_clearing", o.currency), Credit, wallet)])
  }

  function SettleRefund(db: Db, ledger: seq<Txn>, i: nat, r: Refunds.Refund, key: string, t: nat): (Db, Outcome)
    requires i < |db.orders| && db.orders[i].account in db.accounts
  {
    var o := db.orders[i];
    var o' := o.(refunds := o.refunds + [RefundRow(key, r, t)],
                 status := Refunds.StatusAfter(o.grant, o.price, Amounts(o.refunds), r));
    (EnsureWallet(db, o.account, o.currency).(ledger := ledger, orders := db.orders[i := o']), Ok(|o.refunds|))
  }

  /** `planOk`: whether assignMembershipTx succeeds for the product's plan. */
  function PurchaseMembership(db: Db, account: Uuid, product: Option<Product>, planOk: bool, key: string,
                              id: Uuid): (Db, Outcome)
  {
    var k := TrimSpace(key);
    if k == "" || ByteLen(k) > 160 then (db, Err(Invalid))
    else
      var i := FindPurchase(db.purchases, account, k);
      if i >= 0 then (db, Ok(i))
      else if product == None || !product.value.enabled || !ProductOk(product.value) then (db, Err(NotFound))
      else if account !in db.accounts then (db, Err(NotFound))
      else ChargeMembership(db, account, product.value.price, product.value.currency, planOk, k, id)
  }

  /** A purchase whose key is new. */
  function ChargeMembership(db: Db, account: Uuid, price: int, currency: string, planOk: bool, key: string,
                            id: Uuid): (Db, Outcome)
    requires account in db.accounts
  {
    if EnsuredStatus(db, account, currency) != Active then (db, Err(Forbidden))
    else if Balance(db.ledger, Wallet(account, currency)) < price then (db, Err(Forbidden))
    else
      match Post(db.ledger, PurchaseTxn(account, price, currency, key, id))
      case Rejected(error) => (db, Err(error))
      case Replayed(t) => SettlePurchase(db, db.ledger, planOk, PurchaseRow(key, account, price, currency, t))
      case Posted(ledger) => SettlePurchase(db, ledger, planOk, PurchaseRow(key, account, price, currency, |db.ledger|))
  }

  function PurchaseTxn(account: Uuid, price: int, currency: string, key: string, id: Uuid): Txn {
    Txn(Purchase(account, key), MembershipPurchase, currency, id, 0,
        [Posting(Wallet(account, currency), Debit, price),
         Posting(System("membership_revenue", currency), Credit, price)])
  }

  /** The debit, the purchase row and the membership commit together or not at all. */
  function SettlePurchase(db: Db, ledger: seq<Txn>, planOk: bool, row: PurchaseRow): (Db, Outcome)
    requires row.account in db.accounts
  {
    if !planOk then (db, Err(Forbidden))
    else
      (EnsureWallet(db, row.account, row.currency).(ledger := ledger, purchases := db.purchases + [row]),
       Ok(|db.purchases|))
  }

  function AdjustWallet(db: Db, account: Uuid, amount: int, currency: string, reason: string, key: string): (Db, Outcome) {
    var k, cur := TrimSpace(key), NormalizeCurrency(currency);
    if amount == 0 || TrimSpace(reason) == "" || ByteLen(reason) > 500 || k == "" || ByteLen(key) > 160
      then (db, Err(Invalid))
    else
      var replay := FindKey(db.ledger, Adjustment(account, k).Render());
      if replay >= 0 then (db, Ok(replay))
      else if account !in db.accounts then (db, Err(NotFound))
      else if EnsuredStatus(db, account, cur) != Active then (db, Err(Forbidden))
      else IssueAdjustment(db, account, amount, cur, k)
  }

  /** An adjustment whose key is new. */
  function IssueAdjustment(db: Db, account: Uuid, amount: int, currency: string, key: string): (Db, Outcome)
    requires account in db.accounts
  {
    var value := if amount < 0 then Negate64(amount) else amount;
    if amount < 0 && Balance(db.ledger, Wallet(account, currency)) < value then (db, Err(Forbidden))
    else
      match Post(db.ledger, AdjustTxn(account, amount, value, currency, key))
      case Rejected(error) => (db, Err(error))
      case Replayed(t) => (EnsureWallet(db, account, currency), Ok(t))
      case Posted(ledger) => (EnsureWallet(db, account, currency).(ledger := ledger), Ok(|db.ledger|))
  }

  function AdjustTxn(account: Uuid, amount: int, value: int, currency: string, key: string): Txn {
    var system, wallet := System("admin_adjustment", currency), Wallet(account, currency);
    Txn(Adjustment(account, key), AdminAdjustment, currency, account, amount,
        if amount < 0 then [Posting(system, Credit, value), Posting(wallet, Debit, value)]
        else [Posting(system, Debit, value), Posting(wallet, Credit, value)])
  }

  function Step(db: Db, op: Op): (Db, Outcome) {
    match op
    case SetAccount(account, active) => (db.(accounts := db.accounts[account := active]), Ok(0))
    case CreateOrder(now, ttl, account, product, ready, provider, key, id, orderNo) =>
      CreateRechargeOrder(db, now, ttl, account, product, ready, provider, key, id, orderNo)
    case Confirm(now, provider, eventId, orderNo, external, amount) =>
      ConfirmRecharge(db, now, provider, eventId, orderNo, external, amount)
    case RefundOrder(order, wallet, external, reason, key) =>
      RefundRecharge(db, order, wallet, external, reason, key)
    case BuyMembership(account, product, planOk, key, id) =>
      PurchaseMembership(db, account, product, planOk, key, id)
    case Adjust(account, amount, currency, reason, key) =>
      AdjustWallet(db, account, amount, currency, reason, key)
  }

  /** The store after a sequence of operations, committed or rolled back. */
  function Run(db: Db, ops: seq<Op>): Db
    decreases |ops|
  {
    if ops == [] then db else Run(Step(db, ops[0]).0, ops[1..])
  }

  const EMPTY: Db := Db(map[], map[], [], [], map[], [])
}
