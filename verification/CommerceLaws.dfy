/** Laws of the money store over every run of operations: conservation, credit
    exactly once, refund arithmetic, and agreement of payment callbacks. */
module CommerceLaws {
  import opened Options
  import opened Text
  import opened Keys
  import opened Ledger
  import opened Commerce
  import Refunds

  // ---- The invariant ----

  predicate LedgerOk(ledger: seq<Txn>) {
    && AllBalanced(ledger)
    && (forall i :: 0 <= i < |ledger| ==> ledger[i].key.Valid())
    && forall i, j :: 0 <= i < j < |ledger| ==> ledger[i].key != ledger[j].key
  }

  predicate OrderOk(o: Order) {
    && o.price > 0 && o.grant > 0 && IsCurrency(o.currency) && IsProvider(o.provider)
    && (o.status == Refunds.Pending ==> o.external == "" && o.paid == None && o.txn == None && o.refunds == [])
    && (o.status != Refunds.Pending ==>
          && IsClientKey(o.external) && o.paid == Some(o.price) && o.txn.Some?
          && Refunds.Accepted(o.grant, o.price, Amounts(o.refunds))
          && o.status == Refunds.StatusOf(o.grant, o.price, Amounts(o.refunds)))
    && forall j :: 0 <= j < |o.refunds| ==> IsClientKey(o.refunds[j].key)
  }

  predicate OrdersOk(orders: seq<Order>) {
    && (forall i :: 0 <= i < |orders| ==> OrderOk(orders[i]))
    && forall i, j :: 0 <= i < j < |orders| ==>
      && orders[i].id != orders[j].id
      && (orders[i].status != Refunds.Pending && orders[i].provider == orders[j].provider
          ==> orders[i].external != orders[j].external)
  }

  /** Every callback kept for an order repeats what the order itself records. */
  predicate EventOk(orders: seq<Order>, provider: string, e: Event) {
    && e.order < |orders|
    && var o := orders[e.order];
       o.provider == provider && o.status != Refunds.Pending
       && e.external == o.external && o.paid == Some(e.amount) && e.txn == o.txn
  }

  predicate EventsOk(orders: seq<Order>, events: map<(string, string), Event>) {
    forall k :: k in events ==> EventOk(orders, k.0, events[k])
  }

  predicate PaidAs(o: Order, id: Uuid, provider: string, external: string) {
    o.id == id && o.provider == provider && o.external == external && o.status != Refunds.Pending
  }

  predicate RefundedUnder(o: Order, id: Uuid, key: string) {
    o.id == id && FindRefund(o.refunds, key) >= 0
  }

  /** The business row a ledger transaction stands for. */
  predicate Backed(t: Txn, orders: seq<Order>, purchases: seq<PurchaseRow>) {
    match t.key
    case Payment(provider, external) =>
      t.kind == Recharge
      && (exists i :: 0 <= i < |orders| && PaidAs(orders[i], t.reference, provider, external))
    case Refunding(id, key) =>
      t.kind == Refund && t.reference == id
      && (exists i :: 0 <= i < |orders| && RefundedUnder(orders[i], id, key))
    case Purchase(account, key) => t.kind == MembershipPurchase && FindPurchase(purchases, account, key) >= 0
    case Adjustment(account, _) => t.kind == AdminAdjustment && t.reference == account
  }

  predicate AllBacked(ledger: seq<Txn>, orders: seq<Order>, purchases: seq<PurchaseRow>) {
    forall i :: 0 <= i < |ledger| ==> Backed(ledger[i], orders, purchases)
  }

  /** Everything transactions of one kind moved for one order. */
  function Moved(ledger: seq<Txn>, kind: Kind, reference: Uuid): int {
    if ledger == [] then 0
    else
      var t := ledger[|ledger| - 1];
      Moved(ledger[..|ledger| - 1], kind, reference)
      + if t.kind == kind && t.reference == reference then SideTotal(t.postings, Credit) else 0
  }

  /** An order is credited its grant once it is paid and never otherwise;
      what was taken back is the total of its refunds. */
  predicate CreditOk(ledger: seq<Txn>, o: Order) {
    && Moved(ledger, Recharge, o.id) == (if o.status == Refunds.Pending then 0 else o.grant)
    && Moved(ledger, Refund, o.id) == Refunds.WalletSum(Amounts(o.refunds))
  }

  predicate CreditsOk(ledger: seq<Txn>, orders: seq<Order>) {
    forall i :: 0 <= i < |orders| ==> CreditOk(ledger, orders[i])
  }

  function NetOf(o: Order): int {
    if o.status == Refunds.Pending then 0 else o.grant - Refunds.WalletSum(Amounts(o.refunds))
  }

  /** Paid grants minus refunds of one wallet. */
  function NetRecharged(orders: seq<Order>, account: Uuid, currency: string): int {
    if orders == [] then 0
    else
      var o := orders[|orders| - 1];
      NetRecharged(orders[..|orders| - 1], account, currency)
      + if o.account == account && o.currency == currency then NetOf(o) else 0
  }

  function Spent(purchases: seq<PurchaseRow>, account: Uuid, currency: string): int {
    if purchases == [] then 0
    else
      var p := purchases[|purchases| - 1];
      Spent(purchases[..|purchases| - 1], account, currency)
      + if p.account == account && p.currency == currency then p.amount else 0
  }

  /** Signed adjustments of one wallet. */
  function Adjusted(ledger: seq<Txn>, account: Uuid, currency: string): int {
    if ledger == [] then 0
    else
      var t := ledger[|ledger| - 1];
      Adjusted(ledger[..|ledger| - 1], account, currency)
      + if t.kind == AdminAdjustment && t.reference == account && t.currency == currency then t.signedAmount else 0
  }

  predicate WalletOk(ledger: seq<Txn>, orders: seq<Order>, purchases: seq<PurchaseRow>, a: Uuid, c: string) {
    && Balance(ledger, Wallet(a, c)) >= 0
    && Balance(ledger, Wallet(a, c)) == NetRecharged(orders, a, c) - Spent(purchases, a, c) + Adjusted(ledger, a, c)
  }

  ghost predicate MoneyOk(ledger: seq<Txn>, orders: seq<Order>, purchases: seq<PurchaseRow>) {
    forall a: Uuid, c: string :: WalletOk(ledger, orders, purchases, a, c)
  }

  ghost predicate RowsOk(ledger: seq<Txn>, orders: seq<Order>, events: map<(string, string), Event>,
                         purchases: seq<PurchaseRow>)
  {
    && LedgerOk(ledger)
    && OrdersOk(orders)
    && EventsOk(orders, events)
    && AllBacked(ledger, orders, purchases)
    && CreditsOk(ledger, orders)
    && MoneyOk(ledger, orders, purchases)
  }

  ghost predicate Inv(db: Db) {
    RowsOk(db.ledger, db.orders, db.events, db.purchases)
  }

  // ---- Appending and updating rows ----

  lemma MovedAppend(ledger: seq<Txn>, t: Txn, kind: Kind, reference: Uuid)
    ensures Moved(ledger + [t], kind, reference) == Moved(ledger, kind, reference)
            + if t.kind == kind && t.reference == reference then SideTotal(t.postings, Credit) else 0
  {
    assert (ledger + [t])[..|ledger|] == ledger;
  }

  lemma AdjustedAppend(ledger: seq<Txn>, t: Txn, a: Uuid, c: string)
    ensures Adjusted(ledger + [t], a, c) == Adjusted(ledger, a, c)
            + if t.kind == AdminAdjustment && t.reference == a && t.currency == c then t.signedAmount else 0
  {
    assert (ledger + [t])[..|ledger|] == ledger;
  }

  lemma SpentAppend(purchases: seq<PurchaseRow>, p: PurchaseRow, a: Uuid, c: string)
    ensures Spent(purchases + [p], a, c) == Spent(purchases, a, c)
            + if p.account == a && p.currency == c then p.amount else 0
  {
    assert (purchases + [p])[..|purchases|] == purchases;
  }

  lemma NetAppend(orders: seq<Order>, o: Order, a: Uuid, c: string)
    ensures NetRecharged(orders + [o], a, c) == NetRecharged(orders, a, c)
            + if o.account == a && o.currency == c then NetOf(o) else 0
  {
    assert (orders + [o])[..|orders|] == orders;
  }

  lemma {:induction false} NetUpdate(orders: seq<Order>, i: nat, o: Order, a: Uuid, c: string)
    requires i < |orders| && o.account == orders[i].account && o.currency == orders[i].currency
    ensures NetRecharged(orders[i := o], a, c) == NetRecharged(orders, a, c)
            + if o.account == a && o.currency == c then NetOf(o) - NetOf(orders[i]) else 0
  {
    var n := |orders| - 1;
    if i < n {
      assert orders[i := o][..n] == orders[..n][i := o];
      NetUpdate(orders[..n], i, o, a, c);
    } else {
      assert orders[i := o][..n] == orders[..n];
    }
  }

  lemma AmountsAppend(refunds: seq<RefundRow>, r: RefundRow)
    ensures Amounts(refunds + [r]) == Amounts(refunds) + [r.amounts]
  {
  }

  lemma FindRefundAppend(refunds: seq<RefundRow>, r: RefundRow, key: string)
    ensures FindRefund(refunds + [r], key) ==
            if FindRefund(refunds, key) >= 0 then FindRefund(refunds, key) else if r.key == key then |refunds| else -1
  {
    assert (refunds + [r])[..|refunds|] == refunds;
  }

  lemma FindPurchaseAppend(purchases: seq<PurchaseRow>, p: PurchaseRow, account: Uuid, key: string)
    ensures FindPurchase(purchases + [p], account, key) ==
            if FindPurchase(purchases, account, key) >= 0 then FindPurchase(purchases, account, key)
            else if p.account == account && p.key == key then |purchases| else -1
  {
    assert (purchases + [p])[..|purchases|] == purchases;
  }

  lemma LedgerAppend(ledger: seq<Txn>, t: Txn)
    requires LedgerOk(ledger) && t.key.Valid() && Balanced(t)
    requires forall i :: 0 <= i < |ledger| ==> ledger[i].key != t.key
    ensures LedgerOk(ledger + [t])
  {
  }

  /** A key the ledger does not hold is posted unchanged; a key it holds is replayed. */
  lemma PostOutcome(ledger: seq<Txn>, t: Txn)
    requires LedgerOk(ledger) && t.key.Valid() && Balanced(t) && IsCurrency(t.currency)
    ensures var i := FindKey(ledger, t.key.Render());
            && (i >= 0 ==> Post(ledger, t) == Replayed(i) && ledger[i].key == t.key)
            && (i == -1 ==> Post(ledger, t) == Posted(ledger + [t]) && LedgerOk(ledger + [t]))
  {
    RenderFits(t.key);
    FindKeyMeansSameKey(ledger, t.key);
    CurrencyIsNormal(t.currency);
    assert t.(currency := NormalizeCurrency(t.currency)) == t;
    if FindKey(ledger, t.key.Render()) == -1 { LedgerAppend(ledger, t); }
  }

  lemma {:induction false} UnreferencedMovesNothing(ledger: seq<Txn>, kind: Kind, id: Uuid)
    requires forall i :: 0 <= i < |ledger| && ledger[i].kind == kind ==> ledger[i].reference != id
    ensures Moved(ledger, kind, id) == 0
  {
    if ledger != [] { UnreferencedMovesNothing(ledger[..|ledger| - 1], kind, id); }
  }

  /** A transaction on one wallet changes the balance of that wallet only. */
  lemma WalletDelta(p: Posting, q: Posting, account: Uuid, currency: string, a: Uuid, c: string)
    requires p.account == Wallet(account, currency) && q.account.System?
    ensures Delta([p, q], Wallet(a, c)) == if a == account && c == currency then Signed(p) else 0
    ensures Delta([q, p], Wallet(a, c)) == if a == account && c == currency then Signed(p) else 0
  {
    TwoPostings(p, q, Wallet(a, c));
    TwoPostings(q, p, Wallet(a, c));
  }

  lemma TransferBalanced(t: Txn, p: Posting, q: Posting)
    requires t.postings == [p, q] && p.side != q.side && p.amount == q.amount > 0
    requires p.account.currency == t.currency && q.account.currency == t.currency
    ensures Balanced(t) && SideTotal(t.postings, Credit) == p.amount
  {
    TwoPostings(p, q, p.account);
  }

  // ---- Every committed operation keeps the invariant ----

  /** The rows that back earlier transactions survive. */
  predicate RowsSurvive(orders: seq<Order>, purchases: seq<PurchaseRow>, orders': seq<Order>, purchases': seq<PurchaseRow>) {
    && |orders| <= |orders'|
    && (forall i :: 0 <= i < |orders| ==> Survives(orders[i], orders'[i]))
    && |purchases| <= |purchases'| && purchases'[..|purchases|] == purchases
  }

  /** A row keeps everything but its payment and refunds; payment data and refunds, once
      there, stay; and a row that is still pending has not changed at all. */
  predicate Survives(o: Order, o': Order) {
    && o' == o.(status := o'.status, external := o'.external, paid := o'.paid, txn := o'.txn, refunds := o'.refunds)
    && (o.status != Refunds.Pending ==>
          o'.status != Refunds.Pending && o'.external == o.external && o'.paid == o.paid && o'.txn == o.txn)
    && (o'.status == Refunds.Pending ==> o' == o)
    && |o.refunds| <= |o'.refunds| && o'.refunds[..|o.refunds|] == o.refunds
  }

  lemma {:induction false} FindPurchaseStable(purchases: seq<PurchaseRow>, purchases': seq<PurchaseRow>, account: Uuid, key: string)
    requires |purchases| <= |purchases'| && purchases'[..|purchases|] == purchases
    requires FindPurchase(purchases, account, key) >= 0
    ensures FindPurchase(purchases', account, key) == FindPurchase(purchases, account, key)
    decreases |purchases'|
  {
    if |purchases'| > |purchases| {
      var front := purchases'[..|purchases'| - 1];
      assert front[..|purchases|] == purchases;
      FindPurchaseStable(purchases, front, account, key);
    } else {
      assert purchases' == purchases;
    }
  }

  lemma {:induction false} FindRefundStable(refunds: seq<RefundRow>, refunds': seq<RefundRow>, key: string)
    requires |refunds| <= |refunds'| && refunds'[..|refunds|] == refunds
    requires FindRefund(refunds, key) >= 0
    ensures FindRefund(refunds', key) == FindRefund(refunds, key)
    decreases |refunds'|
  {
    if |refunds'| > |refunds| {
      var front := refunds'[..|refunds'| - 1];
      assert front[..|refunds|] == refunds;
      FindRefundStable(refunds, front, key);
    } else {
      assert refunds' == refunds;
    }
  }

  lemma BackedSurvives(t: Txn, orders: seq<Order>, purchases: seq<PurchaseRow>,
                       orders': seq<Order>, purchases': seq<PurchaseRow>)
    requires Backed(t, orders, purchases) && RowsSurvive(orders, purchases, orders', purchases')
    ensures Backed(t, orders', purchases')
  {
    match t.key
    case Payment(provider, external) =>
      var i :| 0 <= i < |orders| && PaidAs(orders[i], t.reference, provider, external);
      assert Survives(orders[i], orders'[i]) && PaidAs(orders'[i], t.reference, provider, external);
    case Refunding(id, key) =>
      var i :| 0 <= i < |orders| && RefundedUnder(orders[i], id, key);
      assert Survives(orders[i], orders'[i]);
      FindRefundStable(orders[i].refunds, orders'[i].refunds, key);
      assert RefundedUnder(orders'[i], id, key);
    case Purchase(account, key) => FindPurchaseStable(purchases, purchases', account, key);
    case Adjustment(_, _) =>
  }

  lemma AllBackedAppend(ledger: seq<Txn>, t: Txn, orders: seq<Order>, purchases: seq<PurchaseRow>,
                        orders': seq<Order>, purchases': seq<PurchaseRow>)
    requires AllBacked(ledger, orders, purchases) && RowsSurvive(orders, purchases, orders', purchases')
    requires Backed(t, orders', purchases')
    ensures AllBacked(ledger, orders', purchases') && AllBacked(ledger + [t], orders', purchases')
  {
    forall i | 0 <= i < |ledger| ensures Backed(ledger[i], orders', purchases') {
      BackedSurvives(ledger[i], orders, purchases, orders', purchases');
    }
  }

  lemma EventsSurvive(orders: seq<Order>, events: map<(string, string), Event>, orders': seq<Order>)
    requires EventsOk(orders, events) && |orders| <= |orders'|
    requires forall i :: 0 <= i < |orders| ==> Survives(orders[i], orders'[i])
    ensures EventsOk(orders', events)
  {
    forall k | k in events ensures EventOk(orders', k.0, events[k]) {
      assert EventOk(orders, k.0, events[k]);
      assert Survives(orders[events[k].order], orders'[events[k].order]);
    }
  }

  /** Updating one order: what each part of the invariant needs of the new row. */
  lemma OrderUpdate(orders: seq<Order>, i: nat, o: Order)
    requires OrdersOk(orders) && i < |orders| && OrderOk(o) && o.id == orders[i].id && o.provider == orders[i].provider
    requires o.status != Refunds.Pending && forall j :: 0 <= j < |orders| && j != i ==>
      (orders[j].provider == o.provider ==> orders[j].external != o.external)
    ensures OrdersOk(orders[i := o])
  {
  }

  lemma CreditsKept(ledger: seq<Txn>, orders: seq<Order>, t: Txn, i: nat, o: Order)
    requires CreditsOk(ledger, orders) && i < |orders| && CreditOk(ledger + [t], o)
    requires forall j :: 0 <= j < |orders| && j != i ==> orders[j].id != t.reference
    ensures CreditsOk(ledger + [t], orders[i := o])
  {
    forall j | 0 <= j < |orders| && j != i ensures CreditOk(ledger + [t], orders[j]) {
      MovedAppend(ledger, t, Recharge, orders[j].id);
      MovedAppend(ledger, t, Refund, orders[j].id);
    }
  }

  lemma CreditsOfOther(ledger: seq<Txn>, orders: seq<Order>, t: Txn)
    requires CreditsOk(ledger, orders) && t.kind != Recharge && t.kind != Refund
    ensures CreditsOk(ledger + [t], orders)
  {
    forall j | 0 <= j < |orders| ensures CreditOk(ledger + [t], orders[j]) {
      MovedAppend(ledger, t, Recharge, orders[j].id);
      MovedAppend(ledger, t, Refund, orders[j].id);
    }
  }

  /** A payment or refund row moves the wallet of its order by the change in the order's net amount. */
  lemma MoneyForOrder(ledger: seq<Txn>, orders: seq<Order>, purchases: seq<PurchaseRow>, i: nat, o: Order, t: Txn,
                      p: Posting, q: Posting)
    requires MoneyOk(ledger, orders, purchases) && i < |orders|
    requires o.account == orders[i].account && o.currency == orders[i].currency
    requires t.kind != AdminAdjustment && (t.postings == [p, q] || t.postings == [q, p])
    requires p.account == Wallet(o.account, o.currency) && q.account.System?
    requires Signed(p) == NetOf(o) - NetOf(orders[i])
    requires Balance(ledger, p.account) + Signed(p) >= 0
    ensures MoneyOk(ledger + [t], orders[i := o], purchases)
  {
    var ledger', orders' := ledger + [t], orders[i := o];
    forall a: Uuid, c: string ensures WalletOk(ledger', orders', purchases, a, c) {
      assert WalletOk(ledger, orders, purchases, a, c);
      BalanceOfAppend(ledger, t, Wallet(a, c));
      WalletDelta(p, q, o.account, o.currency, a, c);
      NetUpdate(orders, i, o, a, c);
      AdjustedAppend(ledger, t, a, c);
    }
  }

  /** One order row replaced, together with the ledger transaction that pays or refunds it. */
  lemma OrderCommit(ledger: seq<Txn>, orders: seq<Order>, events: map<(string, string), Event>,
                    purchases: seq<PurchaseRow>, i: nat, o: Order, t: Txn, p: Posting, q: Posting)
    requires RowsOk(ledger, orders, events, purchases) && i < |orders|
    requires OrderOk(o) && Survives(orders[i], o) && o.account == orders[i].account && o.currency == orders[i].currency
    requires o.status != Refunds.Pending
    requires forall j :: 0 <= j < |orders| && j != i ==> (orders[j].provider == o.provider ==> orders[j].external != o.external)
    requires LedgerOk(ledger + [t]) && (t.kind == Recharge || t.kind == Refund) && t.reference == o.id
    requires Backed(t, orders[i := o], purchases) && CreditOk(ledger + [t], o)
    requires t.postings == [p, q] || t.postings == [q, p]
    requires p.account == Wallet(o.account, o.currency) && q.account.System?
    requires Signed(p) == NetOf(o) - NetOf(orders[i]) && Balance(ledger, p.account) + Signed(p) >= 0
    ensures RowsOk(ledger + [t], orders[i := o], events, purchases)
  {
    OrderUpdate(orders, i, o);
    OrderCommitBooks(ledger, orders, events, purchases, i, o, t);
    MoneyForOrder(ledger, orders, purchases, i, o, t, p, q);
  }

  lemma OrderCommitBooks(ledger: seq<Txn>, orders: seq<Order>, events: map<(string, string), Event>,
                         purchases: seq<PurchaseRow>, i: nat, o: Order, t: Txn)
    requires EventsOk(orders, events) && AllBacked(ledger, orders, purchases) && CreditsOk(ledger, orders)
    requires i < |orders| && Survives(orders[i], o)
    requires forall j :: 0 <= j < |orders| && j != i ==> orders[j].id != t.reference
    requires Backed(t, orders[i := o], purchases) && CreditOk(ledger + [t], o)
    ensures EventsOk(orders[i := o], events) && AllBacked(ledger + [t], orders[i := o], purchases)
    ensures CreditsOk(ledger + [t], orders[i := o])
  {
    var orders' := orders[i := o];
    assert RowsSurvive(orders, purchases, orders', purchases);
    AllBackedAppend(ledger, t, orders, purchases, orders', purchases);
    EventsSurvive(orders, events, orders');
    CreditsKept(ledger, orders, t, i, o);
  }

  /** No refund, purchase or payment key is in the ledger before its own row exists. */
  lemma KeyUnused(db: Db, k: Key)
    requires Inv(db) && k.Valid()
    requires match k
             case Payment(provider, external) =>
               forall i :: 0 <= i < |db.orders| ==> !PaidAs(db.orders[i], db.orders[i].id, provider, external)
             case Refunding(id, key) => forall i :: 0 <= i < |db.orders| ==> !RefundedUnder(db.orders[i], id, key)
             case Purchase(account, key) => FindPurchase(db.purchases, account, key) == -1
             case Adjustment(_, _) => FindKey(db.ledger, k.Render()) == -1
    ensures FindKey(db.ledger, k.Render()) == -1
  {
    forall j | 0 <= j < |db.ledger| ensures !k.Adjustment? ==> db.ledger[j].key != k {
      assert Backed(db.ledger[j], db.orders, db.purchases);
    }
    FindKeyMeansSameKey(db.ledger, k);
  }

  lemma PaymentRow(o: Order, ext: string, t: nat) returns (o': Order)
    requires OrderOk(o) && o.status == Refunds.Pending && IsClientKey(ext)
    ensures o' == o.(status := Refunds.Paid, external := ext, paid := Some(o.price), txn := Some(t))
    ensures OrderOk(o') && Survives(o, o') && NetOf(o') - NetOf(o) == o.grant && Refunds.WalletSum(Amounts(o'.refunds)) == 0
  {
    assert Amounts([]) == [];
    o' := o.(status := Refunds.Paid, external := ext, paid := Some(o.price), txn := Some(t));
  }

  /** A payment key already in the ledger belongs to another order of the same
      provider and external id, which the unique constraint then reports. */
  lemma ReplayIsRefused(db: Db, i: nat, ext: string, k: nat)
    requires Inv(db) && i < |db.orders| && db.orders[i].status == Refunds.Pending && k < |db.ledger|
    requires db.ledger[k].key == Payment(db.orders[i].provider, ext)
    ensures UniqueViolated(db.orders, i, ext, k)
  {
    assert Backed(db.ledger[k], db.orders, db.purchases);
    var j :| 0 <= j < |db.orders| && PaidAs(db.orders[j], db.ledger[k].reference, db.orders[i].provider, ext);
  }

  lemma EventAdded(orders: seq<Order>, events: map<(string, string), Event>, key: (string, string), e: Event)
    requires EventsOk(orders, events) && EventOk(orders, key.0, e)
    ensures EventsOk(orders, events[key := e])
  {
  }

  /** The first payment: the ledger replay path never commits, and the invariant is kept. */
  lemma PaymentKeeps(db: Db, i: nat, ev: string, ext: string)
    requires Inv(db) && i < |db.orders| && db.orders[i].status == Refunds.Pending && IsClientKey(ext)
    ensures var (db', r) := FirstPayment(db, i, ev, ext, db.orders[i].price);
            Inv(db') && (r.Ok? ==> db'.ledger == db.ledger + [RechargeTxn(db.orders[i], ext)])
  {
    var o := db.orders[i];
    var (db', r) := FirstPayment(db, i, ev, ext, o.price);
    var t := RechargeTxn(o, ext);
    assert OrderOk(o);
    TransferBalanced(t, t.postings[0], t.postings[1]);
    PostOutcome(db.ledger, t);
    var k := FindKey(db.ledger, t.key.Render());
    if k >= 0 {
      ReplayIsRefused(db, i, ext, k);
    } else if r.Ok? {
      var o' := PaymentRow(o, ext, |db.ledger|);
      PaymentCommit(db, i, ext, o', t);
      EventAdded(db.orders[i := o'], db.events, (o.provider, ev), Event(i, ext, o.price, Some(|db.ledger|)));
    }
  }

  lemma PaymentCommit(db: Db, i: nat, ext: string, o': Order, t: Txn)
    requires Inv(db) && i < |db.orders| && db.orders[i].status == Refunds.Pending
    requires t == RechargeTxn(db.orders[i], ext) && LedgerOk(db.ledger + [t]) && SideTotal(t.postings, Credit) == o'.grant
    requires !UniqueViolated(db.orders, i, ext, |db.ledger|)
    requires o' == db.orders[i].(status := Refunds.Paid, external := ext, paid := Some(db.orders[i].price),
                                 txn := Some(|db.ledger|))
    requires OrderOk(o') && Survives(db.orders[i], o') && NetOf(o') - NetOf(db.orders[i]) == o'.grant
    requires Refunds.WalletSum(Amounts(o'.refunds)) == 0
    ensures RowsOk(db.ledger + [t], db.orders[i := o'], db.events, db.purchases)
  {
    assert PaidAs(db.orders[i := o'][i], o'.id, o'.provider, ext);
    assert CreditOk(db.ledger, db.orders[i]);
    MovedAppend(db.ledger, t, Recharge, o'.id);
    MovedAppend(db.ledger, t, Refund, o'.id);
    assert WalletOk(db.ledger, db.orders, db.purchases, o'.account, o'.currency);
    OrderCommit(db.ledger, db.orders, db.events, db.purchases, i, o', t, t.postings[1], t.postings[0]);
  }

  lemma RefundRowOk(o: Order, r: Refunds.Refund, k: string, t: nat) returns (o': Order)
    requires OrderOk(o) && IsClientKey(k) && FindRefund(o.refunds, k) == -1
    requires o.status == Refunds.Paid || o.status == Refunds.PartiallyRefunded
    requires Refunds.Accepts(o.grant, o.price, Amounts(o.refunds), r)
    ensures o' == o.(refunds := o.refunds + [RefundRow(k, r, t)],
                     status := Refunds.StatusAfter(o.grant, o.price, Amounts(o.refunds), r))
    ensures OrderOk(o') && Survives(o, o') && NetOf(o') - NetOf(o) == -r.wallet && RefundedUnder(o', o.id, k)
    ensures Refunds.WalletSum(Amounts(o'.refunds)) == Refunds.WalletSum(Amounts(o.refunds)) + r.wallet
  {
    var row := RefundRow(k, r, t);
    o' := o.(refunds := o.refunds + [row], status := Refunds.StatusAfter(o.grant, o.price, Amounts(o.refunds), r));
    AmountsAppend(o.refunds, row);
    Refunds.SumsOfAppend(Amounts(o.refunds), r);
    Refunds.AcceptedAppend(o.grant, o.price, Amounts(o.refunds), r);
    FindRefundAppend(o.refunds, row, k);
  }

  lemma RefundSettles(db: Db, i: nat, r: Refunds.Refund, k: string)
    requires i < |db.orders| && OrderOk(db.orders[i])
    requires Post(db.ledger, RefundTxn(db.orders[i], r.wallet, k)) == Posted(db.ledger + [RefundTxn(db.orders[i], r.wallet, k)])
    requires r.wallet > 0 && r.external > 0
    ensures var (db', res) := IssueRefund(db, i, r, k);
      var o := db.orders[i];
      && (res.Err? ==> db' == db)
      && (res.Ok? ==>
            && (o.status == Refunds.Paid || o.status == Refunds.PartiallyRefunded)
            && Refunds.Accepts(o.grant, o.price, Amounts(o.refunds), r)
            && Balance(db.ledger, Wallet(o.account, o.currency)) >= r.wallet && o.account in db.accounts
            && db' == SettleRefund(db, db.ledger + [RefundTxn(o, r.wallet, k)], i, r, k, |db.ledger|).0)
  {
  }

  lemma RefundKeyUnused(db: Db, i: nat, k: string)
    requires Inv(db) && i < |db.orders| && IsClientKey(k) && FindRefund(db.orders[i].refunds, k) == -1
    ensures FindKey(db.ledger, Refunding(db.orders[i].id, k).Render()) == -1
  {
    forall j | 0 <= j < |db.orders| ensures !RefundedUnder(db.orders[j], db.orders[i].id, k) {
      if j < i { assert db.orders[j].id != db.orders[i].id; } else if i < j { assert db.orders[i].id != db.orders[j].id; }
    }
    KeyUnused(db, Refunding(db.orders[i].id, k));
  }

  lemma RefundTxnBalanced(o: Order, wallet: int, k: string)
    requires wallet > 0
    ensures Balanced(RefundTxn(o, wallet, k)) && SideTotal(RefundTxn(o, wallet, k).postings, Credit) == wallet
  {
    var t := RefundTxn(o, wallet, k);
    TransferBalanced(t, t.postings[0], t.postings[1]);
  }

  lemma RefundPosts(db: Db, i: nat, wallet: int, k: string)
    requires Inv(db) && i < |db.orders| && IsClientKey(k) && FindRefund(db.orders[i].refunds, k) == -1 && wallet > 0
    ensures var t := RefundTxn(db.orders[i], wallet, k);
      Post(db.ledger, t) == Posted(db.ledger + [t]) && LedgerOk(db.ledger + [t]) && SideTotal(t.postings, Credit) == wallet
  {
    assert OrderOk(db.orders[i]);
    RefundTxnBalanced(db.orders[i], wallet, k);
    RefundKeyUnused(db, i, k);
    PostOutcome(db.ledger, RefundTxn(db.orders[i], wallet, k));
  }

  lemma RefundKeeps(db: Db, i: nat, r: Refunds.Refund, k: string)
    requires Inv(db) && i < |db.orders| && IsClientKey(k) && FindRefund(db.orders[i].refunds, k) == -1
    requires r.wallet > 0 && r.external > 0
    ensures var (db', res) := IssueRefund(db, i, r, k);
            Inv(db') && (res.Ok? ==> db'.ledger == db.ledger + [RefundTxn(db.orders[i], r.wallet, k)])
  {
    var o := db.orders[i];
    var t := RefundTxn(o, r.wallet, k);
    assert OrderOk(o);
    RefundPosts(db, i, r.wallet, k);
    RefundSettles(db, i, r, k);
    if IssueRefund(db, i, r, k).1.Ok? {
      var o' := RefundRowOk(o, r, k, |db.ledger|);
      RefundCommit(db, i, k, o', t, r.wallet);
    }
  }

  lemma RefundCommit(db: Db, i: nat, k: string, o': Order, t: Txn, wallet: int)
    requires Inv(db) && i < |db.orders| && db.orders[i].status != Refunds.Pending && o'.status != Refunds.Pending
    requires t == RefundTxn(db.orders[i], wallet, k) && LedgerOk(db.ledger + [t]) && SideTotal(t.postings, Credit) == wallet
    requires OrderOk(o') && Survives(db.orders[i], o') && NetOf(o') - NetOf(db.orders[i]) == -wallet
    requires o'.account == db.orders[i].account && o'.currency == db.orders[i].currency && o'.grant == db.orders[i].grant
    requires RefundedUnder(o', o'.id, k)
    requires Refunds.WalletSum(Amounts(o'.refunds)) == Refunds.WalletSum(Amounts(db.orders[i].refunds)) + wallet
    requires Balance(db.ledger, Wallet(o'.account, o'.currency)) >= wallet
    ensures RowsOk(db.ledger + [t], db.orders[i := o'], db.events, db.purchases)
  {
    assert RefundedUnder(db.orders[i := o'][i], o'.id, k);
    assert CreditOk(db.ledger, db.orders[i]);
    MovedAppend(db.ledger, t, Recharge, o'.id);
    MovedAppend(db.ledger, t, Refund, o'.id);
    OrderCommit(db.ledger, db.orders, db.events, db.purchases, i, o', t, t.postings[0], t.postings[1]);
  }

  /** A transaction outside the orders: purchases and adjustments. */
  lemma OtherCommit(ledger: seq<Txn>, orders: seq<Order>, events: map<(string, string), Event>,
                    purchases: seq<PurchaseRow>, purchases': seq<PurchaseRow>, t: Txn)
    requires RowsOk(ledger, orders, events, purchases) && LedgerOk(ledger + [t])
    requires t.kind != Recharge && t.kind != Refund
    requires RowsSurvive(orders, purchases, orders, purchases') && Backed(t, orders, purchases')
    requires MoneyOk(ledger + [t], orders, purchases')
    ensures RowsOk(ledger + [t], orders, events, purchases')
  {
    AllBackedAppend(ledger, t, orders, purchases, orders, purchases');
    CreditsOfOther(ledger, orders, t);
  }

  lemma SetAccountKeeps(db: Db, account: Uuid, active: bool)
    requires Inv(db)
    ensures Inv(db.(accounts := db.accounts[account := active]))
  {
  }

  lemma MoneyForPurchase(ledger: seq<Txn>, orders: seq<Order>, purchases: seq<PurchaseRow>, row: PurchaseRow, t: Txn,
                         p: Posting, q: Posting)
    requires MoneyOk(ledger, orders, purchases)
    requires t.postings == [p, q] && t.kind == MembershipPurchase && q.account.System?
    requires p == Posting(Wallet(row.account, row.currency), Debit, row.amount)
    requires Balance(ledger, p.account) >= row.amount
    ensures MoneyOk(ledger + [t], orders, purchases + [row])
  {
    var ledger', purchases' := ledger + [t], purchases + [row];
    forall a: Uuid, c: string ensures WalletOk(ledger', orders, purchases', a, c) {
      assert WalletOk(ledger, orders, purchases, a, c);
      BalanceOfAppend(ledger, t, Wallet(a, c));
      WalletDelta(p, q, row.account, row.currency, a, c);
      SpentAppend(purchases, row, a, c);
      AdjustedAppend(ledger, t, a, c);
    }
  }

  lemma PurchaseKeeps(db: Db, account: Uuid, price: int, currency: string, planOk: bool, k: string, id: Uuid)
    requires Inv(db) && account in db.accounts && IsClientKey(k) && FindPurchase(db.purchases, account, k) == -1
    requires price > 0 && IsCurrency(currency)
    ensures var (db', r) := ChargeMembership(db, account, price, currency, planOk, k, id);
            Inv(db') && (r.Ok? ==> db'.ledger == db.ledger + [PurchaseTxn(account, price, currency, k, id)])
  {
    var row := PurchaseRow(k, account, price, currency, |db.ledger|);
    PurchasePosts(db, row, id);
    if ChargeMembership(db, account, price, currency, planOk, k, id).1.Ok? {
      PurchaseCommit(db, row, id);
    }
  }

  lemma PurchasePosts(db: Db, row: PurchaseRow, id: Uuid)
    requires Inv(db) && IsClientKey(row.key) && FindPurchase(db.purchases, row.account, row.key) == -1
    requires row.amount > 0 && IsCurrency(row.currency)
    ensures var t := PurchaseTxn(row.account, row.amount, row.currency, row.key, id);
            Post(db.ledger, t) == Posted(db.ledger + [t]) && LedgerOk(db.ledger + [t])
  {
    var t := PurchaseTxn(row.account, row.amount, row.currency, row.key, id);
    TransferBalanced(t, t.postings[0], t.postings[1]);
    KeyUnused(db, t.key);
    PostOutcome(db.ledger, t);
  }

  lemma PurchaseCommit(db: Db, row: PurchaseRow, id: Uuid)
    requires Inv(db) && Balance(db.ledger, Wallet(row.account, row.currency)) >= row.amount
    requires FindPurchase(db.purchases, row.account, row.key) == -1
    requires LedgerOk(db.ledger + [PurchaseTxn(row.account, row.amount, row.currency, row.key, id)])
    ensures RowsOk(db.ledger + [PurchaseTxn(row.account, row.amount, row.currency, row.key, id)],
                   db.orders, db.events, db.purchases + [row])
  {
    var t := PurchaseTxn(row.account, row.amount, row.currency, row.key, id);
    FindPurchaseAppend(db.purchases, row, row.account, row.key);
    MoneyForPurchase(db.ledger, db.orders, db.purchases, row, t, t.postings[0], t.postings[1]);
    OtherCommit(db.ledger, db.orders, db.events, db.purchases, db.purchases + [row], t);
  }

  lemma MoneyForAdjustment(ledger: seq<Txn>, orders: seq<Order>, purchases: seq<PurchaseRow>, t: Txn,
                           p: Posting, q: Posting)
    requires MoneyOk(ledger, orders, purchases)
    requires t.postings == [q, p] && t.kind == AdminAdjustment && q.account.System?
    requires p.account == Wallet(t.reference, t.currency) && Signed(p) == t.signedAmount
    requires Balance(ledger, p.account) + t.signedAmount >= 0
    ensures MoneyOk(ledger + [t], orders, purchases)
  {
    var ledger' := ledger + [t];
    forall a: Uuid, c: string ensures WalletOk(ledger', orders, purchases, a, c) {
      assert WalletOk(ledger, orders, purchases, a, c);
      BalanceOfAppend(ledger, t, Wallet(a, c));
      WalletDelta(p, q, t.reference, t.currency, a, c);
      AdjustedAppend(ledger, t, a, c);
    }
  }

  /** The minimum int64 negates to itself, so its posting has a negative amount and is refused. */
  lemma MinimumIsNeverPosted(db: Db, account: Uuid, currency: string, reason: string, key: string)
    requires FindKey(db.ledger, Adjustment(account, TrimSpace(key)).Render()) == -1
    ensures var (db', r) := AdjustWallet(db, account, MIN_INT64, currency, reason, key);
            db' == db && r.Err?
  {
    if TrimSpace(key) != "" && ByteLen(key) <= 160 && account in db.accounts {
      ClientKeyAfterTrim(key);
      MinimumIsRejected(db, account, NormalizeCurrency(currency), TrimSpace(key));
    }
  }

  lemma NegativeIsRejected(ledger: seq<Txn>, t: Txn)
    requires t.key.Valid() && FindKey(ledger, t.key.Render()) == -1 && !AllPositive(t.postings)
    ensures Post(ledger, t).Rejected?
  {
    RenderFits(t.key);
  }

  lemma MinimumIsRejected(db: Db, account: Uuid, currency: string, key: string)
    requires account in db.accounts && IsClientKey(key) && FindKey(db.ledger, Adjustment(account, key).Render()) == -1
    ensures var (db', r) := IssueAdjustment(db, account, MIN_INT64, currency, key); db' == db && r.Err?
  {
    var t := AdjustTxn(account, MIN_INT64, MIN_INT64, currency, key);
    assert t.postings[0].amount == MIN_INT64;
    NegativeIsRejected(db.ledger, t);
  }

  lemma ClientKeyAfterTrim(key: string)
    requires TrimSpace(key) != "" && ByteLen(key) <= 160
    ensures IsClientKey(TrimSpace(key))
  {
    TrimmedIsFixed(key);
    TrimShrinks(key);
    TrimShrinks(TrimLeft(key));
  }

  lemma AdjustKeeps(db: Db, account: Uuid, amount: int, currency: string, reason: string, key: string)
    requires Inv(db)
    ensures var (db', r) := AdjustWallet(db, account, amount, currency, reason, key);
            Inv(db') && (db' == db || (r.Ok? && |db'.ledger| == |db.ledger| + 1))
  {
    var k, cur := TrimSpace(key), NormalizeCurrency(currency);
    var (db', r) := AdjustWallet(db, account, amount, currency, reason, key);
    if db' != db {
      ClientKeyAfterTrim(key);
      AdjustCommits(db, account, amount, cur, k);
    }
  }

  lemma PostedCurrency(ledger: seq<Txn>, t: Txn)
    requires Post(ledger, t).Posted?
    ensures IsCurrency(NormalizeCurrency(t.currency)) && AllPositive(t.postings)
    ensures forall i :: 0 <= i < |t.postings| ==> t.postings[i].account.currency == NormalizeCurrency(t.currency)
  {
  }

  lemma AdjustCommits(db: Db, account: Uuid, amount: int, cur: string, k: string)
    requires Inv(db) && IsClientKey(k) && amount != 0
    requires FindKey(db.ledger, Adjustment(account, k).Render()) == -1
    requires amount < 0 ==> Balance(db.ledger, Wallet(account, cur)) >= Negate64(amount)
    ensures var t := AdjustTxn(account, amount, if amount < 0 then Negate64(amount) else amount, cur, k);
            && !Post(db.ledger, t).Replayed?
            && (Post(db.ledger, t).Posted? ==>
                  && |Post(db.ledger, t).ledger| == |db.ledger| + 1
                  && RowsOk(Post(db.ledger, t).ledger, db.orders, db.events, db.purchases))
  {
    var t := AdjustTxn(account, amount, if amount < 0 then Negate64(amount) else amount, cur, k);
    assert WalletOk(db.ledger, db.orders, db.purchases, account, cur);
    RenderFits(t.key);
    if Post(db.ledger, t).Posted? {
      PostedCurrency(db.ledger, t);
      assert t.postings[0].amount > 0 && t.postings[0].account.currency == cur;
      AdjustLedger(db, t, t.postings[1], t.postings[0]);
      AdjustCommit(db, t, t.postings[1], t.postings[0]);
    }
  }

  lemma AdjustLedger(db: Db, t: Txn, p: Posting, q: Posting)
    requires LedgerOk(db.ledger) && t.key.Valid() && FindKey(db.ledger, t.key.Render()) == -1
    requires t.postings == [q, p] && p.amount == q.amount > 0 && p.side != q.side && IsCurrency(t.currency)
    requires p.account.currency == q.account.currency == t.currency
    ensures Post(db.ledger, t) == Posted(db.ledger + [t]) && LedgerOk(db.ledger + [t])
  {
    TransferBalanced(t, q, p);
    PostOutcome(db.ledger, t);
  }

  lemma AdjustCommit(db: Db, t: Txn, p: Posting, q: Posting)
    requires Inv(db) && LedgerOk(db.ledger + [t])
    requires t.key.Adjustment? && t.key.account == t.reference && t.kind == AdminAdjustment && t.postings == [q, p]
    requires p.account == Wallet(t.reference, t.currency) && q.account.System?
    requires Signed(p) == t.signedAmount && Balance(db.ledger, p.account) + t.signedAmount >= 0
    ensures RowsOk(db.ledger + [t], db.orders, db.events, db.purchases)
  {
    MoneyForAdjustment(db.ledger, db.orders, db.purchases, t, p, q);
    assert RowsSurvive(db.orders, db.purchases, db.orders, db.purchases);
    OtherCommit(db.ledger, db.orders, db.events, db.purchases, db.purchases, t);
  }
}
