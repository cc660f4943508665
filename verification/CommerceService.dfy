/** The money operations as the service performs them: inside a transaction it
    writes row after row, and an error rolls everything back. Each method is
    proved to be the atomic step of module Commerce. */
module CommerceService {
  import opened Options
  import opened Text
  import opened Keys
  import opened Ledger
  import opened Commerce
  import Refunds

  class Service {
    var accounts: map<Uuid, bool>
    var wallets: map<(Uuid, string), WalletStatus>
    var ledger: seq<Txn>
    var orders: seq<Order>
    var events: map<(string, string), Event>
    var purchases: seq<PurchaseRow>

    function State(): Db
      reads this
    {
      Db(accounts, wallets, ledger, orders, events, purchases)
    }

    constructor ()
      ensures State() == EMPTY
    {
      accounts, wallets, ledger, orders, events, purchases := map[], map[], [], [], map[], [];
    }

    method Rollback(saved: Db)
      modifies this
      ensures State() == saved
    {
      accounts, wallets, ledger := saved.accounts, saved.wallets, saved.ledger;
      orders, events, purchases := saved.orders, saved.events, saved.purchases;
    }

    /** ensureWalletTx: insert the wallet, then bring its status in line with the account. */
    method EnsureWallet(account: Uuid, currency: string) returns (status: WalletStatus)
      requires account in accounts
      modifies this`wallets
      ensures State() == Commerce.EnsureWallet(old(State()), account, currency)
      ensures status == EnsuredStatus(old(State()), account, currency)
    {
      var k := (account, currency);
      if k !in wallets {
        wallets := wallets[k := if accounts[account] then Active else Frozen];
      }
      status := wallets[k];
      if status != Closed {
        status := if accounts[account] then Active else Frozen;
      }
      wallets := wallets[k := status];
    }

    /** postLedgerTx within the open transaction; a replay or an error writes nothing. */
    method PostTx(t: Txn) returns (r: PostResult)
      modifies this`ledger
      ensures r == Post(old(ledger), t)
      ensures ledger == if r.Posted? then r.ledger else old(ledger)
    {
      r := PostLedgerTx(ledger, t);
      if r.Posted? {
        ledger := r.ledger;
      }
    }

    method CreateRechargeOrder(now: int, ttl: int, account: Uuid, product: Option<Product>, providerReady: bool,
                               provider: string, key: string, id: Uuid, orderNo: string) returns (r: Outcome)
      modifies this
      ensures (State(), r) == Commerce.CreateRechargeOrder(old(State()), now, ttl, account, product, providerReady,
                                                           provider, key, id, orderNo)
    {
      var p, k := Normalize(provider), TrimSpace(key);
      if !IsProvider(p) || k == "" || ByteLen(k) > 160 {
        return Err(Invalid);
      }
      var fullKey := account + (":" + k);
      var i := FindOrderKey(orders, fullKey);
      if i >= 0 {
        return Ok(i);
      }
      if !providerReady || product == None || !product.value.enabled || !ProductOk(product.value) {
        return Err(NotFound);
      }
      if account !in accounts || !accounts[account] {
        return Err(Forbidden);
      }
      if FindOrderId(orders, id) >= 0 || exists j :: 0 <= j < |orders| && orders[j].orderNo == orderNo {
        return Err(Conflict);
      }
      var minutes := ttl;
      if minutes < 5 || minutes > 1440 {
        minutes := 30;
      }
      r := Ok(|orders|);
      orders := orders + [Order(id, orderNo, fullKey, account, p, product.value.price, product.value.grant,
                                product.value.currency, now + minutes * 60, Refunds.Pending, "", None, None, [])];
    }

    method ConfirmRecharge(now: int, provider: string, eventId: string, orderNo: string, external: string, amount: int)
      returns (r: Outcome)
      modifies this
      ensures (State(), r) == Commerce.ConfirmRecharge(old(State()), now, provider, eventId, orderNo, external, amount)
    {
      var p, ev, no, ext := Normalize(provider), TrimSpace(eventId), TrimSpace(orderNo), TrimSpace(external);
      if !IsProvider(p) || ev == "" || ByteLen(ev) > 180 || no == "" || ByteLen(no) > 80
         || ext == "" || ByteLen(ext) > 160 || amount <= 0 {
        return Err(Invalid);
      }
      if (p, ev) in events {
        var e := events[(p, ev)];
        if e.order >= |orders| {
          return Err(NotFound);
        }
        if orders[e.order].orderNo != no || e.external != ext || e.amount != amount {
          return Err(Conflict);
        }
        return Ok(e.order);
      }
      var i := FindOrderNo(orders, no, p);
      if i == -1 {
        return Err(NotFound);
      }
      var o := orders[i];
      if o.status != Refunds.Pending {
        if o.external == ext && o.paid == Some(amount) {
          events := events[(p, ev) := Event(i, ext, amount, o.txn)];
          return Ok(i);
        }
        return Err(Conflict);
      }
      if now > o.expiresAt || amount != o.price {
        return Err(Conflict);
      }
      r := Pay(i, ev, ext, amount);
    }

    /** The writing half of ConfirmRecharge: wallet, ledger, callback row, order row. */
    method Pay(i: nat, ev: string, ext: string, amount: int) returns (r: Outcome)
      requires i < |orders|
      modifies this
      ensures (State(), r) == FirstPayment(old(State()), i, ev, ext, amount)
    {
      var saved := State();
      var o := orders[i];
      if o.account !in accounts {
        return Err(NotFound);
      }
      var status := EnsureWallet(o.account, o.currency);
      var posted := PostTx(RechargeTxn(o, ext));
      if posted.Rejected? {
        Rollback(saved);
        return Err(posted.error);
      }
      r := Settle(saved, i, ev, ext, amount, if posted.Replayed? then posted.index else |saved.ledger|);
    }

    /** Callback row, then order row; `saved` is what a failure returns to. */
    method Settle(saved: Db, i: nat, ev: string, ext: string, amount: int, t: nat) returns (r: Outcome)
      requires i < |saved.orders| && saved.orders[i].account in saved.accounts
      requires State() == Commerce.EnsureWallet(saved, saved.orders[i].account, saved.orders[i].currency).(ledger := ledger)
      modifies this
      ensures (State(), r) == SettlePayment(saved, old(ledger), i, ev, ext, amount, t)
    {
      var o := orders[i];
      events := events[(o.provider, ev) := Event(i, ext, amount, Some(t))];
      if UniqueViolated(orders, i, ext, t) {
        Rollback(saved);
        return Err(Storage);
      }
      orders := orders[i := o.(status := Refunds.Paid, external := ext, paid := Some(amount), txn := Some(t))];
      r := Ok(i);
    }

    method RefundRecharge(order: Uuid, wallet: int, external: int, reason: string, key: string) returns (r: Outcome)
      modifies this
      ensures (State(), r) == Commerce.RefundRecharge(old(State()), order, wallet, external, reason, key)
    {
      var why, k := TrimSpace(reason), TrimSpace(key);
      if wallet <= 0 || external <= 0 || why == "" || ByteLen(why) > 500 || k == "" || ByteLen(k) > 160 {
        return Err(Invalid);
      }
      var i := FindOrderId(orders, order);
      if i == -1 {
        return Err(NotFound);
      }
      var existing := FindRefund(orders[i].refunds, k);
      if existing >= 0 {
        return Ok(existing);
      }
      r := Refund(i, wallet, external, k);
    }

    /** The sums the refund query computes over the rows of one order. */
    method UsedAmounts(refunds: seq<RefundRow>) returns (usedWallet: int, usedExternal: int)
      ensures usedWallet == Refunds.WalletSum(Amounts(refunds))
      ensures usedExternal == Refunds.ExternalSum(Amounts(refunds))
    {
      usedWallet, usedExternal := 0, 0;
      for n := 0 to |refunds|
        invariant usedWallet == Refunds.WalletSum(Amounts(refunds)[..n])
        invariant usedExternal == Refunds.ExternalSum(Amounts(refunds)[..n])
      {
        assert Amounts(refunds)[..n + 1][..n] == Amounts(refunds)[..n];
        usedWallet := usedWallet + refunds[n].amounts.wallet;
        usedExternal := usedExternal + refunds[n].amounts.external;
      }
      assert Amounts(refunds)[..|refunds|] == Amounts(refunds);
    }

    /** The checking and writing half of RefundRecharge. */
    method Refund(i: nat, wallet: int, external: int, key: string) returns (r: Outcome)
      requires i < |orders|
      modifies this
      ensures (State(), r) == IssueRefund(old(State()), i, Refunds.Refund(wallet, external), key)
    {
      var o := orders[i];
      if o.status != Refunds.Paid && o.status != Refunds.PartiallyRefunded {
        return Err(Conflict);
      }
      var usedWallet, usedExternal := UsedAmounts(o.refunds);
      if usedWallet + wallet > o.grant || usedExternal + external > o.price {
        return Err(Conflict);
      }
      var left, right := wallet * o.price, external * o.grant;
      if left != right {
        return Err(Invalid);
      }
      r := Debit(i, Refunds.Refund(wallet, external), key);
    }

    /** The writing half: wallet, ledger, refund row, order status. */
    method Debit(i: nat, amounts: Refunds.Refund, key: string) returns (r: Outcome)
      requires i < |orders|
      modifies this
      ensures (State(), r) == DebitRefund(old(State()), i, amounts, key)
    {
      var saved := State();
      var o := orders[i];
      if o.account !in accounts {
        return Err(NotFound);
      }
      var status := EnsureWallet(o.account, o.currency);
      if Balance(ledger, Wallet(o.account, o.currency)) < amounts.wallet {
        Rollback(saved);
        return Err(Forbidden);
      }
      var posted := PostTx(RefundTxn(o, amounts.wallet, key));
      if posted.Rejected? {
        Rollback(saved);
        return Err(posted.error);
      }
      r := RecordRefund(saved, i, amounts, key, if posted.Replayed? then posted.index else |saved.ledger|);
    }

    /** Refund row, then order status. */
    method RecordRefund(saved: Db, i: nat, amounts: Refunds.Refund, key: string, t: nat) returns (r: Outcome)
      requires i < |saved.orders| && saved.orders[i].account in saved.accounts
      requires State() == Commerce.EnsureWallet(saved, saved.orders[i].account, saved.orders[i].currency).(ledger := ledger)
      modifies this`orders
      ensures (State(), r) == SettleRefund(saved, old(ledger), i, amounts, key, t)
    {
      var o := orders[i];
      var usedWallet, usedExternal := UsedAmounts(o.refunds);
      var newStatus := Refunds.PartiallyRefunded;
      if usedWallet + amounts.wallet == o.grant && usedExternal + amounts.external == o.price {
        newStatus := Refunds.FullyRefunded;
      }
      orders := orders[i := o.(refunds := o.refunds + [RefundRow(key, amounts, t)], status := newStatus)];
      r := Ok(|o.refunds|);
    }

    method PurchaseMembership(account: Uuid, product: Option<Product>, planOk: bool, key: string, id: Uuid)
      returns (r: Outcome)
      modifies this
      ensures (State(), r) == Commerce.PurchaseMembership(old(State()), account, product, planOk, key, id)
    {
      var saved := State();
      var k := TrimSpace(key);
      if k == "" || ByteLen(k) > 160 {
        return Err(Invalid);
      }
      var existing := FindPurchase(purchases, account, k);
      if existing >= 0 {
        return Ok(existing);
      }
      if product == None || !product.value.enabled || !ProductOk(product.value) {
        return Err(NotFound);
      }
      if account !in accounts {
        return Err(NotFound);
      }
      r := Charge(account, product.value.price, product.value.currency, planOk, k, id);
    }

    method Charge(account: Uuid, price: int, currency: string, planOk: bool, key: string, id: Uuid) returns (r: Outcome)
      requires account in accounts
      modifies this
      ensures (State(), r) == ChargeMembership(old(State()), account, price, currency, planOk, key, id)
    {
      var saved := State();
      var status := EnsureWallet(account, currency);
      if status != Active || Balance(ledger, Wallet(account, currency)) < price {
        Rollback(saved);
        return Err(Forbidden);
      }
      var posted := PostTx(PurchaseTxn(account, price, currency, key, id));
      if posted.Rejected? {
        Rollback(saved);
        return Err(posted.error);
      }
      var t := if posted.Replayed? then posted.index else |saved.ledger|;
      r := Ok(|purchases|);
      purchases := purchases + [PurchaseRow(key, account, price, currency, t)];
      if !planOk {
        Rollback(saved);
        r := Err(Forbidden);
      }
    }

    method AdjustWallet(account: Uuid, amount: int, currency: string, reason: string, key: string) returns (r: Outcome)
      modifies this
      ensures (State(), r) == Commerce.AdjustWallet(old(State()), account, amount, currency, reason, key)
    {
      var k, cur := TrimSpace(key), NormalizeCurrency(currency);
      if amount == 0 || TrimSpace(reason) == "" || ByteLen(reason) > 500 || k == "" || ByteLen(key) > 160 {
        return Err(Invalid);
      }
      var replay := FindKey(ledger, Adjustment(account, k).Render());
      if replay >= 0 {
        return Ok(replay);
      }
      if account !in accounts {
        return Err(NotFound);
      }
      var saved := State();
      var status := EnsureWallet(account, cur);
      if status != Active {
        Rollback(saved);
        return Err(Forbidden);
      }
      var value := amount;
      if value < 0 {
        value := Negate64(value);
        if Balance(ledger, Wallet(account, cur)) < value {
          Rollback(saved);
          return Err(Forbidden);
        }
      }
      var posted := PostTx(AdjustTxn(account, amount, value, cur, k));
      if posted.Rejected? {
        Rollback(saved);
        return Err(posted.error);
      }
      r := Ok(if posted.Replayed? then posted.index else |saved.ledger|);
    }
  }
}
