/** Importing v2 balances and history, and the independent reconciler that compares the
    totals (importWallet and importLegacyLedger in v3/internal/legacyimport/importer.go,
    the wallet totals in v3/internal/reconcile/reconcile.go). */
module LegacyImport {
  import opened Text

  type Account = nat

  datatype Wallet = Wallet(account: string, balanceType: string, balance: int)

  datatype Entry = Entry(id: nat, account: string, balanceType: string, amount: int)

  /** The v2 tables account_wallets and account_ledger_entries. */
  datatype Source = Source(wallets: seq<Wallet>, entries: seq<Entry>)

  /** The idempotency key of a migration transaction. */
  datatype ImportKey = HistoryKey(id: nat) | BalanceKey(account: Account, currency: string, balance: int)

  /** A posted transaction of reference type legacy_wallet; `amount` is what it adds to the
      wallet, taken from the migration account of the currency. */
  datatype Txn = Txn(key: ImportKey, account: Account, currency: string, amount: int)

  function Truncated(s: string): string {
    if |s| > 16 then s[..16] else s
  }

  /** normalizeCurrency of the importer. */
  function ImportCurrency(value: string): string {
    var v := Normalize(value);
    if v == "coins" || v == "points" || v == "point" then "POINTS"
    else if v == "registration_days" || v == "days" then "REGISTRATION_DAYS"
    else
      var u := ToUpper(TrimSpace(value));
      if u == "" then "POINTS" else Truncated(u)
  }

  /** normalizeCurrency of the reconciler. */
  function ReconcileCurrency(value: string): string {
    var v := Normalize(value);
    if v == "coins" || v == "points" || v == "point" then "POINTS"
    else if v == "registration_days" || v == "days" then "REGISTRATION_DAYS"
    else Truncated(ToUpper(TrimSpace(value)))
  }

  lemma BlankCurrency(value: string)
    requires TrimSpace(value) == ""
    ensures ImportCurrency(value) == "POINTS" && ReconcileCurrency(value) == ""
  {
    assert Normalize(value) == "" && ToUpper(TrimSpace(value)) == "";
  }

  /** The two disagree exactly on a blank balance type. */
  lemma CurrenciesAgreeExactlyWhen(value: string)
    ensures ImportCurrency(value) == ReconcileCurrency(value) <==> TrimSpace(value) != ""
  {
    if TrimSpace(value) == "" { BlankCurrency(value); }
  }

  function Imported(ledger: seq<Txn>, a: Account, c: string): int {
    if ledger == [] then 0
    else
      var t := ledger[|ledger| - 1];
      Imported(ledger[..|ledger| - 1], a, c) + if t.account == a && t.currency == c then t.amount else 0
  }

  predicate HasKey(ledger: seq<Txn>, key: ImportKey) {
    exists i :: 0 <= i < |ledger| && ledger[i].key == key
  }

  /** importLegacyLedger. */
  function ImportEntry(ledger: seq<Txn>, ids: map<string, Account>, e: Entry): seq<Txn> {
    if e.account !in ids || e.amount == 0 || HasKey(ledger, HistoryKey(e.id)) then ledger
    else ledger + [Txn(HistoryKey(e.id), ids[e.account], ImportCurrency(e.balanceType), e.amount)]
  }

  /** importWallet: post the difference, unless this balance was posted before. */
  function ImportBalance(ledger: seq<Txn>, a: Account, c: string, balance: int): seq<Txn> {
    var delta := balance - Imported(ledger, a, c);
    if delta == 0 || HasKey(ledger, BalanceKey(a, c, balance)) then ledger
    else ledger + [Txn(BalanceKey(a, c, balance), a, c, delta)]
  }

  /** Unmapped and negative wallets are reported, not imported. */
  function ImportWallet(ledger: seq<Txn>, ids: map<string, Account>, w: Wallet): seq<Txn> {
    if w.account !in ids || w.balance < 0 then ledger
    else ImportBalance(ledger, ids[w.account], ImportCurrency(w.balanceType), w.balance)
  }

  function ImportEntries(ledger: seq<Txn>, ids: map<string, Account>, es: seq<Entry>): seq<Txn> {
    if es == [] then ledger
    else ImportEntry(ImportEntries(ledger, ids, es[..|es| - 1]), ids, es[|es| - 1])
  }

  function ImportWallets(ledger: seq<Txn>, ids: map<string, Account>, ws: seq<Wallet>): seq<Txn> {
    if ws == [] then ledger
    else ImportWallet(ImportWallets(ledger, ids, ws[..|ws| - 1]), ids, ws[|ws| - 1])
  }

  /** The ledger part of an import run: history first, then balances. */
  function Import(ledger: seq<Txn>, ids: map<string, Account>, s: Source): seq<Txn> {
    ImportWallets(ImportEntries(ledger, ids, s.entries), ids, s.wallets)
  }

  lemma ImportedAppend(ledger: seq<Txn>, t: Txn, a: Account, c: string)
    ensures Imported(ledger + [t], a, c) == Imported(ledger, a, c) + if t.account == a && t.currency == c then t.amount else 0
  {
    assert (ledger + [t])[..|ledger|] == ledger;
  }

  // ---- One wallet ----

  /** An import brings the wallet to its source balance exactly when it is there already or
      this very balance was never posted for it. */
  lemma BalanceReachedExactlyWhen(ledger: seq<Txn>, a: Account, c: string, balance: int)
    ensures Imported(ImportBalance(ledger, a, c, balance), a, c) == balance
            <==> Imported(ledger, a, c) == balance || !HasKey(ledger, BalanceKey(a, c, balance))
  {
    ImportedAppend(ledger, Txn(BalanceKey(a, c, balance), a, c, balance - Imported(ledger, a, c)), a, c);
  }

  lemma PostsDifference(ledger: seq<Txn>, a: Account, c: string, balance: int)
    requires Imported(ledger, a, c) != balance && !HasKey(ledger, BalanceKey(a, c, balance))
    ensures ImportBalance(ledger, a, c, balance)
            == ledger + [Txn(BalanceKey(a, c, balance), a, c, balance - Imported(ledger, a, c))]
    ensures Imported(ImportBalance(ledger, a, c, balance), a, c) == balance
  {
    BalanceReachedExactlyWhen(ledger, a, c, balance);
  }

  /** So a balance that goes away and comes back is not followed: 5, 3, 5 leaves 3. */
  lemma ReturningBalanceIsMissed(a: Account, c: string)
    ensures var l := ImportBalance(ImportBalance([], a, c, 5), a, c, 3);
      Imported(l, a, c) == 3 && ImportBalance(l, a, c, 5) == l
  {
    PostsDifference([], a, c, 5);
    var one := ImportBalance([], a, c, 5);
    assert |one| == 1 && one[0].key == BalanceKey(a, c, 5);
    PostsDifference(one, a, c, 3);
    var two := ImportBalance(one, a, c, 3);
    assert two[0] == one[0];
    assert HasKey(two, BalanceKey(a, c, 5));
  }

  // ---- A whole run ----

  predicate SamePair(ids: map<string, Account>, v: Wallet, w: Wallet)
    requires v.account in ids && w.account in ids
  {
    ids[v.account] == ids[w.account] && ImportCurrency(v.balanceType) == ImportCurrency(w.balanceType)
  }

  /** Every wallet is mapped and not negative, and no two are the same account and currency. */
  predicate Sound(ids: map<string, Account>, ws: seq<Wallet>) {
    && (forall i :: 0 <= i < |ws| ==> ws[i].account in ids && ws[i].balance >= 0)
    && (forall i, j :: 0 <= i < j < |ws| ==> !SamePair(ids, ws[i], ws[j]))
  }

  predicate IsPair(ids: map<string, Account>, w: Wallet, a: Account, c: string) {
    w.account in ids && ids[w.account] == a && ImportCurrency(w.balanceType) == c
  }

  predicate HasWallet(ids: map<string, Account>, ws: seq<Wallet>, a: Account, c: string) {
    exists i :: 0 <= i < |ws| && IsPair(ids, ws[i], a, c)
  }

  function KeyOf(ids: map<string, Account>, w: Wallet): ImportKey
    requires w.account in ids
  {
    BalanceKey(ids[w.account], ImportCurrency(w.balanceType), w.balance)
  }

  function ImportedFor(ledger: seq<Txn>, ids: map<string, Account>, w: Wallet): int
    requires w.account in ids
  {
    Imported(ledger, ids[w.account], ImportCurrency(w.balanceType))
  }

  predicate Reachable(ledger: seq<Txn>, ids: map<string, Account>, w: Wallet)
    requires w.account in ids
  {
    ImportedFor(ledger, ids, w) == w.balance || !HasKey(ledger, KeyOf(ids, w))
  }

  /** Importing one wallet leaves every other account and currency alone. */
  lemma OtherWalletUntouched(ledger: seq<Txn>, ids: map<string, Account>, v: Wallet, w: Wallet)
    requires v.account in ids && w.account in ids && !SamePair(ids, v, w)
    ensures ImportedFor(ImportWallet(ledger, ids, v), ids, w) == ImportedFor(ledger, ids, w)
    ensures HasKey(ImportWallet(ledger, ids, v), KeyOf(ids, w)) <==> HasKey(ledger, KeyOf(ids, w))
  {
    var after := ImportWallet(ledger, ids, v);
    if after != ledger {
      var t := after[|ledger|];
      assert after == ledger + [t];
      ImportedAppend(ledger, t, ids[w.account], ImportCurrency(w.balanceType));
      if HasKey(ledger, KeyOf(ids, w)) {
        var i :| 0 <= i < |ledger| && ledger[i].key == KeyOf(ids, w);
        assert after[i].key == KeyOf(ids, w);
      }
    }
  }

  lemma {:induction false} LaterWalletUntouched(ledger: seq<Txn>, ids: map<string, Account>, ws: seq<Wallet>, w: Wallet)
    requires w.account in ids
    requires forall i :: 0 <= i < |ws| ==> ws[i].account in ids && !SamePair(ids, ws[i], w)
    ensures ImportedFor(ImportWallets(ledger, ids, ws), ids, w) == ImportedFor(ledger, ids, w)
    ensures HasKey(ImportWallets(ledger, ids, ws), KeyOf(ids, w)) <==> HasKey(ledger, KeyOf(ids, w))
  {
    if ws != [] {
      var front := ws[..|ws| - 1];
      LaterWalletUntouched(ledger, ids, front, w);
      OtherWalletUntouched(ImportWallets(ledger, ids, front), ids, ws[|ws| - 1], w);
    }
  }

  /** Wallet by wallet, an import run ends at the source balance exactly when the wallet's
      own balance was reachable from the ledger after the history. */
  lemma {:induction false} WalletsReachedExactlyWhen(ledger: seq<Txn>, ids: map<string, Account>, ws: seq<Wallet>, i: nat)
    requires Sound(ids, ws) && i < |ws|
    ensures ImportedFor(ImportWallets(ledger, ids, ws), ids, ws[i]) == ws[i].balance <==> Reachable(ledger, ids, ws[i])
  {
    var front, last := ws[..|ws| - 1], ws[|ws| - 1];
    var before := ImportWallets(ledger, ids, front);
    if i < |ws| - 1 {
      WalletsReachedExactlyWhen(ledger, ids, front, i);
      assert !SamePair(ids, ws[i], last);
      OtherWalletUntouched(before, ids, last, ws[i]);
    } else {
      forall j | 0 <= j < |front| ensures front[j].account in ids && !SamePair(ids, front[j], last) {
        assert !SamePair(ids, ws[j], ws[i]);
      }
      LaterWalletUntouched(ledger, ids, front, last);
      BalanceReachedExactlyWhen(before, ids[last.account], ImportCurrency(last.balanceType), last.balance);
    }
  }

  // ---- The reconciler ----

  /** Imported total of a currency over all wallets. */
  function ImportedTotal(ledger: seq<Txn>, c: string): int {
    if ledger == [] then 0
    else ImportedTotal(ledger[..|ledger| - 1], c) + if ledger[|ledger| - 1].currency == c then ledger[|ledger| - 1].amount else 0
  }

  /** sourceWalletTotals. */
  function SourceTotal(ws: seq<Wallet>, c: string): int {
    if ws == [] then 0
    else SourceTotal(ws[..|ws| - 1], c) + if ReconcileCurrency(ws[|ws| - 1].balanceType) == c then ws[|ws| - 1].balance else 0
  }

  function Difference(ledger: seq<Txn>, ws: seq<Wallet>, c: string): int {
    ImportedTotal(ledger, c) - SourceTotal(ws, c)
  }

  /** The imported totals of the wallets of one currency, added up. */
  function OverWallets(ledger: seq<Txn>, ids: map<string, Account>, ws: seq<Wallet>, c: string): int
    requires forall i :: 0 <= i < |ws| ==> ws[i].account in ids
  {
    if ws == [] then 0
    else
      OverWallets(ledger, ids, ws[..|ws| - 1], c)
      + if ImportCurrency(ws[|ws| - 1].balanceType) == c then ImportedFor(ledger, ids, ws[|ws| - 1]) else 0
  }

  lemma {:induction false} OverWalletsStep(ledger: seq<Txn>, t: Txn, ids: map<string, Account>, ws: seq<Wallet>, c: string)
    requires Sound(ids, ws)
    ensures OverWallets(ledger + [t], ids, ws, c) == OverWallets(ledger, ids, ws, c)
            + if t.currency == c && HasWallet(ids, ws, t.account, t.currency) then t.amount else 0
  {
    if ws != [] {
      var front, w := ws[..|ws| - 1], ws[|ws| - 1];
      OverWalletsStep(ledger, t, ids, front, c);
      ImportedAppend(ledger, t, ids[w.account], ImportCurrency(w.balanceType));
      HasWalletSplit(ids, ws, t.account, t.currency);
    }
  }

  lemma HasWalletSplit(ids: map<string, Account>, ws: seq<Wallet>, a: Account, c: string)
    requires ws != [] && Sound(ids, ws)
    ensures HasWallet(ids, ws, a, c) <==> HasWallet(ids, ws[..|ws| - 1], a, c) || IsPair(ids, ws[|ws| - 1], a, c)
    ensures !(HasWallet(ids, ws[..|ws| - 1], a, c) && IsPair(ids, ws[|ws| - 1], a, c))
  {
    var front, n := ws[..|ws| - 1], |ws| - 1;
    if HasWallet(ids, front, a, c) {
      var i :| 0 <= i < |front| && IsPair(ids, front[i], a, c);
      assert IsPair(ids, ws[i], a, c) && !SamePair(ids, ws[i], ws[n]);
    }
    if i :| 0 <= i < |ws| && IsPair(ids, ws[i], a, c) && i < n { assert IsPair(ids, front[i], a, c); }
  }

  /** Every transaction is on an account and currency that has a wallet row. */
  predicate Covered(ledger: seq<Txn>, ids: map<string, Account>, ws: seq<Wallet>) {
    forall i :: 0 <= i < |ledger| ==> HasWallet(ids, ws, ledger[i].account, ledger[i].currency)
  }

  lemma OverWalletsLast(ledger: seq<Txn>, ids: map<string, Account>, ws: seq<Wallet>, c: string)
    requires ledger != [] && Sound(ids, ws)
    ensures var t := ledger[|ledger| - 1];
      OverWallets(ledger, ids, ws, c) == OverWallets(ledger[..|ledger| - 1], ids, ws, c)
        + if t.currency == c && HasWallet(ids, ws, t.account, t.currency) then t.amount else 0
  {
    OverWalletsStep(ledger[..|ledger| - 1], ledger[|ledger| - 1], ids, ws, c);
    assert ledger == ledger[..|ledger| - 1] + [ledger[|ledger| - 1]];
  }

  lemma CoveredParts(ledger: seq<Txn>, ids: map<string, Account>, ws: seq<Wallet>)
    requires ledger != [] && Covered(ledger, ids, ws)
    ensures Covered(ledger[..|ledger| - 1], ids, ws)
    ensures HasWallet(ids, ws, ledger[|ledger| - 1].account, ledger[|ledger| - 1].currency)
  {
    var front := ledger[..|ledger| - 1];
    forall i | 0 <= i < |front| ensures HasWallet(ids, ws, front[i].account, front[i].currency) {
      assert front[i] == ledger[i];
    }
  }

  lemma {:induction false} TotalIsOverWallets(ledger: seq<Txn>, ids: map<string, Account>, ws: seq<Wallet>, c: string)
    requires Sound(ids, ws) && Covered(ledger, ids, ws)
    ensures OverWallets(ledger, ids, ws, c) == ImportedTotal(ledger, c)
  {
    if ledger == [] {
      NothingOverWallets(ids, ws, c);
    } else {
      CoveredParts(ledger, ids, ws);
      TotalIsOverWallets(ledger[..|ledger| - 1], ids, ws, c);
      OverWalletsLast(ledger, ids, ws, c);
    }
  }

  lemma {:induction false} NothingOverWallets(ids: map<string, Account>, ws: seq<Wallet>, c: string)
    requires forall i :: 0 <= i < |ws| ==> ws[i].account in ids
    ensures OverWallets([], ids, ws, c) == 0
  {
    if ws != [] { NothingOverWallets(ids, ws[..|ws| - 1], c); }
  }

  predicate NoBlankTypes(ws: seq<Wallet>) {
    forall i :: 0 <= i < |ws| ==> TrimSpace(ws[i].balanceType) != ""
  }

  lemma {:induction false} BalancesAreSource(ledger: seq<Txn>, ids: map<string, Account>, ws: seq<Wallet>, c: string)
    requires NoBlankTypes(ws)
    requires forall i :: 0 <= i < |ws| ==> ws[i].account in ids && ImportedFor(ledger, ids, ws[i]) == ws[i].balance
    ensures OverWallets(ledger, ids, ws, c) == SourceTotal(ws, c)
  {
    if ws != [] {
      BalancesAreSource(ledger, ids, ws[..|ws| - 1], c);
      CurrenciesAgreeExactlyWhen(ws[|ws| - 1].balanceType);
    }
  }

  // ---- Import and reconciler agree ----

  predicate HistoryCovered(ids: map<string, Account>, s: Source) {
    forall i :: 0 <= i < |s.entries| && s.entries[i].account in ids && s.entries[i].amount != 0 ==>
      HasWallet(ids, s.wallets, ids[s.entries[i].account], ImportCurrency(s.entries[i].balanceType))
  }

  lemma {:induction false} EntriesCovered(ledger: seq<Txn>, ids: map<string, Account>, s: Source, es: seq<Entry>)
    requires Covered(ledger, ids, s.wallets) && HistoryCovered(ids, s)
    requires |es| <= |s.entries| && es == s.entries[..|es|]
    ensures Covered(ImportEntries(ledger, ids, es), ids, s.wallets)
  {
    if es != [] {
      var n := |es| - 1;
      assert es[..n] == s.entries[..n] && es[n] == s.entries[n];
      EntriesCovered(ledger, ids, s, es[..n]);
    }
  }

  lemma {:induction false} WalletsCovered(ledger: seq<Txn>, ids: map<string, Account>, all: seq<Wallet>, ws: seq<Wallet>)
    requires Covered(ledger, ids, all) && |ws| <= |all| && ws == all[..|ws|]
    ensures Covered(ImportWallets(ledger, ids, ws), ids, all)
  {
    if ws != [] {
      var n := |ws| - 1;
      assert ws[..n] == all[..n] && ws[n] == all[n];
      WalletsCovered(ledger, ids, all, ws[..n]);
      if all[n].account in ids { assert IsPair(ids, all[n], ids[all[n].account], ImportCurrency(all[n].balanceType)); }
    }
  }

  /** History transactions carry history keys only. */
  lemma {:induction false} EntriesAddNoBalanceKeys(ledger: seq<Txn>, ids: map<string, Account>, es: seq<Entry>, key: ImportKey)
    requires key.BalanceKey?
    ensures HasKey(ImportEntries(ledger, ids, es), key) <==> HasKey(ledger, key)
  {
    if es != [] {
      var before := ImportEntries(ledger, ids, es[..|es| - 1]);
      EntriesAddNoBalanceKeys(ledger, ids, es[..|es| - 1], key);
      var after := ImportEntry(before, ids, es[|es| - 1]);
      if HasKey(before, key) {
        var i :| 0 <= i < |before| && before[i].key == key;
        assert after[i].key == key;
      }
    }
  }

  predicate FreshBalances(ledger: seq<Txn>, ids: map<string, Account>, ws: seq<Wallet>)
    requires Sound(ids, ws)
  {
    forall i :: 0 <= i < |ws| ==> !HasKey(ledger, KeyOf(ids, ws[i]))
  }

  /** After an import whose balances are new, every wallet's imported total is its source
      balance, whatever its history adds up to, and every difference the reconciler reports is zero. */
  lemma ImportReconciles(ledger: seq<Txn>, ids: map<string, Account>, s: Source, c: string)
    requires Sound(ids, s.wallets) && NoBlankTypes(s.wallets) && HistoryCovered(ids, s)
    requires Covered(ledger, ids, s.wallets) && FreshBalances(ledger, ids, s.wallets)
    ensures var after := Import(ledger, ids, s);
      && (forall i :: 0 <= i < |s.wallets| ==> ImportedFor(after, ids, s.wallets[i]) == s.wallets[i].balance)
      && Difference(after, s.wallets, c) == 0
  {
    var history, ws := ImportEntries(ledger, ids, s.entries), s.wallets;
    var after := ImportWallets(history, ids, ws);
    assert s.entries[..|s.entries|] == s.entries && ws[..|ws|] == ws;
    EntriesCovered(ledger, ids, s, s.entries);
    WalletsCovered(history, ids, ws, ws);
    forall i | 0 <= i < |ws| ensures ImportedFor(after, ids, ws[i]) == ws[i].balance {
      EntriesAddNoBalanceKeys(ledger, ids, s.entries, KeyOf(ids, ws[i]));
      WalletsReachedExactlyWhen(history, ids, ws, i);
    }
    TotalIsOverWallets(after, ids, ws, c);
    BalancesAreSource(after, ids, ws, c);
  }

  // ---- Running it again ----

  predicate EntryDone(ledger: seq<Txn>, ids: map<string, Account>, e: Entry) {
    e.account !in ids || e.amount == 0 || HasKey(ledger, HistoryKey(e.id))
  }

  lemma {:induction false} EntriesAreDone(ledger: seq<Txn>, ids: map<string, Account>, es: seq<Entry>, i: nat)
    requires i < |es|
    ensures EntryDone(ImportEntries(ledger, ids, es), ids, es[i])
  {
    var before := ImportEntries(ledger, ids, es[..|es| - 1]);
    var after := ImportEntry(before, ids, es[|es| - 1]);
    if i < |es| - 1 {
      EntriesAreDone(ledger, ids, es[..|es| - 1], i);
      KeysRemain(before, after, HistoryKey(es[i].id));
    } else if after != before {
      assert after[|before|].key == HistoryKey(es[i].id);
    }
  }

  lemma KeysRemain(ledger: seq<Txn>, ledger': seq<Txn>, key: ImportKey)
    requires |ledger| <= |ledger'| && ledger'[..|ledger|] == ledger
    ensures HasKey(ledger, key) ==> HasKey(ledger', key)
  {
    if HasKey(ledger, key) {
      var i :| 0 <= i < |ledger| && ledger[i].key == key;
      assert ledger'[i].key == key;
    }
  }

  lemma {:induction false} WalletsExtend(ledger: seq<Txn>, ids: map<string, Account>, ws: seq<Wallet>)
    ensures var after := ImportWallets(ledger, ids, ws); |ledger| <= |after| && after[..|ledger|] == ledger
  {
    if ws != [] { WalletsExtend(ledger, ids, ws[..|ws| - 1]); }
  }

  lemma {:induction false} DoneEntriesPostNothing(ledger: seq<Txn>, ids: map<string, Account>, es: seq<Entry>)
    requires forall i :: 0 <= i < |es| ==> EntryDone(ledger, ids, es[i])
    ensures ImportEntries(ledger, ids, es) == ledger
  {
    if es != [] { DoneEntriesPostNothing(ledger, ids, es[..|es| - 1]); }
  }

  lemma {:induction false} SettledWalletsPostNothing(ledger: seq<Txn>, ids: map<string, Account>, ws: seq<Wallet>)
    requires forall i :: 0 <= i < |ws| ==> ws[i].account in ids && ImportedFor(ledger, ids, ws[i]) == ws[i].balance
    ensures ImportWallets(ledger, ids, ws) == ledger
  {
    if ws != [] { SettledWalletsPostNothing(ledger, ids, ws[..|ws| - 1]); }
  }

  /** Importing an unchanged source again posts nothing. */
  lemma SecondImportPostsNothing(ledger: seq<Txn>, ids: map<string, Account>, s: Source)
    requires Sound(ids, s.wallets) && NoBlankTypes(s.wallets) && HistoryCovered(ids, s)
    requires Covered(ledger, ids, s.wallets) && FreshBalances(ledger, ids, s.wallets)
    ensures Import(Import(ledger, ids, s), ids, s) == Import(ledger, ids, s)
  {
    var history, after := ImportEntries(ledger, ids, s.entries), Import(ledger, ids, s);
    ImportReconciles(ledger, ids, s, "");
    WalletsExtend(history, ids, s.wallets);
    forall i | 0 <= i < |s.entries| ensures EntryDone(after, ids, s.entries[i]) {
      EntriesAreDone(ledger, ids, s.entries, i);
      KeysRemain(history, after, HistoryKey(s.entries[i].id));
    }
    DoneEntriesPostNothing(after, ids, s.entries);
    SettledWalletsPostNothing(after, ids, s.wallets);
  }

  lemma OneWallet(ids: map<string, Account>, w: Wallet, c: string)
    requires w.account in ids && w.balance > 0
    ensures var after := Import([], ids, Source([w], []));
      && ImportedTotal(after, c) == (if ImportCurrency(w.balanceType) == c then w.balance else 0)
      && SourceTotal([w], c) == (if ReconcileCurrency(w.balanceType) == c then w.balance else 0)
  {
    var t := Txn(KeyOf(ids, w), ids[w.account], ImportCurrency(w.balanceType), w.balance);
    assert [w][..0] == [] && [t][..0] == [];
    assert ImportWallets([], ids, [w][..0]) == [] && SourceTotal([w][..0], c) == 0;
    assert ImportWallets([], ids, [w]) == ImportWallet([], ids, w) == [t];
    assert ImportedTotal([t][..0], c) == 0;
  }

  /** A single wallet with a blank type is imported as POINTS but reconciled as "": both
      currencies then differ by its whole balance. */
  lemma BlankTypeIsReported(ids: map<string, Account>, w: Wallet)
    requires w.account in ids && w.balance > 0 && TrimSpace(w.balanceType) == ""
    ensures var after := Import([], ids, Source([w], []));
      Difference(after, [w], "POINTS") == w.balance && Difference(after, [w], "") == -w.balance
  {
    BlankCurrency(w.balanceType);
    OneWallet(ids, w, "POINTS");
    OneWallet(ids, w, "");
  }
}
