/** What importing v2 history and balances adds to the ledger, in terms of the v2 rows
    (importLegacyLedger and importWallet in v3/internal/legacyimport/importer.go). */
module LegacyEffects {
  import opened Text
  import opened LegacyImport

  // ---- History ----

  /** The transaction carries this entry over. */
  predicate Carries(t: Txn, ids: map<string, Account>, e: Entry) {
    e.account in ids && e.amount != 0 && t == Txn(HistoryKey(e.id), ids[e.account], ImportCurrency(e.balanceType), e.amount)
  }

  /** Every transaction from `n` on carries an entry over, under a key that no earlier one has. */
  predicate AllCarried(ledger: seq<Txn>, n: nat, ids: map<string, Account>, es: seq<Entry>) {
    forall i :: n <= i < |ledger| ==>
      && (exists j :: 0 <= j < |es| && Carries(ledger[i], ids, es[j]))
      && forall k :: 0 <= k < i ==> ledger[k].key != ledger[i].key
  }

  /** Every mapped entry that is not zero has been posted under its own key. */
  predicate NoneMissing(ledger: seq<Txn>, ids: map<string, Account>, es: seq<Entry>) {
    forall j :: 0 <= j < |es| && es[j].account in ids && es[j].amount != 0 ==> HasKey(ledger, HistoryKey(es[j].id))
  }

  lemma KeysStay(ledger: seq<Txn>, t: Txn, key: ImportKey)
    requires HasKey(ledger, key)
    ensures HasKey(ledger + [t], key)
  {
    var i :| 0 <= i < |ledger| && ledger[i].key == key;
    assert (ledger + [t])[i].key == key;
  }

  lemma EntryAdds(ledger: seq<Txn>, ids: map<string, Account>, e: Entry)
    ensures var after := ImportEntry(ledger, ids, e);
      || (after == ledger && (e.account in ids && e.amount != 0 ==> HasKey(ledger, HistoryKey(e.id))))
      || (|after| == |ledger| + 1 && after[..|ledger|] == ledger && Carries(after[|ledger|], ids, e)
          && HasKey(after, HistoryKey(e.id)) && !HasKey(ledger, HistoryKey(e.id)))
  {
    var after := ImportEntry(ledger, ids, e);
    if after != ledger { assert after[|ledger|].key == HistoryKey(e.id); }
  }

  lemma OneMore(before: seq<Txn>, after: seq<Txn>, n: nat, ids: map<string, Account>, es: seq<Entry>, e: Entry)
    requires n <= |before| && AllCarried(before, n, ids, es) && NoneMissing(before, ids, es)
    requires if after == before then e.account in ids && e.amount != 0 ==> HasKey(before, HistoryKey(e.id))
             else |after| == |before| + 1 && after[..|before|] == before && Carries(after[|before|], ids, e)
                  && HasKey(after, HistoryKey(e.id)) && !HasKey(before, HistoryKey(e.id))
    ensures AllCarried(after, n, ids, es + [e]) && NoneMissing(after, ids, es + [e])
  {
    assert (es + [e])[|es|] == e;
    forall i | n <= i < |after|
      ensures exists j :: 0 <= j < |es + [e]| && Carries(after[i], ids, (es + [e])[j])
      ensures forall k :: 0 <= k < i ==> after[k].key != after[i].key
    {
      if i < |before| {
        assert after[i] == before[i] && forall k :: 0 <= k < i ==> after[k] == before[k];
        var j :| 0 <= j < |es| && Carries(before[i], ids, es[j]);
        assert Carries(after[i], ids, (es + [e])[j]);
      } else {
        assert forall k :: 0 <= k < i ==> after[k] == before[k];
      }
    }
    forall j | 0 <= j < |es| && es[j].account in ids && es[j].amount != 0 ensures HasKey(after, HistoryKey(es[j].id)) {
      if after != before {
        assert after == before + [after[|before|]];
        KeysStay(before, after[|before|], HistoryKey(es[j].id));
      }
    }
  }

  /** Importing history keeps what is in the ledger and adds one transaction for each mapped
      entry that is not zero and was not posted before: on its account, in its currency, of
      exactly its amount. */
  lemma {:induction false} HistoryDoes(ledger: seq<Txn>, ids: map<string, Account>, es: seq<Entry>)
    ensures var after := ImportEntries(ledger, ids, es);
      && |after| >= |ledger| && after[..|ledger|] == ledger
      && AllCarried(after, |ledger|, ids, es) && NoneMissing(after, ids, es)
  {
    if es != [] {
      var front, e := es[..|es| - 1], es[|es| - 1];
      HistoryDoes(ledger, ids, front);
      var before := ImportEntries(ledger, ids, front);
      EntryAdds(before, ids, e);
      OneMore(before, ImportEntries(ledger, ids, es), |ledger|, ids, front, e);
      assert es == front + [e];
    }
  }

  // ---- Balances ----

  /** A wallet that is not mapped or negative is left alone, and so is one that has its balance
      or had it posted before; any other gets one transaction of exactly what is missing. */
  lemma WalletDoes(ledger: seq<Txn>, ids: map<string, Account>, w: Wallet)
    ensures var after := ImportWallet(ledger, ids, w);
      if w.account in ids && w.balance >= 0 && Imported(ledger, ids[w.account], ImportCurrency(w.balanceType)) != w.balance
         && !HasKey(ledger, BalanceKey(ids[w.account], ImportCurrency(w.balanceType), w.balance))
      then
        && |after| == |ledger| + 1 && after[..|ledger|] == ledger
        && after[|ledger|].account == ids[w.account] && after[|ledger|].currency == ImportCurrency(w.balanceType)
        && HasKey(after, BalanceKey(ids[w.account], ImportCurrency(w.balanceType), w.balance))
        && Imported(after, ids[w.account], ImportCurrency(w.balanceType)) == w.balance
      else after == ledger
  {
    var after := ImportWallet(ledger, ids, w);
    if after != ledger {
      PostsDifference(ledger, ids[w.account], ImportCurrency(w.balanceType), w.balance);
      assert after[|ledger|].key == BalanceKey(ids[w.account], ImportCurrency(w.balanceType), w.balance);
    }
  }

  /** Importing balances moves no account and currency without a mapped wallet that is not negative. */
  lemma {:induction false} UnlistedUntouched(ledger: seq<Txn>, ids: map<string, Account>, ws: seq<Wallet>, a: Account, c: string)
    requires forall i :: 0 <= i < |ws| && ws[i].balance >= 0 ==> !IsPair(ids, ws[i], a, c)
    ensures Imported(ImportWallets(ledger, ids, ws), a, c) == Imported(ledger, a, c)
  {
    if ws != [] {
      var front, w := ws[..|ws| - 1], ws[|ws| - 1];
      UnlistedUntouched(ledger, ids, front, a, c);
      var before := ImportWallets(ledger, ids, front);
      var after := ImportWallet(before, ids, w);
      if after != before {
        assert !IsPair(ids, w, a, c);
        ImportedAppend(before, after[|before|], a, c);
      }
    }
  }

  /** How v2 names of balance types are read; any other is kept in capitals. */
  lemma CurrencyNames(value: string)
    ensures var v := ToLower(TrimSpace(value));
      && (v in {"coins", "points", "point", ""} ==> ImportCurrency(value) == "POINTS")
      && (v in {"registration_days", "days"} ==> ImportCurrency(value) == "REGISTRATION_DAYS")
      && (v !in {"coins", "points", "point", "", "registration_days", "days"} ==>
            |ImportCurrency(value)| <= 16 && ImportCurrency(value) <= ToUpper(TrimSpace(value)) && ImportCurrency(value) != "")
  {
    if ToLower(TrimSpace(value)) == "" { BlankCurrency(value); }
  }
}
