/** The importer's loops over history and wallets, and the reconciler's wallet report
    (Run in v3/internal/legacyimport/importer.go and v3/internal/reconcile/reconcile.go). */
module ImportStore {
  import opened FolderSets
  import opened LegacyImport

  class Importer {
    var ledger: seq<Txn>
    var conflicts: nat

    /** The imported total query. */
    method ImportedBalance(a: Account, c: string) returns (total: int)
      ensures total == Imported(ledger, a, c)
    {
      total := 0;
      for i := 0 to |ledger|
        invariant total == Imported(ledger[..i], a, c)
      {
        assert ledger[..i + 1][..i] == ledger[..i];
        if ledger[i].account == a && ledger[i].currency == c {
          total := total + ledger[i].amount;
        }
      }
      assert ledger[..|ledger|] == ledger;
    }

    method ImportOneWallet(a: Account, c: string, balance: int)
      modifies this`ledger
      ensures ledger == ImportBalance(old(ledger), a, c, balance)
    {
      var imported := ImportedBalance(a, c);
      var delta := balance - imported;
      if delta == 0 {
        return;
      }
      var key := BalanceKey(a, c, balance);
      if HasKey(ledger, key) {
        return;
      }
      ledger := ledger + [Txn(key, a, c, delta)];
    }

    method ImportOneEntry(a: Account, c: string, e: Entry)
      modifies this`ledger
      ensures ledger == if e.amount == 0 || HasKey(old(ledger), HistoryKey(e.id)) then old(ledger)
                        else old(ledger) + [Txn(HistoryKey(e.id), a, c, e.amount)]
    {
      if e.amount == 0 || HasKey(ledger, HistoryKey(e.id)) {
        return;
      }
      ledger := ledger + [Txn(HistoryKey(e.id), a, c, e.amount)];
    }

    /** The two loops of an import run; rows that cannot be imported become conflicts. */
    method Run(ids: map<string, Account>, s: Source)
      modifies this
      ensures ledger == Import(old(ledger), ids, s)
      ensures conflicts == old(conflicts) + Unmapped(ids, s.entries) + Refused(ids, s.wallets)
    {
      RunEntries(ids, s.entries);
      RunWallets(ids, s.wallets);
    }

    method RunEntries(ids: map<string, Account>, es: seq<Entry>)
      modifies this
      ensures ledger == ImportEntries(old(ledger), ids, es)
      ensures conflicts == old(conflicts) + Unmapped(ids, es)
    {
      for i := 0 to |es|
        invariant ledger == ImportEntries(old(ledger), ids, es[..i])
        invariant conflicts == old(conflicts) + Unmapped(ids, es[..i])
      {
        assert es[..i + 1][..i] == es[..i];
        if es[i].account !in ids {
          conflicts := conflicts + 1;
        } else {
          ImportOneEntry(ids[es[i].account], ImportCurrency(es[i].balanceType), es[i]);
        }
      }
      assert es[..|es|] == es;
    }

    method RunWallets(ids: map<string, Account>, ws: seq<Wallet>)
      modifies this
      ensures ledger == ImportWallets(old(ledger), ids, ws)
      ensures conflicts == old(conflicts) + Refused(ids, ws)
    {
      for i := 0 to |ws|
        invariant ledger == ImportWallets(old(ledger), ids, ws[..i])
        invariant conflicts == old(conflicts) + Refused(ids, ws[..i])
      {
        assert ws[..i + 1][..i] == ws[..i];
        if ws[i].account !in ids || ws[i].balance < 0 {
          conflicts := conflicts + 1;
        } else {
          ImportOneWallet(ids[ws[i].account], ImportCurrency(ws[i].balanceType), ws[i].balance);
        }
      }
      assert ws[..|ws|] == ws;
    }
  }

  /** How many rows an import run reports as conflicts. */
  function Unmapped(ids: map<string, Account>, es: seq<Entry>): nat {
    if es == [] then 0 else Unmapped(ids, es[..|es| - 1]) + if es[|es| - 1].account in ids then 0 else 1
  }

  function Refused(ids: map<string, Account>, ws: seq<Wallet>): nat {
    if ws == [] then 0
    else Refused(ids, ws[..|ws| - 1]) + if ws[|ws| - 1].account in ids && ws[|ws| - 1].balance >= 0 then 0 else 1
  }

  // ---- The reconciler ----

  /** A currency a totals map does not mention has total zero. */
  function At(totals: map<string, int>, c: string): int {
    if c in totals then totals[c] else 0
  }

  predicate InWallets(ws: seq<Wallet>, c: string) {
    exists i :: 0 <= i < |ws| && ReconcileCurrency(ws[i].balanceType) == c
  }

  predicate InLedger(ledger: seq<Txn>, c: string) {
    exists i :: 0 <= i < |ledger| && ledger[i].currency == c
  }

  lemma WalletsGrow(ws: seq<Wallet>, i: nat, c: string)
    requires i < |ws|
    ensures InWallets(ws[..i + 1], c) <==> InWallets(ws[..i], c) || ReconcileCurrency(ws[i].balanceType) == c
  {
    assert ws[..i + 1][i] == ws[i];
    assert forall j :: 0 <= j < i ==> ws[..i + 1][j] == ws[..i][j];
  }

  lemma LedgerGrows(ledger: seq<Txn>, i: nat, c: string)
    requires i < |ledger|
    ensures InLedger(ledger[..i + 1], c) <==> InLedger(ledger[..i], c) || ledger[i].currency == c
  {
    assert ledger[..i + 1][i] == ledger[i];
    assert forall j :: 0 <= j < i ==> ledger[..i + 1][j] == ledger[..i][j];
  }

  method SourceWalletTotals(ws: seq<Wallet>) returns (totals: map<string, int>)
    ensures forall c: string :: At(totals, c) == SourceTotal(ws, c)
    ensures forall c: string :: c in totals <==> InWallets(ws, c)
  {
    totals := map[];
    for i := 0 to |ws|
      invariant forall c: string :: At(totals, c) == SourceTotal(ws[..i], c)
      invariant forall c: string :: c in totals <==> InWallets(ws[..i], c)
    {
      assert ws[..i + 1][..i] == ws[..i];
      forall c: string { WalletsGrow(ws, i, c); }
      var key := ReconcileCurrency(ws[i].balanceType);
      totals := totals[key := At(totals, key) + ws[i].balance];
    }
    assert ws[..|ws|] == ws;
  }

  method ImportedWalletTotals(ledger: seq<Txn>) returns (totals: map<string, int>)
    ensures forall c: string :: At(totals, c) == ImportedTotal(ledger, c)
    ensures forall c: string :: c in totals <==> InLedger(ledger, c)
  {
    totals := map[];
    for i := 0 to |ledger|
      invariant forall c: string :: At(totals, c) == ImportedTotal(ledger[..i], c)
      invariant forall c: string :: c in totals <==> InLedger(ledger[..i], c)
    {
      assert ledger[..i + 1][..i] == ledger[..i];
      forall c: string { LedgerGrows(ledger, i, c); }
      totals := totals[ledger[i].currency := At(totals, ledger[i].currency) + ledger[i].amount];
    }
    assert ledger[..|ledger|] == ledger;
  }

  method Checks(source: map<string, int>, imported: map<string, int>, current: map<string, int>, ordered: seq<string>)
    returns (report: seq<MoneyCheck>)
    ensures |report| == |ordered|
    ensures forall j :: 0 <= j < |report| ==> report[j] == CheckOf(source, imported, current, ordered[j])
  {
    report := [];
    for i := 0 to |ordered|
      invariant |report| == i
      invariant forall j :: 0 <= j < i ==> report[j] == CheckOf(source, imported, current, ordered[j])
    {
      report := report + [CheckOf(source, imported, current, ordered[i])];
    }
  }

  datatype MoneyCheck = MoneyCheck(currency: string, source: int, imported: int, current: int, difference: int)

  /** One line of the report says the truth about its currency. */
  predicate Tells(line: MoneyCheck, ledger: seq<Txn>, ws: seq<Wallet>, current: map<string, int>) {
    var c := line.currency;
    && line.source == SourceTotal(ws, c) && line.imported == ImportedTotal(ledger, c) && line.current == At(current, c)
    && line.difference == Difference(ledger, ws, c)
  }

  /** The report lists, once and in order, exactly the currencies of a source wallet, of an
      imported transaction or of a wallet today, each with its totals and the exact
      difference; `current` are the totals of the wallets today. */
  method WalletReport(ledger: seq<Txn>, ws: seq<Wallet>, current: map<string, int>) returns (report: seq<MoneyCheck>)
    ensures forall i, j :: 0 <= i < j < |report| ==> Less(report[i].currency, report[j].currency)
    ensures forall i :: 0 <= i < |report| ==> Tells(report[i], ledger, ws, current)
    ensures forall c: string :: Listed(report, c) <==> InWallets(ws, c) || InLedger(ledger, c) || c in current
    ensures forall c: string :: Difference(ledger, ws, c) != 0 ==> Listed(report, c)
  {
    var source := SourceWalletTotals(ws);
    var imported := ImportedWalletTotals(ledger);
    var ordered := SortedKeys(source.Keys + imported.Keys + current.Keys);
    report := Checks(source, imported, current, ordered);
    forall c: string ensures Totals(source, imported, ledger, ws, c) { }
    ReportTells(report, ordered, source, imported, current, ledger, ws);
    forall c: string ensures Listed(report, c) <==> c in source || c in imported || c in current {
      ListedMeans(report, ordered, source, imported, current, c);
    }
  }

  predicate Totals(source: map<string, int>, imported: map<string, int>, ledger: seq<Txn>, ws: seq<Wallet>, c: string) {
    At(source, c) == SourceTotal(ws, c) && At(imported, c) == ImportedTotal(ledger, c)
  }

  lemma ListedMeans(report: seq<MoneyCheck>, ordered: seq<string>, source: map<string, int>, imported: map<string, int>,
                    current: map<string, int>, c: string)
    requires IsListOf(ordered, source.Keys + imported.Keys + current.Keys) && |report| == |ordered|
    requires forall j :: 0 <= j < |report| ==> report[j] == CheckOf(source, imported, current, ordered[j])
    ensures Listed(report, c) <==> c in source || c in imported || c in current
  {
    assert c in Elements(ordered) <==> c in source.Keys + imported.Keys + current.Keys;
    if i :| 0 <= i < |ordered| && ordered[i] == c { assert report[i].currency == c; }
    if i :| 0 <= i < |report| && report[i].currency == c { assert ordered[i] == c; }
  }

  lemma ReportTells(report: seq<MoneyCheck>, ordered: seq<string>, source: map<string, int>, imported: map<string, int>,
                    current: map<string, int>, ledger: seq<Txn>, ws: seq<Wallet>)
    requires IsListOf(ordered, source.Keys + imported.Keys + current.Keys) && |report| == |ordered|
    requires forall j :: 0 <= j < |report| ==> report[j] == CheckOf(source, imported, current, ordered[j])
    requires forall c: string :: Totals(source, imported, ledger, ws, c)
    ensures forall i, j :: 0 <= i < j < |report| ==> Less(report[i].currency, report[j].currency)
    ensures forall i :: 0 <= i < |report| ==> Tells(report[i], ledger, ws, current)
    ensures forall c: string :: Difference(ledger, ws, c) != 0 ==> Listed(report, c)
  {
    forall i | 0 <= i < |report| ensures Tells(report[i], ledger, ws, current) {
      assert Totals(source, imported, ledger, ws, ordered[i]);
    }
    forall c: string | Difference(ledger, ws, c) != 0 ensures Listed(report, c) {
      assert Totals(source, imported, ledger, ws, c);
      assert c in source || c in imported;
      ListedMeans(report, ordered, source, imported, current, c);
    }
  }

  function CheckOf(source: map<string, int>, imported: map<string, int>, current: map<string, int>, c: string): MoneyCheck {
    MoneyCheck(c, At(source, c), At(imported, c), At(current, c), At(imported, c) - At(source, c))
  }

  predicate Listed(report: seq<MoneyCheck>, c: string) {
    exists i :: 0 <= i < |report| && report[i].currency == c
  }

  /** The wallet blockers of Evaluate. */
  method WalletBlockers(report: seq<MoneyCheck>) returns (blockers: seq<string>)
    ensures blockers == [] <==> forall i :: 0 <= i < |report| ==> report[i].difference == 0
  {
    blockers := [];
    for i := 0 to |report|
      invariant blockers == [] <==> forall j :: 0 <= j < i ==> report[j].difference == 0
    {
      if report[i].difference != 0 {
        blockers := blockers + [report[i].currency];
      }
    }
  }

  /** Import, then reconcile: a first import of a well-formed source leaves no wallet blocker. */
  method ImportAndReconcile(importer: Importer, ids: map<string, Account>, s: Source, current: map<string, int>) returns (blockers: seq<string>)
    requires Sound(ids, s.wallets) && NoBlankTypes(s.wallets) && HistoryCovered(ids, s)
    requires Covered(importer.ledger, ids, s.wallets) && FreshBalances(importer.ledger, ids, s.wallets)
    modifies importer
    ensures importer.ledger == Import(old(importer.ledger), ids, s)
    ensures blockers == []
  {
    importer.Run(ids, s);
    var report := WalletReport(importer.ledger, s.wallets, current);
    forall i | 0 <= i < |report| ensures report[i].difference == 0 {
      assert Tells(report[i], importer.ledger, s.wallets, current);
      ImportReconciles(old(importer.ledger), ids, s, report[i].currency);
    }
    blockers := WalletBlockers(report);
  }
}
