/** The double-entry ledger (v3/internal/platform/wallet.go).

    A posted transaction is immutable, so the ledger is a growing sequence and a
    balance is a fold over it. */
module Ledger {
  import opened Text
  import opened Keys

  datatype Error = Invalid | NotFound | Forbidden | Conflict | Storage

  datatype Side = Debit | Credit

  /** (owner_type, owner_id, code, currency) identifies a ledger account. */
  datatype LedgerAccount = Wallet(owner: Uuid, currency: string) | System(code: string, currency: string)

  datatype Posting = Posting(account: LedgerAccount, side: Side, amount: int)

  datatype Kind = Recharge | Refund | AdminAdjustment | MembershipPurchase

  /** `signedAmount` is the adjustment recorded in the metadata, 0 for other kinds. */
  datatype Txn = Txn(key: Key, kind: Kind, currency: string, reference: Uuid, signedAmount: int, postings: seq<Posting>)

  function NormalizeCurrency(value: string): string {
    var v := ToUpper(TrimSpace(value));
    if v == "" then "POINTS" else v
  }

  /** ^[A-Z][A-Z0-9_]{1,15}$ */
  predicate IsCurrency(s: string) {
    && 2 <= |s| <= 16 && 'A' <= s[0] <= 'Z'
    && forall i :: 0 <= i < |s| ==> 'A' <= s[i] <= 'Z' || '0' <= s[i] <= '9' || s[i] == '_'
  }

  lemma CurrencyIsNormal(s: string)
    requires IsCurrency(s)
    ensures NormalizeCurrency(s) == s
  {
    TrimmedIsFixed(s);
    assert ToUpper(s) == s;
  }

  function SideTotal(ps: seq<Posting>, side: Side): int {
    if ps == [] then 0
    else SideTotal(ps[..|ps| - 1], side) + if ps[|ps| - 1].side == side then ps[|ps| - 1].amount else 0
  }

  function Signed(p: Posting): int {
    if p.side == Credit then p.amount else -p.amount
  }

  /** Credits minus debits that these postings put on one account. */
  function Delta(ps: seq<Posting>, a: LedgerAccount): int {
    if ps == [] then 0
    else Delta(ps[..|ps| - 1], a) + if ps[|ps| - 1].account == a then Signed(ps[|ps| - 1]) else 0
  }

  /** walletBalanceTx: credits minus debits over the posted transactions. */
  function Balance(ledger: seq<Txn>, a: LedgerAccount): int {
    if ledger == [] then 0
    else Balance(ledger[..|ledger| - 1], a) + Delta(ledger[|ledger| - 1].postings, a)
  }

  /** What LedgerInvariant and the posting trigger demand of a transaction. */
  predicate Balanced(t: Txn) {
    && |t.postings| >= 2
    && SideTotal(t.postings, Debit) == SideTotal(t.postings, Credit) > 0
    && forall i :: 0 <= i < |t.postings| ==>
      t.postings[i].amount > 0 && t.postings[i].account.currency == t.currency
  }

  /** The row holding an idempotency key, or -1. */
  function FindKey(ledger: seq<Txn>, text: string): (i: int)
    ensures -1 <= i < |ledger|
    ensures i >= 0 ==> ledger[i].key.Render() == text
    ensures i == -1 ==> forall j :: 0 <= j < |ledger| ==> ledger[j].key.Render() != text
  {
    if ledger == [] then -1
    else
      var i := FindKey(ledger[..|ledger| - 1], text);
      if i >= 0 then i
      else if ledger[|ledger| - 1].key.Render() == text then |ledger| - 1 else -1
  }

  datatype PostResult = Posted(ledger: seq<Txn>) | Replayed(index: nat) | Rejected(error: Error)

  predicate AllPositive(ps: seq<Posting>) {
    forall i :: 0 <= i < |ps| ==> ps[i].amount > 0
  }

  /** The posting trigger: every entry is on an account of the transaction's currency. */
  predicate SameCurrency(t: Txn) {
    forall i :: 0 <= i < |t.postings| ==> t.postings[i].account.currency == t.currency
  }

  /** What posting a transaction does to the ledger. */
  function Post(ledger: seq<Txn>, t: Txn): PostResult {
    var text := TrimSpace(t.key.Render());
    var u := t.(currency := NormalizeCurrency(t.currency));
    if text == "" || ByteLen(text) > 255 || !IsCurrency(u.currency) || |t.postings| < 2 then Rejected(Invalid)
    else if FindKey(ledger, text) >= 0 then Replayed(FindKey(ledger, text))
    else if !AllPositive(t.postings) then Rejected(Invalid)
    else if SideTotal(t.postings, Debit) <= 0 || SideTotal(t.postings, Debit) != SideTotal(t.postings, Credit)
      then Rejected(Invalid)
    else if !SameCurrency(u) then Rejected(Storage)
    else Posted(ledger + [u])
  }

  /** The accumulation loop of postLedgerTx; it stops at the first bad amount. */
  method TotalSides(ps: seq<Posting>) returns (positive: bool, debit: int, credit: int)
    ensures positive == AllPositive(ps)
    ensures positive ==> debit == SideTotal(ps, Debit) && credit == SideTotal(ps, Credit)
  {
    debit, credit := 0, 0;
    for i := 0 to |ps|
      invariant AllPositive(ps[..i])
      invariant debit == SideTotal(ps[..i], Debit) && credit == SideTotal(ps[..i], Credit)
    {
      var posting := ps[i];
      if posting.amount <= 0 {
        return false, debit, credit;
      }
      assert ps[..i + 1][..i] == ps[..i];
      if posting.side == Debit {
        debit := debit + posting.amount;
      } else {
        credit := credit + posting.amount;
      }
    }
    assert ps[..|ps|] == ps;
    positive := true;
  }

  /** postLedgerTx: validate, look for a replay, total both sides, insert, post. */
  method PostLedgerTx(ledger: seq<Txn>, t: Txn) returns (r: PostResult)
    ensures r == Post(ledger, t)
  {
    var text := TrimSpace(t.key.Render());
    var currency := NormalizeCurrency(t.currency);
    if text == "" || ByteLen(text) > 255 || !IsCurrency(currency) || |t.postings| < 2 {
      return Rejected(Invalid);
    }
    var existing := FindKey(ledger, text);
    if existing >= 0 {
      return Replayed(existing);
    }
    var positive, debit, credit := TotalSides(t.postings);
    if !positive || debit <= 0 || debit != credit {
      return Rejected(Invalid);
    }
    var draft := t.(currency := currency);
    if !SameCurrency(draft) {
      return Rejected(Storage);
    }
    return Posted(ledger + [draft]);
  }

  /** A valid key is found exactly when some row carries that very key. */
  lemma FindKeyMeansSameKey(ledger: seq<Txn>, k: Key)
    requires k.Valid() && forall i :: 0 <= i < |ledger| ==> ledger[i].key.Valid()
    ensures FindKey(ledger, k.Render()) == -1 <==> forall i :: 0 <= i < |ledger| ==> ledger[i].key != k
    ensures FindKey(ledger, k.Render()) >= 0 ==> ledger[FindKey(ledger, k.Render())].key == k
  {
    forall i | 0 <= i < |ledger|
      ensures ledger[i].key.Render() == k.Render() <==> ledger[i].key == k
    {
      RenderInjective(ledger[i].key, k);
    }
  }

  /** Everything Post lets in is balanced, with a key no other row has. */
  lemma PostedIsBalanced(ledger: seq<Txn>, t: Txn)
    requires t.key.Valid() && forall i :: 0 <= i < |ledger| ==> ledger[i].key.Valid()
    requires Post(ledger, t).Posted?
    ensures |Post(ledger, t).ledger| == |ledger| + 1 && Post(ledger, t).ledger[..|ledger|] == ledger
    ensures Balanced(Post(ledger, t).ledger[|ledger|])
    ensures forall i :: 0 <= i < |ledger| ==> ledger[i].key != t.key
  {
    RenderFits(t.key);
    FindKeyMeansSameKey(ledger, t.key);
  }

  lemma BalanceOfAppend(ledger: seq<Txn>, t: Txn, a: LedgerAccount)
    ensures Balance(ledger + [t], a) == Balance(ledger, a) + Delta(t.postings, a)
  {
    assert (ledger + [t])[..|ledger|] == ledger;
  }

  function Share(p: Posting, a: LedgerAccount): int {
    if p.account == a then Signed(p) else 0
  }

  lemma TwoPostings(p: Posting, q: Posting, a: LedgerAccount)
    ensures Delta([p, q], a) == Share(p, a) + Share(q, a)
    ensures p.side != q.side ==>
      SideTotal([p, q], p.side) == p.amount && SideTotal([p, q], q.side) == q.amount
  {
    assert [p, q][..1] == [p] && [p][..0] == [];
    assert Delta([p], a) == Share(p, a);
    assert SideTotal([p], p.side) == p.amount && (p.side != q.side ==> SideTotal([p], q.side) == 0);
  }

  // ---- The books balance: all accounts of a currency sum to zero ----

  predicate AllBalanced(ledger: seq<Txn>) {
    forall i :: 0 <= i < |ledger| ==> Balanced(ledger[i])
  }

  predicate Distinct(accounts: seq<LedgerAccount>) {
    forall i, j :: 0 <= i < j < |accounts| ==> accounts[i] != accounts[j]
  }

  function SumBalances(ledger: seq<Txn>, accounts: seq<LedgerAccount>): int {
    if accounts == [] then 0 else Balance(ledger, accounts[0]) + SumBalances(ledger, accounts[1..])
  }

  function SumDeltas(ps: seq<Posting>, accounts: seq<LedgerAccount>): int {
    if accounts == [] then 0 else Delta(ps, accounts[0]) + SumDeltas(ps, accounts[1..])
  }

  lemma {:induction false} SumBalancesStep(ledger: seq<Txn>, accounts: seq<LedgerAccount>)
    requires ledger != []
    ensures SumBalances(ledger, accounts)
            == SumBalances(ledger[..|ledger| - 1], accounts) + SumDeltas(ledger[|ledger| - 1].postings, accounts)
  {
    if accounts != [] { SumBalancesStep(ledger, accounts[1..]); }
  }

  lemma {:induction false} SumDeltasStep(ps: seq<Posting>, accounts: seq<LedgerAccount>)
    requires ps != [] && Distinct(accounts)
    ensures SumDeltas(ps, accounts) == SumDeltas(ps[..|ps| - 1], accounts)
            + if ps[|ps| - 1].account in accounts then Signed(ps[|ps| - 1]) else 0
  {
    if accounts != [] { SumDeltasStep(ps, accounts[1..]); }
  }

  lemma {:induction false} SumDeltasOfEmpty(accounts: seq<LedgerAccount>)
    ensures SumDeltas([], accounts) == 0
  {
    if accounts != [] { SumDeltasOfEmpty(accounts[1..]); }
  }

  /** The accounts of one currency see all of a transaction in it, and nothing of any other. */
  lemma {:induction false} SumDeltasTotal(ps: seq<Posting>, accounts: seq<LedgerAccount>, inside: bool)
    requires Distinct(accounts)
    requires forall i :: 0 <= i < |ps| ==> (ps[i].account in accounts <==> inside)
    ensures SumDeltas(ps, accounts) == if inside then SideTotal(ps, Credit) - SideTotal(ps, Debit) else 0
  {
    if ps == [] {
      SumDeltasOfEmpty(accounts);
    } else {
      SumDeltasStep(ps, accounts);
      SumDeltasTotal(ps[..|ps| - 1], accounts, inside);
    }
  }

  /** `accounts` lists, without repeats, the accounts of `currency` the ledger touches. */
  predicate Lists(accounts: seq<LedgerAccount>, ledger: seq<Txn>, currency: string) {
    && Distinct(accounts)
    && (forall a :: a in accounts ==> a.currency == currency)
    && (forall i, j :: 0 <= i < |ledger| && 0 <= j < |ledger[i].postings| ==>
          (ledger[i].postings[j].account.currency == currency ==> ledger[i].postings[j].account in accounts))
  }

  lemma {:induction false} TrialBalance(ledger: seq<Txn>, currency: string, accounts: seq<LedgerAccount>)
    requires AllBalanced(ledger) && Lists(accounts, ledger, currency)
    ensures SumBalances(ledger, accounts) == 0
  {
    if ledger == [] {
      if accounts != [] { TrialBalance(ledger, currency, accounts[1..]); }
    } else {
      var front, t := ledger[..|ledger| - 1], ledger[|ledger| - 1];
      assert Lists(accounts, front, currency) by {
        assert forall i :: 0 <= i < |front| ==> front[i] == ledger[i];
      }
      TrialBalance(front, currency, accounts);
      SumBalancesStep(ledger, accounts);
      SumDeltasTotal(t.postings, accounts, t.currency == currency);
    }
  }
}
