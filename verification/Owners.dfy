/** Role assignments and lifecycle changes as concurrent transactions that lock the
    account row, then the owner-role row (AssignRoles in v3/internal/identity/governance.go,
    ChangeLifecycle and BootstrapOwner in accounts.go). Every statement reads the
    committed rows; writes become visible at commit. */
module Owners {
  import opened Options
  import Sets

  type AccountId = nat
  type TxId = nat

  datatype Status = Pending | Active | Suspended | Banned | Deleted

  datatype Account = Account(status: Status, roles: set<string>)

  /** The transitions table. */
  predicate Allowed(from: Status, to: Status) {
    match from
    case Pending => to in {Active, Deleted}
    case Active => to in {Suspended, Banned, Deleted}
    case Suspended => to in {Active, Banned, Deleted}
    case Banned => to in {Active, Deleted}
    case Deleted => false
  }

  datatype Request =
    | SetRoles(account: AccountId, codes: set<string>)
    | SetStatus(account: AccountId, to: Status)

  /** Where a transaction is; `from` is the status it read under the account lock. */
  datatype Pc =
    | Waiting
    | Locked(from: Status)
    | Owning(from: Status)      // holds the owner-role row
    | Counting(from: Status)    // would take an owner away, about to count
    | Ready(from: Status)       // all checks passed

  datatype Tx = Tx(request: Request, pc: Pc)

  datatype State = State(
    accounts: map<AccountId, Account>, known: set<string>, txs: map<TxId, Tx>,
    accountLock: map<AccountId, TxId>, roleLock: Option<TxId>, bootstraps: nat)

  datatype Event =
    | Begin(t: TxId, request: Request)
    | LockAccount(t: TxId)
    | LockRole(t: TxId)
    | CheckOwner(t: TxId)
    | CountOwners(t: TxId)
    | Commit(t: TxId)
    | Abort(t: TxId)
    | Register(a: AccountId, roles: set<string>)
    | Bootstrap(a: AccountId)

  predicate IsOwner(a: Account) {
    a.status == Active && "owner" in a.roles
  }

  function ActiveOwners(accounts: map<AccountId, Account>): set<AccountId> {
    set a | a in accounts && IsOwner(accounts[a])
  }

  /** Does the request take the owner-role lock? */
  predicate NeedsRole(r: Request, from: Status) {
    r.SetRoles? || (from == Active && r.to != Active)
  }

  function Applied(a: Account, r: Request): Account {
    match r
    case SetRoles(_, codes) => a.(roles := codes)
    case SetStatus(_, to) => a.(status := to)
  }

  /** Would the commit turn an active owner into something else? */
  predicate Removes(a: Account, r: Request) {
    IsOwner(a) && !IsOwner(Applied(a, r))
  }

  function Goto(s: State, t: TxId, pc: Pc): State
    requires t in s.txs
  {
    s.(txs := s.txs[t := s.txs[t].(pc := pc)])
  }

  /** Commit and rollback both end the transaction and free its locks. */
  function Finished(s: State, t: TxId): State
    requires t in s.txs
  {
    var a := s.txs[t].request.account;
    s.(txs := s.txs - {t},
       accountLock := if a in s.accountLock && s.accountLock[a] == t then s.accountLock - {a} else s.accountLock,
       roleLock := if s.roleLock == Some(t) then None else s.roleLock)
  }

  function LockAccountStep(s: State, t: TxId): State
    requires t in s.txs
  {
    var a := s.txs[t].request.account;
    if a in s.accountLock then s
    else if a !in s.accounts then Finished(s, t)
    else Goto(s, t, Locked(s.accounts[a].status)).(accountLock := s.accountLock[a := t])
  }

  function LockRoleStep(s: State, t: TxId, from: Status): State
    requires t in s.txs
  {
    var r := s.txs[t].request;
    if r.SetStatus? && !Allowed(from, r.to) then Finished(s, t)
    else if !NeedsRole(r, from) then Goto(s, t, Ready(from))
    else if s.roleLock.Some? then s
    else Goto(s, t, Owning(from)).(roleLock := Some(t))
  }

  /** Unknown roles are refused; only taking an active owner away needs the count. */
  function CheckOwnerStep(s: State, t: TxId, from: Status): State
    requires t in s.txs
  {
    var r := s.txs[t].request;
    if r.account !in s.accounts || (r.SetRoles? && !(r.codes <= s.known)) then Finished(s, t)
    else if "owner" in s.accounts[r.account].roles && (r.SetStatus? || (from == Active && "owner" !in r.codes))
    then Goto(s, t, Counting(from))
    else Goto(s, t, Ready(from))
  }

  function CountOwnersStep(s: State, t: TxId, from: Status): State
    requires t in s.txs
  {
    if |ActiveOwners(s.accounts)| <= 1 then Finished(s, t) else Goto(s, t, Ready(from))
  }

  function CommitStep(s: State, t: TxId): State
    requires t in s.txs
  {
    var r := s.txs[t].request;
    if r.account !in s.accounts then Finished(s, t)
    else Finished(s, t).(accounts := s.accounts[r.account := Applied(s.accounts[r.account], r)])
  }

  function Step(s: State, e: Event): State {
    match e
    case Begin(t, request) => if t in s.txs then s else s.(txs := s.txs[t := Tx(request, Waiting)])
    case LockAccount(t) => if t in s.txs && s.txs[t].pc.Waiting? then LockAccountStep(s, t) else s
    case LockRole(t) => if t in s.txs && s.txs[t].pc.Locked? then LockRoleStep(s, t, s.txs[t].pc.from) else s
    case CheckOwner(t) => if t in s.txs && s.txs[t].pc.Owning? then CheckOwnerStep(s, t, s.txs[t].pc.from) else s
    case CountOwners(t) => if t in s.txs && s.txs[t].pc.Counting? then CountOwnersStep(s, t, s.txs[t].pc.from) else s
    case Commit(t) => if t in s.txs && s.txs[t].pc.Ready? then CommitStep(s, t) else s
    case Abort(t) => if t in s.txs then Finished(s, t) else s
    case Register(a, roles) => if a in s.accounts then s else s.(accounts := s.accounts[a := Account(Active, roles)])
    case Bootstrap(a) =>
      if a in s.accounts || exists b :: b in s.accounts && "owner" in s.accounts[b].roles then s
      else s.(accounts := s.accounts[a := Account(Active, {"owner"})], bootstraps := s.bootstraps + 1)
  }

  function Run(s: State, events: seq<Event>): State {
    if events == [] then s else Step(Run(s, events[..|events| - 1]), events[|events| - 1])
  }

  /** No transaction is open. */
  predicate Quiet(s: State) {
    s.txs == map[] && s.accountLock == map[] && s.roleLock == None
  }

  // ---- The invariant ----

  predicate HasAccount(pc: Pc) {
    !pc.Waiting?
  }

  predicate HasRole(r: Request, pc: Pc) {
    pc.Owning? || pc.Counting? || (pc.Ready? && NeedsRole(r, pc.from))
  }

  predicate TxOk(s: State, t: TxId)
    requires t in s.txs
  {
    var r, pc := s.txs[t].request, s.txs[t].pc;
    && (HasAccount(pc) <==> r.account in s.accountLock && s.accountLock[r.account] == t)
    && (HasRole(r, pc) <==> s.roleLock == Some(t))
    && (HasAccount(pc) ==> r.account in s.accounts && s.accounts[r.account].status == pc.from)
    && (pc.Owning? || pc.Counting? ==> NeedsRole(r, pc.from))
    && (pc.Ready? && Removes(s.accounts[r.account], r) ==>
          NeedsRole(r, pc.from) && ActiveOwners(s.accounts) - {r.account} != {})
  }

  predicate Inv(s: State) {
    && (forall t :: t in s.txs ==> TxOk(s, t))
    && (forall a :: a in s.accountLock ==> s.accountLock[a] in s.txs && s.txs[s.accountLock[a]].request.account == a)
    && (s.roleLock.Some? ==> s.roleLock.value in s.txs)
  }

  /** Without the owner-role lock nothing an active owner has is taken away. */
  lemma UnlockedNeverRemoves(a: Account, r: Request)
    requires !NeedsRole(r, a.status)
    ensures !Removes(a, r)
  {
  }

  lemma OthersUnaffected(s: State, s': State, t: TxId)
    requires Inv(s) && t in s.txs
    requires s'.accounts == s.accounts
    requires forall u :: u in s'.txs && u != t ==> u in s.txs && s'.txs[u] == s.txs[u]
    requires forall a :: a in s.accountLock && s.accountLock[a] != t ==> a in s'.accountLock && s'.accountLock[a] == s.accountLock[a]
    requires forall a :: a in s'.accountLock && s'.accountLock[a] != t ==> a in s.accountLock && s'.accountLock[a] == s.accountLock[a]
    requires s'.roleLock != s.roleLock ==> (s'.roleLock == Some(t) && s.roleLock == None) || (s'.roleLock == None && s.roleLock == Some(t))
    ensures forall u :: u in s'.txs && u != t ==> TxOk(s', u)
  {
    forall u | u in s'.txs && u != t ensures TxOk(s', u) { assert TxOk(s, u); }
  }

  lemma FinishedKeeps(s: State, t: TxId)
    requires Inv(s) && t in s.txs
    ensures Inv(Finished(s, t)) && Finished(s, t).accounts == s.accounts
  {
    assert TxOk(s, t);
    OthersUnaffected(s, Finished(s, t), t);
  }

  lemma LockAccountKeeps(s: State, t: TxId)
    requires Inv(s) && t in s.txs && s.txs[t].pc.Waiting?
    ensures Inv(LockAccountStep(s, t))
  {
    var a, s' := s.txs[t].request.account, LockAccountStep(s, t);
    assert TxOk(s, t);
    if a in s.accounts && a !in s.accountLock {
      OthersUnaffected(s, s', t);
    } else if a !in s.accountLock {
      FinishedKeeps(s, t);
    }
  }

  lemma LockRoleKeeps(s: State, t: TxId)
    requires Inv(s) && t in s.txs && s.txs[t].pc.Locked?
    ensures Inv(LockRoleStep(s, t, s.txs[t].pc.from))
  {
    var r, s' := s.txs[t].request, LockRoleStep(s, t, s.txs[t].pc.from);
    assert TxOk(s, t);
    FinishedKeeps(s, t);
    if t in s'.txs {
      OthersUnaffected(s, s', t);
      if !NeedsRole(r, s.txs[t].pc.from) { UnlockedNeverRemoves(s.accounts[r.account], r); }
    }
  }

  lemma CheckOwnerKeeps(s: State, t: TxId)
    requires Inv(s) && t in s.txs && s.txs[t].pc.Owning?
    ensures Inv(CheckOwnerStep(s, t, s.txs[t].pc.from))
  {
    var s' := CheckOwnerStep(s, t, s.txs[t].pc.from);
    assert TxOk(s, t);
    FinishedKeeps(s, t);
    if t in s'.txs { OthersUnaffected(s, s', t); }
  }

  lemma AnotherOwner(owners: set<AccountId>, a: AccountId)
    requires |owners| > 1
    ensures owners - {a} != {}
  {
    if owners - {a} == {} {
      assert owners <= {a};
      Sets.SubsetSize(owners, {a});
    }
  }

  lemma CountOwnersKeeps(s: State, t: TxId)
    requires Inv(s) && t in s.txs && s.txs[t].pc.Counting?
    ensures Inv(CountOwnersStep(s, t, s.txs[t].pc.from))
  {
    var s' := CountOwnersStep(s, t, s.txs[t].pc.from);
    assert TxOk(s, t);
    FinishedKeeps(s, t);
    if t in s'.txs {
      AnotherOwner(ActiveOwners(s.accounts), s.txs[t].request.account);
      OthersUnaffected(s, s', t);
    }
  }

  lemma OwnersAfter(accounts: map<AccountId, Account>, r: Request)
    requires r.account in accounts
    ensures var after := accounts[r.account := Applied(accounts[r.account], r)];
      && ActiveOwners(accounts) - {r.account} <= ActiveOwners(after)
      && (!Removes(accounts[r.account], r) ==> ActiveOwners(accounts) <= ActiveOwners(after))
  {
  }

  /** A commit leaves the checks of every other transaction true. */
  lemma CommitSparesOthers(s: State, t: TxId, u: TxId)
    requires Inv(s) && t in s.txs && s.txs[t].pc.Ready? && u in s.txs && u != t
    ensures u in CommitStep(s, t).txs && TxOk(CommitStep(s, t), u)
  {
    var r, q := s.txs[t].request, s.txs[u].request;
    assert TxOk(s, t) && TxOk(s, u);
    OwnersAfter(s.accounts, r);
    if s.txs[u].pc.Ready? && Removes(s.accounts[q.account], q) {
      UnlockedNeverRemoves(s.accounts[r.account], r);
    }
  }

  lemma CommitKeeps(s: State, t: TxId)
    requires Inv(s) && t in s.txs && s.txs[t].pc.Ready?
    ensures Inv(CommitStep(s, t))
    ensures ActiveOwners(s.accounts) != {} ==> ActiveOwners(CommitStep(s, t).accounts) != {}
  {
    assert TxOk(s, t);
    FinishedKeeps(s, t);
    OwnersAfter(s.accounts, s.txs[t].request);
    forall u | u in CommitStep(s, t).txs ensures TxOk(CommitStep(s, t), u) {
      CommitSparesOthers(s, t, u);
    }
  }

  lemma MoreAccounts(s: State, a: AccountId, account: Account, bootstraps: nat)
    requires Inv(s) && a !in s.accounts
    ensures Inv(s.(accounts := s.accounts[a := account], bootstraps := bootstraps))
    ensures ActiveOwners(s.accounts) <= ActiveOwners(s.accounts[a := account])
  {
    var s' := s.(accounts := s.accounts[a := account], bootstraps := bootstraps);
    forall t | t in s'.txs ensures TxOk(s', t) { assert TxOk(s, t); }
  }

  lemma BeginKeeps(s: State, t: TxId, request: Request)
    requires Inv(s) && t !in s.txs
    ensures Inv(s.(txs := s.txs[t := Tx(request, Waiting)]))
  {
    var s' := s.(txs := s.txs[t := Tx(request, Waiting)]);
    forall u | u in s'.txs && u != t ensures TxOk(s', u) { assert TxOk(s, u); }
  }

  lemma StepKeeps(s: State, e: Event)
    requires Inv(s)
    ensures Inv(Step(s, e))
    ensures ActiveOwners(s.accounts) != {} ==> ActiveOwners(Step(s, e).accounts) != {}
  {
    match e
    case Begin(t, request) => if t !in s.txs { BeginKeeps(s, t, request); }
    case LockAccount(t) => if t in s.txs && s.txs[t].pc.Waiting? { LockAccountKeeps(s, t); }
    case LockRole(t) => if t in s.txs && s.txs[t].pc.Locked? { LockRoleKeeps(s, t); }
    case CheckOwner(t) => if t in s.txs && s.txs[t].pc.Owning? { CheckOwnerKeeps(s, t); }
    case CountOwners(t) => if t in s.txs && s.txs[t].pc.Counting? { CountOwnersKeeps(s, t); }
    case Commit(t) => if t in s.txs && s.txs[t].pc.Ready? { CommitKeeps(s, t); }
    case Abort(t) => if t in s.txs { FinishedKeeps(s, t); }
    case Register(a, roles) => if a !in s.accounts { MoreAccounts(s, a, Account(Active, roles), s.bootstraps); }
    case Bootstrap(a) =>
      if a !in s.accounts { MoreAccounts(s, a, Account(Active, {"owner"}), s.bootstraps + 1); }
  }

  lemma {:induction false} RunKeeps(s: State, events: seq<Event>)
    requires Inv(s)
    ensures Inv(Run(s, events))
    ensures ActiveOwners(s.accounts) != {} ==> ActiveOwners(Run(s, events).accounts) != {}
  {
    if events != [] {
      RunKeeps(s, events[..|events| - 1]);
      StepKeeps(Run(s, events[..|events| - 1]), events[|events| - 1]);
    }
  }
}
