/** Every change of an account, however the transactions interleave: what it was asked for and
    what it had passed (AssignRoles in v3/internal/identity/governance.go, ChangeLifecycle and
    BootstrapOwner in accounts.go). */
module OwnerEffects {
  import opened Owners
  import opened OwnerStore

  /** The table of transitions: pending accounts are activated, active ones stopped, stopped
      ones activated or stopped harder, and any of them deleted for good. */
  predicate Moves(from: Status, to: Status) {
    && from != Deleted && to != Pending && from != to
    && (to == Suspended ==> from == Active) && (to == Banned ==> from in {Active, Suspended})
  }

  lemma AllowedAreMoves(from: Status, to: Status)
    ensures Allowed(from, to) <==> Moves(from, to)
  {
  }

  // ---- Alone ----

  /** Another account is an active owner. */
  ghost predicate AnotherOwner(s: State, a: AccountId) {
    exists b :: b != a && b in s.accounts && s.accounts[b].status == Active && "owner" in s.accounts[b].roles
  }

  /** The request may be carried out: it is acceptable, and leaves an active owner if the
      account is one now. */
  ghost predicate Acceptable(s: State, r: Request) {
    && r.account in s.accounts
    && var now := s.accounts[r.account];
    && (r.SetRoles? ==> forall code :: code in r.codes ==> code in s.known)
    && (r.SetStatus? ==> Moves(now.status, r.to))
    && (now.status == Active && "owner" in now.roles && (r.SetStatus? || "owner" !in r.codes) ==> AnotherOwner(s, r.account))
  }

  /** The account is as the request asks, and nothing else has changed. */
  predicate CarriedOut(before: map<AccountId, Account>, after: map<AccountId, Account>, r: Request) {
    && r.account in before && after.Keys == before.Keys
    && (forall a :: a in before && a != r.account ==> after[a] == before[a])
    && (r.SetRoles? ==> after[r.account] == Account(before[r.account].status, r.codes))
    && (r.SetStatus? ==> after[r.account] == Account(r.to, before[r.account].roles))
  }

  lemma RefusedMeans(s: State, r: Request)
    ensures Refused(s, r) <==> !Acceptable(s, r)
  {
    if r.account in s.accounts {
      if r.SetStatus? { AllowedAreMoves(s.accounts[r.account].status, r.to); }
      if IsOwner(s.accounts[r.account]) { LastOwnerMeans(s, r.account); }
    }
  }

  lemma LastOwnerMeans(s: State, a: AccountId)
    requires a in s.accounts && IsOwner(s.accounts[a])
    ensures ActiveOwners(s.accounts) == {a} <==> !AnotherOwner(s, a)
  {
    if b :| b in ActiveOwners(s.accounts) && b != a { assert AnotherOwner(s, a); }
    if AnotherOwner(s, a) {
      var b :| b != a && b in s.accounts && s.accounts[b].status == Active && "owner" in s.accounts[b].roles;
      assert b in ActiveOwners(s.accounts);
    } else {
      assert ActiveOwners(s.accounts) == {a};
    }
  }

  /** A transaction that nobody interferes with carries its request out exactly when it is
      acceptable, and otherwise changes nothing. */
  lemma AloneDoes(s: State, t: TxId, r: Request)
    requires Quiet(s)
    ensures var after := Through(Step(s, Begin(t, r)), t);
      Quiet(after) && if Acceptable(s, r) then CarriedOut(s.accounts, after.accounts, r) else after.accounts == s.accounts
  {
    TransactionAlone(s, t, r);
    RefusedMeans(s, r);
  }

  // ---- Among others ----

  /** What a transaction has passed by the time it may commit. */
  predicate Passed(s: State, t: TxId)
    requires t in s.txs
  {
    var r, pc := s.txs[t].request, s.txs[t].pc;
    && (r.SetStatus? && (pc.Owning? || pc.Counting? || pc.Ready?) ==> Moves(pc.from, r.to))
    && (r.SetRoles? && (pc.Counting? || pc.Ready?) ==> r.codes <= s.known)
  }

  predicate AllPassed(s: State) {
    forall t :: t in s.txs ==> Passed(s, t)
  }

  lemma PassingRole(s: State, t: TxId)
    requires Inv(s) && AllPassed(s) && t in s.txs && s.txs[t].pc.Locked?
    ensures AllPassed(LockRoleStep(s, t, s.txs[t].pc.from))
  {
    var s' := LockRoleStep(s, t, s.txs[t].pc.from);
    forall u | u in s'.txs ensures Passed(s', u) { assert Passed(s, u); }
    if s.txs[t].request.SetStatus? { AllowedAreMoves(s.txs[t].pc.from, s.txs[t].request.to); }
  }

  lemma PassingChecks(s: State, t: TxId)
    requires Inv(s) && AllPassed(s) && t in s.txs && s.txs[t].pc.Owning?
    ensures AllPassed(CheckOwnerStep(s, t, s.txs[t].pc.from))
  {
    var s' := CheckOwnerStep(s, t, s.txs[t].pc.from);
    assert TxOk(s, t);
    forall u | u in s'.txs ensures Passed(s', u) { assert Passed(s, u); }
  }

  lemma PassingCount(s: State, t: TxId)
    requires AllPassed(s) && t in s.txs && s.txs[t].pc.Counting?
    ensures AllPassed(CountOwnersStep(s, t, s.txs[t].pc.from))
  {
    var s' := CountOwnersStep(s, t, s.txs[t].pc.from);
    forall u | u in s'.txs ensures Passed(s', u) { assert Passed(s, u); }
  }

  lemma PassingOthers(s: State, e: Event)
    requires AllPassed(s) && !e.LockRole? && !e.CheckOwner? && !e.CountOwners?
    ensures AllPassed(Step(s, e))
  {
    var s' := Step(s, e);
    forall u | u in s'.txs ensures Passed(s', u) {
      if u in s.txs { assert Passed(s, u); }
    }
  }

  lemma PassingStep(s: State, e: Event)
    requires Inv(s) && AllPassed(s)
    ensures AllPassed(Step(s, e))
  {
    match e
    case LockRole(t) => if t in s.txs && s.txs[t].pc.Locked? { PassingRole(s, t); }
    case CheckOwner(t) => if t in s.txs && s.txs[t].pc.Owning? { PassingChecks(s, t); }
    case CountOwners(t) => if t in s.txs && s.txs[t].pc.Counting? { PassingCount(s, t); }
    case _ => PassingOthers(s, e);
  }

  lemma KnownStays(s: State, e: Event)
    ensures Step(s, e).known == s.known
  {
  }

  lemma {:induction false} PassingRun(start: State, events: seq<Event>)
    requires Quiet(start)
    ensures Inv(Run(start, events)) && AllPassed(Run(start, events)) && Run(start, events).known == start.known
  {
    if events != [] {
      PassingRun(start, events[..|events| - 1]);
      PassingStep(Run(start, events[..|events| - 1]), events[|events| - 1]);
      KnownStays(Run(start, events[..|events| - 1]), events[|events| - 1]);
    }
    RunKeeps(start, events);
  }

  lemma CommitDoes(s: State, t: TxId)
    requires Inv(s) && AllPassed(s) && t in s.txs && s.txs[t].pc.Ready?
    ensures var r := s.txs[t].request; var after := Step(s, Commit(t)).accounts;
      && CarriedOut(s.accounts, after, r)
      && (r.SetRoles? ==> r.codes <= s.known) && (r.SetStatus? ==> Moves(s.accounts[r.account].status, r.to))
  {
    assert TxOk(s, t) && Passed(s, t);
  }

  /** However the transactions interleave: an account changes only by the commit of a
      transaction that was begun for it and carries out exactly its request; its status only
      ever moves along the table, from what it is at that moment; and roles are known ones. */
  lemma ChangesAreRequested(start: State, events: seq<Event>, e: Event)
    requires Quiet(start)
    ensures var s := Run(start, events); var after := Step(s, e).accounts;
      || after == s.accounts
      || (&& e.Commit? && e.t in s.txs && CarriedOut(s.accounts, after, s.txs[e.t].request)
          && (s.txs[e.t].request.SetRoles? ==> s.txs[e.t].request.codes <= start.known)
          && (s.txs[e.t].request.SetStatus? ==> Moves(s.accounts[s.txs[e.t].request.account].status, s.txs[e.t].request.to)))
      || (e.Register? && e.a !in s.accounts && after == s.accounts[e.a := Account(Active, e.roles)])
      || (&& e.Bootstrap? && e.a !in s.accounts && after == s.accounts[e.a := Account(Active, {"owner"})]
          && forall b :: b in s.accounts ==> "owner" !in s.accounts[b].roles)
  {
    PassingRun(start, events);
    var s := Run(start, events);
    if e.Commit? && e.t in s.txs && s.txs[e.t].pc.Ready? { CommitDoes(s, e.t); }
  }
}
