/** What the locking of role and lifecycle changes promises over every interleaving
    (AssignRoles in v3/internal/identity/governance.go, ChangeLifecycle and
    BootstrapOwner in accounts.go). */
module OwnerLaws {
  import opened Options
  import opened Owners

  /** However many role and lifecycle transactions interleave, once there is an active
      owner there is one in every later state. */
  lemma LastOwnerStays(start: State, before: seq<Event>, after: seq<Event>)
    requires Quiet(start) && ActiveOwners(Run(start, before).accounts) != {}
    ensures ActiveOwners(Run(Run(start, before), after).accounts) != {}
  {
    RunKeeps(start, before);
    RunKeeps(Run(start, before), after);
  }

  lemma OwnerBlocksBootstrap(s: State, a: AccountId)
    requires ActiveOwners(s.accounts) != {}
    ensures Step(s, Bootstrap(a)) == s
  {
    var b :| b in ActiveOwners(s.accounts);
    assert b in s.accounts && "owner" in s.accounts[b].roles;
  }

  lemma BootstrapStep(s: State, a: AccountId)
    ensures var t := Step(s, Bootstrap(a));
      t.bootstraps != s.bootstraps ==> t.bootstraps == s.bootstraps + 1 && ActiveOwners(t.accounts) != {}
  {
    var t := Step(s, Bootstrap(a));
    if t.bootstraps != s.bootstraps { assert a in ActiveOwners(t.accounts); }
  }

  lemma OnlyBootstrapCounts(s: State, e: Event)
    requires !e.Bootstrap?
    ensures Step(s, e).bootstraps == s.bootstraps
  {
  }

  lemma {:induction false} BootstrapLeavesOwner(start: State, events: seq<Event>)
    requires Quiet(start) && start.bootstraps == 0
    ensures Run(start, events).bootstraps <= 1
    ensures Run(start, events).bootstraps == 1 ==> ActiveOwners(Run(start, events).accounts) != {}
  {
    if events != [] {
      var front, e := events[..|events| - 1], events[|events| - 1];
      var s := Run(start, front);
      BootstrapLeavesOwner(start, front);
      RunKeeps(start, front);
      StepKeeps(s, e);
      if e.Bootstrap? {
        BootstrapStep(s, e.a);
        if s.bootstraps == 1 { OwnerBlocksBootstrap(s, e.a); }
      } else {
        OnlyBootstrapCounts(s, e);
      }
    }
  }

  /** The owner account is bootstrapped at most once in the life of the database. */
  lemma BootstrappedOnce(start: State, events: seq<Event>)
    requires Quiet(start) && start.bootstraps == 0
    ensures Run(start, events).bootstraps <= 1
  {
    BootstrapLeavesOwner(start, events);
  }

  /** The next statement of a transaction is not waiting for a lock. */
  predicate Runnable(s: State, t: TxId)
    requires t in s.txs
  {
    var r, pc := s.txs[t].request, s.txs[t].pc;
    && (pc.Waiting? ==> r.account !in s.accountLock)
    && (pc.Locked? ==> s.roleLock == None || !NeedsRole(r, pc.from))
  }

  function Next(s: State, t: TxId): Event
    requires t in s.txs
  {
    match s.txs[t].pc
    case Waiting => LockAccount(t)
    case Locked(_) => LockRole(t)
    case Owning(_) => CheckOwner(t)
    case Counting(_) => CountOwners(t)
    case Ready(_) => Commit(t)
  }

  /** How many statements a transaction still has before it. */
  function Rank(pc: Pc): nat {
    match pc
    case Waiting => 5
    case Locked(_) => 4
    case Owning(_) => 3
    case Counting(_) => 2
    case Ready(_) => 1
  }

  /** A runnable transaction ends or gets strictly closer to its end. */
  lemma RunnableAdvances(s: State, t: TxId)
    requires Inv(s) && t in s.txs && Runnable(s, t)
    ensures var s' := Step(s, Next(s, t)); t in s'.txs ==> Rank(s'.txs[t].pc) < Rank(s.txs[t].pc)
  {
  }

  lemma SomeIsRunnable(s: State, t: TxId) returns (u: TxId)
    requires Inv(s) && t in s.txs
    ensures u in s.txs && Runnable(s, u)
  {
    assert TxOk(s, t);
    if s.roleLock.Some? {
      u := s.roleLock.value;
    } else if s.txs[t].pc.Waiting? && s.txs[t].request.account in s.accountLock {
      u := s.accountLock[s.txs[t].request.account];
    } else {
      u := t;
    }
    assert TxOk(s, u);
  }

  /** The lock order admits no deadlock: while a transaction is open, some transaction can run. */
  lemma NoDeadlock(start: State, events: seq<Event>, t: TxId)
    requires Quiet(start) && t in Run(start, events).txs
    ensures exists u :: u in Run(start, events).txs && Runnable(Run(start, events), u)
  {
    RunKeeps(start, events);
    var u := SomeIsRunnable(Run(start, events), t);
  }

  /** How many statements all open transactions still have before them. */
  ghost function Work(txs: map<TxId, Tx>): nat {
    if txs == map[] then 0
    else var t :| t in txs; Rank(txs[t].pc) + Work(txs - {t})
  }

  /** The sum does not depend on the order in which transactions are taken. */
  lemma {:induction false} WorkTake(txs: map<TxId, Tx>, t: TxId)
    requires t in txs
    ensures Work(txs) == Rank(txs[t].pc) + Work(txs - {t})
    decreases |txs|
  {
    var u :| u in txs && Work(txs) == Rank(txs[u].pc) + Work(txs - {u});
    if u != t {
      WorkTake(txs - {u}, t);
      WorkTake(txs - {t}, u);
      assert txs - {u} - {t} == txs - {t} - {u};
    }
  }

  lemma OthersStay(s: State, t: TxId)
    requires t in s.txs
    ensures Step(s, Next(s, t)).txs - {t} == s.txs - {t}
  {
  }

  /** Every statement of a runnable transaction leaves less work to do. */
  lemma WorkShrinks(s: State, t: TxId)
    requires Inv(s) && t in s.txs && Runnable(s, t)
    ensures Work(Step(s, Next(s, t)).txs) < Work(s.txs)
  {
    var after := Step(s, Next(s, t)).txs;
    RunnableAdvances(s, t);
    OthersStay(s, t);
    WorkTake(s.txs, t);
    if t in after { WorkTake(after, t); } else { assert after == after - {t}; }
  }

  /** From every reachable state the open transactions can be brought to their ends: some
      run of their own statements leaves none open. */
  lemma {:induction false} AllCanEnd(start: State, events: seq<Event>) returns (longer: seq<Event>)
    requires Quiet(start)
    ensures events <= longer && Run(start, longer).txs == map[]
    decreases Work(Run(start, events).txs)
  {
    longer := events;
    var s := Run(start, events);
    if s.txs != map[] {
      RunKeeps(start, events);
      var t :| t in s.txs;
      var u := SomeIsRunnable(s, t);
      WorkShrinks(s, u);
      var next := events + [Next(s, u)];
      assert next[..|events|] == events;
      longer := AllCanEnd(start, next);
    }
  }
}
