/** AssignRoles and ChangeLifecycle as the service executes them, and the proof that
    each, run without interference, is the run of its transaction in module Owners. */
module OwnerStore {
  import opened Options
  import opened Text
  import opened FolderSets
  import opened Owners
  import Sets

  datatype Outcome = Done | Invalid | NotFound | Forbidden | Conflict

  /** Statuses by their stored names. */
  function Named(to: string): Option<Status> {
    if to == "pending" then Some(Pending) else if to == "active" then Some(Active)
    else if to == "suspended" then Some(Suspended) else if to == "banned" then Some(Banned)
    else if to == "deleted" then Some(Deleted) else None
  }

  predicate LosesLastOwner(accounts: map<AccountId, Account>, r: Request)
    requires r.account in accounts
  {
    Removes(accounts[r.account], r) && ActiveOwners(accounts) == {r.account}
  }

  /** What AssignRoles does and answers. */
  function RolesOutcome(accounts: map<AccountId, Account>, known: set<string>, a: AccountId, codes: set<string>): Outcome {
    if codes == {} then Invalid
    else if a !in accounts then NotFound
    else if !(codes <= known) then Invalid
    else if LosesLastOwner(accounts, SetRoles(a, codes)) then Forbidden
    else Done
  }

  function StatusOutcome(accounts: map<AccountId, Account>, a: AccountId, to: string, reason: string): Outcome {
    var st := Named(TrimSpace(to));
    if ByteLen(TrimSpace(reason)) > 500 then Invalid
    else if a !in accounts then NotFound
    else if st == None || !Allowed(accounts[a].status, st.value) || TrimSpace(reason) == "" then Conflict
    else if LosesLastOwner(accounts, SetStatus(a, st.value)) then Forbidden
    else Done
  }

  lemma AtLeastOne(owners: set<AccountId>, a: AccountId)
    requires a in owners
    ensures |owners| <= 1 <==> owners == {a}
  {
    Sets.SubsetSize({a}, owners);
    if |owners| <= 1 && owners != {a} {
      var b :| b in owners && b != a;
      Sets.SubsetSize({a, b}, owners);
    }
  }

  class Directory {
    var accounts: map<AccountId, Account>
    const known: set<string>

    method CountActiveOwners() returns (n: nat)
      ensures n == |ActiveOwners(accounts)|
    {
      var left, owners := accounts.Keys, {};
      while left != {}
        invariant left <= accounts.Keys
        invariant owners == set a | a in accounts.Keys - left && IsOwner(accounts[a])
        decreases |left|
      {
        var a :| a in left;
        if IsOwner(accounts[a]) {
          owners := owners + {a};
        }
        left := left - {a};
      }
      assert owners == ActiveOwners(accounts);
      n := |owners|;
    }

    /** COUNT(*) <= 1 over the active owners, asked of one of them. */
    method IsLastOwner(a: AccountId) returns (last: bool)
      requires a in accounts && IsOwner(accounts[a])
      ensures last == (ActiveOwners(accounts) == {a})
    {
      var owners := CountActiveOwners();
      AtLeastOne(ActiveOwners(accounts), a);
      last := owners <= 1;
    }

    /** uniqueSorted. */
    method UniqueSorted(values: seq<string>) returns (codes: seq<string>)
      ensures codes == SortedList(Items(values)) && (codes == [] <==> Items(values) == {})
    {
      codes := MergeFolderSets([values]);
      assert [values][..0] == [];
      assert ItemsOfAll([values]) == Items(values);
      NoElements(codes);
    }

    /** Unknown roles, the last-owner check, then delete and reinsert the assignments. */
    method AssignRoles(a: AccountId, values: seq<string>) returns (r: Outcome)
      modifies this`accounts
      ensures r == RolesOutcome(old(accounts), known, a, Items(values))
      ensures accounts == if r == Done
        then old(accounts)[a := Applied(old(accounts)[a], SetRoles(a, Items(values)))] else old(accounts)
    {
      var codes := UniqueSorted(values);
      if codes == [] {
        return Invalid;
      }
      if a !in accounts {
        return NotFound;
      }
      var roles := Elements(codes);
      r := Replace(a, roles);
    }

    method Replace(a: AccountId, roles: set<string>) returns (r: Outcome)
      requires a in accounts && roles != {}
      modifies this`accounts
      ensures r == RolesOutcome(old(accounts), known, a, roles)
      ensures accounts == if r == Done then old(accounts)[a := old(accounts)[a].(roles := roles)] else old(accounts)
    {
      if !(roles <= known) {
        return Invalid;
      }
      if "owner" in accounts[a].roles && accounts[a].status == Active && "owner" !in roles {
        var last := IsLastOwner(a);
        if last {
          return Forbidden;
        }
      }
      accounts := accounts[a := accounts[a].(roles := {})];
      accounts := accounts[a := accounts[a].(roles := roles)];
      r := Done;
    }

    method ChangeLifecycle(a: AccountId, to: string, reason: string) returns (r: Outcome)
      modifies this`accounts
      ensures r == StatusOutcome(old(accounts), a, to, reason)
      ensures accounts == if r == Done
        then old(accounts)[a := Applied(old(accounts)[a], SetStatus(a, Named(TrimSpace(to)).value))] else old(accounts)
    {
      var st := Named(TrimSpace(to));
      if ByteLen(TrimSpace(reason)) > 500 {
        return Invalid;
      }
      if a !in accounts {
        return NotFound;
      }
      var from := accounts[a].status;
      if st == None || !Allowed(from, st.value) || TrimSpace(reason) == "" {
        return Conflict;
      }
      if from == Active && st.value != Active && "owner" in accounts[a].roles {
        var last := IsLastOwner(a);
        if last {
          return Forbidden;
        }
      }
      accounts := accounts[a := accounts[a].(status := st.value)];
      r := Done;
    }
  }

  // ---- Alone, the transaction does exactly that ----

  function Through(s: State, t: TxId): State {
    Step(Checks(Step(s, LockAccount(t)), t), Commit(t))
  }

  predicate Refused(s: State, r: Request) {
    || r.account !in s.accounts
    || (r.SetRoles? && !(r.codes <= s.known))
    || (r.SetStatus? && !Allowed(s.accounts[r.account].status, r.to))
    || LosesLastOwner(s.accounts, r)
  }

  lemma LockedAlone(s: State, t: TxId, r: Request)
    requires Quiet(s) && r.account in s.accounts
    ensures var begun := Step(s, Begin(t, r));
      Step(begun, LockAccount(t)) == LockedBy(s, t, r)
  {
  }

  predicate Decided(s: State, t: TxId, r: Request, after: State)
    requires r.account in s.accounts
  {
    && after.accounts == s.accounts
    && (Refused(s, r) ==> Quiet(after))
    && (!Refused(s, r) ==>
          && after.txs == map[t := Tx(r, Ready(s.accounts[r.account].status))]
          && after.accountLock == map[r.account := t]
          && (after.roleLock.Some? ==> after.roleLock == Some(t)))
  }

  function Checks(s: State, t: TxId): State {
    Step(Step(Step(s, LockRole(t)), CheckOwner(t)), CountOwners(t))
  }

  function LockedBy(s: State, t: TxId, r: Request): State
    requires r.account in s.accounts
  {
    s.(txs := map[t := Tx(r, Locked(s.accounts[r.account].status))], accountLock := map[r.account := t])
  }

  lemma RolesDecided(s: State, t: TxId, r: Request)
    requires Quiet(s) && r.account in s.accounts && r.SetRoles?
    ensures Decided(s, t, r, Checks(LockedBy(s, t, r), t))
  {
    var owning := Step(LockedBy(s, t, r), LockRole(t));
    assert owning.txs == map[t := Tx(r, Owning(s.accounts[r.account].status))] && owning.roleLock == Some(t);
    if IsOwner(s.accounts[r.account]) { AtLeastOne(ActiveOwners(s.accounts), r.account); }
  }

  lemma UncountedDecided(s: State, t: TxId, r: Request)
    requires Quiet(s) && r.account in s.accounts && r.SetStatus?
    requires !(s.accounts[r.account].status == Active && Allowed(Active, r.to))
    ensures Decided(s, t, r, Checks(LockedBy(s, t, r), t))
  {
  }

  lemma CountedDecided(s: State, t: TxId, r: Request)
    requires Quiet(s) && r.account in s.accounts && r.SetStatus?
    requires s.accounts[r.account].status == Active && Allowed(Active, r.to)
    ensures Decided(s, t, r, Checks(LockedBy(s, t, r), t))
  {
    var owning := Step(LockedBy(s, t, r), LockRole(t));
    assert owning.txs == map[t := Tx(r, Owning(Active))] && owning.roleLock == Some(t);
    if IsOwner(s.accounts[r.account]) { AtLeastOne(ActiveOwners(s.accounts), r.account); }
  }

  /** A transaction nobody interferes with commits its change exactly when the request is
      acceptable and keeps an owner, and otherwise changes nothing. */
  lemma TransactionAlone(s: State, t: TxId, r: Request)
    requires Quiet(s)
    ensures var after := Through(Step(s, Begin(t, r)), t);
      && Quiet(after)
      && after.accounts == if Refused(s, r) then s.accounts else s.accounts[r.account := Applied(s.accounts[r.account], r)]
  {
    var begun := Step(s, Begin(t, r));
    if r.account in s.accounts {
      LockedAlone(s, t, r);
      if r.SetRoles? {
        RolesDecided(s, t, r);
      } else if s.accounts[r.account].status == Active && Allowed(Active, r.to) {
        CountedDecided(s, t, r);
      } else {
        UncountedDecided(s, t, r);
      }
    } else {
      assert Quiet(Step(begun, LockAccount(t)));
    }
  }
}
