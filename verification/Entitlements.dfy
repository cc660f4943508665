/** Media-library entitlements: redeemed codes, direct grants, revocation and expiry
    (v3/internal/platform/access_lines.go, worker.go). */
module Entitlements {
  import opened Options
  import opened AccessTime
  import opened Text

  type Account = nat

  /** Resource kind and key. */
  type Resource = (string, string)

  datatype Status = Active | Expired | Revoked

  /** A binding of an account on an instance, in order of creation. */
  datatype Binding = Binding(account: Account, instance: nat, primary: bool, deleted: bool)

  /** A row of account_entitlements; `granted` is its history of grants. */
  datatype Entitlement = Entitlement(account: Account, instance: Option<nat>, binding: Option<nat>, resource: Resource,
                                     status: Status, expires: int, granted: seq<Grant>)

  datatype Code = Code(instance: Option<nat>, resource: Resource, days: nat, available: bool)

  /** The idempotency keys of queued folder syncs. A grant's key carries its time in
      nanoseconds and so is always new: `nth` says which grant of the row it was. */
  datatype SyncKey = RedeemKey(code: string) | GrantKey(row: nat, nth: nat) | RevokeKey(row: nat)

  datatype Db = Db(bindings: seq<Binding>, codes: map<string, Code>, rows: seq<Entitlement>, queued: set<SyncKey>)

  datatype Error = Invalid | NotFound | Conflict

  datatype Outcome = Ok(row: nat) | Err(error: Error)

  const DAY: nat := 86400

  predicate Serves(b: Binding, a: Account, instance: Option<nat>) {
    b.account == a && !b.deleted && (instance.Some? ==> b.instance == instance.value)
  }

  /** ORDER BY is_primary DESC, created_at LIMIT 1. */
  function PickBinding(bindings: seq<Binding>, a: Account, instance: Option<nat>): (r: Option<nat>)
    ensures r.Some? ==> r.value < |bindings| && Serves(bindings[r.value], a, instance)
    ensures r == None <==> forall i :: 0 <= i < |bindings| ==> !Serves(bindings[i], a, instance)
  {
    if bindings == [] then None
    else
      var i := |bindings| - 1;
      var earlier := PickBinding(bindings[..i], a, instance);
      if !Serves(bindings[i], a, instance) then earlier
      else if earlier == None || (bindings[i].primary && !bindings[earlier.value].primary) then Some(i)
      else earlier
  }

  /** The row ON CONFLICT(account_id, instance_id, resource_kind, resource_key) would hit.
      A NULL instance conflicts with nothing. */
  function FindRow(rows: seq<Entitlement>, a: Account, instance: Option<nat>, resource: Resource): (i: int)
    ensures -1 <= i < |rows|
    ensures i >= 0 ==> instance.Some? && rows[i].account == a && rows[i].instance == instance && rows[i].resource == resource
    ensures i == -1 && instance.Some? ==>
      forall j :: 0 <= j < |rows| ==> !(rows[j].account == a && rows[j].instance == instance && rows[j].resource == resource)
  {
    if rows == [] || instance == None then -1
    else
      var last := rows[|rows| - 1];
      var i := FindRow(rows[..|rows| - 1], a, instance, resource);
      if i >= 0 then i
      else if last.account == a && last.instance == instance && last.resource == resource then |rows| - 1 else -1
  }

  /** The INSERT ... ON CONFLICT DO UPDATE of both operations. */
  function Upsert(rows: seq<Entitlement>, a: Account, instance: Option<nat>, binding: Option<nat>, resource: Resource,
                  g: Grant): (r: (seq<Entitlement>, nat))
    ensures r.1 < |r.0| && |rows| <= |r.0| <= |rows| + 1
  {
    var i := FindRow(rows, a, instance, resource);
    if i == -1
    then (rows + [Entitlement(a, instance, binding, resource, Active, g.at + g.span, [g])], |rows|)
    else
      (rows[i := Prolonged(rows[i], binding, g)], i)
  }

  /** GREATEST(expires_at, NOW()) plus the granted time; the row is active again. */
  function Prolonged(row: Entitlement, binding: Option<nat>, g: Grant): Entitlement {
    row.(status := Active, binding := if binding.Some? then binding else row.binding,
         expires := (if row.expires > g.at then row.expires else g.at) + g.span,
         granted := row.granted + [g])
  }

  function InstanceOf(db: Db, instance: Option<nat>, binding: Option<nat>): Option<nat>
    requires binding.Some? ==> binding.value < |db.bindings|
  {
    if instance == None && binding.Some? then Some(db.bindings[binding.value].instance) else instance
  }

  /** enqueueEntitlementSyncTx: ON CONFLICT(idempotency_key) DO NOTHING. */
  function Enqueue(queued: set<SyncKey>, binding: Option<nat>, key: SyncKey): set<SyncKey> {
    if binding.Some? then queued + {key} else queued
  }

  /** Codes are compared trimmed and in capitals (entitlementDigest). */
  function CodeKey(code: string): string {
    ToUpper(TrimSpace(code))
  }

  function RedeemCode(db: Db, now: int, a: Account, text: string): (Db, Outcome) {
    var code := CodeKey(text);
    if code !in db.codes then (db, Err(NotFound))
    else
      var c := db.codes[code];
      if !c.available then (db, Err(Conflict))
      else
        var binding := PickBinding(db.bindings, a, c.instance);
        var (rows, i) := Upsert(db.rows, a, InstanceOf(db, c.instance, binding), binding, c.resource, Grant(now, c.days * DAY));
        (db.(rows := rows, codes := db.codes[code := c.(available := false)],
             queued := Enqueue(db.queued, binding, RedeemKey(code))), Ok(i))
  }

  /** A direct grant needs a binding. */
  function GrantEntitlement(db: Db, now: int, a: Account, instance: Option<nat>, requested: Resource, days: int): (Db, Outcome) {
    var resource := (Normalize(requested.0), TrimSpace(requested.1));
    if resource.0 != "emby_library" || resource.1 == "" || days < 1 || days > 3650 then (db, Err(Invalid))
    else
      var binding := PickBinding(db.bindings, a, instance);
      if binding == None then (db, Err(NotFound))
      else
        var (rows, i) := Upsert(db.rows, a, InstanceOf(db, instance, binding), binding, resource, Grant(now, days * DAY));
        (db.(rows := rows, queued := Enqueue(db.queued, binding, GrantKey(i, |rows[i].granted|))), Ok(i))
  }

  predicate ReasonGiven(reason: string) {
    TrimSpace(reason) != "" && ByteLen(TrimSpace(reason)) <= 500
  }

  function RevokeEntitlement(db: Db, i: nat, reason: string): (Db, Outcome) {
    if !ReasonGiven(reason) then (db, Err(Invalid))
    else if i >= |db.rows| || db.rows[i].status == Revoked then (db, Err(NotFound))
    else
      (db.(rows := db.rows[i := db.rows[i].(status := Revoked)],
           queued := Enqueue(db.queued, db.rows[i].binding, RevokeKey(i))), Ok(i))
  }

  /** The sweep of a completed sync over the rows of one binding. */
  function Sweep(rows: seq<Entitlement>, binding: nat, now: int): (r: seq<Entitlement>)
    ensures |r| == |rows|
  {
    seq(|rows|, i requires 0 <= i < |rows| =>
      if rows[i].binding == Some(binding) && rows[i].expires <= now then rows[i].(status := Expired) else rows[i])
  }

  datatype Op =
    | AddBinding(b: Binding)
    | AddCode(code: string, details: Code)
    | RedeemBy(now: int, account: Account, code: string)
    | GrantTo(now: int, account: Account, instance: Option<nat>, resource: Resource, days: int)
    | RevokeRow(row: nat, reason: string)
    | SweepOf(binding: nat, now: int)

  function Step(db: Db, op: Op): Db {
    match op
    case AddBinding(b) => db.(bindings := db.bindings + [b])
    case AddCode(code, details) => if CodeKey(code) in db.codes then db else db.(codes := db.codes[CodeKey(code) := details])
    case RedeemBy(now, a, code) => RedeemCode(db, now, a, code).0
    case GrantTo(now, a, instance, resource, days) => GrantEntitlement(db, now, a, instance, resource, days).0
    case RevokeRow(i, reason) => RevokeEntitlement(db, i, reason).0
    case SweepOf(binding, now) => db.(rows := Sweep(db.rows, binding, now))
  }

  function Run(db: Db, ops: seq<Op>): Db {
    if ops == [] then db else Step(Run(db, ops[..|ops| - 1]), ops[|ops| - 1])
  }

  const EMPTY: Db := Db([], map[], [], {})

  // ---- The recurrence ----

  predicate SameKey(r: Entitlement, q: Entitlement) {
    r.account == q.account && r.instance == q.instance && r.instance.Some? && r.resource == q.resource
  }

  predicate RowOk(r: Entitlement) {
    r.granted != [] && Expiry(None, r.granted) == Some(r.expires) && (r.instance == None ==> |r.granted| == 1)
  }

  predicate Inv(rows: seq<Entitlement>) {
    && (forall i :: 0 <= i < |rows| ==> RowOk(rows[i]))
    && (forall i, j :: 0 <= i < j < |rows| ==> !SameKey(rows[i], rows[j]))
  }

  lemma UpsertKeeps(rows: seq<Entitlement>, a: Account, instance: Option<nat>, binding: Option<nat>, resource: Resource, g: Grant)
    requires Inv(rows)
    ensures Inv(Upsert(rows, a, instance, binding, resource, g).0)
  {
    var i := FindRow(rows, a, instance, resource);
    if i >= 0 {
      ExpiryOfAppend(None, rows[i].granted, g);
    } else {
      assert [g][..0] == [];
      assert Expiry(None, [g]) == Some(g.at + g.span);
    }
  }

  lemma StepKeeps(db: Db, op: Op)
    requires Inv(db.rows)
    ensures Inv(Step(db, op).rows)
  {
    match op
    case RedeemBy(now, a, code) =>
      if CodeKey(code) in db.codes && db.codes[CodeKey(code)].available {
        var c := db.codes[CodeKey(code)];
        var binding := PickBinding(db.bindings, a, c.instance);
        UpsertKeeps(db.rows, a, InstanceOf(db, c.instance, binding), binding, c.resource, Grant(now, c.days * DAY));
      }
    case GrantTo(now, a, instance, requested, days) =>
      if Step(db, op) != db {
        var binding, resource := PickBinding(db.bindings, a, instance), (Normalize(requested.0), TrimSpace(requested.1));
        UpsertKeeps(db.rows, a, InstanceOf(db, instance, binding), binding, resource, Grant(now, days * DAY));
      }
    case AddBinding(_) =>
    case AddCode(_, _) =>
    case RevokeRow(_, _) =>
    case SweepOf(_, _) =>
  }

  lemma {:induction false} RunKeeps(ops: seq<Op>)
    ensures Inv(Run(EMPTY, ops).rows)
  {
    if ops != [] {
      RunKeeps(ops[..|ops| - 1]);
      StepKeeps(Run(EMPTY, ops[..|ops| - 1]), ops[|ops| - 1]);
    }
  }

  /** In every reachable state the expiry of an entitlement is the maximum its grants
      allow, whatever was revoked or expired in between, and there is one row for each
      account, instance and resource. */
  lemma ExpiryOfEntitlement(ops: seq<Op>, i: nat)
    requires i < |Run(EMPTY, ops).rows|
    ensures var rows := Run(EMPTY, ops).rows; var r := rows[i];
      && r.granted != [] && Bounds(None, r.granted, r.expires) && Attained(None, r.granted, r.expires)
      && (forall j :: 0 <= j < |rows| && j != i ==> !SameKey(r, rows[j]))
  {
    RunKeeps(ops);
    var rows := Run(EMPTY, ops).rows;
    assert RowOk(rows[i]);
    ExpiryIsMaximum(None, rows[i].granted);
  }

  lemma {:induction false} FoundByKey(rows: seq<Entitlement>, i: nat)
    requires i < |rows| && rows[i].instance.Some?
    requires forall j, k :: 0 <= j < k < |rows| ==> !SameKey(rows[j], rows[k])
    ensures FindRow(rows, rows[i].account, rows[i].instance, rows[i].resource) == i
  {
    var r, n := rows[i], |rows| - 1;
    if i < n {
      FoundByKey(rows[..n], i);
    } else {
      assert forall k :: 0 <= k < n ==> rows[..n][k] == rows[k] && !SameKey(rows[k], r);
    }
  }

  /** Revoking takes access away but not time: the next grant of the same resource
      ends exactly when it would have without the revocation. */
  lemma RevokedTimeReturns(rows: seq<Entitlement>, i: nat, binding: Option<nat>, g: Grant)
    requires Inv(rows) && i < |rows| && rows[i].instance.Some?
    ensures var r := rows[i];
      var kept := Upsert(rows, r.account, r.instance, binding, r.resource, g).0;
      var revoked := Upsert(rows[i := r.(status := Revoked)], r.account, r.instance, binding, r.resource, g).0;
      revoked == kept && kept[i].status == Active && kept[i].expires >= r.expires + g.span
  {
    var r := rows[i];
    FoundByKey(rows, i);
    FoundByKey(rows[i := r.(status := Revoked)], i);
    assert Prolonged(r.(status := Revoked), binding, g) == Prolonged(r, binding, g);
    assert rows[i := r.(status := Revoked)][i := Prolonged(r, binding, g)] == rows[i := Prolonged(r, binding, g)];
  }

  /** When the last row of a resource runs out. */
  function Until(rows: seq<Entitlement>, a: Account, resource: Resource): Option<int> {
    if rows == [] then None
    else
      var r, earlier := rows[|rows| - 1], Until(rows[..|rows| - 1], a, resource);
      if r.account != a || r.resource != resource || (earlier.Some? && earlier.value >= r.expires) then earlier
      else Some(r.expires)
  }

  lemma UntilOfOne(r: Entitlement)
    ensures Until([r], r.account, r.resource) == Some(r.expires)
  {
    assert [r][..0] == [];
  }

  lemma TwoExpiries(g: Grant, h: Grant)
    ensures Expiry(None, [g]) == Some(g.at + g.span)
    ensures Expiry(None, [g, h]) == Some((if g.at + g.span > h.at then g.at + g.span else h.at) + h.span)
  {
    assert [g, h][..1] == [g] && [g][..0] == [];
  }

  lemma SecondGrantProlongs(first: Entitlement, binding: Option<nat>, h: Grant)
    requires first.instance.Some?
    ensures Upsert([first], first.account, first.instance, binding, first.resource, h).0 == [Prolonged(first, binding, h)]
    ensures Until([Prolonged(first, binding, h)], first.account, first.resource) == Some(Prolonged(first, binding, h).expires)
  {
    FoundByKey([first], 0);
    UntilOfOne(Prolonged(first, binding, h));
  }

  lemma SecondGrantRunsBeside(first: Entitlement, binding: Option<nat>, h: Grant)
    requires first.instance == None
    ensures Until(Upsert([first], first.account, None, binding, first.resource, h).0, first.account, first.resource)
            == Some(if first.expires >= h.at + h.span then first.expires else h.at + h.span)
  {
    var two := Upsert([first], first.account, None, binding, first.resource, h).0;
    assert two[..1] == [first];
    UntilOfOne(first);
  }

  /** Two grants add up exactly when the instance is known or the first has lapsed: a code
      that names no instance, redeemed by an account without a binding, never conflicts
      with an earlier row, so its time runs beside that row's instead of after it. */
  lemma GrantsAddUpExactlyWhen(first: Entitlement, binding: Option<nat>, g: Grant, h: Grant)
    requires first.granted == [g] && RowOk(first) && g.at <= h.at && g.span > 0 && h.span > 0
    ensures var rows := Upsert([first], first.account, first.instance, binding, first.resource, h).0;
      Until(rows, first.account, first.resource) == Expiry(None, [g, h])
      <==> first.instance.Some? || g.at + g.span <= h.at
  {
    TwoExpiries(g, h);
    if first.instance.Some? { SecondGrantProlongs(first, binding, h); } else { SecondGrantRunsBeside(first, binding, h); }
  }

  // ---- What the folder sync is told to manage ----

  /** The sync's query: active, unexpired rows of one binding. */
  predicate Manages(r: Entitlement, binding: nat, now: int) {
    r.binding == Some(binding) && r.resource.0 == "emby_library" && r.status == Active && r.expires > now
  }

  predicate ManagedFolder(rows: seq<Entitlement>, binding: nat, now: int, key: string) {
    exists i :: 0 <= i < |rows| && Manages(rows[i], binding, now) && rows[i].resource.1 == key
  }

  /** Rows point to bindings of their own account and instance. */
  predicate Placed(db: Db) {
    forall i :: 0 <= i < |db.rows| && db.rows[i].binding.Some? ==>
      && db.rows[i].binding.value < |db.bindings|
      && db.bindings[db.rows[i].binding.value].account == db.rows[i].account
      && db.rows[i].instance == Some(db.bindings[db.rows[i].binding.value].instance)
  }

  lemma UpsertPlaces(db: Db, a: Account, instance: Option<nat>, resource: Resource, g: Grant)
    requires Placed(db)
    ensures var binding := PickBinding(db.bindings, a, instance);
      Placed(db.(rows := Upsert(db.rows, a, InstanceOf(db, instance, binding), binding, resource, g).0))
  {
  }

  lemma StepPlaces(db: Db, op: Op)
    requires Placed(db)
    ensures Placed(Step(db, op))
  {
    match op
    case RedeemBy(now, a, code) =>
      if CodeKey(code) in db.codes {
        var c := db.codes[CodeKey(code)];
        UpsertPlaces(db, a, c.instance, c.resource, Grant(now, c.days * DAY));
      }
    case GrantTo(now, a, instance, requested, days) =>
      var resource := (Normalize(requested.0), TrimSpace(requested.1));
      if Step(db, op) != db { UpsertPlaces(db, a, instance, resource, Grant(now, days * DAY)); }
    case AddBinding(_) =>
    case AddCode(_, _) =>
    case RevokeRow(_, _) =>
    case SweepOf(_, _) =>
  }

  lemma {:induction false} RunPlaces(ops: seq<Op>)
    ensures Placed(Run(EMPTY, ops))
  {
    if ops != [] {
      RunPlaces(ops[..|ops| - 1]);
      StepPlaces(Run(EMPTY, ops[..|ops| - 1]), ops[|ops| - 1]);
    }
  }

  /** A direct grant makes its folder managed for as long as it lasts, and revoking that
      row makes the folder unmanaged at once: no other row manages it for the binding. */
  lemma GrantManagesRevokeDoesNot(ops: seq<Op>, now: int, a: Account, instance: Option<nat>, key: string, days: int, later: int,
                                  reason: string)
    requires ReasonGiven(reason)
    requires GrantEntitlement(Run(EMPTY, ops), now, a, instance, ("emby_library", key), days).1.Ok?
    ensures var (db, r) := GrantEntitlement(Run(EMPTY, ops), now, a, instance, ("emby_library", key), days);
      && r.row < |db.rows| && db.rows[r.row].binding.Some?
      && var binding := db.rows[r.row].binding.value;
      && (later < now + days * DAY ==> ManagedFolder(db.rows, binding, later, TrimSpace(key)))
      && !ManagedFolder(RevokeEntitlement(db, r.row, reason).0.rows, binding, later, TrimSpace(key))
  {
    var op := GrantTo(now, a, instance, ("emby_library", key), days);
    assert (ops + [op])[..|ops|] == ops;
    RunKeeps(ops + [op]);
    RunPlaces(ops + [op]);
    var (db, r) := GrantEntitlement(Run(EMPTY, ops), now, a, instance, ("emby_library", key), days);
    assert db == Run(EMPTY, ops + [op]);
    var row := db.rows[r.row];
    if later < now + days * DAY { assert Manages(row, row.binding.value, later); }
    OnlyManager(db, r.row, later, reason);
  }

  lemma OnlyManager(db: Db, i: nat, later: int, reason: string)
    requires Inv(db.rows) && Placed(db) && i < |db.rows| && db.rows[i].binding.Some? && db.rows[i].status == Active
    requires db.rows[i].resource.0 == "emby_library" && ReasonGiven(reason)
    ensures !ManagedFolder(RevokeEntitlement(db, i, reason).0.rows, db.rows[i].binding.value, later, db.rows[i].resource.1)
  {
    var row, rows := db.rows[i], RevokeEntitlement(db, i, reason).0.rows;
    forall j | 0 <= j < |rows| && j != i ensures rows[j] == db.rows[j] && !SameKey(rows[j], row) {
      if j < i { assert !SameKey(db.rows[j], row); } else { assert !SameKey(row, db.rows[j]); }
    }
  }

  /** The folder of an active library entitlement is managed exactly until it expires. */
  lemma ManagedUntilExpiry(ops: seq<Op>, i: nat, later: int)
    requires i < |Run(EMPTY, ops).rows|
    requires var r := Run(EMPTY, ops).rows[i]; r.binding.Some? && r.status == Active && r.resource.0 == "emby_library"
    ensures var rows := Run(EMPTY, ops).rows;
      ManagedFolder(rows, rows[i].binding.value, later, rows[i].resource.1) <==> later < rows[i].expires
  {
    RunKeeps(ops);
    RunPlaces(ops);
    var rows := Run(EMPTY, ops).rows;
    if later < rows[i].expires { assert Manages(rows[i], rows[i].binding.value, later); }
    forall j | 0 <= j < |rows| && j != i ensures !SameKey(rows[i], rows[j]) {
      if j < i { assert !SameKey(rows[j], rows[i]); }
    }
  }

  // ---- The operations as the service writes them ----

  class Store {
    var bindings: seq<Binding>
    var codes: map<string, Code>
    var rows: seq<Entitlement>
    var queued: set<SyncKey>

    function State(): Db
      reads this
    {
      Db(bindings, codes, rows, queued)
    }

    method BindingFor(a: Account, instance: Option<nat>) returns (binding: Option<nat>)
      ensures binding == PickBinding(bindings, a, instance)
    {
      binding := None;
      for i := 0 to |bindings|
        invariant binding == PickBinding(bindings[..i], a, instance)
        invariant binding.Some? ==> binding.value < i
      {
        assert bindings[..i + 1][..i] == bindings[..i];
        if Serves(bindings[i], a, instance)
           && (binding == None || (bindings[i].primary && !bindings[binding.value].primary)) {
          binding := Some(i);
        }
      }
      assert bindings[..|bindings|] == bindings;
    }

    /** INSERT ... ON CONFLICT DO UPDATE ... RETURNING id. */
    method Insert(a: Account, instance: Option<nat>, binding: Option<nat>, resource: Resource, g: Grant) returns (i: nat)
      modifies this`rows
      ensures (rows, i) == Upsert(old(rows), a, instance, binding, resource, g)
    {
      var found := FindRow(rows, a, instance, resource);
      if found == -1 {
        i := |rows|;
        rows := rows + [Entitlement(a, instance, binding, resource, Active, g.at + g.span, [g])];
      } else {
        i := found;
        rows := rows[i := Prolonged(rows[i], binding, g)];
      }
    }

    method QueueSync(binding: Option<nat>, key: SyncKey)
      modifies this`queued
      ensures queued == Enqueue(old(queued), binding, key)
    {
      if binding.Some? && key !in queued {
        queued := queued + {key};
      }
    }

    method Redeem(now: int, a: Account, text: string) returns (r: Outcome)
      modifies this`rows, this`codes, this`queued
      ensures (State(), r) == RedeemCode(old(State()), now, a, text)
    {
      var code := CodeKey(text);
      if code !in codes {
        return Err(NotFound);
      }
      var c := codes[code];
      if !c.available {
        return Err(Conflict);
      }
      var instance := c.instance;
      var binding := BindingFor(a, instance);
      if instance == None && binding.Some? {
        instance := Some(bindings[binding.value].instance);
      }
      var i := Insert(a, instance, binding, c.resource, Grant(now, c.days * DAY));
      codes := codes[code := c.(available := false)];
      QueueSync(binding, RedeemKey(code));
      r := Ok(i);
    }

    method GrantTo(now: int, a: Account, requested: Option<nat>, asked: Resource, days: int) returns (r: Outcome)
      modifies this`rows, this`queued
      ensures (State(), r) == GrantEntitlement(old(State()), now, a, requested, asked, days)
    {
      var resource := (Normalize(asked.0), TrimSpace(asked.1));
      if resource.0 != "emby_library" || resource.1 == "" || days < 1 || days > 3650 {
        return Err(Invalid);
      }
      var instance := requested;
      var binding := BindingFor(a, instance);
      if binding == None {
        return Err(NotFound);
      }
      if instance == None {
        instance := Some(bindings[binding.value].instance);
      }
      var i := Insert(a, instance, binding, resource, Grant(now, days * DAY));
      QueueSync(binding, GrantKey(i, |rows[i].granted|));
      r := Ok(i);
    }

    method Revoke(i: nat, reason: string) returns (r: Outcome)
      modifies this`rows, this`queued
      ensures (State(), r) == RevokeEntitlement(old(State()), i, reason)
    {
      if !ReasonGiven(reason) {
        return Err(Invalid);
      }
      if i >= |rows| || rows[i].status == Revoked {
        return Err(NotFound);
      }
      rows := rows[i := rows[i].(status := Revoked)];
      QueueSync(rows[i].binding, RevokeKey(i));
      r := Ok(i);
    }
  }
}
