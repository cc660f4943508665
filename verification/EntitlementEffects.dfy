/** What redeeming a code, granting, revoking and sweeping do to the entitlement rows, in terms
    of the request and the tables before and after (RedeemEntitlementCode, GrantEntitlement and
    RevokeEntitlement in v3/internal/platform/access_lines.go, the sweep in worker.go). */
module EntitlementEffects {
  import opened Options
  import opened Text
  import opened AccessTime
  import opened Entitlements

  // ---- A code is spent once ----

  /** Nobody can redeem the code any more. */
  predicate Spent(db: Db, code: string) {
    code in db.codes && !db.codes[code].available
  }

  lemma SpentStep(db: Db, op: Op, code: string)
    requires Spent(db, code)
    ensures Spent(Step(db, op), code)
  {
  }

  lemma {:induction false} SpentRun(db: Db, ops: seq<Op>, code: string)
    requires Spent(db, code)
    ensures Spent(Run(db, ops), code)
  {
    if ops != [] {
      SpentRun(db, ops[..|ops| - 1], code);
      SpentStep(Run(db, ops[..|ops| - 1]), ops[|ops| - 1], code);
    }
  }

  /** Once a code has been redeemed, every later attempt to redeem it, by anybody and in any
      spelling, is a conflict and changes nothing, whatever happened in between. */
  lemma RedeemedOnce(db: Db, now: int, a: Account, code: string, more: seq<Op>, later: int, b: Account, again: string)
    requires RedeemCode(db, now, a, code).1.Ok? && ToUpper(TrimSpace(again)) == ToUpper(TrimSpace(code))
    ensures var t := Run(RedeemCode(db, now, a, code).0, more);
      RedeemCode(t, later, b, again) == (t, Err(Conflict))
  {
    SpentRun(RedeemCode(db, now, a, code).0, more, CodeKey(code));
  }

  /** How many redemptions of a code a run accepts. */
  function Redemptions(db: Db, ops: seq<Op>, code: string): nat {
    if ops == [] then 0
    else
      var front, op := ops[..|ops| - 1], ops[|ops| - 1];
      Redemptions(db, front, code)
      + if op.RedeemBy? && CodeKey(op.code) == code && RedeemCode(Run(db, front), op.now, op.account, op.code).1.Ok? then 1 else 0
  }

  /** In any run at most one redemption of a code is accepted. */
  lemma {:induction false} AtMostOneRedemption(db: Db, ops: seq<Op>, code: string)
    ensures Redemptions(db, ops, code) <= 1
    ensures Redemptions(db, ops, code) == 1 ==> Spent(Run(db, ops), code)
  {
    if ops != [] {
      AtMostOneRedemption(db, ops[..|ops| - 1], code);
      if Spent(Run(db, ops[..|ops| - 1]), code) { SpentStep(Run(db, ops[..|ops| - 1]), ops[|ops| - 1], code); }
    }
  }

  // ---- Which row is written, and how ----

  predicate SameResource(r: Entitlement, a: Account, instance: Option<nat>, resource: Resource) {
    r.account == a && r.instance == instance && r.instance.Some? && r.resource == resource
  }

  /** One grant goes to row `i`: the account's row for that instance and resource if there is
      one, otherwise a new row at the end; no other row changes. */
  predicate GrantedTo(rows: seq<Entitlement>, rows': seq<Entitlement>, i: nat, a: Account, instance: Option<nat>,
                      resource: Resource, binding: Option<nat>, at: int, span: nat)
  {
    && i < |rows'| && |rows'| == (if i < |rows| then |rows| else |rows| + 1) && i <= |rows|
    && (forall j :: 0 <= j < |rows| && j != i ==> rows'[j] == rows[j])
    && rows'[i].account == a && rows'[i].instance == instance && rows'[i].resource == resource && rows'[i].status == Active
    && (if i < |rows| then
          && SameResource(rows[i], a, instance, resource)
          && rows'[i].granted == rows[i].granted + [Grant(at, span)]
          && rows'[i].expires == (if rows[i].expires > at then rows[i].expires else at) + span
          && rows'[i].binding == (if binding.Some? then binding else rows[i].binding)
        else
          && (forall j :: 0 <= j < |rows| ==> !SameResource(rows[j], a, instance, resource))
          && rows'[i].granted == [Grant(at, span)] && rows'[i].expires == at + span && rows'[i].binding == binding)
  }

  lemma UpsertGrants(rows: seq<Entitlement>, a: Account, instance: Option<nat>, binding: Option<nat>, resource: Resource, g: Grant)
    ensures var (rows', i) := Upsert(rows, a, instance, binding, resource, g);
      GrantedTo(rows, rows', i, a, instance, resource, binding, g.at, g.span)
  {
  }

  /** Bindings of the account that are not deleted and serve the instance, if one is named. */
  predicate Eligible(bindings: seq<Binding>, j: int, a: Account, instance: Option<nat>) {
    && 0 <= j < |bindings| && bindings[j].account == a && !bindings[j].deleted
    && (instance == None || bindings[j].instance == instance.value)
  }

  /** A primary binding comes first, and among equals the oldest. */
  predicate Preferred(bindings: seq<Binding>, j: int, k: int)
    requires 0 <= j < |bindings| && 0 <= k < |bindings|
  {
    (bindings[j].primary && !bindings[k].primary) || (bindings[j].primary == bindings[k].primary && j <= k)
  }

  /** The binding that is picked is eligible and preferred to every other eligible one; none
      is picked exactly if none is eligible. */
  lemma {:induction false} PicksPreferred(bindings: seq<Binding>, a: Account, instance: Option<nat>)
    ensures var r := PickBinding(bindings, a, instance);
      if r.Some? then
        Eligible(bindings, r.value, a, instance)
        && forall j :: Eligible(bindings, j, a, instance) ==> Preferred(bindings, r.value, j)
      else forall j :: !Eligible(bindings, j, a, instance)
  {
    if bindings != [] {
      var front := bindings[..|bindings| - 1];
      PicksPreferred(front, a, instance);
      forall j | Eligible(bindings, j, a, instance) && j < |front| ensures Eligible(front, j, a, instance) { }
    }
  }

  /** The instance a grant is for: the one named, or that of the binding found. */
  predicate InstanceFor(bindings: seq<Binding>, named: Option<nat>, binding: Option<nat>, instance: Option<nat>) {
    && (named.Some? ==> instance == named)
    && (named == None && binding == None ==> instance == None)
    && (named == None && binding.Some? ==> binding.value < |bindings| && instance == Some(bindings[binding.value].instance))
  }

  ghost predicate BindingFor(bindings: seq<Binding>, a: Account, instance: Option<nat>, binding: Option<nat>) {
    if binding.Some? then
      Eligible(bindings, binding.value, a, instance)
      && forall j :: Eligible(bindings, j, a, instance) ==> Preferred(bindings, binding.value, j)
    else forall j :: 0 <= j < |bindings| ==> !Eligible(bindings, j, a, instance)
  }

  /** What an accepted redemption or grant did. */
  ghost predicate Delivered(db: Db, db': Db, i: nat, a: Account, named: Option<nat>, resource: Resource, at: int, span: nat,
                      instance: Option<nat>, binding: Option<nat>)
  {
    && BindingFor(db.bindings, a, named, binding) && InstanceFor(db.bindings, named, binding, instance)
    && GrantedTo(db.rows, db'.rows, i, a, instance, resource, binding, at, span)
    && db'.bindings == db.bindings
  }

  /** A redemption is accepted exactly when the code exists and is available; then the code is
      spent, one grant of its days of its resource goes to the account, and its binding, if it
      has one, is queued for a sync; and otherwise nothing changes. */
  lemma RedeemDoes(db: Db, now: int, a: Account, text: string) returns (instance: Option<nat>, binding: Option<nat>)
    ensures var code := ToUpper(TrimSpace(text)); var (db', r) := RedeemCode(db, now, a, text);
      && (r.Ok? <==> code in db.codes && db.codes[code].available)
      && (if r.Ok? then
            && db'.codes == db.codes[code := db.codes[code].(available := false)]
            && Delivered(db, db', r.row, a, db.codes[code].instance, db.codes[code].resource, now, db.codes[code].days * 86400,
                         instance, binding)
            && db'.queued == if binding.Some? then db.queued + {RedeemKey(code)} else db.queued
          else db' == db)
  {
    instance, binding := None, None;
    var code := CodeKey(text);
    if code in db.codes {
      var c := db.codes[code];
      PicksPreferred(db.bindings, a, c.instance);
      binding := PickBinding(db.bindings, a, c.instance);
      instance := InstanceOf(db, c.instance, binding);
      UpsertGrants(db.rows, a, instance, binding, c.resource, Grant(now, c.days * DAY));
    }
  }

  /** A direct grant is accepted exactly when it names a library and a number of days in range
      and the account has a binding for it. */
  lemma GrantDoes(db: Db, now: int, a: Account, named: Option<nat>, asked: Resource, days: int)
    returns (instance: Option<nat>, binding: Option<nat>)
    ensures var (db', r) := GrantEntitlement(db, now, a, named, asked, days);
      && (r.Ok? <==> Normalize(asked.0) == "emby_library" && TrimSpace(asked.1) != "" && 1 <= days <= 3650
                     && exists j :: Eligible(db.bindings, j, a, named))
      && (if r.Ok? then
            && db'.codes == db.codes && days >= 0
            && Delivered(db, db', r.row, a, named, ("emby_library", TrimSpace(asked.1)), now, days * 86400, instance, binding)
            && r.row < |db'.rows| && db'.queued == db.queued + {GrantKey(r.row, |db'.rows[r.row].granted|)}
          else db' == db)
  {
    PicksPreferred(db.bindings, a, named);
    binding := PickBinding(db.bindings, a, named);
    instance := InstanceOf(db, named, binding);
    var resource := (Normalize(asked.0), TrimSpace(asked.1));
    if days >= 0 { UpsertGrants(db.rows, a, instance, binding, resource, Grant(now, days * DAY)); }
  }

  /** A revocation is accepted exactly when a reason is given and the row is there and not
      revoked; it changes that row's status and nothing else of the rows, and queues a sync
      under the row's own key if the row has a binding. */
  lemma RevokeDoes(db: Db, i: nat, reason: string)
    ensures var (db', r) := RevokeEntitlement(db, i, reason);
      && (r.Ok? <==> TrimSpace(reason) != "" && ByteLen(TrimSpace(reason)) <= 500 && i < |db.rows| && db.rows[i].status != Revoked)
      && (if r.Ok? then
            && db'.rows == db.rows[i := db.rows[i].(status := Revoked)] && db'.codes == db.codes && db'.bindings == db.bindings
            && db'.queued == if db.rows[i].binding.Some? then db.queued + {RevokeKey(i)} else db.queued
          else db' == db)
  {
  }

  /** The sweep expires exactly the rows of its binding that have run out. */
  lemma SweepDoes(db: Db, binding: nat, now: int, j: nat)
    requires j < |db.rows|
    ensures var rows := Step(db, SweepOf(binding, now)).rows;
      && |rows| == |db.rows| && rows[j] == db.rows[j].(status := rows[j].status)
      && rows[j].status == if db.rows[j].binding == Some(binding) && db.rows[j].expires <= now then Expired else db.rows[j].status
  {
  }
}
