/** Memberships and invitations as the service writes them, row after row, inside
    transactions that roll back on error (v3/internal/platform/membership.go). */
module MembershipStore {
  import opened Options
  import opened Text
  import opened Memberships

  class Store {
    var plans: map<nat, Plan>
    var memberships: seq<Membership>
    var invitations: seq<Invitation>
    var redemptions: seq<Redemption>

    function State(): Db
      reads this
    {
      Db(plans, memberships, invitations, redemptions)
    }

    method Rollback(saved: Db)
      modifies this
      ensures State() == saved
    {
      plans, memberships := saved.plans, saved.memberships;
      invitations, redemptions := saved.invitations, saved.redemptions;
    }

    /** The row of the account that is active or in grace; there is at most one. */
    method CurrentExpiry(a: Account) returns (expiry: Option<int>)
      ensures expiry == LiveExpiry(memberships, a)
    {
      expiry := None;
      for i := 0 to |memberships|
        invariant expiry == LiveExpiry(memberships[..i], a)
      {
        assert memberships[..i + 1][..i] == memberships[..i];
        if memberships[i].account == a && Live(memberships[i]) {
          expiry := Some(memberships[i].expires);
        }
      }
      assert memberships[..|memberships|] == memberships;
    }

    /** UPDATE ... SET status = 'expired' over the live rows of an account. */
    method ExpireCurrent(a: Account)
      modifies this`memberships
      ensures memberships == ExpireLive(old(memberships), a)
    {
      var rows := memberships;
      for i := 0 to |rows|
        invariant |memberships| == |rows|
        invariant forall j :: 0 <= j < i ==> memberships[j] == ExpireLive(rows, a)[j]
        invariant forall j :: i <= j < |rows| ==> memberships[j] == rows[j]
      {
        if rows[i].account == a && Live(rows[i]) {
          memberships := memberships[i := rows[i].(status := Expired)];
        }
      }
    }

    method AssignMembershipTx(now: int, a: Account, plan: nat, startsAt: Option<int>, days: int, source: Source)
      returns (r: Outcome)
      modifies this`memberships
      ensures (State(), r) == AssignTx(old(State()), now, a, plan, startsAt, days, source)
    {
      if plan !in plans {
        return Err(NotFound);
      }
      if !plans[plan].enabled {
        return Err(Forbidden);
      }
      var duration := days;
      if duration <= 0 {
        duration := plans[plan].days;
      }
      var start := now;
      if startsAt.Some? {
        start := startsAt.value;
      }
      var base := start;
      var current := CurrentExpiry(a);
      if current.Some? && current.value > base {
        base := current.value;
      }
      ExpireCurrent(a);
      r := Ok(|memberships|);
      var span: nat := duration * DAY;
      memberships := memberships + [Membership(a, plan, Active, start, base + span, span, source)];
    }

    method RedeemInvitation(now: int, a: Account, code: string, key: string) returns (r: Outcome)
      modifies this
      ensures (State(), r) == RedeemTx(old(State()), now, a, code, key)
    {
      var c, k := TrimSpace(code), TrimSpace(key);
      if c == "" || ByteLen(c) > 100 || k == "" || ByteLen(k) > 160 {
        return Err(Invalid);
      }
      var i := FindCode(invitations, c);
      if i == -1 {
        return Err(NotFound);
      }
      var replay := FindRedemption(redemptions, i, a, k);
      if replay >= 0 {
        return Ok(redemptions[replay].membership);
      }
      var inv := invitations[i];
      if inv.status != Open || inv.used >= inv.maxUses || (inv.expires.Some? && inv.expires.value < now) {
        return Err(Conflict);
      }
      r := SpendInvitation(now, a, i, k);
    }

    method SpendInvitation(now: int, a: Account, i: nat, key: string) returns (r: Outcome)
      requires i < |invitations|
      modifies this
      ensures (State(), r) == Spend(old(State()), now, a, i, key)
    {
      var saved, inv := State(), invitations[i];
      r := AssignMembershipTx(now, a, inv.plan, Some(now), 0, Invited(i));
      if r.Err? {
        return;
      }
      var redemption := Redemption(i, a, r.row, key);
      if Clashes(redemptions, redemption) {
        Rollback(saved);
        return Err(Conflict);
      }
      redemptions := redemptions + [redemption];
      var status := Open;
      if inv.used + 1 >= inv.maxUses {
        status := UsedUp;
      }
      invitations := invitations[i := inv.(used := inv.used + 1, status := status)];
    }

    method RevokeInvitation(i: nat) returns (r: Outcome)
      modifies this`invitations
      ensures (State(), r) == Memberships.RevokeInvitation(old(State()), i)
    {
      if i >= |invitations| || invitations[i].status != Open {
        return Err(Conflict);
      }
      invitations := invitations[i := invitations[i].(status := Revoked)];
      r := Ok(i);
    }

    /** The loop that inserts one row per code; a clash rolls all of them back. */
    method GenerateInvitations(now: int, o: Order) returns (r: Outcome)
      modifies this`invitations
      ensures (State(), r) == Generate(old(State()), now, o)
    {
      if (o.kind != "registration" && o.kind != "renewal") || |o.codes| < 1 || |o.codes| > 500 || o.maxUses < 1 || o.maxUses > 10000 {
        return Err(Invalid);
      }
      if o.plan !in plans || !plans[o.plan].enabled {
        return Err(NotFound);
      }
      if o.expires.Some? && o.expires.value < now {
        return Err(Invalid);
      }
      if !ValidPrefix(o.prefix) {
        return Err(Invalid);
      }
      r := InsertCodes(o.codes, o.plan, o.maxUses, o.expires);
    }

    method InsertCodes(codes: seq<string>, plan: nat, maxUses: nat, expires: Option<int>) returns (r: Outcome)
      modifies this`invitations
      ensures if FreshCodes(old(invitations), codes)
              then invitations == old(invitations) + NewCodes(codes, plan, maxUses, expires) && r == Ok(|old(invitations)|)
              else invitations == old(invitations) && r == Err(Storage)
    {
      var before := invitations;
      for n := 0 to |codes|
        invariant invitations == before + NewCodes(codes, plan, maxUses, expires)[..n]
        invariant FreshCodes(before, codes[..n])
      {
        var clash := FindCode(invitations, codes[n]);
        CodesSoFar(before, codes, plan, maxUses, expires, n);
        if clash >= 0 {
          invitations := before;
          return Err(Storage);
        }
        assert codes[..n + 1] == codes[..n] + [codes[n]];
        invitations := invitations + [Invitation(codes[n], plan, Open, maxUses, 0, expires)];
      }
      assert codes[..|codes|] == codes;
      assert NewCodes(codes, plan, maxUses, expires)[..|codes|] == NewCodes(codes, plan, maxUses, expires);
      r := Ok(|before|);
    }
  }

  /** The next code clashes with an inserted row exactly if all codes up to it are not fresh. */
  lemma CodesSoFar(before: seq<Invitation>, codes: seq<string>, plan: nat, maxUses: nat, expires: Option<int>, n: nat)
    requires n < |codes| && FreshCodes(before, codes[..n])
    ensures FindCode(before + NewCodes(codes, plan, maxUses, expires)[..n], codes[n]) == -1
            <==> FreshCodes(before, codes[..n + 1])
    ensures FindCode(before + NewCodes(codes, plan, maxUses, expires)[..n], codes[n]) >= 0 ==> !FreshCodes(before, codes)
  {
    var rows := before + NewCodes(codes, plan, maxUses, expires)[..n];
    assert forall i :: 0 <= i < n ==> rows[|before| + i].code == codes[..n][i] == codes[..n + 1][i] == codes[i];
    assert codes[..n + 1][n] == codes[n];
    assert forall i :: 0 <= i < |before| ==> rows[i] == before[i];
    var hit := FindCode(rows, codes[n]);
    if 0 <= hit < |before| {
      assert before[hit].code == codes[n];
      assert FindCode(before, codes[n]) >= 0;
    } else if hit >= |before| {
      assert codes[hit - |before|] == codes[n];
    } else {
      forall j | 0 <= j < |before| ensures before[j].code != codes[n] { assert rows[j] == before[j]; }
      assert FindCode(before, codes[n]) == -1;
      forall i | 0 <= i < n ensures codes[i] != codes[n] { assert rows[|before| + i].code != codes[n]; }
    }
  }
}
