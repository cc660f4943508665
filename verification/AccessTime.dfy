/** How granted time adds up: the expiry recurrence shared by memberships
    (assignMembershipTx in v3/internal/platform/membership.go) and entitlements
    (RedeemEntitlementCode and GrantEntitlement in access_lines.go). */
module AccessTime {
  import opened Options

  /** `span` units of time granted at time `at`. */
  datatype Grant = Grant(at: int, span: nat)

  /** The later of the current expiry and the time of the grant. */
  function Base(expiry: Option<int>, at: int): int {
    if expiry.Some? && expiry.value > at then expiry.value else at
  }

  function Expiry(start: Option<int>, gs: seq<Grant>): Option<int> {
    if gs == [] then start
    else
      var g := gs[|gs| - 1];
      Some(Base(Expiry(start, gs[..|gs| - 1]), g.at) + g.span)
  }

  function Total(gs: seq<Grant>): nat {
    if gs == [] then 0 else Total(gs[..|gs| - 1]) + gs[|gs| - 1].span
  }

  /** Where access would end if grant `i` were the last one to find it lapsed. */
  function Candidate(gs: seq<Grant>, i: nat): int
    requires i < |gs|
  {
    gs[i].at + Total(gs[i..])
  }

  lemma ExpiryOfAppend(start: Option<int>, gs: seq<Grant>, g: Grant)
    ensures Expiry(start, gs + [g]) == Some(Base(Expiry(start, gs), g.at) + g.span)
  {
    assert (gs + [g])[..|gs|] == gs;
  }

  predicate Attained(start: Option<int>, gs: seq<Grant>, e: int) {
    || (start.Some? && e == start.value + Total(gs))
    || (exists i :: 0 <= i < |gs| && e == Candidate(gs, i))
  }

  predicate Bounds(start: Option<int>, gs: seq<Grant>, e: int) {
    && (start.Some? ==> e >= start.value + Total(gs))
    && (forall i :: 0 <= i < |gs| ==> e >= Candidate(gs, i))
  }

  lemma CandidateOfFront(gs: seq<Grant>, i: nat)
    requires i < |gs| - 1
    ensures Candidate(gs, i) == Candidate(gs[..|gs| - 1], i) + gs[|gs| - 1].span
  {
    assert gs[i..][..|gs[i..]| - 1] == gs[..|gs| - 1][i..];
  }

  lemma CandidateOfLast(gs: seq<Grant>)
    requires gs != []
    ensures Candidate(gs, |gs| - 1) == gs[|gs| - 1].at + gs[|gs| - 1].span
  {
    assert gs[|gs| - 1..] == [gs[|gs| - 1]] && [gs[|gs| - 1]][..0] == [];
    assert Total([gs[|gs| - 1]]) == gs[|gs| - 1].span;
  }

  lemma BoundsGrow(start: Option<int>, gs: seq<Grant>, e': int, e: int)
    requires gs != [] && Bounds(start, gs[..|gs| - 1], e')
    requires e >= e' + gs[|gs| - 1].span && e >= gs[|gs| - 1].at + gs[|gs| - 1].span
    ensures Bounds(start, gs, e)
  {
    var front := gs[..|gs| - 1];
    CandidateOfLast(gs);
    forall i | 0 <= i < |front| ensures e >= Candidate(gs, i) {
      CandidateOfFront(gs, i);
      assert e' >= Candidate(front, i);
    }
  }

  lemma AttainedStaysLast(start: Option<int>, gs: seq<Grant>)
    requires gs != []
    ensures Attained(start, gs, gs[|gs| - 1].at + gs[|gs| - 1].span)
  {
    CandidateOfLast(gs);
    assert Candidate(gs, |gs| - 1) == gs[|gs| - 1].at + gs[|gs| - 1].span;
  }

  lemma AttainedGrows(start: Option<int>, gs: seq<Grant>, e': int)
    requires gs != [] && Attained(start, gs[..|gs| - 1], e')
    ensures Attained(start, gs, e' + gs[|gs| - 1].span)
  {
    var front := gs[..|gs| - 1];
    if !(start.Some? && e' == start.value + Total(front)) {
      var i :| 0 <= i < |front| && e' == Candidate(front, i);
      CandidateOfFront(gs, i);
      assert e' + gs[|gs| - 1].span == Candidate(gs, i);
    }
  }

  lemma FirstGrant(gs: seq<Grant>)
    requires |gs| == 1
    ensures Expiry(None, gs) == Some(gs[0].at + gs[0].span)
    ensures Bounds(None, gs, gs[0].at + gs[0].span)
  {
    assert gs[..0] == [];
    CandidateOfLast(gs);
  }

  /** The expiry is the largest of: the old expiry plus everything granted, and each
      grant's own time plus everything granted from it on. */
  lemma {:induction false} ExpiryIsMaximum(start: Option<int>, gs: seq<Grant>)
    requires start.Some? || gs != []
    ensures Expiry(start, gs).Some?
    ensures Bounds(start, gs, Expiry(start, gs).value) && Attained(start, gs, Expiry(start, gs).value)
  {
    if gs != [] {
      var front, g := gs[..|gs| - 1], gs[|gs| - 1];
      if front == [] && start == None {
        FirstGrant(gs);
        AttainedStaysLast(start, gs);
      } else {
        ExpiryIsMaximum(start, front);
        var e' := Expiry(start, front).value;
        BoundsGrow(start, gs, e', Expiry(start, gs).value);
        if e' > g.at { AttainedGrows(start, gs, e'); } else { AttainedStaysLast(start, gs); }
      }
    }
  }

  /** Two values that both bound and attain are equal, so the maximum is unique. */
  lemma MaximumIsUnique(start: Option<int>, gs: seq<Grant>, e: int)
    requires start.Some? || gs != []
    requires Bounds(start, gs, e) && Attained(start, gs, e)
    ensures Expiry(start, gs) == Some(e)
  {
    ExpiryIsMaximum(start, gs);
  }

  // ---- The interval each grant buys ----

  function Begin(start: Option<int>, gs: seq<Grant>, i: nat): int
    requires i < |gs|
  {
    Base(Expiry(start, gs[..i]), gs[i].at)
  }

  function End(start: Option<int>, gs: seq<Grant>, i: nat): int
    requires i < |gs|
  {
    Begin(start, gs, i) + gs[i].span
  }

  lemma EndIsExpiry(start: Option<int>, gs: seq<Grant>, i: nat)
    requires i < |gs|
    ensures Expiry(start, gs[..i + 1]) == Some(End(start, gs, i))
  {
    assert gs[..i + 1][..i] == gs[..i];
  }

  /** The intervals follow one another and start no earlier than the old expiry and
      their own grant: nothing is counted twice, nothing is spent before it is granted. */
  lemma {:induction false} IntervalsAreDisjoint(start: Option<int>, gs: seq<Grant>, i: nat, j: nat)
    requires i < j < |gs|
    ensures End(start, gs, i) <= Begin(start, gs, j)
    ensures Begin(start, gs, i) >= gs[i].at && (start.Some? ==> Begin(start, gs, i) >= start.value)
    decreases j
  {
    EndIsExpiry(start, gs, j - 1);
    if i < j - 1 { IntervalsAreDisjoint(start, gs, i, j - 1); }
    if start.Some? { ExpiryAtLeastStart(start, gs[..i]); }
  }

  lemma ExpiryAtLeastStart(start: Option<int>, gs: seq<Grant>)
    requires start.Some?
    ensures Expiry(start, gs).Some? && Expiry(start, gs).value >= start.value
  {
    ExpiryIsMaximum(start, gs);
  }

  /** How much granted time lies before `x`. */
  function Used(start: Option<int>, gs: seq<Grant>, x: int): int {
    if gs == [] then 0
    else
      var i := |gs| - 1;
      Used(start, gs[..i], x)
      + (if x <= Begin(start, gs, i) then 0 else if x >= End(start, gs, i) then gs[i].span else x - Begin(start, gs, i))
  }

  /** Once access ends, exactly the granted total has been used: no unit is lost. */
  lemma {:induction false} AllTimeIsUsed(start: Option<int>, gs: seq<Grant>, x: int)
    requires Expiry(start, gs).Some? && x >= Expiry(start, gs).value
    ensures Used(start, gs, x) == Total(gs)
  {
    if gs != [] {
      var front := gs[..|gs| - 1];
      EndIsExpiry(start, gs, |gs| - 1);
      assert gs[..|gs|] == gs;
      if front != [] {
        EndIsExpiry(start, gs, |gs| - 2);
        assert gs[..|gs| - 1] == front;
        assert front[..|front|] == front;
        AllTimeIsUsed(start, front, x);
      }
    }
  }
}
