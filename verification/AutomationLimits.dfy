/** How many attempts an automation event can have when attempts overlap. The failure update
    of v3/internal/platform/community.go:608 writes the attempt number its own worker was
    given, so a stalled worker that reports late turns the counter back. */
module AutomationLimits {
  import opened Options
  import opened Automation
  import TaskQueue

  // ---- Reports by the owner only ----

  /** Every failure is reported by the worker that still owns the event. */
  ghost predicate OwnersReport(s: State, events: seq<Event>) {
    events != [] ==>
      var front, e := events[..|events| - 1], events[|events| - 1];
      && OwnersReport(s, front)
      && (e.FailEvent? && PcOf(Run(s, front), e.w).Failing? ==> Run(s, front).row.owner == Some(e.w))
  }

  /** The owner is on the attempt the row shows. */
  predicate OwnerCurrent(s: State) {
    && s.claims <= s.row.attempts
    && (s.row.owner.Some? && PcOf(s, s.row.owner.value) != Idle ==> PcOf(s, s.row.owner.value).attempt == s.row.attempts)
  }

  lemma OwnerStep(s: State, e: Event)
    requires OwnerCurrent(s) && s.row.attempts <= s.row.maximum
    requires e.FailEvent? && PcOf(s, e.w).Failing? ==> s.row.owner == Some(e.w)
    ensures OwnerCurrent(Step(s, e))
  {
    if e.Act? && PcOf(s, e.w).Acting? && PcOf(s, e.w).todo != [] {
      ActMoves(s, e.w, PcOf(s, e.w), e.outcome);
      ActClaims(s, e.w, PcOf(s, e.w), e.outcome);
    }
  }

  /** Then the attempts made stay within the limit. */
  lemma {:induction false} OwnAttemptsStayWithinLimit(kind: string, payload: map<string, string>, maximum: nat, now: int, lease: nat,
                                                      events: seq<Event>)
    requires OwnersReport(Emitted(kind, payload, maximum, now, lease), events)
    ensures OwnerCurrent(Run(Emitted(kind, payload, maximum, now, lease), events))
    ensures Run(Emitted(kind, payload, maximum, now, lease), events).claims <= maximum
  {
    AttemptsStayWithinLimit(kind, payload, maximum, now, lease, events);
    if events != [] {
      OwnAttemptsStayWithinLimit(kind, payload, maximum, now, lease, events[..|events| - 1]);
      AttemptsStayWithinLimit(kind, payload, maximum, now, lease, events[..|events| - 1]);
      OwnerStep(Run(Emitted(kind, payload, maximum, now, lease), events[..|events| - 1]), events[|events| - 1]);
    }
  }

  // ---- Any reports: how often each attempt number starts ----

  predicate Holds(pcs: map<Worker, Pc>, w: Worker, a: int) {
    w in pcs && pcs[w] != Idle && pcs[w].attempt == a
  }

  /** The workers below `n` that are on attempt number `a`. */
  function Holders(pcs: map<Worker, Pc>, a: int, n: nat): nat {
    if n == 0 then 0 else Holders(pcs, a, n - 1) + if Holds(pcs, n - 1, a) then 1 else 0
  }

  lemma {:induction false} HoldersUpdate(pcs: map<Worker, Pc>, w: Worker, pc: Pc, a: int, n: nat)
    ensures Holders(pcs[w := pc], a, n) + (if w < n && Holds(pcs, w, a) then 1 else 0)
            == Holders(pcs, a, n) + if w < n && pc != Idle && pc.attempt == a then 1 else 0
  {
    if n > 0 { HoldersUpdate(pcs, w, pc, a, n - 1); }
  }

  /** How often attempt number `a` was started. */
  function StartsOf(s: State, events: seq<Event>, a: int): nat {
    if events == [] then 0
    else
      var front, e := events[..|events| - 1], events[|events| - 1];
      StartsOf(s, front, a) + if Starts(Run(s, front), e) && Run(s, front).row.attempts + 1 == a then 1 else 0
  }

  predicate Below(events: seq<Event>, n: nat) {
    forall i :: 0 <= i < |events| ==> events[i].Tick? || events[i].w < n
  }

  lemma {:induction false} SomeBound(events: seq<Event>) returns (n: nat)
    ensures Below(events, n)
  {
    n := 0;
    if events != [] {
      var front, e := events[..|events| - 1], events[|events| - 1];
      var m := SomeBound(front);
      n := if e.Tick? || e.w < m then m else e.w + 1;
      forall i | 0 <= i < |events| ensures events[i].Tick? || events[i].w < n {
        if i < |front| { assert front[i] == events[i]; }
      }
    }
  }

  function One(b: bool): nat {
    if b then 1 else 0
  }

  /** Each start of number `a` can be followed by two starts of `a + 1`: one right away, and
      one more after its own worker has reported and so set the counter back to `a`. */
  lemma NumberStep(s: State, e: Event, a: int, n: nat)
    requires a < s.row.maximum && (e.Tick? || e.w < n)
    ensures var t := Step(s, e);
      One(Starts(s, e) && s.row.attempts == a) + One(t.row.attempts == a) + Holders(t.pcs, a, n)
      <= One(s.row.attempts == a) + Holders(s.pcs, a, n) + 2 * One(Starts(s, e) && s.row.attempts + 1 == a)
  {
    if !e.Tick? {
      HoldersStep(s, e, a, n);
      if e.FailEvent? { ReportStep(s, e, a); } else if e.Claim? { StartStep(s, e, a); } else { WorkStep(s, e, a); }
    }
  }

  lemma HoldersStep(s: State, e: Event, a: int, n: nat)
    requires !e.Tick? && e.w < n
    ensures Holders(Step(s, e).pcs, a, n) + One(Holds(s.pcs, e.w, a)) == Holders(s.pcs, a, n) + One(Holds(Step(s, e).pcs, e.w, a))
  {
    if Step(s, e).pcs != s.pcs {
      PcsUpdated(s, e);
      HoldersUpdate(s.pcs, e.w, PcOf(Step(s, e), e.w), a, n);
    }
  }

  lemma ActMoves(s: State, w: Worker, pc: Pc, outcome: Outcome)
    requires PcOf(s, w) == pc && pc.Acting? && pc.todo != []
    ensures var t := ActStep(s, w, pc, outcome);
      t.pcs == s.pcs[w := PcOf(t, w)] && t.row == s.row && PcOf(t, w) != Idle && PcOf(t, w).attempt == pc.attempt
  {
  }

  lemma PcsUpdated(s: State, e: Event)
    requires !e.Tick? && Step(s, e).pcs != s.pcs
    ensures Step(s, e).pcs == s.pcs[e.w := PcOf(Step(s, e), e.w)]
  {
    if e.Act? {
      ActMoves(s, e.w, PcOf(s, e.w), e.outcome);
    } else {
      MoveUpdatesPc(s, e);
    }
  }

  lemma MoveUpdatesPc(s: State, e: Event)
    requires !e.Tick? && !e.Act? && Step(s, e).pcs != s.pcs
    ensures Step(s, e).pcs == s.pcs[e.w := PcOf(Step(s, e), e.w)]
  {
  }

  lemma ReportStep(s: State, e: Event, a: int)
    requires e.FailEvent? && a < s.row.maximum
    ensures var t := Step(s, e);
      One(t.row.attempts == a) + One(Holds(t.pcs, e.w, a)) <= One(s.row.attempts == a) + One(Holds(s.pcs, e.w, a))
  {
  }

  lemma StartStep(s: State, e: Event, a: int)
    requires e.Claim?
    ensures var t := Step(s, e);
      One(Starts(s, e) && s.row.attempts == a) + One(t.row.attempts == a) + One(Holds(t.pcs, e.w, a))
      <= One(s.row.attempts == a) + One(Holds(s.pcs, e.w, a)) + 2 * One(Starts(s, e) && s.row.attempts + 1 == a)
  {
  }

  lemma WorkStep(s: State, e: Event, a: int)
    requires !e.Tick? && !e.FailEvent? && !e.Claim?
    ensures Step(s, e).row.attempts == s.row.attempts && (Holds(Step(s, e).pcs, e.w, a) ==> Holds(s.pcs, e.w, a))
  {
    if e.Act? && PcOf(s, e.w).Acting? && PcOf(s, e.w).todo != [] { ActMoves(s, e.w, PcOf(s, e.w), e.outcome); }
  }

  /** Attempt number 1 starts at most once, and every other number at most twice for each
      start of the number before it, whatever the workers do. */
  lemma {:induction false} EachNumberStartsTwice(kind: string, payload: map<string, string>, maximum: nat, now: int, lease: nat,
                                                 events: seq<Event>, a: nat, n: nat)
    requires a < maximum && Below(events, n)
    ensures var s0 := Emitted(kind, payload, maximum, now, lease); var s := Run(s0, events);
      StartsOf(s0, events, a + 1) + One(s.row.attempts == a) + Holders(s.pcs, a, n)
      <= if a == 0 then 1 else 2 * StartsOf(s0, events, a)
    ensures a == 0 ==> StartsOf(Emitted(kind, payload, maximum, now, lease), events, 0) == 0
  {
    var s0 := Emitted(kind, payload, maximum, now, lease);
    if events == [] {
      NoHolders(a, n);
    } else {
      var front, e := events[..|events| - 1], events[|events| - 1];
      assert forall i :: 0 <= i < |front| ==> front[i] == events[i];
      EachNumberStartsTwice(kind, payload, maximum, now, lease, front, a, n);
      AttemptsStayWithinLimit(kind, payload, maximum, now, lease, front);
      assert StartsOf(s0, front, 0) == 0 ==> StartsOf(s0, events, 0) == 0;
      NumberStep(Run(s0, front), e, a, n);
    }
  }

  lemma {:induction false} NoHolders(a: int, n: nat)
    ensures Holders(map[], a, n) == 0
  {
    if n > 0 { NoHolders(a, n - 1); }
  }

  // ---- In all ----

  /** Starts of the numbers 1 to `a`. */
  function StartsUpTo(s: State, events: seq<Event>, a: nat): nat {
    if a == 0 then 0 else StartsUpTo(s, events, a - 1) + StartsOf(s, events, a)
  }

  lemma {:induction false} StartsUpToStep(s: State, events: seq<Event>, a: nat)
    requires events != []
    ensures var front, e := events[..|events| - 1], events[|events| - 1]; var t := Run(s, front);
      StartsUpTo(s, events, a) == StartsUpTo(s, front, a) + One(Starts(t, e) && 1 <= t.row.attempts + 1 <= a)
  {
    if a > 0 { StartsUpToStep(s, events, a - 1); }
  }

  lemma {:induction false} NoStarts(s: State, a: nat)
    ensures StartsUpTo(s, [], a) == 0
  {
    if a > 0 { NoStarts(s, a - 1); }
  }

  lemma ClaimsStep(s: State, e: Event)
    ensures Step(s, e).claims == s.claims + One(Starts(s, e))
  {
    if e.Act? && PcOf(s, e.w).Acting? && PcOf(s, e.w).todo != [] { ActClaims(s, e.w, PcOf(s, e.w), e.outcome); }
  }

  lemma ActClaims(s: State, w: Worker, pc: Pc, outcome: Outcome)
    requires pc.Acting? && pc.todo != []
    ensures ActStep(s, w, pc, outcome).claims == s.claims
  {
  }

  lemma {:induction false} ClaimsAreStarts(kind: string, payload: map<string, string>, maximum: nat, now: int, lease: nat,
                                           events: seq<Event>)
    ensures var s0 := Emitted(kind, payload, maximum, now, lease);
      Run(s0, events).claims == StartsUpTo(s0, events, maximum)
  {
    var s0 := Emitted(kind, payload, maximum, now, lease);
    if events == [] {
      NoStarts(s0, maximum);
    } else {
      var front := events[..|events| - 1];
      ClaimsAreStarts(kind, payload, maximum, now, lease, front);
      AttemptsStayWithinLimit(kind, payload, maximum, now, lease, front);
      StartsUpToStep(s0, events, maximum);
      ClaimsStep(Run(s0, front), events[|events| - 1]);
    }
  }

  lemma {:induction false} StartsAreBounded(kind: string, payload: map<string, string>, maximum: nat, now: int, lease: nat,
                                            events: seq<Event>, a: nat)
    requires a <= maximum
    ensures var s0 := Emitted(kind, payload, maximum, now, lease);
      && StartsUpTo(s0, events, a) <= TaskQueue.Power(a) - 1
      && (a > 0 ==> StartsOf(s0, events, a) <= TaskQueue.Power(a - 1))
  {
    if a > 0 {
      StartsAreBounded(kind, payload, maximum, now, lease, events, a - 1);
      var n := SomeBound(events);
      EachNumberStartsTwice(kind, payload, maximum, now, lease, events, a - 1, n);
    }
  }

  /** With overlapping attempts and late reports the limit does not bound the attempts made;
      what does is two to the limit, less one. */
  lemma OverlappingAttemptsAreBounded(kind: string, payload: map<string, string>, maximum: nat, now: int, lease: nat, events: seq<Event>)
    ensures Run(Emitted(kind, payload, maximum, now, lease), events).claims <= TaskQueue.Power(maximum) - 1
  {
    ClaimsAreStarts(kind, payload, maximum, now, lease, events);
    StartsAreBounded(kind, payload, maximum, now, lease, events, maximum);
  }

  // ---- The exact count ----

  /** How far failure reports have turned the counter back, less what permanent failures
      have put on. */
  function TurnedBack(s: State, events: seq<Event>): int {
    if events == [] then 0
    else
      var front, e := events[..|events| - 1], events[|events| - 1];
      var t := Run(s, front);
      TurnedBack(s, front) + if e.FailEvent? && PcOf(t, e.w).Failing? then t.row.attempts - Step(t, e).row.attempts else 0
  }

  lemma CounterStep(s: State, e: Event)
    ensures Step(s, e).row.attempts
            == s.row.attempts + One(Starts(s, e))
               - if e.FailEvent? && PcOf(s, e.w).Failing? then s.row.attempts - Step(s, e).row.attempts else 0
  {
    if e.Act? && PcOf(s, e.w).Acting? && PcOf(s, e.w).todo != [] { ActMoves(s, e.w, PcOf(s, e.w), e.outcome); }
  }

  /** Over any run the attempts made are the counter and what it was turned back by; so
      more are made than the limit exactly when it was turned back by more than is left. */
  lemma {:induction false} LimitExceededExactlyWhen(kind: string, payload: map<string, string>, maximum: nat, now: int, lease: nat,
                                                    events: seq<Event>)
    ensures var s0 := Emitted(kind, payload, maximum, now, lease); var s := Run(s0, events);
      && s.claims == s.row.attempts + TurnedBack(s0, events)
      && (s.claims > maximum <==> TurnedBack(s0, events) > maximum - s.row.attempts)
  {
    if events != [] {
      var s := Run(Emitted(kind, payload, maximum, now, lease), events[..|events| - 1]);
      LimitExceededExactlyWhen(kind, payload, maximum, now, lease, events[..|events| - 1]);
      ClaimsStep(s, events[|events| - 1]);
      CounterStep(s, events[|events| - 1]);
    }
  }

  // ---- The bound is reached ----

  /** Nobody from worker `n` on is at work, and the event is still open. */
  ghost predicate FreeFrom(s: State, n: nat) {
    s.row.status != Succeeded && forall w: Worker :: w >= n ==> PcOf(s, w) == Idle
  }

  ghost predicate SameBelow(s: State, t: State, n: nat) {
    forall w: Worker :: w < n ==> PcOf(t, w) == PcOf(s, w)
  }

  /** One more step of a run that has reached state `s`. */
  lemma Advance(start: State, events: seq<Event>, e: Event) returns (longer: seq<Event>)
    ensures longer == events + [e] && Run(start, longer) == Step(Run(start, events), e)
  {
    longer := events + [e];
    RunSnoc(start, events, e);
  }

  lemma WaitForClaim(start: State, events: seq<Event>, n: nat) returns (longer: seq<Event>)
    requires var s := Run(start, events); FreeFrom(s, n) && s.row.attempts < s.row.maximum
    ensures var s, t := Run(start, events), Run(start, longer);
      t == s.(now := t.now) && Starts(t, Claim(n))
  {
    var s := Run(start, events);
    assert PcOf(s, n) == Idle;
    var until := if s.row.available > s.row.leaseUntil then s.row.available else s.row.leaseUntil;
    longer := Advance(start, events, Tick(if until + 1 > s.now then until + 1 - s.now else 0));
  }

  /** Worker `n` starts an attempt as soon as it may, and cannot read the rules. */
  lemma Stall(start: State, events: seq<Event>, n: nat) returns (longer: seq<Event>)
    requires var s := Run(start, events); FreeFrom(s, n) && s.row.attempts < s.row.maximum
    ensures var s, t := Run(start, events), Run(start, longer);
      && FreeFrom(t, n + 1) && t.claims == s.claims + 1 && t.row.maximum == s.row.maximum
      && t.row.attempts == s.row.attempts + 1 && t.pcs == s.pcs[n := Failing(false, t.row.attempts)]
  {
    var s := Run(start, events);
    longer := WaitForClaim(start, events, n);
    longer := Advance(start, longer, Claim(n));
    longer := Advance(start, longer, ReadFails(n));
    forall w: Worker | w >= n + 1 ensures PcOf(Run(start, longer), w) == Idle { assert PcOf(s, w) == Idle; }
  }

  lemma Report(start: State, events: seq<Event>, n: nat, attempt: int) returns (longer: seq<Event>)
    requires PcOf(Run(start, events), n) == Failing(false, attempt) && FreeFrom(Run(start, events), n + 1)
    ensures var s, t := Run(start, events), Run(start, longer);
      && FreeFrom(t, n) && t.claims == s.claims && t.row.maximum == s.row.maximum
      && t.row.attempts == attempt && t.pcs == s.pcs[n := Idle]
  {
    longer := Advance(start, events, FailEvent(n));
    forall w: Worker | w >= n ensures PcOf(Run(start, longer), w) == Idle {
      if w > n { assert PcOf(Run(start, events), w) == Idle; }
    }
  }

  /** From attempt number `a` on, `left` numbers are left: one worker stalls, the numbers
      above are used up, its late report turns the counter back, and they are used again. */
  lemma {:induction false} UseUp(start: State, events: seq<Event>, n: nat, left: nat) returns (longer: seq<Event>)
    requires var s := Run(start, events); FreeFrom(s, n) && 0 <= s.row.attempts == s.row.maximum - left
    ensures var s, t := Run(start, events), Run(start, longer);
      && FreeFrom(t, n) && t.claims == s.claims + TaskQueue.Power(left) - 1 && t.row.maximum == s.row.maximum
      && SameBelow(s, t, n)
    decreases left
  {
    longer := events;
    if left > 0 {
      var s := Run(start, events);
      longer := Stall(start, longer, n);
      var stalled := Run(start, longer);
      longer := UseUp(start, longer, n + 1, left - 1);
      var used := Run(start, longer);
      assert PcOf(used, n) == PcOf(stalled, n);
      longer := Report(start, longer, n, s.row.attempts + 1);
      var reported := Run(start, longer);
      longer := UseUp(start, longer, n, left - 1);
      forall w: Worker | w < n ensures PcOf(Run(start, longer), w) == PcOf(s, w) {
        assert PcOf(used, w) == PcOf(stalled, w) && PcOf(Run(start, longer), w) == PcOf(reported, w);
      }
    }
  }

  /** For every limit some run makes that many attempts. */
  lemma OverlapBoundIsReached(kind: string, payload: map<string, string>, maximum: nat, now: int, lease: nat)
    ensures exists events :: Run(Emitted(kind, payload, maximum, now, lease), events).claims == TaskQueue.Power(maximum) - 1
  {
    var events := UseUp(Emitted(kind, payload, maximum, now, lease), [], 0, maximum);
  }
}
