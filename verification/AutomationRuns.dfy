/** An undisturbed automation attempt, the event a crash strands, and what overlapping
    attempts can repeat. */
module AutomationRuns {
  import opened Options
  import opened Automation
  import TaskQueue

  // ---- A crash on the last attempt ----

  /** All attempts used up and nobody working. */
  ghost predicate Stranded(s: State) {
    s.row.attempts >= s.row.maximum && AllIdle(s)
  }

  lemma StrandedStep(s: State, e: Event)
    requires Stranded(s)
    ensures Stranded(Step(s, e)) && Step(s, e) == s.(pcs := Step(s, e).pcs, now := Step(s, e).now)
  {
    if !e.Tick? { IdleStepChangesNothing(s, e); }
    forall v: Worker ensures PcOf(Step(s, e), v) == Idle {
      assert PcOf(s, v) == Idle;
      if e.Tick? || e.w != v { OtherPcKept(s, e, v); }
    }
  }

  /** With its attempts used up and nobody at work, an event is never claimed again by any
      worker, even if it still says `running`: nothing ever marks it failed. */
  lemma {:induction false} StrandedForever(s: State, events: seq<Event>)
    requires Stranded(s)
    ensures Stranded(Run(s, events)) && Run(s, events).row == s.row && Run(s, events).effects == s.effects
    ensures Run(s, events).claims == s.claims
  {
    if events != [] {
      StrandedForever(s, events[..|events| - 1]);
      StrandedStep(Run(s, events[..|events| - 1]), events[|events| - 1]);
    }
  }

  lemma RetryTime(s: State, w: Worker) returns (seconds: nat)
    requires PcOf(s, w) == Idle && s.row.status != Succeeded && s.row.attempts < s.row.maximum
    ensures Starts(Step(s, Tick(seconds)), Claim(w))
  {
    var until := if s.row.available > s.row.leaseUntil then s.row.available else s.row.leaseUntil;
    seconds := if until + 1 > s.now then until + 1 - s.now else 0;
  }

  /** With attempts left, waiting makes every unfinished event claimable again. */
  lemma UnfinishedIsRetried(s: State, w: Worker)
    requires PcOf(s, w) == Idle && s.row.status != Succeeded && s.row.attempts < s.row.maximum
    ensures exists seconds :: Step(Step(s, Tick(seconds)), Claim(w)).row.attempts == s.row.attempts + 1
  {
    var seconds := RetryTime(s, w);
    assert Step(Step(s, Tick(seconds)), Claim(w)).row.attempts == s.row.attempts + 1;
  }

  /** A worker crashes after claiming an event nobody else works on: some run starts
      another attempt exactly when the lost one was not the last. */
  lemma CrashStrandsExactlyWhen(s: State, w: Worker)
    requires AllIdle(s) && Claimable(s.row, s.now)
    ensures var t := Step(Step(s, Claim(w)), Crash(w));
      && t.row.status == Running && t.row.attempts == s.row.attempts + 1
      && ((exists events :: Run(t, events).claims > t.claims) <==> s.row.attempts + 1 < s.row.maximum)
  {
    var t := Step(Step(s, Claim(w)), Crash(w));
    forall v: Worker ensures PcOf(t, v) == Idle { assert PcOf(s, v) == Idle; }
    if s.row.attempts + 1 < s.row.maximum {
      var seconds := RetryTime(t, w);
      RunSnoc(t, [], Tick(seconds));
      RunSnoc(t, [] + [Tick(seconds)], Claim(w));
      assert Run(t, [] + [Tick(seconds)] + [Claim(w)]).claims > t.claims;
    } else {
      forall events ensures Run(t, events).claims == t.claims { StrandedForever(t, events); }
    }
  }

  // ---- An undisturbed attempt ----

  /** How the transaction of each rule ends; rules not mentioned work. */
  function OutcomeOf(bad: map<RuleId, Outcome>, id: RuleId): Outcome {
    if id in bad then bad[id] else Works
  }

  function RuleStep(s: State, w: Worker, bad: map<RuleId, Outcome>, r: Rule): State {
    Step(Step(s, Look(w)), Act(w, OutcomeOf(bad, r.id)))
  }

  /** The loop over the rules, left at the first failure. */
  function Loop(s: State, w: Worker, bad: map<RuleId, Outcome>, todo: seq<Rule>): State
    decreases |todo|
  {
    if todo == [] || PcOf(s, w).Failing? then s
    else Loop(RuleStep(s, w, bad, todo[0]), w, bad, todo[1..])
  }

  function Opened(s: State, w: Worker, rules: seq<Rule>): State {
    Step(Step(s, Claim(w)), Load(w, rules))
  }

  function Closed(s: State, w: Worker): State {
    if PcOf(s, w).Failing? then Step(s, FailEvent(w)) else Step(s, Finish(w))
  }

  function Attempt(s: State, w: Worker, rules: seq<Rule>, bad: map<RuleId, Outcome>): State {
    Closed(Loop(Opened(s, w, rules), w, bad, Applicable(rules, s.kind)), w)
  }

  /** Does a rule's own transaction go through? */
  predicate GoesThrough(s: State, bad: map<RuleId, Outcome>, r: Rule) {
    || Settled(s.records, r.id) || OutcomeOf(bad, r.id).Works?
    || (OutcomeOf(bad, r.id).ActionFails? && !ConditionsMatch(r.conditions, s.payload))
  }

  /** The record a rule ends with when it goes through. */
  function RecordOf(s: State, r: Rule): Record {
    if Settled(s.records, r.id) then s.records[r.id]
    else if ConditionsMatch(r.conditions, s.payload) then Done else Skipped
  }

  ghost predicate InLoop(s: State, w: Worker, todo: seq<Rule>) {
    && Sole(s, w) && PcOf(s, w).Looping? && PcOf(s, w).todo == todo
  }

  lemma RuleGoesThrough(s: State, w: Worker, bad: map<RuleId, Outcome>, todo: seq<Rule>)
    requires PcOf(s, w).Looping? && PcOf(s, w).todo == todo && todo != [] && GoesThrough(s, bad, todo[0])
    ensures var t := RuleStep(s, w, bad, todo[0]);
      && PcOf(t, w).Looping? && PcOf(t, w).todo == todo[1..] && t.row == s.row && t.payload == s.payload
      && t.records == s.records[todo[0].id := RecordOf(s, todo[0])]
  {
    var r, looked := todo[0], Step(s, Look(w));
    if Settled(s.records, r.id) {
      assert s.records[r.id := s.records[r.id]] == s.records;
      assert Step(looked, Act(w, OutcomeOf(bad, r.id))) == looked;
    } else {
      assert PcOf(looked, w) == Acting(PcOf(s, w).done, todo, PcOf(s, w).attempt);
    }
  }

  lemma RuleStepKeepsSole(s: State, w: Worker, bad: map<RuleId, Outcome>, r: Rule)
    requires Sole(s, w)
    ensures Sole(RuleStep(s, w, bad, r), w)
  {
    StepKeepsSole(s, w, Look(w));
    StepKeepsSole(Step(s, Look(w)), w, Act(w, OutcomeOf(bad, r.id)));
  }

  predicate AllGoThrough(s: State, bad: map<RuleId, Outcome>, todo: seq<Rule>) {
    forall i :: 0 <= i < |todo| ==> GoesThrough(s, bad, todo[i])
  }

  lemma {:induction false} LoopGoesThrough(s: State, w: Worker, bad: map<RuleId, Outcome>, todo: seq<Rule>)
    requires InLoop(s, w, todo) && AllGoThrough(s, bad, todo)
    ensures InLoop(Loop(s, w, bad, todo), w, []) && Loop(s, w, bad, todo).row == s.row
    decreases |todo|
  {
    if todo != [] {
      var t := RuleStep(s, w, bad, todo[0]);
      RuleGoesThrough(s, w, bad, todo);
      RuleStepKeepsSole(s, w, bad, todo[0]);
      forall i | 0 <= i < |todo[1..]| ensures GoesThrough(t, bad, todo[1..][i]) {
        assert todo[1..][i] == todo[i + 1] && GoesThrough(s, bad, todo[i + 1]);
      }
      LoopGoesThrough(t, w, bad, todo[1..]);
    }
  }

  lemma OpenedInLoop(s: State, w: Worker, rules: seq<Rule>)
    requires Sole(s, w) && PcOf(s, w) == Idle && Claimable(s.row, s.now)
    ensures InLoop(Opened(s, w, rules), w, Applicable(rules, s.kind))
    ensures Opened(s, w, rules).records == s.records && Opened(s, w, rules).payload == s.payload
    ensures Opened(s, w, rules).loaded == rules && Opened(s, w, rules).kind == s.kind
  {
    StepKeepsSole(s, w, Claim(w));
    StepKeepsSole(Step(s, Claim(w)), w, Load(w, rules));
  }

  /** Whatever earlier attempts of any workers left behind, an attempt nobody disturbs, in
      which every remaining rule goes through, marks the event succeeded, and no rule has
      committed twice. */
  lemma UndisturbedAttemptSucceeds(kind: string, payload: map<string, string>, maximum: nat, now: int, lease: nat,
                                   events: seq<Event>, w: Worker, rules: seq<Rule>, bad: map<RuleId, Outcome>, id: RuleId)
    requires Sequential(Emitted(kind, payload, maximum, now, lease), events)
    requires var s := Run(Emitted(kind, payload, maximum, now, lease), events);
             AllIdle(s) && Claimable(s.row, s.now) && AllGoThrough(s, bad, Applicable(rules, s.kind))
    ensures var t := Attempt(Run(Emitted(kind, payload, maximum, now, lease), events), w, rules, bad);
      t.row.status == Succeeded && EffectOf(t, id) <= 1
  {
    var v := RunKeepsOrder(Emitted(kind, payload, maximum, now, lease), events, w);
    AttemptSucceeds(Run(Emitted(kind, payload, maximum, now, lease), events), w, rules, bad);
    assert CountOk(Attempt(Run(Emitted(kind, payload, maximum, now, lease), events), w, rules, bad), id);
  }

  lemma AttemptSucceeds(s: State, w: Worker, rules: seq<Rule>, bad: map<RuleId, Outcome>)
    requires Sole(s, w) && PcOf(s, w) == Idle && Claimable(s.row, s.now) && AllGoThrough(s, bad, Applicable(rules, s.kind))
    ensures Attempt(s, w, rules, bad).row.status == Succeeded && Sole(Attempt(s, w, rules, bad), w)
  {
    var started := Opened(s, w, rules);
    OpenedInLoop(s, w, rules);
    forall i | 0 <= i < |Applicable(rules, s.kind)| ensures GoesThrough(started, bad, Applicable(rules, s.kind)[i]) {
      assert GoesThrough(s, bad, Applicable(rules, s.kind)[i]);
    }
    LoopGoesThrough(started, w, bad, Applicable(rules, s.kind));
    StepKeepsSole(Loop(started, w, bad, Applicable(rules, s.kind)), w, Finish(w));
  }

  // ---- Overlapping attempts ----

  lemma OnlyRule(r: Rule, kind: string)
    requires Applies(r, kind)
    ensures Applicable([r], kind) == [r]
  {
    assert [r][..0] == [];
    assert Applicable([r][..0], kind) == [];
  }

  lemma RuleRuns(s: State, w: Worker, r: Rule)
    requires PcOf(s, w) == Idle && Claimable(s.row, s.now) && Applies(r, s.kind)
    requires ConditionsMatch(r.conditions, s.payload) && !Settled(s.records, r.id)
    ensures var looked := Step(Opened(s, w, [r]), Look(w)); var t := RuleStep(Opened(s, w, [r]), w, map[], r);
      && looked == s.(row := looked.row, loaded := [r], pcs := s.pcs[w := Acting([], [r], s.row.attempts + 1)],
                        claims := s.claims + 1)
      && looked.row == s.row.(status := Running, attempts := s.row.attempts + 1, owner := Some(w), leaseUntil := s.now + s.lease)
      && EffectOf(t, r.id) == EffectOf(s, r.id) + 1 && Settled(t.records, r.id) && t.row == looked.row
      && t.pcs == s.pcs[w := Looping([r], [], s.row.attempts + 1)] && t.now == s.now && t.payload == s.payload && t.kind == s.kind
  {
    OnlyRule(r, s.kind);
    var looked := Step(Opened(s, w, [r]), Look(w));
    assert [r] + [] == [r] && [] + [r] == [r];
    assert PcOf(looked, w) == Acting([], [r], s.row.attempts + 1);
  }

  lemma LateFailure(s: State, w: Worker, r: Rule, attempt: int)
    requires PcOf(s, w) == Acting([], [r], attempt) && ConditionsMatch(r.conditions, s.payload) && 0 <= attempt < s.row.maximum
    ensures var t := Step(Step(Step(s, Act(w, ActionFails(false, true))), FailEvent(w)), Tick(300));
      && PcOf(t, w) == Idle && t.row.status == Failed && Claimable(t.row, t.now) && !Settled(t.records, r.id)
      && EffectOf(t, r.id) == EffectOf(s, r.id) && t.payload == s.payload && t.kind == s.kind
  {
    TaskQueue.DelayIsCapped(attempt);
  }

  /** With overlapping attempts the promise fails: worker 0 stalls past its lease, worker 1
      runs the rule, worker 0's own action then fails and its record overwrites the success,
      and the retry runs the rule a second time. */
  lemma OverlapRunsTwice(payload: map<string, string>, maximum: nat, lease: nat, r: Rule)
    requires maximum >= 3 && r.enabled && ConditionsMatch(r.conditions, payload)
    ensures var stalled := Step(Step(Opened(Emitted(r.trigger, payload, maximum, 0, lease), 0, [r]), Look(0)), Tick(lease + 1));
      var ran := RuleStep(Opened(stalled, 1, [r]), 1, map[], r);
      var failed := Step(Step(Step(ran, Act(0, ActionFails(false, true))), FailEvent(0)), Tick(300));
      EffectOf(ran, r.id) == 1 && EffectOf(RuleStep(Opened(failed, 0, [r]), 0, map[], r), r.id) == 2
  {
    var start := Emitted(r.trigger, payload, maximum, 0, lease);
    RuleRuns(start, 0, r);
    var stalled := Step(Step(Opened(start, 0, [r]), Look(0)), Tick(lease + 1));
    assert PcOf(stalled, 1) == Idle && Claimable(stalled.row, stalled.now);
    RuleRuns(stalled, 1, r);
    var ran := RuleStep(Opened(stalled, 1, [r]), 1, map[], r);
    LateFailure(ran, 0, r, 1);
    RuleRuns(Step(Step(Step(ran, Act(0, ActionFails(false, true))), FailEvent(0)), Tick(300)), 0, r);
  }

  // ---- Leases ----

  function Elapsed(events: seq<Event>): int {
    if events == [] then 0
    else
      var e := events[|events| - 1];
      Elapsed(events[..|events| - 1]) + if e.Tick? then e.seconds else 0
  }

  lemma {:induction false} ElapsedIsTime(s: State, events: seq<Event>)
    ensures Run(s, events).now == s.now + Elapsed(events) && Elapsed(events) >= 0 && Run(s, events).lease == s.lease
  {
    if events != [] { ElapsedIsTime(s, events[..|events| - 1]); }
  }

  /** Only claims, work on rules, crashes and time: no attempt ends. */
  predicate NoEnd(events: seq<Event>) {
    forall i :: 0 <= i < |events| ==> !events[i].Finish? && !events[i].FailEvent?
  }

  lemma RuleWorkKeepsRow(s: State, e: Event)
    requires !e.Claim? && !e.Finish? && !e.FailEvent?
    ensures Step(s, e).row == s.row
  {
  }

  /** As long as its lease lasts and no attempt ends, the claimed event stays with its
      worker: nobody else starts an attempt. */
  lemma {:induction false} ClaimedEventStays(s: State, w: Worker, events: seq<Event>)
    requires s.row.status == Running && s.row.owner == Some(w) && s.now + Elapsed(events) <= s.row.leaseUntil && NoEnd(events)
    ensures Run(s, events).row == s.row
  {
    if events != [] {
      var front, e := events[..|events| - 1], events[|events| - 1];
      assert forall i :: 0 <= i < |front| ==> front[i] == events[i];
      ClaimedEventStays(s, w, front);
      ElapsedIsTime(s, front);
      if e.Claim? { assert !Claimable(s.row, Run(s, front).now); } else { RuleWorkKeepsRow(Run(s, front), e); }
    }
  }

  lemma ClaimIsExclusive(s: State, w: Worker, events: seq<Event>)
    requires PcOf(s, w) == Idle && Claimable(s.row, s.now) && Elapsed(events) <= s.lease && NoEnd(events)
    ensures Run(Step(s, Claim(w)), events).row.owner == Some(w)
    ensures Run(Step(s, Claim(w)), events).row.attempts == s.row.attempts + 1
  {
    ClaimedEventStays(Step(s, Claim(w)), w, events);
  }
}
