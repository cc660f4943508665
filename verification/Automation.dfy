/** Automation events: claimed attempts that run every enabled rule once, with one
    execution record per event and rule (ProcessNextAutomation, executeAutomationEvent and
    automationConditionsMatch in v3/internal/platform/community.go). */
module Automation {
  import opened Options
  import TaskQueue

  type Worker = nat
  type RuleId = nat

  datatype Rule = Rule(id: RuleId, enabled: bool, trigger: string, conditions: map<string, string>)

  datatype Status = Pending | Running | Succeeded | Failed

  /** A row of automation_executions. */
  datatype Record = Done | Skipped | Broken

  datatype Row = Row(status: Status, attempts: int, maximum: int, available: int, owner: Option<Worker>, leaseUntil: int)

  /** `done` are the rules an attempt is through with, `attempt` its number. */
  datatype Pc =
    | Idle
    | Claimed(attempt: int)
    | Looping(done: seq<Rule>, todo: seq<Rule>, attempt: int)
    | Acting(done: seq<Rule>, todo: seq<Rule>, attempt: int)
    | Failing(permanent: bool, attempt: int)

  /** `effects` counts how often a rule's actions were committed for this event; `loaded`
      are the rules as the latest attempt read them; `claims` counts the attempts started. */
  datatype State = State(now: int, lease: nat, kind: string, payload: map<string, string>, row: Row,
                         records: map<RuleId, Record>, effects: map<RuleId, nat>, loaded: seq<Rule>,
                         pcs: map<Worker, Pc>, claims: nat)

  /** `recorded`: did the write of the failed record, whose own error is ignored, succeed?
      Unanswered: the transaction went through, but its commit reported an error. */
  datatype Outcome = Works | Unanswered | ActionFails(permanent: bool, recorded: bool) | StorageFails

  datatype Event =
    | Tick(seconds: nat)
    | Claim(w: Worker)
    | Load(w: Worker, rules: seq<Rule>)
    | ReadFails(w: Worker)
    | Look(w: Worker)
    | Act(w: Worker, outcome: Outcome)
    | Finish(w: Worker)
    | FailEvent(w: Worker)
    | Crash(w: Worker)

  function PcOf(s: State, w: Worker): Pc {
    if w in s.pcs then s.pcs[w] else Idle
  }

  function Goto(s: State, w: Worker, pc: Pc): State {
    s.(pcs := s.pcs[w := pc])
  }

  /** Conditions compare payload fields with expected values; a missing field reads as `<nil>`. */
  predicate ConditionsMatch(conditions: map<string, string>, payload: map<string, string>) {
    forall k :: k in conditions ==> (if k in payload then payload[k] else "<nil>") == conditions[k]
  }

  predicate Applies(r: Rule, kind: string) {
    r.enabled && r.trigger == kind
  }

  function Applicable(rules: seq<Rule>, kind: string): seq<Rule> {
    if rules == [] then []
    else
      var last := rules[|rules| - 1];
      Applicable(rules[..|rules| - 1], kind) + if Applies(last, kind) then [last] else []
  }

  predicate Claimable(row: Row, now: int) {
    && row.attempts < row.maximum
    && (((row.status == Pending || row.status == Failed) && row.available <= now)
        || (row.status == Running && row.leaseUntil < now))
  }

  predicate Settled(records: map<RuleId, Record>, id: RuleId) {
    id in records && records[id] != Broken
  }

  function EffectOf(s: State, id: RuleId): nat {
    if id in s.effects then s.effects[id] else 0
  }

  /** The transaction of one rule. UNIQUE(event_id, rule_id) refuses a second record unless
      the first one had failed; a failing action leaves its record whatever is there. */
  function ActStep(s: State, w: Worker, pc: Pc, outcome: Outcome): State
    requires pc.Acting? && pc.todo != []
  {
    var r := pc.todo[0];
    var next := if outcome.Unanswered? then Failing(false, pc.attempt) else Looping(pc.done + [r], pc.todo[1..], pc.attempt);
    if outcome.StorageFails? || (Settled(s.records, r.id) && !outcome.ActionFails?) then Goto(s, w, Failing(false, pc.attempt))
    else if !ConditionsMatch(r.conditions, s.payload) then
      if Settled(s.records, r.id) then Goto(s, w, Failing(false, pc.attempt))
      else Goto(s, w, next).(records := s.records[r.id := Skipped])
    else if outcome.ActionFails? then
      Goto(s, w, Failing(outcome.permanent, pc.attempt)).(records := if outcome.recorded then s.records[r.id := Broken] else s.records)
    else Goto(s, w, next).(records := s.records[r.id := Done], effects := s.effects[r.id := EffectOf(s, r.id) + 1])
  }

  /** The failure update does not ask who owns the event. */
  function FailStep(s: State, w: Worker, permanent: bool, attempt: int): State {
    var attempts := if permanent then s.row.maximum else attempt;
    Goto(s, w, Idle).(row := s.row.(status := Failed, attempts := attempts, owner := None, leaseUntil := 0,
                                    available := s.now + TaskQueue.Delay(attempts)))
  }

  function FinishStep(s: State, w: Worker): State {
    if s.row.owner == Some(w)
    then Goto(s, w, Idle).(row := s.row.(status := Succeeded, owner := None, leaseUntil := 0))
    else Goto(s, w, Idle)
  }

  function Step(s: State, e: Event): State {
    match e
    case Tick(seconds) => s.(now := s.now + seconds)
    case Claim(w) =>
      if PcOf(s, w) != Idle || !Claimable(s.row, s.now) then s
      else
        Goto(s, w, Claimed(s.row.attempts + 1)).(
          row := s.row.(status := Running, attempts := s.row.attempts + 1, owner := Some(w), leaseUntil := s.now + s.lease),
          claims := s.claims + 1)
    case Load(w, rules) =>
      var pc := PcOf(s, w);
      if pc.Claimed? then Goto(s, w, Looping([], Applicable(rules, s.kind), pc.attempt)).(loaded := rules) else s
    case ReadFails(w) =>
      var pc := PcOf(s, w);
      if pc.Claimed? || (pc.Looping? && pc.todo != []) then Goto(s, w, Failing(false, pc.attempt)) else s
    case Look(w) =>
      var pc := PcOf(s, w);
      if !pc.Looping? || pc.todo == [] then s
      else if Settled(s.records, pc.todo[0].id) then Goto(s, w, Looping(pc.done + [pc.todo[0]], pc.todo[1..], pc.attempt))
      else Goto(s, w, Acting(pc.done, pc.todo, pc.attempt))
    case Act(w, outcome) =>
      var pc := PcOf(s, w);
      if pc.Acting? && pc.todo != [] then ActStep(s, w, pc, outcome) else s
    case Finish(w) =>
      var pc := PcOf(s, w);
      if pc.Looping? && pc.todo == [] then FinishStep(s, w) else s
    case FailEvent(w) =>
      var pc := PcOf(s, w);
      if pc.Failing? then FailStep(s, w, pc.permanent, pc.attempt) else s
    case Crash(w) => Goto(s, w, Idle)
  }

  function Run(s: State, events: seq<Event>): State {
    if events == [] then s else Step(Run(s, events[..|events| - 1]), events[|events| - 1])
  }

  lemma RunSnoc(s: State, events: seq<Event>, e: Event)
    ensures Run(s, events + [e]) == Step(Run(s, events), e)
  {
    assert (events + [e])[..|events|] == events;
  }

  function Emitted(kind: string, payload: map<string, string>, maximum: int, now: int, lease: nat): State {
    State(now, lease, kind, payload, Row(Pending, 0, maximum, now, None, 0), map[], map[], [], map[], 0)
  }

  // ---- Any workers: the attempt numbers stay within the limit ----

  predicate AttemptOk(s: State, w: Worker) {
    var pc := PcOf(s, w);
    pc != Idle ==> 1 <= pc.attempt <= s.row.maximum
  }

  ghost predicate Limited(s: State) {
    0 <= s.row.attempts <= s.row.maximum && forall w: Worker :: AttemptOk(s, w)
  }

  lemma OtherPcKept(s: State, e: Event, v: Worker)
    requires e.Tick? || e.w != v
    ensures PcOf(Step(s, e), v) == PcOf(s, v)
  {
    if e.Act? {
      OtherPcAfterAct(s, e, v);
    }
  }

  lemma OtherPcAfterAct(s: State, e: Event, v: Worker)
    requires e.Act? && e.w != v
    ensures PcOf(Step(s, e), v) == PcOf(s, v)
  {
  }

  lemma OwnAttemptOk(s: State, e: Event)
    requires 0 <= s.row.attempts <= s.row.maximum && !e.Tick? && AttemptOk(s, e.w)
    ensures AttemptOk(Step(s, e), e.w)
    ensures 0 <= Step(s, e).row.attempts <= Step(s, e).row.maximum == s.row.maximum
  {
  }

  lemma StepLimited(s: State, e: Event)
    requires Limited(s)
    ensures Limited(Step(s, e)) && Step(s, e).row.maximum == s.row.maximum
  {
    if !e.Tick? { OwnAttemptOk(s, e); }
    forall w: Worker ensures AttemptOk(Step(s, e), w) {
      assert AttemptOk(s, w);
      if e.Tick? || e.w != w { OtherPcKept(s, e, w); }
    }
  }

  /** The attempts column, and the number every working attempt carries, never exceed the
      limit. How many attempts that allows is the subject of AutomationLimits. */
  lemma {:induction false} AttemptsStayWithinLimit(kind: string, payload: map<string, string>, maximum: nat, now: int, lease: nat,
                                                   events: seq<Event>)
    ensures Limited(Run(Emitted(kind, payload, maximum, now, lease), events))
    ensures Run(Emitted(kind, payload, maximum, now, lease), events).row.maximum == maximum
  {
    if events != [] {
      AttemptsStayWithinLimit(kind, payload, maximum, now, lease, events[..|events| - 1]);
      StepLimited(Run(Emitted(kind, payload, maximum, now, lease), events[..|events| - 1]), events[|events| - 1]);
    }
  }

  // ---- Attempts one after the other ----

  predicate By(e: Event, w: Worker) {
    e.Tick? || e.w == w
  }

  ghost predicate AllIdle(s: State) {
    forall w: Worker :: PcOf(s, w) == Idle
  }

  /** This step starts an attempt. */
  predicate Starts(s: State, e: Event) {
    e.Claim? && PcOf(s, e.w) == Idle && Claimable(s.row, s.now)
  }

  /** Every attempt starts when no other is under way, whoever makes it. */
  ghost predicate Sequential(s: State, events: seq<Event>) {
    events != [] ==>
      var front := events[..|events| - 1];
      Sequential(s, front) && (Starts(Run(s, front), events[|events| - 1]) ==> AllIdle(Run(s, front)))
  }

  predicate AllSettled(records: map<RuleId, Record>, rules: seq<Rule>) {
    forall i :: 0 <= i < |rules| ==> Settled(records, rules[i].id)
  }

  predicate PcOk(s: State, pc: Pc) {
    match pc
    case Looping(done, todo, _) => AllSettled(s.records, done) && done + todo == Applicable(s.loaded, s.kind)
    case Acting(done, todo, _) =>
      AllSettled(s.records, done) && done + todo == Applicable(s.loaded, s.kind) && todo != [] && !Settled(s.records, todo[0].id)
    case _ => true
  }

  predicate CountOk(s: State, id: RuleId) {
    EffectOf(s, id) == if id in s.records && s.records[id] == Done then 1 else 0
  }

  /** A rule's actions have been committed once if its record says so, and never otherwise. */
  ghost predicate OnceOnly(s: State) {
    forall id: RuleId :: CountOk(s, id)
  }

  /** Worker `w`, if it is at work, is on the attempt the row shows. */
  ghost predicate Sole(s: State, w: Worker) {
    && OnceOnly(s) && PcOk(s, PcOf(s, w))
    && (PcOf(s, w) != Idle ==> s.row.status == Running && s.row.owner == Some(w) && PcOf(s, w).attempt == s.row.attempts)
    && (s.row.status == Succeeded ==> PcOf(s, w) == Idle && AllSettled(s.records, Applicable(s.loaded, s.kind)))
  }

  ghost predicate OthersIdle(s: State, w: Worker) {
    forall v: Worker :: v != w ==> PcOf(s, v) == Idle
  }

  lemma ActCounts(s: State, w: Worker, pc: Pc, outcome: Outcome)
    requires OnceOnly(s) && pc.Acting? && pc.todo != [] && !Settled(s.records, pc.todo[0].id)
    ensures OnceOnly(ActStep(s, w, pc, outcome))
    ensures forall id :: Settled(s.records, id) ==> Settled(ActStep(s, w, pc, outcome).records, id)
  {
    var t := ActStep(s, w, pc, outcome);
    forall id: RuleId ensures CountOk(t, id) { assert CountOk(s, id) && CountOk(s, pc.todo[0].id); }
  }

  lemma NextRule(done: seq<Rule>, todo: seq<Rule>)
    requires todo != []
    ensures done + [todo[0]] + todo[1..] == done + todo
  {
  }

  lemma ActKeepsSole(s: State, w: Worker, outcome: Outcome)
    requires Sole(s, w)
    ensures Sole(Step(s, Act(w, outcome)), w)
  {
    var pc := PcOf(s, w);
    if pc.Acting? {
      ActCounts(s, w, pc, outcome);
      NextRule(pc.done, pc.todo);
    }
  }

  lemma LookKeepsSole(s: State, w: Worker)
    requires Sole(s, w)
    ensures Sole(Step(s, Look(w)), w)
  {
    var pc := PcOf(s, w);
    forall id: RuleId ensures CountOk(Step(s, Look(w)), id) { assert CountOk(s, id); }
    if pc.Looping? && pc.todo != [] { NextRule(pc.done, pc.todo); }
  }

  lemma MoveKeepsSole(s: State, w: Worker, e: Event)
    requires Sole(s, w) && By(e, w) && !e.Act? && !e.Look?
    ensures Sole(Step(s, e), w)
  {
    forall id: RuleId ensures CountOk(Step(s, e), id) { assert CountOk(s, id); }
  }

  lemma StepKeepsSole(s: State, w: Worker, e: Event)
    requires Sole(s, w) && By(e, w)
    ensures Sole(Step(s, e), w)
  {
    if e.Act? {
      ActKeepsSole(s, w, e.outcome);
    } else if e.Look? {
      LookKeepsSole(s, w);
    } else {
      MoveKeepsSole(s, w, e);
    }
  }

  /** What an idle worker does changes nothing, unless it starts an attempt. */
  lemma IdleStepChangesNothing(s: State, e: Event)
    requires !e.Tick? && PcOf(s, e.w) == Idle && !Starts(s, e)
    ensures Step(s, e) == s.(pcs := Step(s, e).pcs) && PcOf(Step(s, e), e.w) == Idle
  {
  }

  lemma StepKeepsOrder(s: State, w: Worker, e: Event) returns (v: Worker)
    requires Sole(s, w) && OthersIdle(s, w) && (Starts(s, e) ==> AllIdle(s))
    ensures Sole(Step(s, e), v) && OthersIdle(Step(s, e), v)
  {
    v := if Starts(s, e) then e.w else w;
    forall u: Worker | u != v ensures PcOf(Step(s, e), u) == Idle {
      assert PcOf(s, u) == Idle;
      if By(e, u) && !e.Tick? { IdleStepChangesNothing(s, e); } else { OtherPcKept(s, e, u); }
    }
    if By(e, v) {
      StepKeepsSole(s, v, e);
    } else {
      IdleStepChangesNothing(s, e);
      OtherPcKept(s, e, v);
      forall id: RuleId ensures CountOk(Step(s, e), id) { assert CountOk(s, id); }
    }
  }

  lemma {:induction false} RunKeepsOrder(s: State, events: seq<Event>, w: Worker) returns (v: Worker)
    requires Sole(s, w) && OthersIdle(s, w) && Sequential(s, events)
    ensures Sole(Run(s, events), v) && OthersIdle(Run(s, events), v)
  {
    if events == [] {
      v := w;
    } else {
      v := RunKeepsOrder(s, events[..|events| - 1], w);
      v := StepKeepsOrder(Run(s, events[..|events| - 1]), v, events[|events| - 1]);
    }
  }

  lemma {:induction false} ApplicableIs(rules: seq<Rule>, kind: string, r: Rule)
    ensures r in Applicable(rules, kind) <==> r in rules && Applies(r, kind)
  {
    if rules != [] {
      var front, last := rules[..|rules| - 1], rules[|rules| - 1];
      ApplicableIs(front, kind, r);
      assert rules == front + [last];
    }
  }

  /** Whoever makes the attempts, as long as none starts before the one before has ended in
      a report or a crash: each rule's actions are committed at most once, exactly when its
      record says so; and a succeeded event has a succeeded or skipped record for every rule
      its last attempt found enabled for it. */
  lemma EachRuleAtMostOnce(kind: string, payload: map<string, string>, maximum: nat, now: int, lease: nat,
                           events: seq<Event>, r: Rule)
    requires Sequential(Emitted(kind, payload, maximum, now, lease), events)
    ensures var s := Run(Emitted(kind, payload, maximum, now, lease), events);
      && EffectOf(s, r.id) == (if r.id in s.records && s.records[r.id] == Done then 1 else 0)
      && (s.row.status == Succeeded && r in s.loaded && Applies(r, s.kind) ==> Settled(s.records, r.id))
  {
    var w := RunKeepsOrder(Emitted(kind, payload, maximum, now, lease), events, 0);
    var s := Run(Emitted(kind, payload, maximum, now, lease), events);
    assert CountOk(s, r.id);
    ApplicableIs(s.loaded, s.kind, r);
  }

  // ---- Any workers: how often a rule's actions are committed ----

  /** This step works on rule `id`, whose conditions hold. */
  predicate Runs(s: State, e: Event, id: RuleId) {
    && e.Act? && PcOf(s, e.w).Acting? && PcOf(s, e.w).todo != [] && PcOf(s, e.w).todo[0].id == id
    && ConditionsMatch(PcOf(s, e.w).todo[0].conditions, s.payload)
  }

  /** This step commits the actions of rule `id`. */
  predicate Commits(s: State, e: Event, id: RuleId) {
    Runs(s, e, id) && (e.outcome.Works? || e.outcome.Unanswered?) && !Settled(s.records, id)
  }

  /** This step records rule `id` as failed although its actions were committed. */
  predicate Overwrites(s: State, e: Event, id: RuleId) {
    && Runs(s, e, id) && e.outcome.ActionFails? && e.outcome.recorded
    && id in s.records && s.records[id] == Done
  }

  predicate IsDone(s: State, id: RuleId) {
    id in s.records && s.records[id] == Done
  }

  function Overwritten(s: State, events: seq<Event>, id: RuleId): nat {
    if events == [] then 0
    else
      var front := events[..|events| - 1];
      Overwritten(s, front, id) + if Overwrites(Run(s, front), events[|events| - 1], id) then 1 else 0
  }

  /** Rule `id` ran again at some point after a success of it had been overwritten. */
  predicate Recommitted(s: State, events: seq<Event>, id: RuleId) {
    events != [] &&
    var front := events[..|events| - 1];
    || Recommitted(s, front, id)
    || (Overwritten(s, front, id) > 0 && Commits(Run(s, front), events[|events| - 1], id))
  }

  lemma ActEffect(s: State, e: Event, id: RuleId)
    requires e.Act?
    ensures EffectOf(Step(s, e), id) == EffectOf(s, id) + if Commits(s, e, id) then 1 else 0
    ensures IsDone(Step(s, e), id) <==> Commits(s, e, id) || (IsDone(s, id) && !Overwrites(s, e, id))
  {
  }

  lemma EffectStep(s: State, e: Event, id: RuleId)
    ensures EffectOf(Step(s, e), id) == EffectOf(s, id) + if Commits(s, e, id) then 1 else 0
    ensures IsDone(Step(s, e), id) <==> Commits(s, e, id) || (IsDone(s, id) && !Overwrites(s, e, id))
    ensures Commits(s, e, id) ==> !IsDone(s, id)
  {
    if e.Act? { ActEffect(s, e, id); }
  }

  /** With any workers, overlapping or not: a rule's actions were committed once if its
      record says so, and once more for every success that a late failure overwrote. */
  lemma {:induction false} EffectsAreCounted(kind: string, payload: map<string, string>, maximum: nat, now: int, lease: nat,
                                             events: seq<Event>, id: RuleId)
    ensures var s0 := Emitted(kind, payload, maximum, now, lease); var s := Run(s0, events);
      EffectOf(s, id) == (if IsDone(s, id) then 1 else 0) + Overwritten(s0, events, id)
  {
    if events != [] {
      EffectsAreCounted(kind, payload, maximum, now, lease, events[..|events| - 1], id);
      EffectStep(Run(Emitted(kind, payload, maximum, now, lease), events[..|events| - 1]), events[|events| - 1], id);
    }
  }

  /** A rule commits more than once exactly when a late failure overwrote a success of it
      and the rule ran again afterwards. */
  lemma {:induction false} CommitsTwiceExactlyWhen(kind: string, payload: map<string, string>, maximum: nat, now: int, lease: nat,
                                                   events: seq<Event>, id: RuleId)
    ensures var s0 := Emitted(kind, payload, maximum, now, lease);
      EffectOf(Run(s0, events), id) >= 2 <==> Recommitted(s0, events, id)
  {
    EffectsAreCounted(kind, payload, maximum, now, lease, events, id);
    if events != [] {
      var front := events[..|events| - 1];
      CommitsTwiceExactlyWhen(kind, payload, maximum, now, lease, front, id);
      EffectsAreCounted(kind, payload, maximum, now, lease, front, id);
      EffectStep(Run(Emitted(kind, payload, maximum, now, lease), front), events[|events| - 1], id);
    }
  }
}
