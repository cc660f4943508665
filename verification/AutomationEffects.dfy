/** What one attempt and one failure do to an automation event, its records and the effects of
    its rules (ProcessNextAutomation, executeAutomationEvent and automationConditionsMatch in
    v3/internal/platform/community.go). */
module AutomationEffects {
  import opened Options
  import opened Automation
  import opened AutomationRuns
  import TaskQueue

  /** Every condition names the payload's value; a missing value reads `<nil>`. */
  predicate Meets(conditions: map<string, string>, payload: map<string, string>) {
    forall k :: k in conditions ==> if k in payload then payload[k] == conditions[k] else conditions[k] == "<nil>"
  }

  predicate SettledBefore(s: State, id: RuleId) {
    id in s.records && s.records[id] in {Done, Skipped}
  }

  predicate SameRule(s: State, t: State, id: RuleId) {
    && (id in t.records <==> id in s.records) && (id in s.records ==> t.records[id] == s.records[id])
    && EffectOf(t, id) == EffectOf(s, id)
  }

  /** The rule was carried out, or skipped for its conditions, unless that had been done before. */
  predicate Executed(s: State, t: State, r: Rule) {
    if SettledBefore(s, r.id) then SameRule(s, t, r.id)
    else if Meets(r.conditions, s.payload) then r.id in t.records && t.records[r.id] == Done && EffectOf(t, r.id) == EffectOf(s, r.id) + 1
    else r.id in t.records && t.records[r.id] == Skipped && EffectOf(t, r.id) == EffectOf(s, r.id)
  }

  predicate DifferentIds(rules: seq<Rule>) {
    forall i, j :: 0 <= i < j < |rules| ==> rules[i].id != rules[j].id
  }

  lemma {:induction false} ApplicableAre(rules: seq<Rule>, kind: string)
    requires DifferentIds(rules)
    ensures DifferentIds(Applicable(rules, kind))
    ensures forall r :: r in Applicable(rules, kind) <==> r in rules && r.enabled && r.trigger == kind
  {
    if rules != [] {
      var front, last := rules[..|rules| - 1], rules[|rules| - 1];
      ApplicableAre(front, kind);
      forall r | r in front ensures r.id != last.id {
        var i :| 0 <= i < |front| && front[i] == r;
        assert rules[i].id != rules[|rules| - 1].id;
      }
      assert rules == front + [last];
    }
  }

  lemma OneRule(s: State, w: Worker, todo: seq<Rule>)
    requires PcOf(s, w).Looping? && PcOf(s, w).todo == todo && todo != []
    ensures var t := RuleStep(s, w, map[], todo[0]);
      && PcOf(t, w).Looping? && PcOf(t, w).todo == todo[1..] && t.row == s.row && t.payload == s.payload
      && Executed(s, t, todo[0]) && forall id :: id != todo[0].id ==> SameRule(s, t, id)
  {
    RuleGoesThrough(s, w, map[], todo);
  }

  /** What the loop does to one rule: carry it out if it is on the list. */
  predicate Looped(s: State, t: State, todo: seq<Rule>, id: RuleId) {
    && (forall r :: r in todo && r.id == id ==> Executed(s, t, r))
    && ((forall r :: r in todo ==> r.id != id) ==> SameRule(s, t, id))
  }

  /** What is left alone first, or last, does not change what is done to a rule. */
  lemma LoopedAfter(s: State, middle: State, t: State, todo: seq<Rule>, id: RuleId)
    requires todo != [] && DifferentIds(todo) && middle.payload == s.payload
    requires Executed(s, middle, todo[0]) && (id != todo[0].id ==> SameRule(s, middle, id)) && Looped(middle, t, todo[1..], id)
    ensures Looped(s, t, todo, id)
  {
    assert todo == [todo[0]] + todo[1..];
    if todo[0].id == id {
      forall r | r in todo[1..] ensures r.id != id {
        var i :| 0 <= i < |todo[1..]| && todo[1..][i] == r;
        assert todo[i + 1].id != todo[0].id;
      }
      assert SameRule(middle, t, id);
    }
  }

  lemma {:induction false} LoopDoes(s: State, w: Worker, todo: seq<Rule>, id: RuleId)
    requires PcOf(s, w).Looping? && PcOf(s, w).todo == todo && DifferentIds(todo)
    ensures var t := Loop(s, w, map[], todo);
      PcOf(t, w).Looping? && PcOf(t, w).todo == [] && t.row == s.row && Looped(s, t, todo, id)
    decreases |todo|
  {
    if todo != [] {
      var middle := RuleStep(s, w, map[], todo[0]);
      OneRule(s, w, todo);
      LoopDoes(middle, w, todo[1..], id);
      LoopedAfter(s, middle, Loop(middle, w, map[], todo[1..]), todo, id);
    }
  }

  lemma OpenedKeeps(s: State, w: Worker, rules: seq<Rule>)
    requires PcOf(s, w) == Idle && Claimable(s.row, s.now)
    ensures var t := Opened(s, w, rules);
      && t.records == s.records && t.effects == s.effects && t.payload == s.payload
      && PcOf(t, w).Looping? && PcOf(t, w).todo == Applicable(rules, s.kind)
      && t.row.owner == Some(w) && t.row.attempts == s.row.attempts + 1 && t.row == s.row.(status := t.row.status,
           attempts := t.row.attempts, owner := t.row.owner, leaseUntil := t.row.leaseUntil)
  {
  }

  lemma FinishKeeps(s: State, w: Worker)
    requires PcOf(s, w).Looping? && PcOf(s, w).todo == [] && s.row.owner == Some(w)
    ensures Closed(s, w).records == s.records && Closed(s, w).effects == s.effects
    ensures Closed(s, w).row == s.row.(status := Succeeded, owner := None, leaseUntil := 0)
  {
  }

  /** An attempt in which everything works: it succeeds, carries out each enabled rule of the
      event's kind that meets its conditions and was not settled before, skips those that do
      not meet them, and touches no other rule. */
  lemma AttemptDoes(s: State, w: Worker, rules: seq<Rule>, id: RuleId)
    requires PcOf(s, w) == Idle && Claimable(s.row, s.now) && DifferentIds(rules)
    ensures var t := Attempt(s, w, rules, map[]);
      && t.row == s.row.(status := Succeeded, attempts := s.row.attempts + 1, owner := None, leaseUntil := 0)
      && (forall r :: r in rules && r.id == id && r.enabled && r.trigger == s.kind ==> Executed(s, t, r))
      && ((forall r :: r in rules && r.enabled && r.trigger == s.kind ==> r.id != id) ==> SameRule(s, t, id))
  {
    var started, todo := Opened(s, w, rules), Applicable(rules, s.kind);
    ApplicableAre(rules, s.kind);
    OpenedKeeps(s, w, rules);
    LoopDoes(started, w, todo, id);
    FinishKeeps(Loop(started, w, map[], todo), w);
    CarriedOver(s, started, Loop(started, w, map[], todo), Attempt(s, w, rules, map[]), todo, id);
  }

  lemma CarriedOver(s: State, started: State, looped: State, t: State, todo: seq<Rule>, id: RuleId)
    requires started.records == s.records && started.effects == s.effects && started.payload == s.payload
    requires t.records == looped.records && t.effects == looped.effects && Looped(started, looped, todo, id)
    ensures Looped(s, t, todo, id)
  {
  }

  /** What the transaction of one rule leaves, however it ends. */
  lemma ActDoes(s: State, w: Worker, outcome: Outcome)
    requires PcOf(s, w).Acting? && PcOf(s, w).todo != [] && !SettledBefore(s, PcOf(s, w).todo[0].id)
    ensures var r, t := PcOf(s, w).todo[0], Step(s, Act(w, outcome));
      && (outcome.Works? || outcome.Unanswered? ==> Executed(s, t, r))
      && (outcome.StorageFails? ==> SameRule(s, t, r.id))
      && (outcome.ActionFails? ==>
            && EffectOf(t, r.id) == EffectOf(s, r.id)
            && (!Meets(r.conditions, s.payload) ==> Executed(s, t, r))
            && (Meets(r.conditions, s.payload) ==>
                  if outcome.recorded then r.id in t.records && t.records[r.id] == Broken else SameRule(s, t, r.id)))
      && (forall id :: id != r.id ==> SameRule(s, t, id)) && t.row == s.row
      && (PcOf(t, w).Failing? <==>
            outcome.StorageFails? || outcome.Unanswered? || (outcome.ActionFails? && Meets(r.conditions, s.payload)))
      && (PcOf(t, w).Failing? ==> PcOf(t, w).permanent == (outcome.ActionFails? && outcome.permanent))
  {
  }

  predicate CanClaim(s: State, v: Worker) {
    PcOf(s, v) == Idle && Step(s, Claim(v)).row.owner == Some(v) && PcOf(Step(s, Claim(v)), v).Claimed?
  }

  /** Only the owner's success closes the event; an attempt that lost it changes nothing by
      finishing. */
  lemma FinishDoes(s: State, w: Worker)
    requires PcOf(s, w).Looping? && PcOf(s, w).todo == []
    ensures var t := Step(s, Finish(w));
      && t.records == s.records && t.effects == s.effects && PcOf(t, w) == Idle
      && t.row == if s.row.owner == Some(w) then s.row.(status := Succeeded, owner := None, leaseUntil := 0) else s.row
  {
  }

  /** After a failure another attempt can be made exactly when the failure was not permanent,
      attempts are left, and the back-off has passed: twice as long after each attempt, and
      never longer than 300 seconds. */
  lemma RetriedExactlyWhen(s: State, w: Worker, permanent: bool, attempt: nat, v: Worker, d: nat)
    requires Limited(s) && PcOf(s, w) == Failing(permanent, attempt) && (v == w || PcOf(s, v) == Idle)
    ensures var t := Step(s, FailEvent(w));
      && t.row.status == Failed && t.row.owner == None && t.row.attempts == (if permanent then s.row.maximum else attempt)
      && t.records == s.records && t.effects == s.effects
      && (CanClaim(Step(t, Tick(d)), v) <==>
            !permanent && attempt < s.row.maximum && d >= if attempt <= 8 then TaskQueue.Power(attempt) else 300)
  {
    assert AttemptOk(s, w);
    TaskQueue.DelayIsCapped(attempt);
  }

  /** While the lease of a claim lasts, nobody else can claim the event; then anybody can,
      if attempts are left. */
  lemma LeaseEndsExactlyWhen(s: State, w: Worker, v: Worker, d: nat)
    requires CanClaim(s, w) && v != w && PcOf(s, v) == Idle
    ensures CanClaim(Step(Step(s, Claim(w)), Tick(d)), v) <==> d > s.lease && s.row.attempts + 1 < s.row.maximum
  {
  }
}
