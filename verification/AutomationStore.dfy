/** One automation event processed statement by statement (ProcessNextAutomation and
    executeAutomationEvent in v3/internal/platform/community.go). */
module AutomationStore {
  import opened Options
  import opened Automation
  import opened AutomationRuns
  import TaskQueue

  /** automationConditionsMatch. */
  method MatchConditions(conditions: map<string, string>, payload: map<string, string>) returns (matched: bool)
    ensures matched == ConditionsMatch(conditions, payload)
  {
    var left := conditions.Keys;
    while left != {}
      invariant left <= conditions.Keys
      invariant forall k :: k in conditions && k !in left ==> (if k in payload then payload[k] else "<nil>") == conditions[k]
      decreases |left|
    {
      var key :| key in left;
      var value := if key in payload then payload[key] else "<nil>";
      if value != conditions[key] {
        return false;
      }
      left := left - {key};
    }
    matched := true;
  }

  class AutomationEvent {
    const now: int
    const lease: nat
    const kind: string
    const payload: map<string, string>
    var row: Row
    var records: map<RuleId, Record>
    var effects: map<RuleId, nat>
    ghost var loaded: seq<Rule>
    ghost var pcs: map<Worker, Pc>
    ghost var claims: nat

    ghost function State(): State
      reads this
    {
      Automation.State.State(now, lease, kind, payload, row, records, effects, loaded, pcs, claims)
    }

    ghost function At(w: Worker): Pc
      reads this
    {
      PcOf(State(), w)
    }

    /** The claiming transaction. */
    method Claim(w: Worker) returns (attempt: int)
      requires At(w) == Idle && Claimable(row, now)
      modifies this`row, this`pcs, this`claims
      ensures State() == Step(old(State()), Event.Claim(w)) && At(w) == Claimed(attempt)
    {
      attempt := row.attempts + 1;
      row := row.(status := Running, attempts := attempt, owner := Some(w), leaseUntil := now + lease);
      pcs, claims := pcs[w := Claimed(attempt)], claims + 1;
    }

    /** One rule: skip it if it is settled, otherwise record what becomes of it. */
    method ExecuteRule(w: Worker, r: Rule, outcome: Outcome) returns (ok: bool)
      requires At(w).Looping? && At(w).todo != [] && At(w).todo[0] == r
      modifies this`records, this`effects, this`pcs
      ensures State() == Step(Step(old(State()), Look(w)), Act(w, outcome))
      ensures ok ==> At(w) == Looping(old(At(w)).done + [r], old(At(w)).todo[1..], old(At(w)).attempt)
      ensures !ok ==> At(w).Failing? && At(w) == Failing(outcome.ActionFails? && outcome.permanent, old(At(w)).attempt)
    {
      ghost var pc := At(w);
      ghost var next := Looping(pc.done + [r], pc.todo[1..], pc.attempt);
      if r.id in records && records[r.id] != Broken {
        pcs := pcs[w := next];
        return true;
      }
      pcs := pcs[w := Acting(pc.done, pc.todo, pc.attempt)];
      ok := RunRule(w, r, outcome);
    }

    method RunRule(w: Worker, r: Rule, outcome: Outcome) returns (ok: bool)
      requires At(w).Acting? && At(w).todo != [] && At(w).todo[0] == r && !Settled(records, r.id)
      modifies this`records, this`effects, this`pcs
      ensures State() == ActStep(old(State()), w, old(At(w)), outcome)
      ensures ok ==> At(w) == Looping(old(At(w)).done + [r], old(At(w)).todo[1..], old(At(w)).attempt)
      ensures !ok ==> At(w) == Failing(outcome.ActionFails? && outcome.permanent, old(At(w)).attempt)
    {
      ghost var pc := At(w);
      ghost var next := if outcome.Unanswered? then Failing(false, pc.attempt)
                        else Looping(pc.done + [r], pc.todo[1..], pc.attempt);
      if outcome.StorageFails? {
        pcs := pcs[w := Failing(false, pc.attempt)];
        return false;
      }
      var matches := MatchConditions(r.conditions, payload);
      if !matches {
        records, pcs, ok := records[r.id := Skipped], pcs[w := next], !outcome.Unanswered?;
      } else if outcome.ActionFails? {
        if outcome.recorded {
          records := records[r.id := Broken];
        }
        pcs, ok := pcs[w := Failing(outcome.permanent, pc.attempt)], false;
      } else {
        var n := if r.id in effects then effects[r.id] else 0;
        effects, records := effects[r.id := n + 1], records[r.id := Done];
        pcs, ok := pcs[w := next], !outcome.Unanswered?;
      }
    }

    /** The two closing updates. */
    method MarkSucceeded(w: Worker)
      requires At(w).Looping? && At(w).todo == []
      modifies this`row, this`pcs
      ensures State() == Step(old(State()), Finish(w))
    {
      if row.owner == Some(w) {
        row := row.(status := Succeeded, owner := None, leaseUntil := 0);
      }
      pcs := pcs[w := Idle];
    }

    method MarkFailed(w: Worker, permanent: bool, attempt: int)
      requires At(w) == Failing(permanent, attempt)
      modifies this`row, this`pcs
      ensures State() == Step(old(State()), FailEvent(w))
    {
      var attempts := attempt;
      if permanent {
        attempts := row.maximum;
      }
      row := row.(status := Failed, attempts := attempts, owner := None, leaseUntil := 0,
                  available := now + TaskQueue.Delay(attempts));
      pcs := pcs[w := Idle];
    }

    method Filter(rules: seq<Rule>) returns (todo: seq<Rule>)
      ensures todo == Applicable(rules, kind)
    {
      todo := [];
      for i := 0 to |rules|
        invariant todo == Applicable(rules[..i], kind)
      {
        assert rules[..i + 1][..i] == rules[..i];
        if rules[i].enabled && rules[i].trigger == kind {
          todo := todo + [rules[i]];
        }
      }
      assert rules[..|rules|] == rules;
    }

    /** executeAutomationEvent: the loop over the rules, left at the first failure. */
    method Execute(w: Worker, bad: map<RuleId, Outcome>, todo: seq<Rule>) returns (failing: bool, permanent: bool)
      requires At(w).Looping? && At(w).todo == todo
      modifies this`records, this`effects, this`pcs
      ensures State() == Loop(old(State()), w, bad, todo)
      ensures if failing then At(w) == Failing(permanent, old(At(w)).attempt) else At(w).Looping? && At(w).todo == []
    {
      failing, permanent := false, false;
      ghost var attempt := At(w).attempt;
      for i := 0 to |todo|
        invariant At(w).Looping? && At(w).todo == todo[i..] && At(w).attempt == attempt
        invariant Loop(State(), w, bad, todo[i..]) == Loop(old(State()), w, bad, todo)
      {
        assert todo[i..][1..] == todo[i + 1..];
        var outcome := if todo[i].id in bad then bad[todo[i].id] else Works;
        var ok := ExecuteRule(w, todo[i], outcome);
        if !ok {
          failing, permanent := true, outcome.ActionFails? && outcome.permanent;
          return;
        }
      }
    }

    /** ProcessNextAutomation on this event, undisturbed by other workers. Without `rules`
        the list cannot be read; each rule's transaction ends as `bad` says, or works. */
    method ProcessNext(w: Worker, rules: Option<seq<Rule>>, bad: map<RuleId, Outcome>) returns (claimed: bool)
      requires At(w) == Idle
      modifies this
      ensures claimed == Claimable(old(row), now)
      ensures State() == if !claimed then old(State())
                         else if rules.Some? then Attempt(old(State()), w, rules.value, bad)
                         else Closed(Step(Step(old(State()), Event.Claim(w)), ReadFails(w)), w)
    {
      claimed := Claimable(row, now);
      if !claimed {
        return;
      }
      var attempt := Claim(w);
      if rules.None? {
        pcs := pcs[w := Failing(false, attempt)];
        MarkFailed(w, false, attempt);
        return;
      }
      var todo := Filter(rules.value);
      loaded := rules.value;
      pcs := pcs[w := Looping([], todo, attempt)];
      assert State() == Opened(old(State()), w, rules.value);
      var failing, permanent := Execute(w, bad, todo);
      if failing {
        MarkFailed(w, permanent, attempt);
      } else {
        MarkSucceeded(w);
      }
    }
  }
}
