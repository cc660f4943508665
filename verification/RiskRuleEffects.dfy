/** What one judged observation adds to the events and to the queued actions, in terms of the
    rules and the observation (IngestPlaybackSnapshot, matchValue and createRiskEventTx in
    v3/internal/platform/risk.go). */
module RiskRuleEffects {
  import opened Text
  import opened RiskRules

  // ---- When a rule matches ----

  predicate At(s: string, i: int, p: string) {
    0 <= i <= |s| - |p| && forall j :: 0 <= j < |p| ==> s[i + j] == p[j]
  }

  /** The observed text compares with the expected one as the operator says; case and outer
      blanks are ignored, and an operator that is not known matches nothing. */
  predicate Compares(regex: Regex, observed: string, operator: string, expected: string) {
    var left, right := ToLower(TrimSpace(observed)), ToLower(TrimSpace(expected));
    || (operator == "exact" && left == right)
    || (operator == "contains" && exists i :: 0 <= i <= |left| && At(left, i, right))
    || (operator == "prefix" && At(left, 0, right))
    || (operator == "regex" && regex(observed, expected))
  }

  lemma PrefixAt(s: string, p: string)
    ensures HasPrefix(s, p) <==> At(s, 0, p)
  {
    if At(s, 0, p) { assert s[..|p|] == p; }
    if HasPrefix(s, p) {
      forall j | 0 <= j < |p| ensures s[0 + j] == p[j] { assert s[..|p|][j] == p[j]; }
    }
  }

  lemma {:induction false} ContainsAt(s: string, p: string)
    ensures Contains(s, p) <==> exists i :: 0 <= i <= |s| && At(s, i, p)
  {
    PrefixAt(s, p);
    if s != "" {
      ContainsAt(s[1..], p);
      if i :| At(s[1..], i, p) {
        forall j | 0 <= j < |p| ensures s[i + 1 + j] == p[j] { assert s[1..][i + j] == p[j]; }
        assert At(s, i + 1, p);
      }
      if i :| At(s, i, p) && i > 0 {
        forall j | 0 <= j < |p| ensures s[1..][i - 1 + j] == p[j] { assert s[i + j] == p[j]; }
        assert At(s[1..], i - 1, p);
      }
    }
  }

  lemma MatchesAsCompared(regex: Regex, observed: string, operator: string, expected: string)
    ensures MatchValue(regex, observed, operator, expected) <==> Compares(regex, observed, operator, expected)
  {
    var left, right := Normalize(observed), Normalize(expected);
    ContainsAt(left, right);
    PrefixAt(left, right);
  }

  /** An unknown field is empty. */
  function Value(s: Subject, field: string): string {
    if field !in s.fields then "" else s.fields[field]
  }

  /** The first enabled device rule that compares. */
  predicate FirstRule(regex: Regex, rules: seq<DeviceRule>, s: Subject, i: int) {
    && 0 <= i < |rules| && rules[i].enabled && Compares(regex, Value(s, rules[i].field), rules[i].operator, rules[i].value)
    && forall j :: 0 <= j < i ==> !(rules[j].enabled && Compares(regex, Value(s, rules[j].field), rules[j].operator, rules[j].value))
  }

  lemma HitIsFirst(regex: Regex, rules: seq<DeviceRule>, s: Subject, i: int)
    ensures FirstRule(regex, rules, s, i) <==> i >= 0 && FirstHit(regex, rules, s) == i
  {
    forall j | 0 <= j < |rules|
      ensures Hits(regex, rules[j], s) <==> rules[j].enabled && Compares(regex, Value(s, rules[j].field), rules[j].operator, rules[j].value)
    {
      MatchesAsCompared(regex, FieldOf(s, rules[j].field), rules[j].operator, rules[j].value);
    }
  }

  predicate Applies(regex: Regex, rule: RiskRule, s: Subject, concurrent: int) {
    var c := rule.condition;
    && (c.Concurrent? ==> c.threshold <= concurrent)
    && (c.Transcoding? ==> s.transcoding)
    && (c.Bitrate? ==> c.minimum <= s.bitrate)
    && (c.Field? ==> Compares(regex, Value(s, c.field), c.operator, c.value))
  }

  lemma MatchesWhenApplies(regex: Regex, rule: RiskRule, s: Subject, concurrent: int)
    ensures RiskMatches(regex, rule, s, concurrent) <==> Applies(regex, rule, s, concurrent)
  {
    if rule.condition.Field? {
      MatchesAsCompared(regex, FieldOf(s, rule.condition.field), rule.condition.operator, rule.condition.value);
    }
  }

  // ---- What is raised ----

  /** One event for each rule, playback and interval of the cooldown. */
  predicate Raises(rule: RiskRule, s: Subject, now: int, e: EventKey) {
    && !e.fromDevice && e.rule == rule.id && e.playback == s.key
    && e.bucket == if rule.cooldown >= 1 then now / rule.cooldown else now
  }

  /** Rule `i` is the first one that raises this event. */
  predicate FirstToRaise(regex: Regex, rules: seq<RiskRule>, s: Subject, concurrent: int, now: int, e: EventKey, i: int) {
    && 0 <= i < |rules| && Applies(regex, rules[i], s, concurrent) && Raises(rules[i], s, now, e)
    && forall j :: 0 <= j < i ==> !(Applies(regex, rules[j], s, concurrent) && Raises(rules[j], s, now, e))
  }

  /** A device rule raises its event for five minutes at a time. */
  predicate DeviceRaises(regex: Regex, rules: seq<DeviceRule>, s: Subject, now: int, e: EventKey, i: int) {
    FirstRule(regex, rules, s, i) && !rules[i].allow && e == EventKey(true, rules[i].id, s.key, now / 300)
  }

  lemma DeviceAdds(log: Log, regex: Regex, rules: seq<DeviceRule>, s: Subject, now: int, e: EventKey)
    ensures var after := ApplyDevice(log, regex, rules, s, now);
      && (e in after.events <==> e in log.events || exists i :: DeviceRaises(regex, rules, s, now, e, i))
      && (e in after.actions <==>
            || e in log.actions
            || (e !in log.events && exists i :: DeviceRaises(regex, rules, s, now, e, i) && !rules[i].observing && rules[i].action != NoAction))
  {
    var i := FirstHit(regex, rules, s);
    HitIsFirst(regex, rules, s, i);
    forall j | DeviceRaises(regex, rules, s, now, e, j) ensures j == i { HitIsFirst(regex, rules, s, j); }
    if i >= 0 && !rules[i].allow && e == EventKey(true, rules[i].id, s.key, now / 300) {
      assert DeviceRaises(regex, rules, s, now, e, i);
    }
  }

  lemma {:induction false} RisksAdd(log: Log, regex: Regex, rules: seq<RiskRule>, s: Subject, concurrent: int, decision: Decision,
                                    now: int, e: EventKey)
    ensures var after := ApplyRisks(log, regex, rules, s, concurrent, decision, now);
      && (e in after.events <==> e in log.events || exists i :: FirstToRaise(regex, rules, s, concurrent, now, e, i))
      && (e in after.actions <==>
            || e in log.actions
            || (&& e !in log.events && decision != Allowed
                && exists i :: FirstToRaise(regex, rules, s, concurrent, now, e, i) && !rules[i].observing && rules[i].action != NoAction))
  {
    if rules != [] {
      var front, last := rules[..|rules| - 1], |rules| - 1;
      RisksAdd(log, regex, front, s, concurrent, decision, now, e);
      MatchesWhenApplies(regex, rules[last], s, concurrent);
      forall i | 0 <= i < last
        ensures FirstToRaise(regex, front, s, concurrent, now, e, i) <==> FirstToRaise(regex, rules, s, concurrent, now, e, i)
      {
        assert forall j :: 0 <= j <= i ==> front[j] == rules[j];
      }
      LastToRaise(regex, rules, s, concurrent, now, e);
    }
  }

  lemma {:induction false} SomeFirst(regex: Regex, rules: seq<RiskRule>, s: Subject, concurrent: int, now: int, e: EventKey, j: nat)
    requires j < |rules| && Applies(regex, rules[j], s, concurrent) && Raises(rules[j], s, now, e)
    ensures exists i :: i <= j && FirstToRaise(regex, rules, s, concurrent, now, e, i)
  {
    if k :| 0 <= k < j && Applies(regex, rules[k], s, concurrent) && Raises(rules[k], s, now, e) {
      SomeFirst(regex, rules, s, concurrent, now, e, k);
    } else {
      assert FirstToRaise(regex, rules, s, concurrent, now, e, j);
    }
  }

  lemma LastToRaise(regex: Regex, rules: seq<RiskRule>, s: Subject, concurrent: int, now: int, e: EventKey)
    requires rules != []
    ensures var last := |rules| - 1;
      Applies(regex, rules[last], s, concurrent) && Raises(rules[last], s, now, e) ==>
        (FirstToRaise(regex, rules, s, concurrent, now, e, last)
         <==> !exists i :: i < last && FirstToRaise(regex, rules, s, concurrent, now, e, i))
  {
    var last := |rules| - 1;
    if Applies(regex, rules[last], s, concurrent) && Raises(rules[last], s, now, e) {
      SomeFirst(regex, rules, s, concurrent, now, e, last);
    }
  }

  /** The event that a rule could have raised at this observation. */
  ghost predicate Due(regex: Regex, devices: seq<DeviceRule>, risks: seq<RiskRule>, s: Subject, concurrent: int, now: int, e: EventKey) {
    (exists i :: DeviceRaises(regex, devices, s, now, e, i)) || exists i :: FirstToRaise(regex, risks, s, concurrent, now, e, i)
  }

  /** Its rule acts: it does not only observe, it names an action, and for a risk rule no
      allow rule comes first for the device. */
  ghost predicate ActsOn(regex: Regex, devices: seq<DeviceRule>, risks: seq<RiskRule>, s: Subject, concurrent: int, now: int, e: EventKey) {
    || (exists i :: DeviceRaises(regex, devices, s, now, e, i) && !devices[i].observing && devices[i].action != NoAction)
    || (&& !(exists i :: FirstRule(regex, devices, s, i) && devices[i].allow)
        && exists i :: FirstToRaise(regex, risks, s, concurrent, now, e, i) && !risks[i].observing && risks[i].action != NoAction)
  }

  /** One observation raises exactly the events its rules call for, and queues an action
      exactly for each event that is new and whose rule acts. */
  lemma JudgeDoes(log: Log, regex: Regex, devices: seq<DeviceRule>, risks: seq<RiskRule>, s: Subject, concurrent: int, now: int, e: EventKey)
    ensures var after := Judge(log, regex, devices, risks, s, concurrent, now);
      && (e in after.events <==> e in log.events || Due(regex, devices, risks, s, concurrent, now, e))
      && (e in after.actions <==> e in log.actions || (e !in log.events && ActsOn(regex, devices, risks, s, concurrent, now, e)))
  {
    DeviceAdds(log, regex, devices, s, now, e);
    RisksAdd(ApplyDevice(log, regex, devices, s, now), regex, risks, s, concurrent, Decide(regex, devices, s), now, e);
    forall i ensures FirstRule(regex, devices, s, i) <==> i >= 0 && FirstHit(regex, devices, s) == i {
      HitIsFirst(regex, devices, s, i);
    }
  }
}
