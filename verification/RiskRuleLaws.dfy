/** What the device and risk rules guarantee, and two things they do not do
    (evaluateDeviceRules, evaluateRiskRule and createRiskEventTx in
    v3/internal/platform/risk.go). */
module RiskRuleLaws {
  import opened Arithmetic
  import opened RiskRules

  /** The order in which ListDeviceRules returns rules: allow rules first. */
  predicate AllowFirst(rules: seq<DeviceRule>) {
    forall i, j :: 0 <= i < j < |rules| && rules[j].allow ==> rules[i].allow
  }

  /** With the rules in that order an allow rule beats every deny rule, whatever their priorities. */
  lemma AllowWins(regex: Regex, rules: seq<DeviceRule>, s: Subject)
    requires AllowFirst(rules)
    ensures Decide(regex, rules, s) == Allowed <==> exists i :: 0 <= i < |rules| && rules[i].allow && Hits(regex, rules[i], s)
    ensures Decide(regex, rules, s) == Denied <==>
            && (exists i :: 0 <= i < |rules| && !rules[i].allow && Hits(regex, rules[i], s))
            && (forall i :: 0 <= i < |rules| && rules[i].allow ==> !Hits(regex, rules[i], s))
  {
    var f := FirstHit(regex, rules, s);
    if f >= 0 && !rules[f].allow {
      assert forall i :: f < i < |rules| ==> !rules[i].allow;
    }
  }

  /** Every action belongs to an event and none is queued twice. */
  predicate Sound(log: Log) {
    && (forall i :: 0 <= i < |log.actions| ==> log.actions[i] in log.events)
    && (forall i, j :: 0 <= i < j < |log.actions| ==> log.actions[i] != log.actions[j])
  }

  predicate Grows(log: Log, log': Log) {
    log.events <= log'.events && |log.actions| <= |log'.actions| && log'.actions[..|log.actions|] == log.actions
  }

  lemma CreateKeeps(log: Log, e: EventKey, observing: bool, action: Action)
    requires Sound(log)
    ensures Sound(Create(log, e, observing, action)) && Grows(log, Create(log, e, observing, action))
  {
  }

  lemma {:induction false} RisksKeep(log: Log, regex: Regex, rules: seq<RiskRule>, s: Subject, concurrent: int, decision: Decision, now: int)
    requires Sound(log)
    ensures Sound(ApplyRisks(log, regex, rules, s, concurrent, decision, now))
    ensures Grows(log, ApplyRisks(log, regex, rules, s, concurrent, decision, now))
  {
    if rules != [] {
      var rule := rules[|rules| - 1];
      RisksKeep(log, regex, rules[..|rules| - 1], s, concurrent, decision, now);
      var middle := ApplyRisks(log, regex, rules[..|rules| - 1], s, concurrent, decision, now);
      var e := EventKey(false, rule.id, s.key, Bucket(now, rule.cooldown));
      CreateKeeps(middle, e, rule.observing || decision == Allowed, rule.action);
      var after := Create(middle, e, rule.observing || decision == Allowed, rule.action);
      assert after.actions[..|log.actions|] == after.actions[..|middle.actions|][..|log.actions|];
    }
  }

  /** Judging keeps the log sound: one event, and at most one action, for each rule,
      playback and time bucket, however often it is observed. */
  lemma JudgeKeeps(log: Log, regex: Regex, devices: seq<DeviceRule>, risks: seq<RiskRule>, s: Subject, concurrent: int, now: int)
    requires Sound(log)
    ensures Sound(Judge(log, regex, devices, risks, s, concurrent, now))
    ensures Grows(log, Judge(log, regex, devices, risks, s, concurrent, now))
  {
    var i := FirstHit(regex, devices, s);
    var middle := ApplyDevice(log, regex, devices, s, now);
    if i >= 0 {
      CreateKeeps(log, EventKey(true, devices[i].id, s.key, Bucket(now, 300)), devices[i].observing, devices[i].action);
    }
    RisksKeep(middle, regex, risks, s, concurrent, Decide(regex, devices, s), now);
    var after := Judge(log, regex, devices, risks, s, concurrent, now);
    assert after.actions[..|log.actions|] == after.actions[..|middle.actions|][..|log.actions|];
  }

  lemma {:induction false} AllowedQueuesNothing(log: Log, regex: Regex, rules: seq<RiskRule>, s: Subject, concurrent: int, now: int)
    ensures ApplyRisks(log, regex, rules, s, concurrent, Allowed, now).actions == log.actions
  {
    if rules != [] { AllowedQueuesNothing(log, regex, rules[..|rules| - 1], s, concurrent, now); }
  }

  /** A playback on an allowed device may raise events but never an action. */
  lemma AllowedDeviceIsNeverActedOn(log: Log, regex: Regex, devices: seq<DeviceRule>, risks: seq<RiskRule>, s: Subject,
                                    concurrent: int, now: int)
    requires AllowFirst(devices)
    requires exists i :: 0 <= i < |devices| && devices[i].allow && Hits(regex, devices[i], s)
    ensures Judge(log, regex, devices, risks, s, concurrent, now).actions == log.actions
  {
    AllowWins(regex, devices, s);
    AllowedQueuesNothing(ApplyDevice(log, regex, devices, s, now), regex, risks, s, concurrent, now);
  }

  // ---- Two things the code does not do ----

  function KeyOf(rule: RiskRule, s: Subject, now: int): EventKey {
    EventKey(false, rule.id, s.key, Bucket(now, rule.cooldown))
  }

  /** After judging, an event is in the log exactly if it was there before or belongs to a
      rule that matches: whether the rule is enabled plays no part. */
  lemma {:induction false} RaisedExactlyWhen(log: Log, regex: Regex, rules: seq<RiskRule>, s: Subject, concurrent: int,
                                             decision: Decision, now: int, e: EventKey)
    ensures e in ApplyRisks(log, regex, rules, s, concurrent, decision, now).events <==>
            e in log.events || exists i :: 0 <= i < |rules| && RiskMatches(regex, rules[i], s, concurrent) && KeyOf(rules[i], s, now) == e
  {
    if rules != [] {
      var front, last := rules[..|rules| - 1], rules[|rules| - 1];
      RaisedExactlyWhen(log, regex, front, s, concurrent, decision, now, e);
      if i :| 0 <= i < |front| && RiskMatches(regex, front[i], s, concurrent) && KeyOf(front[i], s, now) == e {
        assert front[i] == rules[i];
      }
      if i :| 0 <= i < |rules| && RiskMatches(regex, rules[i], s, concurrent) && KeyOf(rules[i], s, now) == e {
        assert i < |front| ==> front[i] == rules[i];
      }
    }
  }

  /** A rule that has been switched off raises its event and queues its action all the same. */
  lemma DisabledRiskRulesStillFire(regex: Regex, id: string, s: Subject, now: int)
    requires s.transcoding
    ensures var off := RiskRule(id, Transcoding, DisableUser, false, false, 60);
      var e := KeyOf(off, s, now);
      ApplyRisks(Log({}, []), regex, [off], s, 1, Unmatched, now) == Log({e}, [e])
  {
    var off := RiskRule(id, Transcoding, DisableUser, false, false, 60);
    assert [off][..0] == [];
    assert ApplyRisks(Log({}, []), regex, [off][..0], s, 1, Unmatched, now) == Log({}, []);
  }

  /** The cooldown is a grid, not a pause: a rule that fired at `t` fires again at `u` exactly
      if a multiple of the cooldown lies between them, which may be a second later. */
  lemma FiresAgainExactlyWhen(log: Log, rule: string, key: string, cooldown: int, t: int, u: int)
    requires cooldown >= 1 && 0 <= t <= u
    ensures var e, f := EventKey(false, rule, key, Bucket(t, cooldown)), EventKey(false, rule, key, Bucket(u, cooldown));
      f !in log.events ==> (Create(Create(log, e, true, NoAction), f, true, NoAction) != Create(log, e, true, NoAction)
                            <==> exists m :: Between(t, m, cooldown, u))
  {
    if m :| Between(t, m, cooldown, u) { DifferentBuckets(t, m, cooldown, u); }
    if t / cooldown != u / cooldown { GridPoint(t, cooldown, u); }
  }

  predicate Between(t: int, m: int, cooldown: int, u: int) {
    t < m * cooldown <= u
  }

  lemma DifferentBuckets(t: int, m: int, c: int, u: int)
    requires c >= 1 && Between(t, m, c, u)
    ensures t / c < u / c
  {
    var q, p := t / c, u / c;
    QuotientBounds(t, c);
    QuotientBounds(u, c);
    Distribute(p, 1, c);
    SmallerFactor(q, m, c);
    SmallerFactor(m, p + 1, c);
  }

  lemma GridPoint(t: int, c: int, u: int)
    requires c >= 1 && t <= u && t / c != u / c
    ensures Between(t, u / c, c, u)
  {
    var q, p := t / c, u / c;
    QuotientBounds(t, c);
    QuotientBounds(u, c);
    Distribute(p, 1, c);
    Distribute(q, 1, c);
    SmallerFactor(q, p + 1, c);
    MulMono(q + 1, p, c);
  }
}
