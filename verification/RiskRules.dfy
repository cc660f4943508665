/** How a playback observation is judged: device allow and deny rules, risk rules, and
    the deduplicated events and queued actions they create (evaluateDeviceRules,
    evaluateRiskRule, matchValue and createRiskEventTx in v3/internal/platform/risk.go). */
module RiskRules {
  import opened Text

  /** The observed fields, by name. */
  datatype Subject = Subject(key: string, fields: map<string, string>, transcoding: bool, bitrate: int)

  datatype Action = NoAction | StopSession | DisableUser

  datatype DeviceRule = DeviceRule(id: string, allow: bool, field: string, operator: string, value: string,
                                   action: Action, observing: bool, enabled: bool)

  datatype Condition =
    | Concurrent(threshold: int)
    | Transcoding
    | Bitrate(minimum: int)
    | Field(field: string, operator: string, value: string)    // remote_ip and custom

  datatype RiskRule = RiskRule(id: string, condition: Condition, action: Action, observing: bool, enabled: bool, cooldown: int)

  /** Whether a regular expression matches; a pattern that does not compile matches nothing. */
  type Regex = (string, string) -> bool

  datatype Decision = Allowed | Denied | Unmatched

  function FieldOf(s: Subject, field: string): string {
    if field in s.fields then s.fields[field] else ""
  }

  predicate HasPrefix(s: string, p: string) {
    |p| <= |s| && s[..|p|] == p
  }

  predicate Contains(s: string, p: string) {
    HasPrefix(s, p) || (s != "" && Contains(s[1..], p))
  }

  predicate MatchValue(regex: Regex, observed: string, operator: string, expected: string) {
    var left, right := Normalize(observed), Normalize(expected);
    if operator == "exact" then left == right
    else if operator == "contains" then Contains(left, right)
    else if operator == "prefix" then HasPrefix(left, right)
    else operator == "regex" && regex(observed, expected)
  }

  predicate Hits(regex: Regex, rule: DeviceRule, s: Subject) {
    rule.enabled && MatchValue(regex, FieldOf(s, rule.field), rule.operator, rule.value)
  }

  /** The scan stops at the first enabled rule that matches. */
  function FirstHit(regex: Regex, rules: seq<DeviceRule>, s: Subject): (i: int)
    ensures -1 <= i < |rules|
    ensures i >= 0 ==> Hits(regex, rules[i], s) && forall j :: 0 <= j < i ==> !Hits(regex, rules[j], s)
    ensures i == -1 ==> forall j :: 0 <= j < |rules| ==> !Hits(regex, rules[j], s)
  {
    if rules == [] then -1
    else
      var i := FirstHit(regex, rules[..|rules| - 1], s);
      if i >= 0 then i else if Hits(regex, rules[|rules| - 1], s) then |rules| - 1 else -1
  }

  function Decide(regex: Regex, rules: seq<DeviceRule>, s: Subject): Decision {
    var i := FirstHit(regex, rules, s);
    if i == -1 then Unmatched else if rules[i].allow then Allowed else Denied
  }

  method EvaluateDeviceRules(regex: Regex, rules: seq<DeviceRule>, s: Subject) returns (decision: Decision, rule: int)
    ensures decision == Decide(regex, rules, s) && rule == FirstHit(regex, rules, s)
  {
    for index := 0 to |rules|
      invariant forall j :: 0 <= j < index ==> !Hits(regex, rules[j], s)
    {
      if rules[index].enabled {
        var value := FieldOf(s, rules[index].field);
        if MatchValue(regex, value, rules[index].operator, rules[index].value) {
          decision, rule := if rules[index].allow then Allowed else Denied, index;
          return;
        }
      }
    }
    decision, rule := Unmatched, -1;
  }

  // ---- Events and actions ----

  /** The dedupe key: source, rule, playback key, time bucket. */
  datatype EventKey = EventKey(fromDevice: bool, rule: string, playback: string, bucket: int)

  datatype Log = Log(events: set<EventKey>, actions: seq<EventKey>)

  function Bucket(now: int, cooldown: int): int {
    now / (if cooldown < 1 then 1 else cooldown)
  }

  /** createRiskEventTx: ON CONFLICT(dedupe_key) DO NOTHING. */
  function Create(log: Log, e: EventKey, observing: bool, action: Action): Log {
    if e in log.events then log
    else Log(log.events + {e}, if observing || action == NoAction then log.actions else log.actions + [e])
  }

  predicate RiskMatches(regex: Regex, rule: RiskRule, s: Subject, concurrent: int) {
    match rule.condition
    case Concurrent(threshold) => concurrent >= threshold
    case Transcoding => s.transcoding
    case Bitrate(minimum) => s.bitrate >= minimum
    case Field(field, operator, value) => MatchValue(regex, FieldOf(s, field), operator, value)
  }

  function ApplyDevice(log: Log, regex: Regex, rules: seq<DeviceRule>, s: Subject, now: int): Log {
    var i := FirstHit(regex, rules, s);
    if i == -1 || rules[i].allow then log
    else Create(log, EventKey(true, rules[i].id, s.key, Bucket(now, 300)), rules[i].observing, rules[i].action)
  }

  function ApplyRisk(log: Log, regex: Regex, rule: RiskRule, s: Subject, concurrent: int, decision: Decision, now: int): Log {
    if RiskMatches(regex, rule, s, concurrent)
    then Create(log, EventKey(false, rule.id, s.key, Bucket(now, rule.cooldown)), rule.observing || decision == Allowed, rule.action)
    else log
  }

  function ApplyRisks(log: Log, regex: Regex, rules: seq<RiskRule>, s: Subject, concurrent: int, decision: Decision, now: int): Log {
    if rules == [] then log
    else ApplyRisk(ApplyRisks(log, regex, rules[..|rules| - 1], s, concurrent, decision, now),
                   regex, rules[|rules| - 1], s, concurrent, decision, now)
  }

  /** All that one observation adds. */
  function Judge(log: Log, regex: Regex, devices: seq<DeviceRule>, risks: seq<RiskRule>, s: Subject, concurrent: int, now: int): Log {
    ApplyRisks(ApplyDevice(log, regex, devices, s, now), regex, risks, s, concurrent, Decide(regex, devices, s), now)
  }

  method JudgeObservation(log: Log, regex: Regex, devices: seq<DeviceRule>, risks: seq<RiskRule>, s: Subject,
                          concurrent: int, now: int) returns (after: Log)
    ensures after == Judge(log, regex, devices, risks, s, concurrent, now)
  {
    var decision, rule := EvaluateDeviceRules(regex, devices, s);
    after := log;
    if rule >= 0 && !devices[rule].allow {
      after := Create(after, EventKey(true, devices[rule].id, s.key, Bucket(now, 300)), devices[rule].observing, devices[rule].action);
    }
    ghost var start := after;
    for i := 0 to |risks|
      invariant after == ApplyRisks(start, regex, risks[..i], s, concurrent, decision, now)
    {
      assert risks[..i + 1][..i] == risks[..i];
      if RiskMatches(regex, risks[i], s, concurrent) {
        var observing := risks[i].observing || decision == Allowed;
        after := Create(after, EventKey(false, risks[i].id, s.key, Bucket(now, risks[i].cooldown)), observing, risks[i].action);
      }
    }
    assert risks[..|risks|] == risks;
  }
}
