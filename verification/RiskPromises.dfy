/** What the risk action and its compensation promise over every run, and where they
    fall short (executeRiskAction in v3/internal/platform/worker.go,
    MarkRiskFalsePositive in risk.go). */
module RiskPromises {
  import opened Options
  import opened RiskAction

  /** Before anything is sent to the server the previous flag is durable, and nothing
      ever overwrites it. */
  lemma BeforeStateIsDurable(original: bool, events: seq<Event>, more: seq<Event>)
    ensures var s := Run(Queued(DisableUser, original), events);
      && (s.touched ==> s.before == Some(original))
      && (s.before.Some? ==> s.before == Some(original) && Run(s, more).before == Some(original))
      && (!s.touched ==> s.disabled == original)
  {
    RunKeeps(Queued(DisableUser, original), original, events);
    RunKeeps(Run(Queued(DisableUser, original), events), original, more);
  }

  /** A completed revert has restored the flag, for good: no later attempt disables the
      user again, and the binding shows the restored flag when the revert completes. */
  lemma RevertRestores(original: bool, events: seq<Event>, more: seq<Event>)
    ensures var s := Run(Queued(DisableUser, original), events);
      && (s.status == Reverted || s.undone ==> Run(s, more).disabled == original)
      && (s.pc.Recorded? && s.pc.revert ==> Step(s, Complete).mirror == Some(original) && Step(s, Complete).disabled == original)
  {
    RunKeeps(Queued(DisableUser, original), original, events);
    RunKeeps(Run(Queued(DisableUser, original), events), original, more);
  }

  /** Once the effect is recorded, the first review that is not refused queues exactly
      one revert; it is refused exactly while an attempt is in progress. */
  lemma ReviewQueuesOneRevert(original: bool, events: seq<Event>, more: seq<Event>)
    ensures var s := Run(Queued(DisableUser, original), events); var t := Step(s, Review);
      s.effect && !s.reviewed ==>
        && (t == s <==> s.status == Running)
        && (t != s ==> t == s.(status := RevertPending, reverts := 1, reviewed := true) && Run(t, more).reverts == 1)
  {
    RunKeeps(Queued(DisableUser, original), original, events);
    var s := Run(Queued(DisableUser, original), events);
    if s.effect && !s.reviewed && s.status != Running {
      ReviewKeeps(s, original);
      RunKeeps(Step(s, Review), original, more);
    }
  }

  lemma AbandonsExactlyWhen(s: World, original: bool)
    requires Inv(s, original) && !s.reviewed
    ensures ReviewStep(s).reviewed && ReviewStep(s).reverts == 0 && ReviewStep(s).disabled != original
            <==> s.status == Failed && !s.effect && s.before == Some(false) && s.disabled
  {
  }

  /** The first review leaves the user in a state it no longer intends to restore exactly
      when the action failed after the remote call took effect but before that was recorded. */
  lemma ReviewAbandonsExactlyWhen(original: bool, events: seq<Event>)
    requires !Run(Queued(DisableUser, original), events).reviewed
    ensures var s := Run(Queued(DisableUser, original), events); var t := ReviewStep(s);
      t.reviewed && t.reverts == 0 && t.disabled != original
      <==> s.status == Failed && !s.effect && s.before == Some(false) && s.disabled
  {
    RunKeeps(Queued(DisableUser, original), original, events);
    AbandonsExactlyWhen(Run(Queued(DisableUser, original), events), original);
  }

  /** A user who was not disabled before. */
  function With(status: Status, effect: bool, undone: bool, reviewed: bool, reverts: nat, disabled: bool,
                mirror: Option<bool>, pc: Pc): World
  {
    World(DisableUser, status, Some(false), effect, undone, reviewed, reverts, true, disabled, false, true, mirror, pc)
  }

  lemma HalfApplied() returns (events: seq<Event>)
    ensures Run(Queued(DisableUser, false), events) == With(Failed, false, false, false, 0, true, None, Idle)
  {
    events := SavedFirst();
    events := Advance(Queued(DisableUser, false), events, Unsent(), Apply(Unreported),
                      With(Failed, false, false, false, 0, true, None, Idle));
  }

  /** That does happen: the call takes effect and reports an error. */
  lemma HalfAppliedIsAbandoned() returns (events: seq<Event>)
    ensures Run(Queued(DisableUser, false), events) == With(Canceled, false, false, true, 0, true, None, Idle)
  {
    events := HalfApplied();
    events := Advance(Queued(DisableUser, false), events, With(Failed, false, false, false, 0, true, None, Idle), Review,
                      With(Canceled, false, false, true, 0, true, None, Idle));
  }

  /** The first attempt just before its remote call. */
  function Unsent(): World {
    With(Running, false, false, false, 0, false, None, Saved(false, Some(false), false)).(touched := false)
  }

  lemma SavedFirst() returns (events: seq<Event>)
    ensures Run(Queued(DisableUser, false), events) == Unsent()
  {
    var q := Queued(DisableUser, false);
    assert Run(q, []) == q;
    var begun := q.(status := Running, pc := Begun(false, None, false));
    events := Advance(q, [], q, Begin(false), begun);
    var listed := begun.(pc := Listed(false, None, false));
    events := Advance(q, events, begun, List, listed);
    events := Advance(q, events, listed, Save, Unsent());
  }

  lemma Reports(s: World, original: bool)
    requires Inv(s, original) && s.pc.Recorded? && s.reverts == 0
    ensures Step(s, Complete).mirror == Some(s.disabled) && Step(s, Complete).status == Succeeded
  {
  }

  /** As long as no revert is queued, a completed action reports what the server has. */
  lemma CompletionReports(original: bool, events: seq<Event>)
    ensures var s := Run(Queued(DisableUser, original), events);
      s.pc.Recorded? && s.reverts == 0 ==> Step(s, Complete).mirror == Some(s.disabled) && Step(s, Complete).status == Succeeded
  {
    RunKeeps(Queued(DisableUser, original), original, events);
    var s := Run(Queued(DisableUser, original), events);
    if s.pc.Recorded? && s.reverts == 0 { Reports(s, original); }
  }

  /** This step is a revert's remote call that changes the user back. */
  predicate TakesBack(s: World, e: Event) {
    && e.Apply? && e.call != Lost && s.kind == DisableUser
    && s.pc.Saved? && s.pc.revert && s.pc.flag != Wanted(true, s.pc.before)
  }

  /** Some revert's call has taken effect, reported or not. */
  predicate TakenBack(s: World, events: seq<Event>) {
    events != [] &&
    var front := events[..|events| - 1];
    TakenBack(s, front) || TakesBack(Run(s, front), events[|events| - 1])
  }

  lemma TakingBack(s: World, original: bool, e: Event)
    requires Inv(s, original)
    ensures Step(s, e).effect && !Step(s, e).disabled <==> (s.effect && !s.disabled) || TakesBack(s, e)
  {
    if e.Apply? {
      CallTakesBack(s, original, e.call);
    } else if e.Record? {
      RecordTakesNothingBack(s, original);
    } else {
      OthersTakeNothingBack(s, e);
    }
  }

  lemma CallTakesBack(s: World, original: bool, call: Call)
    requires Inv(s, original)
    ensures var t := Step(s, Apply(call)); t.effect && !t.disabled <==> (s.effect && !s.disabled) || TakesBack(s, Apply(call))
  {
  }

  lemma RecordTakesNothingBack(s: World, original: bool)
    requires Inv(s, original)
    ensures Step(s, Record).disabled == s.disabled && (Step(s, Record).effect && !s.disabled <==> s.effect && !s.disabled)
  {
  }

  predicate SameUser(s: World, t: World) {
    t.disabled == s.disabled && t.effect == s.effect
  }

  lemma BeginTakesNothingBack(s: World, revert: bool)
    ensures SameUser(s, BeginStep(s, revert))
  {
  }

  lemma ReviewTakesNothingBack(s: World)
    ensures SameUser(s, ReviewStep(s))
  {
  }

  lemma ListTakesNothingBack(s: World, revert: bool, before: Option<bool>, effect: bool)
    ensures SameUser(s, ListStep(s, revert, before, effect))
  {
    assert SameUser(s, Failing(s, revert));
    if effect {
      assert ListStep(s, revert, before, effect) == s.(pc := Recorded(revert, before));
    }
  }

  lemma SaveTakesNothingBack(s: World, revert: bool, before: Option<bool>, flag: bool)
    ensures SameUser(s, SaveStep(s, revert, before, flag))
  {
  }

  lemma OthersTakeNothingBack(s: World, e: Event)
    requires !e.Apply? && !e.Record?
    ensures SameUser(s, Step(s, e))
  {
    match e
    case Begin(revert) => BeginTakesNothingBack(s, revert);
    case Review => ReviewTakesNothingBack(s);
    case List => if s.pc.Begun? { ListTakesNothingBack(s, s.pc.revert, s.pc.before, s.pc.effect); }
    case Save => if s.pc.Listed? { SaveTakesNothingBack(s, s.pc.revert, s.pc.before, s.pc.flag); }
    case _ =>
  }

  lemma {:induction false} TakenBackMeans(original: bool, events: seq<Event>)
    ensures var s := Run(Queued(DisableUser, original), events);
      s.effect && !s.disabled <==> TakenBack(Queued(DisableUser, original), events)
  {
    if events != [] {
      var front := events[..|events| - 1];
      TakenBackMeans(original, front);
      RunKeeps(Queued(DisableUser, original), original, front);
      TakingBack(Run(Queued(DisableUser, original), front), original, events[|events| - 1]);
    }
  }

  lemma ReportOf(s: World, original: bool)
    requires Inv(s, original) && s.pc.Recorded?
    ensures Step(s, Complete).mirror != Some(Step(s, Complete).disabled) <==> !s.pc.revert && s.effect && !s.disabled
  {
  }

  /** A completing attempt reports something the server does not have exactly when it is
      an attempt of the action, not of its revert, and a revert's call took effect before. */
  lemma MisreportsExactlyWhen(original: bool, events: seq<Event>)
    requires Run(Queued(DisableUser, original), events).pc.Recorded?
    ensures var s := Run(Queued(DisableUser, original), events); var t := Step(s, Complete);
      t.mirror != Some(t.disabled) <==> !s.pc.revert && TakenBack(Queued(DisableUser, original), events)
  {
    RunKeeps(Queued(DisableUser, original), original, events);
    TakenBackMeans(original, events);
    ReportOf(Run(Queued(DisableUser, original), events), original);
  }

  lemma Disabled() returns (events: seq<Event>)
    ensures Run(Queued(DisableUser, false), events) == With(Running, true, false, false, 0, true, None, Recorded(false, Some(false)))
  {
    var q := Queued(DisableUser, false);
    events := SavedFirst();
    events := Advance(q, events, Unsent(), Apply(Done),
                      With(Running, false, false, false, 0, true, None, Applied(false, Some(false))));
    events := Advance(q, events, With(Running, false, false, false, 0, true, None, Applied(false, Some(false))), Record,
                      With(Running, true, false, false, 0, true, None, Recorded(false, Some(false))));
  }

  lemma Completed() returns (events: seq<Event>)
    ensures Run(Queued(DisableUser, false), events) == With(Succeeded, true, false, false, 0, true, Some(true), Idle)
  {
    events := Disabled();
    events := Advance(Queued(DisableUser, false), events, With(Running, true, false, false, 0, true, None, Recorded(false, Some(false))),
                      Complete, With(Succeeded, true, false, false, 0, true, Some(true), Idle));
  }

  lemma Reviewed() returns (events: seq<Event>)
    ensures Run(Queued(DisableUser, false), events) == With(RevertPending, true, false, true, 1, true, Some(true), Idle)
  {
    events := Completed();
    events := Advance(Queued(DisableUser, false), events, With(Succeeded, true, false, false, 0, true, Some(true), Idle), Review,
                      With(RevertPending, true, false, true, 1, true, Some(true), Idle));
  }

  lemma RevertListed() returns (events: seq<Event>)
    ensures Run(Queued(DisableUser, false), events) == With(Reverting, true, false, true, 1, true, Some(true), Listed(true, Some(false), true))
  {
    var q := Queued(DisableUser, false);
    events := Reviewed();
    events := Advance(q, events, With(RevertPending, true, false, true, 1, true, Some(true), Idle), Begin(true),
                      With(Reverting, true, false, true, 1, true, Some(true), Begun(true, Some(false), false)));
    events := Advance(q, events, With(Reverting, true, false, true, 1, true, Some(true), Begun(true, Some(false), false)), List,
                      With(Reverting, true, false, true, 1, true, Some(true), Listed(true, Some(false), true)));
  }

  lemma UserRestored() returns (events: seq<Event>)
    ensures Run(Queued(DisableUser, false), events) == With(Reverting, true, false, true, 1, false, Some(true), Applied(true, Some(false)))
  {
    var q := Queued(DisableUser, false);
    events := RevertListed();
    events := Advance(q, events, With(Reverting, true, false, true, 1, true, Some(true), Listed(true, Some(false), true)), Save,
                      With(Reverting, true, false, true, 1, true, Some(true), Saved(true, Some(false), true)));
    events := Advance(q, events, With(Reverting, true, false, true, 1, true, Some(true), Saved(true, Some(false), true)), Apply(Done),
                      With(Reverting, true, false, true, 1, false, Some(true), Applied(true, Some(false))));
  }

  lemma RevertCrashed() returns (events: seq<Event>)
    ensures Run(Queued(DisableUser, false), events) == With(Reverting, true, true, true, 1, false, Some(true), Idle)
  {
    var q := Queued(DisableUser, false);
    events := UserRestored();
    events := Advance(q, events, With(Reverting, true, false, true, 1, false, Some(true), Applied(true, Some(false))), Record,
                      With(Reverting, true, true, true, 1, false, Some(true), Recorded(true, Some(false))));
    events := Advance(q, events, With(Reverting, true, true, true, 1, false, Some(true), Recorded(true, Some(false))), Crash,
                      With(Reverting, true, true, true, 1, false, Some(true), Idle));
  }

  lemma RetryRefused() returns (events: seq<Event>)
    ensures Run(Queued(DisableUser, false), events) == With(Running, true, true, true, 1, false, Some(true), Begun(false, Some(false), true))
  {
    var q := Queued(DisableUser, false);
    events := RevertCrashed();
    events := Advance(q, events, With(Reverting, true, true, true, 1, false, Some(true), Idle), Begin(false),
                      With(Failed, true, true, true, 1, false, Some(true), Idle));
    events := Advance(q, events, With(Failed, true, true, true, 1, false, Some(true), Idle), Begin(false),
                      With(Running, true, true, true, 1, false, Some(true), Begun(false, Some(false), true)));
  }

  /** With a revert queued it need not: the revert takes effect and crashes, the old task
      is refused and then retried, and the action ends `succeeded`, shown as disabled, on a
      user who has been restored. */
  lemma RetriedActionMisreports() returns (events: seq<Event>)
    ensures Run(Queued(DisableUser, false), events) == With(Succeeded, true, true, true, 1, false, Some(true), Idle)
  {
    var q := Queued(DisableUser, false);
    events := RetryRefused();
    events := Advance(q, events, With(Running, true, true, true, 1, false, Some(true), Begun(false, Some(false), true)), List,
                      With(Running, true, true, true, 1, false, Some(true), Recorded(false, Some(false))));
    events := Advance(q, events, With(Running, true, true, true, 1, false, Some(true), Recorded(false, Some(false))), Complete,
                      With(Succeeded, true, true, true, 1, false, Some(true), Idle));
  }

  // ---- A queued revert can always be driven to the end ----

  /** One revert attempt in which nothing fails. */
  function Attempt(s: World): World {
    Step(Step(Step(Step(Step(Step(s, Begin(true)), List), Save), Apply(Done)), Record), Complete)
  }

  lemma AttemptRestores(s: World, original: bool)
    requires Inv(s, original) && s.pc.Idle? && s.present && Executable(s.status, true)
    ensures Attempt(s).status == Reverted && Attempt(s).disabled == original && Attempt(s).mirror == Some(original)
  {
    var t := Step(Step(s, Begin(true)), List);
    if s.undone {
      assert t.pc == Recorded(true, s.before);
      assert Step(Step(Step(t, Save), Apply(Done)), Record) == t;
    } else {
      assert t.pc == Listed(true, s.before, s.disabled);
    }
  }

  lemma AttemptRefused(s: World, original: bool)
    requires Inv(s, original) && s.pc.Idle? && s.reverts > 0 && !Executable(s.status, true) && s.status != Reverted
    ensures Attempt(s) == s.(status := RevertFailed)
  {
    var t := Step(s, Begin(true));
    assert t == s.(status := RevertFailed) && t.pc.Idle?;
  }

  lemma FinishedIsReplayed(s: World)
    requires s.pc.Idle? && s.status == Reverted
    ensures Attempt(s) == s
  {
    assert Step(s, Begin(true)) == s;
  }

  lemma TwoAttempts(s: World, original: bool)
    requires Inv(s, original) && s.pc.Idle? && s.present && s.reverts > 0
    ensures Attempt(Attempt(s)).status == Reverted && Attempt(Attempt(s)).disabled == original
  {
    if s.status == Reverted {
      FinishedIsReplayed(s);
    } else if Executable(s.status, true) {
      AttemptRestores(s, original);
      FinishedIsReplayed(Attempt(s));
    } else {
      AttemptRefused(s, original);
      AttemptRestores(s.(status := RevertFailed), original);
    }
  }

  /** However it went before, two undisturbed attempts restore the user: the first may
      only find the row in a state it refuses, which it turns into one that can be retried. */
  lemma TwoAttemptsRestore(original: bool, events: seq<Event>)
    requires var s := Run(Queued(DisableUser, original), events); s.pc.Idle? && s.present && s.reverts > 0
    ensures var t := Attempt(Attempt(Run(Queued(DisableUser, original), events)));
      t.status == Reverted && t.disabled == original
  {
    RunKeeps(Queued(DisableUser, original), original, events);
    TwoAttempts(Run(Queued(DisableUser, original), events), original);
  }

  // ---- Stopping a session ----

  predicate StopInv(s: World) {
    && s.kind == StopSession && s.reverts == 0 && !s.undone && s.mirror == None
    && (!s.pc.Idle? ==> !s.pc.revert && s.status == Running)
    && (s.pc.Begun? ==> s.pc.effect == s.effect)
    && (s.pc.Applied? || s.pc.Recorded? ==> s.stopped)
    && (s.effect ==> s.stopped) && (s.pc.Recorded? ==> s.effect)
    && (s.status == Succeeded ==> s.effect)
    && s.status in {Pending, Running, Succeeded, Failed, Canceled}
    && (s.stopped ==> s.touched)
  }

  lemma StopCallKeeps(s: World, e: Event)
    requires StopInv(s) && (e.Apply? || e.Record? || e.Complete?)
    ensures StopInv(Step(s, e)) && Step(s, e).disabled == s.disabled
  {
  }

  lemma StopMoveKeeps(s: World, e: Event)
    requires StopInv(s) && !e.Apply? && !e.Record? && !e.Complete?
    ensures StopInv(Step(s, e)) && Step(s, e).disabled == s.disabled
  {
  }

  /** A session action that completed has stopped the session; it touches no user and
      is never reverted. */
  lemma {:induction false} StoppedMeansStopped(flag: bool, events: seq<Event>)
    ensures StopInv(Run(Queued(StopSession, flag), events))
    ensures var s := Run(Queued(StopSession, flag), events);
      (s.status == Succeeded ==> s.stopped) && s.disabled == flag && s.reverts == 0
  {
    if events != [] {
      StoppedMeansStopped(flag, events[..|events| - 1]);
      var s, e := Run(Queued(StopSession, flag), events[..|events| - 1]), events[|events| - 1];
      if e.Apply? || e.Record? || e.Complete? { StopCallKeeps(s, e); } else { StopMoveKeeps(s, e); }
    }
  }
}
