/** What an undisturbed attempt of a risk action and a false-positive review do, in terms of
    the action's row and the user (executeRiskAction in v3/internal/platform/worker.go,
    MarkRiskFalsePositive in risk.go). */
module RiskEffects {
  import opened Options
  import opened RiskAction

  /** One attempt of the action in which nothing fails. */
  function Attempt(s: World): World {
    Step(Step(Step(Step(Step(Step(s, Begin(false)), List), Save), Apply(Done)), Record), Complete)
  }

  lemma RecordedCompletes(s: World, original: bool)
    requires Inv(s, original) && s.pc.Idle? && s.effect && s.status == Failed && s.reverts == 0
    ensures var t := Attempt(s); t == s.(status := Succeeded, mirror := Some(true)) && t.disabled
  {
    var listed := Step(Step(s, Begin(false)), List);
    assert listed == s.(status := Running, pc := Recorded(false, s.before));
    assert Step(Step(Step(listed, Save), Apply(Done)), Record) == listed;
  }

  lemma UnrecordedDisables(s: World, original: bool)
    requires Inv(s, original) && s.pc.Idle? && s.present && !s.effect && s.status in {Pending, Failed}
    ensures var t := Attempt(s);
      && t.status == Succeeded && t.disabled && t.mirror == Some(true) && t.effect
      && t.before == Some(original) && t.touched == (s.touched || !s.disabled)
  {
    var saved := Step(Step(Step(s, Begin(false)), List), Save);
    assert saved.pc == Saved(false, Some(original), s.disabled);
    assert saved == s.(status := Running, before := Some(original), pc := saved.pc);
  }

  /** Whatever earlier attempts left behind, an attempt in which nothing fails disables a user
      who is there, and shows it; the flag it keeps is the one from before the first attempt.
      A user who is disabled already is not sent anything. */
  lemma AttemptDisables(original: bool, events: seq<Event>)
    requires var s := Run(Queued(DisableUser, original), events);
             s.pc.Idle? && s.present && s.status in {Pending, Failed} && s.reverts == 0
    ensures var s := Run(Queued(DisableUser, original), events); var t := Attempt(s);
      && t.status == Succeeded && t.disabled && t.mirror == Some(true) && t.effect && t.before == Some(original)
      && (s.disabled && !s.touched ==> !t.touched)
  {
    RunKeeps(Queued(DisableUser, original), original, events);
    var s := Run(Queued(DisableUser, original), events);
    if s.effect { RecordedCompletes(s, original); } else { UnrecordedDisables(s, original); }
  }

  /** A session is stopped in the same way; that it was there is what is kept of it. */
  lemma AttemptStops(flag: bool)
    ensures var t := Attempt(Queued(StopSession, flag)); t.status == Succeeded && t.stopped && t.before == Some(true) && t.disabled == flag && t.mirror == None
  {
  }

  lemma ReviewDecides(s: World, original: bool)
    requires Inv(s, original) && !s.reviewed
    ensures var t := Step(s, Review);
      && (s.status == Running ==> t == s)
      && (s.status != Running && s.effect ==> t == s.(reviewed := true, status := RevertPending, reverts := 1))
      && (s.status != Running && !s.effect ==> t == s.(reviewed := true, status := Canceled))
  {
  }

  /** The first review of a disabled user is refused while an attempt is in progress; otherwise
      it queues a revert if the effect is recorded and cancels the action if it is not. Later
      reviews change nothing. */
  lemma ReviewDoes(original: bool, events: seq<Event>)
    ensures var s := Run(Queued(DisableUser, original), events); var t := Step(s, Review);
      && (s.reviewed || s.status == Running ==> t == s)
      && (!s.reviewed && s.status != Running ==>
            t == s.(reviewed := true, status := if s.effect then RevertPending else Canceled, reverts := if s.effect then 1 else 0))
  {
    RunKeeps(Queued(DisableUser, original), original, events);
    var s := Run(Queued(DisableUser, original), events);
    if !s.reviewed { ReviewDecides(s, original); }
  }
}
