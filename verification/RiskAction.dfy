/** A risk action and its compensation: the worker's statements around the remote
    call, and the false-positive review (executeRiskAction and fail in
    v3/internal/platform/worker.go, MarkRiskFalsePositive in risk.go).

    One attempt runs at a time and may fail or crash anywhere. A remote call may
    take effect, do nothing, or take effect and report a failure. */
module RiskAction {
  import opened Options

  datatype Kind = StopSession | DisableUser

  datatype Status =
    | Pending | Running | Succeeded | Failed | Canceled
    | RevertPending | Reverting | Reverted | RevertFailed

  /** Where the attempt is; `before` is its copy of before_state, `flag` the listed
      IsDisabled of the user. */
  datatype Pc =
    | Idle
    | Begun(revert: bool, before: Option<bool>, effect: bool)
    | Listed(revert: bool, before: Option<bool>, flag: bool)
    | Saved(revert: bool, before: Option<bool>, flag: bool)
    | Applied(revert: bool, before: Option<bool>)
    | Recorded(revert: bool, before: Option<bool>)

  /** The action row (`effect`, `undone`: action_effect_applied, revert_effect_applied),
      the review, the remote user, and the disabled flag copied to the binding.
      `touched`: a remote call was ever sent. */
  datatype World = World(
    kind: Kind, status: Status, before: Option<bool>, effect: bool, undone: bool,
    reviewed: bool, reverts: nat,
    present: bool, disabled: bool, stopped: bool, touched: bool,
    mirror: Option<bool>, pc: Pc)

  datatype Call = Done | Unreported | Lost

  datatype Event =
    | Begin(revert: bool) | List | Save | Apply(call: Call) | Record | Complete
    | Fail | Crash | Review | Presence(on: bool)

  predicate Executable(status: Status, revert: bool) {
    if revert then status == RevertPending || status == RevertFailed
    else status == Pending || status == Failed
  }

  /** fail() overwrites the status whatever it is. */
  function Failing(s: World, revert: bool): World {
    s.(status := if revert then RevertFailed else Failed, pc := Idle)
  }

  function BeginStep(s: World, revert: bool): World {
    if revert && s.reverts == 0 then s                                    // no such task
    else if s.status == (if revert then Reverted else Succeeded) then s   // replayed
    else if !Executable(s.status, revert) then Failing(s, revert)
    else
      s.(status := if revert then Reverting else Running,
         pc := Begun(revert, s.before, if revert then s.undone else s.effect))
  }

  function ListStep(s: World, revert: bool, before: Option<bool>, effect: bool): World {
    if s.kind == DisableUser then
      if effect then s.(pc := Recorded(revert, before))
      else if !s.present then Failing(s, revert)
      else s.(pc := Listed(revert, before, s.disabled))
    else if effect then s.(pc := Recorded(revert, before))
    else if revert then Failing(s, revert)                                // not reversible
    else s.(pc := Listed(revert, before, false))
  }

  /** The state before the action is stored once, while the action is running. */
  function SaveStep(s: World, revert: bool, before: Option<bool>, flag: bool): World {
    if revert || before.Some? then s.(pc := Saved(revert, before, flag))
    else
      var value := Some(s.kind == StopSession || flag);
      s.(before := if s.status == Running then value else s.before, pc := Saved(revert, value, flag))
  }

  function Wanted(revert: bool, before: Option<bool>): bool {
    !revert || before == Some(true)
  }

  /** The request itself; unless it is lost it takes effect. */
  function Sent(s: World, revert: bool, before: Option<bool>, call: Call): World {
    if s.kind == DisableUser
    then s.(touched := true, disabled := if call == Lost then s.disabled else Wanted(revert, before))
    else s.(touched := true, stopped := s.stopped || call != Lost)
  }

  /** A user who already is as wanted is left alone. */
  function ApplyStep(s: World, revert: bool, before: Option<bool>, flag: bool, call: Call): World {
    if s.kind == DisableUser && flag == Wanted(revert, before) then s.(pc := Applied(revert, before))
    else if call == Done then Sent(s, revert, before, call).(pc := Applied(revert, before))
    else Failing(Sent(s, revert, before, call), revert)
  }

  function CompleteStep(s: World, revert: bool, before: Option<bool>): World {
    s.(status := if revert then Reverted else Succeeded,
       before := if revert then s.before else before,
       mirror := if s.kind == DisableUser then Some(Wanted(revert, before)) else s.mirror,
       pc := Idle)
  }

  /** What the review does to the action: cancel it, queue its revert, or leave it. */
  function ReviewStep(s: World): World {
    if s.reviewed || s.status == Running || s.status == Reverting then s
    else
      var t := s.(reviewed := true);
      if (s.status == Pending || s.status == Failed)
         && !(s.status == Failed && s.effect && s.kind == DisableUser)
      then t.(status := Canceled)
      else if (s.status == Succeeded || (s.status == Failed && s.effect)) && s.kind == DisableUser
      then t.(status := RevertPending, reverts := s.reverts + 1)
      else t
  }

  function Step(s: World, e: Event): World {
    match e
    case Begin(revert) => if s.pc.Idle? then BeginStep(s, revert) else s
    case List => if s.pc.Begun? then ListStep(s, s.pc.revert, s.pc.before, s.pc.effect) else s
    case Save => if s.pc.Listed? then SaveStep(s, s.pc.revert, s.pc.before, s.pc.flag) else s
    case Apply(call) => if s.pc.Saved? then ApplyStep(s, s.pc.revert, s.pc.before, s.pc.flag, call) else s
    case Record =>
      if s.pc.Applied?
      then s.(effect := s.effect || !s.pc.revert, undone := s.undone || s.pc.revert,
              pc := Recorded(s.pc.revert, s.pc.before))
      else s
    case Complete => if s.pc.Recorded? then CompleteStep(s, s.pc.revert, s.pc.before) else s
    case Fail => if s.pc.Idle? then s else Failing(s, s.pc.revert)
    case Crash => s.(pc := Idle)
    case Review => ReviewStep(s)
    case Presence(on) => s.(present := on)
  }

  function Run(s: World, events: seq<Event>): World {
    if events == [] then s else Step(Run(s, events[..|events| - 1]), events[|events| - 1])
  }

  /** A queued action on a user whose flag is `flag`. */
  function Queued(kind: Kind, flag: bool): World {
    World(kind, Pending, None, false, false, false, 0, true, flag, false, false, None, Idle)
  }

  /** One more step of a run. */
  lemma Advance(s: World, events: seq<Event>, t: World, e: Event, u: World) returns (more: seq<Event>)
    requires Run(s, events) == t && Step(t, e) == u
    ensures Run(s, more) == u
  {
    more := events + [e];
    assert more[..|events|] == events;
  }

  // ---- The invariant, for a user whose flag was `original` ----

  predicate PcOk(s: World, original: bool) {
    match s.pc
    case Idle => true
    case Begun(revert, before, effect) => before == s.before && effect == (if revert then s.undone else s.effect)
    case Listed(revert, before, flag) =>
      before == s.before && flag == s.disabled && !(if revert then s.undone else s.effect)
    case Saved(revert, before, flag) =>
      before == s.before == Some(original) && flag == s.disabled && !(if revert then s.undone else s.effect)
    case Applied(revert, before) => before == s.before == Some(original) && s.disabled == Wanted(revert, before)
    case Recorded(revert, before) => before == s.before && (if revert then s.undone else s.effect)
  }

  predicate Inv(s: World, original: bool) {
    && s.kind == DisableUser
    && (!s.pc.Idle? ==> s.status == if s.pc.revert then Reverting else Running)
    && PcOk(s, original)
    && (s.before.Some? ==> s.before == Some(original))
    && (s.touched || s.effect ==> s.before == Some(original))
    && (!s.touched ==> s.disabled == original)
    && (s.effect && s.reverts == 0 ==> s.disabled)
    && s.reverts <= (if s.reviewed then 1 else 0)
    && (s.reverts > 0 ==> s.effect)
    && (!s.pc.Idle? && s.pc.revert ==> s.reverts > 0)
    && (s.undone ==> s.reverts > 0 && s.disabled == original)
    && (s.status == Reverted ==> s.undone)
    && (s.status == Succeeded ==> s.effect)
    && (s.touched ==> !original)
    && (s.status == Pending ==> !s.effect && !s.touched)
    && (s.status in {RevertPending, Reverting, RevertFailed, Reverted} ==> s.reverts > 0)
    && (s.status == Canceled ==> s.reviewed && s.reverts == 0)
  }

  /** What is recorded stays recorded. */
  predicate Grows(s: World, t: World) {
    && (s.before.Some? ==> t.before == s.before)
    && s.reverts <= t.reverts && (s.effect ==> t.effect) && (s.undone ==> t.undone)
  }

  lemma FailingKeeps(s: World, original: bool, revert: bool)
    requires Inv(s, original) && (revert ==> s.reverts > 0) && (!s.pc.Idle? ==> s.pc.revert == revert)
    ensures Inv(Failing(s, revert), original) && Grows(s, Failing(s, revert))
  {
  }

  lemma BeginKeeps(s: World, original: bool, revert: bool)
    requires Inv(s, original) && s.pc.Idle?
    ensures Inv(BeginStep(s, revert), original) && Grows(s, BeginStep(s, revert))
  {
    if !revert || s.reverts > 0 { FailingKeeps(s, original, revert); }
  }

  lemma ListKeeps(s: World, original: bool)
    requires Inv(s, original) && s.pc.Begun?
    ensures Inv(Step(s, List), original) && Grows(s, Step(s, List))
  {
    FailingKeeps(s, original, s.pc.revert);
  }

  lemma SaveKeeps(s: World, original: bool)
    requires Inv(s, original) && s.pc.Listed?
    ensures Inv(Step(s, Save), original) && Grows(s, Step(s, Save))
  {
  }

  lemma ApplyKeeps(s: World, original: bool, call: Call)
    requires Inv(s, original) && s.pc.Saved?
    ensures Inv(Step(s, Apply(call)), original) && Grows(s, Step(s, Apply(call)))
  {
    var revert, before := s.pc.revert, s.pc.before;
    if s.pc.flag != Wanted(revert, before) {
      assert Wanted(true, before) == original;
      assert Failing(Sent(s, revert, before, call), revert).before == Some(original);
    }
  }

  lemma RecordKeeps(s: World, original: bool)
    requires Inv(s, original) && s.pc.Applied?
    ensures Inv(Step(s, Record), original) && Grows(s, Step(s, Record))
  {
  }

  lemma CompleteKeeps(s: World, original: bool)
    requires Inv(s, original) && s.pc.Recorded?
    ensures Inv(Step(s, Complete), original) && Grows(s, Step(s, Complete))
  {
  }

  lemma ReviewKeeps(s: World, original: bool)
    requires Inv(s, original)
    ensures Inv(ReviewStep(s), original) && Grows(s, ReviewStep(s))
  {
  }

  lemma SurroundingsKeep(s: World, original: bool, e: Event)
    requires Inv(s, original) && (e.Crash? || e.Presence?)
    ensures Inv(Step(s, e), original) && Grows(s, Step(s, e))
  {
  }

  lemma StepKeeps(s: World, original: bool, e: Event)
    requires Inv(s, original)
    ensures Inv(Step(s, e), original) && Grows(s, Step(s, e))
  {
    match e
    case Begin(revert) => if s.pc.Idle? { BeginKeeps(s, original, revert); }
    case List => if s.pc.Begun? { ListKeeps(s, original); }
    case Save => if s.pc.Listed? { SaveKeeps(s, original); }
    case Apply(call) => if s.pc.Saved? { ApplyKeeps(s, original, call); }
    case Record => if s.pc.Applied? { RecordKeeps(s, original); }
    case Complete => if s.pc.Recorded? { CompleteKeeps(s, original); }
    case Fail => if !s.pc.Idle? { FailingKeeps(s, original, s.pc.revert); }
    case Crash => SurroundingsKeep(s, original, e);
    case Review => ReviewKeeps(s, original);
    case Presence(_) => SurroundingsKeep(s, original, e);
  }

  lemma {:induction false} RunKeeps(s: World, original: bool, events: seq<Event>)
    requires Inv(s, original)
    ensures Inv(Run(s, events), original)
    ensures Grows(s, Run(s, events))
  {
    if events != [] {
      RunKeeps(s, original, events[..|events| - 1]);
      StepKeeps(Run(s, events[..|events| - 1]), original, events[|events| - 1]);
    }
  }
}
