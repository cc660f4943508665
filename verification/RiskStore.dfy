/** The action row as the worker and the review write it (executeRiskAction and fail in
    v3/internal/platform/worker.go, MarkRiskFalsePositive in risk.go). */
module RiskStore {
  import opened Options
  import opened RiskAction

  /** What happens to an attempt: how the remote call ends, and whether the process
      survives to record the effect and to complete. */
  datatype Faults = Faults(call: Call, records: bool, completes: bool)

  class Action {
    const kind: Kind
    var status: Status
    var before: Option<bool>
    var effect: bool
    var undone: bool
    var reviewed: bool
    var reverts: nat
    var present: bool
    var disabled: bool
    var stopped: bool
    var touched: bool
    var mirror: Option<bool>
    ghost var pc: Pc

    ghost function State(): World
      reads this
    {
      World(kind, status, before, effect, undone, reviewed, reverts,
            present, disabled, stopped, touched, mirror, pc)
    }

    /** The false-positive review; false is the conflict answer. */
    method MarkFalsePositive() returns (ok: bool)
      modifies this
      ensures State() == Step(old(State()), Review)
      ensures ok == (!old(reviewed) && old(status) != Running && old(status) != Reverting)
    {
      if reviewed || status == Running || status == Reverting {
        return false;
      }
      if (status == Pending || status == Failed) && !(status == Failed && effect && kind == DisableUser) {
        status := Canceled;
      } else if (status == Succeeded || (status == Failed && effect)) && kind == DisableUser {
        status, reverts := RevertPending, reverts + 1;
      }
      reviewed, ok := true, true;
    }

    /** fail() on this action. */
    method Report(revert: bool)
      modifies this`status, this`pc
      ensures State() == Failing(old(State()), revert)
    {
      status := if revert then RevertFailed else Failed;
      pc := Idle;
    }

    /** Read the row, answer a replay, and move the row to its running state. */
    method Open(revert: bool) returns (open: bool, replayed: bool)
      requires pc.Idle? && (revert ==> reverts > 0)
      modifies this`status, this`pc
      ensures State() == Step(old(State()), Begin(revert))
      ensures pc == if open then Begun(revert, before, if revert then undone else effect) else Idle
      ensures !open ==> status == if replayed then (if revert then Reverted else Succeeded) else if revert then RevertFailed else Failed
      ensures replayed == (old(status) == if revert then Reverted else Succeeded)
      ensures Executable(old(status), revert) ==> open
    {
      open, replayed := false, status == (if revert then Reverted else Succeeded);
      if replayed {
        return;
      }
      if !Executable(status, revert) {
        Report(revert);
        return;
      }
      open, status := true, if revert then Reverting else Running;
      pc := Begun(revert, before, if revert then undone else effect);
    }

    /** List the users, unless the effect is already recorded. */
    method ListUsers(revert: bool, saved: Option<bool>, applied: bool) returns (ok: bool)
      requires pc == Begun(revert, saved, applied)
      modifies this`status, this`pc
      ensures State() == ListStep(old(State()), revert, saved, applied)
      ensures ok == (applied || (kind == DisableUser && present) || (kind == StopSession && !revert))
      ensures pc == if !ok then Idle else if applied then Recorded(revert, saved)
                    else Listed(revert, saved, kind == DisableUser && disabled)
      ensures !ok ==> status == if revert then RevertFailed else Failed
    {
      ok := true;
      if applied {
        pc := Recorded(revert, saved);
      } else if (kind == DisableUser && !present) || (kind == StopSession && revert) {
        Report(revert);
        ok := false;
      } else {
        pc := Listed(revert, saved, kind == DisableUser && disabled);
      }
    }

    /** Store the state before the action, once. */
    method SaveBefore(revert: bool, saved: Option<bool>, flag: bool) returns (was: Option<bool>)
      requires pc == Listed(revert, saved, flag)
      modifies this`before, this`pc
      ensures State() == SaveStep(old(State()), revert, saved, flag)
      ensures pc == Saved(revert, was, flag)
    {
      was := saved;
      if !revert && was == None {
        was := Some(kind == StopSession || flag);
        if status == Running {
          before := was;
        }
      }
      pc := Saved(revert, was, flag);
    }

    /** The remote call, unless the user already is as wanted. */
    method Call(revert: bool, was: Option<bool>, flag: bool, call: Call) returns (ok: bool)
      requires pc == Saved(revert, was, flag)
      modifies this`status, this`disabled, this`stopped, this`touched, this`pc
      ensures State() == ApplyStep(old(State()), revert, was, flag, call)
      ensures pc == if ok then Applied(revert, was) else Idle
      ensures !ok ==> status == if revert then RevertFailed else Failed
      ensures call == Done ==> ok
    {
      ok := true;
      if kind == StopSession || flag != Wanted(revert, was) {
        Send(revert, was, call);
        ok := call == Done;
      }
      if ok {
        pc := Applied(revert, was);
      } else {
        Report(revert);
      }
    }

    method Send(revert: bool, was: Option<bool>, call: Call)
      modifies this`disabled, this`stopped, this`touched
      ensures State() == Sent(old(State()), revert, was, call)
    {
      touched := true;
      if call != Lost {
        if kind == StopSession {
          stopped := true;
        } else {
          disabled := Wanted(revert, was);
        }
      }
    }

    method RecordEffect(revert: bool, was: Option<bool>)
      requires pc == Applied(revert, was)
      modifies this`effect, this`undone, this`pc
      ensures State() == Step(old(State()), Record) && pc == Recorded(revert, was)
    {
      if revert {
        undone := true;
      } else {
        effect := true;
      }
      pc := Recorded(revert, was);
    }

    /** The closing transaction: action row and binding. */
    method Finish(revert: bool, was: Option<bool>)
      requires pc == Recorded(revert, was)
      modifies this`status, this`before, this`mirror, this`pc
      ensures State() == Step(old(State()), Complete)
      ensures status == (if revert then Reverted else Succeeded) && pc.Idle?
    {
      if revert {
        status := Reverted;
      } else {
        status, before := Succeeded, was;
      }
      if kind == DisableUser {
        mirror := Some(Wanted(revert, was));
      }
      pc := Idle;
    }

    method Settle(revert: bool, was: Option<bool>, completes: bool)
      requires pc == Recorded(revert, was)
      modifies this
      ensures State() == Step(old(State()), if completes then Complete else Event.Fail) && pc.Idle?
      ensures status == if completes then (if revert then Reverted else Succeeded) else if revert then RevertFailed else Failed
    {
      if completes {
        Finish(revert, was);
      } else {
        Report(revert);
      }
    }

    method SaveOnce(revert: bool, saved: Option<bool>, flag: bool, ghost start: World, ghost before: seq<Event>)
      returns (was: Option<bool>, ghost trace: seq<Event>)
      requires pc == Listed(revert, saved, flag) && Run(start, before) == State()
      modifies this`before, this`pc
      ensures Run(start, trace) == State() && pc == Saved(revert, was, flag)
    {
      ghost var s0 := State();
      was := SaveBefore(revert, saved, flag);
      trace := Advance(start, before, s0, Save, State());
    }

    method CallOnce(revert: bool, was: Option<bool>, flag: bool, call: Call, ghost start: World, ghost before: seq<Event>)
      returns (ok: bool, ghost trace: seq<Event>)
      requires pc == Saved(revert, was, flag) && Run(start, before) == State()
      modifies this`status, this`disabled, this`stopped, this`touched, this`pc
      ensures Run(start, trace) == State() && pc == if ok then Applied(revert, was) else Idle
      ensures !ok ==> status == if revert then RevertFailed else Failed
      ensures call == Done ==> ok
    {
      ghost var s0 := State();
      ok := Call(revert, was, flag, call);
      trace := Advance(start, before, s0, Apply(call), State());
    }

    /** Save, call and record: what an attempt does unless the effect is recorded already. */
    method Effect(revert: bool, saved: Option<bool>, flag: bool, faults: Faults, ghost start: World, ghost before: seq<Event>)
      returns (ok: bool, was: Option<bool>, ghost trace: seq<Event>)
      requires pc == Listed(revert, saved, flag) && Run(start, before) == State()
      modifies this
      ensures Run(start, trace) == State()
      ensures pc == if ok then Recorded(revert, was) else Idle
      ensures !ok ==> status == if revert then RevertFailed else Failed
      ensures faults.call == Done && faults.records ==> ok
    {
      was, trace := SaveOnce(revert, saved, flag, start, before);
      ok, trace := CallOnce(revert, was, flag, faults.call, start, trace);
      if ok {
        ok, trace := Settled(revert, was, faults.records, start, trace);
      }
    }

    method Settled(revert: bool, was: Option<bool>, records: bool, ghost start: World, ghost before: seq<Event>)
      returns (ok: bool, ghost trace: seq<Event>)
      requires pc == Applied(revert, was) && Run(start, before) == State()
      modifies this
      ensures Run(start, trace) == State()
      ensures ok == records && pc == if ok then Recorded(revert, was) else Idle
      ensures !ok ==> status == if revert then RevertFailed else Failed
    {
      ghost var s0 := State();
      ok := records;
      if records {
        RecordEffect(revert, was);
        trace := Advance(start, before, s0, Record, State());
      } else {
        Report(revert);
        trace := Advance(start, before, s0, Event.Fail, State());
      }
    }

    /** Complete, or fail at the last moment. */
    method Conclude(revert: bool, was: Option<bool>, completes: bool, ghost start: World, ghost before: seq<Event>)
      returns (ghost trace: seq<Event>)
      requires pc == Recorded(revert, was) && Run(start, before) == State()
      modifies this
      ensures Run(start, trace) == State() && pc.Idle?
      ensures status == if completes then (if revert then Reverted else Succeeded) else if revert then RevertFailed else Failed
    {
      ghost var s0 := State();
      Settle(revert, was, completes);
      trace := Advance(start, before, s0, if completes then Complete else Event.Fail, State());
    }

    /** Everything after the row was moved to its running state. */
    method Continue(revert: bool, faults: Faults, ghost start: World, ghost before: seq<Event>)
      returns (ok: bool, ghost trace: seq<Event>)
      requires pc.Begun? && pc == Begun(revert, this.before, if revert then undone else effect) && Run(start, before) == State()
      modifies this
      ensures Run(start, trace) == State() && pc.Idle?
      ensures status == if ok then (if revert then Reverted else Succeeded) else if revert then RevertFailed else Failed
      ensures kind == DisableUser && old(present) && faults == Faults(Done, true, true) ==> ok
    {
      var saved, applied := this.before, if revert then undone else effect;
      ghost var s0 := State();
      ok := ListUsers(revert, saved, applied);
      trace := Advance(start, before, s0, List, State());
      if ok && !applied {
        ok, saved, trace := Effect(revert, saved, kind == DisableUser && disabled, faults, start, trace);
      }
      if ok {
        trace := Conclude(revert, saved, faults.completes, start, trace);
        ok := faults.completes;
      }
    }

    /** One attempt at the action or its revert. Whatever fails, it is a run of the
        protocol and says so in the row; when nothing does, it completes. */
    method Execute(revert: bool, faults: Faults) returns (ok: bool, ghost trace: seq<Event>)
      requires pc.Idle? && (revert ==> reverts > 0)
      modifies this
      ensures State() == Run(old(State()), trace) && pc.Idle?
      ensures status == if ok then (if revert then Reverted else Succeeded) else if revert then RevertFailed else Failed
      ensures (Executable(old(status), revert) && kind == DisableUser && old(present) && faults == Faults(Done, true, true)) ==> ok
    {
      ghost var start := State();
      assert Run(start, []) == start;
      var open, replayed := Open(revert);
      trace := Advance(start, [], start, Begin(revert), State());
      if open {
        ok, trace := Continue(revert, faults, start, trace);
      } else {
        ok := replayed;
      }
    }
  }
}
