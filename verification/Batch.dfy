/** A batch operation, its items, and the workers and administrators that drive it
    (v3/internal/platform/batch.go). One statement or transaction is one step. */
module Batch {
  import opened Options
  import Sets

  type Worker = nat

  datatype Status = Pending | Running | Paused | Retry | Succeeded | Failed | Canceled

  datatype ItemStatus = Waiting | InProgress | Done | Broken

  /** The row of batch_operations with its three counters. */
  datatype Row = Row(status: Status, owner: Option<Worker>, leaseUntil: int,
                     processed: nat, succeeded: nat, failed: nat)

  /** Where a worker is; `todo` are the items of its chunk still to do. */
  datatype Pc =
    | Idle
    | Claimed
    | InLoop(todo: seq<nat>)
    | Checked(todo: seq<nat>)     // has seen the operation running for todo[0]
    | Marking(todo: seq<nat>)     // processing todo[0] failed
    | Unsure(todo: seq<nat>)      // todo[0] is done, but its commit reported an error
    | Renewing(todo: seq<nat>)    // todo[0] is settled
    | Finalizing

  /** `effects` counts how often an item's effect was committed; `retries` the accepted RetryBatch calls. */
  datatype State = State(now: int, lease: nat, row: Row, items: seq<ItemStatus>, effects: seq<nat>,
                         pcs: map<Worker, Pc>, retries: nat)

  /** How processing an item ends; Unanswered: it commits, and reports an error. */
  datatype Ending = Works | Fails | Unanswered

  datatype Event =
    | Tick(seconds: nat)
    | Claim(w: Worker)
    | Start(w: Worker, chunk: nat)
    | Check(w: Worker)
    | Process(w: Worker, ending: Ending)
    | Mark(w: Worker, works: bool)
    | Renew(w: Worker)
    | Finalize(w: Worker)
    | Crash(w: Worker)
    | Pause | Resume | Cancel | RetryAll

  function PcOf(s: State, w: Worker): Pc {
    if w in s.pcs then s.pcs[w] else Idle
  }

  function Goto(s: State, w: Worker, pc: Pc): State {
    s.(pcs := s.pcs[w := pc])
  }

  function Count(items: seq<ItemStatus>, st: ItemStatus): nat {
    if items == [] then 0
    else Count(items[..|items| - 1], st) + if items[|items| - 1] == st then 1 else 0
  }

  /** The first `n` waiting items from position `i` on. */
  function WaitingFrom(items: seq<ItemStatus>, i: nat, n: nat): (r: seq<nat>)
    requires i <= |items|
    decreases |items| - i
  {
    if i == |items| || n == 0 then []
    else if items[i] == Waiting then [i] + WaitingFrom(items, i + 1, n - 1)
    else WaitingFrom(items, i + 1, n)
  }

  /** Items a dead worker left in progress start over. */
  function Recovered(items: seq<ItemStatus>): (r: seq<ItemStatus>)
    ensures |r| == |items|
  {
    seq(|items|, i requires 0 <= i < |items| => if items[i] == InProgress then Waiting else items[i])
  }

  /** RetryBatch: failed items wait again. */
  function Reopened(items: seq<ItemStatus>): (r: seq<ItemStatus>)
    ensures |r| == |items|
  {
    seq(|items|, i requires 0 <= i < |items| => if items[i] == Broken then Waiting else items[i])
  }

  predicate Claimable(s: State) {
    || s.row.status == Pending || s.row.status == Retry
    || (s.row.status == Running && s.row.leaseUntil < s.now)
  }

  function Released(row: Row, status: Status): Row {
    row.(status := status, owner := None, leaseUntil := 0)
  }

  /** batchTransition. */
  function Transition(s: State, next: Status, allowed: set<Status>): State {
    if s.row.status in allowed then s.(row := Released(s.row, next)) else s
  }

  function Loop(todo: seq<nat>): Pc {
    if todo == [] then Finalizing else InLoop(todo)
  }

  /** processBatchItem: the item must wait; its effect and its status commit together. */
  function ProcessStep(s: State, w: Worker, todo: seq<nat>, ending: Ending): State
    requires todo != []
  {
    var i := todo[0];
    if ending != Fails && i < |s.items| && i < |s.effects| && s.items[i] == Waiting
    then Goto(s, w, if ending == Works then Renewing(todo) else Unsure(todo)).(items := s.items[i := Done], effects := s.effects[i := s.effects[i] + 1])
    else Goto(s, w, Marking(todo))
  }

  /** The error path writes the item by id alone, and ignores its own failure. */
  function MarkStep(s: State, w: Worker, todo: seq<nat>, works: bool): State
    requires todo != []
  {
    var i := todo[0];
    Goto(s, w, Renewing(todo)).(items := if works && i < |s.items| then s.items[i := Broken] else s.items)
  }

  function FinalStatus(items: seq<ItemStatus>): Status {
    if Count(items, Waiting) > 0 then Pending else if Count(items, Broken) > 0 then Failed else Succeeded
  }

  function FinalizeStep(s: State, w: Worker): State {
    var t := Goto(s, w, Idle);
    if Count(s.items, InProgress) > 0 || s.row.owner != Some(w) then t
    else
      t.(row := Released(s.row, FinalStatus(s.items)).(
           processed := Count(s.items, Done) + Count(s.items, Broken),
           succeeded := Count(s.items, Done), failed := Count(s.items, Broken)))
  }

  function Step(s: State, e: Event): State {
    match e
    case Tick(seconds) => s.(now := s.now + seconds)
    case Claim(w) =>
      if PcOf(s, w) != Idle || !Claimable(s) then s
      else
        Goto(s, w, Claimed).(
          row := s.row.(status := Running, owner := Some(w), leaseUntil := s.now + s.lease),
          items := Recovered(s.items))
    case Start(w, chunk) =>
      if PcOf(s, w) == Claimed then Goto(s, w, Loop(WaitingFrom(s.items, 0, chunk))) else s
    case Check(w) =>
      var pc := PcOf(s, w);
      if pc.InLoop? then Goto(s, w, if s.row.status == Running then Checked(pc.todo) else Idle) else s
    case Process(w, ending) =>
      var pc := PcOf(s, w);
      if pc.Checked? && pc.todo != [] then ProcessStep(s, w, pc.todo, ending) else s
    case Mark(w, works) =>
      var pc := PcOf(s, w);
      if (pc.Marking? || pc.Unsure?) && pc.todo != [] then MarkStep(s, w, pc.todo, works) else s
    case Renew(w) =>
      var pc := PcOf(s, w);
      if pc.Renewing? && pc.todo != []
      then Goto(s, w, Loop(pc.todo[1..])).(
             row := if s.row.owner == Some(w) && s.row.status == Running
                    then s.row.(leaseUntil := s.now + s.lease) else s.row)
      else s
    case Finalize(w) => if PcOf(s, w) == Finalizing then FinalizeStep(s, w) else s
    case Crash(w) => Goto(s, w, Idle)
    case Pause => Transition(s, Paused, {Pending, Retry, Running})
    case Resume => Transition(s, Pending, {Paused})
    case Cancel => Transition(s, Canceled, {Pending, Retry, Paused, Running, Failed})
    case RetryAll =>
      if s.row.status == Failed
      then s.(row := Released(s.row, Retry), items := Reopened(s.items), retries := s.retries + 1)
      else s
  }

  function Run(s: State, events: seq<Event>): State {
    if events == [] then s else Step(Run(s, events[..|events| - 1]), events[|events| - 1])
  }

  /** A new operation on `n` accounts. */
  function Created(n: nat, now: int, lease: nat): State {
    State(now, lease, Row(Pending, None, 0, 0, 0, 0),
          seq(n, i requires 0 <= i < n => Waiting), seq(n, i requires 0 <= i < n => 0), map[], 0)
  }

  // ---- Any number of workers ----

  predicate ItemOk(st: ItemStatus, effect: nat, retries: nat) {
    && st != InProgress
    && effect <= retries + 1
    && (st == Waiting ==> effect <= retries)
    && (st == Done ==> effect >= 1)
  }

  predicate Inv(s: State) {
    && |s.items| == |s.effects|
    && (s.row.owner.Some? <==> s.row.status == Running)
    && (forall i :: 0 <= i < |s.items| ==> ItemOk(s.items[i], s.effects[i], s.retries))
  }

  lemma NothingInProgress(items: seq<ItemStatus>)
    requires forall i :: 0 <= i < |items| ==> items[i] != InProgress
    ensures Recovered(items) == items && Count(items, InProgress) == 0
    ensures Count(items, Waiting) + Count(items, Done) + Count(items, Broken) == |items|
  {
    if items != [] { NothingInProgress(items[..|items| - 1]); }
  }

  lemma StepKeeps(s: State, e: Event)
    requires Inv(s)
    ensures Inv(Step(s, e)) && |Step(s, e).items| == |s.items|
    ensures s.row.status == Canceled || s.row.status == Succeeded ==> Step(s, e).row == s.row
  {
    NothingInProgress(s.items);
  }

  lemma {:induction false} RunKeeps(s: State, events: seq<Event>)
    requires Inv(s)
    ensures Inv(Run(s, events)) && |Run(s, events).items| == |s.items|
    ensures s.row.status == Canceled || s.row.status == Succeeded ==> Run(s, events).row == s.row
  {
    if events != [] {
      RunKeeps(s, events[..|events| - 1]);
      StepKeeps(Run(s, events[..|events| - 1]), events[|events| - 1]);
    }
  }

  /** In every reachable state an owner is recorded exactly while the operation runs, no
      item is left in progress, waiting, done and broken items make up the total, and an
      effect was applied at most once more than the operation was retried. */
  lemma Reachable(n: nat, now: int, lease: nat, events: seq<Event>, i: nat)
    ensures var s := Run(Created(n, now, lease), events);
      && (s.row.owner.Some? <==> s.row.status == Running)
      && |s.items| == |s.effects| == n
      && Count(s.items, Waiting) + Count(s.items, Done) + Count(s.items, Broken) == n
      && (i < n ==> s.effects[i] <= s.retries + 1 && (s.items[i] == Done ==> s.effects[i] >= 1))
  {
    RunKeeps(Created(n, now, lease), events);
    NothingInProgress(Run(Created(n, now, lease), events).items);
    var s := Run(Created(n, now, lease), events);
    assert i < n ==> ItemOk(s.items[i], s.effects[i], s.retries);
  }

  /** `canceled` and `succeeded` are final, counters included. */
  lemma TerminalIsFinal(n: nat, now: int, lease: nat, events: seq<Event>, more: seq<Event>)
    ensures var s := Run(Created(n, now, lease), events);
      s.row.status == Canceled || s.row.status == Succeeded ==> Run(s, more).row == s.row
  {
    RunKeeps(Created(n, now, lease), events);
    RunKeeps(Run(Created(n, now, lease), events), more);
  }

  // ---- How often an effect is applied, whoever works ----

  /** This step commits the effect of item `i`. */
  predicate Applies(s: State, e: Event, i: nat) {
    && e.Process? && e.ending != Fails && PcOf(s, e.w).Checked? && PcOf(s, e.w).todo != [] && PcOf(s, e.w).todo[0] == i
    && i < |s.items| && i < |s.effects| && s.items[i] == Waiting
  }

  /** This step marks item `i` failed although it is done: the error path writes by id alone. */
  predicate Overwrites(s: State, e: Event, i: nat) {
    && e.Mark? && e.works && (PcOf(s, e.w).Marking? || PcOf(s, e.w).Unsure?) && PcOf(s, e.w).todo != [] && PcOf(s, e.w).todo[0] == i
    && i < |s.items| && s.items[i] == Done
  }

  function Overwritten(s: State, events: seq<Event>, i: nat): nat {
    if events == [] then 0
    else
      var front := events[..|events| - 1];
      Overwritten(s, front, i) + if Overwrites(Run(s, front), events[|events| - 1], i) then 1 else 0
  }

  lemma EffectStep(s: State, e: Event, i: nat)
    requires Inv(s) && i < |s.items|
    ensures i < |Step(s, e).items| && i < |Step(s, e).effects|
    ensures Step(s, e).effects[i] == s.effects[i] + if Applies(s, e, i) then 1 else 0
    ensures (if Step(s, e).items[i] == Done then 1 else 0)
            == (if s.items[i] == Done then 1 else 0) + (if Applies(s, e, i) then 1 else 0) - (if Overwrites(s, e, i) then 1 else 0)
  {
    NothingInProgress(s.items);
  }

  /** With any workers and administrators: the effect of an item was applied once if it is
      done, and once more for every time a success was overwritten by a failure. */
  lemma {:induction false} EffectsAreCounted(n: nat, now: int, lease: nat, events: seq<Event>, i: nat)
    requires i < n
    ensures var s := Run(Created(n, now, lease), events);
      && i < |s.items| == |s.effects|
      && s.effects[i] == (if s.items[i] == Done then 1 else 0) + Overwritten(Created(n, now, lease), events, i)
  {
    if events != [] {
      var front := events[..|events| - 1];
      EffectsAreCounted(n, now, lease, front, i);
      RunKeeps(Created(n, now, lease), front);
      EffectStep(Run(Created(n, now, lease), front), events[|events| - 1], i);
      RunKeeps(Created(n, now, lease), events);
    }
  }

  /** Item `i` was processed again at some point after a success of it had been overwritten. */
  predicate Reapplied(s: State, events: seq<Event>, i: nat) {
    events != [] &&
    var front := events[..|events| - 1];
    || Reapplied(s, front, i)
    || (Overwritten(s, front, i) > 0 && Applies(Run(s, front), events[|events| - 1], i))
  }

  /** The effect is applied more than once exactly when a success was overwritten by a late
      failure and the item was processed again afterwards. */
  lemma {:induction false} AppliedTwiceExactlyWhen(n: nat, now: int, lease: nat, events: seq<Event>, i: nat)
    requires i < n
    ensures var s0 := Created(n, now, lease);
      i < |Run(s0, events).effects| && (Run(s0, events).effects[i] >= 2 <==> Reapplied(s0, events, i))
  {
    EffectsAreCounted(n, now, lease, events, i);
    if events != [] {
      var front := events[..|events| - 1];
      AppliedTwiceExactlyWhen(n, now, lease, front, i);
      EffectsAreCounted(n, now, lease, front, i);
      RunKeeps(Created(n, now, lease), front);
      EffectStep(Run(Created(n, now, lease), front), events[|events| - 1], i);
    }
  }

  // ---- What still happens after a cancel ----

  function Total(effects: seq<nat>): nat {
    if effects == [] then 0 else Total(effects[..|effects| - 1]) + effects[|effects| - 1]
  }

  /** The workers that had already checked the status for an item. */
  function CheckedWorkers(s: State): set<Worker> {
    set w | w in s.pcs && s.pcs[w].Checked?
  }

  lemma {:induction false} TotalUpdate(effects: seq<nat>, i: nat)
    requires i < |effects|
    ensures Total(effects[i := effects[i] + 1]) == Total(effects) + 1
  {
    var n := |effects| - 1;
    if i < n {
      assert effects[i := effects[i] + 1][..n] == effects[..n][i := effects[i] + 1];
      TotalUpdate(effects[..n], i);
    } else {
      assert effects[i := effects[i] + 1][..n] == effects[..n];
    }
  }

  lemma LeavesChecked(s: State, w: Worker, pc: Pc)
    requires w in CheckedWorkers(s) && !pc.Checked?
    ensures CheckedWorkers(Goto(s, w, pc)) == CheckedWorkers(s) - {w}
    ensures |CheckedWorkers(Goto(s, w, pc))| == |CheckedWorkers(s)| - 1
  {
    assert CheckedWorkers(Goto(s, w, pc)) == CheckedWorkers(s) - {w};
  }

  lemma NeverChecks(s: State, w: Worker, pc: Pc)
    requires !pc.Checked?
    ensures CheckedWorkers(Goto(s, w, pc)) <= CheckedWorkers(s)
    ensures |CheckedWorkers(Goto(s, w, pc))| <= |CheckedWorkers(s)|
  {
    assert CheckedWorkers(Goto(s, w, pc)) == CheckedWorkers(s) - {w};
    Sets.SubsetSize(CheckedWorkers(Goto(s, w, pc)), CheckedWorkers(s));
  }

  predicate Final(row: Row) {
    row.status == Canceled || row.status == Succeeded
  }

  lemma FinalStep(s: State, e: Event)
    requires Inv(s) && Final(s.row)
    ensures CheckedWorkers(Step(s, e)) <= CheckedWorkers(s)
    ensures Total(Step(s, e).effects) + |CheckedWorkers(Step(s, e))| <= Total(s.effects) + |CheckedWorkers(s)|
    ensures Step(s, e).effects != s.effects ==> e.Process? && e.w in CheckedWorkers(s) && e.w !in CheckedWorkers(Step(s, e))
  {
    var t := Step(s, e);
    if e.Process? && PcOf(s, e.w).Checked? && PcOf(s, e.w).todo != [] {
      LeavesChecked(s, e.w, PcOf(t, e.w));
      var i := PcOf(s, e.w).todo[0];
      if t.effects != s.effects { TotalUpdate(s.effects, i); }
    } else if t.pcs != s.pcs {
      NeverChecks(s, e.w, PcOf(t, e.w));
    }
  }

  /** After a cancel no worker starts another item: an effect is only committed by a worker
      that had already checked the status, at most one each. */
  lemma {:induction false} AtMostOneEach(s: State, events: seq<Event>)
    requires Inv(s) && Final(s.row)
    ensures CheckedWorkers(Run(s, events)) <= CheckedWorkers(s)
    ensures Total(Run(s, events).effects) + |CheckedWorkers(Run(s, events))| <= Total(s.effects) + |CheckedWorkers(s)|
  {
    if events != [] {
      var front := events[..|events| - 1];
      AtMostOneEach(s, front);
      RunKeeps(s, front);
      FinalStep(Run(s, front), events[|events| - 1]);
    }
  }

  lemma CancelBounds(n: nat, now: int, lease: nat, before: seq<Event>, after: seq<Event>)
    ensures var s := Step(Run(Created(n, now, lease), before), Cancel);
      s.row.status == Canceled ==>
        && Run(s, after).row == s.row
        && Total(Run(s, after).effects) <= Total(s.effects) + |CheckedWorkers(s)|
  {
    RunKeeps(Created(n, now, lease), before);
    var s := Step(Run(Created(n, now, lease), before), Cancel);
    StepKeeps(Run(Created(n, now, lease), before), Cancel);
    if s.row.status == Canceled {
      RunKeeps(s, after);
      AtMostOneEach(s, after);
    }
  }

  // ---- Leases ----

  function Elapsed(events: seq<Event>): int {
    if events == [] then 0
    else
      var e := events[|events| - 1];
      Elapsed(events[..|events| - 1]) + if e.Tick? then e.seconds else 0
  }

  lemma {:induction false} ElapsedIsTime(s: State, events: seq<Event>)
    ensures Run(s, events).now == s.now + Elapsed(events) && Elapsed(events) >= 0 && Run(s, events).lease == s.lease
  {
    if events != [] { ElapsedIsTime(s, events[..|events| - 1]); }
  }

  /** Steps that neither administrators nor the owner's finalization take. */
  predicate LeavesOwner(e: Event, w: Worker) {
    !e.Pause? && !e.Resume? && !e.Cancel? && !e.RetryAll? && !(e.Finalize? && e.w == w)
  }

  predicate AllLeaveOwner(events: seq<Event>, w: Worker) {
    forall i :: 0 <= i < |events| ==> LeavesOwner(events[i], w)
  }

  /** Until the lease it took runs out, no other worker claims the operation. */
  lemma {:induction false} LeaseProtects(s: State, w: Worker, events: seq<Event>)
    requires s.row.status == Running && s.row.owner == Some(w) && s.row.leaseUntil <= s.now + s.lease
    requires s.now + Elapsed(events) <= s.row.leaseUntil && AllLeaveOwner(events, w)
    ensures var t := Run(s, events);
      t.row.status == Running && t.row.owner == Some(w) && s.row.leaseUntil <= t.row.leaseUntil <= t.now + t.lease
  {
    if events != [] {
      var front, e := events[..|events| - 1], events[|events| - 1];
      assert forall i :: 0 <= i < |front| ==> front[i] == events[i];
      assert LeavesOwner(e, w);
      LeaseProtects(s, w, front);
      ElapsedIsTime(s, front);
      ElapsedIsTime(s, events);
    }
  }

  /** A worker that claims owns the operation for the length of its lease. */
  lemma ClaimIsExclusive(s: State, w: Worker, events: seq<Event>)
    requires PcOf(s, w) == Idle && Claimable(s) && Elapsed(events) <= s.lease && AllLeaveOwner(events, w)
    ensures Run(Step(s, Claim(w)), events).row.owner == Some(w)
  {
    LeaseProtects(Step(s, Claim(w)), w, events);
  }
}
