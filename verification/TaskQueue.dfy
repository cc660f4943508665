/** One row of platform_tasks and the workers that claim, renew, finish and fail
    it (v3/internal/platform/worker.go), together with the administrator's retry
    (tasks.go) and the review that cancels it (risk.go). Times are in seconds. */
module TaskQueue {
  import opened Options

  type Worker = nat

  datatype Status = Pending | Running | Retry | Succeeded | Failed | Dead

  datatype Row = Row(status: Status, attempts: int, maximum: int, available: int,
                     owner: Option<Worker>, leaseUntil: int, result: Option<string>)

  /** What a worker remembers of its claim: the attempt number, the limit, and
      which claim of the task it was. */
  datatype Job = Job(attempts: int, maximum: int, claim: nat)

  // ---- The UPDATE statements ----

  predicate Claimable(row: Row, now: int) {
    || ((row.status == Pending || row.status == Retry) && row.available <= now)
    || (row.status == Running && row.leaseUntil < now)
  }

  function Claimed(row: Row, now: int, w: Worker, lease: int): Row {
    row.(status := Running, attempts := row.attempts + 1, owner := Some(w), leaseUntil := now + lease)
  }

  function Renewed(row: Row, now: int, w: Worker, lease: int): Row {
    if row.status == Running && row.owner == Some(w) then row.(leaseUntil := now + lease) else row
  }

  function Finished(row: Row, w: Worker, result: string): Row {
    if row.owner == Some(w)
    then row.(status := Succeeded, result := Some(result), owner := None, leaseUntil := 0)
    else row
  }

  function Power(n: nat): int {
    if n == 0 then 1 else 2 * Power(n - 1)
  }

  /** min(2^attempts, 300) seconds. */
  function Delay(attempts: int): int {
    if attempts < 0 then 1 else if Power(attempts) <= 300 then Power(attempts) else 300
  }

  function Verdict(job: Job, permanent: bool): Status {
    if permanent then Failed else if job.attempts >= job.maximum then Dead else Retry
  }

  function FailedRow(row: Row, now: int, w: Worker, job: Job, permanent: bool): Row {
    if row.owner == Some(w)
    then row.(status := Verdict(job, permanent), available := now + Delay(job.attempts), owner := None, leaseUntil := 0)
    else row
  }

  /** RetryTask. */
  function Reset(row: Row, now: int): Row {
    if row.status == Failed || row.status == Dead
    then row.(status := Retry, attempts := 0, available := now, owner := None, leaseUntil := 0)
    else row
  }

  /** MarkRiskFalsePositive on the task of an action that has not run. */
  function Canceled(row: Row): Row {
    if row.status == Succeeded || row.status == Running then row
    else row.(status := Failed, owner := None, leaseUntil := 0)
  }

  // ---- The task and its workers as a state machine ----

  /** `claims` counts every claim; `takeovers` those of an expired lease since the last reset. */
  datatype Sys = Sys(now: int, lease: nat, row: Row, jobs: map<Worker, Job>, claims: nat, takeovers: nat)

  datatype Event =
    | Tick(seconds: nat)
    | Claim(w: Worker)
    | Renew(w: Worker)
    | Finish(w: Worker, result: string)
    | Fail(w: Worker, permanent: bool)
    | Crash(w: Worker)          // the process dies, or its last statement fails
    | RetryTask
    | Cancel

  /** A worker runs one task at a time, so it claims only while it holds no job. */
  function Step(s: Sys, e: Event): Sys {
    match e
    case Tick(seconds) => s.(now := s.now + seconds)
    case Claim(w) =>
      if w in s.jobs || !Claimable(s.row, s.now) then s
      else
        s.(row := Claimed(s.row, s.now, w, s.lease),
           jobs := s.jobs[w := Job(s.row.attempts + 1, s.row.maximum, s.claims + 1)],
           claims := s.claims + 1,
           takeovers := s.takeovers + if s.row.status == Running then 1 else 0)
    case Renew(w) => if w in s.jobs then s.(row := Renewed(s.row, s.now, w, s.lease)) else s
    case Finish(w, result) =>
      if w in s.jobs then s.(row := Finished(s.row, w, result), jobs := s.jobs - {w}) else s
    case Fail(w, permanent) =>
      if w in s.jobs then s.(row := FailedRow(s.row, s.now, w, s.jobs[w], permanent), jobs := s.jobs - {w}) else s
    case Crash(w) => s.(jobs := s.jobs - {w})
    case RetryTask =>
      s.(row := Reset(s.row, s.now), takeovers := if Reset(s.row, s.now) == s.row then s.takeovers else 0)
    case Cancel => s.(row := Canceled(s.row))
  }

  function Run(s: Sys, events: seq<Event>): Sys {
    if events == [] then s else Step(Run(s, events[..|events| - 1]), events[|events| - 1])
  }

  function Fresh(maximum: int, now: int, lease: nat): Sys {
    Sys(now, lease, Row(Pending, 0, maximum, now, None, 0, None), map[], 0, 0)
  }

  // ---- What every reachable state satisfies ----

  predicate JobOk(s: Sys, w: Worker) {
    w in s.jobs ==>
      && s.jobs[w].claim <= s.claims
      && (s.jobs[w].claim == s.claims <==> s.row.owner == Some(w))
      && (s.row.owner == Some(w) ==> s.jobs[w].attempts == s.row.attempts && s.jobs[w].maximum == s.row.maximum)
  }

  predicate Inv(s: Sys) {
    && s.row.maximum >= 1 && s.row.attempts >= 0
    && (s.row.owner.Some? <==> s.row.status == Running)
    && (s.row.result.Some? <==> s.row.status == Succeeded)
    && (forall w: Worker :: w in s.jobs ==> JobOk(s, w))
    && (s.row.status == Pending || s.row.status == Retry ==> s.row.attempts < s.row.maximum)
    && s.row.attempts <= s.row.maximum + s.takeovers
    && (s.row.status == Dead ==> s.row.attempts >= s.row.maximum)
    && (s.row.status == Running ==> s.row.leaseUntil <= s.now + s.lease)
  }

  lemma StepKeeps(s: Sys, e: Event)
    requires Inv(s)
    ensures Inv(Step(s, e)) && Step(s, e).claims >= s.claims && Step(s, e).row.maximum == s.row.maximum
  {
    var t := Step(s, e);
    forall v: Worker | v in t.jobs ensures JobOk(t, v) {
      if v in s.jobs { assert JobOk(s, v); }
    }
  }

  lemma {:induction false} RunKeeps(s: Sys, events: seq<Event>)
    requires Inv(s)
    ensures Inv(Run(s, events)) && Run(s, events).claims >= s.claims && Run(s, events).row.maximum == s.row.maximum
  {
    if events != [] {
      RunKeeps(s, events[..|events| - 1]);
      StepKeeps(Run(s, events[..|events| - 1]), events[|events| - 1]);
    }
  }

  /** The owner column is set exactly while the task runs, the result exactly when it
      succeeded; attempts exceed the limit by no more than the lost leases. */
  lemma Reachable(maximum: int, now: int, lease: nat, events: seq<Event>)
    requires maximum >= 1
    ensures var s := Run(Fresh(maximum, now, lease), events);
      && (s.row.owner.Some? <==> s.row.status == Running)
      && (s.row.result.Some? <==> s.row.status == Succeeded)
      && 0 <= s.row.attempts <= maximum + s.takeovers
  {
    RunKeeps(Fresh(maximum, now, lease), events);
  }

  // ---- Fencing ----

  /** The worker still works on a claim that is no longer the latest one. */
  predicate Stale(s: Sys, w: Worker) {
    w in s.jobs && s.jobs[w].claim < s.claims
  }

  predicate WritesOf(e: Event, w: Worker) {
    (e.Renew? && e.w == w) || (e.Finish? && e.w == w) || (e.Fail? && e.w == w)
  }

  predicate DropsJob(e: Event, w: Worker) {
    (e.Finish? && e.w == w) || (e.Fail? && e.w == w) || (e.Crash? && e.w == w)
  }

  /** A worker's statements change the row exactly when its claim is the latest;
      otherwise they change nothing. */
  lemma WritesAreFenced(s: Sys, e: Event, w: Worker)
    requires Inv(s) && w in s.jobs && WritesOf(e, w)
    ensures Stale(s, w) ==> Step(s, e).row == s.row
    ensures !Stale(s, w) && !e.Renew? ==> Step(s, e).row.status != Running && Step(s, e).row.owner == None
    ensures !Stale(s, w) && e.Renew? ==> Step(s, e).row == s.row.(leaseUntil := s.now + s.lease)
  {
    assert JobOk(s, w);
  }

  predicate KeepsJob(events: seq<Event>, w: Worker) {
    forall i :: 0 <= i < |events| ==> !DropsJob(events[i], w)
  }

  lemma {:induction false} JobIsRemembered(s: Sys, events: seq<Event>, w: Worker)
    requires w in s.jobs && KeepsJob(events, w)
    ensures w in Run(s, events).jobs && Run(s, events).jobs[w] == s.jobs[w]
  {
    if events != [] {
      var front := events[..|events| - 1];
      assert forall i :: 0 <= i < |front| ==> front[i] == events[i];
      JobIsRemembered(s, front, w);
      assert !DropsJob(events[|events| - 1], w);
    }
  }

  /** Once another claim has gone through, nothing this worker does with its job
      ever touches the row again, however long it stalls. */
  lemma LostLeaseIsFinal(s: Sys, before: seq<Event>, after: seq<Event>, w: Worker, e: Event)
    requires Inv(s) && w in s.jobs && KeepsJob(before, w) && KeepsJob(after, w) && WritesOf(e, w)
    requires Run(s, before).claims > s.claims
    ensures var t := Run(Run(s, before), after); Step(t, e).row == t.row
  {
    RunKeeps(s, before);
    RunKeeps(Run(s, before), after);
    JobIsRemembered(s, before, w);
    JobIsRemembered(Run(s, before), after, w);
    assert JobOk(s, w);
    WritesAreFenced(Run(Run(s, before), after), e, w);
  }

  /** Two workers never both hold a job that can still write. */
  lemma OneLiveJob(s: Sys, v: Worker, w: Worker)
    requires Inv(s) && v in s.jobs && w in s.jobs && !Stale(s, v) && !Stale(s, w)
    ensures v == w
  {
    assert JobOk(s, v) && JobOk(s, w);
  }

  /** A succeeded task is never changed again, so its result is written once. */
  lemma {:induction false} SuccessIsFinal(s: Sys, events: seq<Event>)
    requires Inv(s) && s.row.status == Succeeded
    ensures Run(s, events).row == s.row
  {
    if events != [] {
      var front := events[..|events| - 1];
      SuccessIsFinal(s, front);
      RunKeeps(s, front);
    }
  }

  // ---- A task whose every attempt fails ----

  lemma {:induction false} PowerGrows(m: nat, n: nat)
    requires m <= n
    ensures 1 <= Power(m) <= Power(n)
  {
    if m < n { PowerGrows(m, n - 1); } else if m > 0 { PowerGrows(m - 1, n - 1); }
  }

  /** The back-off doubles up to the eighth attempt and stays at 300 seconds after it. */
  lemma DelayIsCapped(a: nat)
    ensures a <= 8 ==> Delay(a) == Power(a)
    ensures a >= 9 ==> Delay(a) == 300
    ensures 1 <= Delay(a) <= Delay(a + 1) <= 300
  {
    assert Power(8) == 256 && Power(9) == 512;
    PowerGrows(a, a + 1);
    PowerGrows(0, a);
    if a <= 8 { PowerGrows(a, 8); } else { PowerGrows(9, a); }
  }

  /** Nothing but time, claims, renewals, stalls and retryable failures. */
  predicate OnlyRetryable(events: seq<Event>) {
    forall i :: 0 <= i < |events| ==>
      events[i].Tick? || events[i].Claim? || events[i].Renew? || events[i].Crash? || (events[i].Fail? && !events[i].permanent)
  }

  /** The back-off time owed after n failed attempts. */
  function Waited(n: int): int {
    if n <= 0 then 0 else Waited(n - 1) + Delay(n)
  }

  predicate Doomed(s: Sys, start: int) {
    && Inv(s)
    && s.row.status in {Pending, Running, Retry, Dead}
    && (s.row.status == Pending <==> s.row.attempts == 0)
    && s.claims == s.row.attempts
    && (s.row.status == Dead ==> s.row.attempts == s.row.maximum)
    && (s.row.status in {Pending, Retry} ==> s.row.available >= start + Waited(s.row.attempts))
    && (s.row.status == Running ==> s.now >= start + Waited(s.row.attempts - 1))
    && (s.row.status == Dead ==> s.now >= start + Waited(s.row.attempts - 1))
  }

  lemma DoomedStep(s: Sys, start: int, e: Event)
    requires Doomed(s, start) && OnlyRetryable([e]) && Step(s, e).takeovers == 0
    ensures Doomed(Step(s, e), start)
  {
    StepKeeps(s, e);
    assert OnlyRetryable([e]) ==> [e][0] == e;
    if e.Fail? && e.w in s.jobs { assert JobOk(s, e.w); }
  }

  lemma TakeoversGrow(s: Sys, e: Event)
    requires OnlyRetryable([e])
    ensures Step(s, e).takeovers >= s.takeovers
  {
    assert [e][0] == e;
  }

  lemma {:induction false} DoomedRun(maximum: int, now: int, lease: nat, events: seq<Event>)
    requires maximum >= 1 && OnlyRetryable(events) && Run(Fresh(maximum, now, lease), events).takeovers == 0
    ensures Doomed(Run(Fresh(maximum, now, lease), events), now)
  {
    if events != [] {
      var front, e := events[..|events| - 1], events[|events| - 1];
      assert forall i :: 0 <= i < |front| ==> front[i] == events[i];
      assert [e][0] == e && OnlyRetryable([e]);
      TakeoversGrow(Run(Fresh(maximum, now, lease), front), e);
      DoomedRun(maximum, now, lease, front);
      DoomedStep(Run(Fresh(maximum, now, lease), front), now, e);
    }
  }

  /** While no lease is lost, a task that only fails retryably is dead exactly when it
      has been claimed `maximum` times and given up, never sooner or later, and not
      before its whole back-off has passed. */
  lemma ClaimedExactlyMaximumTimes(maximum: int, now: int, lease: nat, events: seq<Event>)
    requires maximum >= 1 && OnlyRetryable(events) && Run(Fresh(maximum, now, lease), events).takeovers == 0
    ensures var s := Run(Fresh(maximum, now, lease), events);
      && s.claims == s.row.attempts <= maximum
      && (s.row.status == Dead <==> s.claims == maximum && s.row.owner == None)
      && (s.row.status == Dead ==> s.now >= now + Waited(maximum - 1))
  {
    DoomedRun(maximum, now, lease, events);
    var s := Run(Fresh(maximum, now, lease), events);
    assert Inv(s);
    RunKeeps(Fresh(maximum, now, lease), events);
  }

  /** Wait for the back-off, claim, fail. */
  function Attempt(s: Sys, w: Worker): Sys {
    var wait := if s.row.available > s.now then s.row.available - s.now else 0;
    Step(Step(Step(s, Tick(wait)), Claim(w)), Fail(w, false))
  }

  function Attempts(s: Sys, w: Worker, n: nat): Sys {
    if n == 0 then s else Attempt(Attempts(s, w, n - 1), w)
  }

  /** Such a task is never stuck: it can be attempted until it dies at the limit. */
  lemma {:induction false} DiesAtTheLimit(maximum: int, now: int, lease: nat, w: Worker, n: nat)
    requires 1 <= n <= maximum
    ensures var s := Attempts(Fresh(maximum, now, lease), w, n);
      && s.claims == s.row.attempts == n && s.row.maximum == maximum && w !in s.jobs && s.takeovers == 0
      && s.row.status == (if n == maximum then Dead else Retry)
  {
    if n > 1 { DiesAtTheLimit(maximum, now, lease, w, n - 1); }
    var before := Attempts(Fresh(maximum, now, lease), w, n - 1);
    assert w !in before.jobs && before.row.attempts == n - 1;
  }

  /** This step takes over an expired lease although the attempts are used up: the claim
      query does not compare them. */
  predicate TakesOverAtLimit(s: Sys, e: Event) {
    && e.Claim? && e.w !in s.jobs && Claimable(s.row, s.now)
    && s.row.status == Running && s.row.attempts >= s.row.maximum
  }

  predicate StartsAfresh(s: Sys, e: Event) {
    e.RetryTask? && (s.row.status == Failed || s.row.status == Dead)
  }

  /** Some lease was taken over at the limit since the task was last started afresh. */
  predicate TakenOverAtLimit(s: Sys, events: seq<Event>) {
    events != [] &&
    var front, e := events[..|events| - 1], events[|events| - 1];
    || TakesOverAtLimit(Run(s, front), e)
    || (TakenOverAtLimit(s, front) && !StartsAfresh(Run(s, front), e))
  }

  lemma LimitStep(s: Sys, e: Event)
    requires Inv(s)
    ensures Step(s, e).row.attempts > s.row.maximum
            <==> TakesOverAtLimit(s, e) || (s.row.attempts > s.row.maximum && !StartsAfresh(s, e))
  {
  }

  /** More attempts than the limit are made exactly when an expired lease is taken over with
      the attempts used up, until an administrator starts the task afresh. */
  lemma {:induction false} LimitExceededExactlyWhen(maximum: int, now: int, lease: nat, events: seq<Event>)
    requires maximum >= 1
    ensures Run(Fresh(maximum, now, lease), events).row.attempts > maximum <==> TakenOverAtLimit(Fresh(maximum, now, lease), events)
  {
    if events != [] {
      var front := events[..|events| - 1];
      LimitExceededExactlyWhen(maximum, now, lease, front);
      RunKeeps(Fresh(maximum, now, lease), front);
      LimitStep(Run(Fresh(maximum, now, lease), front), events[|events| - 1]);
    }
  }

  /** The limit is not checked when a lost lease is taken over: with a limit of one,
      a worker that stalls past its lease lets the task be claimed a second time. */
  lemma TakeoverExceedsLimit(lease: nat, v: Worker, w: Worker)
    requires v != w
    ensures var s := Run(Fresh(1, 0, lease), [Claim(v), Tick(lease + 1), Claim(w)]);
      s.row.attempts == 2 > s.row.maximum && s.row.owner == Some(w) && s.takeovers == 1
  {
    var e := [Claim(v), Tick(lease + 1), Claim(w)];
    assert e[..2] == [Claim(v), Tick(lease + 1)] && e[..2][..1] == [Claim(v)] && e[..2][..1][..0] == [];
    var s0 := Fresh(1, 0, lease);
    assert Run(s0, [Claim(v)]) == Step(s0, Claim(v));
    assert Run(s0, e[..2]) == Step(Step(s0, Claim(v)), Tick(lease + 1));
    assert Run(s0, e) == Step(Run(s0, e[..2]), Claim(w));
  }

  function Elapsed(events: seq<Event>): int {
    if events == [] then 0
    else
      var e := events[|events| - 1];
      Elapsed(events[..|events| - 1]) + if e.Tick? then e.seconds else 0
  }

  lemma {:induction false} ElapsedIsTime(s: Sys, events: seq<Event>)
    ensures Run(s, events).now == s.now + Elapsed(events) && Elapsed(events) >= 0 && Run(s, events).lease == s.lease
  {
    if events != [] { ElapsedIsTime(s, events[..|events| - 1]); }
  }

  /** Until its lease runs out nobody can take a task from its owner. */
  lemma {:induction false} LeaseProtects(s: Sys, events: seq<Event>, w: Worker)
    requires Inv(s) && s.row.owner == Some(w) && KeepsJob(events, w) && s.now + Elapsed(events) <= s.row.leaseUntil
    ensures Run(s, events).row.owner == Some(w) && Run(s, events).row.leaseUntil >= s.row.leaseUntil
    ensures Run(s, events).row.attempts == s.row.attempts && Run(s, events).claims == s.claims
  {
    if events != [] {
      var front, e := events[..|events| - 1], events[|events| - 1];
      assert forall i :: 0 <= i < |front| ==> front[i] == events[i];
      assert !DropsJob(e, w);
      LeaseProtects(s, front, w);
      RunKeeps(s, front);
      ElapsedIsTime(s, front);
      ElapsedIsTime(s, events);
    }
  }

  /** A claim that is finished, or renewed, within its lease is never lost: whatever the
      others do in the meantime, the worker's own result is the one recorded. */
  lemma FinishWithinLease(s: Sys, w: Worker, events: seq<Event>, result: string)
    requires Inv(s) && w !in s.jobs && Claimable(s.row, s.now)
    requires KeepsJob(events, w) && Elapsed(events) <= s.lease
    ensures var t := Run(Step(s, Claim(w)), events);
      && Step(t, Renew(w)).row.leaseUntil == t.now + s.lease && Step(t, Renew(w)).row.owner == Some(w)
      && Step(t, Finish(w, result)).row.status == Succeeded && Step(t, Finish(w, result)).row.result == Some(result)
  {
    var claimed := Step(s, Claim(w));
    StepKeeps(s, Claim(w));
    LeaseProtects(claimed, events, w);
    JobIsRemembered(claimed, events, w);
    RunKeeps(claimed, events);
    ElapsedIsTime(claimed, events);
  }

  // ---- The statements as the workers issue them ----

  class Task {
    var status: Status
    var attempts: int
    var maximum: int
    var available: int
    var owner: Option<Worker>
    var leaseUntil: int
    var result: Option<string>

    function Columns(): Row
      reads this
    {
      Row(status, attempts, maximum, available, owner, leaseUntil, result)
    }

    constructor (maximum: int, now: int)
      ensures Columns() == Row(Pending, 0, maximum, now, None, 0, None)
    {
      status, attempts, this.maximum, available := Pending, 0, maximum, now;
      owner, leaseUntil, result := None, 0, None;
    }

    method Release()
      modifies this`owner, this`leaseUntil
      ensures owner == None && leaseUntil == 0
    {
      owner, leaseUntil := None, 0;
    }

    /** `claim`: the number this claim gets. */
    method Claim(now: int, w: Worker, lease: int, claim: nat) returns (job: Option<Job>)
      modifies this
      ensures Columns() == if Claimable(old(Columns()), now) then Claimed(old(Columns()), now, w, lease) else old(Columns())
      ensures job == if Claimable(old(Columns()), now) then Some(Job(old(attempts) + 1, maximum, claim)) else None
    {
      var due := (status == Pending || status == Retry) && available <= now;
      var expired := status == Running && leaseUntil < now;
      if !due && !expired {
        return None;
      }
      status, attempts, owner, leaseUntil := Running, attempts + 1, Some(w), now + lease;
      job := Some(Job(attempts, maximum, claim));
    }

    method KeepLease(now: int, w: Worker, lease: int) returns (held: bool)
      modifies this`leaseUntil
      ensures Columns() == Renewed(old(Columns()), now, w, lease)
      ensures held == (status == Running && owner == Some(w))
    {
      held := status == Running && owner == Some(w);
      if held {
        leaseUntil := now + lease;
      }
    }

    method Finish(w: Worker, value: string)
      modifies this
      ensures Columns() == Finished(old(Columns()), w, value)
    {
      if owner == Some(w) {
        status, result := Succeeded, Some(value);
        Release();
      }
    }

    method Fail(now: int, w: Worker, job: Job, permanent: bool)
      modifies this
      ensures Columns() == FailedRow(old(Columns()), now, w, job, permanent)
    {
      var outcome := Retry;
      if permanent {
        outcome := Failed;
      } else if job.attempts >= job.maximum {
        outcome := Dead;
      }
      if owner == Some(w) {
        status, available := outcome, now + Delay(job.attempts);
        Release();
      }
    }

    method RetryTask(now: int) returns (ok: bool)
      modifies this
      ensures Columns() == Reset(old(Columns()), now)
      ensures ok == (old(status) in {Failed, Dead})
    {
      ok := status == Failed || status == Dead;
      if ok {
        status, attempts, available := Retry, 0, now;
        Release();
      }
    }

    method Cancel()
      modifies this
      ensures Columns() == Canceled(old(Columns()))
    {
      if status in {Pending, Retry, Failed, Dead} {
        status := Failed;
        Release();
      }
    }
  }
}
