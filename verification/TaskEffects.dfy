/** What a failure, a retry by an administrator and a cancellation leave of a task, and when
    it can be claimed again (v3/internal/platform/worker.go, tasks.go and risk.go). */
module TaskEffects {
  import opened Options
  import opened TaskQueue

  /** A failure reported by the owner ends the task if it is permanent, kills it if the
      attempts are used up, and otherwise lets it wait twice as long after each attempt, up
      to 300 seconds; it counts no attempt of its own. */
  lemma FailureDoes(s: Sys, w: Worker, permanent: bool)
    requires Inv(s) && w in s.jobs && s.row.owner == Some(w)
    ensures var row := Step(s, Fail(w, permanent)).row;
      && row.status == (if permanent then Failed else if s.row.attempts < s.row.maximum then Retry else Dead)
      && row.available == s.now + (if s.row.attempts <= 8 then Power(s.row.attempts) else 300)
      && row.attempts == s.row.attempts && row.maximum == s.row.maximum && row.owner == None && row.result == None
  {
    assert JobOk(s, w);
    DelayIsCapped(s.row.attempts);
  }

  predicate CanClaim(s: Sys, v: Worker) {
    v !in s.jobs && Step(s, Claim(v)).row.owner == Some(v) && v in Step(s, Claim(v)).jobs
  }

  /** Between a claim and the lease that it was given, nobody else can claim the task; as soon
      as the lease has run out without a renewal, anybody can. */
  lemma LeaseEndsExactlyWhen(s: Sys, w: Worker, v: Worker, d: nat)
    requires Inv(s) && CanClaim(s, w) && v != w && v !in s.jobs
    ensures CanClaim(Step(Step(s, Claim(w)), Tick(d)), v) <==> d > s.lease
  {
    assert Inv(Step(s, Claim(w))) by { StepKeeps(s, Claim(w)); }
  }

  /** After a failure that is not permanent, with attempts left, the task can be claimed again
      exactly when its back-off has passed. */
  lemma BackOffEndsExactlyWhen(s: Sys, w: Worker, v: Worker, d: nat)
    requires Inv(s) && w in s.jobs && s.row.owner == Some(w) && s.row.attempts < s.row.maximum && (v == w || v !in s.jobs)
    ensures CanClaim(Step(Step(s, Fail(w, false)), Tick(d)), v) <==> d >= if s.row.attempts <= 8 then Power(s.row.attempts) else 300
  {
    FailureDoes(s, w, false);
    StepKeeps(s, Fail(w, false));
  }

  predicate Retries(events: seq<Event>) {
    exists i :: 0 <= i < |events| && events[i].RetryTask?
  }

  /** A task that has failed or died stays that way until an administrator retries it: until
      then nobody can claim it. */
  lemma {:induction false} GivenUpUntilRetried(s: Sys, events: seq<Event>, v: Worker)
    requires Inv(s) && s.row.status in {Failed, Dead} && !Retries(events)
    ensures var t := Run(s, events);
      t.row == s.row.(status := t.row.status, leaseUntil := t.row.leaseUntil) && t.row.status in {s.row.status, Failed} && !CanClaim(t, v)
  {
    RunKeeps(s, events);
    if events != [] {
      var front := events[..|events| - 1];
      assert forall i :: 0 <= i < |front| ==> front[i] == events[i];
      assert !events[|events| - 1].RetryTask?;
      GivenUpUntilRetried(s, front, v);
      RunKeeps(s, front);
    }
  }

  /** Retrying such a task makes it claimable at once, with its attempts counted from zero;
      any other task is left as it is. */
  lemma RetryDoes(s: Sys, w: Worker)
    requires Inv(s) && w !in s.jobs
    ensures var t := Step(s, RetryTask);
      if s.row.status in {Failed, Dead} then
        CanClaim(t, w) && Step(t, Claim(w)).jobs[w].attempts == 1 && Step(t, Claim(w)).row.attempts == 1
        && t.row == s.row.(status := Retry, attempts := 0, available := s.now, leaseUntil := 0)
      else t == s
  {
  }

  /** A canceled task fails without being run unless it is running or has succeeded. */
  lemma CancelDoes(s: Sys, v: Worker)
    requires Inv(s)
    ensures var t := Step(s, Cancel);
      && (s.row.status in {Running, Succeeded} ==> t == s)
      && (s.row.status !in {Running, Succeeded} ==> t == s.(row := s.row.(status := Failed, leaseUntil := 0)) && !CanClaim(t, v))
  {
  }

  /** A retried task whose every attempt fails is attempted as often as a new one. */
  lemma {:induction false} RetriedDiesAtTheLimit(s: Sys, w: Worker, n: nat)
    requires Inv(s) && s.row.status in {Failed, Dead} && w !in s.jobs && 1 <= n <= s.row.maximum
    ensures var t := Attempts(Step(s, RetryTask), w, n);
      && Inv(t) && w !in t.jobs && t.row.attempts == n && t.row.maximum == s.row.maximum
      && t.row.status == (if n == s.row.maximum then Dead else Retry)
  {
    var start := Step(s, RetryTask);
    StepKeeps(s, RetryTask);
    if n > 1 { RetriedDiesAtTheLimit(s, w, n - 1); }
    var before := Attempts(start, w, n - 1);
    AttemptFails(before, w);
  }

  lemma AttemptFails(s: Sys, w: Worker)
    requires Inv(s) && w !in s.jobs && s.row.status in {Pending, Retry}
    ensures var t := Attempt(s, w);
      && Inv(t) && w !in t.jobs && t.row.attempts == s.row.attempts + 1 && t.row.maximum == s.row.maximum
      && t.row.status == (if t.row.attempts >= t.row.maximum then Dead else Retry)
  {
    var wait := if s.row.available > s.now then s.row.available - s.now else 0;
    var ready := Step(s, Tick(wait));
    StepKeeps(s, Tick(wait));
    StepKeeps(ready, Claim(w));
    StepKeeps(Step(ready, Claim(w)), Fail(w, false));
  }
}
