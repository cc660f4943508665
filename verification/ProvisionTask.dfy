/** The provision request together with its row of platform_tasks: claiming the task starts
    an attempt, finishing and failing end it (ProcessNext, claim, finish and fail in
    v3/internal/platform/worker.go, RetryTask in tasks.go). */
module ProvisionTask {
  import opened Options
  import TaskQueue
  import opened Provision
  import opened ProvisionLaws
  import opened ProvisionAttempt

  /** The two rows and what the workers know. */
  datatype Both = Both(task: TaskQueue.Sys, request: State)

  datatype Action =
    | Tick(seconds: nat)
    | Take(w: Worker)                          // claim the task and read the request
    | Renew(w: Worker)
    | Decide(w: Worker)                        // list the users
    | Work(e: Event)                           // any other statement or outside change
    | Finish(w: Worker, result: string)
    | GiveUp(w: Worker, permanent: bool)
    | Die(w: Worker)
    | RetryTask

  /** Steps that touch the request only. */
  predicate Internal(e: Event) {
    !e.Load? && !e.List? && !e.Crash? && !e.Fail? && !e.Requeue?
  }

  /** fail() writes both rows in one transaction: the task's only for its owner, the
      request's whoever asks. */
  function GiveUpStep(s: Both, name: string, w: Worker, permanent: bool): Both {
    if w !in s.task.jobs || PcOf(s.request, w) == Idle then s
    else
      var final := TaskQueue.Verdict(s.task.jobs[w], permanent) != TaskQueue.Retry;
      Both(TaskQueue.Step(s.task, TaskQueue.Fail(w, permanent)), Step(s.request, name, Fail(w, final)))
  }

  /** Refusing a listed user fails the task for good. */
  function DecideStep(s: Both, name: string, w: Worker): Both {
    Both(if Reports(s.request, name, List(w)) then TaskQueue.Step(s.task, TaskQueue.Fail(w, true)) else s.task,
         Step(s.request, name, List(w)))
  }

  function Act(s: Both, name: string, a: Action): Both {
    match a
    case Tick(seconds) => s.(task := TaskQueue.Step(s.task, TaskQueue.Tick(seconds)))
    case Take(w) =>
      if w in s.task.jobs || PcOf(s.request, w) != Idle || !TaskQueue.Claimable(s.task.row, s.task.now) then s
      else Both(TaskQueue.Step(s.task, TaskQueue.Claim(w)), Step(s.request, name, Load(w)))
    case Renew(w) => s.(task := TaskQueue.Step(s.task, TaskQueue.Renew(w)))
    case Decide(w) => DecideStep(s, name, w)
    case Work(e) => if Internal(e) then s.(request := Step(s.request, name, e)) else s
    case Finish(w, result) =>
      if PcOf(s.request, w) == Idle then s.(task := TaskQueue.Step(s.task, TaskQueue.Finish(w, result))) else s
    case GiveUp(w, permanent) => GiveUpStep(s, name, w, permanent)
    case Die(w) => Both(TaskQueue.Step(s.task, TaskQueue.Crash(w)), Step(s.request, name, Crash(w)))
    case RetryTask =>
      if TaskQueue.Reset(s.task.row, s.task.now) == s.task.row then s
      else Both(TaskQueue.Step(s.task, TaskQueue.RetryTask), Step(s.request, name, Requeue))
  }

  function After(s: Both, name: string, actions: seq<Action>): Both {
    if actions == [] then s else Act(After(s, name, actions[..|actions| - 1]), name, actions[|actions| - 1])
  }

  // ---- Each row runs its own machine ----

  function RequestEvents(s: Both, name: string, a: Action): seq<Event> {
    match a
    case Take(w) => if Act(s, name, a) == s then [] else [Load(w)]
    case Decide(w) => [List(w)]
    case Work(e) => if Internal(e) then [e] else []
    case GiveUp(w, permanent) =>
      if w !in s.task.jobs || PcOf(s.request, w) == Idle then []
      else [Fail(w, TaskQueue.Verdict(s.task.jobs[w], permanent) != TaskQueue.Retry)]
    case Die(w) => [Crash(w)]
    case RetryTask => if Act(s, name, a) == s then [] else [Requeue]
    case _ => []
  }

  lemma RequestStep(s: Both, name: string, a: Action)
    ensures |RequestEvents(s, name, a)| <= 1
    ensures Act(s, name, a).request
            == if RequestEvents(s, name, a) == [] then s.request else Step(s.request, name, RequestEvents(s, name, a)[0])
  {
  }

  /** What happens to the request is a run of the provisioning protocol, so all its laws hold. */
  lemma {:induction false} RequestIsRun(s: Both, name: string, actions: seq<Action>) returns (events: seq<Event>)
    ensures Run(s.request, name, events) == After(s, name, actions).request
  {
    events := [];
    if actions != [] {
      var front, a := actions[..|actions| - 1], actions[|actions| - 1];
      events := RequestIsRun(s, name, front);
      var t := After(s, name, front);
      RequestStep(t, name, a);
      if RequestEvents(t, name, a) != [] {
        RunSnoc(s.request, name, events, RequestEvents(t, name, a)[0]);
        events := events + [RequestEvents(t, name, a)[0]];
      }
    }
  }

  lemma TaskStep(s: Both, name: string, a: Action)
    requires TaskQueue.Inv(s.task)
    ensures TaskQueue.Inv(Act(s, name, a).task)
    ensures s.task.row.status == TaskQueue.Succeeded ==> Act(s, name, a).task.row == s.task.row
  {
    match a
    case Tick(seconds) => TaskQueue.StepKeeps(s.task, TaskQueue.Tick(seconds));
    case Take(w) => TaskQueue.StepKeeps(s.task, TaskQueue.Claim(w));
    case Renew(w) => TaskQueue.StepKeeps(s.task, TaskQueue.Renew(w));
    case Decide(w) => TaskQueue.StepKeeps(s.task, TaskQueue.Fail(w, true));
    case Work(_) =>
    case Finish(w, result) => TaskQueue.StepKeeps(s.task, TaskQueue.Finish(w, result));
    case GiveUp(w, permanent) => TaskQueue.StepKeeps(s.task, TaskQueue.Fail(w, permanent));
    case Die(w) => TaskQueue.StepKeeps(s.task, TaskQueue.Crash(w));
    case RetryTask => TaskQueue.StepKeeps(s.task, TaskQueue.RetryTask);
  }

  // ---- A lost success is never repaired ----

  /** The task is done and nobody works on the request. */
  ghost predicate Over(s: Both) {
    && TaskQueue.Inv(s.task) && s.task.row.status == TaskQueue.Succeeded
    && forall w: Worker :: PcOf(s.request, w) == Idle
  }

  lemma OverStep(s: Both, name: string, a: Action)
    requires Over(s)
    ensures Over(Act(s, name, a)) && Act(s, name, a).request.status == s.request.status
  {
    TaskStep(s, name, a);
    RequestStep(s, name, a);
    if RequestEvents(s, name, a) != [] { IdleStep(s.request, name, RequestEvents(s, name, a)[0]); }
  }

  lemma IdleStep(s: State, name: string, e: Event)
    requires (forall w: Worker :: PcOf(s, w) == Idle) && !e.Load? && !e.Requeue?
    ensures (forall w: Worker :: PcOf(Step(s, name, e), w) == Idle) && Step(s, name, e).status == s.status
  {
    forall v: Worker ensures PcOf(Step(s, name, e), v) == Idle {
      if !OfWorker(e, v) { OtherPcKept(s, name, e, v); }
    }
  }

  /** Once the task is done and nobody works on the request, its status never changes again:
      the task is not claimed any more, and an administrator's retry is refused. */
  lemma {:induction false} NothingRepairs(s: Both, name: string, actions: seq<Action>)
    requires Over(s)
    ensures Over(After(s, name, actions)) && After(s, name, actions).request.status == s.request.status
  {
    if actions != [] {
      NothingRepairs(s, name, actions[..|actions| - 1]);
      OverStep(After(s, name, actions[..|actions| - 1]), name, actions[|actions| - 1]);
    }
  }

  /** One more step of a run. */
  lemma Then(start: Both, name: string, actions: seq<Action>, a: Action) returns (longer: seq<Action>)
    ensures After(start, name, longer) == Act(After(start, name, actions), name, a)
  {
    longer := actions + [a];
    assert longer[..|actions|] == actions;
  }

  /** One more step of a run, on the request only. */
  lemma Working(start: Both, name: string, actions: seq<Action>, e: Event) returns (longer: seq<Action>)
    requires Internal(e)
    ensures var s := After(start, name, actions);
      After(start, name, longer) == s.(request := Step(s.request, name, e))
  {
    longer := Then(start, name, actions, Work(e));
  }

  /** A request and its task as they are inserted. */
  function Requested(request: State, maximum: int, now: int, lease: nat): Both {
    Both(TaskQueue.Fresh(maximum, now, lease), request)
  }

  /** Worker `stale` has sent its create call. */
  function Sending(s: State, name: string, stale: Worker): State {
    Step(Step(Step(Step(s, name, Load(stale)), name, List(stale)), name, Mark(stale)), name, Send(stale))
  }

  lemma SendingState(s: State, name: string, stale: Worker)
    requires Start(s) && Named(s.users, name) == None
    ensures var t := Sending(s, name, stale);
      && Inv(t, name) && PcOf(t, stale) == Creating && t.users == s.users && t.issued == s.issued && t.active == s.active
      && t.bindings == s.bindings && t.preflight && t.creations == 0
      && (forall v: Worker :: v != stale ==> PcOf(t, v) == Idle)
  {
    StartIsOk(s, name);
    ChosenIsHolder(s, name, None);
    var loaded := Step(s, name, Load(stale));
    var listed := Step(loaded, name, List(stale));
    var marked := Step(listed, name, Mark(stale));
    StepKeeps(s, name, Load(stale));
    StepKeeps(loaded, name, List(stale));
    StepKeeps(listed, name, Mark(stale));
    StepKeeps(marked, name, Send(stale));
  }

  lemma Sends(start: Both, name: string, stale: Worker) returns (actions: seq<Action>)
    requires Start(start.request) && Named(start.request.users, name) == None
    requires stale !in start.task.jobs && TaskQueue.Claimable(start.task.row, start.task.now)
    ensures After(start, name, actions) == Both(TaskQueue.Step(start.task, TaskQueue.Claim(stale)), Sending(start.request, name, stale))
  {
    StartIsOk(start.request, name);
    ChosenIsHolder(start.request, name, None);
    actions := Then(start, name, [], Take(stale));
    var taken := After(start, name, actions);
    actions := Then(start, name, actions, Decide(stale));
    assert !Reports(taken.request, name, List(stale));
    actions := Working(start, name, actions, Mark(stale));
    actions := Working(start, name, actions, Send(stale));
  }

  /** The lease of `stale` runs out, and worker `w` claims the task. */
  function TakenOver(task: TaskQueue.Sys, stale: Worker, w: Worker): TaskQueue.Sys {
    var late := TaskQueue.Step(TaskQueue.Step(task, TaskQueue.Claim(stale)), TaskQueue.Tick(task.lease + 1));
    TaskQueue.Step(late, TaskQueue.Claim(w))
  }

  lemma TakenOverTask(maximum: int, now: int, lease: nat, stale: Worker, w: Worker)
    requires maximum >= 1 && stale != w
    ensures var t := TakenOver(TaskQueue.Fresh(maximum, now, lease), stale, w);
      && TaskQueue.Inv(t) && t.row.owner == Some(w) && w in t.jobs
      && stale in t.jobs && t.jobs[stale].attempts == 1 && t.jobs[stale].maximum == maximum
  {
    var task := TaskQueue.Fresh(maximum, now, lease);
    TaskQueue.StepKeeps(task, TaskQueue.Claim(stale));
    var claimed := TaskQueue.Step(task, TaskQueue.Claim(stale));
    TaskQueue.StepKeeps(claimed, TaskQueue.Tick(lease + 1));
    TaskQueue.StepKeeps(TaskQueue.Step(claimed, TaskQueue.Tick(lease + 1)), TaskQueue.Claim(w));
  }

  lemma TakesOver(start: Both, name: string, stale: Worker, w: Worker) returns (actions: seq<Action>)
    requires Start(start.request) && Named(start.request.users, name) == None && stale != w
    requires start.task.jobs == map[] && TaskQueue.Claimable(start.task.row, start.task.now)
    ensures After(start, name, actions)
            == Both(TakenOver(start.task, stale, w), Step(Sending(start.request, name, stale), name, Load(w)))
  {
    SendingState(start.request, name, stale);
    actions := Sends(start, name, stale);
    actions := Then(start, name, actions, Tick(start.task.lease + 1));
    actions := Then(start, name, actions, Take(w));
  }

  /** Worker `w` goes on to the user it works on. */
  lemma Reaches(start: Both, name: string, before: seq<Action>, s: State, w: Worker, id: UserId) returns (actions: seq<Action>)
    requires After(start, name, before).request == Step(s, name, Load(w)) && PcOf(s, w) == Idle && s.preflight
    ensures var b := After(start, name, before);
      After(start, name, actions) == b.(request := Reached(s, name, w, id))
  {
    var loaded := After(start, name, before);
    actions := Then(start, name, before, Decide(w));
    assert !Reports(loaded.request, name, List(w));
    actions := Working(start, name, actions, Mark(w));
    actions := Working(start, name, actions, Send(w));
    actions := Working(start, name, actions, Arrive(w, id, true));
    actions := Working(start, name, actions, Record(w));
  }

  function Closed(s: State, name: string, w: Worker): State {
    Step(Step(s, name, SetPassword(w)), name, Bind(w, true))
  }

  /** It closes the request and finishes the task. */
  lemma Completes(start: Both, name: string, before: seq<Action>, w: Worker, result: string) returns (actions: seq<Action>)
    requires PcOf(Closed(After(start, name, before).request, name, w), w) == Idle
    ensures var b := After(start, name, before);
      After(start, name, actions) == Both(TaskQueue.Step(b.task, TaskQueue.Finish(w, result)), Closed(b.request, name, w))
  {
    actions := Working(start, name, before, SetPassword(w));
    actions := Working(start, name, actions, Bind(w, true));
    actions := Then(start, name, actions, Finish(w, result));
  }

  /** A late report changes the request although the task is done. */
  lemma LateReport(s: Both, name: string, stale: Worker)
    requires TaskQueue.Inv(s.task) && s.task.row.status == TaskQueue.Succeeded && stale in s.task.jobs
    requires PcOf(s.request, stale) != Idle && forall v: Worker :: v != stale ==> PcOf(s.request, v) == Idle
    ensures var t := Act(s, name, GiveUp(stale, false)); var job := s.task.jobs[stale];
      && Over(t) && t.request.made == s.request.made && t.request.creations == s.request.creations
      && t.request.status == if job.attempts >= job.maximum then Failed else Pending
  {
    TaskStep(s, name, GiveUp(stale, false));
    var t := Act(s, name, GiveUp(stale, false));
    assert t.request.pcs == s.request.pcs[stale := Idle];
    forall v: Worker ensures PcOf(t.request, v) == Idle { assert v != stale ==> PcOf(s.request, v) == Idle; }
  }

  /** The task and the request when `w` is through and `stale` still waits for its call. */
  lemma WhenDone(request: State, name: string, maximum: int, now: int, lease: nat, stale: Worker, w: Worker, id: UserId, result: string)
    requires Start(request) && Named(request.users, name) == None && request.active && maximum >= 1 && stale != w
    requires id !in request.issued && id !in request.bindings
    ensures var task := TaskQueue.Step(TakenOver(TaskQueue.Fresh(maximum, now, lease), stale, w), TaskQueue.Finish(w, result));
      && TaskQueue.Inv(task) && task.row.status == TaskQueue.Succeeded
      && stale in task.jobs && task.jobs[stale].attempts == 1 && task.jobs[stale].maximum == maximum
    ensures var s := Attempt(Sending(request, name, stale), name, w, id);
      && PcOf(s, w) == Idle && s.made == Some(id) && s.creations == 1 && PcOf(s, stale) == Creating
      && forall v: Worker :: v != stale ==> PcOf(s, v) == Idle
  {
    TakenOverTask(maximum, now, lease, stale, w);
    TaskQueue.StepKeeps(TakenOver(TaskQueue.Fresh(maximum, now, lease), stale, w), TaskQueue.Finish(w, result));
    var sending := Sending(request, name, stale);
    SendingState(request, name, stale);
    AttemptDecides(sending, name, w, id);
    AttemptKeepsOtherPcs(sending, name, w, id, stale);
    forall v: Worker | v != stale ensures PcOf(Attempt(sending, name, w, id), v) == Idle {
      if v != w { AttemptKeepsOtherPcs(sending, name, w, id, v); }
    }
  }

  /** A worker stalls on its create call past its lease, another one completes the attempt
      and the task, and the first then reports its failure: the user is bound and the task
      done, the request does not show it, and no later action of anybody changes that. */
  lemma LostSuccessIsNeverRepaired(request: State, name: string, maximum: int, now: int, lease: nat, stale: Worker, w: Worker,
                                   id: UserId, result: string) returns (actions: seq<Action>)
    requires Start(request) && Named(request.users, name) == None && request.active && maximum >= 1 && stale != w
    requires id !in request.issued && id !in request.bindings
    ensures var t := After(Requested(request, maximum, now, lease), name, actions);
      && t.request.made == Some(id) && t.request.creations == 1 && t.task.row.status == TaskQueue.Succeeded
      && t.request.status == (if maximum == 1 then Failed else Pending)
      && forall more :: After(t, name, more).request.status == t.request.status
  {
    var start := Requested(request, maximum, now, lease);
    SendingState(request, name, stale);
    WhenDone(request, name, maximum, now, lease, stale, w, id, result);
    actions := TakesOver(start, name, stale, w);
    actions := Reaches(start, name, actions, Sending(request, name, stale), w, id);
    assert Closed(After(start, name, actions).request, name, w) == Attempt(Sending(request, name, stale), name, w, id);
    actions := Completes(start, name, actions, w, result);
    LateReport(After(start, name, actions), name, stale);
    actions := Then(start, name, actions, GiveUp(stale, false));
    var t := After(start, name, actions);
    forall more ensures After(t, name, more).request.status == t.request.status { NothingRepairs(t, name, more); }
  }
}
