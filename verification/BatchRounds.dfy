/** A batch with executors one after the other: every effect exactly once, whatever is
    paused, resumed, canceled, retried or crashes, as long as no commit that went through
    reports an error; how many rounds finish it; and two runs, with overlapping executors
    and with a lost reply, that apply an effect twice. */
module BatchRounds {
  import opened Options
  import opened Batch
  import opened Arithmetic

  /** Steps of the executor `w` and of administrators. */
  predicate By(e: Event, w: Worker) {
    match e
    case Claim(v) => v == w
    case Start(v, chunk) => v == w && chunk >= 1
    case Check(v) => v == w
    case Process(v, _) => v == w
    case Mark(v, _) => v == w
    case Renew(v) => v == w
    case Finalize(v) => v == w
    case Crash(v) => v == w
    case _ => true
  }

  ghost predicate AllIdle(s: State) {
    forall w: Worker :: PcOf(s, w) == Idle
  }

  ghost predicate OthersIdle(s: State, w: Worker) {
    forall v: Worker :: v != w ==> PcOf(s, v) == Idle
  }

  predicate Takes(s: State, e: Event) {
    e.Claim? && PcOf(s, e.w) == Idle && Claimable(s)
  }

  /** Every claim is made when no executor is at work, whoever makes it; chunks are not empty. */
  ghost predicate Sequential(s: State, events: seq<Event>) {
    events != [] ==>
      var front, e := events[..|events| - 1], events[|events| - 1];
      && Sequential(s, front)
      && (Takes(Run(s, front), e) ==> AllIdle(Run(s, front)))
      && (e.Start? ==> e.chunk >= 1)
  }

  /** Different items that all still wait. */
  predicate Ahead(todo: seq<nat>, items: seq<ItemStatus>) {
    && (forall j :: 0 <= j < |todo| ==> todo[j] < |items| && items[todo[j]] == Waiting)
    && (forall j, k :: 0 <= j < k < |todo| ==> todo[j] != todo[k])
  }

  /** What the only executor may rely on at each point. */
  predicate PcOk(items: seq<ItemStatus>, pc: Pc) {
    match pc
    case Idle => true
    case Claimed => true
    case Finalizing => true
    case InLoop(todo) => todo != [] && Ahead(todo, items)
    case Checked(todo) => todo != [] && Ahead(todo, items)
    case Marking(todo) => todo != [] && Ahead(todo, items)
    case Unsure(todo) => todo != [] && Ahead(todo[1..], items) && todo[0] < |items| && items[todo[0]] == Done
    case Renewing(todo) => todo != [] && Ahead(todo[1..], items)
  }

  /** A finished operation has nothing waiting, and its counters tell the outcome. */
  predicate Closed(row: Row, items: seq<ItemStatus>) {
    && Count(items, Waiting) == 0
    && row.succeeded == Count(items, Done) && row.failed == Count(items, Broken) && row.processed == |items|
    && (row.status == Succeeded <==> row.failed == 0)
  }

  predicate Sole(s: State, w: Worker) {
    && Inv(s) && PcOk(s.items, PcOf(s, w))
    && (s.row.status == Succeeded || s.row.status == Failed ==> Closed(s.row, s.items) && PcOf(s, w) == Idle)
  }

  lemma WaitingIsAhead(items: seq<ItemStatus>, i: nat, n: nat)
    requires i <= |items|
    ensures Ahead(WaitingFrom(items, i, n), items)
    ensures forall j :: 0 <= j < |WaitingFrom(items, i, n)| ==> WaitingFrom(items, i, n)[j] >= i
    decreases |items| - i
  {
    if i < |items| && n > 0 {
      if items[i] == Waiting { WaitingIsAhead(items, i + 1, n - 1); } else { WaitingIsAhead(items, i + 1, n); }
    }
  }

  lemma SoleClaims(s: State, w: Worker, e: Event)
    requires Sole(s, w) && By(e, w) && (e.Claim? || e.Start? || e.Check? || e.Renew? || e.Crash?)
    ensures Sole(Step(s, e), w)
  {
    NothingInProgress(s.items);
    if e.Start? { WaitingIsAhead(s.items, 0, e.chunk); }
  }

  lemma SoleProcesses(s: State, w: Worker, ending: Ending)
    requires Sole(s, w)
    ensures Sole(Step(s, Process(w, ending)), w)
  {
    StepKeeps(s, Process(w, ending));
  }

  lemma SoleMarks(s: State, w: Worker, works: bool)
    requires Sole(s, w)
    ensures Sole(Step(s, Mark(w, works)), w)
  {
    StepKeeps(s, Mark(w, works));
  }

  lemma SoleFinalizes(s: State, w: Worker)
    requires Sole(s, w)
    ensures Sole(Step(s, Finalize(w)), w)
  {
    NothingInProgress(s.items);
  }

  lemma SoleAdmin(s: State, w: Worker, e: Event)
    requires Sole(s, w) && (e.Tick? || e.Pause? || e.Resume? || e.Cancel? || e.RetryAll?)
    ensures Sole(Step(s, e), w)
  {
  }

  lemma SoleStep(s: State, w: Worker, e: Event)
    requires Sole(s, w) && By(e, w)
    ensures Sole(Step(s, e), w)
  {
    match e
    case Tick(_) => SoleAdmin(s, w, e);
    case Pause => SoleAdmin(s, w, e);
    case Resume => SoleAdmin(s, w, e);
    case Cancel => SoleAdmin(s, w, e);
    case RetryAll => SoleAdmin(s, w, e);
    case Process(_, ending) => SoleProcesses(s, w, ending);
    case Mark(_, works) => SoleMarks(s, w, works);
    case Finalize(_) => SoleFinalizes(s, w);
    case _ => SoleClaims(s, w, e);
  }

  predicate OfWorker(e: Event, w: Worker) {
    match e
    case Claim(v) => v == w
    case Start(v, _) => v == w
    case Check(v) => v == w
    case Process(v, _) => v == w
    case Mark(v, _) => v == w
    case Renew(v) => v == w
    case Finalize(v) => v == w
    case Crash(v) => v == w
    case _ => false
  }

  lemma OtherPcKept(s: State, e: Event, v: Worker)
    requires !OfWorker(e, v)
    ensures PcOf(Step(s, e), v) == PcOf(s, v)
  {
  }

  /** What an idle executor does changes nothing, unless it claims. */
  lemma IdleStepChangesNothing(s: State, e: Event, v: Worker)
    requires OfWorker(e, v) && PcOf(s, v) == Idle && !Takes(s, e)
    ensures Step(s, e) == s.(pcs := Step(s, e).pcs) && PcOf(Step(s, e), v) == Idle
  {
  }

  lemma StepKeepsOrder(s: State, w: Worker, e: Event) returns (v: Worker)
    requires Sole(s, w) && OthersIdle(s, w) && (Takes(s, e) ==> AllIdle(s)) && (e.Start? ==> e.chunk >= 1)
    ensures Sole(Step(s, e), v) && OthersIdle(Step(s, e), v)
  {
    v := if Takes(s, e) then e.w else w;
    forall u: Worker | u != v ensures PcOf(Step(s, e), u) == Idle {
      assert PcOf(s, u) == Idle;
      if OfWorker(e, u) { IdleStepChangesNothing(s, e, u); } else { OtherPcKept(s, e, u); }
    }
    if By(e, v) {
      SoleStep(s, v, e);
    } else {
      IdleStepChangesNothing(s, e, e.w);
      OtherPcKept(s, e, v);
    }
  }

  lemma {:induction false} RunKeepsOrder(s: State, events: seq<Event>, w: Worker) returns (v: Worker)
    requires Sole(s, w) && OthersIdle(s, w) && Sequential(s, events)
    ensures Sole(Run(s, events), v) && OthersIdle(Run(s, events), v)
  {
    if events == [] {
      v := w;
    } else {
      v := RunKeepsOrder(s, events[..|events| - 1], w);
      v := StepKeepsOrder(Run(s, events[..|events| - 1]), v, events[|events| - 1]);
    }
  }

  /** This step marks item `i` failed because the commit of its effect reported an error. */
  predicate MarksUnsure(s: State, e: Event, i: nat) {
    e.Mark? && e.works && PcOf(s, e.w).Unsure? && PcOf(s, e.w).todo != [] && PcOf(s, e.w).todo[0] == i
  }

  /** How often that happened to item `i`. */
  function MarkedUnsure(s: State, events: seq<Event>, i: nat): nat {
    if events == [] then 0
    else
      var front := events[..|events| - 1];
      MarkedUnsure(s, front, i) + if MarksUnsure(Run(s, front), events[|events| - 1], i) then 1 else 0
  }

  lemma OnlyUnsureOverwrites(s: State, w: Worker, e: Event, i: nat)
    requires Sole(s, w) && OthersIdle(s, w)
    ensures Overwrites(s, e, i) <==> MarksUnsure(s, e, i)
  {
    if e.Mark? { assert e.w != w ==> PcOf(s, e.w) == Idle; }
  }

  lemma {:induction false} OverwritesAreUnsure(s: State, events: seq<Event>, w: Worker, i: nat)
    requires Sole(s, w) && OthersIdle(s, w) && Sequential(s, events)
    ensures Overwritten(s, events, i) == MarkedUnsure(s, events, i)
  {
    if events != [] {
      var front := events[..|events| - 1];
      OverwritesAreUnsure(s, front, w, i);
      var v := RunKeepsOrder(s, front, w);
      OnlyUnsureOverwrites(Run(s, front), v, events[|events| - 1], i);
    }
  }

  /** With executors one after the other, each ended by its report, its exit or a crash, an
      item's effect has been applied once if the item is done, and once more for each commit
      that went through, reported an error and was marked failed: so once if done and never
      otherwise exactly when that did not happen. A finished operation accounts for every item. */
  lemma ExactlyOnce(n: nat, now: int, lease: nat, events: seq<Event>, i: nat)
    requires Sequential(Created(n, now, lease), events) && i < n
    ensures var s0 := Created(n, now, lease); var s := Run(s0, events);
      && |s.items| == |s.effects| == n
      && s.effects[i] == (if s.items[i] == Done then 1 else 0) + MarkedUnsure(s0, events, i)
      && (s.effects[i] == (if s.items[i] == Done then 1 else 0) <==> MarkedUnsure(s0, events, i) == 0)
      && (s.row.status == Succeeded ==> s.items[i] == Done && s.row.succeeded == n && s.row.failed == 0)
      && (s.row.status == Failed ==> s.items[i] != Waiting && s.row.failed > 0 && s.row.succeeded + s.row.failed == n)
  {
    var s0 := Created(n, now, lease);
    var w := RunKeepsOrder(s0, events, 0);
    EffectsAreCounted(n, now, lease, events, i);
    OverwritesAreUnsure(s0, events, 0, i);
    Accounted(Run(s0, events), w, i);
    RunKeeps(s0, events);
  }

  lemma Accounted(s: State, w: Worker, i: nat)
    requires Sole(s, w) && i < |s.items|
    ensures s.row.status == Succeeded ==> s.items[i] == Done && s.row.succeeded == |s.items| && s.row.failed == 0
    ensures s.row.status == Failed ==> s.items[i] != Waiting && s.row.failed > 0 && s.row.succeeded + s.row.failed == |s.items|
  {
    NothingInProgress(s.items);
    if s.row.status == Succeeded || s.row.status == Failed { CountPositive(s.items, i); }
  }

  lemma {:induction false} CountPositive(items: seq<ItemStatus>, i: nat)
    requires i < |items|
    ensures Count(items, items[i]) > 0
  {
    if i < |items| - 1 { CountPositive(items[..|items| - 1], i); }
  }

  // ---- An effect applied twice ----

  /** A running operation whose only item waits, claimed by `w`. */
  predicate OneItem(s: State, w: Worker) {
    s.items == [Waiting] && |s.effects| == 1 && s.row.status == Running && s.row.owner == Some(w) && PcOf(s, w) == Claimed
  }

  function CheckedBy(s: State, w: Worker): State {
    Step(Step(s, Start(w, 1)), Check(w))
  }

  function DoneBy(s: State, w: Worker): State {
    Step(Step(CheckedBy(s, w), Process(w, Works)), Renew(w))
  }

  lemma ChecksIt(s: State, w: Worker)
    requires OneItem(s, w)
    ensures CheckedBy(s, w) == s.(pcs := s.pcs[w := Checked([0])])
  {
    assert WaitingFrom([Waiting], 1, 0) == [];
    assert WaitingFrom([Waiting], 0, 1) == [0];
    assert Step(s, Start(w, 1)) == s.(pcs := s.pcs[w := InLoop([0])]);
    assert s.pcs[w := InLoop([0])][w := Checked([0])] == s.pcs[w := Checked([0])];
  }

  lemma DoesIt(s: State, w: Worker)
    requires OneItem(s, w)
    ensures var t := DoneBy(s, w);
      && t.items == [Done] && t.effects == [s.effects[0] + 1] && t.row.status == Running && t.row.owner == Some(w)
      && t.pcs == s.pcs[w := Finalizing] && t.retries == s.retries
  {
    ChecksIt(s, w);
    assert s.items[0 := Done] == [Done] && s.effects[0 := s.effects[0] + 1] == [s.effects[0] + 1];
  }

  /** Worker 0 has checked the status when its lease runs out and worker 1 claims. */
  function TakenOver(s: State): State {
    Step(Step(s, Tick(s.lease + 1)), Claim(1))
  }

  lemma TakesOver(s: State)
    requires s.items == [Waiting] && |s.effects| == 1 && s.row.status == Running && s.row.leaseUntil <= s.now + s.lease
    requires PcOf(s, 1) == Idle
    ensures OneItem(TakenOver(s), 1) && TakenOver(s).effects == s.effects && TakenOver(s).retries == s.retries
    ensures TakenOver(s).pcs == s.pcs[1 := Claimed]
  {
    assert Recovered([Waiting]) == [Waiting];
  }

  /** Worker 0 finds the item taken and marks it failed over the success. */
  function MarkedFailed(s: State): State {
    Step(Step(Step(s, Process(0, Works)), Mark(0, true)), Finalize(1))
  }

  lemma FailsIt(s: State)
    requires s.items == [Done] && PcOf(s, 0) == Checked([0]) && PcOf(s, 1) == Finalizing && s.row.owner == Some(1)
    ensures var t := MarkedFailed(s);
      t.items == [Broken] && t.effects == s.effects && t.row.status == Failed && PcOf(t, 1) == Idle && t.retries == s.retries
  {
    var marked := Step(Step(s, Process(0, Works)), Mark(0, true));
    assert [Done][0 := Broken] == [Broken];
    assert marked.items == [Broken] && PcOf(marked, 1) == Finalizing && marked.row.owner == Some(1);
    assert Count([Broken][..0], Waiting) == 0 && Count([Broken][..0], Broken) == 0 && Count([Broken][..0], InProgress) == 0;
  }

  /** The administrator retries and worker 1 claims again. */
  function Reclaimed(s: State): State {
    Step(Step(s, RetryAll), Claim(1))
  }

  lemma Reclaims(s: State)
    requires s.items == [Broken] && |s.effects| == 1 && s.row.status == Failed && PcOf(s, 1) == Idle
    ensures OneItem(Reclaimed(s), 1) && Reclaimed(s).effects == s.effects && Reclaimed(s).retries == s.retries + 1
  {
    assert Reopened([Broken]) == [Waiting] && Recovered([Waiting]) == [Waiting];
  }

  function FirstRun(lease: nat): State {
    DoneBy(TakenOver(CheckedBy(Step(Created(1, 0, lease), Claim(0)), 0)), 1)
  }

  lemma FirstRunState(lease: nat)
    ensures var s := FirstRun(lease);
      && s.items == [Done] && s.effects == [1] && s.retries == 0 && s.row.owner == Some(1)
      && PcOf(s, 0) == Checked([0]) && PcOf(s, 1) == Finalizing
  {
    var start := Created(1, 0, lease);
    assert start.items == [Waiting] && start.effects == [0] && Recovered([Waiting]) == [Waiting];
    var claimed := Step(start, Claim(0));
    assert OneItem(claimed, 0);
    ChecksIt(claimed, 0);
    var checked := claimed.(pcs := claimed.pcs[0 := Checked([0])]);
    TakesOver(checked);
    DoesIt(TakenOver(checked), 1);
  }

  /** Overlapping executors break the promise: one item, one retry, and the effect of the
      one account has been applied twice. */
  lemma OverlapAppliesTwice(lease: nat)
    ensures var first := FirstRun(lease); var second := DoneBy(Reclaimed(MarkedFailed(first)), 1);
      && first.items == [Done] && first.effects == [1]
      && second.items == [Done] && second.effects == [2] && second.retries == 1
  {
    FirstRunState(lease);
    var first := FirstRun(lease);
    FailsIt(first);
    Reclaims(MarkedFailed(first));
    DoesIt(Reclaimed(MarkedFailed(first)), 1);
  }

  /** The commit of the item goes through and reports an error; the executor marks the item
      failed, and closes the operation. */
  function MarkedBy(s: State, w: Worker): State {
    Step(Step(Step(CheckedBy(s, w), Process(w, Unanswered)), Mark(w, true)), Renew(w))
  }

  function UnsureBy(s: State, w: Worker): State {
    Step(MarkedBy(s, w), Finalize(w))
  }

  lemma UnsureMarks(s: State, w: Worker)
    requires OneItem(s, w)
    ensures var t := MarkedBy(s, w);
      && t.items == [Broken] && t.effects == [s.effects[0] + 1] && PcOf(t, w) == Finalizing
      && t.row.owner == Some(w) && t.retries == s.retries
  {
    ChecksIt(s, w);
    assert s.items[0 := Done] == [Done] && s.effects[0 := s.effects[0] + 1] == [s.effects[0] + 1];
    assert PcOf(Step(CheckedBy(s, w), Process(w, Unanswered)), w) == Unsure([0]) && [Done][0 := Broken] == [Broken];
  }

  lemma UnsureFails(s: State, w: Worker)
    requires OneItem(s, w)
    ensures var t := UnsureBy(s, w);
      && t.items == [Broken] && t.effects == [s.effects[0] + 1] && t.row.status == Failed
      && PcOf(t, w) == Idle && t.retries == s.retries
  {
    UnsureMarks(s, w);
    assert Count([Broken][..0], Waiting) == 0 && Count([Broken][..0], Broken) == 0 && Count([Broken][..0], InProgress) == 0;
  }

  /** A single executor is enough: one item whose commit loses its reply, one retry, and the
      effect has been applied twice. */
  lemma LostReplyAppliesTwice(lease: nat)
    ensures var first := UnsureBy(Step(Created(1, 0, lease), Claim(1)), 1); var second := DoneBy(Reclaimed(first), 1);
      && first.items == [Broken] && first.effects == [1] && first.row.status == Failed
      && second.items == [Done] && second.effects == [2] && second.retries == 1
  {
    var start := Created(1, 0, lease);
    assert start.items == [Waiting] && start.effects == [0] && Recovered([Waiting]) == [Waiting];
    var claimed := Step(start, Claim(1));
    UnsureFails(claimed, 1);
    Reclaims(UnsureBy(claimed, 1));
    DoesIt(Reclaimed(UnsureBy(claimed, 1)), 1);
  }

  // ---- Undisturbed rounds ----

  /** Check, process, mark if it failed, renew: one item of the chunk. */
  function ItemStep(s: State, w: Worker, ending: Ending): State {
    Step(Step(Step(Step(s, Check(w)), Process(w, ending)), Mark(w, true)), Renew(w))
  }

  /** How processing each item ends; items not mentioned work. */
  function EndingOf(bad: map<nat, Ending>, i: nat): Ending {
    if i in bad then bad[i] else Works
  }

  function LoopSteps(s: State, w: Worker, bad: map<nat, Ending>, todo: seq<nat>): State
    decreases |todo|
  {
    if todo == [] then s else LoopSteps(ItemStep(s, w, EndingOf(bad, todo[0])), w, bad, todo[1..])
  }

  function Opened(s: State, w: Worker, chunk: nat): State {
    Step(Step(s, Claim(w)), Start(w, chunk))
  }

  /** ProcessNextBatch when nothing interferes; processing ends as `bad` says, or works. */
  function Round(s: State, w: Worker, chunk: nat, bad: map<nat, Ending>): State {
    Step(LoopSteps(Opened(s, w, chunk), w, bad, WaitingFrom(s.items, 0, chunk)), Finalize(w))
  }

  predicate Working(s: State, w: Worker, todo: seq<nat>) {
    && Inv(s) && Ahead(todo, s.items) && PcOf(s, w) == Loop(todo)
    && s.row.status == Running && s.row.owner == Some(w)
  }

  function Outcome(bad: map<nat, Ending>, i: nat): ItemStatus {
    if EndingOf(bad, i) == Works then Done else Broken
  }

  lemma ItemStepDoes(s: State, w: Worker, ending: Ending, todo: seq<nat>)
    requires Working(s, w, todo) && todo != []
    ensures var t := ItemStep(s, w, ending);
      && t.items == s.items[todo[0] := if ending == Works then Done else Broken]
      && t.effects == (if ending != Fails then s.effects[todo[0] := s.effects[todo[0]] + 1] else s.effects)
      && PcOf(t, w) == Loop(todo[1..]) && t.row.status == Running && t.row.owner == Some(w)
  {
    var checked := Step(s, Check(w));
    assert PcOf(checked, w) == Checked(todo);
  }

  lemma ItemStepKeepsInv(s: State, w: Worker, ending: Ending)
    requires Inv(s)
    ensures Inv(ItemStep(s, w, ending))
  {
    StepKeeps(s, Check(w));
    var a := Step(s, Check(w));
    StepKeeps(a, Process(w, ending));
    var b := Step(a, Process(w, ending));
    StepKeeps(b, Mark(w, true));
    StepKeeps(Step(b, Mark(w, true)), Renew(w));
  }

  lemma ItemStepWorks(s: State, w: Worker, ending: Ending, todo: seq<nat>)
    requires Working(s, w, todo) && todo != []
    ensures Working(ItemStep(s, w, ending), w, todo[1..])
  {
    ItemStepDoes(s, w, ending, todo);
    ItemStepKeepsInv(s, w, ending);
  }

  lemma {:induction false} CountUpdate(items: seq<ItemStatus>, i: nat, x: ItemStatus, st: ItemStatus)
    requires i < |items|
    ensures Count(items[i := x], st) == Count(items, st) - (if items[i] == st then 1 else 0) + (if x == st then 1 else 0)
  {
    var n := |items| - 1;
    if i < n {
      assert items[i := x][..n] == items[..n][i := x];
      CountUpdate(items[..n], i, x, st);
    } else {
      assert items[i := x][..n] == items[..n];
    }
  }

  /** Items after one pass and after the rest of the loop. */
  predicate Outcomes(items: seq<ItemStatus>, after: seq<ItemStatus>, bad: map<nat, Ending>, todo: seq<nat>) {
    && |after| == |items|
    && forall i :: 0 <= i < |items| ==> after[i] == if i in todo then Outcome(bad, i) else items[i]
  }

  lemma OutcomesCompose(items: seq<ItemStatus>, middle: seq<ItemStatus>, after: seq<ItemStatus>, bad: map<nat, Ending>, todo: seq<nat>)
    requires Ahead(todo, items) && todo != []
    requires middle == items[todo[0] := Outcome(bad, todo[0])] && Outcomes(middle, after, bad, todo[1..])
    ensures Outcomes(items, after, bad, todo)
  {
    assert todo == [todo[0]] + todo[1..];
  }

  /** The loop settles every item of the chunk and touches no other. */
  lemma {:induction false} LoopDoes(s: State, w: Worker, bad: map<nat, Ending>, todo: seq<nat>)
    requires Working(s, w, todo)
    ensures var t := LoopSteps(s, w, bad, todo);
      && Working(t, w, [])
      && Count(t.items, Waiting) == Count(s.items, Waiting) - |todo|
      && Outcomes(s.items, t.items, bad, todo)
    decreases |todo|
  {
    if todo != [] {
      var ending := EndingOf(bad, todo[0]);
      ItemStepDoes(s, w, ending, todo);
      ItemStepWorks(s, w, ending, todo);
      CountUpdate(s.items, todo[0], Outcome(bad, todo[0]), Waiting);
      LoopDoes(ItemStep(s, w, ending), w, bad, todo[1..]);
      OutcomesCompose(s.items, ItemStep(s, w, ending).items, LoopSteps(s, w, bad, todo).items, bad, todo);
    }
  }

  lemma {:induction false} CountTail(items: seq<ItemStatus>, st: ItemStatus)
    requires items != []
    ensures Count(items, st) == Count(items[1..], st) + if items[0] == st then 1 else 0
  {
    var n := |items| - 1;
    if n > 0 {
      CountTail(items[..n], st);
      assert items[..n][1..] == items[1..][..n - 1];
    }
  }

  lemma {:induction false} WaitingLength(items: seq<ItemStatus>, i: nat, n: nat)
    requires i <= |items|
    ensures |WaitingFrom(items, i, n)| == if Count(items[i..], Waiting) < n then Count(items[i..], Waiting) else n
    ensures Count(items[i..], Waiting) <= n ==>
      forall j :: i <= j < |items| && items[j] == Waiting ==> j in WaitingFrom(items, i, n)
    decreases |items| - i
  {
    if i < |items| {
      CountTail(items[i..], Waiting);
      assert items[i..][1..] == items[i + 1..];
      if n > 0 {
        WaitingLength(items, i + 1, if items[i] == Waiting then n - 1 else n);
      } else {
        WaitingLength(items, i + 1, 0);
      }
    }
  }

  lemma OpenedWorks(s: State, w: Worker, chunk: nat)
    requires Inv(s) && PcOf(s, w) == Idle && Claimable(s)
    ensures Working(Opened(s, w, chunk), w, WaitingFrom(s.items, 0, chunk))
    ensures Opened(s, w, chunk).items == s.items
  {
    NothingInProgress(s.items);
    WaitingIsAhead(s.items, 0, chunk);
    StepKeeps(s, Claim(w));
    StepKeeps(Step(s, Claim(w)), Start(w, chunk));
  }

  lemma FinalizeDoes(s: State, w: Worker)
    requires Working(s, w, [])
    ensures var t := Step(s, Finalize(w));
      && Inv(t) && PcOf(t, w) == Idle && t.items == s.items && t.row.status == FinalStatus(s.items)
  {
    StepKeeps(s, Finalize(w));
    NothingInProgress(s.items);
  }

  lemma RoundDoes(s: State, w: Worker, chunk: nat, bad: map<nat, Ending>)
    requires Inv(s) && PcOf(s, w) == Idle && Claimable(s)
    ensures var t := Round(s, w, chunk, bad); var k := Count(s.items, Waiting);
      && Inv(t) && PcOf(t, w) == Idle && |t.items| == |s.items| && t.row.status == FinalStatus(t.items)
      && Count(t.items, Waiting) == (if k < chunk then 0 else k - chunk)
      && forall i :: 0 <= i < |s.items| ==>
        t.items[i] == s.items[i] || (s.items[i] == Waiting && t.items[i] == Outcome(bad, i))
  {
    var todo := WaitingFrom(s.items, 0, chunk);
    OpenedWorks(s, w, chunk);
    LoopDoes(Opened(s, w, chunk), w, bad, todo);
    WaitingLength(s.items, 0, chunk);
    assert s.items[0..] == s.items;
    WaitingIsAhead(s.items, 0, chunk);
    FinalizeDoes(LoopSteps(Opened(s, w, chunk), w, bad, todo), w);
  }

  // ---- A round that an administrator stops ----

  /** A pause or cancel lands before item number `k` of the chunk is checked, or before the
      round is closed when the chunk is through. */
  function StoppedRound(s: State, w: Worker, chunk: nat, bad: map<nat, Ending>, k: nat, admin: Event): State
    requires k <= |WaitingFrom(s.items, 0, chunk)|
  {
    var todo := WaitingFrom(s.items, 0, chunk);
    var stopped := Step(LoopSteps(Opened(s, w, chunk), w, bad, todo[..k]), admin);
    if k < |todo| then Step(stopped, Check(w)) else Step(stopped, Finalize(w))
  }

  lemma AheadPrefix(todo: seq<nat>, items: seq<ItemStatus>, k: nat)
    requires Ahead(todo, items) && k <= |todo|
    ensures Ahead(todo[..k], items)
  {
  }

  lemma {:induction false} LoopSnoc(s: State, w: Worker, bad: map<nat, Ending>, todo: seq<nat>, i: nat)
    ensures LoopSteps(s, w, bad, todo + [i]) == ItemStep(LoopSteps(s, w, bad, todo), w, EndingOf(bad, i))
    decreases |todo|
  {
    if todo != [] {
      assert (todo + [i])[1..] == todo[1..] + [i];
      LoopSnoc(ItemStep(s, w, EndingOf(bad, todo[0])), w, bad, todo[1..], i);
    } else {
      var t := ItemStep(s, w, EndingOf(bad, i));
      assert LoopSteps(t, w, bad, [i][1..]) == t;
    }
  }

  /** After `k` items of the chunk the rest is still ahead. */
  lemma {:induction false} LoopLeaves(s: State, w: Worker, bad: map<nat, Ending>, todo: seq<nat>, k: nat)
    requires Working(s, w, todo) && k <= |todo|
    ensures Working(LoopSteps(s, w, bad, todo[..k]), w, todo[k..])
    ensures Outcomes(s.items, LoopSteps(s, w, bad, todo[..k]).items, bad, todo[..k])
    decreases k
  {
    if k > 0 {
      var t := ItemStep(s, w, EndingOf(bad, todo[0]));
      ItemStepDoes(s, w, EndingOf(bad, todo[0]), todo);
      ItemStepWorks(s, w, EndingOf(bad, todo[0]), todo);
      LoopLeaves(t, w, bad, todo[1..], k - 1);
      assert todo[..k][1..] == todo[1..][..k - 1] && todo[1..][k - 1..] == todo[k..];
      AheadPrefix(todo, s.items, k);
      OutcomesCompose(s.items, t.items, LoopSteps(s, w, bad, todo[..k]).items, bad, todo[..k]);
    }
  }

  lemma StopsHere(s: State, w: Worker, rest: seq<nat>, admin: Event)
    requires Working(s, w, rest) && (admin.Pause? || admin.Cancel?)
    ensures var stopped := Step(s, admin);
      var t := if rest != [] then Step(stopped, Check(w)) else Step(stopped, Finalize(w));
      && t.row.status == (if admin.Pause? then Paused else Canceled) && t.row.owner == None && PcOf(t, w) == Idle
      && t.items == s.items
  {
  }

  /** A pause or a cancel takes effect before the next item: exactly the items already
      through have their outcome, the executor is gone, and its closing update no longer
      changes the status. */
  lemma StopTakesEffect(s: State, w: Worker, chunk: nat, bad: map<nat, Ending>, k: nat, admin: Event)
    requires Inv(s) && PcOf(s, w) == Idle && Claimable(s) && (admin.Pause? || admin.Cancel?)
    requires k <= |WaitingFrom(s.items, 0, chunk)|
    ensures var t := StoppedRound(s, w, chunk, bad, k, admin);
      && t.row.status == (if admin.Pause? then Paused else Canceled) && t.row.owner == None && PcOf(t, w) == Idle
      && Outcomes(s.items, t.items, bad, WaitingFrom(s.items, 0, chunk)[..k])
  {
    var todo := WaitingFrom(s.items, 0, chunk);
    OpenedWorks(s, w, chunk);
    LoopLeaves(Opened(s, w, chunk), w, bad, todo, k);
    StopsHere(LoopSteps(Opened(s, w, chunk), w, bad, todo[..k]), w, todo[k..], admin);
  }

  // ---- Rounds one after the other ----

  function Rounds(s: State, w: Worker, chunk: nat, bad: map<nat, Ending>, n: nat): State
    decreases n
  {
    if n == 0 then s else Rounds(Round(s, w, chunk, bad), w, chunk, bad, n - 1)
  }

  function RoundsNeeded(waiting: nat, chunk: nat): nat
    requires chunk > 0
    decreases waiting
  {
    if waiting <= chunk then 1 else 1 + RoundsNeeded(waiting - chunk, chunk)
  }

  /** That is the quotient rounded up; an operation with nothing to do takes one round. */
  lemma {:induction false} RoundsNeededIsCeiling(waiting: nat, chunk: nat)
    requires chunk > 0
    ensures RoundsNeeded(waiting, chunk) == if waiting == 0 then 1 else (waiting + chunk - 1) / chunk
    decreases waiting
  {
    if waiting > chunk {
      RoundsNeededIsCeiling(waiting - chunk, chunk);
      DivideOnce(waiting + chunk - 1, chunk);
    } else if waiting > 0 {
      QuotientOne(waiting + chunk - 1, chunk);
    }
  }

  lemma {:induction false} NoneOf(items: seq<ItemStatus>, st: ItemStatus)
    ensures Count(items, st) == 0 <==> forall i :: 0 <= i < |items| ==> items[i] != st
  {
    if items != [] {
      NoneOf(items[..|items| - 1], st);
      assert items == items[..|items| - 1] + [items[|items| - 1]];
    }
  }

  lemma FinalMeansClean(items: seq<ItemStatus>, bad: map<nat, Ending>)
    ensures Count(items, Waiting) > 0 ==> FinalStatus(items) == Pending
    ensures Count(items, Waiting) == 0 ==> FinalStatus(items) == if Clean(items, bad) then Succeeded else Failed
  {
    NoneOf(items, Waiting);
    NoneOf(items, Broken);
  }

  /** What one round does to what still has to be done. */
  lemma RoundLeaves(s: State, w: Worker, chunk: nat, bad: map<nat, Ending>)
    requires Inv(s) && PcOf(s, w) == Idle && Claimable(s)
    ensures var t := Round(s, w, chunk, bad); var k := Count(s.items, Waiting);
      && Inv(t) && PcOf(t, w) == Idle
      && Count(t.items, Waiting) == (if k < chunk then 0 else k - chunk)
      && t.row.status == (if k > chunk then Pending else if Clean(s.items, bad) then Succeeded else Failed)
      && (Clean(t.items, bad) <==> Clean(s.items, bad))
  {
    var t := Round(s, w, chunk, bad);
    RoundDoes(s, w, chunk, bad);
    CleanAfter(s.items, t.items, bad);
    FinalMeansClean(t.items, bad);
  }

  lemma FirstRound(s: State, w: Worker, chunk: nat, bad: map<nat, Ending>, m: nat)
    requires m >= 1
    ensures Rounds(s, w, chunk, bad, m) == Rounds(Round(s, w, chunk, bad), w, chunk, bad, m - 1)
  {
  }

  /** What `m` rounds end with. */
  function Expected(waiting: nat, clean: bool, chunk: nat, m: nat): Status
    requires chunk > 0
  {
    if m < RoundsNeeded(waiting, chunk) then Pending else if clean then Succeeded else Failed
  }

  /** So many undisturbed rounds finish the operation and no fewer do; it succeeded
      exactly if nothing had failed and nothing still waiting fails. */
  lemma {:induction false} RoundsFinish(s: State, w: Worker, chunk: nat, bad: map<nat, Ending>, m: nat)
    requires Inv(s) && PcOf(s, w) == Idle && Claimable(s) && chunk > 0
    requires 1 <= m <= RoundsNeeded(Count(s.items, Waiting), chunk)
    ensures Rounds(s, w, chunk, bad, m).row.status == Expected(Count(s.items, Waiting), Clean(s.items, bad), chunk, m)
    decreases m
  {
    FirstRound(s, w, chunk, bad, m);
    RoundLeaves(s, w, chunk, bad);
    if m > 1 { RoundsFinish(Round(s, w, chunk, bad), w, chunk, bad, m - 1); }
  }

  predicate Clean(items: seq<ItemStatus>, bad: map<nat, Ending>) {
    forall i :: 0 <= i < |items| ==> items[i] != Broken && (items[i] == Waiting ==> EndingOf(bad, i) == Works)
  }

  lemma CleanAfter(items: seq<ItemStatus>, after: seq<ItemStatus>, bad: map<nat, Ending>)
    requires |after| == |items|
    requires forall i :: 0 <= i < |items| ==>
      after[i] == items[i] || (items[i] == Waiting && after[i] == Outcome(bad, i))
    ensures Clean(after, bad) <==> Clean(items, bad)
  {
    forall i | 0 <= i < |items|
      ensures (after[i] != Broken && (after[i] == Waiting ==> EndingOf(bad, i) == Works))
              <==> (items[i] != Broken && (items[i] == Waiting ==> EndingOf(bad, i) == Works))
    {
    }
  }
}
