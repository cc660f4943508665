/** The batch operation as the service updates it: claim, chunk loop, finalize, and
    the administrator's transitions (v3/internal/platform/batch.go). */
module BatchStore {
  import opened Options
  import opened Batch
  import opened BatchRounds

  class Operation {
    var now: int
    const lease: nat
    var status: Status
    var owner: Option<Worker>
    var leaseUntil: int
    var processed: nat
    var succeeded: nat
    var failed: nat
    var items: seq<ItemStatus>
    var effects: seq<nat>
    var retries: nat
    ghost var pcs: map<Worker, Pc>

    ghost function State(): State
      reads this
    {
      Batch.State.State(now, lease, Row(status, owner, leaseUntil, processed, succeeded, failed),
                        items, effects, pcs, retries)
    }

    ghost function At(w: Worker): Pc
      reads this
    {
      PcOf(State(), w)
    }

    method Release(next: Status)
      modifies this`status, this`owner, this`leaseUntil
      ensures Row(status, owner, leaseUntil, processed, succeeded, failed) == Released(old(State()).row, next)
    {
      status, owner, leaseUntil := next, None, 0;
    }

    /** batchTransition: pause, resume and cancel; false is the conflict answer. */
    method BatchTransition(next: Status, allowed: set<Status>) returns (ok: bool)
      modifies this
      ensures State() == Transition(old(State()), next, allowed) && ok == (old(status) in allowed)
    {
      ok := status in allowed;
      if ok {
        Release(next);
      }
    }

    method RetryBatch() returns (ok: bool)
      modifies this
      ensures State() == Step(old(State()), RetryAll) && ok == (old(status) == Failed)
    {
      ok := status == Failed;
      if ok {
        Release(Retry);
        retries := retries + 1;
        items := Reset(Broken);
      }
    }

    /** UPDATE ... SET status = 'pending' over the items with one status. */
    method Reset(from: ItemStatus) returns (after: seq<ItemStatus>)
      ensures |after| == |items|
      ensures forall i :: 0 <= i < |items| ==> after[i] == if items[i] == from then Waiting else items[i]
    {
      after := items;
      for i := 0 to |items|
        invariant |after| == |items|
        invariant forall j :: 0 <= j < i ==> after[j] == if items[j] == from then Waiting else items[j]
        invariant forall j :: i <= j < |items| ==> after[j] == items[j]
      {
        if items[i] == from {
          after := after[i := Waiting];
        }
      }
    }

    /** The claiming transaction. */
    method Claim(w: Worker) returns (ok: bool)
      requires At(w) == Idle
      modifies this
      ensures State() == Step(old(State()), Event.Claim(w))
      ensures ok == Claimable(old(State())) && At(w) == if ok then Claimed else Idle
    {
      ok := status == Pending || status == Retry || (status == Running && leaseUntil < now);
      if ok {
        status, owner, leaseUntil := Running, Some(w), now + lease;
        items := Reset(InProgress);
        pcs := pcs[w := Claimed];
      }
    }

    /** One pass of the chunk loop: check the status, process, mark a failure, renew. */
    method ProcessItem(w: Worker, ghost todo: seq<nat>, i: nat, ending: Ending)
      requires Working(State(), w, todo) && todo != [] && todo[0] == i
      modifies this
      ensures State() == ItemStep(old(State()), w, ending)
      ensures Working(State(), w, todo[1..])
    {
      ItemStepWorks(State(), w, ending, todo);
      pcs := pcs[w := Checked(todo)];
      Settle(w, todo, i, ending);
      RenewLease(w, todo);
    }

    /** processBatchItem and its error path. */
    method Settle(w: Worker, ghost todo: seq<nat>, i: nat, ending: Ending)
      requires todo != [] && todo[0] == i && At(w) == Checked(todo) && i < |items| == |effects| && items[i] == Waiting
      modifies this`items, this`effects, this`pcs
      ensures State() == Step(Step(old(State()), Process(w, ending)), Mark(w, true)) && At(w) == Renewing(todo)
    {
      if ending != Fails {
        items, effects := items[i := Done], effects[i := effects[i] + 1];
      }
      if ending != Works {
        pcs := pcs[w := if ending == Fails then Marking(todo) else Unsure(todo)];
        items := items[i := Broken];
      }
      pcs := pcs[w := Renewing(todo)];
    }

    method RenewLease(w: Worker, ghost todo: seq<nat>)
      requires todo != [] && At(w) == Renewing(todo)
      modifies this`leaseUntil, this`pcs
      ensures State() == Step(old(State()), Renew(w))
    {
      if owner == Some(w) && status == Running {
        leaseUntil := now + lease;
      }
      pcs := pcs[w := Loop(todo[1..])];
    }

    method CountItems(st: ItemStatus) returns (n: nat)
      ensures n == Count(items, st)
    {
      n := 0;
      for i := 0 to |items|
        invariant n == Count(items[..i], st)
      {
        assert items[..i + 1][..i] == items[..i];
        if items[i] == st {
          n := n + 1;
        }
      }
      assert items[..|items|] == items;
    }

    /** finalizeBatchChunk. */
    method FinalizeChunk(w: Worker)
      requires At(w) == Finalizing
      modifies this
      ensures State() == Step(old(State()), Finalize(w))
    {
      var pending := CountItems(Waiting);
      var running := CountItems(InProgress);
      var done := CountItems(Done);
      var broken := CountItems(Broken);
      pcs := pcs[w := Idle];
      if running == 0 && owner == Some(w) {
        var next := Pending;
        if pending == 0 {
          next := if broken > 0 then Failed else Succeeded;
        }
        Release(next);
        processed, succeeded, failed := done + broken, done, broken;
      }
    }

    /** The chunk query: the first waiting items in order of id. */
    method SelectChunk(chunk: nat) returns (chosen: seq<nat>)
      ensures chosen == WaitingFrom(items, 0, chunk)
    {
      chosen := [];
      var i := 0;
      while i < |items| && |chosen| < chunk
        invariant i <= |items| && |chosen| <= chunk
        invariant chosen + WaitingFrom(items, i, chunk - |chosen|) == WaitingFrom(items, 0, chunk)
      {
        if items[i] == Waiting {
          chosen := chosen + [i];
        }
        i := i + 1;
      }
    }

    /** The administrator's pause or cancel. */
    method StopBatch(admin: Event)
      requires admin.Pause? || admin.Cancel?
      modifies this
      ensures State() == Step(old(State()), admin)
    {
      if admin.Pause? {
        var _ := BatchTransition(Paused, {Pending, Retry, Running});
      } else {
        var _ := BatchTransition(Canceled, {Pending, Retry, Paused, Running, Failed});
      }
    }

    /** The status check before each item; false makes the executor leave. */
    method StillRunning(w: Worker, ghost todo: seq<nat>, stop: Option<Event>) returns (running: bool)
      requires Working(State(), w, todo) && todo != [] && (stop.Some? ==> stop.value.Pause? || stop.value.Cancel?)
      modifies this
      ensures running == stop.None?
      ensures State() == if stop.None? then old(State()) else Step(Step(old(State()), stop.value), Check(w))
    {
      if stop.Some? {
        StopBatch(stop.value);
      }
      running := status == Running;
      if !running {
        pcs := pcs[w := Idle];
      }
    }

    ghost predicate Through(started: Batch.State, w: Worker, bad: map<nat, Ending>, todo: seq<nat>, k: nat)
      requires k <= |todo|
      reads this
    {
      Working(State(), w, todo[k..]) && State() == LoopSteps(started, w, bad, todo[..k])
    }

    /** One pass of the loop. */
    method Pass(ghost started: Batch.State, w: Worker, bad: map<nat, Ending>, todo: seq<nat>, k: nat, stop: Option<Event>)
      returns (through: bool)
      requires k < |todo| && Through(started, w, bad, todo, k) && (stop.Some? ==> stop.value.Pause? || stop.value.Cancel?)
      modifies this
      ensures through == stop.None?
      ensures through ==> Through(started, w, bad, todo, k + 1)
      ensures !through ==> State() == Step(Step(LoopSteps(started, w, bad, todo[..k]), stop.value), Check(w))
    {
      through := StillRunning(w, todo[k..], stop);
      if through {
        ProcessItem(w, todo[k..], todo[k], EndingOf(bad, todo[k]));
        LoopSnoc(started, w, bad, todo[..k], todo[k]);
        assert todo[..k + 1] == todo[..k] + [todo[k]] && todo[k..][1..] == todo[k + 1..];
      }
    }

    /** The loop over the chunk. */
    method ProcessChunk(w: Worker, todo: seq<nat>, bad: map<nat, Ending>, stop: Option<(nat, Event)>) returns (through: bool)
      requires Working(State(), w, todo)
      requires stop.Some? ==> stop.value.0 <= |todo| && (stop.value.1.Pause? || stop.value.1.Cancel?)
      modifies this
      ensures through == (stop.None? || stop.value.0 == |todo|)
      ensures through ==> Through(old(State()), w, bad, todo, |todo|)
      ensures !through ==> State() == Step(Step(LoopSteps(old(State()), w, bad, todo[..stop.value.0]), stop.value.1), Check(w))
    {
      ghost var started := State();
      assert todo[0..] == todo && todo[..0] == [];
      through := true;
      for k := 0 to |todo|
        invariant Through(started, w, bad, todo, k)
        invariant through && (stop.Some? ==> stop.value.0 >= k)
      {
        through := Pass(started, w, bad, todo, k, if stop.Some? && stop.value.0 == k then Some(stop.value.1) else None);
        if !through {
          return;
        }
      }
    }

    /** ProcessNextBatch on this operation; processing ends as `bad` says. The administrator's
        pause or cancel `stop`, if any, lands before the given place in the chunk. */
    method ProcessNextBatch(w: Worker, chunk: nat, bad: map<nat, Ending>, stop: Option<(nat, Event)>) returns (claimed: bool)
      requires Inv(State()) && At(w) == Idle
      requires stop.Some? ==> stop.value.0 <= |WaitingFrom(items, 0, chunk)| && (stop.value.1.Pause? || stop.value.1.Cancel?)
      modifies this
      ensures claimed == Claimable(old(State()))
      ensures State() == if !claimed then old(State())
                         else if stop.None? then Round(old(State()), w, chunk, bad)
                         else StoppedRound(old(State()), w, chunk, bad, stop.value.0, stop.value.1)
    {
      ghost var s0 := State();
      claimed := Claim(w);
      if !claimed {
        return;
      }
      OpenedWorks(s0, w, chunk);
      NothingInProgress(s0.items);
      var todo := SelectChunk(chunk);
      pcs := pcs[w := Loop(todo)];
      assert State() == Opened(s0, w, chunk);
      var through := ProcessChunk(w, todo, bad, stop);
      if !through {
        return;
      }
      assert todo[..|todo|] == todo;
      Close(w, stop);
    }

    /** The end of a chunk that is through. */
    method Close(w: Worker, stop: Option<(nat, Event)>)
      requires At(w) == Finalizing && (stop.Some? ==> stop.value.1.Pause? || stop.value.1.Cancel?)
      modifies this
      ensures State() == Step(if stop.Some? then Step(old(State()), stop.value.1) else old(State()), Finalize(w))
    {
      if stop.Some? {
        StopBatch(stop.value.1);
      }
      FinalizeChunk(w);
    }
  }
}
