/** What administrators, the chunk query, the final count and the lease do to a batch
    operation, in terms of its columns (v3/internal/platform/batch.go). */
module BatchEffects {
  import opened Options
  import opened Batch

  /** The chunk: as many waiting items as fit, in order, and none that waits is passed over. */
  lemma {:induction false} ChunkIsFirstWaiting(items: seq<ItemStatus>, i: nat, chunk: nat)
    requires i <= |items|
    ensures var r := WaitingFrom(items, i, chunk);
      && |r| <= chunk
      && (forall k :: 0 <= k < |r| ==> i <= r[k] < |items| && items[r[k]] == Waiting)
      && (forall k, l :: 0 <= k < l < |r| ==> r[k] < r[l])
      && (forall j :: i <= j < |items| && items[j] == Waiting && j !in r ==> |r| == chunk && forall k :: 0 <= k < |r| ==> r[k] < j)
    decreases |items| - i
  {
    if i < |items| && chunk > 0 {
      if items[i] == Waiting {
        ChunkIsFirstWaiting(items, i + 1, chunk - 1);
        var rest := WaitingFrom(items, i + 1, chunk - 1);
        assert WaitingFrom(items, i, chunk) == [i] + rest;
        forall j | i <= j < |items| && items[j] == Waiting && j !in [i] + rest ensures j > i && j !in rest { }
      } else {
        ChunkIsFirstWaiting(items, i + 1, chunk);
      }
    }
  }

  /** Where an administrator's request leads, and from where it is allowed. */
  predicate Leads(e: Event, from: Status, to: Status) {
    || (e.Pause? && from in {Pending, Running, Retry} && to == Paused)
    || (e.Resume? && from == Paused && to == Pending)
    || (e.Cancel? && from !in {Succeeded, Canceled} && to == Canceled)
    || (e.RetryAll? && from == Failed && to == Retry)
  }

  /** Any of these requests, when allowed, changes the status and takes the operation from its
      owner; a retry also lets every failed item wait again. Effects and counters stay, and a
      request that is not allowed changes nothing. */
  lemma AdministratorsDo(s: State, e: Event)
    requires e.Pause? || e.Resume? || e.Cancel? || e.RetryAll?
    ensures var t := Step(s, e);
      if exists to :: Leads(e, s.row.status, to) then
        && Leads(e, s.row.status, t.row.status) && t.row == s.row.(status := t.row.status, owner := None, leaseUntil := 0)
        && |t.items| == |s.items| && t.effects == s.effects && t.pcs == s.pcs && t.now == s.now
        && forall i :: 0 <= i < |s.items| ==> t.items[i] == if e.RetryAll? && s.items[i] == Broken then Waiting else s.items[i]
      else t == s
  {
    assert Leads(e, s.row.status, if e.Pause? then Paused else if e.Resume? then Pending else if e.Cancel? then Canceled else Retry)
           <==> exists to :: Leads(e, s.row.status, to);
  }

  lemma {:induction false} CountedOnce(items: seq<ItemStatus>)
    ensures Count(items, Waiting) + Count(items, InProgress) + Count(items, Done) + Count(items, Broken) == |items|
    ensures forall st :: Count(items, st) == 0 <==> st !in items
  {
    if items != [] {
      CountedOnce(items[..|items| - 1]);
      assert items == items[..|items| - 1] + [items[|items| - 1]];
    }
  }

  /** The final count of a chunk: only the owner writes it, and only if no item is in progress.
      Then the operation waits for its next chunk if an item does, and otherwise has succeeded
      exactly if every item is done; its counters account for every item. */
  lemma FinalizeDoes(s: State, w: Worker)
    requires PcOf(s, w) == Finalizing
    ensures var t := Step(s, Finalize(w));
      && t.items == s.items && t.effects == s.effects
      && (s.row.owner != Some(w) || InProgress in s.items ==> t.row == s.row)
      && (s.row.owner == Some(w) && InProgress !in s.items ==>
            && t.row.owner == None
            && t.row.status == (if Waiting in s.items then Pending else if forall i :: 0 <= i < |s.items| ==> s.items[i] == Done then Succeeded else Failed)
            && t.row.succeeded == Count(s.items, Done) && t.row.processed == |s.items| - Count(s.items, Waiting)
            && t.row.processed == t.row.succeeded + t.row.failed)
  {
    CountedOnce(s.items);
    if Waiting !in s.items && InProgress !in s.items && Broken !in s.items {
      forall i | 0 <= i < |s.items| ensures s.items[i] == Done { assert s.items[i] in s.items; }
    }
    if Broken in s.items {
      var i :| 0 <= i < |s.items| && s.items[i] == Broken;
    }
  }

  predicate CanClaim(s: State, v: Worker) {
    PcOf(s, v) == Idle && Step(s, Claim(v)).row.owner == Some(v) && PcOf(Step(s, Claim(v)), v) == Claimed
  }

  /** An operation that waits can be claimed by anybody, one that runs exactly when its lease
      has run out since the last renewal, and no other. */
  lemma ClaimedExactlyWhen(s: State, v: Worker)
    requires PcOf(s, v) == Idle && s.row.owner != Some(v)
    ensures CanClaim(s, v) <==> s.row.status in {Pending, Retry} || (s.row.status == Running && s.row.leaseUntil < s.now)
  {
  }

  /** After a claim or a renewal by the owner the lease protects it for its whole length. */
  lemma LeaseEndsExactlyWhen(s: State, w: Worker, v: Worker, d: nat, renewed: bool)
    requires v != w && PcOf(s, v) == Idle && Inv(s)
    requires if renewed then PcOf(s, w).Renewing? && PcOf(s, w).todo != [] && s.row.owner == Some(w) else CanClaim(s, w)
    ensures var t := Step(s, if renewed then Renew(w) else Claim(w));
      t.row.owner == Some(w) && (CanClaim(Step(t, Tick(d)), v) <==> d > s.lease)
  {
    var t := Step(s, if renewed then Renew(w) else Claim(w));
    assert t.row.status == Running && t.row.leaseUntil == s.now + s.lease;
    ClaimedExactlyWhen(Step(t, Tick(d)), v);
  }
}
