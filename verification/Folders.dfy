/** Entitlement syncs of one Emby account against its remote folder policy
    (syncEntitlement in v3/internal/platform/worker.go). */
module Folders {
  import opened FolderSets

  /** The row of emby_policy_management. The baseline is never rewritten. */
  datatype Management = Unmanaged | Managed(baseline: seq<string>, last: seq<string>)

  /** `all` and `remote` are EnableAllFolders and EnabledFolders of the remote policy. */
  datatype Policy = Policy(all: bool, remote: seq<string>, row: Management)

  function Baseline(st: Policy): set<string> {
    if st.row.Managed? then Items(st.row.baseline) else Items(st.remote)
  }

  function LastManaged(st: Policy): set<string> {
    if st.row.Managed? then Items(st.row.last) else {}
  }

  /** Folders nobody but an administrator can have put there since the last sync. */
  function Foreign(st: Policy): set<string> {
    Items(st.remote) - LastManaged(st)
  }

  function Desired(st: Policy, managed: seq<string>): set<string> {
    Baseline(st) + Foreign(st) + Items(managed)
  }

  /** The remote write of a sync, not yet recorded. */
  ghost function Write(st: Policy, managed: seq<string>): Policy {
    st.(all := false, remote := SortedList(Desired(st, managed)))
  }

  /** A completed sync with these entitled folders. */
  ghost function Sync(st: Policy, managed: seq<string>): Policy {
    var baseline := if st.row.Managed? then st.row.baseline else SortedList(Items(st.remote));
    Write(st, managed).(row := Managed(baseline, managed))
  }

  /** Syncs that completed, syncs whose remote write took effect but were never
      recorded, and edits of the remote policy by an administrator. */
  datatype Event = Completed(managed: seq<string>) | Unrecorded(managed: seq<string>) | Edited(all: bool, folders: seq<string>)

  ghost function Step(st: Policy, e: Event): Policy {
    match e
    case Completed(managed) => Sync(st, managed)
    case Unrecorded(managed) => Write(st, managed)
    case Edited(all, folders) => st.(all := all, remote := folders)
  }

  ghost function Run(st: Policy, events: seq<Event>): Policy {
    if events == [] then st else Step(Run(st, events[..|events| - 1]), events[|events| - 1])
  }

  ghost function Syncs(st: Policy, lists: seq<seq<string>>): Policy {
    if lists == [] then st else Sync(Syncs(st, lists[..|lists| - 1]), lists[|lists| - 1])
  }

  // ---- The sync as the worker performs it ----

  class Account {
    var all: bool
    var remote: seq<string>
    var row: Management

    ghost function State(): Policy
      reads this
    {
      Policy(all, remote, row)
    }

    /** policyFolders, decodeStringList: what a stored list is read as. */
    method ReadFolders(values: seq<string>) returns (result: seq<string>)
      ensures result == SortedList(Items(values)) && Clean(result)
    {
      result := MergeFolderSets([values]);
      assert [values][..0] == [];
      assert ItemsOfAll([values]) == Items(values);
      ItemsAreClean(result, values);
    }

    /** `written`: the remote call took effect; `reported`: it said so; `recorded`: the row then committed. */
    method SyncEntitlement(managed: seq<string>, written: bool, reported: bool, recorded: bool) returns (ok: bool)
      modifies this
      ensures ok == (written && reported && recorded)
      ensures State() == if !written then old(State())
                         else if ok then Sync(old(State()), managed) else Write(old(State()), managed)
    {
      ghost var st := State();
      var current := ReadFolders(remote);
      var baseline, last := current, [];
      if row.Managed? {
        baseline := ReadFolders(row.baseline);
        last := ReadFolders(row.last);
      }
      var kept := SubtractFolderSet(current, last);
      var desired := MergeFolderSets([baseline, kept, managed]);
      DesiredIsMerged(st, current, baseline, last, kept, managed);
      if !written {
        return false;
      }
      all, remote := false, desired;
      if !reported || !recorded {
        return false;
      }
      row := Managed(if row.Managed? then row.baseline else baseline, managed);
      ok := true;
    }
  }

  lemma DesiredIsMerged(st: Policy, current: seq<string>, baseline: seq<string>, last: seq<string>,
                        kept: seq<string>, managed: seq<string>)
    requires current == SortedList(Items(st.remote)) && Clean(current)
    requires Clean(baseline) && Elements(baseline) == Baseline(st)
    requires Elements(last) == LastManaged(st) && kept == Without(current, Elements(last))
    ensures ItemsOfAll([baseline, kept, managed]) == Desired(st, managed)
  {
    var groups := [baseline, kept, managed];
    assert groups[..2] == [baseline, kept] && [baseline, kept][..1] == [baseline] && [baseline][..0] == [];
    assert ItemsOfAll([baseline]) == Items(baseline);
    CleanItems(baseline);
    CleanItems(current);
    CleanWithout(current, Elements(last));
    CleanItems(kept);
    WithoutElements(current, Elements(last));
  }

  // ---- What one sync leaves ----

  /** Reading back a list the service wrote. */
  lemma ItemsOfSorted(s: set<string>, xs: seq<string>)
    requires s <= Items(xs)
    ensures Items(SortedList(s)) == s
  {
    ItemsAreClean(SortedList(s), xs);
    CleanItems(SortedList(s));
  }

  lemma ItemsOfConcat(xs: seq<string>, ys: seq<string>)
    ensures Items(xs + ys) == Items(xs) + Items(ys)
  {
    assert forall x :: x in xs + ys <==> x in xs || x in ys;
  }

  lemma WriteHolds(st: Policy, managed: seq<string>)
    ensures Items(Write(st, managed).remote) == Desired(st, managed)
    ensures Ascending(Write(st, managed).remote)
  {
    var b := if st.row.Managed? then st.row.baseline else st.remote;
    ItemsOfConcat(b + st.remote, managed);
    ItemsOfConcat(b, st.remote);
    ItemsOfSorted(Desired(st, managed), b + st.remote + managed);
  }

  lemma SyncHolds(st: Policy, managed: seq<string>)
    ensures var after := Sync(st, managed);
      && Items(after.remote) == Desired(st, managed)
      && Baseline(after) == Baseline(st) && LastManaged(after) == Items(managed) && after.row.Managed?
  {
    WriteHolds(st, managed);
    ItemsOfSorted(Items(st.remote), st.remote);
  }

  /** Running the same sync again changes nothing at all. */
  lemma SyncIsIdempotent(st: Policy, managed: seq<string>)
    ensures Sync(Sync(st, managed), managed) == Sync(st, managed)
  {
    var once := Sync(st, managed);
    SyncHolds(st, managed);
    assert Desired(once, managed) == Desired(st, managed);
  }

  // ---- Closed form ----

  /** Everything managed by one of the syncs. */
  function EverManaged(lists: seq<seq<string>>): set<string> {
    if lists == [] then {} else EverManaged(lists[..|lists| - 1]) + Items(lists[|lists| - 1])
  }

  /** After the syncs: baseline, what the last one manages, and whatever else was
      there before the first and was never managed by an earlier one. */
  lemma {:induction false} SyncsClosedForm(st: Policy, lists: seq<seq<string>>)
    requires lists != []
    ensures var after, earlier := Syncs(st, lists), lists[..|lists| - 1];
      && Ascending(after.remote) && !after.all
      && Elements(after.remote) == Baseline(st) + Items(lists[|lists| - 1]) + (Foreign(st) - EverManaged(earlier))
      && Items(after.remote) == Elements(after.remote)
      && Baseline(after) == Baseline(st) && LastManaged(after) == Items(lists[|lists| - 1]) && after.row.Managed?
  {
    var earlier, last := lists[..|lists| - 1], lists[|lists| - 1];
    var before := Syncs(st, earlier);
    if earlier != [] { SyncsClosedForm(st, earlier); }
    SyncHolds(before, last);
    assert Foreign(before) <= Baseline(st) + (Foreign(st) - EverManaged(earlier));
  }

  /** When nobody else edits the policy, the list is exactly baseline and entitlements. */
  lemma UneditedIsBaselineAndManaged(st: Policy, lists: seq<seq<string>>)
    requires lists != [] && st.row.Unmanaged?
    ensures Syncs(st, lists).remote == SortedList(Items(st.remote) + Items(lists[|lists| - 1]))
  {
    SyncsClosedForm(st, lists);
    ListIsUnique(Syncs(st, lists).remote, SortedList(Items(st.remote) + Items(lists[|lists| - 1])));
  }

  // ---- Any run of syncs and edits ----

  /** What the row must say after these events. */
  ghost predicate Tracks(st: Policy, events: seq<Event>, after: Policy) {
    && (st.row.Managed? ==> after.row.Managed? && Baseline(after) == Baseline(st))
    && (forall i :: 0 <= i < |events| && events[i].Completed? ==> after.row.Managed?)
  }

  lemma {:induction false} BaselineIsPermanent(st: Policy, events: seq<Event>)
    ensures Tracks(st, events, Run(st, events))
  {
    if events != [] {
      var front, last := events[..|events| - 1], events[|events| - 1];
      BaselineIsPermanent(st, front);
      if last.Completed? { SyncHolds(Run(st, front), last.managed); }
      assert forall i :: 0 <= i < |front| ==> front[i] == events[i];
    }
  }

  /** Edits in any order: baseline and managed folders are present after each sync;
      a folder managed by the previous sync, outside the baseline and no longer
      managed, is gone; a folder an administrator added since then stays. */
  lemma SyncAmongEdits(st: Policy, events: seq<Event>, managed: seq<string>, folder: string)
    requires st.row.Managed?
    ensures var before := Run(st, events); var after := Sync(before, managed);
      && (folder in Baseline(st) || folder in Items(managed) ==> folder in after.remote)
      && (folder in LastManaged(before) && folder !in Baseline(st) && folder !in Items(managed) ==> folder !in after.remote)
      && (folder in Items(before.remote) && folder !in LastManaged(before) ==> folder in after.remote)
      && (folder in after.remote ==> folder in Baseline(st) || folder in Items(managed) || folder in Items(before.remote))
  {
    BaselineIsPermanent(st, events);
    var before := Run(st, events);
    WriteHolds(before, managed);
    assert Elements(Sync(before, managed).remote) == Desired(before, managed);
    assert folder in Elements(Sync(before, managed).remote) <==> folder in Sync(before, managed).remote;
  }

  predicate NeverManages(events: seq<Event>, folder: string) {
    forall i :: 0 <= i < |events| ==>
      match events[i]
      case Completed(managed) => folder !in Items(managed)
      case Unrecorded(managed) => folder !in Items(managed)
      case Edited(_, folders) => folder in Items(folders)
  }

  /** An administrator's folder survives every later sync, recorded or not, until
      it is edited away or becomes managed. */
  lemma {:induction false} AdminFolderSurvives(st: Policy, events: seq<Event>, folder: string)
    requires folder in Items(st.remote) && folder !in LastManaged(st) && NeverManages(events, folder)
    ensures folder in Items(Run(st, events).remote) && folder !in LastManaged(Run(st, events))
  {
    if events != [] {
      var front, last := events[..|events| - 1], events[|events| - 1];
      assert forall i :: 0 <= i < |front| ==> front[i] == events[i];
      AdminFolderSurvives(st, front, folder);
      var before := Run(st, front);
      match last
      case Completed(managed) => SyncHolds(before, managed);
      case Unrecorded(managed) => WriteHolds(before, managed);
      case Edited(_, _) =>
    }
  }

  // ---- A write that was never recorded ----

  ghost function Writes(st: Policy, lists: seq<seq<string>>): Policy {
    if lists == [] then st else Write(Writes(st, lists[..|lists| - 1]), lists[|lists| - 1])
  }

  lemma {:induction false} WritesKeepRow(st: Policy, lists: seq<seq<string>>)
    ensures Writes(st, lists).row == st.row
  {
    if lists != [] { WritesKeepRow(st, lists[..|lists| - 1]); }
  }

  lemma WriteAdds(st: Policy, managed: seq<string>)
    requires st.row.Managed?
    ensures Write(st, managed).row == st.row
    ensures Baseline(st) + Foreign(Write(st, managed)) == Baseline(st) + Foreign(st) + (Items(managed) - LastManaged(st))
  {
    WriteHolds(st, managed);
  }

  lemma {:induction false} WritesAdd(st: Policy, lists: seq<seq<string>>)
    requires st.row.Managed?
    ensures Baseline(st) + Foreign(Writes(st, lists))
            == Baseline(st) + Foreign(st) + (EverManaged(lists) - LastManaged(st))
  {
    if lists != [] {
      var front, last := lists[..|lists| - 1], lists[|lists| - 1];
      WritesAdd(st, front);
      WritesKeepRow(st, front);
      WriteAdds(Writes(st, front), last);
      assert (EverManaged(front) - LastManaged(st)) + (Items(last) - LastManaged(st)) == EverManaged(lists) - LastManaged(st);
    }
  }

  /** Two accounts with the same row end alike exactly when they want the same folders. */
  lemma SameOutcome(st: Policy, half: Policy, managed: seq<string>)
    requires st.row.Managed? && half.row == st.row
    ensures Sync(half, managed) == Sync(st, managed) <==> Desired(half, managed) == Desired(st, managed)
  {
    WriteHolds(half, managed);
    WriteHolds(st, managed);
  }

  /** The next completed sync repairs any number of unrecorded writes exactly when
      each folder they added is still wanted: in the baseline, in the policy on its
      own account, already known as managed, or entitled now. */
  lemma RepairedExactlyWhen(st: Policy, lists: seq<seq<string>>, managed: seq<string>)
    requires st.row.Managed?
    ensures Sync(Writes(st, lists), managed) == Sync(st, managed)
            <==> EverManaged(lists) - LastManaged(st) <= Desired(st, managed)
  {
    var half := Writes(st, lists);
    WritesKeepRow(st, lists);
    WritesAdd(st, lists);
    SameOutcome(st, half, managed);
    var added := EverManaged(lists) - LastManaged(st);
    assert Desired(half, managed) == Desired(st, managed) + added;
  }

  /** In particular retrying with the same entitlements always repairs. */
  lemma RetryRepairs(st: Policy, managed: seq<string>)
    requires st.row.Managed?
    ensures Sync(Write(st, managed), managed) == Sync(st, managed)
  {
    assert [managed][..0] == [];
    assert Writes(st, [managed]) == Write(Writes(st, []), managed);
    assert EverManaged([managed]) == Items(managed);
    RepairedExactlyWhen(st, [managed], managed);
  }

  /** On an account that was never synced, an unrecorded write is taken for the
      baseline: the repair is exact only if it added nothing. */
  lemma FirstWriteRepairedExactlyWhen(st: Policy, lost: seq<string>, managed: seq<string>)
    requires st.row.Unmanaged?
    ensures Sync(Write(st, lost), managed) == Sync(st, managed) <==> Items(lost) <= Items(st.remote)
  {
    var half := Write(st, lost);
    WriteHolds(st, lost);
    WriteHolds(half, managed);
    WriteHolds(st, managed);
    assert Items(half.remote) == Items(st.remote) + Items(lost);
    if Items(lost) <= Items(st.remote) {
      assert Items(half.remote) == Items(st.remote);
      assert Desired(half, managed) == Desired(st, managed);
    } else {
      assert Elements(SortedList(Items(half.remote))) != Elements(SortedList(Items(st.remote)));
    }
  }

  /** The folder it added can then never be revoked by any later sync. */
  lemma LostFirstWriteIsPermanent(st: Policy, lost: seq<string>, managed: seq<string>, lists: seq<seq<string>>, folder: string)
    requires st.row.Unmanaged? && folder in Items(lost) && lists != []
    ensures folder in Items(Syncs(Write(st, lost), lists).remote)
  {
    WriteHolds(st, lost);
    SyncsClosedForm(Write(st, lost), lists);
  }
}
