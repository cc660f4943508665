/** What provisioning promises over every run (provision in v3/internal/platform/worker.go). */
module ProvisionLaws {
  import opened Options
  import opened Provision

  /** However the attempts interleave, crash and lose replies, and whoever else takes the
      name: there is never a second user of it, none is created before the preflight is
      durable, every id the service recorded or bound is that user's, a user it bound has
      been given its password, and a succeeded request's user has a binding. */
  lemma AtMostOneUser(s: State, name: string, events: seq<Event>)
    requires Start(s) && Named(s.users, name) == None
    ensures var t := Run(s, name, events);
      && t.creations <= Count(t.users, name) <= 1
      && (t.creations == 1 || t.sent != multiset{} ==> t.preflight)
      && (t.known.Some? ==> Named(t.users, name) == t.known)
      && (t.made.Some? ==> Named(t.users, name) == t.made && t.made.value in t.passwords && t.made.value in t.bindings)
      && (t.status == Succeeded ==> t.known.Some? && t.known.value in t.bindings)
      && OneOwn(t.bindings)
  {
    StartIsOk(s, name);
    RunKeeps(s, name, events);
  }

  /** Once the request has bound a user, that binding stays, the user keeps the name, and
      nothing more is created. */
  lemma BindingIsFinal(s: State, name: string, events: seq<Event>, more: seq<Event>)
    requires Start(s) && Named(s.users, name) == None && Run(s, name, events).made.Some?
    ensures var t := Run(s, name, events); var u := Run(t, name, more);
      u.made == t.made && u.creations == t.creations && Named(u.users, name) == t.made && BindingsGrow(t.bindings, u.bindings)
  {
    StartIsOk(s, name);
    RunKeeps(s, name, events);
    RunKeeps(Run(s, name, events), name, more);
  }

  /** The id of a user that the service created is durable from the statement that records it
      on: no later step of anybody loses or changes it. */
  lemma RecordedIdStays(s: State, name: string, events: seq<Event>, w: Worker, more: seq<Event>)
    requires Start(s) && Named(s.users, name) == None && PcOf(Run(s, name, events), w).Created?
    ensures var t := Run(s, name, events);
      Step(t, name, Record(w)).known == Some(PcOf(t, w).id) && Run(Step(t, name, Record(w)), name, more).known == Some(PcOf(t, w).id)
  {
    StartIsOk(s, name);
    RunKeeps(s, name, events);
    var t := Run(s, name, events);
    StepKeeps(t, name, Record(w));
    RunKeeps(Step(t, name, Record(w)), name, more);
  }

  /** The user an attempt goes on with: the recorded id if the server lists it, and otherwise
      the first user of the name, if there is one. */
  lemma ChosenUser(users: seq<User>, name: string, known: Option<UserId>)
    ensures var r := Chosen(users, name, known);
      if exists i :: 0 <= i < |users| && Some(users[i].id) == known then r == known
      else if exists i :: 0 <= i < |users| && users[i].name == name then
        exists i :: 0 <= i < |users| && r == Some(users[i].id) && users[i].name == name && forall j :: 0 <= j < i ==> users[j].name != name
      else r == None
  {
    FirstNamed(users, name);
  }

  lemma {:induction false} FirstNamed(users: seq<User>, name: string)
    ensures if exists i :: 0 <= i < |users| && users[i].name == name then
        exists i :: 0 <= i < |users| && Named(users, name) == Some(users[i].id) && users[i].name == name
                    && forall j :: 0 <= j < i ==> users[j].name != name
      else Named(users, name) == None
  {
    NamedFinds(users, name);
    if users != [] {
      if users[0].name == name {
        assert Named(users, name) == Some(users[0].id);
      } else {
        FirstNamed(users[1..], name);
        if i :| 0 <= i < |users[1..]| && Named(users[1..], name) == Some(users[1..][i].id) && users[1..][i].name == name
                && forall j :: 0 <= j < i ==> users[1..][j].name != name {
          forall j | 0 <= j < i + 1 ensures users[j].name != name {
            if j > 0 { assert users[1..][j - 1].name != name; }
          }
          assert users[i + 1].name == name;
        }
      }
    }
  }

  // ---- Whose user it is ----

  predicate Takes(s: State, name: string, e: Event) {
    e.TakeName? && e.id !in s.issued && Named(s.users, name) == None
  }

  /** Somebody else took the name at some point. */
  predicate NameTaken(s: State, name: string, events: seq<Event>) {
    events != [] &&
    var front := events[..|events| - 1];
    NameTaken(s, name, front) || Takes(Run(s, name, front), name, events[|events| - 1])
  }

  lemma TakingIsFinal(s: State, name: string, e: Event)
    requires Inv(s, name)
    ensures var t := Step(s, name, e);
      Named(t.users, name).Some? && t.creations == 0 <==> (Named(s.users, name).Some? && s.creations == 0) || Takes(s, name, e)
  {
    StepKeeps(s, name, e);
    CountZero(s.users, name);
    match e
    case Arrive(w, id, _) => Added(s.users, User(id, name), name);
    case TakeName(id) => Added(s.users, User(id, name), name);
    case AddOther(id, other) => Added(s.users, User(id, other), name);
    case RemoveOther(at) => if at < |s.users| && s.users[at].name != name { Removed(s.users, at, name); }
    case _ => SameUsers(s, name, e);
  }

  lemma SameUsers(s: State, name: string, e: Event)
    requires !e.Arrive? && !e.TakeName? && !e.AddOther? && !e.RemoveOther?
    ensures Step(s, name, e).users == s.users && Step(s, name, e).creations == s.creations
  {
  }

  /** The name's user was not created here exactly when somebody else took the name first. */
  lemma {:induction false} HeldByOther(s: State, name: string, events: seq<Event>)
    requires Start(s) && Named(s.users, name) == None
    ensures var t := Run(s, name, events);
      Named(t.users, name).Some? && t.creations == 0 <==> NameTaken(s, name, events)
  {
    if events != [] {
      var front := events[..|events| - 1];
      HeldByOther(s, name, front);
      StartIsOk(s, name);
      RunKeeps(s, name, front);
      TakingIsFinal(Run(s, name, front), name, events[|events| - 1]);
    }
  }

  // ---- When the request shows success ----

  /** This step is a closing transaction that goes through. */
  predicate Closes(s: State, e: Event) {
    e.Bind? && PcOf(s, e.w).PasswordSet? && Bindable(s, PcOf(s, e.w).id)
  }

  /** This step reports a failure: of an attempt under way, or by refusing the listed user. */
  predicate Reports(s: State, name: string, e: Event) {
    || (e.Fail? && PcOf(s, e.w) != Idle)
    || (e.List? && PcOf(s, e.w).Loaded? && !PcOf(s, e.w).preflight && Chosen(s.users, name, PcOf(s, e.w).known).Some?)
  }

  /** Some closing transaction has gone through. */
  predicate WasClosed(s: State, name: string, events: seq<Event>) {
    events != [] &&
    var front := events[..|events| - 1];
    WasClosed(s, name, front) || Closes(Run(s, name, front), events[|events| - 1])
  }

  /** A failure was reported after the last closing transaction. */
  predicate FailedSince(s: State, name: string, events: seq<Event>) {
    events != [] &&
    var front, e := events[..|events| - 1], events[|events| - 1];
    && !Closes(Run(s, name, front), e)
    && (FailedSince(s, name, front) || Reports(Run(s, name, front), name, e))
  }

  lemma SuccessStep(s: State, name: string, e: Event)
    ensures Step(s, name, e).status == Succeeded <==> Closes(s, e) || (s.status == Succeeded && !Reports(s, name, e))
  {
  }

  /** fail() does not ask who owns the task: after any run the request shows `succeeded`
      exactly when it was closed and no attempt, stale or not, has reported a failure since. */
  lemma {:induction false} SuccessLostExactlyWhen(s: State, name: string, events: seq<Event>)
    requires Start(s)
    ensures Run(s, name, events).status == Succeeded <==> WasClosed(s, name, events) && !FailedSince(s, name, events)
  {
    if events != [] {
      SuccessLostExactlyWhen(s, name, events[..|events| - 1]);
      SuccessStep(Run(s, name, events[..|events| - 1]), name, events[|events| - 1]);
    }
  }

  // ---- A name that was taken at the start ----

  predicate Refused(s: State, name: string, pc: Pc) {
    pc == Idle || pc == Loaded(false, None)
  }

  ghost predicate Untouched(s: State, name: string, id: UserId) {
    && Named(s.users, name) == Some(id)
    && !s.preflight && s.known == None && s.made == None && s.sent == multiset{} && s.creations == 0
    && s.status != Succeeded
    && (forall w: Worker :: Refused(s, name, PcOf(s, w)))
  }

  lemma UntouchedByOthers(s: State, name: string, id: UserId, e: Event)
    requires Untouched(s, name, id) && (e.AddOther? || e.RemoveOther?)
    ensures Untouched(Step(s, name, e), name, id)
  {
    var t := Step(s, name, e);
    if e.RemoveOther? && t != s { Removed(s.users, e.at, name); }
    if e.AddOther? && t != s { Added(s.users, User(e.id, e.other), name); }
    assert forall w: Worker :: PcOf(t, w) == PcOf(s, w);
  }

  lemma UntouchedStep(s: State, name: string, id: UserId, e: Event)
    requires Untouched(s, name, id)
    ensures Untouched(Step(s, name, e), name, id)
  {
    if e.AddOther? || e.RemoveOther? {
      UntouchedByOthers(s, name, id, e);
    } else {
      var t := Step(s, name, e);
      assert t.users == s.users;
      forall w: Worker ensures Refused(t, name, PcOf(t, w)) { assert Refused(s, name, PcOf(s, w)); }
    }
  }

  /** A user who had the name before the first listing is never adopted, whatever
      is retried, and the service creates nothing. */
  lemma {:induction false} ExistingUserIsNeverAdopted(s: State, name: string, id: UserId, events: seq<Event>)
    requires Start(s) && Named(s.users, name) == Some(id)
    ensures Untouched(Run(s, name, events), name, id)
  {
    if events != [] {
      ExistingUserIsNeverAdopted(s, name, id, events[..|events| - 1]);
      UntouchedStep(Run(s, name, events[..|events| - 1]), name, id, events[|events| - 1]);
    }
  }
}
