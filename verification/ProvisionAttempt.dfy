/** One provisioning attempt: the statements a worker executes, exactly when an attempt
    left alone succeeds, and what the protocol does not protect against. */
module ProvisionAttempt {
  import opened Options
  import opened Provision
  import opened ProvisionLaws

  // ---- An attempt nobody disturbs ----

  function Listed(s: State, name: string, w: Worker): State {
    Step(Step(Step(s, name, Load(w)), name, List(w)), name, Mark(w))
  }

  /** Load, list, and, when there is no such user yet, reserve and create one. */
  function Reached(s: State, name: string, w: Worker, id: UserId): State {
    Step(Step(Step(Listed(s, name, w), name, Send(w)), name, Arrive(w, id, true)), name, Record(w))
  }

  function Attempt(s: State, name: string, w: Worker, id: UserId): State {
    Step(Step(Reached(s, name, w, id), name, SetPassword(w)), name, Bind(w, true))
  }

  predicate Ready(s: State, w: Worker, id: UserId) {
    PcOf(s, w) == Idle && id !in s.issued
  }

  /** The user an attempt works on: whoever has the name, or the one it creates. */
  function Target(s: State, name: string, id: UserId): UserId {
    if Named(s.users, name).Some? then Named(s.users, name).value else id
  }

  /** An attempt refuses a user who was there before anything was reserved. */
  predicate Allowed(s: State, name: string) {
    Named(s.users, name) == None || s.preflight
  }

  lemma ListingDecides(s: State, name: string, w: Worker, id: UserId)
    requires Inv(s, name) && Ready(s, w, id)
    ensures var t := Listed(s, name, w);
      && t.users == s.users && t.active == s.active && t.issued == s.issued && t.bindings == s.bindings
      && t.creations == s.creations && t.sent == s.sent
      && PcOf(t, w) == (if Named(s.users, name) == None then Reserved
                        else if s.preflight then Recorded(Named(s.users, name).value) else Idle)
      && (if Allowed(s, name) then t.preflight else t.status == Failed)
  {
    ChosenIsHolder(s, name, s.known);
    var loaded := Step(s, name, Load(w));
    assert PcOf(loaded, w) == Loaded(s.preflight, s.known);
    if Named(s.users, name).Some? {
      var listed := Step(loaded, name, List(w));
      assert PcOf(listed, w) == (if s.preflight then Recorded(Named(s.users, name).value) else Idle);
      assert Step(listed, name, Mark(w)) == listed;
    }
  }

  lemma CreationCompletes(s: State, name: string, w: Worker, id: UserId)
    requires PcOf(s, w) == Reserved && Named(s.users, name) == None && id !in s.issued
    ensures var t := Step(Step(Step(s, name, Send(w)), name, Arrive(w, id, true)), name, Record(w));
      && PcOf(t, w) == Recorded(id) && t.active == s.active && t.bindings == s.bindings
      && t.creations == s.creations + 1 && t.users == s.users + [User(id, name)]
      && t.preflight == s.preflight && t.issued == s.issued + {id}
  {
  }

  /** A worker with nothing to create does not disturb the rest of its attempt. */
  lemma NothingToCreate(s: State, name: string, w: Worker, id: UserId)
    requires PcOf(s, w).Recorded? || PcOf(s, w) == Idle
    requires Named(s.users, name).Some?
    ensures var t := Step(Step(Step(s, name, Send(w)), name, Arrive(w, id, true)), name, Record(w));
      t == s.(sent := t.sent)
  {
    assert Step(s, name, Send(w)) == s;
    var arrived := Step(s, name, Arrive(w, id, true));
    assert arrived == s.(sent := arrived.sent) && Step(arrived, name, Record(w)) == arrived;
  }

  lemma ReachesTarget(s: State, name: string, w: Worker, id: UserId)
    requires Inv(s, name) && Ready(s, w, id)
    ensures var t := Reached(s, name, w, id);
      && t.active == s.active && t.bindings == s.bindings
      && PcOf(t, w) == (if Allowed(s, name) then Recorded(Target(s, name, id)) else Idle)
      && (if Allowed(s, name) then t.preflight else t.status == Failed)
      && Named(t.users, name) == Some(Target(s, name, id))
      && t.issued == (if Named(s.users, name) == None then s.issued + {id} else s.issued)
      && t.creations == s.creations + if Named(s.users, name) == None then 1 else 0
  {
    ListingDecides(s, name, w, id);
    var listed := Listed(s, name, w);
    if Named(s.users, name) == None {
      CreationCompletes(listed, name, w, id);
      Added(s.users, User(id, name), name);
    } else {
      NothingToCreate(listed, name, w, id);
    }
  }

  lemma ListedKeeps(s: State, name: string, w: Worker)
    requires Inv(s, name)
    ensures Inv(Listed(s, name, w), name)
  {
    var loaded := Step(s, name, Load(w));
    StepKeeps(s, name, Load(w));
    StepKeeps(loaded, name, List(w));
    StepKeeps(Step(loaded, name, List(w)), name, Mark(w));
  }

  lemma ReachedKeeps(s: State, name: string, w: Worker, id: UserId)
    requires Inv(s, name)
    ensures Inv(Reached(s, name, w, id), name)
  {
    ListedKeeps(s, name, w);
    var listed := Listed(s, name, w);
    StepKeeps(listed, name, Send(w));
    var sending := Step(listed, name, Send(w));
    StepKeeps(sending, name, Arrive(w, id, true));
    StepKeeps(Step(sending, name, Arrive(w, id, true)), name, Record(w));
  }

  lemma ClosingDecides(s: State, name: string, w: Worker)
    requires Inv(s, name) && PcOf(s, w).Recorded? && Named(s.users, name) == Some(PcOf(s, w).id)
    ensures var id := PcOf(s, w).id; var t := Step(Step(s, name, SetPassword(w)), name, Bind(w, true));
      && (t.status == Succeeded <==> Bindable(s, id))
      && t.users == s.users && t.creations == s.creations && id in t.passwords
      && (Bindable(s, id) ==> PcOf(t, w) == Idle)
      && (Bindable(s, id) ==> t.known == Some(id) && t.bindings == if id in s.bindings then s.bindings else s.bindings[id := true])
      && (Bindable(s, id) && id !in s.bindings ==> t.made == Some(id))
  {
  }

  /** What an undisturbed attempt ends with, from any state the protocol can reach. */
  lemma AttemptDecides(s: State, name: string, w: Worker, id: UserId)
    requires Inv(s, name) && Ready(s, w, id)
    ensures var t, u := Attempt(s, name, w, id), Target(s, name, id);
      && (t.status == Succeeded <==> Allowed(s, name) && Bindable(s, u))
      && t.creations == s.creations + (if Named(s.users, name) == None then 1 else 0)
      && Named(t.users, name) == Some(u)
      && (t.status == Succeeded ==> t.known == Some(u) && u in t.passwords
                                    && t.bindings == if u in s.bindings then s.bindings else s.bindings[u := true])
      && (t.status == Succeeded && u !in s.bindings ==> t.made == Some(u))
      && (t.status == Succeeded ==> PcOf(t, w) == Idle)
      && (!Allowed(s, name) ==> t.status == Failed && t.bindings == s.bindings)
  {
    ReachesTarget(s, name, w, id);
    ReachedKeeps(s, name, w, id);
    var reached := Reached(s, name, w, id);
    if Allowed(s, name) {
      ClosingDecides(reached, name, w);
    } else {
      assert Attempt(s, name, w, id) == reached;
    }
  }

  /** From every state the protocol can reach, one attempt that is left alone succeeds
      exactly when the name is free or something was reserved for it, and the user it works
      on has a binding or can be given the account's only one. It creates a user exactly when
      the name is free; when it succeeds, the request knows the one user of the name, who has
      been given the password and is bound, and no other binding has changed. A name that was
      taken with nothing reserved fails the request for good. */
  lemma UndisturbedAttemptBinds(start: State, name: string, events: seq<Event>, w: Worker, id: UserId)
    requires Start(start) && Named(start.users, name) == None && Ready(Run(start, name, events), w, id)
    ensures var s := Run(start, name, events); var t, u := Attempt(s, name, w, id), Target(s, name, id);
      var free := forall i :: 0 <= i < |s.users| ==> s.users[i].name != name;
      && User(u, name) in t.users && t.creations == s.creations + (if free then 1 else 0)
      && (t.status == Succeeded <==>
            (free || s.preflight) && (u in s.bindings || (s.active && forall b :: b in s.bindings ==> !s.bindings[b])))
      && (t.status == Succeeded ==>
            && t.known == Some(u) && u in t.passwords
            && t.bindings == if u in s.bindings then s.bindings else s.bindings[u := true])
      && (!free && !s.preflight ==> t.status == Failed && t.bindings == s.bindings)
  {
    StartIsOk(start, name);
    RunKeeps(start, name, events);
    var s := Run(start, name, events);
    NamedFinds(s.users, name);
    NamedFinds(Attempt(s, name, w, id).users, name);
    AttemptDecides(s, name, w, id);
  }

  // ---- What is not protected ----

  /** An undisturbed attempt makes the request succeed on a user the service did not create
      exactly when somebody else took the name although a preflight is durable: the flag
      tells a retry that the service may have created whoever has the name. */
  lemma AdoptsExactlyWhen(start: State, name: string, events: seq<Event>, w: Worker, id: UserId)
    requires Start(start) && Named(start.users, name) == None && Ready(Run(start, name, events), w, id)
    ensures var s := Run(start, name, events); var t := Attempt(s, name, w, id);
      t.status == Succeeded && t.creations == 0
      <==> s.preflight && NameTaken(start, name, events) && Bindable(s, Target(s, name, id))
  {
    StartIsOk(start, name);
    RunKeeps(start, name, events);
    HeldByOther(start, name, events);
    AttemptDecides(Run(start, name, events), name, w, id);
  }

  /** The closing transaction takes the user's binding whoever has it: an undisturbed
      attempt succeeds without a binding of its own account exactly when the user it works
      on is bound to another account. */
  lemma SucceedsForAnotherExactlyWhen(start: State, name: string, events: seq<Event>, w: Worker, id: UserId)
    requires Start(start) && Named(start.users, name) == None && Ready(Run(start, name, events), w, id)
    ensures var s := Run(start, name, events); var t, u := Attempt(s, name, w, id), Target(s, name, id);
      t.status == Succeeded && u in t.bindings && !t.bindings[u] <==> Allowed(s, name) && u in s.bindings && !s.bindings[u]
  {
    StartIsOk(start, name);
    RunKeeps(start, name, events);
    AttemptDecides(Run(start, name, events), name, w, id);
  }

  lemma AttemptIsRun(start: State, name: string, events: seq<Event>, w: Worker, id: UserId) returns (longer: seq<Event>)
    ensures Run(start, name, longer) == Attempt(Run(start, name, events), name, w, id)
  {
    longer := AfterFour(start, name, events, Load(w), List(w), Mark(w), Send(w));
    longer := AfterFour(start, name, longer, Arrive(w, id, true), Record(w), SetPassword(w), Bind(w, true));
  }

  lemma RunSnoc(s: State, name: string, events: seq<Event>, e: Event)
    ensures Run(s, name, events + [e]) == Step(Run(s, name, events), name, e)
  {
    assert (events + [e])[..|events|] == events;
  }

  lemma AfterFour(start: State, name: string, events: seq<Event>, a: Event, b: Event, c: Event, d: Event)
    returns (longer: seq<Event>)
    ensures Run(start, name, longer) == Step(Step(Step(Step(Run(start, name, events), name, a), name, b), name, c), name, d)
  {
    RunSnoc(start, name, events, a);
    RunSnoc(start, name, events + [a], b);
    RunSnoc(start, name, events + [a] + [b], c);
    RunSnoc(start, name, events + [a] + [b] + [c], d);
    longer := events + [a] + [b] + [c] + [d];
  }

  lemma TakenAfterCrash(start: State, name: string, w: Worker, foreign: UserId) returns (events: seq<Event>)
    requires Start(start) && Named(start.users, name) == None && foreign !in start.issued
    ensures var t := Run(start, name, events);
      && Named(t.users, name) == Some(foreign) && t.preflight && PcOf(t, w) == Idle && t.creations == 0
      && t.issued == start.issued + {foreign} && t.bindings == start.bindings && t.active == start.active
  {
    StartIsOk(start, name);
    assert Run(start, name, []) == start;
    ChosenIsHolder(start, name, None);
    Added(start.users, User(foreign, name), name);
    events := AfterFour(start, name, [], Load(w), List(w), Mark(w), Crash(w));
    var crashed := Run(start, name, events);
    events := Advance(start, name, events, crashed, TakeName(foreign), Step(crashed, name, TakeName(foreign)));
  }

  /** A crash between the preflight and the create call, somebody else taking the name, and
      a retry: that user is adopted, given the password and bound. */
  lemma ForeignUserIsAdopted(start: State, name: string, w: Worker, foreign: UserId, id: UserId) returns (events: seq<Event>)
    requires Start(start) && Named(start.users, name) == None && start.active
    requires foreign !in start.issued && id !in start.issued && foreign != id && foreign !in start.bindings
    ensures var t := Run(start, name, events);
      t.status == Succeeded && t.creations == 0 && t.made == Some(foreign) && foreign in t.passwords
  {
    StartIsOk(start, name);
    events := TakenAfterCrash(start, name, w, foreign);
    RunKeeps(start, name, events);
    AttemptDecides(Run(start, name, events), name, w, id);
    events := AttemptIsRun(start, name, events, w, id);
  }

  /** A user created here is bound to another account before the closing transaction, which
      a crash has put off: the retry succeeds on that user, and its own account has nothing. */
  lemma AnothersBindingIsTaken(start: State, name: string, w: Worker, id: UserId, other: UserId) returns (events: seq<Event>)
    requires Start(start) && Named(start.users, name) == None
    requires id !in start.issued && id !in start.bindings && other !in start.issued && other != id
    ensures var t := Run(start, name, events);
      t.status == Succeeded && t.known == Some(id) && t.creations == 1 && NoOwn(t.bindings)
  {
    StartIsOk(start, name);
    assert Run(start, name, []) == start;
    CreatedThenBound(start, name, w, id);
    events := AfterFour(start, name, [], Load(w), List(w), Mark(w), Send(w));
    events := AfterFour(start, name, events, Arrive(w, id, true), Record(w), Crash(w), BindOther(id, false));
    RunKeeps(start, name, events);
    AttemptDecides(Run(start, name, events), name, w, other);
    events := AttemptIsRun(start, name, events, w, other);
  }

  lemma CreatedThenBound(start: State, name: string, w: Worker, id: UserId)
    requires Start(start) && Named(start.users, name) == None && id !in start.issued && id !in start.bindings
    ensures var t := Step(Step(Reached(start, name, w, id), name, Crash(w)), name, BindOther(id, false));
      && Named(t.users, name) == Some(id) && t.preflight && t.creations == 1 && PcOf(t, w) == Idle
      && t.issued == start.issued + {id} && t.bindings == start.bindings[id := false]
  {
    StartIsOk(start, name);
    ReachesTarget(start, name, w, id);
    CrashThenBound(Reached(start, name, w, id), name, w, id);
  }

  lemma CrashThenBound(s: State, name: string, w: Worker, id: UserId)
    requires id !in s.bindings
    ensures Step(Step(s, name, Crash(w)), name, BindOther(id, false)) == s.(pcs := s.pcs[w := Idle], bindings := s.bindings[id := false])
  {
  }

  lemma AttemptKeepsOtherPcs(s: State, name: string, w: Worker, id: UserId, v: Worker)
    requires v != w
    ensures PcOf(Attempt(s, name, w, id), v) == PcOf(s, v)
  {
    var reached := Reached(s, name, w, id);
    ReachedKeepsOtherPcs(s, name, w, id, v);
    OtherPcKept(reached, name, SetPassword(w), v);
    OtherPcKept(Step(reached, name, SetPassword(w)), name, Bind(w, true), v);
  }

  lemma ReachedKeepsOtherPcs(s: State, name: string, w: Worker, id: UserId, v: Worker)
    requires v != w
    ensures PcOf(Reached(s, name, w, id), v) == PcOf(s, v)
  {
    var loaded := Step(s, name, Load(w));
    OtherPcKept(s, name, Load(w), v);
    OtherPcKept(loaded, name, List(w), v);
    OtherPcKept(Step(loaded, name, List(w)), name, Mark(w), v);
    var listed := Listed(s, name, w);
    OtherPcKept(listed, name, Send(w), v);
    OtherPcKept(Step(listed, name, Send(w)), name, Arrive(w, id, true), v);
    OtherPcKept(Step(Step(listed, name, Send(w)), name, Arrive(w, id, true)), name, Record(w), v);
  }

  predicate OfWorker(e: Event, v: Worker) {
    match e
    case Load(w) => w == v
    case List(w) => w == v
    case Mark(w) => w == v
    case Send(w) => w == v
    case Arrive(w, _, _) => w == v
    case Record(w) => w == v
    case SetPassword(w) => w == v
    case Bind(w, _) => w == v
    case Crash(w) => w == v
    case Fail(w, _) => w == v
    case _ => false
  }

  lemma OtherPcKept(s: State, name: string, e: Event, v: Worker)
    requires !OfWorker(e, v)
    ensures PcOf(Step(s, name, e), v) == PcOf(s, v)
  {
  }

  // ---- The attempt as the worker performs it ----

  /** One more step of a run. */
  lemma Advance(s: State, name: string, events: seq<Event>, t: State, e: Event, u: State) returns (more: seq<Event>)
    requires Run(s, name, events) == t && Step(t, name, e) == u
    ensures Run(s, name, more) == u
  {
    more := events + [e];
    RunSnoc(s, name, events, e);
  }

  /** Which remote calls and statements of an attempt go through: whether the create
      call arrives, its reply, the password call, the closing transaction, and its answer. */
  datatype Faults = Faults(arrives: bool, replies: bool, password: bool, closing: bool, answered: bool)

  const UNDISTURBED := Faults(true, true, true, true, true)

  class Request {
    const name: string
    var users: seq<User>
    var issued: set<UserId>
    var sent: multiset<Worker>
    var creations: nat
    var preflight: bool
    var known: Option<UserId>
    var status: RequestStatus
    var bindings: map<UserId, bool>
    var made: Option<UserId>
    var active: bool
    var passwords: set<UserId>
    ghost var pcs: map<Worker, Pc>

    ghost function State(): State
      reads this
    {
      Provision.State.State(users, issued, sent, creations, preflight, known, status, bindings, made, active, passwords, pcs)
    }

    ghost function At(w: Worker): Pc
      reads this
    {
      PcOf(State(), w)
    }

    /** The claim and the read of the request. */
    method LoadRequest(w: Worker) returns (reserved: bool, recorded: Option<UserId>)
      requires At(w) == Idle
      modifies this`status, this`pcs
      ensures State() == Step(old(State()), name, Load(w))
      ensures At(w) == Loaded(reserved, recorded)
    {
      if status != Succeeded {
        status := Provisioning;
      }
      reserved, recorded := preflight, known;
      pcs := pcs[w := Loaded(reserved, recorded)];
    }

    /** The two scans over the listed users. */
    method FindUser(listed: seq<User>, recorded: Option<UserId>) returns (remote: Option<UserId>)
      ensures remote == Chosen(listed, name, recorded)
    {
      remote := None;
      for i := 0 to |listed|
        invariant remote == None && Named(listed, name) == Named(listed[i..], name)
      {
        if listed[i].name == name {
          remote := Some(listed[i].id);
          break;
        }
        assert listed[i..][1..] == listed[i + 1..];
      }
      assert listed[|listed|..] == [];
      if recorded.Some? {
        for i := 0 to |listed|
          invariant remote == Named(listed, name) && !Has(listed[..i], recorded.value)
        {
          if listed[i].id == recorded.value {
            assert Has(listed, recorded.value);
            return recorded;
          }
        }
        assert listed[..|listed|] == listed;
      }
    }

    /** UPDATE ... SET preflight_completed WHERE NOT preflight_completed. */
    method MarkPreflight(w: Worker) returns (rows: nat)
      requires At(w) == Marking
      modifies this`preflight, this`pcs
      ensures State() == Step(old(State()), name, Mark(w))
      ensures rows == if old(preflight) then 0 else 1
      ensures rows == 1 ==> At(w) == Reserved
    {
      rows := 0;
      if !preflight {
        preflight, rows := true, 1;
        pcs := pcs[w := Reserved];
      }
    }

    method SendCall(w: Worker)
      requires At(w) == Reserved
      modifies this`sent, this`pcs
      ensures State() == Step(old(State()), name, Send(w))
      ensures At(w) == Creating && w in sent
    {
      sent, pcs := sent + multiset{w}, pcs[w := Creating];
    }

    /** The create call; it may arrive now, later or never, and its reply may be lost. */
    method CreateUser(w: Worker, id: UserId, arrives: bool, replies: bool, ghost start: State, ghost before: seq<Event>)
      returns (remote: Option<UserId>, ghost trace: seq<Event>)
      requires At(w) == Reserved && Run(start, name, before) == State()
      modifies this`users, this`issued, this`sent, this`creations, this`pcs
      ensures Run(start, name, trace) == State()
      ensures if remote.Some? then At(w) == Created(id) && remote.value == id else At(w) != Idle
      ensures arrives && replies && Named(old(users), name) == None && id !in old(issued) ==> remote.Some?
    {
      remote := None;
      ghost var s0 := State();
      SendCall(w);
      ghost var s1 := State();
      trace := Advance(start, name, before, s0, Send(w), s1);
      if arrives {
        remote := Serve(w, id, replies);
        trace := Advance(start, name, trace, s1, Arrive(w, id, replies), State());
      }
    }

    /** The server handling a create call. */
    method Serve(w: Worker, id: UserId, replies: bool) returns (remote: Option<UserId>)
      requires At(w) == Creating && w in sent
      modifies this`users, this`issued, this`sent, this`creations, this`pcs
      ensures State() == ArriveStep(old(State()), w, name, id, replies)
      ensures if remote.Some? then At(w) == Created(id) && remote.value == id else At(w) != Idle
      ensures replies && Named(old(users), name) == None && id !in old(issued) ==> remote.Some?
    {
      remote := None;
      if id !in issued {
        var taken := FindUser(users, None);
        sent := sent - multiset{w};
        if taken == None {
          AddUser(id);
          if replies {
            remote, pcs := Some(id), pcs[w := Created(id)];
          }
        }
      }
    }

    method AddUser(id: UserId)
      modifies this`users, this`issued, this`creations
      ensures users == old(users) + [User(id, name)] && issued == old(issued) + {id} && creations == old(creations) + 1
    {
      users, issued, creations := users + [User(id, name)], issued + {id}, creations + 1;
    }

    method RecordUser(w: Worker, id: UserId)
      requires At(w) == Created(id)
      modifies this`known, this`pcs
      ensures State() == Step(old(State()), name, Record(w)) && At(w) == Recorded(id)
    {
      known, pcs := Some(id), pcs[w := Recorded(id)];
    }

    /** The closing transaction: find or insert the binding, close the request. */
    method BindUser(w: Worker, id: UserId, answered: bool) returns (ok: bool)
      requires At(w) == PasswordSet(id)
      modifies this`bindings, this`made, this`status, this`known, this`pcs
      ensures State() == Step(old(State()), name, Bind(w, answered))
      ensures ok == (Bindable(old(State()), id) && answered)
      ensures ok ==> status == Succeeded && known == Some(id) && id in bindings
      ensures !ok ==> At(w) != Idle
    {
      ok := id in bindings;
      if !ok && active && NoOwn(bindings) {
        bindings, made, ok := bindings[id := true], Some(id), true;
      }
      if ok {
        status, known, pcs := Succeeded, Some(id), pcs[w := if answered then Idle else Unanswered];
        ok := answered;
      }
    }

    /** fail(): whatever the state of the request. */
    method Report(w: Worker, permanent: bool)
      requires At(w) != Idle
      modifies this`status, this`pcs
      ensures State() == Step(old(State()), name, Fail(w, permanent))
    {
      status := if permanent then Failed else Pending;
      pcs := pcs[w := Idle];
    }

    /** Read the user list and take the decision the list allows. */
    method ListUsers(w: Worker, reserved: bool, recorded: Option<UserId>) returns (remote: Option<UserId>)
      requires At(w) == Loaded(reserved, recorded)
      modifies this`status, this`pcs
      ensures State() == Step(old(State()), name, List(w))
      ensures remote == Chosen(users, name, recorded)
      ensures At(w) == if remote == None then (if reserved then Reserved else Marking)
                       else if reserved then Recorded(remote.value) else Idle
    {
      remote := FindUser(users, recorded);
      if remote.Some? && !reserved {
        status := Failed;
      }
      pcs := pcs[w := if remote == None then (if reserved then Reserved else Marking)
                      else if reserved then Recorded(remote.value) else Idle];
    }

    /** Claim, read, list, decide. */
    method Begin(w: Worker, ghost start: State, ghost before: seq<Event>)
      returns (reserved: bool, remote: Option<UserId>, ghost trace: seq<Event>)
      requires At(w) == Idle && Run(start, name, before) == State()
      modifies this`status, this`pcs
      ensures Run(start, name, trace) == State()
      ensures At(w) == if remote == None then (if reserved then Reserved else Marking)
                       else if reserved then Recorded(remote.value) else Idle
      ensures Inv(old(State()), name) ==>
        remote == Named(users, name) && reserved == preflight == old(preflight)
    {
      ghost var s0 := State();
      var recorded;
      reserved, recorded := LoadRequest(w);
      ghost var s1 := State();
      trace := Advance(start, name, before, s0, Load(w), s1);
      remote := ListUsers(w, reserved, recorded);
      trace := Advance(start, name, trace, s1, List(w), State());
      if Inv(s0, name) {
        ChosenIsHolder(s0, name, recorded);
      }
    }

    /** Reserve, unless an earlier attempt did. */
    method Reserve(w: Worker, reserved: bool, ghost start: State, ghost before: seq<Event>)
      returns (ok: bool, ghost trace: seq<Event>)
      requires At(w) == (if reserved then Reserved else Marking) && Run(start, name, before) == State()
      modifies this`preflight, this`pcs
      ensures Run(start, name, trace) == State()
      ensures if ok then At(w) == Reserved else At(w) != Idle
      ensures reserved || !old(preflight) ==> ok
    {
      ok, trace := true, before;
      if !reserved {
        ghost var s0 := State();
        var rows := MarkPreflight(w);
        ok := rows == 1;
        trace := Advance(start, name, trace, s0, Mark(w), State());
      }
    }

    /** The branch for a name nobody has: reserve, create and record. */
    method CreateNew(w: Worker, id: UserId, reserved: bool, faults: Faults, ghost start: State, ghost before: seq<Event>)
      returns (remote: Option<UserId>, ghost trace: seq<Event>)
      requires At(w) == (if reserved then Reserved else Marking) && Run(start, name, before) == State()
      modifies this
      ensures Run(start, name, trace) == State()
      ensures At(w) == if remote.Some? then Recorded(remote.value) else Idle
      ensures (faults == UNDISTURBED && (reserved || !old(preflight)) && id !in old(issued)
               && Named(old(users), name) == None) ==> remote.Some?
      ensures remote.Some? ==> remote.value == id
      ensures active == old(active) && bindings == old(bindings)
    {
      var ok;
      ok, trace := Reserve(w, reserved, start, before);
      remote := None;
      if ok {
        remote, trace := CreateUser(w, id, faults.arrives, faults.replies, start, trace);
      }
      trace := RecordOrFail(w, remote, start, trace);
    }

    method RecordOrFail(w: Worker, remote: Option<UserId>, ghost start: State, ghost before: seq<Event>) returns (ghost trace: seq<Event>)
      requires if remote.Some? then At(w) == Created(remote.value) else At(w) != Idle
      requires Run(start, name, before) == State()
      modifies this`known, this`status, this`pcs
      ensures Run(start, name, trace) == State()
      ensures At(w) == if remote.Some? then Recorded(remote.value) else Idle
    {
      ghost var s0 := State();
      if remote.Some? {
        RecordUser(w, remote.value);
        trace := Advance(start, name, before, s0, Record(w), State());
      } else {
        Report(w, false);
        trace := Advance(start, name, before, s0, Fail(w, false), State());
      }
    }

    /** Set the password and close the request. */
    method Close(w: Worker, id: UserId, faults: Faults, ghost start: State, ghost before: seq<Event>)
      returns (ok: bool, ghost trace: seq<Event>)
      requires At(w) == Recorded(id) && Run(start, name, before) == State()
      modifies this
      ensures Run(start, name, trace) == State()
      ensures ok ==> status == Succeeded && known == Some(id) && id in bindings
      ensures faults == UNDISTURBED ==> ok == Bindable(old(State()), id)
    {
      ok, trace := false, before;
      ghost var s0 := State();
      if faults.password {
        SetUserPassword(w, id);
        ghost var s1 := State();
        trace := Advance(start, name, trace, s0, SetPassword(w), s1);
        if faults.closing {
          ok := BindUser(w, id, faults.answered);
          trace := Advance(start, name, trace, s1, Bind(w, faults.answered), State());
        }
      }
      if !ok {
        ghost var s2 := State();
        Report(w, false);
        trace := Advance(start, name, trace, s2, Fail(w, false), State());
      }
    }

    method SetUserPassword(w: Worker, id: UserId)
      requires At(w) == Recorded(id)
      modifies this`passwords, this`pcs
      ensures State() == Step(old(State()), name, SetPassword(w)) && At(w) == PasswordSet(id)
      ensures bindings == old(bindings) && active == old(active)
    {
      passwords, pcs := passwords + {id}, pcs[w := PasswordSet(id)];
    }

    /** After the listing. */
    method Continue(w: Worker, id: UserId, reserved: bool, found: Option<UserId>, faults: Faults,
                    ghost start: State, ghost before: seq<Event>)
      returns (ok: bool, ghost trace: seq<Event>)
      requires At(w) == if found.Some? then Recorded(found.value) else if reserved then Reserved else Marking
      requires Run(start, name, before) == State()
      modifies this
      ensures Run(start, name, trace) == State()
      ensures ok ==> status == Succeeded && known.Some? && known.value in bindings
      ensures faults == UNDISTURBED && found == Named(old(users), name) && reserved == old(preflight) && id !in old(issued) ==>
        ok == Bindable(old(State()), if found.Some? then found.value else id)
    {
      var remote := found;
      ok, trace := false, before;
      if remote == None {
        remote, trace := CreateNew(w, id, reserved, faults, start, trace);
      }
      if remote.Some? {
        ok, trace := Close(w, remote.value, faults, start, trace);
      }
    }

    /** The whole attempt. Whatever goes wrong, it is a run of the protocol; when nothing
        does, it ends bound exactly if the user may be used and bound. */
    method ProvisionUser(w: Worker, id: UserId, faults: Faults) returns (ok: bool, ghost trace: seq<Event>)
      requires At(w) == Idle
      modifies this
      ensures State() == Run(old(State()), name, trace)
      ensures ok ==> status == Succeeded && known.Some? && known.value in bindings
      ensures Inv(old(State()), name) && id !in old(issued) && faults == UNDISTURBED ==>
        (ok <==> Allowed(old(State()), name) && Bindable(old(State()), Target(old(State()), name, id)))
    {
      ghost var start := State();
      assert Run(start, name, []) == start;
      var reserved, remote;
      reserved, remote, trace := Begin(w, start, []);
      ok := false;
      if remote == None || reserved {
        ok, trace := Continue(w, id, reserved, remote, faults, start, trace);
      }
    }
  }
}
