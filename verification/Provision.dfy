/** Creating one Emby user for one request: any number of workers, crashes between
    any two statements, and create calls that arrive late, twice, or without a
    reply (provision in v3/internal/platform/worker.go).

    Names are normalised and the server keeps them unique. Other people may change the
    server freely, also by taking the requested name, but do not remove whoever has it;
    and bindings are also made by imports and manual claims. */
module Provision {
  import opened Options

  type Worker = nat
  type UserId = nat

  datatype User = User(id: UserId, name: string)

  datatype RequestStatus = Pending | Provisioning | Succeeded | Failed

  /** Where a worker is within its attempt. */
  datatype Pc =
    | Idle
    | Loaded(preflight: bool, known: Option<UserId>)
    | Marking                        // no such user, preflight not yet recorded
    | Reserved                       // preflight recorded, nothing sent
    | Creating                       // create call sent
    | Created(id: UserId)
    | Recorded(id: UserId)
    | PasswordSet(id: UserId)
    | Unanswered                     // closed the request, but the commit reported an error

  /** `sent` holds create calls on their way, with the worker that sent them;
      `issued` every id the server ever gave out; `creations` counts users created here;
      `bindings` are those of this server, true for the account's own; `made` is the one
      this request inserted; `passwords` are the users whose password was set. */
  datatype State = State(
    users: seq<User>, issued: set<UserId>, sent: multiset<Worker>, creations: nat,
    preflight: bool, known: Option<UserId>, status: RequestStatus,
    bindings: map<UserId, bool>, made: Option<UserId>, active: bool, passwords: set<UserId>, pcs: map<Worker, Pc>)

  function PcOf(s: State, w: Worker): Pc {
    if w in s.pcs then s.pcs[w] else Idle
  }

  // ---- Choosing the remote user ----

  /** First user of that name. */
  function Named(users: seq<User>, name: string): Option<UserId> {
    if users == [] then None
    else if users[0].name == name then Some(users[0].id)
    else Named(users[1..], name)
  }

  predicate Has(users: seq<User>, id: UserId) {
    exists i :: 0 <= i < |users| && users[i].id == id
  }

  /** The recorded id wins over the name. */
  function Chosen(users: seq<User>, name: string, known: Option<UserId>): Option<UserId> {
    if known.Some? && Has(users, known.value) then known else Named(users, name)
  }

  datatype Event =
    | Load(w: Worker)
    | List(w: Worker)
    | Mark(w: Worker)
    | Send(w: Worker)
    | Arrive(w: Worker, id: UserId, replied: bool)
    | Record(w: Worker)
    | SetPassword(w: Worker)
    | Bind(w: Worker, answered: bool)
    | Crash(w: Worker)
    | Fail(w: Worker, permanent: bool)
    | Requeue                        // an administrator retries the failed task
    | TakeName(id: UserId)
    | BindOther(id: UserId, own: bool)
    | AddOther(id: UserId, other: string)
    | RemoveOther(at: nat)
    | SetActive(on: bool)

  function Goto(s: State, w: Worker, pc: Pc): State {
    s.(pcs := s.pcs[w := pc])
  }

  function ListStep(s: State, w: Worker, name: string, preflight: bool, known: Option<UserId>): State {
    var found := Chosen(s.users, name, known);
    if found.Some? && !preflight then Goto(s, w, Idle).(status := Failed)  // the user was there before
    else if found.Some? then Goto(s, w, Recorded(found.value))
    else Goto(s, w, if preflight then Reserved else Marking)
  }

  /** The server refuses a name that is taken. */
  function ArriveStep(s: State, w: Worker, name: string, id: UserId, replied: bool): State {
    if w !in s.sent || id in s.issued then s
    else if Named(s.users, name).Some? then s.(sent := s.sent - multiset{w})
    else
      var t := s.(sent := s.sent - multiset{w}, users := s.users + [User(id, name)],
                  issued := s.issued + {id}, creations := s.creations + 1);
      if replied && PcOf(s, w) == Creating then Goto(t, w, Created(id)) else t
  }

  /** The account has no binding on this server: UNIQUE(account_id, instance_id). */
  predicate NoOwn(bindings: map<UserId, bool>) {
    forall id :: id in bindings ==> !bindings[id]
  }

  /** Can the closing transaction find or insert a binding of this user? */
  predicate Bindable(s: State, id: UserId) {
    id in s.bindings || (s.active && NoOwn(s.bindings))
  }

  /** Find the user's binding, whoever has it, or insert one; then close the request. */
  function BindStep(s: State, w: Worker, id: UserId, answered: bool): State {
    var closed := Goto(s, w, if answered then Idle else Unanswered).(status := Succeeded, known := Some(id));
    if id in s.bindings then closed
    else if Bindable(s, id) then closed.(bindings := s.bindings[id := true], made := Some(id))
    else s
  }

  function Step(s: State, name: string, e: Event): State {
    match e
    case Load(w) =>
      if PcOf(s, w) == Idle
      then Goto(s, w, Loaded(s.preflight, s.known)).(
             status := if s.status == Succeeded then Succeeded else Provisioning)
      else s
    case List(w) =>
      var pc := PcOf(s, w);
      if pc.Loaded? then ListStep(s, w, name, pc.preflight, pc.known) else s
    case Mark(w) =>
      if PcOf(s, w) == Marking && !s.preflight then Goto(s, w, Reserved).(preflight := true) else s
    case Send(w) =>
      if PcOf(s, w) == Reserved then Goto(s, w, Creating).(sent := s.sent + multiset{w}) else s
    case Arrive(w, id, replied) => ArriveStep(s, w, name, id, replied)
    case Record(w) =>
      var pc := PcOf(s, w);
      if pc.Created? then Goto(s, w, Recorded(pc.id)).(known := Some(pc.id)) else s
    case SetPassword(w) =>
      var pc := PcOf(s, w);
      if pc.Recorded? then Goto(s, w, PasswordSet(pc.id)).(passwords := s.passwords + {pc.id}) else s
    case Bind(w, answered) =>
      var pc := PcOf(s, w);
      if pc.PasswordSet? then BindStep(s, w, pc.id, answered) else s
    case Crash(w) => Goto(s, w, Idle)
    case Fail(w, permanent) =>
      if PcOf(s, w) == Idle then s else Goto(s, w, Idle).(status := if permanent then Failed else Pending)
    case Requeue => s.(status := if s.status == Failed then Pending else s.status)
    case TakeName(id) =>
      if id in s.issued || Named(s.users, name).Some? then s
      else s.(users := s.users + [User(id, name)], issued := s.issued + {id})
    case BindOther(id, own) =>
      if id in s.bindings || (own && !Bindable(s, id)) then s else s.(bindings := s.bindings[id := own])
    case AddOther(id, other) =>
      if id in s.issued || other == name then s
      else s.(users := s.users + [User(id, other)], issued := s.issued + {id})
    case RemoveOther(at) =>
      if at >= |s.users| || s.users[at].name == name then s
      else s.(users := s.users[..at] + s.users[at + 1..])
    case SetActive(on) => s.(active := on)
  }

  function Run(s: State, name: string, events: seq<Event>): State {
    if events == [] then s
    else Step(Run(s, name, events[..|events| - 1]), name, events[|events| - 1])
  }

  /** A new request: nothing sent, nothing recorded, on a server with these users. */
  predicate Start(s: State) {
    && s.sent == multiset{} && s.creations == 0 && !s.preflight && s.known == None
    && s.status == Pending && NoOwn(s.bindings) && s.made == None && s.pcs == map[]
    && (forall i :: 0 <= i < |s.users| ==> s.users[i].id in s.issued)
  }

  // ---- Searching the user list ----

  lemma {:induction false} NamedFinds(users: seq<User>, name: string)
    ensures Named(users, name) == None <==> forall i :: 0 <= i < |users| ==> users[i].name != name
    ensures Named(users, name).Some? ==> User(Named(users, name).value, name) in users
  {
    if users != [] {
      NamedFinds(users[1..], name);
      assert forall i :: 1 <= i < |users| ==> users[i] == users[1..][i - 1];
    }
  }

  /** How many users carry the name. */
  function Count(users: seq<User>, name: string): nat {
    if users == [] then 0 else Count(users[1..], name) + if users[0].name == name then 1 else 0
  }

  lemma {:induction false} CountConcat(us: seq<User>, vs: seq<User>, name: string)
    ensures Count(us + vs, name) == Count(us, name) + Count(vs, name)
  {
    if us == [] {
      assert us + vs == vs;
    } else {
      assert (us + vs)[1..] == us[1..] + vs;
      CountConcat(us[1..], vs, name);
    }
  }

  lemma {:induction false} CountZero(users: seq<User>, name: string)
    ensures Count(users, name) == 0 <==> Named(users, name) == None
  {
    if users != [] { CountZero(users[1..], name); }
  }

  lemma {:induction false} NamedConcat(us: seq<User>, vs: seq<User>, name: string)
    ensures Named(us + vs, name) == if Named(us, name).Some? then Named(us, name) else Named(vs, name)
  {
    if us == [] {
      assert us + vs == vs;
    } else {
      assert (us + vs)[1..] == us[1..] + vs;
      NamedConcat(us[1..], vs, name);
    }
  }

  lemma Added(users: seq<User>, u: User, name: string)
    ensures u.name == name ==> Count(users + [u], name) == Count(users, name) + 1
    ensures u.name != name ==> Count(users + [u], name) == Count(users, name)
    ensures Named(users + [u], name)
            == if Named(users, name).Some? then Named(users, name) else if u.name == name then Some(u.id) else None
  {
    CountConcat(users, [u], name);
    NamedConcat(users, [u], name);
    assert Named([u][1..], name) == None && Count([u][1..], name) == 0;
  }

  lemma Removed(users: seq<User>, at: nat, name: string)
    requires at < |users| && users[at].name != name
    ensures Count(users[..at] + users[at + 1..], name) == Count(users, name)
    ensures Named(users[..at] + users[at + 1..], name) == Named(users, name)
    ensures forall u :: u in users[..at] + users[at + 1..] ==> u in users
  {
    assert users == users[..at] + ([users[at]] + users[at + 1..]);
    CountConcat(users[..at], users[at + 1..], name);
    CountConcat(users[..at], [users[at]] + users[at + 1..], name);
    NamedConcat(users[..at], users[at + 1..], name);
    NamedConcat(users[..at], [users[at]] + users[at + 1..], name);
    assert ([users[at]] + users[at + 1..])[1..] == users[at + 1..];
  }

  // ---- A name that was free at the start ----

  /** `id` is the user who has the requested name. */
  predicate Holds(s: State, name: string, id: UserId) {
    Named(s.users, name) == Some(id)
  }

  predicate PcOk(s: State, name: string, pc: Pc) {
    match pc
    case Idle => true
    case Marking => true
    case Loaded(preflight, known) => (preflight ==> s.preflight) && (known.Some? ==> Holds(s, name, known.value))
    case Reserved => s.preflight
    case Creating => s.preflight
    case Created(id) => Holds(s, name, id)
    case Recorded(id) => Holds(s, name, id)
    case PasswordSet(id) => Holds(s, name, id) && id in s.passwords
    case Unanswered => true
  }

  predicate OneOwn(bindings: map<UserId, bool>) {
    forall i, j :: i in bindings && j in bindings && bindings[i] && bindings[j] ==> i == j
  }

  predicate RowsOk(s: State, name: string) {
    && s.creations <= Count(s.users, name) <= 1
    && (s.sent != multiset{} || s.creations > 0 ==> s.preflight)
    && (s.known.Some? ==> Holds(s, name, s.known.value))
    && OneOwn(s.bindings)
    && (s.made.Some? ==>
          Holds(s, name, s.made.value) && s.made.value in s.passwords && s.made.value in s.bindings && s.bindings[s.made.value])
    && (s.status == Succeeded ==> s.known.Some? && s.known.value in s.bindings)
  }

  ghost predicate Inv(s: State, name: string) {
    && (forall u :: u in s.users ==> u.id in s.issued)
    && RowsOk(s, name)
    && (forall w: Worker :: PcOk(s, name, PcOf(s, w)))
  }

  predicate BindingsGrow(b: map<UserId, bool>, c: map<UserId, bool>) {
    forall id :: id in b ==> id in c && c[id] == b[id]
  }

  /** Nothing recorded so far becomes wrong, and a name that is taken stays with its user. */
  ghost predicate Grows(s: State, t: State, name: string) {
    && (s.preflight ==> t.preflight) && s.creations <= t.creations && s.passwords <= t.passwords
    && (Named(s.users, name).Some? ==> Named(t.users, name) == Named(s.users, name) && t.creations == s.creations)
    && (s.known.Some? ==> t.known.Some?) && (s.made.Some? ==> t.made == s.made)
    && BindingsGrow(s.bindings, t.bindings)
  }

  /** With at most one user of the name, both scans find the same one. */
  lemma ChosenIsHolder(s: State, name: string, known: Option<UserId>)
    requires known.Some? ==> Holds(s, name, known.value)
    ensures Chosen(s.users, name, known) == Named(s.users, name)
  {
  }

  lemma GrowthKeepsPcs(s: State, t: State, name: string, w: Worker)
    requires Grows(s, t, name) && forall v: Worker :: PcOk(s, name, PcOf(s, v))
    requires forall v: Worker :: v != w ==> PcOf(t, v) == PcOf(s, v)
    requires PcOk(t, name, PcOf(t, w))
    ensures forall v: Worker :: PcOk(t, name, PcOf(t, v))
  {
    forall v: Worker | v != w ensures PcOk(t, name, PcOf(t, v)) { assert PcOk(s, name, PcOf(s, v)); }
  }

  lemma ListKeeps(s: State, name: string, w: Worker)
    requires Inv(s, name)
    ensures Inv(Step(s, name, List(w)), name) && Grows(s, Step(s, name, List(w)), name)
  {
    if PcOf(s, w).Loaded? {
      ListMoves(s, name, w);
      GrowthKeepsPcs(s, Step(s, name, List(w)), name, w);
    }
  }

  lemma ListMoves(s: State, name: string, w: Worker)
    requires PcOf(s, w).Loaded? && PcOk(s, name, PcOf(s, w))
    ensures var t := Step(s, name, List(w));
      && t == s.(pcs := s.pcs[w := PcOf(t, w)], status := t.status) && PcOk(t, name, PcOf(t, w))
      && (t.status == Succeeded ==> s.status == Succeeded)
  {
    ChosenIsHolder(s, name, PcOf(s, w).known);
  }

  lemma ArriveKeeps(s: State, name: string, w: Worker, id: UserId, replied: bool)
    requires Inv(s, name)
    ensures Inv(ArriveStep(s, w, name, id, replied), name) && Grows(s, ArriveStep(s, w, name, id, replied), name)
  {
    var t := ArriveStep(s, w, name, id, replied);
    CountZero(s.users, name);
    Added(s.users, User(id, name), name);
    assert PcOk(s, name, PcOf(s, w));
    assert Grows(s, t, name);
    GrowthKeepsPcs(s, t, name, w);
  }

  /** Somebody else's user is added or removed. */
  lemma UsersKeep(s: State, name: string, users: seq<User>, issued: set<UserId>)
    requires Inv(s, name) && s.issued <= issued && (forall u :: u in users ==> u.id in issued)
    requires Named(s.users, name).Some? ==> Named(users, name) == Named(s.users, name)
    requires Count(s.users, name) <= Count(users, name) <= 1
    ensures var t := s.(users := users, issued := issued); Inv(t, name) && Grows(s, t, name)
  {
    var t := s.(users := users, issued := issued);
    GrowthKeepsPcs(s, t, name, 0) by { assert PcOk(s, name, PcOf(s, 0)); }
  }

  lemma TakeKeeps(s: State, name: string, id: UserId)
    requires Inv(s, name)
    ensures Inv(Step(s, name, TakeName(id)), name) && Grows(s, Step(s, name, TakeName(id)), name)
  {
    if id !in s.issued && Named(s.users, name) == None {
      CountZero(s.users, name);
      Added(s.users, User(id, name), name);
      UsersKeep(s, name, s.users + [User(id, name)], s.issued + {id});
    }
  }

  lemma AddKeeps(s: State, name: string, id: UserId, other: string)
    requires Inv(s, name)
    ensures Inv(Step(s, name, AddOther(id, other)), name) && Grows(s, Step(s, name, AddOther(id, other)), name)
  {
    if id !in s.issued && other != name {
      Added(s.users, User(id, other), name);
      UsersKeep(s, name, s.users + [User(id, other)], s.issued + {id});
    }
  }

  lemma RemovalKeeps(s: State, name: string, at: nat)
    requires Inv(s, name)
    ensures Inv(Step(s, name, RemoveOther(at)), name) && Grows(s, Step(s, name, RemoveOther(at)), name)
  {
    if at < |s.users| && s.users[at].name != name {
      Removed(s.users, at, name);
      UsersKeep(s, name, s.users[..at] + s.users[at + 1..], s.issued);
    }
  }

  /** Bindings made by others, the account's status, and the administrator's retry. */
  lemma AccountKeeps(s: State, name: string, e: Event)
    requires Inv(s, name) && (e.BindOther? || e.SetActive? || e.Requeue?)
    ensures Inv(Step(s, name, e), name) && Grows(s, Step(s, name, e), name)
  {
    assert Grows(s, Step(s, name, e), name);
    GrowthKeepsPcs(s, Step(s, name, e), name, 0) by { assert PcOk(s, name, PcOf(s, 0)); }
  }

  lemma BindMoves(s: State, name: string, w: Worker, answered: bool)
    requires RowsOk(s, name) && PcOf(s, w).PasswordSet? && PcOk(s, name, PcOf(s, w))
    ensures var t := BindStep(s, w, PcOf(s, w).id, answered);
      && RowsOk(t, name) && Grows(s, t, name) && t.users == s.users && t.issued == s.issued
      && PcOk(t, name, PcOf(t, w)) && (forall v: Worker :: v != w ==> PcOf(t, v) == PcOf(s, v))
  {
  }

  lemma BindKeeps(s: State, name: string, w: Worker, answered: bool)
    requires Inv(s, name)
    ensures Inv(Step(s, name, Bind(w, answered)), name) && Grows(s, Step(s, name, Bind(w, answered)), name)
  {
    assert PcOk(s, name, PcOf(s, w));
    if PcOf(s, w).PasswordSet? {
      BindMoves(s, name, w, answered);
      GrowthKeepsPcs(s, Step(s, name, Bind(w, answered)), name, w);
    }
  }

  lemma WriteKeeps(s: State, name: string, e: Event)
    requires Inv(s, name) && (e.Mark? || e.Send? || e.Record?)
    ensures Inv(Step(s, name, e), name) && Grows(s, Step(s, name, e), name)
  {
    var t := Step(s, name, e);
    assert PcOk(s, name, PcOf(s, e.w));
    assert Grows(s, t, name);
    GrowthKeepsPcs(s, t, name, e.w);
  }

  lemma MoveKeeps(s: State, name: string, e: Event)
    requires Inv(s, name) && (e.Load? || e.SetPassword? || e.Crash? || e.Fail?)
    ensures Inv(Step(s, name, e), name) && Grows(s, Step(s, name, e), name)
  {
    var t := Step(s, name, e);
    assert PcOk(s, name, PcOf(s, e.w));
    assert Grows(s, t, name);
    GrowthKeepsPcs(s, t, name, e.w);
  }

  lemma StepKeeps(s: State, name: string, e: Event)
    requires Inv(s, name)
    ensures Inv(Step(s, name, e), name) && Grows(s, Step(s, name, e), name)
  {
    match e
    case List(w) => ListKeeps(s, name, w);
    case Arrive(w, id, replied) => ArriveKeeps(s, name, w, id, replied);
    case TakeName(id) => TakeKeeps(s, name, id);
    case AddOther(id, other) => AddKeeps(s, name, id, other);
    case RemoveOther(at) => RemovalKeeps(s, name, at);
    case BindOther(_, _) => AccountKeeps(s, name, e);
    case SetActive(_) => AccountKeeps(s, name, e);
    case Requeue => AccountKeeps(s, name, e);
    case Bind(w, answered) => BindKeeps(s, name, w, answered);
    case Mark(_) => WriteKeeps(s, name, e);
    case Send(_) => WriteKeeps(s, name, e);
    case Record(_) => WriteKeeps(s, name, e);
    case _ => MoveKeeps(s, name, e);
  }

  lemma GrowsTransitive(s: State, t: State, u: State, name: string)
    requires Grows(s, t, name) && Grows(t, u, name)
    ensures Grows(s, u, name)
  {
  }

  lemma {:induction false} RunKeeps(s: State, name: string, events: seq<Event>)
    requires Inv(s, name)
    ensures Inv(Run(s, name, events), name) && Grows(s, Run(s, name, events), name)
  {
    if events != [] {
      var t := Run(s, name, events[..|events| - 1]);
      RunKeeps(s, name, events[..|events| - 1]);
      StepKeeps(t, name, events[|events| - 1]);
      GrowsTransitive(s, t, Run(s, name, events), name);
    }
  }

  lemma StartIsOk(s: State, name: string)
    requires Start(s) && Named(s.users, name) == None
    ensures Inv(s, name)
  {
    CountZero(s.users, name);
  }
}
