/** Live sessions, playback history and device profiles of one Emby instance, updated
    snapshot by snapshot (IngestPlaybackSnapshot and ingestPlaybackTx in
    v3/internal/platform/risk.go). A nullable bitrate is 0 when it is NULL. */
module Playback {
  import opened Options
  import opened Text
  import opened Keys

  /** One session of a snapshot. `derived` is the hashed key for a session without device id. */
  datatype Observation = Observation(session: string, item: string, user: string, deviceId: string, derived: string,
                                     bitrate: int, position: int, transcoding: bool)

  datatype Session = Session(key: string, last: Observation)

  datatype History = History(started: int, ended: Option<int>, peak: int, maxPosition: int, transcoding: bool)

  datatype Device = Device(sessions: nat, transcodes: nat, maxBitrate: int)

  /** `inserted`, `insertedTranscoding`: how many history rows were ever inserted. */
  datatype Db = Db(sessions: map<string, Session>, history: map<string, History>, devices: map<(string, string), Device>,
                   inserted: nat, insertedTranscoding: nat)

  const DAY: int := 86400

  function PlaybackKey(o: Observation): string {
    o.session + (":" + o.item)
  }

  function DeviceKey(o: Observation): (string, string) {
    (o.user, if TrimSpace(o.deviceId) != "" then TrimSpace(o.deviceId) else o.derived)
  }

  function Max(a: int, b: int): int {
    if a > b then a else b
  }

  // ---- The statements ----

  function EndAt(h: History, now: int): History {
    if h.ended == None then h.(ended := Some(now)) else h
  }

  /** End the open rows with these keys. */
  function EndKeys(history: map<string, History>, keys: set<string>, now: int): map<string, History> {
    map k | k in history :: if k in keys then EndAt(history[k], now) else history[k]
  }

  function UpsertHistory(history: map<string, History>, o: Observation, now: int): map<string, History> {
    var k := PlaybackKey(o);
    if k in history then
      var h := history[k];
      history[k := h.(peak := Max(h.peak, o.bitrate), maxPosition := Max(h.maxPosition, o.position), ended := None)]
    else history[k := History(now, None, o.bitrate, o.position, o.transcoding)]
  }

  function UpsertDevice(devices: map<(string, string), Device>, o: Observation, isNew: bool): map<(string, string), Device> {
    var d := DeviceKey(o);
    var increment := if isNew then 1 else 0;
    var transcode := if isNew && o.transcoding then 1 else 0;
    if d in devices then
      devices[d := Device(devices[d].sessions + increment, devices[d].transcodes + transcode, Max(devices[d].maxBitrate, o.bitrate))]
    else devices[d := Device(increment, transcode, o.bitrate)]
  }

  /** The key a session leaves behind when it now plays something else. */
  function StaleKeys(sessions: map<string, Session>, session: string, key: string): set<string> {
    if session in sessions && sessions[session].key != key then {sessions[session].key} else {}
  }

  /** ingestPlaybackTx: one observed session. */
  function IngestOne(db: Db, now: int, o: Observation): Db {
    var k := PlaybackKey(o);
    var stale := StaleKeys(db.sessions, o.session, k);
    var isNew := k !in db.history;
    Db(db.sessions[o.session := Session(k, o)],
       UpsertHistory(EndKeys(db.history, stale, now), o, now),
       UpsertDevice(db.devices, o, isNew),
       db.inserted + (if isNew then 1 else 0),
       db.insertedTranscoding + (if isNew && o.transcoding then 1 else 0))
  }

  function IngestAll(db: Db, now: int, obs: seq<Observation>): Db {
    if obs == [] then db else IngestOne(IngestAll(db, now, obs[..|obs| - 1]), now, obs[|obs| - 1])
  }

  function SessionIds(obs: seq<Observation>): set<string> {
    set o | o in obs :: o.session
  }

  function LiveKeys(sessions: map<string, Session>): set<string> {
    set s | s in sessions :: sessions[s].key
  }

  function Unseen(sessions: map<string, Session>, seen: set<string>): map<string, Session> {
    map s | s in sessions && s !in seen :: sessions[s]
  }

  /** Sessions that were not seen end; an empty snapshot ends every open row. */
  function CloseUnseen(db: Db, now: int, seen: set<string>): Db {
    if seen == {} then db.(history := EndKeys(db.history, db.history.Keys, now), sessions := map[])
    else
      db.(history := EndKeys(db.history, LiveKeys(Unseen(db.sessions, seen)), now),
          sessions := map s | s in db.sessions && s in seen :: db.sessions[s])
  }

  function Purge(db: Db, cutoff: int): Db {
    db.(history := map k | k in db.history && db.history[k].started >= cutoff :: db.history[k])
  }

  function Cutoff(now: int, retentionDays: int): int {
    now - (if retentionDays < 1 then 180 else retentionDays) * DAY
  }

  /** The snapshot before retention is applied. */
  function Observed(db: Db, now: int, obs: seq<Observation>): Db {
    CloseUnseen(IngestAll(db, now, obs), now, SessionIds(obs))
  }

  /** IngestPlaybackSnapshot. */
  function Ingest(db: Db, now: int, obs: seq<Observation>, retentionDays: int): Db {
    Purge(Observed(db, now, obs), Cutoff(now, retentionDays))
  }

  datatype Snapshot = Snapshot(now: int, obs: seq<Observation>, retentionDays: int)

  function Run(db: Db, snapshots: seq<Snapshot>): Db {
    if snapshots == [] then db
    else
      var s := snapshots[|snapshots| - 1];
      Ingest(Run(db, snapshots[..|snapshots| - 1]), s.now, s.obs, s.retentionDays)
  }

  const EMPTY: Db := Db(map[], map[], map[], 0, 0)

  // ---- Agreement of sessions and history ----

  predicate Plain(id: string) {
    forall i :: 0 <= i < |id| ==> id[i] != ':'
  }

  predicate PlainIds(obs: seq<Observation>) {
    forall o :: o in obs ==> Plain(o.session)
  }

  predicate IsOpen(history: map<string, History>, k: string) {
    k in history && history[k].ended == None
  }

  /** Session rows carry their own key, and every open history row is a session's. */
  predicate Agree(db: Db) {
    && (forall s :: s in db.sessions ==> Plain(s) && db.sessions[s].last.session == s && db.sessions[s].key == PlaybackKey(db.sessions[s].last))
    && (forall k :: k in db.history ==> (IsOpen(db.history, k) ==> k in LiveKeys(db.sessions)))
  }

  lemma KeysDiffer(a: Observation, b: Observation)
    requires Plain(a.session) && Plain(b.session) && a.session != b.session
    ensures PlaybackKey(a) != PlaybackKey(b)
  {
    if PlaybackKey(a) == PlaybackKey(b) { SplitAtColon(a.session, a.item, b.session, b.item); }
  }

  /** The sessions seen so far are open. */
  predicate SeenOpen(db: Db, seen: set<string>) {
    forall s :: s in seen ==> s in db.sessions && IsOpen(db.history, db.sessions[s].key)
  }

  lemma IngestOneAgrees(db: Db, now: int, o: Observation, seen: set<string>)
    requires Agree(db) && SeenOpen(db, seen) && Plain(o.session)
    ensures Agree(IngestOne(db, now, o)) && SeenOpen(IngestOne(db, now, o), seen + {o.session})
  {
    var t := IngestOne(db, now, o);
    forall s | s in seen && s != o.session ensures s in t.sessions && IsOpen(t.history, t.sessions[s].key) {
      KeysDiffer(db.sessions[s].last, o);
      if o.session in db.sessions { KeysDiffer(db.sessions[s].last, db.sessions[o.session].last); }
    }
    forall k | IsOpen(t.history, k) ensures k in LiveKeys(t.sessions) {
      if k == PlaybackKey(o) {
        assert t.sessions[o.session].key == k;
      } else {
        assert IsOpen(db.history, k);
        var s :| s in db.sessions && db.sessions[s].key == k;
        assert s != o.session && t.sessions[s].key == k;
      }
    }
  }

  lemma {:induction false} IngestAllAgrees(db: Db, now: int, obs: seq<Observation>)
    requires Agree(db) && PlainIds(obs)
    ensures Agree(IngestAll(db, now, obs)) && SeenOpen(IngestAll(db, now, obs), SessionIds(obs))
  {
    if obs == [] {
      assert SessionIds(obs) == {};
    } else {
      var front, o := obs[..|obs| - 1], obs[|obs| - 1];
      IngestAllAgrees(db, now, front);
      IngestOneAgrees(IngestAll(db, now, front), now, o, SessionIds(front));
      assert forall x :: x in obs <==> x in front || x == o;
      assert SessionIds(obs) == SessionIds(front) + {o.session};
    }
  }

  /** The sessions are the snapshot's, and their keys are exactly the open history. */
  predicate Exact(db: Db, seen: set<string>) {
    && Agree(db) && db.sessions.Keys == seen
    && forall s :: s in db.sessions ==> IsOpen(db.history, db.sessions[s].key)
  }

  lemma CloseUnseenExact(db: Db, now: int, seen: set<string>)
    requires Agree(db) && SeenOpen(db, seen)
    ensures Exact(CloseUnseen(db, now, seen), seen)
  {
    var t := CloseUnseen(db, now, seen);
    if seen != {} {
      assert t.sessions.Keys == seen;
      forall g | g in db.sessions && g !in seen ensures db.sessions[g].key in LiveKeys(Unseen(db.sessions, seen)) {
        assert Unseen(db.sessions, seen)[g].key == db.sessions[g].key;
      }
      forall s | s in t.sessions ensures IsOpen(t.history, t.sessions[s].key) {
        forall g | g in db.sessions && g !in seen ensures db.sessions[g].key != db.sessions[s].key {
          KeysDiffer(db.sessions[g].last, db.sessions[s].last);
        }
      }
      forall k | k in t.history && IsOpen(t.history, k) ensures k in LiveKeys(t.sessions) {
        assert IsOpen(db.history, k);
        var s :| s in db.sessions && db.sessions[s].key == k;
        assert s in seen && t.sessions[s].key == k;
      }
    }
  }

  /** Exactly `seen` are live, and the open rows are exactly the live keys, except for
      live keys whose row in `before` started too long ago and was deleted. */
  predicate Settled(t: Db, seen: set<string>, before: map<string, History>, cutoff: int) {
    && Agree(t) && t.sessions.Keys == seen
    && (forall k :: k in t.history ==> (IsOpen(t.history, k) <==> k in LiveKeys(t.sessions)))
    && (forall k :: k in LiveKeys(t.sessions) && k !in t.history ==> k in before && before[k].started < cutoff)
  }

  lemma PurgeSettles(db: Db, cutoff: int, seen: set<string>)
    requires Exact(db, seen)
    ensures Settled(Purge(db, cutoff), seen, db.history, cutoff)
  {
    var t := Purge(db, cutoff);
    forall k | k in t.history && IsOpen(t.history, k) ensures k in LiveKeys(t.sessions) { assert IsOpen(db.history, k); }
    forall k | k in LiveKeys(t.sessions) ensures IsOpen(db.history, k) {
      var s :| s in db.sessions && db.sessions[s].key == k;
    }
  }

  /** After every snapshot: exactly its session ids are live, and the open history rows are
      exactly the live keys that retention has not deleted. */
  lemma SnapshotAgreement(db: Db, now: int, obs: seq<Observation>, retentionDays: int)
    requires Agree(db) && PlainIds(obs)
    ensures Settled(Ingest(db, now, obs, retentionDays), SessionIds(obs), Observed(db, now, obs).history, Cutoff(now, retentionDays))
  {
    var all := IngestAll(db, now, obs);
    IngestAllAgrees(db, now, obs);
    CloseUnseenExact(all, now, SessionIds(obs));
    PurgeSettles(CloseUnseen(all, now, SessionIds(obs)), Cutoff(now, retentionDays), SessionIds(obs));
  }

  /** A row that the snapshot itself inserted is never deleted by its retention. */
  lemma FreshRowsSurvive(db: Db, now: int, obs: seq<Observation>, retentionDays: int, k: string)
    requires k !in db.history && k in IngestAll(db, now, obs).history
    ensures k in Ingest(db, now, obs, retentionDays).history
  {
    FreshRowsStartNow(db, now, obs, k);
  }

  lemma {:induction false} FreshRowsStartNow(db: Db, now: int, obs: seq<Observation>, k: string)
    requires k !in db.history && k in IngestAll(db, now, obs).history
    ensures IngestAll(db, now, obs).history[k].started == now
  {
    if obs != [] && k in IngestAll(db, now, obs[..|obs| - 1]).history {
      FreshRowsStartNow(db, now, obs[..|obs| - 1], k);
    }
  }

  predicate PlainRun(snapshots: seq<Snapshot>) {
    forall i :: 0 <= i < |snapshots| ==> PlainIds(snapshots[i].obs)
  }

  lemma {:induction false} RunAgrees(snapshots: seq<Snapshot>)
    requires PlainRun(snapshots)
    ensures Agree(Run(EMPTY, snapshots))
  {
    if snapshots != [] {
      var front, s := snapshots[..|snapshots| - 1], snapshots[|snapshots| - 1];
      assert forall i :: 0 <= i < |front| ==> front[i] == snapshots[i];
      RunAgrees(front);
      SnapshotAgreement(Run(EMPTY, front), s.now, s.obs, s.retentionDays);
    }
  }

  /** The agreement holds after every run of snapshots. */
  lemma SessionsAgreeWithHistory(snapshots: seq<Snapshot>)
    requires PlainRun(snapshots) && snapshots != []
    ensures var t := Run(EMPTY, snapshots); var last := snapshots[|snapshots| - 1];
      && t.sessions.Keys == SessionIds(last.obs)
      && (forall k :: k in t.history ==> (IsOpen(t.history, k) <==> k in LiveKeys(t.sessions)))
  {
    var front, s := snapshots[..|snapshots| - 1], snapshots[|snapshots| - 1];
    assert forall i :: 0 <= i < |front| ==> front[i] == snapshots[i];
    RunAgrees(front);
    SnapshotAgreement(Run(EMPTY, front), s.now, s.obs, s.retentionDays);
  }

  // ---- Rows hold maxima ----

  /** Since when a key has a row, and everything observed of the key since then. */
  datatype Watch = Watch(started: int, seen: seq<Observation>)

  /** The observations of one session playing one item. */
  function Of(obs: seq<Observation>, k: string): seq<Observation> {
    if obs == [] then []
    else
      var o := obs[|obs| - 1];
      Of(obs[..|obs| - 1], k) + if o.session + (":" + o.item) == k then [o] else []
  }

  function Continued(w: Option<Watch>, now: int, obs: seq<Observation>): Option<Watch> {
    if w.Some? then Some(Watch(w.value.started, w.value.seen + obs))
    else if obs == [] then None else Some(Watch(now, obs))
  }

  /** Read from the snapshots alone: a watch begins with the first observation of the key,
      and ends when a snapshot finds it older than its retention in days, 180 by default. */
  function Watched(snapshots: seq<Snapshot>, k: string): Option<Watch> {
    if snapshots == [] then None
    else WatchedNext(Watched(snapshots[..|snapshots| - 1], k), snapshots[|snapshots| - 1], k)
  }

  function WatchedNext(before: Option<Watch>, s: Snapshot, k: string): Option<Watch> {
    var w := Continued(before, s.now, Of(s.obs, k));
    var days := if s.retentionDays >= 1 then s.retentionDays else 180;
    if w.Some? && w.value.started < s.now - 86400 * days then None else w
  }

  function PeakOf(obs: seq<Observation>): int
    requires obs != []
  {
    if |obs| == 1 then obs[0].bitrate else Max(PeakOf(obs[..|obs| - 1]), obs[|obs| - 1].bitrate)
  }

  function FurthestOf(obs: seq<Observation>): int
    requires obs != []
  {
    if |obs| == 1 then obs[0].position else Max(FurthestOf(obs[..|obs| - 1]), obs[|obs| - 1].position)
  }

  predicate Follows(history: map<string, History>, k: string, w: Option<Watch>) {
    && (k in history <==> w.Some?)
    && (w.Some? ==>
          && w.value.seen != [] && history[k].started == w.value.started && history[k].transcoding == w.value.seen[0].transcoding
          && history[k].peak == PeakOf(w.value.seen) && history[k].maxPosition == FurthestOf(w.value.seen))
  }

  lemma UpsertFollows(history: map<string, History>, o: Observation, now: int, k: string, w: Option<Watch>)
    requires Follows(history, k, w)
    ensures Follows(UpsertHistory(history, o, now), k, Continued(w, now, if PlaybackKey(o) == k then [o] else []))
  {
    if PlaybackKey(o) == k {
      if w.Some? { assert (w.value.seen + [o])[..|w.value.seen|] == w.value.seen; }
    } else if w.Some? {
      assert w.value.seen + [] == w.value.seen;
    }
  }

  lemma ContinuedTwice(w: Option<Watch>, now: int, first: seq<Observation>, rest: seq<Observation>)
    ensures Continued(Continued(w, now, first), now, rest) == Continued(w, now, first + rest)
  {
    if w.Some? { assert w.value.seen + first + rest == w.value.seen + (first + rest); }
    if first == [] { assert first + rest == rest; }
  }

  lemma {:induction false} IngestAllFollows(db: Db, now: int, obs: seq<Observation>, k: string, w: Option<Watch>)
    requires Follows(db.history, k, w)
    ensures Follows(IngestAll(db, now, obs).history, k, Continued(w, now, Of(obs, k)))
  {
    if obs == [] {
      if w.Some? { assert w.value.seen + [] == w.value.seen; }
    } else {
      var front, o := obs[..|obs| - 1], obs[|obs| - 1];
      IngestAllFollows(db, now, front, k, w);
      var s := IngestAll(db, now, front);
      var ended := EndKeys(s.history, StaleKeys(s.sessions, o.session, PlaybackKey(o)), now);
      assert Follows(ended, k, Continued(w, now, Of(front, k)));
      UpsertFollows(ended, o, now, k, Continued(w, now, Of(front, k)));
      ContinuedTwice(w, now, Of(front, k), if PlaybackKey(o) == k then [o] else []);
    }
  }

  lemma IngestFollows(db: Db, s: Snapshot, k: string, w: Option<Watch>)
    requires Follows(db.history, k, w)
    ensures Follows(Ingest(db, s.now, s.obs, s.retentionDays).history, k, WatchedNext(w, s, k))
  {
    IngestAllFollows(db, s.now, s.obs, k, w);
    var kept := Observed(db, s.now, s.obs).history;
    assert Follows(kept, k, Continued(w, s.now, Of(s.obs, k)));
  }

  lemma {:induction false} RunFollows(snapshots: seq<Snapshot>, k: string)
    ensures Follows(Run(EMPTY, snapshots).history, k, Watched(snapshots, k))
  {
    if snapshots != [] {
      var front, s := snapshots[..|snapshots| - 1], snapshots[|snapshots| - 1];
      RunFollows(front, k);
      IngestFollows(Run(EMPTY, front), s, k, Watched(front, k));
    }
  }

  lemma {:induction false} MaximaOf(obs: seq<Observation>, i: nat)
    requires i < |obs|
    ensures PeakOf(obs) >= obs[i].bitrate && FurthestOf(obs) >= obs[i].position
  {
    if i < |obs| - 1 { MaximaOf(obs[..|obs| - 1], i); }
  }

  lemma {:induction false} MaximaAttained(obs: seq<Observation>)
    requires obs != []
    ensures exists i :: 0 <= i < |obs| && obs[i].bitrate == PeakOf(obs)
    ensures exists i :: 0 <= i < |obs| && obs[i].position == FurthestOf(obs)
  {
    var front := obs[..|obs| - 1];
    if |obs| > 1 {
      MaximaAttained(front);
      var i :| 0 <= i < |front| && front[i].bitrate == PeakOf(front);
      var j :| 0 <= j < |front| && front[j].position == FurthestOf(front);
      assert obs[i] == front[i] && obs[j] == front[j];
      assert obs[|obs| - 1].bitrate == PeakOf(obs) || obs[i].bitrate == PeakOf(obs);
      assert obs[|obs| - 1].position == FurthestOf(obs) || obs[j].position == FurthestOf(obs);
    } else {
      assert obs[0].bitrate == PeakOf(obs) && obs[0].position == FurthestOf(obs);
    }
  }

  /** The row's numbers are the largest of these observations. */
  predicate LargestOf(h: History, seen: seq<Observation>) {
    && (forall i :: 0 <= i < |seen| ==> h.peak >= seen[i].bitrate && h.maxPosition >= seen[i].position)
    && (exists i :: 0 <= i < |seen| && h.peak == seen[i].bitrate)
    && (exists i :: 0 <= i < |seen| && h.maxPosition == seen[i].position)
  }

  /** After every run of snapshots the history has exactly the rows that the snapshots call
      for, each since its first observation, and a row's bitrate and position are the largest
      ever observed of its key since then. */
  lemma HistoryHoldsMaxima(snapshots: seq<Snapshot>, k: string)
    ensures var history, w := Run(EMPTY, snapshots).history, Watched(snapshots, k);
      && (k in history <==> w.Some?)
      && (w.Some? ==> && w.value.seen != [] && history[k].started == w.value.started
                      && history[k].transcoding == w.value.seen[0].transcoding && LargestOf(history[k], w.value.seen))
  {
    RunFollows(snapshots, k);
    var history, w := Run(EMPTY, snapshots).history, Watched(snapshots, k);
    if w.Some? {
      MaximaAttained(w.value.seen);
      forall i: nat | i < |w.value.seen| ensures history[k].peak >= w.value.seen[i].bitrate && history[k].maxPosition >= w.value.seen[i].position {
        MaximaOf(w.value.seen, i);
      }
    }
  }

  /** More observations never make the largest smaller. */
  lemma MoreIsLarger(h: History, seen: seq<Observation>, g: History, more: seq<Observation>)
    requires LargestOf(h, seen) && LargestOf(g, seen + more)
    ensures g.peak >= h.peak && g.maxPosition >= h.maxPosition
  {
    assert forall i :: 0 <= i < |seen| ==> (seen + more)[i] == seen[i];
  }

  lemma LastCounts(g: History, seen: seq<Observation>, obs: seq<Observation>, k: string, o: Observation)
    requires LargestOf(g, seen + Of(obs, k)) && o in obs && PlaybackKey(o) == k
    ensures g.peak >= o.bitrate && g.maxPosition >= o.position
  {
    OfHas(obs, k, o);
    assert o in seen + Of(obs, k);
  }

  /** What the last snapshot observed counts, and while a row is kept nothing lowers it. */
  lemma MaximaNeverFall(snapshots: seq<Snapshot>, s: Snapshot, k: string)
    requires k in Run(EMPTY, snapshots + [s]).history
    ensures var h := Run(EMPTY, snapshots + [s]).history[k];
      && (forall o :: o in s.obs && PlaybackKey(o) == k ==> h.peak >= o.bitrate && h.maxPosition >= o.position)
      && (k in Run(EMPTY, snapshots).history ==>
            var before := Run(EMPTY, snapshots).history[k];
            h.started == before.started && h.peak >= before.peak && h.maxPosition >= before.maxPosition)
  {
    var before, after := Run(EMPTY, snapshots).history, Run(EMPTY, snapshots + [s]).history;
    HistoryHoldsMaxima(snapshots, k);
    HistoryHoldsMaxima(snapshots + [s], k);
    assert (snapshots + [s])[..|snapshots|] == snapshots;
    var w := Watched(snapshots, k);
    var seen := if w.Some? then w.value.seen else [];
    assert Watched(snapshots + [s], k) == WatchedNext(w, s, k);
    assert seen + Of(s.obs, k) == Continued(w, s.now, Of(s.obs, k)).value.seen;
    forall o | o in s.obs && PlaybackKey(o) == k ensures after[k].peak >= o.bitrate && after[k].maxPosition >= o.position {
      LastCounts(after[k], seen, s.obs, k, o);
    }
    if w.Some? { MoreIsLarger(before[k], seen, after[k], Of(s.obs, k)); }
  }

  lemma {:induction false} OfHas(obs: seq<Observation>, k: string, o: Observation)
    requires o in obs && PlaybackKey(o) == k
    ensures o in Of(obs, k)
  {
    if obs[|obs| - 1] != o { OfHas(obs[..|obs| - 1], k, o); }
  }

  // ---- Device counters ----

  ghost function SumSessions(devices: map<(string, string), Device>): nat {
    if devices == map[] then 0
    else var d :| d in devices; devices[d].sessions + SumSessions(devices - {d})
  }

  ghost function SumTranscodes(devices: map<(string, string), Device>): nat {
    if devices == map[] then 0
    else var d :| d in devices; devices[d].transcodes + SumTranscodes(devices - {d})
  }

  /** The sums do not depend on the order in which devices are taken. */
  lemma {:induction false} SumsTake(devices: map<(string, string), Device>, d: (string, string))
    requires d in devices
    ensures SumSessions(devices) == devices[d].sessions + SumSessions(devices - {d})
    ensures SumTranscodes(devices) == devices[d].transcodes + SumTranscodes(devices - {d})
    decreases |devices|
  {
    SessionsTake(devices, d);
    TranscodesTake(devices, d);
  }

  lemma {:induction false} SessionsTake(devices: map<(string, string), Device>, d: (string, string))
    requires d in devices
    ensures SumSessions(devices) == devices[d].sessions + SumSessions(devices - {d})
    decreases |devices|
  {
    var e :| e in devices && SumSessions(devices) == devices[e].sessions + SumSessions(devices - {e});
    if e != d {
      SessionsTake(devices - {e}, d);
      SessionsTake(devices - {d}, e);
      assert devices - {e} - {d} == devices - {d} - {e};
    }
  }

  lemma {:induction false} TranscodesTake(devices: map<(string, string), Device>, d: (string, string))
    requires d in devices
    ensures SumTranscodes(devices) == devices[d].transcodes + SumTranscodes(devices - {d})
    decreases |devices|
  {
    var e :| e in devices && SumTranscodes(devices) == devices[e].transcodes + SumTranscodes(devices - {e});
    if e != d {
      TranscodesTake(devices - {e}, d);
      TranscodesTake(devices - {d}, e);
      assert devices - {e} - {d} == devices - {d} - {e};
    }
  }

  lemma UpsertDeviceSums(devices: map<(string, string), Device>, o: Observation, isNew: bool)
    ensures SumSessions(UpsertDevice(devices, o, isNew)) == SumSessions(devices) + if isNew then 1 else 0
    ensures SumTranscodes(UpsertDevice(devices, o, isNew)) == SumTranscodes(devices) + if isNew && o.transcoding then 1 else 0
  {
    var d, t := DeviceKey(o), UpsertDevice(devices, o, isNew);
    SumsTake(t, d);
    if d in devices {
      SumsTake(devices, d);
      assert t - {d} == devices - {d};
    } else {
      assert t - {d} == devices;
    }
  }

  ghost predicate Counted(db: Db) {
    SumSessions(db.devices) == db.inserted && SumTranscodes(db.devices) == db.insertedTranscoding
  }

  lemma {:induction false} IngestAllCounts(db: Db, now: int, obs: seq<Observation>)
    requires Counted(db)
    ensures Counted(IngestAll(db, now, obs))
  {
    if obs != [] {
      var front, o := obs[..|obs| - 1], obs[|obs| - 1];
      IngestAllCounts(db, now, front);
      UpsertDeviceSums(IngestAll(db, now, front).devices, o, PlaybackKey(o) !in IngestAll(db, now, front).history);
    }
  }

  /** Over any run the session counts of all devices add up to the history rows ever
      inserted, and their transcode counts to those inserted while transcoding. */
  lemma {:induction false} DeviceCountsAddUp(snapshots: seq<Snapshot>)
    ensures Counted(Run(EMPTY, snapshots))
  {
    if snapshots != [] {
      var s := snapshots[|snapshots| - 1];
      DeviceCountsAddUp(snapshots[..|snapshots| - 1]);
      IngestAllCounts(Run(EMPTY, snapshots[..|snapshots| - 1]), s.now, s.obs);
    }
  }

  // ---- Any session ids ----

  /** Every open history row is a live session's. */
  predicate Covered(db: Db) {
    forall k :: k in db.history ==> (IsOpen(db.history, k) ==> k in LiveKeys(db.sessions))
  }

  lemma IngestOneCovers(db: Db, now: int, o: Observation)
    requires Covered(db)
    ensures Covered(IngestOne(db, now, o))
  {
    var t := IngestOne(db, now, o);
    forall k | k in t.history && IsOpen(t.history, k) ensures k in LiveKeys(t.sessions) {
      if k == PlaybackKey(o) {
        assert t.sessions[o.session].key == k;
      } else {
        assert IsOpen(db.history, k);
        var s :| s in db.sessions && db.sessions[s].key == k;
        assert s != o.session && t.sessions[s].key == k;
      }
    }
  }

  lemma {:induction false} IngestAllCovers(db: Db, now: int, obs: seq<Observation>)
    requires Covered(db)
    ensures Covered(IngestAll(db, now, obs))
  {
    if obs != [] {
      IngestAllCovers(db, now, obs[..|obs| - 1]);
      IngestOneCovers(IngestAll(db, now, obs[..|obs| - 1]), now, obs[|obs| - 1]);
    }
  }

  lemma IngestCovers(db: Db, now: int, obs: seq<Observation>, retentionDays: int)
    requires Covered(db)
    ensures Covered(Ingest(db, now, obs, retentionDays))
  {
    IngestAllCovers(db, now, obs);
    var all, t, seen := IngestAll(db, now, obs), Ingest(db, now, obs, retentionDays), SessionIds(obs);
    if seen != {} {
      forall g | g in all.sessions && g !in seen ensures all.sessions[g].key in LiveKeys(Unseen(all.sessions, seen)) {
        assert Unseen(all.sessions, seen)[g].key == all.sessions[g].key;
      }
      forall k | k in t.history && IsOpen(t.history, k) ensures k in LiveKeys(t.sessions) {
        assert IsOpen(all.history, k);
        var s :| s in all.sessions && all.sessions[s].key == k;
        assert s in seen && t.sessions[s].key == k;
      }
    }
  }

  /** Whatever the ids look like, after every run an open history row belongs to a live session. */
  lemma {:induction false} OpenRowsAreLive(snapshots: seq<Snapshot>)
    ensures Covered(Run(EMPTY, snapshots))
  {
    if snapshots != [] {
      var s := snapshots[|snapshots| - 1];
      OpenRowsAreLive(snapshots[..|snapshots| - 1]);
      IngestCovers(Run(EMPTY, snapshots[..|snapshots| - 1]), s.now, s.obs, s.retentionDays);
    }
  }

  /** Some observation made its session leave key `k`, and none after it observed `k`. */
  predicate LeftBehind(db: Db, now: int, obs: seq<Observation>, k: string) {
    obs != [] &&
    var front, o := obs[..|obs| - 1], obs[|obs| - 1];
    && PlaybackKey(o) != k
    && (LeftBehind(db, now, front, k) || k in StaleKeys(IngestAll(db, now, front).sessions, o.session, PlaybackKey(o)))
  }

  predicate Observes(obs: seq<Observation>, k: string) {
    exists o :: o in obs && PlaybackKey(o) == k
  }

  lemma ObservesLast(obs: seq<Observation>, k: string)
    requires obs != []
    ensures Observes(obs, k) <==> Observes(obs[..|obs| - 1], k) || PlaybackKey(obs[|obs| - 1]) == k
  {
    assert obs[|obs| - 1] in obs;
    assert forall o :: o in obs <==> o in obs[..|obs| - 1] || o == obs[|obs| - 1];
  }

  lemma OpenAfterOne(db: Db, now: int, o: Observation, k: string)
    ensures IsOpen(IngestOne(db, now, o).history, k)
            <==> PlaybackKey(o) == k || (IsOpen(db.history, k) && k !in StaleKeys(db.sessions, o.session, PlaybackKey(o)))
  {
  }

  lemma {:induction false} OpenAfterAll(db: Db, now: int, obs: seq<Observation>, k: string)
    ensures IsOpen(IngestAll(db, now, obs).history, k)
            <==> (Observes(obs, k) || IsOpen(db.history, k)) && !LeftBehind(db, now, obs, k)
  {
    if obs != [] {
      var front := obs[..|obs| - 1];
      OpenAfterAll(db, now, front, k);
      ObservesLast(obs, k);
      OpenAfterOne(IngestAll(db, now, front), now, obs[|obs| - 1], k);
    }
  }

  lemma {:induction false} SessionsAfterAll(db: Db, now: int, obs: seq<Observation>, s: string)
    ensures var t := IngestAll(db, now, obs).sessions;
      && (s in SessionIds(obs) ==> s in t && Observes(obs, t[s].key))
      && (s !in SessionIds(obs) ==> (s in t <==> s in db.sessions) && (s in t ==> t[s] == db.sessions[s]))
  {
    if obs != [] {
      var front, o := obs[..|obs| - 1], obs[|obs| - 1];
      SessionsAfterAll(db, now, front, s);
      assert forall x :: x in obs <==> x in front || x == o;
      assert SessionIds(obs) == SessionIds(front) + {o.session};
      if s == o.session {
        ObservesLast(obs, PlaybackKey(o));
      } else if s in SessionIds(front) {
        ObservesLast(obs, IngestAll(db, now, front).sessions[s].key);
      }
    }
  }

  lemma UnseenUnchanged(db: Db, now: int, obs: seq<Observation>)
    ensures Unseen(IngestAll(db, now, obs).sessions, SessionIds(obs)) == Unseen(db.sessions, SessionIds(obs))
  {
    var t, seen := IngestAll(db, now, obs).sessions, SessionIds(obs);
    forall s ensures s in Unseen(t, seen) <==> s in Unseen(db.sessions, seen)
             ensures s in Unseen(t, seen) ==> Unseen(t, seen)[s] == Unseen(db.sessions, seen)[s] {
      SessionsAfterAll(db, now, obs, s);
    }
  }

  /** Whatever the ids look like: the row of a session seen in a snapshot is open after it,
      unless retention deletes it, exactly when no observation left its key behind and no
      session missing from the snapshot had the same key. */
  lemma OpenExactlyWhen(db: Db, now: int, obs: seq<Observation>, retentionDays: int, s: string)
    requires s in SessionIds(obs)
    ensures var t := Ingest(db, now, obs, retentionDays);
      && s in t.sessions
      && (t.sessions[s].key in t.history ==>
            (IsOpen(t.history, t.sessions[s].key)
             <==> !LeftBehind(db, now, obs, t.sessions[s].key) && t.sessions[s].key !in LiveKeys(Unseen(db.sessions, SessionIds(obs)))))
  {
    SessionsAfterAll(db, now, obs, s);
    var k := Ingest(db, now, obs, retentionDays).sessions[s].key;
    OpenAfterAll(db, now, obs, k);
    UnseenUnchanged(db, now, obs);
  }

  lemma TwoSnapshots(s: Snapshot, t: Snapshot)
    ensures Run(EMPTY, [s, t]) == Ingest(Ingest(EMPTY, s.now, s.obs, s.retentionDays), t.now, t.obs, t.retentionDays)
  {
    assert [s, t][..1] == [s] && [s][..0] == [];
    assert Run(EMPTY, [s]) == Ingest(Run(EMPTY, [s][..0]), s.now, s.obs, s.retentionDays);
  }

  lemma IngestSingle(db: Db, now: int, o: Observation)
    ensures IngestAll(db, now, [o]) == IngestOne(db, now, o)
  {
    assert [o][..0] == [];
    assert IngestAll(db, now, [o][..0]) == db;
  }

  /** A session that stops ends the row of a session that goes on, if they share the key. */
  lemma SharedRowEnds(db: Db, now: int, b: Observation, gone: string, retentionDays: int)
    requires gone in db.sessions && gone != b.session && db.sessions[gone].key == PlaybackKey(b)
    requires PlaybackKey(b) in db.history && db.history[PlaybackKey(b)].started >= Cutoff(now, retentionDays)
    ensures var t := Ingest(db, now, [b], retentionDays);
      && b.session in t.sessions && t.sessions[b.session].key == PlaybackKey(b)
      && PlaybackKey(b) in t.history && !IsOpen(t.history, PlaybackKey(b))
  {
    IngestSingle(db, now, b);
    assert SessionIds([b]) == {b.session} && b in [b];
    assert Unseen(db.sessions, {b.session})[gone].key == PlaybackKey(b);
    OpenExactlyWhen(db, now, [b], retentionDays, b.session);
  }

  lemma BothLive(a: Observation, b: Observation, now: int, retentionDays: int)
    requires a.session != b.session && PlaybackKey(a) == PlaybackKey(b)
    ensures var t := Ingest(EMPTY, now, [a, b], retentionDays);
      && t.sessions.Keys == {a.session, b.session}
      && t.sessions[a.session].key == PlaybackKey(a) && t.sessions[b.session].key == PlaybackKey(a)
      && t.history.Keys == {PlaybackKey(a)} && t.history[PlaybackKey(a)].started == now
  {
    assert [a, b][..1] == [a] && SessionIds([a, b]) == {a.session, b.session};
    IngestSingle(EMPTY, now, a);
    assert IngestAll(EMPTY, now, [a, b]) == IngestOne(IngestAll(EMPTY, now, [a]), now, b);
  }

  /** Ids are joined to items with a colon, so the keys of two live sessions can coincide
      when one id extends the other past a colon. When one of them stops, the shared row
      ends although the other session goes on. */
  lemma ColonIdsBreakAgreement(a: Observation, b: Observation, now: int, retentionDays: int)
    requires a.session == "a:b" && a.item == "c" && b.session == "a" && b.item == "b:c"
    ensures var t := Run(EMPTY, [Snapshot(now, [a, b], retentionDays), Snapshot(now + 60, [b], retentionDays)]);
      "a" in t.sessions && t.sessions["a"].key in t.history && !IsOpen(t.history, t.sessions["a"].key)
  {
    assert PlaybackKey(a) == "a:b:c" && PlaybackKey(b) == "a:b:c" && "a:b" != "a";
    TwoSnapshots(Snapshot(now, [a, b], retentionDays), Snapshot(now + 60, [b], retentionDays));
    BothLive(a, b, now, retentionDays);
    SharedRowEnds(Ingest(EMPTY, now, [a, b], retentionDays), now + 60, b, "a:b", retentionDays);
  }
}
