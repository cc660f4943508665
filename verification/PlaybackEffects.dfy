/** What the snapshots of one instance say about its sessions, the ends of its history rows
    and its devices, compared with the tables (ingestPlaybackTx and IngestPlaybackSnapshot in
    v3/internal/platform/risk.go). */
module PlaybackEffects {
  import opened Options
  import opened Text
  import opened Playback

  // ---- Sessions ----

  lemma {:induction false} LastOfSession(db: Db, now: int, obs: seq<Observation>, i: nat)
    requires i < |obs| && forall j :: i < j < |obs| ==> obs[j].session != obs[i].session
    ensures var t := IngestAll(db, now, obs).sessions; obs[i].session in t && t[obs[i].session] == Session(PlaybackKey(obs[i]), obs[i])
  {
    var front := obs[..|obs| - 1];
    if i < |front| {
      assert forall j :: 0 <= j < |front| ==> front[j] == obs[j];
      LastOfSession(db, now, front, i);
    }
  }

  /** Whatever was live before: after a snapshot exactly its session ids are live, and each
      holds the last observation of its id. */
  lemma SessionsHoldTheLast(db: Db, now: int, obs: seq<Observation>, retentionDays: int)
    ensures var t := Ingest(db, now, obs, retentionDays).sessions;
      && t.Keys == SessionIds(obs)
      && forall i :: 0 <= i < |obs| && (forall j :: i < j < |obs| ==> obs[j].session != obs[i].session) ==>
           t[obs[i].session] == Session(obs[i].session + (":" + obs[i].item), obs[i])
  {
    var all, t := IngestAll(db, now, obs).sessions, Ingest(db, now, obs, retentionDays).sessions;
    forall s ensures s in SessionIds(obs) ==> s in all {
      SessionsAfterAll(db, now, obs, s);
    }
    if obs != [] { assert obs[0] in obs && obs[0].session in SessionIds(obs); }
    assert t.Keys == SessionIds(obs);
    forall i: nat | i < |obs| && forall j :: i < j < |obs| ==> obs[j].session != obs[i].session
      ensures t[obs[i].session] == Session(obs[i].session + (":" + obs[i].item), obs[i])
    {
      LastOfSession(db, now, obs, i);
      assert obs[i] in obs && obs[i].session in SessionIds(obs);
    }
  }

  // ---- The end of a row ----

  /** A new, observed or open row is open or ended now; any other keeps its end. */
  predicate EndFits(before: Option<History>, after: History, touched: bool, now: int) {
    if touched || before == None || before.value.ended == None then after.ended == None || after.ended == Some(now)
    else after.ended == before.value.ended
  }

  function RowOf(db: Db, k: string): Option<History> {
    if k in db.history then Some(db.history[k]) else None
  }

  lemma EndAfterOne(db: Db, now: int, o: Observation, k: string)
    ensures var t := IngestOne(db, now, o);
      && (k in t.history <==> k in db.history || PlaybackKey(o) == k)
      && (k in t.history ==> EndFits(RowOf(db, k), t.history[k], PlaybackKey(o) == k, now))
  {
  }

  lemma {:induction false} EndAfterAll(db: Db, now: int, obs: seq<Observation>, k: string)
    ensures var t := IngestAll(db, now, obs);
      && (k in t.history <==> k in db.history || Observes(obs, k))
      && (k in t.history ==> EndFits(RowOf(db, k), t.history[k], Observes(obs, k), now))
  {
    if obs != [] {
      EndAfterAll(db, now, obs[..|obs| - 1], k);
      ObservesLast(obs, k);
      EndAfterOne(IngestAll(db, now, obs[..|obs| - 1]), now, obs[|obs| - 1], k);
    }
  }

  /** A row that a snapshot observed or found open, and that is ended after it, was ended at
      the time of that snapshot; any other ended row keeps the time it had. */
  lemma EndedAtTheSnapshot(db: Db, now: int, obs: seq<Observation>, retentionDays: int, k: string)
    requires k in Ingest(db, now, obs, retentionDays).history
    ensures (k in db.history || Observes(obs, k))
            && EndFits(RowOf(db, k), Ingest(db, now, obs, retentionDays).history[k], Observes(obs, k), now)
  {
    EndAfterAll(db, now, obs, k);
  }

  // ---- Devices ----

  /** A device is known by its id, or by a derived key if the id is blank. */
  predicate From(o: Observation, d: (string, string)) {
    o.user == d.0 && d.1 == if TrimSpace(o.deviceId) == "" then o.derived else TrimSpace(o.deviceId)
  }

  /** How many of these observations of a device are the first of a key that has no row,
      all of them or only those that transcode. */
  function OpenedBy(earlier: seq<Snapshot>, obs: seq<Observation>, d: (string, string), transcoding: bool): nat {
    if obs == [] then 0
    else
      var front, o := obs[..|obs| - 1], obs[|obs| - 1];
      var first := Watched(earlier, PlaybackKey(o)) == None && Of(front, PlaybackKey(o)) == [];
      OpenedBy(earlier, front, d, transcoding) + if From(o, d) && first && (transcoding ==> o.transcoding) then 1 else 0
  }

  function OpenedInRun(snapshots: seq<Snapshot>, d: (string, string), transcoding: bool): nat {
    if snapshots == [] then 0
    else
      var front := snapshots[..|snapshots| - 1];
      OpenedInRun(front, d, transcoding) + OpenedBy(front, snapshots[|snapshots| - 1].obs, d, transcoding)
  }

  /** Every bitrate the device was seen with. */
  function Bitrates(obs: seq<Observation>, d: (string, string)): seq<int> {
    if obs == [] then []
    else
      var o := obs[|obs| - 1];
      Bitrates(obs[..|obs| - 1], d) + if From(o, d) then [o.bitrate] else []
  }

  function BitratesInRun(snapshots: seq<Snapshot>, d: (string, string)): seq<int> {
    if snapshots == [] then []
    else BitratesInRun(snapshots[..|snapshots| - 1], d) + Bitrates(snapshots[|snapshots| - 1].obs, d)
  }

  predicate Largest(m: int, values: seq<int>) {
    m in values && forall v :: v in values ==> v <= m
  }

  /** What a device's row says, given what the device did. */
  predicate Profiled(devices: map<(string, string), Device>, d: (string, string), bitrates: seq<int>, sessions: nat, transcodes: nat) {
    && (d in devices <==> bitrates != [])
    && (d in devices ==> devices[d].sessions == sessions && devices[d].transcodes == transcodes && Largest(devices[d].maxBitrate, bitrates))
    && (d !in devices ==> sessions == 0 && transcodes == 0)
  }

  lemma UpsertProfiles(devices: map<(string, string), Device>, o: Observation, isNew: bool, d: (string, string),
                       bitrates: seq<int>, sessions: nat, transcodes: nat)
    requires Profiled(devices, d, bitrates, sessions, transcodes)
    ensures Profiled(UpsertDevice(devices, o, isNew), d, bitrates + (if From(o, d) then [o.bitrate] else []),
                     sessions + (if From(o, d) && isNew then 1 else 0),
                     transcodes + (if From(o, d) && isNew && o.transcoding then 1 else 0))
  {
    if DeviceKey(o) == d {
      assert From(o, d);
      assert o.bitrate in bitrates + [o.bitrate];
      if d in devices {
        assert devices[d].maxBitrate in bitrates + [o.bitrate];
      }
    } else {
      assert !From(o, d);
      assert bitrates + [] == bitrates;
    }
  }

  lemma {:induction false} IngestAllProfiles(earlier: seq<Snapshot>, db: Db, now: int, obs: seq<Observation>, d: (string, string),
                                             bitrates: seq<int>, sessions: nat, transcodes: nat)
    requires db == Run(EMPTY, earlier)
    requires Profiled(db.devices, d, bitrates, sessions, transcodes)
    ensures Profiled(IngestAll(db, now, obs).devices, d, bitrates + Bitrates(obs, d), sessions + OpenedBy(earlier, obs, d, false),
                     transcodes + OpenedBy(earlier, obs, d, true))
  {
    if obs == [] {
      assert bitrates + [] == bitrates;
    } else {
      var front, o := obs[..|obs| - 1], obs[|obs| - 1];
      IngestAllProfiles(earlier, db, now, front, d, bitrates, sessions, transcodes);
      var s, k := IngestAll(db, now, front), PlaybackKey(o);
      RunFollows(earlier, k);
      IngestAllFollows(db, now, front, k, Watched(earlier, k));
      UpsertProfiles(s.devices, o, k !in s.history, d, bitrates + Bitrates(front, d),
                     sessions + OpenedBy(earlier, front, d, false), transcodes + OpenedBy(earlier, front, d, true));
      var last := if From(o, d) then [o.bitrate] else [];
      assert bitrates + Bitrates(front, d) + last == bitrates + (Bitrates(front, d) + last);
    }
  }

  /** After every run of snapshots a device has a row exactly if it was ever observed; the row
      counts the playbacks that the device began, and those that began transcoding, and its
      bitrate is the largest it was seen with. */
  lemma {:induction false} DevicesFollow(snapshots: seq<Snapshot>, d: (string, string))
    ensures Profiled(Run(EMPTY, snapshots).devices, d, BitratesInRun(snapshots, d), OpenedInRun(snapshots, d, false),
                     OpenedInRun(snapshots, d, true))
  {
    if snapshots != [] {
      var front, s := snapshots[..|snapshots| - 1], snapshots[|snapshots| - 1];
      DevicesFollow(front, d);
      IngestAllProfiles(front, Run(EMPTY, front), s.now, s.obs, d, BitratesInRun(front, d), OpenedInRun(front, d, false),
                        OpenedInRun(front, d, true));
    }
  }
}
