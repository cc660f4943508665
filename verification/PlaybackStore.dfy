/** A snapshot ingested statement by statement (IngestPlaybackSnapshot and
    ingestPlaybackTx in v3/internal/platform/risk.go). */
module PlaybackStore {
  import opened Options
  import opened Playback

  class Store {
    var sessions: map<string, Session>
    var history: map<string, History>
    var devices: map<(string, string), Device>
    var inserted: nat
    var insertedTranscoding: nat

    function State(): Db
      reads this
    {
      Db(sessions, history, devices, inserted, insertedTranscoding)
    }

    /** UPDATE playback_history SET ended_at over the open rows with these keys. */
    method End(keys: set<string>, now: int)
      modifies this`history
      ensures history == EndKeys(old(history), keys, now)
    {
      var left, rows := history.Keys * keys, history;
      while left != {}
        invariant left <= rows.Keys * keys && history.Keys == rows.Keys
        invariant forall k :: k in rows ==> history[k] == Swept(rows[k], k in keys && k !in left, now)
        decreases |left|
      {
        var k :| k in left;
        if history[k].ended == None {
          history := history[k := history[k].(ended := Some(now))];
        }
        left := left - {k};
      }
      assert forall k :: k in rows ==> history[k] == EndKeys(rows, keys, now)[k];
    }

    /** The history INSERT, or the UPDATE when the key is there. */
    method RecordHistory(o: Observation, now: int) returns (isNew: bool)
      modifies this`history
      ensures history == UpsertHistory(old(history), o, now) && isNew == (PlaybackKey(o) !in old(history))
    {
      var k := PlaybackKey(o);
      isNew := k !in history;
      if isNew {
        history := history[k := History(now, None, o.bitrate, o.position, o.transcoding)];
      } else {
        var h := history[k];
        history := history[k := h.(peak := Max(h.peak, o.bitrate), maxPosition := Max(h.maxPosition, o.position), ended := None)];
      }
    }

    method RecordDevice(o: Observation, isNew: bool)
      modifies this`devices
      ensures devices == UpsertDevice(old(devices), o, isNew)
    {
      var increment, transcode := 0, 0;
      if isNew {
        increment := 1;
        if o.transcoding {
          transcode := 1;
        }
      }
      var d := DeviceKey(o);
      if d in devices {
        devices := devices[d := Device(devices[d].sessions + increment, devices[d].transcodes + transcode,
                                       Max(devices[d].maxBitrate, o.bitrate))];
      } else {
        devices := devices[d := Device(increment, transcode, o.bitrate)];
      }
    }

    /** End the row of a session that now plays something else. */
    method EndStale(session: string, key: string, now: int)
      modifies this`history
      ensures history == EndKeys(old(history), StaleKeys(sessions, session, key), now)
      ensures history.Keys == old(history).Keys
    {
      var stale := {};
      if session in sessions && sessions[session].key != key {
        stale := {sessions[session].key};
      }
      End(stale, now);
    }

    method IngestPlayback(o: Observation, now: int)
      modifies this
      ensures State() == IngestOne(old(State()), now, o)
    {
      var k := PlaybackKey(o);
      EndStale(o.session, k, now);
      sessions := sessions[o.session := Session(k, o)];
      var isNew := RecordHistory(o, now);
      RecordDevice(o, isNew);
      CountInserted(isNew, o.transcoding);
    }

    method CountInserted(isNew: bool, transcoding: bool)
      modifies this`inserted, this`insertedTranscoding
      ensures inserted == old(inserted) + (if isNew then 1 else 0)
      ensures insertedTranscoding == old(insertedTranscoding) + (if isNew && transcoding then 1 else 0)
    {
      if isNew {
        inserted := inserted + 1;
        if transcoding {
          insertedTranscoding := insertedTranscoding + 1;
        }
      }
    }

    method CloseOthers(seen: set<string>, now: int)
      modifies this`sessions, this`history
      ensures State() == CloseUnseen(old(State()), now, seen)
    {
      if seen == {} {
        End(history.Keys, now);
        sessions := map[];
      } else {
        End(LiveKeys(Unseen(sessions, seen)), now);
        sessions := map s | s in sessions && s in seen :: sessions[s];
      }
    }

    method IngestObservations(now: int, obs: seq<Observation>) returns (seen: set<string>)
      modifies this
      ensures State() == IngestAll(old(State()), now, obs) && seen == SessionIds(obs)
    {
      seen := {};
      for i := 0 to |obs|
        invariant State() == IngestAll(old(State()), now, obs[..i])
        invariant seen == SessionIds(obs[..i])
      {
        assert obs[..i + 1][..i] == obs[..i];
        SessionIdsAppend(obs[..i], obs[i]);
        assert obs[..i + 1] == obs[..i] + [obs[i]];
        seen := seen + {obs[i].session};
        IngestPlayback(obs[i], now);
      }
      assert obs[..|obs|] == obs;
    }

    method DeleteOld(cutoff: int)
      modifies this`history
      ensures State() == Purge(old(State()), cutoff)
    {
      history := map k | k in history && history[k].started >= cutoff :: history[k];
    }

    method IngestSnapshot(now: int, obs: seq<Observation>, retentionDays: int)
      modifies this
      ensures State() == Ingest(old(State()), now, obs, retentionDays)
    {
      var days := retentionDays;
      if days < 1 {
        days := 180;
      }
      var seen := IngestObservations(now, obs);
      CloseOthers(seen, now);
      DeleteOld(now - days * DAY);
    }
  }

  function Swept(h: History, ending: bool, now: int): History {
    if ending then EndAt(h, now) else h
  }

  lemma SessionIdsAppend(obs: seq<Observation>, o: Observation)
    ensures SessionIds(obs + [o]) == SessionIds(obs) + {o.session}
  {
    assert forall x :: x in obs + [o] <==> x in obs || x == o;
  }
}
