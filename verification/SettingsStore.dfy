/** The store as the program runs it: fields updated in place, each method proved to
    perform the transition of the same name in `SettingsClient`. */
module SettingsStores {
  import opened Prelude
  import opened SettingsClient

  /** `target` with every entry of `edits` inserted, one at a time. */
  method InsertAll<V>(target: map<string, V>, edits: map<string, V>) returns (r: map<string, V>)
    ensures r == target + edits
  {
    r := target;
    var todo := edits.Keys;
    while todo != {}
      invariant todo <= edits.Keys
      invariant r.Keys == target.Keys + (edits.Keys - todo)
      invariant forall k :: k in r ==> r[k] == if k in edits && k !in todo then edits[k] else target[k]
      decreases todo
    {
      var key :| key in todo;
      r := r[key := edits[key]];
      todo := todo - {key};
    }
  }

  /** `target` with the entries of `edits` whose key it lacks. */
  method OrInsertAll<V>(target: map<string, V>, edits: map<string, V>) returns (r: map<string, V>)
    ensures r == edits + target
  {
    r := target;
    var todo := edits.Keys;
    while todo != {}
      invariant todo <= edits.Keys
      invariant r.Keys == target.Keys + (edits.Keys - todo)
      invariant forall k :: k in r ==> r[k] == if k in target then target[k] else edits[k]
      decreases todo
    {
      var key :| key in todo;
      if key !in r {
        r := r[key := edits[key]];
      }
      todo := todo - {key};
    }
  }

  /** The preference edits split by whether they go to the cloud. */
  method Partition(prefs: map<string, (Json, bool)>) returns (synced: map<string, Json>, local: map<string, Json>)
    ensures synced == Part(prefs, true) && local == Part(prefs, false)
  {
    synced, local := map[], map[];
    var todo := prefs.Keys;
    while todo != {}
      invariant todo <= prefs.Keys
      invariant synced == map k | k in prefs && k !in todo && prefs[k].1 :: prefs[k].0
      invariant local == map k | k in prefs && k !in todo && !prefs[k].1 :: prefs[k].0
      decreases todo
    {
      var key :| key in todo;
      if prefs[key].1 {
        synced := synced[key := prefs[key].0];
      } else {
        local := local[key := prefs[key].0];
      }
      todo := todo - {key};
    }
  }

  class SettingsStore {
    const cat: Catalogue
    var daemon: Config
    var preferences: map<string, Json>
    var stale: bool
    var pendingDaemon: map<string, string>
    var inflightDaemon: map<string, string>
    var pendingPrefs: map<string, (Json, bool)>
    var inflightPrefs: map<string, (Json, bool)>
    var flushScheduled: bool
    var flushInflight: bool
    var conflictRetries: nat
    var lastError: Option<ErrorKind>
    var timers: nat      // spawned debounce timers that have not fired
    var flushTasks: nat  // spawned flush tasks that have not finished

    function State(): Client
      reads this
    {
      Client(daemon, preferences, stale, pendingDaemon, inflightDaemon, pendingPrefs, inflightPrefs,
             flushScheduled, flushInflight, conflictRetries, lastError, timers, flushTasks)
    }

    constructor (cat: Catalogue)
      ensures State() == FreshClient && this.cat == cat
    {
      this.cat := cat;
      daemon, preferences, stale := Config(0, map[]), map[], true;
      pendingDaemon, inflightDaemon, pendingPrefs, inflightPrefs := map[], map[], map[], map[];
      flushScheduled, flushInflight, conflictRetries, lastError := false, false, 0, None;
      timers, flushTasks := 0, 0;
    }

    method OverlayLocalEdits()
      modifies this
      ensures State() == OverlayEdits(old(State()))
    {
      var values := InsertAll(daemon.values, inflightDaemon);
      values := InsertAll(values, pendingDaemon);
      daemon := daemon.(values := values);
      var prefs := InsertAll(preferences, Plain(inflightPrefs));
      preferences := InsertAll(prefs, Plain(pendingPrefs));
    }

    method ReplaceSnapshot(config: Config, prefs: map<string, Json>)
      modifies this
      ensures State() == SettingsClient.ReplaceSnapshot(old(State()), config, prefs)
    {
      daemon := config;
      preferences := prefs;
      stale := false;
      OverlayLocalEdits();
      lastError := None;
    }

    method ConfigChanged(config: Config)
      modifies this
      ensures State() == SettingsClient.ConfigChanged(old(State()), config)
    {
      daemon := config;
      OverlayLocalEdits();
    }

    method PreferencesChanged(prefs: map<string, Json>)
      modifies this
      ensures State() == SettingsClient.PreferencesChanged(old(State()), prefs)
    {
      preferences := prefs;
      OverlayLocalEdits();
    }

    method MarkStale()
      modifies this
      ensures State() == SettingsClient.MarkStale(old(State()))
    {
      stale := true;
      pendingDaemon := map[];
      inflightDaemon := map[];
      pendingPrefs := map[];
      inflightPrefs := map[];
      lastError := Some(Disconnected);
    }

    method ScheduleFlush()
      modifies this
      ensures State() == SettingsClient.ScheduleFlush(old(State()))
    {
      if flushScheduled {
        return;
      }
      flushScheduled := true;
      timers := timers + 1;
    }

    method SetDaemon(key: string, value: string)
      modifies this
      ensures State() == SettingsClient.SetDaemon(cat, old(State()), key, value)
    {
      if stale {
        lastError := Some(Disconnected);
        return;
      }
      var normalized := cat.normalize(key, value);
      if normalized.None? {
        lastError := Some(InvalidArgumentError);
        return;
      }
      var wire := normalized.value;
      if key in daemon.values && daemon.values[key] == wire {
        return;
      }
      daemon := daemon.(values := daemon.values[key := wire]);
      var spec := FindDaemonSpec(cat.specs, key);
      if spec.Some? {
        var json := cat.toJson(spec.value.key, wire);
        pendingPrefs := pendingPrefs[spec.value.key := (json, true)];
      } else {
        pendingDaemon := pendingDaemon[key := wire];
      }
      ScheduleFlush();
    }

    method StorePref(key: string, value: Json, synced: bool)
      modifies this
      ensures State() == SettingsClient.StorePref(old(State()), key, value, synced)
    {
      if key in preferences && preferences[key] == value {
        return;
      }
      preferences := preferences[key := value];
      pendingPrefs := pendingPrefs[key := (value, synced)];
      ScheduleFlush();
    }

    method SetPref(key: string, value: Json)
      modifies this
      ensures State() == SettingsClient.SetPref(cat, old(State()), key, value)
    {
      if stale {
        lastError := Some(Disconnected);
        return;
      }
      var synced := false;
      var spec := FindSpec(cat.specs, key);
      if spec.Some? {
        if !cat.validate(spec.value.key, value) {
          lastError := Some(InvalidArgumentError);
          return;
        }
        if spec.value.owner == Daemon {
          var wire := cat.toWire(spec.value, value);
          if wire.Some? {
            daemon := daemon.(values := daemon.values[spec.value.storageKey := wire.value]);
          }
        }
        synced := spec.value.owner != Excluded;
      }
      assert State() == Mirrored(old(State()), MirrorOf(cat, spec, value));
      StorePref(key, value, synced);
    }

    method BuildCalls(values: map<string, string>, prefs: map<string, (Json, bool)>) returns (calls: seq<Call>)
      ensures calls == BuildFlushCalls(daemon.revision, values, prefs)
    {
      calls := [];
      if values != map[] {
        calls := calls + [DaemonPatch(daemon.revision, values)];
      }
      var synced, local := Partition(prefs);
      if synced != map[] {
        calls := calls + [PrefsPatch(synced, true)];
      }
      if local != map[] {
        calls := calls + [PrefsPatch(local, false)];
      }
    }

    /** Moves the unsent edits to the sent ones and spawns a flush task, which awaits the calls. */
    method Launch() returns (calls: seq<Call>)
      modifies this
      ensures var c := old(State());
        State() == c.(flushInflight := true, flushTasks := c.flushTasks + 1,
                      inflightDaemon := c.pendingDaemon, pendingDaemon := map[],
                      inflightPrefs := c.pendingPrefs, pendingPrefs := map[])
      ensures calls == BuildFlushCalls(old(daemon.revision), old(pendingDaemon), old(pendingPrefs))
    {
      calls := BuildCalls(pendingDaemon, pendingPrefs);
      flushInflight := true;
      flushTasks := flushTasks + 1;
      inflightDaemon, inflightPrefs := pendingDaemon, pendingPrefs;
      pendingDaemon, pendingPrefs := map[], map[];
    }

    method Flush() returns (calls: seq<Call>)
      modifies this
      ensures State() == SettingsClient.Flush(old(State()))
      ensures calls == FlushCalls(old(State()))
    {
      if flushInflight || stale {
        return [];
      }
      if !State().HasPending() {
        return [];
      }
      calls := Launch();
    }

    method TimerFires() returns (calls: seq<Call>)
      requires timers > 0
      modifies this
      ensures State() == SettingsClient.TimerFires(old(State()))
      ensures calls == FlushCalls(TimerUp(old(State())))
    {
      timers := timers - 1;
      flushScheduled := false;
      calls := Flush();
    }

    /** The match of the flush task on its first error. */
    method SettleEdits(error: Option<Code>)
      modifies this
      ensures State() == Settle(old(State()), error)
    {
      if error == Some(Conflict) && conflictRetries < MAX_CONFLICT_RETRIES {
        conflictRetries := conflictRetries + 1;
        pendingDaemon := OrInsertAll(pendingDaemon, inflightDaemon);
        inflightDaemon := map[];
        pendingPrefs := OrInsertAll(pendingPrefs, inflightPrefs);
        inflightPrefs := map[];
        ScheduleFlush();
      } else {
        inflightDaemon := map[];
        inflightPrefs := map[];
        conflictRetries := 0;
        if error.Some? {
          lastError := Some(FromRpc(error.value));
        } else if lastError.Some? && lastError.value != InvalidArgumentError {
          lastError := None;
        }
      }
    }

    method Finish(error: Option<Code>)
      requires flushTasks > 0
      modifies this
      ensures State() == SettingsClient.Finish(old(State()), error)
    {
      flushTasks := flushTasks - 1;
      flushInflight := false;
      SettleEdits(error);
      if State().HasPending() {
        ScheduleFlush();
      }
    }

    method DrainPendingCalls() returns (calls: seq<Call>)
      modifies this
      ensures State() == Drain(old(State())) && calls == DrainCalls(old(State()))
    {
      if stale || (pendingDaemon == map[] && pendingPrefs == map[]) {
        return [];
      }
      var daemonValues, prefs := pendingDaemon, pendingPrefs;
      pendingDaemon, pendingPrefs := map[], map[];
      calls := BuildCalls(daemonValues, prefs);
    }
  }
}
