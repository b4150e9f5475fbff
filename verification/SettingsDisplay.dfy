/** What the settings page shows, over all runs: what was received, what the user has put over it, and
    the error that was met last. */
module SettingsDisplay {
  import opened Prelude
  import opened SettingsClient
  import opened SettingsSystem
  import opened SettingsTheorems
  import opened SettingsGuarantees

  /** A history: the preferences last received, the values and preferences of the user's own put over
      what was received, and the last error. */
  datatype Display = Display(
    prefs: map<string, Json>, ownValues: map<string, string>, ownPrefs: map<string, Json>, error: Option<ErrorKind>)

  const BlankDisplay := Display(map[], map[], map[], None)

  /** The edits still to be written, by key. */
  function OutstandingValues(c: Client): map<string, string> {
    map k | k in c.inflightDaemon.Keys + c.pendingDaemon.Keys :: c.EffectiveDaemon(k).value
  }

  function OutstandingPrefs(c: Client): map<string, Json> {
    map k | k in c.inflightPrefs.Keys + c.pendingPrefs.Keys :: c.EffectivePref(k).value.0
  }

  /** An edit of a daemon setting counts unless there is no session or the value is malformed. */
  function ValueEdited(env: Env, stale: bool, d: Display, key: string, value: string): Display {
    match env.cat.normalize(key, value)
    case None => d.(error := Some(if stale then Disconnected else InvalidArgumentError))
    case Some(wire) => if stale then d.(error := Some(Disconnected)) else d.(ownValues := d.ownValues[key := wire])
  }

  /** So does one of a preference; that of a daemon setting is shown as the setting's value too. */
  function PrefEdited(env: Env, stale: bool, d: Display, key: string, json: Json): Display {
    var found := FindSpec(env.cat.specs, key);
    if stale then d.(error := Some(Disconnected))
    else if found.Some? && !env.cat.validate(key, json) then d.(error := Some(InvalidArgumentError))
    else
      var e := d.(ownPrefs := d.ownPrefs[key := json]);
      if found.Some? && found.value.owner.Daemon? && env.cat.toWire(found.value, json).Some? then
        e.(ownValues := d.ownValues[found.value.storageKey := env.cat.toWire(found.value, json).value])
      else e
  }

  function Received(c: Client, d: Display, m: Message): Display {
    match m
    case Snapshot(_, prefs) => Display(prefs, OutstandingValues(c), OutstandingPrefs(c), None)
    case Changed(_) => d.(ownValues := OutstandingValues(c), ownPrefs := d.ownPrefs + OutstandingPrefs(c))
    case PrefsChanged(prefs) =>
      d.(prefs := prefs, ownValues := d.ownValues + OutstandingValues(c), ownPrefs := OutstandingPrefs(c))
    case Gone => d.(error := Some(Disconnected))
  }

  /** A flush that ends well clears the error unless it complains of a malformed value; one that is given
      up, as every fourth conflict in a row is, shows why. */
  function FlushEnded(s: System, d: Display, error: Option<Code>): Display {
    match error
    case None => if d.error == Some(InvalidArgumentError) then d else d.(error := None)
    case Some(code) =>
      if code == Conflict && TrailingConflicts(s.outcomes) % 4 != 3 then d else d.(error := Some(FromRpc(code)))
  }

  function Next(env: Env, s: System, d: Display, step: Step): Display {
    match step
    case UserSetsDaemon(key, value) => ValueEdited(env, s.client.stale, d, key, value)
    case UserSetsPref(key, json) => PrefEdited(env, s.client.stale, d, key, json)
    case Deliver => if s.inbox == [] then d else Received(s.client, d, s.inbox[0])
    case Finished(prefError) => if s.flight.Answered? then FlushEnded(s, d, FirstError(s.flight, prefError)) else d
    case _ => d
  }

  function Recall(env: Env, s: System, d: Display, steps: seq<Step>): Display
    decreases |steps|
  {
    if steps == [] then d else Recall(env, Apply(env, s, steps[0]), Next(env, s, d, steps[0]), steps[1..])
  }

  /** The user's own value over the one received. */
  function Over<V>(own: map<string, V>, received: map<string, V>, k: string): Option<V> {
    if k in own then Some(own[k]) else Get(received, k)
  }

  /** What is shown under key `k`, as a daemon setting and as a preference, and the error. */
  predicate Shows(c: Client, base: Config, d: Display, k: string) {
    && c.lastError == d.error
    && Get(c.daemon.values, k) == Over(d.ownValues, base.values, k)
    && Get(c.preferences, k) == Over(d.ownPrefs, d.prefs, k)
  }

  // ---------- one transition ----------

  lemma OverlayShows(c: Client, k: string)
    ensures Get(OverlayEdits(c).daemon.values, k) == Over(OutstandingValues(c), c.daemon.values, k)
    ensures Get(OverlayEdits(c).preferences, k) == Over(OutstandingPrefs(c), c.preferences, k)
    ensures OverlayEdits(c).lastError == c.lastError
  {
  }

  lemma SnapshotShows(c: Client, d: Display, m: Message, k: string)
    requires m.Snapshot?
    ensures Shows(ReplaceSnapshot(c, m.config, m.prefs), m.config, Received(c, d, m), k)
  {
    OverlayShows(c.(daemon := m.config, preferences := m.prefs, stale := false), k);
  }

  lemma ChangedShows(c: Client, base: Config, d: Display, m: Message, k: string)
    requires m.Changed? && Shows(c, base, d, k)
    ensures Shows(ConfigChanged(c, m.config), m.config, Received(c, d, m), k)
  {
    OverlayShows(c.(daemon := m.config), k);
  }

  lemma PrefsShow(c: Client, base: Config, d: Display, m: Message, k: string)
    requires m.PrefsChanged? && Shows(c, base, d, k)
    ensures Shows(PreferencesChanged(c, m.prefs), base, Received(c, d, m), k)
  {
    OverlayShows(c.(preferences := m.prefs), k);
  }

  lemma DeliverShows(env: Env, s: System, d: Display, k: string)
    requires Shows(s.client, s.base, d, k)
    ensures Shows(DeliverStep(s).client, DeliverStep(s).base, Next(env, s, d, Deliver), k)
  {
    if s.inbox != [] {
      match s.inbox[0]
      case Snapshot(_, _) => SnapshotShows(s.client, d, s.inbox[0], k);
      case Changed(_) => ChangedShows(s.client, s.base, d, s.inbox[0], k);
      case PrefsChanged(_) => PrefsShow(s.client, s.base, d, s.inbox[0], k);
      case Gone =>
    }
  }

  lemma StoreShows(c: Client, base: Config, d: Display, key: string, wire: string, route: Route, k: string)
    requires Shows(c, base, d, k)
    ensures Shows(StoreDaemon(c, key, wire, route), base, d.(ownValues := d.ownValues[key := wire]), k)
  {
  }

  lemma ValueEditShows(env: Env, s: System, d: Display, key: string, value: string, k: string)
    requires Shows(s.client, s.base, d, k)
    ensures Shows(SetDaemon(env.cat, s.client, key, value), s.base, ValueEdited(env, s.client.stale, d, key, value), k)
  {
    var c, wire := s.client, env.cat.normalize(key, value);
    if !c.stale && wire.Some? {
      if Get(c.daemon.values, key) == wire {
        assert SetDaemon(env.cat, c, key, value) == c;
      } else {
        var route := RouteOf(env.cat, key, wire.value);
        assert SetDaemon(env.cat, c, key, value) == StoreDaemon(c, key, wire.value, route);
        StoreShows(c, s.base, d, key, wire.value, route, k);
      }
    }
  }

  lemma StorePrefShows(c: Client, base: Config, d: Display, key: string, json: Json, synced: bool, k: string)
    requires Shows(c, base, d, k)
    ensures Shows(StorePref(c, key, json, synced), base, d.(ownPrefs := d.ownPrefs[key := json]), k)
  {
  }

  lemma MirrorShows(c: Client, base: Config, d: Display, mirror: map<string, string>, k: string)
    requires Shows(c, base, d, k)
    ensures Shows(Mirrored(c, mirror), base, d.(ownValues := d.ownValues + mirror), k)
  {
  }

  lemma PrefEditedIs(env: Env, d: Display, key: string, json: Json)
    requires ValidPref(env.cat, key, json)
    ensures var mirror := MirrorOf(env.cat, FindSpec(env.cat.specs, key), json);
      PrefEdited(env, false, d, key, json)
        == d.(ownValues := d.ownValues + mirror, ownPrefs := d.ownPrefs[key := json])
  {
    var mirror := MirrorOf(env.cat, FindSpec(env.cat.specs, key), json);
    assert PrefEdited(env, false, d, key, json).ownValues == d.ownValues + mirror;
  }

  lemma PrefEditShows(env: Env, s: System, d: Display, key: string, json: Json, k: string)
    requires Shows(s.client, s.base, d, k)
    ensures Shows(SetPref(env.cat, s.client, key, json), s.base, PrefEdited(env, s.client.stale, d, key, json), k)
  {
    var c, found := s.client, FindSpec(env.cat.specs, key);
    if !c.stale && ValidPref(env.cat, key, json) {
      var mirror, synced := MirrorOf(env.cat, found, json), found.Some? && found.value.owner != Excluded;
      MirrorShows(c, s.base, d, mirror, k);
      StorePrefShows(Mirrored(c, mirror), s.base, d.(ownValues := d.ownValues + mirror), key, json, synced, k);
      PrefEditedIs(env, d, key, json);
      assert SetPref(env.cat, c, key, json) == StorePref(Mirrored(c, mirror), key, json, synced);
    }
  }

  lemma SettleError(c: Client, error: Option<Code>)
    ensures var d := Settle(c, error);
      && d.daemon == c.daemon && d.preferences == c.preferences
      && (Requeues(c, error) ==> d.lastError == c.lastError)
      && (error.Some? && !Requeues(c, error) ==> d.lastError == Some(FromRpc(error.value)))
      && (error == None ==> d.lastError == if c.lastError == Some(InvalidArgumentError) then c.lastError else None)
  {
  }

  /** The error after a finished flush. */
  lemma FinishError(c: Client, error: Option<Code>)
    requires c.flushTasks > 0
    ensures var d := Finish(c, error);
      && d.daemon == c.daemon && d.preferences == c.preferences
      && (Requeues(c, error) ==> d.lastError == c.lastError)
      && (error.Some? && !Requeues(c, error) ==> d.lastError == Some(FromRpc(error.value)))
      && (error == None ==> d.lastError == if c.lastError == Some(InvalidArgumentError) then c.lastError else None)
  {
    SettleError(c.(flushInflight := false, flushTasks := c.flushTasks - 1), error);
  }

  lemma FinishShows(env: Env, s: System, d: Display, prefError: Option<Code>, k: string)
    requires s.flight.Answered? ==> s.client.flushTasks > 0
    requires RetriesOk(s) && Shows(s.client, s.base, d, k)
    ensures var t := FinishStep(env, s, prefError); Shows(t.client, t.base, Next(env, s, d, Finished(prefError)), k)
  {
    if s.flight.Answered? {
      var error := FirstError(s.flight, prefError);
      FinishError(s.client, error);
      var c, e := Finish(s.client, error), FlushEnded(s, d, error);
      assert e.ownValues == d.ownValues && e.ownPrefs == d.ownPrefs && e.prefs == d.prefs;
      assert Requeues(s.client, error) <==> error == Some(Conflict) && TrailingConflicts(s.outcomes) % 4 != 3;
      assert Shows(c, s.base, e, k);
    }
  }

  lemma TimerShows(s: System, d: Display, k: string)
    requires Shows(s.client, s.base, d, k)
    ensures Shows(TimerStep(s).client, TimerStep(s).base, d, k)
  {
    if s.client.timers > 0 {
      var t := TimerFires(s.client);
      assert t.daemon == s.client.daemon && t.preferences == s.client.preferences && t.lastError == s.client.lastError;
    }
  }

  lemma StepShows(env: Env, s: System, d: Display, step: Step, k: string)
    requires Inv(env, s) && Shows(s.client, s.base, d, k)
    ensures Shows(Apply(env, s, step).client, Apply(env, s, step).base, Next(env, s, d, step), k)
  {
    match step
    case UserSetsDaemon(key, value) => ValueEditShows(env, s, d, key, value, k);
    case UserSetsPref(key, json) => PrefEditShows(env, s, d, key, json, k);
    case Deliver => DeliverShows(env, s, d, k);
    case Finished(prefError) => FinishShows(env, s, d, prefError, k);
    case Timer => TimerShows(s, d, k);
    case _ => RemoteKeepsView(env, s, step);
  }

  // ---------- every run ----------

  lemma {:induction false} RunShows(env: Env, s: System, d: Display, steps: seq<Step>, k: string)
    requires Inv(env, s) && Shows(s.client, s.base, d, k)
    ensures Shows(Run(env, s, steps).client, Run(env, s, steps).base, Recall(env, s, d, steps), k)
    decreases |steps|
  {
    if steps != [] {
      StepInv(env, s, steps[0]);
      StepShows(env, s, d, steps[0], k);
      RunShows(env, Apply(env, s, steps[0]), Next(env, s, d, steps[0]), steps[1..], k);
    }
  }

  /** Over every run each value and each preference shown is the user's own since the last receipt, or one
      still to be written at that receipt, or else the one received; and the error shown is the last. */
  lemma EverythingShown(env: Env, store: Config, steps: seq<Step>, k: string)
    ensures var s, d := After(env, store, steps), Recall(env, Start(store), BlankDisplay, steps);
      && Get(s.client.daemon.values, k) == Over(d.ownValues, s.base.values, k)
      && Get(s.client.preferences, k) == Over(d.ownPrefs, d.prefs, k)
      && s.client.lastError == d.error
  {
    StartInv(env, store);
    RunShows(env, Start(store), BlankDisplay, steps, k);
  }

  /** Preferences that arrive are shown at once, under the edits still to be written. */
  lemma ReceivedPrefsAreShown(env: Env, s: System, k: string)
    requires s.inbox != [] && (s.inbox[0].PrefsChanged? || s.inbox[0].Snapshot?)
    ensures var c := Apply(env, s, Deliver).client;
      Get(c.preferences, k) ==
        if s.client.EffectivePref(k).Some? then Some(s.client.EffectivePref(k).value.0) else Get(s.inbox[0].prefs, k)
    ensures Apply(env, s, Deliver).client.EffectivePref(k) == s.client.EffectivePref(k)
  {
    match s.inbox[0]
    case Snapshot(config, prefs) => OverlayShows(s.client.(daemon := config, preferences := prefs, stale := false), k);
    case PrefsChanged(prefs) => OverlayShows(s.client.(preferences := prefs), k);
  }
}
