/** What holds in every reachable state of the settings system. */
module SettingsTheorems {
  import opened Prelude
  import opened SettingsClient
  import opened SettingsSystem

  // ---------- the inbox ----------

  lemma {:induction false} PostLast(base: Config, stale: bool, q: seq<Message>, m: Message)
    ensures LastConfig(base, q + [m]) == (if m.Snapshot? || m.Changed? then m.config else LastConfig(base, q))
    ensures StaleAfter(stale, q + [m])
         == (if m.Snapshot? then false else if m.Gone? then true else StaleAfter(stale, q))
    ensures HasConfig(q + [m]) <==> HasConfig(q) || m.Snapshot? || m.Changed?
    decreases |q|
  {
    assert (q + [m])[|q|] == m;
    if q != [] {
      assert (q + [m])[1..] == q[1..] + [m];
      var base1 := if q[0].Snapshot? || q[0].Changed? then q[0].config else base;
      var stale1 := if q[0].Snapshot? then false else if q[0].Gone? then true else stale;
      PostLast(base1, stale1, q[1..], m);
    }
    if HasConfig(q) {
      var i :| 0 <= i < |q| && (q[i].Snapshot? || q[i].Changed?);
      assert (q + [m])[i] == q[i];
    }
  }

  lemma {:induction false} NoConfig(base: Config, q: seq<Message>)
    ensures !HasConfig(q) ==> LastConfig(base, q) == base
    decreases |q|
  {
    if q != [] && !HasConfig(q) {
      assert forall i :: 0 <= i < |q[1..]| ==> q[1..][i] == q[i + 1];
      assert !q[0].Snapshot? && !q[0].Changed?;
      NoConfig(base, q[1..]);
    }
  }

  lemma {:induction false} RefreshAhead(q: seq<Message>)
    ensures !StaleAfter(true, q) ==> HasConfig(q)
    decreases |q|
  {
    if q != [] && !StaleAfter(true, q) && !q[0].Snapshot? {
      RefreshAhead(q[1..]);
      var i :| 0 <= i < |q[1..]| && (q[1..][i].Snapshot? || q[1..][i].Changed?);
      assert q[i + 1] == q[1..][i];
    }
  }

  // ---------- the pump ----------

  lemma EditDaemonPump(c: Client, key: string, wire: Option<string>, route: Route)
    requires PumpOk(c)
    ensures PumpOk(EditDaemon(c, key, wire, route))
  {
    if !c.stale && wire.Some? && Get(c.daemon.values, key) != wire {
      var d := StoreDaemon(c, key, wire.value, route);
      if route.Raw? { assert PumpOk(d); } else { assert PumpOk(d); }
    }
  }

  lemma EditPrefPump(c: Client, key: string, value: Json, valid: bool, mirror: map<string, string>, synced: bool)
    requires PumpOk(c)
    ensures PumpOk(EditPref(c, key, value, valid, mirror, synced))
  {
  }

  lemma SetDaemonPump(cat: Catalogue, c: Client, key: string, value: string)
    requires PumpOk(c)
    ensures PumpOk(SetDaemon(cat, c, key, value))
  {
    var wire := cat.normalize(key, value);
    EditDaemonPump(c, key, wire, if wire.Some? then RouteOf(cat, key, wire.value) else Raw);
  }

  lemma SetPrefPump(cat: Catalogue, c: Client, key: string, value: Json)
    requires PumpOk(c)
    ensures PumpOk(SetPref(cat, c, key, value))
  {
    var found := FindSpec(cat.specs, key);
    EditPrefPump(c, key, value, ValidPref(cat, key, value), MirrorOf(cat, found, value),
                 found.Some? && found.value.owner != Excluded);
  }

  lemma SettleCases(c: Client, error: Option<Code>)
    ensures var d := Settle(c, error);
      && d.daemon == c.daemon && d.stale == c.stale
      && d.flushInflight == c.flushInflight && d.flushTasks == c.flushTasks
      && d.inflightDaemon == map[] && d.inflightPrefs == map[]
      && if Requeues(c, error)
         then && d.conflictRetries == c.conflictRetries + 1 && d.flushScheduled
              && d.timers == c.timers + (if c.flushScheduled then 0 else 1)
              && d.pendingDaemon == c.inflightDaemon + c.pendingDaemon
              && d.pendingPrefs == c.inflightPrefs + c.pendingPrefs
         else && d.conflictRetries == 0 && d.flushScheduled == c.flushScheduled && d.timers == c.timers
              && d.pendingDaemon == c.pendingDaemon && d.pendingPrefs == c.pendingPrefs
  {
  }

  /** A finished flush, as settled and then scheduled if something is pending. */
  lemma FinishIs(c: Client, error: Option<Code>)
    requires c.flushTasks > 0
    ensures var d := Settle(c.(flushInflight := false, flushTasks := c.flushTasks - 1), error);
      var e := Finish(c, error);
      && e.daemon == d.daemon && e.stale == d.stale
      && e.flushInflight == d.flushInflight && e.flushTasks == d.flushTasks
      && e.inflightDaemon == d.inflightDaemon && e.inflightPrefs == d.inflightPrefs
      && e.conflictRetries == d.conflictRetries
      && e.pendingDaemon == d.pendingDaemon && e.pendingPrefs == d.pendingPrefs
      && e.flushScheduled == (d.HasPending() || d.flushScheduled)
      && e.timers == d.timers + (if d.HasPending() && !d.flushScheduled then 1 else 0)
  {
  }

  /** The two outcomes of a finished flush, spelled out. */
  lemma FinishCases(c: Client, error: Option<Code>)
    requires c.flushTasks > 0
    ensures var d := Finish(c, error);
      && d.daemon == c.daemon && d.stale == c.stale
      && !d.flushInflight && d.flushTasks == c.flushTasks - 1
      && d.inflightDaemon == map[] && d.inflightPrefs == map[]
      && (d.HasPending() ==> d.flushScheduled)
      && (PumpOk(c) ==> d.timers == if d.flushScheduled then 1 else 0)
      && d.conflictRetries == (if Requeues(c, error) then c.conflictRetries + 1 else 0)
      && d.pendingDaemon == (if Requeues(c, error) then c.inflightDaemon + c.pendingDaemon else c.pendingDaemon)
      && d.pendingPrefs == (if Requeues(c, error) then c.inflightPrefs + c.pendingPrefs else c.pendingPrefs)
  {
    SettleCases(c.(flushInflight := false, flushTasks := c.flushTasks - 1), error);
    FinishIs(c, error);
  }

  lemma FinishPump(c: Client, error: Option<Code>)
    requires PumpOk(c) && c.flushTasks > 0
    ensures PumpOk(Finish(c, error))
  {
    FinishCases(c, error);
    if c.stale {
      assert c.inflightDaemon + c.pendingDaemon == map[] && c.inflightPrefs + c.pendingPrefs == map[];
    }
  }

  lemma FlushPump(c: Client)
    requires PumpOk(c) && c.timers > 0
    ensures PumpOk(TimerFires(c))
  {
  }

  lemma ReceivePump(c: Client, config: Config, prefs: map<string, Json>)
    requires PumpOk(c)
    ensures PumpOk(ReplaceSnapshot(c, config, prefs)) && PumpOk(ConfigChanged(c, config))
    ensures PumpOk(PreferencesChanged(c, prefs)) && PumpOk(MarkStale(c))
  {
  }

  lemma DeliverPump(s: System)
    requires PumpOk(s.client)
    ensures PumpOk(DeliverStep(s).client)
  {
    if s.inbox != [] {
      match s.inbox[0]
      case Snapshot(config, prefs) => ReceivePump(s.client, config, prefs);
      case Changed(config) => ReceivePump(s.client, config, map[]);
      case PrefsChanged(prefs) => ReceivePump(s.client, Config(0, map[]), prefs);
      case Gone => ReceivePump(s.client, Config(0, map[]), map[]);
    }
  }

  /** The steps of the server and the network leave the client alone. */
  predicate Remote(step: Step) {
    step.Serve? || step.OtherWrite? || step.OtherPrefs? || step.Disconnect? || step.Connect?
  }

  lemma RemoteKeepsClient(env: Env, s: System, step: Step)
    requires Remote(step)
    ensures Apply(env, s, step).client == s.client
  {
  }

  lemma PumpStep(env: Env, s: System, step: Step)
    requires PumpOk(s.client)
    ensures PumpOk(Apply(env, s, step).client)
  {
    match step
    case UserSetsDaemon(key, value) => SetDaemonPump(env.cat, s.client, key, value);
    case UserSetsPref(key, json) => SetPrefPump(env.cat, s.client, key, json);
    case Timer => if s.client.timers > 0 { FlushPump(s.client); }
    case Finished(prefError) =>
      if s.flight.Answered? && s.client.flushTasks > 0 {
        FinishPump(s.client, FirstError(s.flight, prefError));
      }
    case Deliver => DeliverPump(s);
    case _ => RemoteKeepsClient(env, s, step);
  }

  // ---------- what each transition leaves alone ----------

  /** An edit touches only the shown values, the pending maps, the timer and the error. */
  predicate EditOnly(c: Client, d: Client) {
    && d.daemon.revision == c.daemon.revision && d.stale == c.stale
    && d.inflightDaemon == c.inflightDaemon && d.inflightPrefs == c.inflightPrefs
    && d.flushInflight == c.flushInflight && d.flushTasks == c.flushTasks
    && d.conflictRetries == c.conflictRetries
  }

  lemma EditDaemonFrame(c: Client, key: string, wire: Option<string>, route: Route)
    ensures EditOnly(c, EditDaemon(c, key, wire, route))
  {
    if !c.stale && wire.Some? && Get(c.daemon.values, key) != wire {
      var d := StoreDaemon(c, key, wire.value, route);
      assert EditOnly(c, d);
    }
  }

  lemma EditPrefFrame(c: Client, key: string, value: Json, valid: bool, mirror: map<string, string>, synced: bool)
    ensures EditOnly(c, EditPref(c, key, value, valid, mirror, synced))
    ensures EditPref(c, key, value, valid, mirror, synced).pendingDaemon == c.pendingDaemon
  {
  }

  lemma SetDaemonFrame(cat: Catalogue, c: Client, key: string, value: string)
    ensures EditOnly(c, SetDaemon(cat, c, key, value))
  {
    var wire := cat.normalize(key, value);
    EditDaemonFrame(c, key, wire, if wire.Some? then RouteOf(cat, key, wire.value) else Raw);
  }

  lemma SetPrefFrame(cat: Catalogue, c: Client, key: string, value: Json)
    ensures EditOnly(c, SetPref(cat, c, key, value))
    ensures SetPref(cat, c, key, value).pendingDaemon == c.pendingDaemon
  {
    var found := FindSpec(cat.specs, key);
    EditPrefFrame(c, key, value, ValidPref(cat, key, value), MirrorOf(cat, found, value),
                  found.Some? && found.value.owner != Excluded);
  }

  lemma TimerFrame(c: Client)
    requires c.timers > 0
    ensures var d := TimerFires(c);
      d.daemon == c.daemon && d.stale == c.stale && d.conflictRetries == c.conflictRetries
  {
  }

  lemma ReceiveFrame(c: Client, config: Config, prefs: map<string, Json>)
    ensures var d := ReplaceSnapshot(c, config, prefs);
      EditOnly(c.(daemon := config, stale := false), d)
    ensures EditOnly(c.(daemon := config), ConfigChanged(c, config))
    ensures EditOnly(c, PreferencesChanged(c, prefs))
    ensures var d := MarkStale(c);
      d.daemon == c.daemon && d.flushInflight == c.flushInflight && d.conflictRetries == c.conflictRetries
  {
  }

  lemma DeliverFrame(s: System)
    ensures var t := DeliverStep(s);
      && t.client.conflictRetries == s.client.conflictRetries && t.outcomes == s.outcomes
      && t.client.flushInflight == s.client.flushInflight
      && (t.client.inflightDaemon == s.client.inflightDaemon || t.client.inflightDaemon == map[])
      && (s.client.daemon.revision == s.base.revision ==> t.client.daemon.revision == t.base.revision)
  {
    if s.inbox != [] {
      match s.inbox[0]
      case Snapshot(config, prefs) => ReceiveFrame(s.client, config, prefs);
      case Changed(config) => ReceiveFrame(s.client, config, map[]);
      case PrefsChanged(prefs) => ReceiveFrame(s.client, Config(0, map[]), prefs);
      case Gone => ReceiveFrame(s.client, Config(0, map[]), map[]);
    }
  }

  // ---------- conflict retries ----------

  ghost predicate RetriesOk(s: System) {
    s.client.conflictRetries == TrailingConflicts(s.outcomes) % (MAX_CONFLICT_RETRIES + 1)
  }

  lemma FinishRetries(c: Client, outcomes: seq<Option<Code>>, error: Option<Code>)
    requires c.flushTasks > 0 && c.conflictRetries == TrailingConflicts(outcomes) % (MAX_CONFLICT_RETRIES + 1)
    ensures Finish(c, error).conflictRetries == TrailingConflicts(outcomes + [error]) % (MAX_CONFLICT_RETRIES + 1)
  {
    FinishCases(c, error);
    assert (outcomes + [error])[..|outcomes|] == outcomes;
    if error == Some(Conflict) {
      assert TrailingConflicts(outcomes + [error]) == 1 + TrailingConflicts(outcomes);
    }
  }

  lemma OnlyFinishCounts(env: Env, s: System, step: Step)
    requires !step.Finished?
    ensures Apply(env, s, step).client.conflictRetries == s.client.conflictRetries
    ensures Apply(env, s, step).outcomes == s.outcomes
  {
    match step
    case UserSetsDaemon(key, value) => SetDaemonFrame(env.cat, s.client, key, value);
    case UserSetsPref(key, json) => SetPrefFrame(env.cat, s.client, key, json);
    case Timer => if s.client.timers > 0 { TimerFrame(s.client); }
    case Deliver => DeliverFrame(s);
    case _ => RemoteKeepsClient(env, s, step);
  }

  lemma RetriesStep(env: Env, s: System, step: Step)
    requires RetriesOk(s)
    ensures RetriesOk(Apply(env, s, step))
  {
    match step
    case Finished(prefError) =>
      if s.flight.Answered? && s.client.flushTasks > 0 {
        FinishRetries(s.client, s.outcomes, FirstError(s.flight, prefError));
      }
    case _ => OnlyFinishCounts(env, s, step);
  }

  // ---------- what the user is shown ----------

  lemma StoreDaemonView(cat: Catalogue, c: Client, base: Config, shadow: set<string>, last: Option<string>,
                        key: string, wire: string, route: Route, k: string)
    requires View(cat, c, base, shadow, last, k)
    requires route.Raw? <==> !Catalogued(cat.specs, key)
    ensures var d := StoreDaemon(c, key, wire, route);
      if route.Raw? then View(cat, d, base, shadow - {key}, if k == key then Some(wire) else last, k)
      else View(cat, d, base, shadow, last, k)
  {
  }

  lemma EditShown(env: Env, s: System, key: string, value: string, k: string)
    requires Shown(env, s, k)
    ensures Shown(env, EditStep(env, s, key, value), k)
  {
    var wire := env.cat.normalize(key, value);
    var c := s.client;
    if c.stale || wire.None? {
      assert SetDaemon(env.cat, c, key, value).EffectiveDaemon(k) == c.EffectiveDaemon(k);
    } else if Get(c.daemon.values, key) == wire {
      assert SetDaemon(env.cat, c, key, value) == c;
    } else {
      var route := RouteOf(env.cat, key, wire.value);
      StoreDaemonView(env.cat, c, s.base, s.shadow, Get(s.lastEdit, k), key, wire.value, route, k);
      assert SetDaemon(env.cat, c, key, value) == StoreDaemon(c, key, wire.value, route);
    }
  }

  /** What `set_pref` mirrors into the daemon's values is a key of the sync catalogue. */
  lemma MirrorCatalogued(cat: Catalogue, key: string, value: Json, k: string)
    ensures k in MirrorOf(cat, FindSpec(cat.specs, key), value) ==> Catalogued(cat.specs, k)
  {
    var found := FindSpec(cat.specs, key);
    if found.Some? && k in MirrorOf(cat, found, value) {
      var i :| 0 <= i < |cat.specs| && cat.specs[i] == found.value;
      assert IsDaemonSpecFor(cat.specs[i], k);
      CataloguedIff(cat.specs, k);
    }
  }

  lemma EditPrefView(cat: Catalogue, c: Client, base: Config, shadow: set<string>, last: Option<string>,
                     key: string, value: Json, valid: bool, mirror: map<string, string>, synced: bool, k: string)
    requires View(cat, c, base, shadow, last, k)
    requires k in mirror ==> Catalogued(cat.specs, k)
    ensures View(cat, EditPref(c, key, value, valid, mirror, synced), base, shadow, last, k)
  {
    var d := EditPref(c, key, value, valid, mirror, synced);
    EditPrefFrame(c, key, value, valid, mirror, synced);
    assert d.EffectiveDaemon(k) == c.EffectiveDaemon(k);
    if !c.stale && valid {
      assert d.daemon.values == c.daemon.values + mirror;
    } else {
      assert d.daemon == c.daemon;
    }
  }

  lemma EditPrefShown(env: Env, s: System, key: string, json: Json, k: string)
    requires Shown(env, s, k)
    ensures Shown(env, s.(client := SetPref(env.cat, s.client, key, json)), k)
  {
    var found := FindSpec(env.cat.specs, key);
    MirrorCatalogued(env.cat, key, json, k);
    EditPrefView(env.cat, s.client, s.base, s.shadow, Get(s.lastEdit, k), key, json, ValidPref(env.cat, key, json),
                 MirrorOf(env.cat, found, json), found.Some? && found.value.owner != Excluded, k);
  }

  lemma TimerShown(env: Env, s: System, k: string)
    requires PumpOk(s.client) && Shown(env, s, k)
    ensures Shown(env, TimerStep(s), k)
  {
  }

  lemma FinishShown(env: Env, s: System, prefError: Option<Code>, k: string)
    requires Shown(env, s, k)
    ensures Shown(env, FinishStep(env, s, prefError), k)
  {
    if s.flight.Answered? && s.client.flushTasks > 0 {
      var error := FirstError(s.flight, prefError);
      FinishCases(s.client, error);
      var t := FinishStep(env, s, prefError);
      if Requeues(s.client, error) {
        assert t.shadow == s.shadow && t.client.EffectiveDaemon(k) == s.client.EffectiveDaemon(k);
      } else {
        var acked := s.client.inflightDaemon - s.client.pendingDaemon.Keys;
        assert t.shadow == s.shadow + LeftBehind(s.base, acked);
        assert k in acked <==> k in s.client.inflightDaemon && k !in s.client.pendingDaemon;
        assert t.client.EffectiveDaemon(k) == Get(s.client.pendingDaemon, k);
      }
    }
  }

  lemma OverlayView(cat: Catalogue, c: Client, config: Config, base: Config, shadow: set<string>, last: Option<string>,
                    k: string)
    requires View(cat, c, base, shadow, last, k)
    ensures View(cat, OverlayEdits(c.(daemon := config)), config, {}, last, k)
    ensures View(cat, OverlayEdits(c), base, shadow, last, k)
  {
    assert OverlayEdits(c).EffectiveDaemon(k) == c.EffectiveDaemon(k);
  }

  lemma DeliverShown(env: Env, s: System, k: string)
    requires Shown(env, s, k)
    ensures Shown(env, DeliverStep(s), k)
  {
    if s.inbox != [] {
      var last := Get(s.lastEdit, k);
      match s.inbox[0]
      case Snapshot(config, prefs) => SnapshotShown(env, s, k);
      case Changed(config) => OverlayView(env.cat, s.client, config, s.base, s.shadow, last, k);
      case PrefsChanged(prefs) =>
        OverlayView(env.cat, s.client.(preferences := prefs), s.base, s.base, s.shadow, last, k);
      case Gone => GoneShown(env, s, k);
    }
  }

  lemma SnapshotShown(env: Env, s: System, k: string)
    requires Shown(env, s, k) && s.inbox != [] && s.inbox[0].Snapshot?
    ensures Shown(env, DeliverStep(s), k)
  {
  }

  lemma GoneShown(env: Env, s: System, k: string)
    requires Shown(env, s, k) && s.inbox != [] && s.inbox[0].Gone?
    ensures Shown(env, DeliverStep(s), k)
  {
  }

  predicate SameView(s: System, t: System) {
    t.client == s.client && t.base == s.base && t.shadow == s.shadow && t.lastEdit == s.lastEdit && t.lossy == s.lossy
  }

  lemma ServeKeepsView(env: Env, s: System, fate: Fate)
    ensures SameView(s, ServeStep(env, s, fate))
  {
    if s.flight.Sent? {
      assert SameView(s, Commit(env, s)) && SameView(s, Publish(Commit(env, s)));
    }
  }

  lemma RemoteKeepsView(env: Env, s: System, step: Step)
    requires Remote(step)
    ensures SameView(s, Apply(env, s, step))
  {
    match step
    case Serve(fate) => ServeKeepsView(env, s, fate);
    case OtherWrite(values, bump, publish) => assert SameView(s, OtherStep(s, values, bump, publish));
    case _ =>
  }

  lemma ShownStep(env: Env, s: System, step: Step, k: string)
    requires PumpOk(s.client) && Shown(env, s, k)
    ensures Shown(env, Apply(env, s, step), k)
  {
    match step
    case UserSetsDaemon(key, value) => EditShown(env, s, key, value, k);
    case UserSetsPref(key, json) => EditPrefShown(env, s, key, json, k);
    case Timer => TimerShown(env, s, k);
    case Finished(prefError) => FinishShown(env, s, prefError, k);
    case Deliver => DeliverShown(env, s, k);
    case _ => RemoteKeepsView(env, s, step);
  }

  lemma RevisionStep(env: Env, s: System, step: Step)
    requires s.client.daemon.revision == s.base.revision
    ensures Apply(env, s, step).client.daemon.revision == Apply(env, s, step).base.revision
  {
    match step
    case UserSetsDaemon(key, value) => SetDaemonFrame(env.cat, s.client, key, value);
    case UserSetsPref(key, json) => SetPrefFrame(env.cat, s.client, key, json);
    case Timer => if s.client.timers > 0 { TimerFrame(s.client); }
    case Finished(prefError) =>
      if s.flight.Answered? && s.client.flushTasks > 0 {
        FinishCases(s.client, FirstError(s.flight, prefError));
      }
    case Deliver => DeliverFrame(s);
    case _ => RemoteKeepsView(env, s, step);
  }

  // ---------- the flight ----------

  lemma CallsShape(c: Client)
    requires !FlushSkipped(c)
    ensures var calls := FlushCalls(c);
      && calls != []
      && (calls[0].DaemonPatch? ==> calls[0].values == c.pendingDaemon && calls[0].expected == c.daemon.revision)
      && (!calls[0].DaemonPatch? ==> c.pendingDaemon == map[])
  {
  }

  lemma TimerFlight(env: Env, s: System)
    requires PumpOk(s.client) && FlightOk(env, s)
    ensures FlightOk(env, TimerStep(s))
  {
    if s.client.timers > 0 && !FlushSkipped(TimerUp(s.client)) {
      CallsShape(TimerUp(s.client));
    }
  }

  lemma ServeFlight(env: Env, s: System, fate: Fate)
    requires FlightOk(env, s)
    ensures FlightOk(env, ServeStep(env, s, fate))
  {
    if s.flight.Sent? {
      CommitFlight(env, s, None, true);
      match fate
      case Normal => RefuseFlight(env, s, Some(Conflict)); RefuseFlight(env, s, Some(OtherCode));
      case Refused(code) => RefuseFlight(env, s, Some(code));
      case LiveApplyFails(code) => RefuseFlight(env, Commit(env, s), Some(code));
      case ReplyLost(code) => CommitFlight(env, s, Some(code), false);
    }
  }

  lemma RefuseFlight(env: Env, s: System, error: Option<Code>)
    requires FlightOk(env, s) && s.flight.Sent?
    ensures FlightOk(env, Answer(s, error, false))
  {
  }

  lemma CommitFlight(env: Env, s: System, error: Option<Code>, stored: bool)
    requires FlightOk(env, s) && s.flight.Sent?
    ensures FlightOk(env, Commit(env, s))
    ensures FlightOk(env, Answer(Publish(Commit(env, s)), error, stored))
  {
  }

  lemma OtherFlight(env: Env, s: System, values: map<string, string>, bump: bool, publish: bool)
    requires FlightOk(env, s)
    ensures FlightOk(env, OtherStep(s, values, bump, publish))
  {
    var t := OtherStep(s, values, bump, publish);
    if t != s && t.flight.Answered? && t.flight.stored {
      assert t.flight == s.flight && s.flight.values.Keys * values.Keys == {};
      forall k | k in t.flight.values
        ensures Get(t.published.values, k) == Get(t.store.values, k) == Some(env.serverForm(k, t.flight.values[k]))
      {
        assert k !in s.flight.values.Keys * values.Keys;
      }
    }
  }

  lemma FinishFlight(env: Env, s: System, prefError: Option<Code>)
    requires PumpOk(s.client) && FlightOk(env, s)
    ensures FlightOk(env, FinishStep(env, s, prefError))
  {
    if s.flight.Answered? && s.client.flushTasks > 0 {
      FinishCases(s.client, FirstError(s.flight, prefError));
    }
  }

  lemma SameFlight(env: Env, s: System, t: System)
    requires FlightOk(env, s)
    requires t.flight == s.flight && t.store == s.store && t.published == s.published
    requires t.client.flushInflight == s.client.flushInflight
    requires t.client.inflightDaemon == s.client.inflightDaemon || t.client.inflightDaemon == map[]
    ensures FlightOk(env, t)
  {
  }

  lemma FlightStep(env: Env, s: System, step: Step)
    requires PumpOk(s.client) && FlightOk(env, s)
    ensures FlightOk(env, Apply(env, s, step))
  {
    match step
    case UserSetsDaemon(key, value) =>
      SetDaemonFrame(env.cat, s.client, key, value);
      SameFlight(env, s, EditStep(env, s, key, value));
    case UserSetsPref(key, json) =>
      SetPrefFrame(env.cat, s.client, key, json);
      SameFlight(env, s, s.(client := SetPref(env.cat, s.client, key, json)));
    case Timer => TimerFlight(env, s);
    case Serve(fate) => ServeFlight(env, s, fate);
    case Finished(prefError) => FinishFlight(env, s, prefError);
    case Deliver => DeliverFrame(s); SameFlight(env, s, DeliverStep(s));
    case OtherWrite(values, bump, publish) => OtherFlight(env, s, values, bump, publish);
    case OtherPrefs(prefs) => SameFlight(env, s, Post(s, PrefsChanged(prefs)));
    case Disconnect(_) => SameFlight(env, s, Apply(env, s, step));
    case Connect(prefs) => SameFlight(env, s, Apply(env, s, step));
  }

  // ---------- the stream ----------

  lemma PostStream(s: System, m: Message)
    requires StreamOk(s) && !m.Gone?
    requires s.connected && (m.Snapshot? || m.Changed?) ==> m.config == s.published
    ensures StreamOk(Post(s, m))
  {
    PostLast(s.base, s.client.stale, s.inbox, m);
  }

  lemma PublishStream(s: System, t: System)
    requires StreamOk(s)
    requires t.base == s.base && t.client.stale == s.client.stale && t.inbox == s.inbox
    requires t.connected == s.connected && t.shadow == s.shadow && t.lossy == s.lossy
    ensures StreamOk(Publish(t))
    ensures t.published == s.published ==> StreamOk(t)
  {
    PostLast(s.base, s.client.stale, s.inbox, Changed(t.store));
  }

  lemma ServeStream(env: Env, s: System, fate: Fate)
    requires StreamOk(s)
    ensures StreamOk(ServeStep(env, s, fate))
  {
    if s.flight.Sent? {
      PublishStream(s, Commit(env, s));
    }
  }

  lemma LinkStream(env: Env, s: System, step: Step)
    requires StreamOk(s) && (step.Disconnect? || step.Connect?)
    ensures StreamOk(Apply(env, s, step))
  {
    if step.Connect? && !s.connected {
      PostLast(s.base, s.client.stale, s.inbox, Snapshot(s.published, step.prefs));
    }
  }

  lemma DeliverStream(s: System)
    requires StreamOk(s)
    ensures StreamOk(DeliverStep(s))
  {
    if s.inbox != [] {
      var m, rest := s.inbox[0], s.inbox[1..];
      RefreshAhead(rest);
      if HasConfig(s.inbox) && (m.PrefsChanged? || m.Gone?) {
        var i :| 0 <= i < |s.inbox| && (s.inbox[i].Snapshot? || s.inbox[i].Changed?);
        assert rest[i - 1] == s.inbox[i];
      }
      match m
      case Snapshot(config, prefs) => ReceiveFrame(s.client, config, prefs);
      case Changed(config) => ReceiveFrame(s.client, config, map[]);
      case PrefsChanged(prefs) => ReceiveFrame(s.client, Config(0, map[]), prefs);
      case Gone =>
    }
  }

  /** An acknowledged flush leaves no key behind once the client has the current configuration. */
  lemma FinishStream(env: Env, s: System, prefError: Option<Code>)
    requires PumpOk(s.client) && FlightOk(env, s) && StreamOk(s)
    ensures StreamOk(FinishStep(env, s, prefError))
  {
    if s.flight.Answered? && s.client.flushTasks > 0 {
      var t := FinishStep(env, s, prefError);
      FinishCases(s.client, FirstError(s.flight, prefError));
      NoConfig(s.base, s.inbox);
      if s.connected && !HasConfig(s.inbox) && !t.lossy && !Requeues(s.client, FirstError(s.flight, prefError)) {
        assert s.base == s.published;
        forall k | k in s.client.inflightDaemon
          ensures Get(s.base.values, k) == Some(s.client.inflightDaemon[k])
        {
        }
        assert t.shadow == s.shadow;
      }
    }
  }

  lemma StreamStep(env: Env, s: System, step: Step)
    requires PumpOk(s.client) && FlightOk(env, s) && StreamOk(s)
    ensures StreamOk(Apply(env, s, step))
  {
    match step
    case UserSetsDaemon(key, value) => SetDaemonFrame(env.cat, s.client, key, value);
    case UserSetsPref(key, json) => SetPrefFrame(env.cat, s.client, key, json);
    case Timer => if s.client.timers > 0 { TimerFrame(s.client); }
    case Serve(fate) => ServeStream(env, s, fate);
    case Finished(prefError) => FinishStream(env, s, prefError);
    case Deliver => DeliverStream(s);
    case OtherWrite(values, bump, publish) => OtherStream(s, values, bump, publish);
    case OtherPrefs(prefs) => PostStream(s, PrefsChanged(prefs));
    case _ => LinkStream(env, s, step);
  }

  lemma OtherStream(s: System, values: map<string, string>, bump: bool, publish: bool)
    requires StreamOk(s)
    ensures StreamOk(OtherStep(s, values, bump, publish))
  {
    if !(bump && s.store.revision >= MAX_REVISION) {
      PublishStream(s, s.(store := Config(s.store.revision + (if bump then 1 else 0), s.store.values + values),
                          flight := Disturb(s.flight, values.Keys)));
    }
  }

  // ---------- revisions ----------

  lemma ServeRevisions(env: Env, s: System, fate: Fate)
    requires RevisionsOk(s)
    ensures RevisionsOk(ServeStep(env, s, fate)) && s.store.revision <= ServeStep(env, s, fate).store.revision
  {
  }

  lemma DeliverRevisions(s: System)
    requires RevisionsOk(s)
    ensures RevisionsOk(DeliverStep(s)) && DeliverStep(s).store == s.store
  {
  }

  lemma TimerRevisions(s: System)
    requires RevisionsOk(s) && s.client.daemon.revision == s.base.revision
    ensures RevisionsOk(TimerStep(s)) && TimerStep(s).store == s.store
  {
  }

  lemma RevisionsStep(env: Env, s: System, step: Step)
    requires RevisionsOk(s) && s.client.daemon.revision == s.base.revision
    ensures RevisionsOk(Apply(env, s, step))
    ensures s.store.revision <= Apply(env, s, step).store.revision
  {
    match step
    case Timer => TimerRevisions(s);
    case Serve(fate) => ServeRevisions(env, s, fate);
    case Deliver => DeliverRevisions(s);
    case OtherWrite(values, bump, publish) => OtherRevisions(s, values, bump, publish);
    case _ => LocalRevisions(env, s, step);
  }

  lemma OtherRevisions(s: System, values: map<string, string>, bump: bool, publish: bool)
    requires RevisionsOk(s)
    ensures var t := OtherStep(s, values, bump, publish); RevisionsOk(t) && s.store.revision <= t.store.revision
  {
  }

  lemma LocalRevisions(env: Env, s: System, step: Step)
    requires RevisionsOk(s)
    requires !step.Timer? && !step.Serve? && !step.Deliver? && !step.OtherWrite?
    ensures RevisionsOk(Apply(env, s, step)) && Apply(env, s, step).store == s.store
  {
  }

  // ---------- every run ----------

  lemma StartInv(env: Env, store: Config)
    ensures Inv(env, Start(store))
  {
  }

  lemma StepInv(env: Env, s: System, step: Step)
    requires Inv(env, s)
    ensures Inv(env, Apply(env, s, step))
  {
    PumpStep(env, s, step);
    RetriesStep(env, s, step);
    RevisionStep(env, s, step);
    RevisionsStep(env, s, step);
    forall k ensures Shown(env, Apply(env, s, step), k) { ShownStep(env, s, step, k); }
    FlightStep(env, s, step);
    StreamStep(env, s, step);
  }

  lemma {:induction false} RunInv(env: Env, s: System, steps: seq<Step>)
    requires Inv(env, s)
    ensures Inv(env, Run(env, s, steps))
    decreases |steps|
  {
    if steps != [] {
      StepInv(env, s, steps[0]);
      RunInv(env, Apply(env, s, steps[0]), steps[1..]);
    }
  }
}
