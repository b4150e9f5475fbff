/** The promises of the settings write-back, over all runs from a fresh client. */
module SettingsGuarantees {
  import opened Prelude
  import opened SettingsClient
  import opened SettingsSystem
  import opened SettingsTheorems

  function After(env: Env, store: Config, steps: seq<Step>): System { Run(env, Start(store), steps) }

  /** The pump neither overlaps nor gets stuck. */
  lemma PumpInEveryRun(env: Env, store: Config, steps: seq<Step>)
    ensures var c := After(env, store, steps).client;
      && c.timers <= 1 && c.flushTasks <= 1
      && (c.inflightDaemon != map[] || c.inflightPrefs != map[] ==> c.flushTasks == 1)
      && (c.HasPending() ==> c.timers + c.flushTasks > 0)
      && (c.stale ==> !c.HasPending() && c.inflightDaemon == map[] && c.inflightPrefs == map[])
      && (c.flushTasks == 1 <==> After(env, store, steps).flight != Grounded)
  {
    StartInv(env, store);
    RunInv(env, Start(store), steps);
  }

  /** Whatever has happened, an edit that is still to be written is the last one the user made
      for its key, and it is what the user is shown. */
  lemma LatestEditWins(env: Env, store: Config, steps: seq<Step>, k: string)
    ensures var s := After(env, store, steps);
      s.client.EffectiveDaemon(k).Some? ==>
        Get(s.lastEdit, k) == s.client.EffectiveDaemon(k) == Get(s.client.daemon.values, k)
  {
    StartInv(env, store);
    RunInv(env, Start(store), steps);
    assert Shown(env, After(env, store, steps), k);
  }

  /** A conflict is re-queued unless exactly three conflicts in a row, since the last batch was
      written or dropped, went before it. */
  lemma FourthConflictDrops(env: Env, store: Config, steps: seq<Step>)
    ensures var s := After(env, store, steps);
      && s.client.conflictRetries <= 3
      && (Requeues(s.client, Some(Conflict)) <==> TrailingConflicts(s.outcomes) % 4 != 3)
      && (s.client.flushTasks > 0 && !Requeues(s.client, Some(Conflict)) ==>
            var d := Finish(s.client, Some(Conflict));
            d.inflightDaemon == map[] && d.lastError == Some(ConflictError) && d.conflictRetries == 0)
  {
    StartInv(env, store);
    RunInv(env, Start(store), steps);
    var c := After(env, store, steps).client;
    if c.flushTasks > 0 && !Requeues(c, Some(Conflict)) {
      var d := Settle(c.(flushInflight := false, flushTasks := c.flushTasks - 1), Some(Conflict));
      assert d.inflightDaemon == map[] && d.lastError == Some(ConflictError);
    }
  }

  // ---------- convergence ----------

  predicate Quiet(env: Env, s: System, k: string) {
    s.connected && s.inbox == [] && s.client.EffectiveDaemon(k) == None && !Catalogued(env.cat.specs, k)
  }

  /** With everything delivered, the client has the published revision, and it shows a key's
      published value unless the last acknowledged or dropped edit of that key disagreed with the
      configuration then last received, and none has been received since. */
  lemma AgreesIffNotLeftBehind(env: Env, store: Config, steps: seq<Step>, k: string)
    requires Quiet(env, After(env, store, steps), k)
    ensures var s := After(env, store, steps);
      && s.client.daemon.revision == s.published.revision
      && (Get(s.client.daemon.values, k) == Get(s.published.values, k) <==> k !in s.shadow)
      && (!s.lossy ==> Get(s.client.daemon.values, k) == Get(s.published.values, k))
  {
    StartInv(env, store);
    RunInv(env, Start(store), steps);
    assert Shown(env, After(env, store, steps), k);
  }

  /** The steps under which the client ends up right: every commit is published, no batch is
      dropped, other writers keep away from keys that the daemon has stored for us and we have
      not seen acknowledged, and the user's values are stored in the form they are sent. */
  predicate Calm(env: Env, s: System, step: Step) {
    match step
    case UserSetsDaemon(key, value) =>
      var wire := env.cat.normalize(key, value);
      wire.Some? ==> env.serverForm(key, wire.value) == wire.value
    case Serve(fate) => !fate.LiveApplyFails?
    case Finished(prefError) =>
      s.flight.Answered? ==>
        FirstError(s.flight, prefError) == None || Requeues(s.client, FirstError(s.flight, prefError))
    case OtherWrite(values, bump, publish) => publish && Disturb(s.flight, values.Keys) == s.flight
    case _ => true
  }

  predicate CalmRun(env: Env, s: System, steps: seq<Step>)
    decreases |steps|
  {
    steps == [] || (Calm(env, s, steps[0]) && CalmRun(env, Apply(env, s, steps[0]), steps[1..]))
  }

  ghost predicate CalmInv(env: Env, s: System) {
    && Inv(env, s) && !s.lossy && s.published == s.store
    && Faithful(env, s.client.pendingDaemon) && Faithful(env, s.client.inflightDaemon)
    && (!s.flight.Grounded? ==> Faithful(env, s.flight.values))
    && (s.flight.Answered? && s.flight.values != map[] && s.flight.error == None ==> s.flight.stored)
  }

  lemma CalmFinish(env: Env, s: System, prefError: Option<Code>)
    requires CalmInv(env, s) && Calm(env, s, Finished(prefError))
    ensures var t := FinishStep(env, s, prefError); !t.lossy && Faithful(env, t.client.pendingDaemon)
  {
    if s.flight.Answered? && s.client.flushTasks > 0 {
      var error := FirstError(s.flight, prefError);
      var d := Settle(s.client.(flushInflight := false, flushTasks := s.client.flushTasks - 1), error);
      assert d.pendingDaemon == s.client.pendingDaemon
          || d.pendingDaemon == s.client.inflightDaemon + s.client.pendingDaemon;
      assert Finish(s.client, error).pendingDaemon == d.pendingDaemon;
    }
  }

  lemma CalmEdit(env: Env, s: System, key: string, value: string)
    requires CalmInv(env, s) && Calm(env, s, UserSetsDaemon(key, value))
    ensures Faithful(env, SetDaemon(env.cat, s.client, key, value).pendingDaemon)
  {
    var wire := env.cat.normalize(key, value);
    var route := if wire.Some? then RouteOf(env.cat, key, wire.value) else Raw;
    var d := EditDaemon(s.client, key, wire, route);
    EditDaemonPending(s.client, key, wire, route);
    assert SetDaemon(env.cat, s.client, key, value) == d;
  }

  lemma EditDaemonPending(c: Client, key: string, wire: Option<string>, route: Route)
    ensures var d := EditDaemon(c, key, wire, route);
      d.pendingDaemon == c.pendingDaemon || (wire.Some? && d.pendingDaemon == c.pendingDaemon[key := wire.value])
  {
  }

  lemma CalmTimer(env: Env, s: System)
    requires CalmInv(env, s)
    ensures var t := TimerStep(s);
      && Faithful(env, t.client.pendingDaemon) && Faithful(env, t.client.inflightDaemon)
      && (!t.flight.Grounded? ==> Faithful(env, t.flight.values))
      && (t.flight.Answered? && t.flight.values != map[] && t.flight.error == None ==> t.flight.stored)
  {
    if s.client.timers > 0 && !FlushSkipped(TimerUp(s.client)) {
      CallsShape(TimerUp(s.client));
    }
  }

  lemma CalmDeliver(env: Env, s: System)
    requires CalmInv(env, s)
    ensures var t := DeliverStep(s);
      !t.lossy && Faithful(env, t.client.pendingDaemon) && Faithful(env, t.client.inflightDaemon)
  {
    if s.inbox != [] {
      match s.inbox[0]
      case Snapshot(config, prefs) => ReceiveFrame(s.client, config, prefs);
      case Changed(config) =>
      case PrefsChanged(prefs) =>
      case Gone =>
    }
  }

  ghost predicate CalmServer(env: Env, s: System, t: System) {
    && t.client == s.client && t.lossy == s.lossy && t.published == t.store
    && (!t.flight.Grounded? ==> Faithful(env, t.flight.values))
    && (t.flight.Answered? && t.flight.values != map[] && t.flight.error == None ==> t.flight.stored)
  }

  lemma CalmServe(env: Env, s: System, fate: Fate)
    requires CalmInv(env, s) && !fate.LiveApplyFails?
    ensures CalmServer(env, s, ServeStep(env, s, fate))
  {
    if s.flight.Sent? {
      assert CalmServer(env, s, Answer(Publish(Commit(env, s)), None, true));
    }
  }

  lemma CalmOther(env: Env, s: System, values: map<string, string>, bump: bool)
    requires CalmInv(env, s) && Disturb(s.flight, values.Keys) == s.flight
    ensures CalmServer(env, s, OtherStep(s, values, bump, true))
  {
  }

  lemma CalmStep(env: Env, s: System, step: Step)
    requires CalmInv(env, s) && Calm(env, s, step)
    ensures CalmInv(env, Apply(env, s, step))
  {
    StepInv(env, s, step);
    match step
    case UserSetsDaemon(key, value) => CalmEdit(env, s, key, value); SetDaemonFrame(env.cat, s.client, key, value);
    case UserSetsPref(key, json) =>
      SetPrefFrame(env.cat, s.client, key, json);
    case Timer => CalmTimer(env, s);
    case Finished(prefError) =>
      CalmFinish(env, s, prefError);
      if s.flight.Answered? && s.client.flushTasks > 0 { FinishCases(s.client, FirstError(s.flight, prefError)); }
    case Deliver => CalmDeliver(env, s);
    case Serve(fate) => CalmServe(env, s, fate);
    case OtherWrite(values, bump, publish) => CalmOther(env, s, values, bump);
    case _ => RemoteKeepsView(env, s, step);
  }

  lemma {:induction false} CalmRunInv(env: Env, s: System, steps: seq<Step>)
    requires CalmInv(env, s) && CalmRun(env, s, steps)
    ensures CalmInv(env, Run(env, s, steps))
    decreases |steps|
  {
    if steps != [] {
      CalmStep(env, s, steps[0]);
      CalmRunInv(env, Apply(env, s, steps[0]), steps[1..]);
    }
  }

  /** Convergence: after any calm run, once everything is delivered, the client has the store's
      revision and shows the store's value for every key with no edit left to write. */
  lemma CalmRunConverges(env: Env, store: Config, steps: seq<Step>, k: string)
    requires CalmRun(env, Start(store), steps) && Quiet(env, After(env, store, steps), k)
    ensures var s := After(env, store, steps);
      && s.client.daemon.revision == s.store.revision
      && Get(s.client.daemon.values, k) == Get(s.store.values, k)
  {
    StartInv(env, store);
    CalmRunInv(env, Start(store), steps);
    AgreesIffNotLeftBehind(env, store, steps, k);
  }

  // ---------- where it does not converge ----------

  lemma {:induction false} RunThen(env: Env, s: System, steps: seq<Step>, step: Step)
    ensures Run(env, s, steps + [step]) == Apply(env, Run(env, s, steps), step)
    decreases |steps|
  {
    if steps == [] {
      assert steps + [step] == [step];
      assert Run(env, Apply(env, s, step), [step][1..]) == Apply(env, s, step);
    } else {
      assert (steps + [step])[1..] == steps[1..] + [step];
      RunThen(env, Apply(env, s, steps[0]), steps[1..], step);
    }
  }

  function Witness(serverForm: (string, string) -> string): Env {
    Env(Catalogue([], (k: string, v: string) => Some(v), (k: string, j: Json) => true,
                  (s: Spec, j: Json) => None, (k: string, v: string) => Json(v)), serverForm)
  }

  /** The client shows "0" and the user has typed "1". */
  lemma EditMade(env: Env) returns (steps: seq<Step>, s: System)
    requires env.cat == Witness(env.serverForm).cat
    ensures var start := Config(0, map["k" := "0"]);
      && s == After(env, start, steps)
      && s.store == s.published == start && s.connected && s.inbox == [] && s.flight == Grounded
      && s.client == Client(Config(0, map["k" := "1"]), map[], false, map["k" := "1"], map[], map[], map[],
                            true, false, 0, None, 1, 0)
      && (forall i :: 0 <= i < |steps| ==> !steps[i].OtherWrite?)
  {
    var start := Config(0, map["k" := "0"]);
    steps, s := [], Start(start);
    RunThen(env, Start(start), steps, Connect(map[]));
    steps, s := steps + [Connect(map[])], Apply(env, s, Connect(map[]));
    assert s.inbox == [Snapshot(start, map[])];
    RunThen(env, Start(start), steps, Deliver);
    steps, s := steps + [Deliver], Apply(env, s, Deliver);
    assert s.client == FreshClient.(daemon := start, stale := false);
    RunThen(env, Start(start), steps, UserSetsDaemon("k", "1"));
    steps, s := steps + [UserSetsDaemon("k", "1")], Apply(env, s, UserSetsDaemon("k", "1"));
    assert map["k" := "0"]["k" := "1"] == map["k" := "1"];
  }

  /** The edit of `EditMade` has been sent. */
  lemma EditSent(env: Env) returns (steps: seq<Step>, s: System)
    requires env.cat == Witness(env.serverForm).cat
    ensures var start := Config(0, map["k" := "0"]);
      && s == After(env, start, steps)
      && s.store == s.published == start && s.connected && s.inbox == []
      && s.flight == Sent(0, map["k" := "1"], false)
      && s.client == Client(Config(0, map["k" := "1"]), map[], false, map[], map["k" := "1"], map[], map[],
                            false, true, 0, None, 0, 1)
      && (forall i :: 0 <= i < |steps| ==> !steps[i].OtherWrite?)
  {
    var start := Config(0, map["k" := "0"]);
    steps, s := EditMade(env);
    assert s.client.pendingPrefs == map[];
    assert Part(s.client.pendingPrefs, true) == map[] && Part(s.client.pendingPrefs, false) == map[];
    assert "k" in s.client.pendingDaemon;
    assert !FlushSkipped(TimerUp(s.client));
    assert FlushCalls(TimerUp(s.client)) == [DaemonPatch(0, map["k" := "1"])] + [] + [];
    RunThen(env, Start(start), steps, Timer);
    steps, s := steps + [Timer], Apply(env, s, Timer);
  }

  /** The daemon has stored it and said so; neither the answer nor the event has reached the client. */
  lemma EditStored(env: Env) returns (steps: seq<Step>, s: System)
    requires env.cat == Witness(env.serverForm).cat
    ensures var start := Config(0, map["k" := "0"]);
      && s == After(env, start, steps)
      && s.store == s.published == Config(1, map["k" := env.serverForm("k", "1")])
      && s.connected && s.inbox == [Changed(s.store)]
      && s.flight == Answered(map["k" := "1"], None, true, false)
      && s.client.inflightDaemon == map["k" := "1"] && !s.client.HasPending()
      && s.client.inflightPrefs == map[] && s.client.flushTasks == 1 && s.client.conflictRetries == 0
      && (forall i :: 0 <= i < |steps| ==> !steps[i].OtherWrite?)
  {
    var start := Config(0, map["k" := "0"]);
    steps, s := EditSent(env);
    RunThen(env, Start(start), steps, Serve(Normal));
    steps, s := steps + [Serve(Normal)], Apply(env, s, Serve(Normal));
    assert s.store.values == map["k" := env.serverForm("k", "1")];
  }

  /** As above, and then another writer sets the key to "2", and the first event arrives. */
  lemma EditOverwritten(env: Env) returns (steps: seq<Step>, s: System)
    requires env.cat == Witness(env.serverForm).cat && env.serverForm("k", "1") == "1"
    ensures s == After(env, Config(0, map["k" := "0"]), steps)
    ensures s.store == s.published == Config(2, map["k" := "2"])
    ensures s.connected && s.inbox == [Changed(s.store)]
    ensures s.flight == Answered(map["k" := "1"], None, false, false)
    ensures s.client.inflightDaemon == map["k" := "1"] && !s.client.HasPending()
    ensures s.client.inflightPrefs == map[] && s.client.flushTasks == 1 && s.client.conflictRetries == 0
  {
    steps, s := EditStored(env);
    var other := OtherWrite(map["k" := "2"], true, true);
    RunThen(env, Start(Config(0, map["k" := "0"])), steps, other);
    assert s.store.values + map["k" := "2"] == map["k" := "2"];
    assert "k" in map["k" := "1"].Keys * map["k" := "2"].Keys;
    steps, s := steps + [other], Apply(env, s, other);
    RunThen(env, Start(Config(0, map["k" := "0"])), steps, Deliver);
    steps, s := steps + [Deliver], Apply(env, s, Deliver);
  }

  /** Then the second event arrives, and still shows the edit that has not been acknowledged. */
  lemma OverwriteEchoed(env: Env) returns (steps: seq<Step>, s: System)
    requires env.cat == Witness(env.serverForm).cat && env.serverForm("k", "1") == "1"
    ensures s == After(env, Config(0, map["k" := "0"]), steps)
    ensures s.store == s.published == Config(2, map["k" := "2"]) && s.connected && s.inbox == []
    ensures s.client.daemon == Config(2, map["k" := "1"])
    ensures s.flight == Answered(map["k" := "1"], None, false, false)
    ensures s.client.inflightDaemon == map["k" := "1"] && !s.client.HasPending()
    ensures s.client.inflightPrefs == map[] && s.client.flushTasks == 1 && s.client.conflictRetries == 0
  {
    steps, s := EditOverwritten(env);
    RunThen(env, Start(Config(0, map["k" := "0"])), steps, Deliver);
    steps, s := steps + [Deliver], Apply(env, s, Deliver);
    assert map["k" := "2"]["k" := "1"] == map["k" := "1"];
  }

  /** Another writer that touches the key after the daemon stored our edit and before we see the
      acknowledgement is masked: the client is at the store's revision and shows the wrong value. */
  lemma OtherWriterMasked()
    ensures exists env: Env, store: Config, steps: seq<Step> ::
      && (forall k, v :: env.serverForm(k, v) == v)
      && var s := After(env, store, steps);
      && Quiet(env, s, "k") && s.client.daemon.revision == s.store.revision && s.published == s.store
      && Get(s.client.daemon.values, "k") != Get(s.store.values, "k")
  {
    var env := Witness((k: string, v: string) => v);
    var start := Config(0, map["k" := "0"]);
    var steps, s := OverwriteEchoed(env);
    RunThen(env, Start(start), steps, Finished(None));
    steps, s := steps + [Finished(None)], Apply(env, s, Finished(None));
    assert Quiet(env, After(env, start, steps), "k");
  }

  /** The daemon has stored the edit as "on", and its event, but not yet the answer, has arrived. */
  lemma EditEchoed(env: Env) returns (steps: seq<Step>, s: System)
    requires env.cat == Witness(env.serverForm).cat && env.serverForm("k", "1") == "on"
    ensures s == After(env, Config(0, map["k" := "0"]), steps)
    ensures s.store == s.published == Config(1, map["k" := "on"]) && s.connected && s.inbox == []
    ensures s.client.daemon == Config(1, map["k" := "1"])
    ensures s.flight == Answered(map["k" := "1"], None, true, false)
    ensures s.client.inflightDaemon == map["k" := "1"] && !s.client.HasPending()
    ensures s.client.inflightPrefs == map[] && s.client.flushTasks == 1 && s.client.conflictRetries == 0
    ensures forall i :: 0 <= i < |steps| ==> !steps[i].OtherWrite?
  {
    steps, s := EditStored(env);
    RunThen(env, Start(Config(0, map["k" := "0"])), steps, Deliver);
    steps, s := steps + [Deliver], Apply(env, s, Deliver);
    assert map["k" := "on"]["k" := "1"] == map["k" := "1"];
  }

  /** A key the daemon stores in another form than it is sent is left behind in the same way,
      with no other writer at all. */
  lemma RewrittenKeyMasked()
    ensures exists env: Env, store: Config, steps: seq<Step> ::
      && (forall i :: 0 <= i < |steps| ==> !steps[i].OtherWrite?)
      && var s := After(env, store, steps);
      && Quiet(env, s, "k") && s.client.daemon.revision == s.store.revision && s.published == s.store
      && Get(s.client.daemon.values, "k") != Get(s.store.values, "k")
  {
    var env := Witness((k: string, v: string) => "on");
    var start := Config(0, map["k" := "0"]);
    var steps, s := EditEchoed(env);
    RunThen(env, Start(start), steps, Finished(None));
    steps, s := steps + [Finished(None)], Apply(env, s, Finished(None));
    assert Quiet(env, After(env, start, steps), "k");
  }

  // ---------- a commit that is not published ----------

  /** The store is ahead of every configuration the client has or will receive. */
  ghost predicate Behind(s: System) {
    && s.base.revision < s.store.revision && s.published.revision < s.store.revision
    && s.client.daemon.revision == s.base.revision
    && (s.flight.Sent? ==> s.flight.expected < s.store.revision)
    && forall i :: 0 <= i < |s.inbox| && (s.inbox[i].Snapshot? || s.inbox[i].Changed?) ==>
         s.inbox[i].config.revision < s.store.revision
  }

  lemma BehindTimer(s: System)
    requires Behind(s)
    ensures Behind(TimerStep(s)) && TimerStep(s).store == s.store
  {
  }

  lemma BehindDeliver(s: System)
    requires Behind(s)
    ensures Behind(DeliverStep(s)) && DeliverStep(s).store == s.store
  {
    DeliverFrame(s);
    var t := DeliverStep(s);
    assert t.base.revision < s.store.revision;
    assert t.flight == s.flight && t.store == s.store && t.published == s.published;
    if s.inbox != [] {
      assert forall i :: 0 <= i < |t.inbox| ==> t.inbox[i] == s.inbox[i + 1];
    }
  }

  lemma BehindServe(env: Env, s: System, fate: Fate)
    requires Behind(s)
    ensures Behind(ServeStep(env, s, fate)) && ServeStep(env, s, fate).store == s.store
  {
  }

  lemma BehindPost(s: System, m: Message)
    requires Behind(s) && (m.Snapshot? || m.Changed? ==> m.config.revision < s.store.revision)
    ensures Behind(Post(s, m))
  {
  }

  lemma BehindStep(env: Env, s: System, step: Step)
    requires Behind(s) && !step.OtherWrite?
    ensures Behind(Apply(env, s, step)) && Apply(env, s, step).store == s.store
  {
    match step
    case Timer => BehindTimer(s);
    case Serve(fate) => BehindServe(env, s, fate);
    case Deliver => BehindDeliver(s);
    case OtherPrefs(prefs) => BehindPost(s, PrefsChanged(prefs));
    case Disconnect(_) => BehindPost(s, Gone);
    case Connect(prefs) => BehindPost(s.(connected := true), Snapshot(s.published, prefs));
    case _ => BehindLocal(env, s, step);
  }

  lemma BehindLocal(env: Env, s: System, step: Step)
    requires Behind(s) && (step.UserSetsDaemon? || step.UserSetsPref? || step.Finished?)
    ensures Behind(Apply(env, s, step)) && Apply(env, s, step).store == s.store
  {
    RevisionStep(env, s, step);
    var t := Apply(env, s, step);
    assert t.base == s.base && t.published == s.published && t.inbox == s.inbox;
  }

  lemma {:induction false} BehindRun(env: Env, s: System, more: seq<Step>)
    requires Behind(s) && forall i :: 0 <= i < |more| ==> !more[i].OtherWrite?
    ensures Run(env, s, more).store == s.store
    decreases |more|
  {
    if more != [] {
      BehindStep(env, s, more[0]);
      BehindRun(env, Apply(env, s, more[0]), more[1..]);
    }
  }

  /** After a patch that is committed but fails to apply live, no edit of this client is stored
      again, through any retries, reconnects and later edits, until some other writer writes. */
  lemma UnpublishedCommitWedges(env: Env, store: Config, steps: seq<Step>, code: Code, more: seq<Step>)
    requires Acceptable(After(env, store, steps)) && code != Conflict
    requires forall i :: 0 <= i < |more| ==> !more[i].OtherWrite?
    ensures var t := Apply(env, After(env, store, steps), Serve(LiveApplyFails(code)));
      Run(env, t, more).store == t.store
  {
    StartInv(env, store);
    RunInv(env, Start(store), steps);
    BehindRun(env, Apply(env, After(env, store, steps), Serve(LiveApplyFails(code))), more);
  }

  predicate Idle(s: System) {
    && s.connected && s.inbox == [] && s.flight.Grounded? && s.client.pendingDaemon != map[]
    && s.store.revision < MAX_REVISION
  }

  /** When a connected client that has received everything gets its next patch stored: exactly if the
      store's revision has been published. */
  lemma FlushStoresIff(env: Env, store: Config, steps: seq<Step>)
    requires Idle(After(env, store, steps))
    ensures var s := After(env, store, steps);
      Apply(env, Apply(env, s, Timer), Serve(Normal)).store != s.store <==> s.published.revision == s.store.revision
  {
    StartInv(env, store);
    RunInv(env, Start(store), steps);
    var s := After(env, store, steps);
    CallsShape(TimerUp(s.client));
    assert Apply(env, s, Timer).flight
        == Sent(s.client.daemon.revision, s.client.pendingDaemon, |FlushCalls(TimerUp(s.client))| > 1);
  }

  /** The patch of `EditSent` was committed, failed to apply live, and was dropped; the user has made
      another edit. */
  lemma EditAfterFailure(env: Env) returns (steps: seq<Step>, s: System)
    requires env.cat == Witness(env.serverForm).cat
    ensures s == After(env, Config(0, map["k" := "0"]), steps)
    ensures s.connected && s.inbox == [] && s.flight.Grounded? && s.client.pendingDaemon == map["k" := "2"]
    ensures s.store.revision == 1 && s.published.revision == 0
    ensures forall i :: 0 <= i < |steps| ==> !steps[i].OtherWrite?
  {
    var start := Config(0, map["k" := "0"]);
    steps, s := EditSent(env);
    RunThen(env, Start(start), steps, Serve(LiveApplyFails(OtherCode)));
    steps, s := steps + [Serve(LiveApplyFails(OtherCode))], Apply(env, s, Serve(LiveApplyFails(OtherCode)));
    assert s.flight == Answered(map["k" := "1"], Some(OtherCode), false, false);
    RunThen(env, Start(start), steps, Finished(None));
    steps, s := steps + [Finished(None)], Apply(env, s, Finished(None));
    assert !s.client.stale && s.client.pendingDaemon == map[] && s.client.daemon.values == map["k" := "1"];
    RunThen(env, Start(start), steps, UserSetsDaemon("k", "2"));
    steps, s := steps + [UserSetsDaemon("k", "2")], Apply(env, s, UserSetsDaemon("k", "2"));
  }

  /** A run without any other writer that ends in the wedge. */
  lemma WedgeHappens()
    ensures exists env: Env, store: Config, steps: seq<Step> ::
      && (forall i :: 0 <= i < |steps| ==> !steps[i].OtherWrite?)
      && var s := After(env, store, steps);
      Idle(s) && Apply(env, Apply(env, s, Timer), Serve(Normal)).store == s.store
  {
    var env := Witness((k: string, v: string) => v);
    var steps, s := EditAfterFailure(env);
    assert "k" in s.client.pendingDaemon;
    assert Idle(s);
    FlushStoresIff(env, Config(0, map["k" := "0"]), steps);
  }

  // ---------- delivery and exit ----------

  const OneFlush := [Timer, Serve(Normal), Finished(None), Deliver]

  ghost predicate ReadyToFlush(s: System) {
    && s.connected && s.inbox == [] && s.published == s.store && s.store.revision < MAX_REVISION
    && s.flight.Grounded? && s.client.pendingDaemon != map[]
  }

  /** The patch is sent and stored. */
  lemma FlushStored(env: Env, s: System)
    requires Inv(env, s) && ReadyToFlush(s)
    ensures var t := Apply(env, Apply(env, s, Timer), Serve(Normal));
      && t.store == Config(s.store.revision + 1, s.store.values + ServerForm(env, s.client.pendingDaemon))
      && t.published == t.store && t.connected && t.inbox == [Changed(t.store)]
      && t.flight.Answered? && t.flight.error == None
      && !t.client.HasPending() && t.client.flushTasks == 1
  {
    assert s.base == s.published;
    CallsShape(TimerUp(s.client));
    var s1 := Apply(env, s, Timer);
    assert s1.flight.Sent? && s1.flight.expected == s.store.revision && s1.flight.values == s.client.pendingDaemon;
    assert s1.client == TimerFires(s.client);
  }

  /** The answer and then the event arrive. */
  lemma FlushAcknowledged(env: Env, s: System)
    requires s.flight.Answered? && s.flight.error == None && s.client.flushTasks > 0 && !s.client.HasPending()
    requires s.published == s.store && s.inbox == [Changed(s.store)]
    ensures var t := Apply(env, Apply(env, s, Finished(None)), Deliver);
      && t.store == s.store && !t.client.HasPending() && t.flight.Grounded? && t.inbox == []
      && t.base == t.published == t.store
  {
  }

  /** A connected, up-to-date client with unsent edits gets them stored by its next flush, and
      is then up to date again with nothing left to send. */
  lemma QuietFlushDelivers(env: Env, store: Config, steps: seq<Step>)
    requires ReadyToFlush(After(env, store, steps))
    ensures var s := After(env, store, steps); var t := Run(env, s, OneFlush);
      && t.store == Config(s.store.revision + 1, s.store.values + ServerForm(env, s.client.pendingDaemon))
      && !t.client.HasPending() && t.flight.Grounded? && t.inbox == [] && t.base == t.published == t.store
  {
    StartInv(env, store);
    RunInv(env, Start(store), steps);
    var s := After(env, store, steps);
    FlushStored(env, s);
    FlushAcknowledged(env, Apply(env, Apply(env, s, Timer), Serve(Normal)));
    var s3 := Apply(env, Apply(env, Apply(env, s, Timer), Serve(Normal)), Finished(None));
    assert OneFlush[1..] == [Serve(Normal), Finished(None), Deliver];
    assert OneFlush[1..][1..] == [Finished(None), Deliver];
    assert OneFlush[1..][1..][1..] == [Deliver];
    assert Run(env, s3, [Deliver]) == Apply(env, s3, Deliver);
  }

  /** When the patch drained at quitting is accepted, if it arrives after the outstanding flush: exactly
      if that flush is not going to be stored and the client has the store's revision. */
  lemma DrainAcceptedIff(env: Env, store: Config, steps: seq<Step>, i: nat)
    requires var s := After(env, store, steps);
      i < |DrainCalls(s.client)| && DrainCalls(s.client)[i].DaemonPatch?
    ensures var s := After(env, store, steps);
      DrainCalls(s.client)[i].expected == Apply(env, s, Serve(Normal)).store.revision <==>
        !Acceptable(s) && s.base.revision == s.store.revision
  {
    StartInv(env, store);
    RunInv(env, Start(store), steps);
  }

  /** So quitting while a flush is about to be stored loses the daemon edits made since: the drained
      patch names the revision that flush has just replaced. */
  lemma DrainBehindFlushRefused(env: Env, store: Config, steps: seq<Step>, i: nat)
    requires var s := After(env, store, steps);
      Acceptable(s) && i < |DrainCalls(s.client)| && DrainCalls(s.client)[i].DaemonPatch?
    ensures var s := After(env, store, steps);
      DrainCalls(s.client)[i].expected != Apply(env, s, Serve(Normal)).store.revision
  {
    DrainAcceptedIff(env, store, steps, i);
  }

  /** The edit of `EditSent` is on its way, and the user has made another. */
  lemma EditBehind(env: Env) returns (steps: seq<Step>, s: System)
    requires env.cat == Witness(env.serverForm).cat && env.serverForm("k", "1") == "1"
    ensures s == After(env, Config(0, map["k" := "0"]), steps)
    ensures s.store == Config(0, map["k" := "0"]) && s.flight == Sent(0, map["k" := "1"], false)
    ensures s.client.daemon == Config(0, map["k" := "2"]) && s.client.pendingDaemon == map["k" := "2"]
    ensures s.client.pendingPrefs == map[] && !s.client.stale
  {
    var start := Config(0, map["k" := "0"]);
    steps, s := EditSent(env);
    RunThen(env, Start(start), steps, UserSetsDaemon("k", "2"));
    steps, s := steps + [UserSetsDaemon("k", "2")], Apply(env, s, UserSetsDaemon("k", "2"));
    assert map["k" := "1"]["k" := "2"] == map["k" := "2"];
  }

  /** Such a run: the user types "1", the flush goes out, the user types "2" and quits. */
  lemma DrainLosesEdit()
    ensures exists env: Env, store: Config, steps: seq<Step> ::
      var s := After(env, store, steps);
      && Acceptable(s) && Get(s.client.daemon.values, "k") == Some("2")
      && DrainCalls(s.client) == [DaemonPatch(0, map["k" := "2"])]
      && Apply(env, s, Serve(Normal)).store == Config(1, map["k" := "1"])
  {
    var env := Witness((k: string, v: string) => v);
    var steps, s := EditBehind(env);
    assert "k" in s.client.pendingDaemon;
    assert Part(s.client.pendingPrefs, true) == map[] && Part(s.client.pendingPrefs, false) == map[];
    assert DrainCalls(s.client) == [DaemonPatch(0, map["k" := "2"])] + [] + [];
    assert ServerForm(env, map["k" := "1"]) == map["k" := "1"];
    assert map["k" := "0"] + map["k" := "1"] == map["k" := "1"];
  }
}
