/** What becomes of every daemon edit, over all runs. */
module SettingsAccounting {
  import opened Prelude
  import opened SettingsClient
  import opened SettingsSystem
  import opened SettingsTheorems
  import opened SettingsGuarantees

  /** The edit of `k` to `v` is still to be written. */
  predicate Holds(s: System, k: string, v: string) {
    s.client.EffectiveDaemon(k) == Some(v)
  }

  /** The step is the user's, and puts another value in the edit's place. */
  predicate Superseded(env: Env, s: System, step: Step, k: string, v: string) {
    && step.UserSetsDaemon? && step.key == k
    && var t := Apply(env, s, step);
    && t.client.EffectiveDaemon(k).Some? && !Holds(t, k, v)
    && t.client.EffectiveDaemon(k) == env.cat.normalize(k, step.value)
  }

  /** The step ends a flush that the daemon accepted and that carried the edit. */
  predicate Acknowledged(s: System, step: Step, k: string, v: string) {
    step.Finished? && s.flight.Answered? && s.flight.error == None && Get(s.flight.values, k) == Some(v)
  }

  /** The error with which a step gives edits up: that of a flush, or of the lost session. */
  function Failure(s: System, step: Step): Option<ErrorKind> {
    if step.Finished? && s.flight.Answered? && FirstError(s.flight, step.prefError).Some? then
      Some(FromRpc(FirstError(s.flight, step.prefError).value))
    else if step.Deliver? && s.inbox != [] && s.inbox[0].Gone? then Some(Disconnected)
    else None
  }

  /** The step gives the edit up, and shows the user why. */
  predicate Dropped(env: Env, s: System, step: Step) {
    Failure(s, step).Some? && Apply(env, s, step).client.lastError == Failure(s, step)
  }

  predicate Ends(env: Env, s: System, step: Step, k: string, v: string) {
    Superseded(env, s, step, k, v) || Acknowledged(s, step, k, v) || Dropped(env, s, step)
  }

  /** An edit the store takes, of a key outside the sync catalogue, is to be written from then on. */
  lemma AcceptedEditHolds(env: Env, s: System, key: string, value: string)
    requires !s.client.stale && env.cat.normalize(key, value).Some? && !Catalogued(env.cat.specs, key)
    requires Get(s.client.daemon.values, key) != env.cat.normalize(key, value)
    ensures Holds(Apply(env, s, UserSetsDaemon(key, value)), key, env.cat.normalize(key, value).value)
  {
  }

  lemma EditEnds(env: Env, s: System, key: string, value: string, k: string, v: string)
    requires Holds(s, k, v)
    ensures var step := UserSetsDaemon(key, value);
      Holds(Apply(env, s, step), k, v) || Superseded(env, s, step, k, v)
  {
    var wire := env.cat.normalize(key, value);
    var route := if wire.Some? then RouteOf(env.cat, key, wire.value) else Raw;
    EditDaemonPending(s.client, key, wire, route);
    EditDaemonFrame(s.client, key, wire, route);
    assert SetDaemon(env.cat, s.client, key, value) == EditDaemon(s.client, key, wire, route);
  }

  lemma FinishEnds(env: Env, s: System, prefError: Option<Code>, k: string, v: string)
    requires FlightOk(env, s) && Holds(s, k, v)
    ensures Holds(FinishStep(env, s, prefError), k, v) || Ends(env, s, Finished(prefError), k, v)
  {
    if s.flight.Answered? && s.client.flushTasks > 0 {
      var error := FirstError(s.flight, prefError);
      FinishCases(s.client, error);
      if Requeues(s.client, error) {
        RequeueKeepsEffective(s.client, error, k);
      } else {
        if error.Some? {
          FinishError(s.client, error);
        }
        if k !in s.client.pendingDaemon {
          assert k in s.client.inflightDaemon;
        }
      }
    }
  }

  lemma FinishError(c: Client, error: Option<Code>)
    requires c.flushTasks > 0 && error.Some? && !Requeues(c, error)
    ensures Finish(c, error).lastError == Some(FromRpc(error.value))
  {
    var d := Settle(c.(flushInflight := false, flushTasks := c.flushTasks - 1), error);
    assert d.lastError == Some(FromRpc(error.value));
  }

  lemma TimerKeeps(s: System, k: string)
    requires PumpOk(s.client)
    ensures TimerStep(s).client.EffectiveDaemon(k) == s.client.EffectiveDaemon(k)
  {
  }

  lemma DeliverEnds(env: Env, s: System, k: string, v: string)
    requires Holds(s, k, v)
    ensures Holds(DeliverStep(s), k, v) || Dropped(env, s, Deliver)
  {
    if s.inbox != [] {
      match s.inbox[0]
      case Snapshot(config, prefs) => assert Holds(DeliverStep(s), k, v);
      case Changed(config) =>
      case PrefsChanged(prefs) =>
      case Gone =>
    }
  }

  /** A step leaves an edit to be written, or ends it in one of the three ways. */
  lemma StepEnds(env: Env, s: System, step: Step, k: string, v: string)
    requires Inv(env, s) && Holds(s, k, v)
    ensures Holds(Apply(env, s, step), k, v) || Ends(env, s, step, k, v)
  {
    match step
    case UserSetsDaemon(key, value) => EditEnds(env, s, key, value, k, v);
    case UserSetsPref(key, json) => SetPrefFrame(env.cat, s.client, key, json);
    case Timer => TimerKeeps(s, k);
    case Finished(prefError) => FinishEnds(env, s, prefError, k, v);
    case Deliver => DeliverEnds(env, s, k, v);
    case _ => RemoteKeepsClient(env, s, step);
  }

  // ---------- what is acknowledged was committed ----------

  predicate Commits(env: Env, s: System, step: Step, k: string, v: string) {
    && step.Serve? && s.flight.Sent? && Get(s.flight.values, k) == Some(v)
    && Apply(env, s, step).store == Commit(env, s).store
  }

  /** At step `j` the daemon committed `v` for `k`, and its answer has been on the way since. */
  predicate CommittedAt(env: Env, store: Config, steps: seq<Step>, k: string, v: string, j: nat) {
    && j < |steps|
    && Commits(env, After(env, store, steps[..j]), steps[j], k, v)
    && forall i :: j < i <= |steps| ==> After(env, store, steps[..i]).flight.Answered?
  }

  lemma ServeAnswers(env: Env, s: System, fate: Fate, k: string)
    requires var t := ServeStep(env, s, fate);
      t.flight.Answered? && t.flight.error == None && k in t.flight.values
    ensures var t := ServeStep(env, s, fate);
      Commits(env, s, Serve(fate), k, t.flight.values[k]) || t.flight == s.flight
  {
    if s.flight.Sent? && fate.Normal? && s.flight.expected == s.store.revision && s.store.revision < MAX_REVISION {
      assert ServeStep(env, s, fate) == Answer(Publish(Commit(env, s)), None, true);
    }
  }

  lemma TimerAnswers(s: System, k: string)
    requires var t := TimerStep(s); t.flight.Answered? && k in t.flight.values
    ensures TimerStep(s).flight == s.flight
  {
    if s.client.timers > 0 && !FlushSkipped(TimerUp(s.client)) {
      CallsShape(TimerUp(s.client));
    }
  }

  /** The steps other than these leave the flight alone. */
  lemma OthersKeepFlight(env: Env, s: System, step: Step)
    requires !step.Timer? && !step.Serve? && !step.Finished? && !step.OtherWrite?
    ensures Apply(env, s, step).flight == s.flight
  {
  }

  lemma StepAnswers(env: Env, s: System, step: Step, k: string)
    requires var t := Apply(env, s, step);
      t.flight.Answered? && t.flight.error == None && k in t.flight.values
    ensures var t := Apply(env, s, step);
      || Commits(env, s, step, k, t.flight.values[k])
      || (s.flight.Answered? && s.flight.error == None && s.flight.values == t.flight.values)
  {
    match step
    case Timer => TimerAnswers(s, k);
    case Serve(fate) => ServeAnswers(env, s, fate, k);
    case Finished(prefError) =>
    case OtherWrite(values, bump, publish) =>
    case _ => OthersKeepFlight(env, s, step);
  }

  lemma {:induction false} AcknowledgedWasCommitted(env: Env, store: Config, steps: seq<Step>, k: string)
    returns (j: nat)
    requires var s := After(env, store, steps);
      s.flight.Answered? && s.flight.error == None && k in s.flight.values
    ensures CommittedAt(env, store, steps, k, After(env, store, steps).flight.values[k], j)
  {
    if steps == [] {
      assert false;
    } else {
      var n := |steps| - 1;
      var before := steps[..n];
      var s := After(env, store, before);
      assert steps == before + [steps[n]];
      RunThen(env, Start(store), before, steps[n]);
      StepAnswers(env, s, steps[n], k);
      assert steps[..n + 1] == steps;
      if Commits(env, s, steps[n], k, After(env, store, steps).flight.values[k]) {
        j := n;
      } else {
        j := AcknowledgedWasCommitted(env, store, before, k);
        assert forall i :: 0 <= i <= n ==> before[..i] == steps[..i];
      }
    }
  }

  // ---------- every run ----------

  /** At step `m` the edit ends: superseded by the user's next; committed to the store by an earlier
      step of the daemon, whose answer this is; or dropped with an error. */
  predicate EndsAt(env: Env, store: Config, steps: seq<Step>, k: string, v: string, m: nat) {
    && m < |steps|
    && var s := After(env, store, steps[..m]);
    && Holds(s, k, v)
    && (|| Superseded(env, s, steps[m], k, v)
        || (exists j :: 0 <= j < m && CommittedAt(env, store, steps[..m], k, v, j))
        || Dropped(env, s, steps[m]))
  }

  lemma EndIsAccounted(env: Env, store: Config, steps: seq<Step>, k: string, v: string, m: nat)
    requires m < |steps| && Holds(After(env, store, steps[..m]), k, v)
    requires Ends(env, After(env, store, steps[..m]), steps[m], k, v)
    ensures EndsAt(env, store, steps, k, v, m)
  {
    if Acknowledged(After(env, store, steps[..m]), steps[m], k, v) {
      var j := AcknowledgedWasCommitted(env, store, steps[..m], k);
    }
  }

  /** Over every run, an edit that was to be written after step `n` still is at the end, or ended at
      some step since: superseded, committed to the store, or dropped with an error. None is lost
      silently. */
  lemma {:induction false} EveryEditIsAccounted(env: Env, store: Config, steps: seq<Step>, n: nat, k: string, v: string)
    requires n <= |steps| && Holds(After(env, store, steps[..n]), k, v)
    ensures Holds(After(env, store, steps), k, v) || exists m :: n <= m < |steps| && EndsAt(env, store, steps, k, v, m)
    decreases |steps| - n
  {
    if n == |steps| {
      assert steps[..n] == steps;
    } else {
      var s := After(env, store, steps[..n]);
      StartInv(env, store);
      RunInv(env, Start(store), steps[..n]);
      RunThen(env, Start(store), steps[..n], steps[n]);
      assert steps[..n + 1] == steps[..n] + [steps[n]];
      StepEnds(env, s, steps[n], k, v);
      if Holds(Apply(env, s, steps[n]), k, v) {
        EveryEditIsAccounted(env, store, steps, n + 1, k, v);
      } else {
        EndIsAccounted(env, store, steps, k, v, n);
      }
    }
  }

  // ---------- preferences ----------

  type Edit = (Json, bool)

  /** The edit of the preference is still to be written. */
  predicate PrefHolds(s: System, k: string, e: Edit) {
    s.client.EffectivePref(k) == Some(e)
  }

  /** The step is the user's, and puts another edit in its place: one of the preference itself, or of
      the daemon setting whose spec has its key. */
  predicate PrefSuperseded(env: Env, s: System, step: Step, k: string, e: Edit) {
    var t := Apply(env, s, step).client.EffectivePref(k);
    && t.Some? && t != Some(e)
    && match step
       case UserSetsPref(key, json) => key == k && t.value.0 == json
       case UserSetsDaemon(key, value) =>
         exists spec <- env.cat.specs :: IsDaemonSpecFor(spec, key) && spec.key == k
       case _ => false
  }

  predicate PrefAcknowledged(s: System, step: Step, k: string, e: Edit) {
    && step.Finished? && s.flight.Answered? && FirstError(s.flight, step.prefError) == None
    && Get(s.client.inflightPrefs, k) == Some(e)
  }

  predicate PrefEnds(env: Env, s: System, step: Step, k: string, e: Edit) {
    PrefSuperseded(env, s, step, k, e) || PrefAcknowledged(s, step, k, e) || Dropped(env, s, step)
  }

  lemma EditPrefEffective(
    c: Client, key: string, json: Json, valid: bool, mirror: map<string, string>, synced: bool, k: string)
    ensures var e := EditPref(c, key, json, valid, mirror, synced).EffectivePref(k);
      e == c.EffectivePref(k) || (k == key && e == Some((json, synced)))
  {
  }

  lemma PrefEditEnds(env: Env, s: System, key: string, json: Json, k: string, e: Edit)
    requires PrefHolds(s, k, e)
    ensures var step := UserSetsPref(key, json);
      PrefHolds(Apply(env, s, step), k, e) || PrefSuperseded(env, s, step, k, e)
  {
    var found := FindSpec(env.cat.specs, key);
    EditPrefEffective(s.client, key, json, ValidPref(env.cat, key, json), MirrorOf(env.cat, found, json),
                      found.Some? && found.value.owner != Excluded, k);
  }

  lemma EditDaemonEffective(c: Client, key: string, wire: Option<string>, route: Route, k: string)
    ensures var e := EditDaemon(c, key, wire, route).EffectivePref(k);
      || e == c.EffectivePref(k)
      || (wire.Some? && route.Synced? && route.pref == k && e == Some((route.json, true)))
  {
  }

  lemma DaemonEditEnds(env: Env, s: System, key: string, value: string, k: string, e: Edit)
    requires PrefHolds(s, k, e)
    ensures var step := UserSetsDaemon(key, value);
      PrefHolds(Apply(env, s, step), k, e) || PrefSuperseded(env, s, step, k, e)
  {
    var wire, found := env.cat.normalize(key, value), FindDaemonSpec(env.cat.specs, key);
    var route := if wire.Some? then RouteOf(env.cat, key, wire.value) else Raw;
    EditDaemonEffective(s.client, key, wire, route, k);
    assert SetDaemon(env.cat, s.client, key, value) == EditDaemon(s.client, key, wire, route);
    if found.Some? {
      FoundIsSpec(env.cat.specs, key);
    }
  }

  lemma PrefFinishEnds(env: Env, s: System, prefError: Option<Code>, k: string, e: Edit)
    requires FlightOk(env, s) && PrefHolds(s, k, e)
    ensures PrefHolds(FinishStep(env, s, prefError), k, e) || PrefEnds(env, s, Finished(prefError), k, e)
  {
    if s.flight.Answered? && s.client.flushTasks > 0 {
      var error := FirstError(s.flight, prefError);
      FinishCases(s.client, error);
      if Requeues(s.client, error) {
        RequeueKeepsEffective(s.client, error, k);
      } else if error.Some? {
        FinishError(s.client, error);
      }
    }
  }

  lemma PrefDeliverEnds(env: Env, s: System, k: string, e: Edit)
    requires PrefHolds(s, k, e)
    ensures PrefHolds(DeliverStep(s), k, e) || Dropped(env, s, Deliver)
  {
    if s.inbox != [] {
      match s.inbox[0]
      case Snapshot(config, prefs) =>
      case Changed(config) =>
      case PrefsChanged(prefs) =>
      case Gone =>
    }
  }

  lemma PrefTimerKeeps(s: System, k: string)
    requires PumpOk(s.client)
    ensures TimerStep(s).client.EffectivePref(k) == s.client.EffectivePref(k)
  {
  }

  /** A step leaves a preference edit to be written, or ends it in one of the three ways. */
  lemma PrefStepEnds(env: Env, s: System, step: Step, k: string, e: Edit)
    requires Inv(env, s) && PrefHolds(s, k, e)
    ensures PrefHolds(Apply(env, s, step), k, e) || PrefEnds(env, s, step, k, e)
  {
    match step
    case UserSetsDaemon(key, value) => DaemonEditEnds(env, s, key, value, k, e);
    case UserSetsPref(key, json) => PrefEditEnds(env, s, key, json, k, e);
    case Timer => PrefTimerKeeps(s, k);
    case Finished(prefError) => PrefFinishEnds(env, s, prefError, k, e);
    case Deliver => PrefDeliverEnds(env, s, k, e);
    case _ => RemoteKeepsClient(env, s, step);
  }

  /** The calls ask for the edit to be written, once. */
  predicate Asks(calls: seq<Call>, k: string, e: Edit) {
    && PrefWrites(calls, k) == 1
    && forall i :: 0 <= i < |calls| && calls[i].PrefsPatch? && k in calls[i].prefs ==>
         (calls[i].prefs[k], calls[i].sync) == e
  }

  /** At step `j` a flush went out that asks for the edit to be written, and it has been out since. */
  predicate AskedAt(env: Env, store: Config, steps: seq<Step>, k: string, e: Edit, j: nat) {
    && j < |steps| && steps[j].Timer?
    && var c := After(env, store, steps[..j]).client;
    && c.timers > 0 && Asks(FlushCalls(TimerUp(c)), k, e)
    && forall i :: j < i <= |steps| ==> After(env, store, steps[..i]).client.flushInflight
  }

  lemma TimerAsks(s: System, k: string)
    requires k in TimerStep(s).client.inflightPrefs
    ensures var e := TimerStep(s).client.inflightPrefs[k];
      || (s.client.timers > 0 && Asks(FlushCalls(TimerUp(s.client)), k, e) && TimerStep(s).client.flushInflight)
      || s.client.inflightPrefs == TimerStep(s).client.inflightPrefs
  {
    if s.client.timers > 0 && !FlushSkipped(TimerUp(s.client)) {
      EveryKeyInOneCall(s.client.daemon.revision, s.client.pendingDaemon, s.client.pendingPrefs, k);
    }
  }

  lemma DeliverInflight(s: System)
    ensures var t := DeliverStep(s).client.inflightPrefs; t == s.client.inflightPrefs || t == map[]
  {
    if s.inbox != [] {
      match s.inbox[0]
      case Snapshot(config, prefs) => ReceiveFrame(s.client, config, prefs);
      case Changed(config) => ReceiveFrame(s.client, config, map[]);
      case PrefsChanged(prefs) => ReceiveFrame(s.client, Config(0, map[]), prefs);
      case Gone =>
    }
  }

  lemma FinishInflight(env: Env, s: System, prefError: Option<Code>)
    ensures var t := FinishStep(env, s, prefError).client.inflightPrefs; t == s.client.inflightPrefs || t == map[]
  {
    if s.flight.Answered? && s.client.flushTasks > 0 {
      FinishCases(s.client, FirstError(s.flight, prefError));
    }
  }

  lemma InflightStays(env: Env, s: System, step: Step, k: string)
    requires !step.Timer? && k in Apply(env, s, step).client.inflightPrefs
    ensures s.client.inflightPrefs == Apply(env, s, step).client.inflightPrefs
  {
    match step
    case UserSetsDaemon(key, value) => SetDaemonFrame(env.cat, s.client, key, value);
    case UserSetsPref(key, json) => SetPrefFrame(env.cat, s.client, key, json);
    case Finished(prefError) => FinishInflight(env, s, prefError);
    case Deliver => DeliverInflight(s);
    case _ => RemoteKeepsClient(env, s, step);
  }

  /** What is waiting for its acknowledgement was asked to be written, by the flush that is out. */
  lemma {:induction false} SentPrefWasAsked(env: Env, store: Config, steps: seq<Step>, k: string) returns (j: nat)
    requires k in After(env, store, steps).client.inflightPrefs
    ensures AskedAt(env, store, steps, k, After(env, store, steps).client.inflightPrefs[k], j)
  {
    if steps == [] {
      assert false;
    } else {
      var n := |steps| - 1;
      var before := steps[..n];
      var s, t := After(env, store, before), After(env, store, steps);
      assert steps == before + [steps[n]] && steps[..n + 1] == steps;
      RunThen(env, Start(store), before, steps[n]);
      assert t.client.flushInflight by {
        StartInv(env, store);
        RunInv(env, Start(store), steps);
      }
      if steps[n].Timer? {
        TimerAsks(s, k);
      } else {
        InflightStays(env, s, steps[n], k);
      }
      if s.client.inflightPrefs != t.client.inflightPrefs {
        j := n;
      } else {
        j := SentPrefWasAsked(env, store, before, k);
        assert forall i :: 0 <= i <= n ==> before[..i] == steps[..i];
      }
    }
  }

  /** At step `m` the edit ends: superseded by the user's next; written, as far as the answer to the flush
      that asked for it says; or dropped with an error. */
  predicate PrefEndsAt(env: Env, store: Config, steps: seq<Step>, k: string, e: Edit, m: nat) {
    && m < |steps|
    && var s := After(env, store, steps[..m]);
    && PrefHolds(s, k, e)
    && (|| PrefSuperseded(env, s, steps[m], k, e)
        || (&& PrefAcknowledged(s, steps[m], k, e)
            && exists j :: 0 <= j < m && AskedAt(env, store, steps[..m], k, e, j))
        || Dropped(env, s, steps[m]))
  }

  lemma PrefEndIsAccounted(env: Env, store: Config, steps: seq<Step>, k: string, e: Edit, m: nat)
    requires m < |steps| && PrefHolds(After(env, store, steps[..m]), k, e)
    requires PrefEnds(env, After(env, store, steps[..m]), steps[m], k, e)
    ensures PrefEndsAt(env, store, steps, k, e, m)
  {
    if PrefAcknowledged(After(env, store, steps[..m]), steps[m], k, e) {
      var j := SentPrefWasAsked(env, store, steps[..m], k);
    }
  }

  /** Over every run a preference edit that was to be written after step `n` still is at the end, or ended
      at some step since. */
  lemma {:induction false} EveryPrefEditIsAccounted(
    env: Env, store: Config, steps: seq<Step>, n: nat, k: string, e: Edit)
    requires n <= |steps| && PrefHolds(After(env, store, steps[..n]), k, e)
    ensures PrefHolds(After(env, store, steps), k, e)
         || exists m :: n <= m < |steps| && PrefEndsAt(env, store, steps, k, e, m)
    decreases |steps| - n
  {
    if n == |steps| {
      assert steps[..n] == steps;
    } else {
      var s := After(env, store, steps[..n]);
      StartInv(env, store);
      RunInv(env, Start(store), steps[..n]);
      RunThen(env, Start(store), steps[..n], steps[n]);
      assert steps[..n + 1] == steps[..n] + [steps[n]];
      PrefStepEnds(env, s, steps[n], k, e);
      if PrefHolds(Apply(env, s, steps[n]), k, e) {
        EveryPrefEditIsAccounted(env, store, steps, n + 1, k, e);
      } else {
        PrefEndIsAccounted(env, store, steps, k, e, n);
      }
    }
  }
}
