/** The settings view model: an optimistic write-back cache over the agent's
    revisioned daemon configuration.

    Its state is a value here and each of its transitions a function; the class
    `SettingsStores.SettingsStore` is proved to perform exactly those transitions, and
    what they guarantee over whole runs is proved in `SettingsGuarantees`. */
module SettingsClient {
  import opened Prelude

  const MAX_CONFLICT_RETRIES := 3

  // ---------- wire types ----------

  datatype Owner = Daemon | Agent | Preferences | Excluded
  datatype Spec = Spec(key: string, owner: Owner, storageKey: string)

  /** A JSON value, by its canonical text. */
  datatype Json = Json(text: string)

  /** What the client shares with the server: the sync catalogue and the protocol's
      conversion functions, none of which the store looks into. */
  datatype Catalogue = Catalogue(
    specs: seq<Spec>,
    normalize: (string, string) -> Option<string>,
    validate: (string, Json) -> bool,
    toWire: (Spec, Json) -> Option<string>,
    toJson: (string, string) -> Json)

  datatype Config = Config(revision: nat, values: map<string, string>)

  datatype Code = Unavailable | Conflict | InvalidArgument | OtherCode
  datatype ErrorKind = Disconnected | ConflictError | InvalidArgumentError | Failed

  function FromRpc(code: Code): ErrorKind {
    match code
    case Unavailable => Disconnected
    case Conflict => ConflictError
    case InvalidArgument => InvalidArgumentError
    case OtherCode => Failed
  }

  datatype Call =
    | DaemonPatch(expected: nat, values: map<string, string>)
    | PrefsPatch(prefs: map<string, Json>, sync: bool)

  // ---------- catalogue lookups ----------

  predicate IsDaemonSpecFor(spec: Spec, storageKey: string) {
    spec.owner == Daemon && spec.storageKey == storageKey
  }

  function FindDaemonSpec(specs: seq<Spec>, storageKey: string): Option<Spec> {
    if specs == [] then None
    else if IsDaemonSpecFor(specs[0], storageKey) then Some(specs[0])
    else FindDaemonSpec(specs[1..], storageKey)
  }

  /** Daemon keys that travel through the sync catalogue. */
  predicate Catalogued(specs: seq<Spec>, storageKey: string) { FindDaemonSpec(specs, storageKey).Some? }

  lemma {:induction false} CataloguedIff(specs: seq<Spec>, storageKey: string)
    ensures Catalogued(specs, storageKey) <==>
      exists i :: 0 <= i < |specs| && specs[i].owner == Daemon && specs[i].storageKey == storageKey
  {
    if specs != [] {
      CataloguedIff(specs[1..], storageKey);
      assert forall i :: 1 <= i < |specs| ==> specs[i] == specs[1..][i - 1];
    }
  }

  function FindSpec(specs: seq<Spec>, key: string): (r: Option<Spec>)
    ensures r.Some? ==> r.value in specs && r.value.key == key
  {
    if specs == [] then None
    else if specs[0].key == key then Some(specs[0])
    else FindSpec(specs[1..], key)
  }

  // ---------- the client state ----------

  datatype Client = Client(
    daemon: Config,
    preferences: map<string, Json>,
    stale: bool,
    pendingDaemon: map<string, string>,
    inflightDaemon: map<string, string>,
    pendingPrefs: map<string, (Json, bool)>,
    inflightPrefs: map<string, (Json, bool)>,
    flushScheduled: bool,
    flushInflight: bool,
    conflictRetries: nat,
    lastError: Option<ErrorKind>,
    timers: nat,      // debounce timers spawned and not yet fired
    flushTasks: nat)  // flush tasks spawned and not yet finished
  {
    predicate HasPending() { pendingDaemon != map[] || pendingPrefs != map[] }

    /** The value a daemon key will end up with once the local edits are written:
        the unsent edit if there is one, else the sent one. */
    function EffectiveDaemon(k: string): Option<string> {
      if k in pendingDaemon then Some(pendingDaemon[k]) else Get(inflightDaemon, k)
    }

    function EffectivePref(k: string): Option<(Json, bool)> {
      if k in pendingPrefs then Some(pendingPrefs[k]) else Get(inflightPrefs, k)
    }
  }

  const FreshClient := Client(
    Config(0, map[]), map[], true, map[], map[], map[], map[], false, false, 0, None, 0, 0)

  function Plain(m: map<string, (Json, bool)>): map<string, Json> {
    map k | k in m :: m[k].0
  }

  // ---------- transitions ----------

  function WithError(c: Client, kind: ErrorKind): Client { c.(lastError := Some(kind)) }

  function OverlayEdits(c: Client): Client {
    c.(daemon := c.daemon.(values := c.daemon.values + c.inflightDaemon + c.pendingDaemon),
       preferences := c.preferences + Plain(c.inflightPrefs) + Plain(c.pendingPrefs))
  }

  function ReplaceSnapshot(c: Client, config: Config, prefs: map<string, Json>): Client {
    OverlayEdits(c.(daemon := config, preferences := prefs, stale := false)).(lastError := None)
  }

  function ConfigChanged(c: Client, config: Config): Client { OverlayEdits(c.(daemon := config)) }

  function PreferencesChanged(c: Client, prefs: map<string, Json>): Client {
    OverlayEdits(c.(preferences := prefs))
  }

  function MarkStale(c: Client): Client {
    c.(stale := true, pendingDaemon := map[], inflightDaemon := map[], pendingPrefs := map[],
       inflightPrefs := map[], lastError := Some(Disconnected))
  }

  function ScheduleFlush(c: Client): Client {
    if c.flushScheduled then c else c.(flushScheduled := true, timers := c.timers + 1)
  }

  /** How a daemon edit travels: as a raw daemon patch, or as a preference of the sync catalogue. */
  datatype Route = Raw | Synced(pref: string, json: Json)

  function RouteOf(cat: Catalogue, key: string, wire: string): Route {
    match FindDaemonSpec(cat.specs, key)
    case Some(spec) => Synced(spec.key, cat.toJson(spec.key, wire))
    case None => Raw
  }

  function StoreDaemon(c: Client, key: string, wire: string, route: Route): Client {
    var c1 := c.(daemon := c.daemon.(values := c.daemon.values[key := wire]));
    match route
    case Synced(pref, json) => ScheduleFlush(c1.(pendingPrefs := c1.pendingPrefs[pref := (json, true)]))
    case Raw => ScheduleFlush(c1.(pendingDaemon := c1.pendingDaemon[key := wire]))
  }

  function EditDaemon(c: Client, key: string, normalized: Option<string>, route: Route): Client {
    if c.stale then WithError(c, Disconnected)
    else if normalized.None? then WithError(c, InvalidArgumentError)
    else if Get(c.daemon.values, key) == normalized then c
    else StoreDaemon(c, key, normalized.value, route)
  }

  function SetDaemon(cat: Catalogue, c: Client, key: string, value: string): Client {
    var normalized := cat.normalize(key, value);
    EditDaemon(c, key, normalized, if normalized.Some? then RouteOf(cat, key, normalized.value) else Raw)
  }

  /** The write `set_pref` makes to the daemon's read side, before it looks at the preference. */
  function MirrorOf(cat: Catalogue, found: Option<Spec>, value: Json): map<string, string> {
    if found.None? || found.value.owner != Daemon then map[]
    else match cat.toWire(found.value, value)
      case None => map[]
      case Some(wire) => map[found.value.storageKey := wire]
  }

  function Mirrored(c: Client, mirror: map<string, string>): Client {
    c.(daemon := c.daemon.(values := c.daemon.values + mirror))
  }

  function StorePref(c: Client, key: string, value: Json, synced: bool): Client {
    if Get(c.preferences, key) == Some(value) then c
    else ScheduleFlush(c.(preferences := c.preferences[key := value],
                          pendingPrefs := c.pendingPrefs[key := (value, synced)]))
  }

  function EditPref(
    c: Client, key: string, value: Json, valid: bool, mirror: map<string, string>, synced: bool): Client
  {
    if c.stale then WithError(c, Disconnected)
    else if !valid then WithError(c, InvalidArgumentError)
    else StorePref(Mirrored(c, mirror), key, value, synced)
  }

  predicate ValidPref(cat: Catalogue, key: string, value: Json) {
    var found := FindSpec(cat.specs, key);
    found.Some? ==> cat.validate(found.value.key, value)
  }

  function SetPref(cat: Catalogue, c: Client, key: string, value: Json): Client {
    var found := FindSpec(cat.specs, key);
    EditPref(c, key, value, ValidPref(cat, key, value), MirrorOf(cat, found, value),
             found.Some? && found.value.owner != Excluded)
  }

  /** The preference edits that go to the cloud, or those that do not. */
  function Part(m: map<string, (Json, bool)>, sync: bool): map<string, Json> {
    map k | k in m && m[k].1 == sync :: m[k].0
  }

  function PrefsCall(m: map<string, (Json, bool)>, sync: bool): seq<Call> {
    if Part(m, sync) == map[] then [] else [PrefsPatch(Part(m, sync), sync)]
  }

  function BuildFlushCalls(revision: nat, values: map<string, string>, prefs: map<string, (Json, bool)>): seq<Call> {
    (if values == map[] then [] else [DaemonPatch(revision, values)])
    + PrefsCall(prefs, true) + PrefsCall(prefs, false)
  }

  predicate FlushSkipped(c: Client) { c.flushInflight || c.stale || !c.HasPending() }

  function Flush(c: Client): Client {
    if FlushSkipped(c) then c
    else c.(flushInflight := true, flushTasks := c.flushTasks + 1,
            inflightDaemon := c.pendingDaemon, pendingDaemon := map[],
            inflightPrefs := c.pendingPrefs, pendingPrefs := map[])
  }

  function FlushCalls(c: Client): seq<Call> {
    if FlushSkipped(c) then [] else BuildFlushCalls(c.daemon.revision, c.pendingDaemon, c.pendingPrefs)
  }

  function TimerUp(c: Client): Client
    requires c.timers > 0
  {
    c.(timers := c.timers - 1, flushScheduled := false)
  }

  function TimerFires(c: Client): Client
    requires c.timers > 0
  {
    Flush(TimerUp(c))
  }

  predicate Requeues(c: Client, error: Option<Code>) {
    error == Some(Conflict) && c.conflictRetries < MAX_CONFLICT_RETRIES
  }

  function Settle(c: Client, error: Option<Code>): Client {
    if Requeues(c, error) then
      ScheduleFlush(c.(conflictRetries := c.conflictRetries + 1,
                       pendingDaemon := c.inflightDaemon + c.pendingDaemon, inflightDaemon := map[],
                       pendingPrefs := c.inflightPrefs + c.pendingPrefs, inflightPrefs := map[]))
    else
      c.(conflictRetries := 0, inflightDaemon := map[], inflightPrefs := map[],
         lastError := match error
           case Some(code) => Some(FromRpc(code))
           case None => if c.lastError == Some(InvalidArgumentError) then c.lastError else None)
  }

  /** A flush task has awaited all its calls; `error` is the first error among them. */
  function Finish(c: Client, error: Option<Code>): Client
    requires c.flushTasks > 0
  {
    var d := Settle(c.(flushInflight := false, flushTasks := c.flushTasks - 1), error);
    if d.HasPending() then ScheduleFlush(d) else d
  }

  predicate DrainSkipped(c: Client) { c.stale || !c.HasPending() }

  function Drain(c: Client): Client {
    if DrainSkipped(c) then c else c.(pendingDaemon := map[], pendingPrefs := map[])
  }

  function DrainCalls(c: Client): seq<Call> {
    if DrainSkipped(c) then [] else BuildFlushCalls(c.daemon.revision, c.pendingDaemon, c.pendingPrefs)
  }

  // ---------- what one transition guarantees ----------

  /** A conflict that is re-queued changes no effective value: the unsent edit of a key still
      wins over the sent one, and a key with no local edit gets none. */
  lemma RequeueKeepsEffective(c: Client, error: Option<Code>, k: string)
    requires c.flushTasks > 0 && Requeues(c, error)
    ensures Finish(c, error).EffectiveDaemon(k) == c.EffectiveDaemon(k)
    ensures Finish(c, error).EffectivePref(k) == c.EffectivePref(k)
    ensures Finish(c, error).inflightDaemon == map[] && Finish(c, error).inflightPrefs == map[]
    ensures Finish(c, error).flushScheduled
  {
  }

  /** The number of calls that write daemon key `k`, and preference `k`. */
  function DaemonWrites(calls: seq<Call>, k: string): nat {
    if calls == [] then 0
    else (if calls[0].DaemonPatch? && k in calls[0].values then 1 else 0) + DaemonWrites(calls[1..], k)
  }

  function PrefWrites(calls: seq<Call>, k: string): nat {
    if calls == [] then 0
    else (if calls[0].PrefsPatch? && k in calls[0].prefs then 1 else 0) + PrefWrites(calls[1..], k)
  }

  lemma {:induction false} WritesAppend(a: seq<Call>, b: seq<Call>, k: string)
    ensures DaemonWrites(a + b, k) == DaemonWrites(a, k) + DaemonWrites(b, k)
    ensures PrefWrites(a + b, k) == PrefWrites(a, k) + PrefWrites(b, k)
  {
    if a == [] {
      assert a + b == b;
    } else {
      assert (a + b)[1..] == a[1..] + b;
      WritesAppend(a[1..], b, k);
    }
  }

  /** Every key taken from the pending maps is written by exactly one of at most three calls,
      with the value it had there, no other key is written, and no call is empty. */
  lemma EveryKeyInOneCall(revision: nat, values: map<string, string>, prefs: map<string, (Json, bool)>, k: string)
    ensures var calls := BuildFlushCalls(revision, values, prefs);
      && |calls| <= 3
      && DaemonWrites(calls, k) == (if k in values then 1 else 0)
      && PrefWrites(calls, k) == (if k in prefs then 1 else 0)
      && (forall i :: 0 <= i < |calls| && calls[i].DaemonPatch? ==>
            calls[i].expected == revision && calls[i].values == values != map[])
      && (forall i :: 0 <= i < |calls| && calls[i].PrefsPatch? ==> calls[i].prefs != map[])
      && (forall i :: 0 <= i < |calls| && calls[i].PrefsPatch? && k in calls[i].prefs ==>
            k in prefs && prefs[k] == (calls[i].prefs[k], calls[i].sync))
  {
    var a := if values == map[] then [] else [DaemonPatch(revision, values)];
    var b, d := PrefsCall(prefs, true), PrefsCall(prefs, false);
    PrefsCallWrites(prefs, true, k);
    PrefsCallWrites(prefs, false, k);
    WritesAppend(a, b, k);
    WritesAppend(a + b, d, k);
  }

  lemma PrefsCallWrites(prefs: map<string, (Json, bool)>, sync: bool, k: string)
    ensures var calls := PrefsCall(prefs, sync);
      && |calls| <= 1 && DaemonWrites(calls, k) == 0
      && PrefWrites(calls, k) == (if k in prefs && prefs[k].1 == sync then 1 else 0)
  {
    assert k in Part(prefs, sync) <==> k in prefs && prefs[k].1 == sync;
  }

  /** Quitting leaves no unsent edit behind, and asks for every one of them to be written. */
  lemma EveryEditIsDrained(c: Client, k: string)
    requires !c.stale
    ensures var d := Drain(c);
      d.pendingDaemon == map[] && d.pendingPrefs == map[] && d.inflightDaemon == c.inflightDaemon
      && d.inflightPrefs == c.inflightPrefs
    ensures var calls := DrainCalls(c);
      && DaemonWrites(calls, k) == (if k in c.pendingDaemon then 1 else 0)
      && PrefWrites(calls, k) == (if k in c.pendingPrefs then 1 else 0)
      && (forall i :: 0 <= i < |calls| && calls[i].DaemonPatch? ==>
            calls[i].expected == c.daemon.revision && calls[i].values == c.pendingDaemon)
      && (forall i :: 0 <= i < |calls| && calls[i].PrefsPatch? && k in calls[i].prefs ==>
            k in c.pendingPrefs && c.pendingPrefs[k] == (calls[i].prefs[k], calls[i].sync))
  {
    EveryKeyInOneCall(c.daemon.revision, c.pendingDaemon, c.pendingPrefs, k);
  }

  /** The first spec of the key. */
  predicate FirstSpec(specs: seq<Spec>, key: string, i: nat) {
    i < |specs| && specs[i].key == key && forall j :: 0 <= j < i ==> specs[j].key != key
  }

  /** The key goes to the cloud: its first spec does not exclude it. */
  ghost predicate InCloud(specs: seq<Spec>, key: string) {
    exists i: nat :: FirstSpec(specs, key, i) && specs[i].owner != Excluded
  }

  lemma {:induction false} FindSpecIs(specs: seq<Spec>, key: string)
    ensures match FindSpec(specs, key)
      case None => forall i :: 0 <= i < |specs| ==> specs[i].key != key
      case Some(spec) => exists i: nat :: FirstSpec(specs, key, i) && specs[i] == spec
  {
    if specs == [] {
    } else if specs[0].key == key {
      assert FirstSpec(specs, key, 0);
    } else {
      FindSpecIs(specs[1..], key);
      assert forall j :: 1 <= j < |specs| ==> specs[j] == specs[1..][j - 1];
      var found := FindSpec(specs[1..], key);
      if found.Some? {
        var i: nat :| FirstSpec(specs[1..], key, i) && specs[1..][i] == found.value;
        assert FirstSpec(specs, key, i + 1);
      }
    }
  }

  lemma InCloudIff(specs: seq<Spec>, key: string)
    ensures FindSpec(specs, key).Some? && FindSpec(specs, key).value.owner != Excluded <==> InCloud(specs, key)
  {
    FindSpecIs(specs, key);
  }

  /** A new preference edit is asked to be written once, as given, and to the cloud exactly if the
      catalogue has the key and does not exclude it. */
  lemma PrefEditGoesOut(cat: Catalogue, c: Client, key: string, value: Json)
    requires !c.stale && ValidPref(cat, key, value) && Get(c.preferences, key) != Some(value)
    ensures var calls := DrainCalls(SetPref(cat, c, key, value));
      && PrefWrites(calls, key) == 1
      && forall i :: 0 <= i < |calls| && calls[i].PrefsPatch? && key in calls[i].prefs ==>
           calls[i].prefs[key] == value && (calls[i].sync <==> InCloud(cat.specs, key))
  {
    InCloudIff(cat.specs, key);
    EveryEditIsDrained(SetPref(cat, c, key, value), key);
  }

  /** A new edit of a daemon setting goes out to the daemon under its own key, or, if the catalogue has
      the key, to the cloud under the key of its spec. */
  lemma DaemonEditGoesOut(cat: Catalogue, c: Client, key: string, value: string)
    requires !c.stale && cat.normalize(key, value).Some? && Get(c.daemon.values, key) != cat.normalize(key, value)
    ensures var wire := cat.normalize(key, value).value;
      var d := SetDaemon(cat, c, key, value);
      && Get(d.daemon.values, key) == Some(wire)
      && if Catalogued(cat.specs, key) then
           exists spec <- cat.specs :: IsDaemonSpecFor(spec, key)
             && Get(d.pendingPrefs, spec.key) == Some((cat.toJson(spec.key, wire), true))
             && PrefWrites(DrainCalls(d), spec.key) == 1 && d.pendingDaemon == c.pendingDaemon
         else
           && Get(d.pendingDaemon, key) == Some(wire) && DaemonWrites(DrainCalls(d), key) == 1
           && d.pendingPrefs == c.pendingPrefs
  {
    var d, found := SetDaemon(cat, c, key, value), FindDaemonSpec(cat.specs, key);
    if found.Some? {
      FoundIsSpec(cat.specs, key);
      EveryEditIsDrained(d, found.value.key);
    } else {
      EveryEditIsDrained(d, key);
    }
  }

  lemma {:induction false} FoundIsSpec(specs: seq<Spec>, storageKey: string)
    requires FindDaemonSpec(specs, storageKey).Some?
    ensures var spec := FindDaemonSpec(specs, storageKey).value; spec in specs && IsDaemonSpecFor(spec, storageKey)
  {
    if !IsDaemonSpecFor(specs[0], storageKey) {
      FoundIsSpec(specs[1..], storageKey);
    }
  }

  /** A preference edit the store accepts is what will be written, unless the displayed
      preference already equals it while an older unsent or unacknowledged edit differs: then
      the older edit survives and the accepted one is lost. */
  predicate WillHold(c: Client, key: string, value: Json) {
    match c.EffectivePref(key)
    case Some(edit) => edit.0 == value
    case None => Get(c.preferences, key) == Some(value)
  }

  lemma PrefEditKeptIff(cat: Catalogue, c: Client, key: string, value: Json)
    requires !c.stale && ValidPref(cat, key, value)
    ensures WillHold(SetPref(cat, c, key, value), key, value) <==>
      !(Get(c.preferences, key) == Some(value)
        && c.EffectivePref(key).Some? && c.EffectivePref(key).value.0 != value)
  {
  }

  /** The loss does happen: `set_daemon` on a catalogued key queues the preference without
      touching the displayed one, and setting the preference back is then ignored. */
  lemma PrefEditLost()
    ensures exists cat: Catalogue, c: Client, key: string, storage: string, wire: string, value: Json ::
      && !c.stale && c.EffectivePref(key) == None && ValidPref(cat, key, value)
      && var c1 := SetDaemon(cat, c, storage, wire);
      && !c1.stale && !WillHold(SetPref(cat, c1, key, value), key, value)
  {
    var spec := Spec("bt.enable_dht", Daemon, "bt_enable_dht");
    var cat := Catalogue(
      [spec], (k, v) => Some(v), (k, j) => true, (s: Spec, j: Json) => Some(j.text), (k, v) => Json(v));
    var c := FreshClient.(stale := false, preferences := map["bt.enable_dht" := Json("true")]);
    var c1 := SetDaemon(cat, c, "bt_enable_dht", "false");
    assert FindDaemonSpec(cat.specs, "bt_enable_dht") == Some(spec);
    assert c1.EffectivePref("bt.enable_dht") == Some((Json("false"), true));
    PrefEditKeptIff(cat, c1, "bt.enable_dht", Json("true"));
  }
}
