/** The settings client, the agent's event stream and the daemon's configuration store,
    as one step system.  Every theorem is about `Run`: all runs, in any interleaving of
    local edits, debounce timers, replies, events, other writers and lost sessions. */
module SettingsSystem {
  import opened Prelude
  import opened SettingsClient

  const MAX_REVISION := 0xFFFF_FFFF_FFFF_FFFF

  /** `serverForm` is the form in which the daemon stores a value it was sent. */
  datatype Env = Env(cat: Catalogue, serverForm: (string, string) -> string)

  /** What the client's inbox carries, in order. */
  datatype Message =
    | Snapshot(config: Config, prefs: map<string, Json>)
    | Changed(config: Config)
    | PrefsChanged(prefs: map<string, Json>)
    | Gone

  /** The one outstanding flush.  `stored` says that the daemon committed and published the
      sent values and that no other writer has touched their keys since. */
  datatype Flight =
    | Grounded
    | Sent(expected: nat, values: map<string, string>, prefCalls: bool)
    | Answered(values: map<string, string>, error: Option<Code>, stored: bool, prefCalls: bool)

  /** What becomes of a daemon patch: the daemon's own verdict; a refusal before the commit;
      a failure after the commit, which publishes nothing; a commit whose reply is lost. */
  datatype Fate = Normal | Refused(code: Code) | LiveApplyFails(code: Code) | ReplyLost(code: Code)

  /** What happens next. `bump` and `publish` say whether another writer's change raises the revision
      and is announced; `noticed` whether the client is told of a lost session, for which its event
      channel needs room. */
  datatype Step =
    | UserSetsDaemon(key: string, value: string)
    | UserSetsPref(key: string, json: Json)
    | Timer
    | Serve(fate: Fate)
    | Finished(prefError: Option<Code>)
    | Deliver
    | OtherWrite(values: map<string, string>, bump: bool, publish: bool)
    | OtherPrefs(prefs: map<string, Json>)
    | Disconnect(noticed: bool)
    | Connect(prefs: map<string, Json>)

  /** The last five fields are history: the configuration last received, the keys shown with
      a value it does not have, whether an acknowledgement may have left such a key behind,
      the last value the user gave each key, and the results of the finished flushes. */
  datatype System = System(
    client: Client,
    store: Config,
    published: Config,
    connected: bool,
    inbox: seq<Message>,
    flight: Flight,
    base: Config,
    shadow: set<string>,
    lossy: bool,
    lastEdit: map<string, string>,
    outcomes: seq<Option<Code>>)

  function Start(store: Config): System {
    System(FreshClient, store, store, false, [], Grounded, FreshClient.daemon, {}, false, map[], [])
  }

  // ---------- steps ----------

  function Post(s: System, m: Message): System {
    if s.connected then s.(inbox := s.inbox + [m]) else s
  }

  function Publish(s: System): System { Post(s.(published := s.store), Changed(s.store)) }

  function ServerForm(env: Env, values: map<string, string>): map<string, string> {
    map k | k in values :: env.serverForm(k, values[k])
  }

  predicate Acceptable(s: System) {
    s.flight.Sent? && s.flight.expected == s.store.revision && s.store.revision < MAX_REVISION
  }

  function Commit(env: Env, s: System): System
    requires s.flight.Sent?
  {
    s.(store := Config(s.store.revision + 1, s.store.values + ServerForm(env, s.flight.values)))
  }

  function Answer(s: System, error: Option<Code>, stored: bool): System
    requires s.flight.Sent?
  {
    s.(flight := Answered(s.flight.values, error, stored, s.flight.prefCalls))
  }

  function ServeStep(env: Env, s: System, fate: Fate): System {
    if !s.flight.Sent? then s
    else match fate
      case Normal =>
        if s.flight.expected != s.store.revision then Answer(s, Some(Conflict), false)
        else if s.store.revision >= MAX_REVISION then Answer(s, Some(OtherCode), false)
        else Answer(Publish(Commit(env, s)), None, true)
      case Refused(code) => if code == Conflict then s else Answer(s, Some(code), false)
      case LiveApplyFails(code) =>
        if code == Conflict || !Acceptable(s) then s else Answer(Commit(env, s), Some(code), false)
      case ReplyLost(code) =>
        if code == Conflict || !Acceptable(s) then s else Answer(Publish(Commit(env, s)), Some(code), false)
  }

  function FirstError(flight: Flight, prefError: Option<Code>): Option<Code>
    requires flight.Answered?
  {
    if flight.error.Some? then flight.error else if flight.prefCalls then prefError else None
  }

  /** Keys whose acknowledged or dropped value the last received configuration does not have. */
  function LeftBehind(base: Config, edits: map<string, string>): set<string> {
    set k | k in edits && Get(base.values, k) != Some(edits[k])
  }

  predicate Faithful(env: Env, values: map<string, string>) {
    forall k :: k in values ==> env.serverForm(k, values[k]) == values[k]
  }

  function FinishStep(env: Env, s: System, prefError: Option<Code>): System {
    if !s.flight.Answered? || s.client.flushTasks == 0 then s
    else
      var error := FirstError(s.flight, prefError);
      var s1 := s.(client := Finish(s.client, error), flight := Grounded, outcomes := s.outcomes + [error]);
      if Requeues(s.client, error) then s1
      else
        var clean := error == None && s.flight.stored && Faithful(env, s.flight.values);
        s1.(shadow := s.shadow + LeftBehind(s.base, s.client.inflightDaemon - s.client.pendingDaemon.Keys),
            lossy := s.lossy || (s.client.inflightDaemon != map[] && !clean))
  }

  function Launch(calls: seq<Call>): Flight
    requires calls != []
  {
    if calls[0].DaemonPatch? then Sent(calls[0].expected, calls[0].values, |calls| > 1)
    else Answered(map[], None, true, true)
  }

  function TimerStep(s: System): System {
    if s.client.timers == 0 then s
    else
      var calls := FlushCalls(TimerUp(s.client));
      s.(client := TimerFires(s.client), flight := if calls == [] then s.flight else Launch(calls))
  }

  /** A key with its own channel gets a new last edit when the store takes the value. */
  function EditStep(env: Env, s: System, key: string, value: string): System {
    var normalized := env.cat.normalize(key, value);
    var s1 := s.(client := SetDaemon(env.cat, s.client, key, value));
    if s.client.stale || normalized.None? || Catalogued(env.cat.specs, key) then s1
    else s1.(lastEdit := s.lastEdit[key := normalized.value],
             shadow := if Get(s.client.daemon.values, key) == normalized then s.shadow else s.shadow - {key})
  }

  function ReceiveConfig(s: System, client: Client, config: Config): System {
    s.(client := client, base := config, shadow := {}, lossy := false)
  }

  function DeliverStep(s: System): System {
    if s.inbox == [] then s
    else
      var rest := s.(inbox := s.inbox[1..]);
      match s.inbox[0]
      case Snapshot(config, prefs) => ReceiveConfig(rest, ReplaceSnapshot(s.client, config, prefs), config)
      case Changed(config) => ReceiveConfig(rest, ConfigChanged(s.client, config), config)
      case PrefsChanged(prefs) => rest.(client := PreferencesChanged(s.client, prefs))
      case Gone =>
        rest.(client := MarkStale(s.client),
              shadow := s.shadow + LeftBehind(s.base, s.client.inflightDaemon + s.client.pendingDaemon))
  }

  function Disturb(flight: Flight, keys: set<string>): Flight {
    if flight.Answered? && flight.values.Keys * keys != {} then flight.(stored := false) else flight
  }

  function OtherStep(s: System, values: map<string, string>, bump: bool, publish: bool): System {
    if bump && s.store.revision >= MAX_REVISION then s
    else
      var s1 := s.(store := Config(s.store.revision + (if bump then 1 else 0), s.store.values + values),
                   flight := Disturb(s.flight, values.Keys));
      if publish then Publish(s1) else s1
  }

  /** One step; a step that is not enabled changes nothing. */
  function Apply(env: Env, s: System, step: Step): System {
    match step
    case UserSetsDaemon(key, value) => EditStep(env, s, key, value)
    case UserSetsPref(key, json) => s.(client := SetPref(env.cat, s.client, key, json))
    case Timer => TimerStep(s)
    case Serve(fate) => ServeStep(env, s, fate)
    case Finished(prefError) => FinishStep(env, s, prefError)
    case Deliver => DeliverStep(s)
    case OtherWrite(values, bump, publish) => OtherStep(s, values, bump, publish)
    case OtherPrefs(prefs) => Post(s, PrefsChanged(prefs))
    case Disconnect(noticed) =>
      if s.connected then (if noticed then Post(s, Gone) else s).(connected := false) else s
    case Connect(prefs) =>
      if s.connected then s else Post(s.(connected := true), Snapshot(s.published, prefs))
  }

  function Run(env: Env, s: System, steps: seq<Step>): System
    decreases |steps|
  {
    if steps == [] then s else Run(env, Apply(env, s, steps[0]), steps[1..])
  }

  // ---------- the invariant ----------

  predicate PumpOk(c: Client) {
    && c.timers == (if c.flushScheduled then 1 else 0)
    && c.flushTasks == (if c.flushInflight then 1 else 0)
    && (c.inflightDaemon != map[] || c.inflightPrefs != map[] ==> c.flushInflight)
    && (c.stale ==> !c.HasPending() && c.inflightDaemon == map[] && c.inflightPrefs == map[])
    && (c.HasPending() ==> c.flushScheduled || c.flushInflight)
    && c.conflictRetries <= MAX_CONFLICT_RETRIES
  }

  function LastConfig(base: Config, inbox: seq<Message>): Config
    decreases |inbox|
  {
    if inbox == [] then base
    else LastConfig(if inbox[0].Snapshot? || inbox[0].Changed? then inbox[0].config else base, inbox[1..])
  }

  function StaleAfter(stale: bool, inbox: seq<Message>): bool
    decreases |inbox|
  {
    if inbox == [] then stale
    else StaleAfter(if inbox[0].Snapshot? then false else if inbox[0].Gone? then true else stale, inbox[1..])
  }

  predicate HasConfig(inbox: seq<Message>) {
    exists i :: 0 <= i < |inbox| && (inbox[i].Snapshot? || inbox[i].Changed?)
  }

  /** How many conflicts end the list of flush results. */
  function TrailingConflicts(outcomes: seq<Option<Code>>): nat {
    if outcomes == [] || outcomes[|outcomes| - 1] != Some(Conflict) then 0
    else 1 + TrailingConflicts(outcomes[..|outcomes| - 1])
  }

  /** What the user sees of key `k`: an edit still to be written, which is the last one made; or
      the value last received, unless the key was left behind. */
  predicate View(cat: Catalogue, c: Client, base: Config, shadow: set<string>, last: Option<string>, k: string) {
    match c.EffectiveDaemon(k)
    case Some(v) =>
      !Catalogued(cat.specs, k) && k !in shadow && Get(c.daemon.values, k) == Some(v) && last == Some(v)
    case None =>
      !Catalogued(cat.specs, k) ==> (k in shadow <==> Get(c.daemon.values, k) != Get(base.values, k))
  }

  predicate Shown(env: Env, s: System, k: string) {
    View(env.cat, s.client, s.base, s.shadow, Get(s.lastEdit, k), k)
  }

  ghost predicate ViewOk(env: Env, s: System) {
    && s.client.daemon.revision == s.base.revision
    && forall k :: Shown(env, s, k)
  }

  predicate FlightOk(env: Env, s: System) {
    && (s.flight != Grounded <==> s.client.flushInflight)
    && (!s.flight.Grounded? ==>
          s.client.inflightDaemon == map[] || s.client.inflightDaemon == s.flight.values)
    && (s.flight.Answered? && s.flight.stored ==>
          forall k :: k in s.flight.values ==>
            Get(s.published.values, k) == Get(s.store.values, k) == Some(env.serverForm(k, s.flight.values[k])))
  }

  predicate StreamOk(s: System) {
    && (s.connected ==> LastConfig(s.base, s.inbox) == s.published && !StaleAfter(s.client.stale, s.inbox))
    && (s.shadow != {} ==> s.lossy || !s.connected || HasConfig(s.inbox))
  }

  /** No configuration on its way to the client is newer than the store. */
  predicate RevisionsOk(s: System) {
    && s.base.revision <= s.store.revision && s.published.revision <= s.store.revision
    && (s.flight.Sent? ==> s.flight.expected <= s.store.revision)
    && forall i :: 0 <= i < |s.inbox| && (s.inbox[i].Snapshot? || s.inbox[i].Changed?) ==>
         s.inbox[i].config.revision <= s.store.revision
  }

  ghost predicate Inv(env: Env, s: System) {
    && PumpOk(s.client)
    && RevisionsOk(s)
    && s.client.conflictRetries == TrailingConflicts(s.outcomes) % (MAX_CONFLICT_RETRIES + 1)
    && ViewOk(env, s)
    && FlightOk(env, s)
    && StreamOk(s)
  }
}
