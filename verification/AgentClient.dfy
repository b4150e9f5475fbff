/** The App's JSON-RPC client of the agent: calls queued for whatever session comes next, requests
    numbered per session, replies matched by number, and everything pending failed with the session. */
module AgentClient {
  import opened Prelude

  /** The first number a command gets; 1 and 2 belong to the handshake. */
  const FIRST_ID := 10
  const MAX_ID := 0x7fff_ffff_ffff_ffff

  datatype Answer = Value(v: int) | Refused(e: int) | Internal | Unavailable
  datatype Phase = Disconnected | Connected | Stopped

  /** Calls are numbered in the order they are made. `done` counts how often each was answered,
      `accepted` lists those put in the queue, `taken` those that reached a session, and `wire` what
      the current session has sent. */
  datatype Client = Client(
    phase: Phase,
    queue: seq<nat>,
    pending: map<int, nat>,
    nextId: int,
    calls: nat,
    done: multiset<nat>,
    answers: map<nat, Answer>,
    accepted: seq<nat>,
    taken: seq<nat>,
    wire: map<int, nat>)

  const FreshClient := Client(Disconnected, [], map[], FIRST_ID, 0, multiset{}, map[], [], [], map[])

  /** How the request for a command fares: it cannot be encoded, cannot be written, or is sent. */
  datatype Writing = Unencodable | Unwritable | Sent

  /** `encodes` says whether a call's parameters can be encoded, `room` whether the App's event channel
      takes what the session has for it. `Closed` is the end of the stream, and also any frame that is
      not text, a ping included: the session ends. It also ends when it finds that every handle of the
      client is gone, `Abandoned`, which it does once the queue is empty. */
  datatype Event =
    | Call(encodes: bool)
    | Connects(room: bool)
    | ConnectFails(fatal: bool)
    | Takes(writing: Writing)
    | Succeeds(id: Option<int>, v: int)
    | Fails(id: Option<int>, data: Option<int>)
    | Notified(room: bool)
    | Malformed
    | Closed
    | Abandoned

  // ---------- steps ----------

  function Settle(c: Client, call: nat, a: Answer): Client {
    c.(done := c.done + multiset{call}, answers := c.answers[call := a])
  }

  function Drop(c: Client, calls: set<nat>): Client {
    c.(done := c.done + multiset(calls), answers := c.answers + (map k | k in calls :: Unavailable))
  }

  /** The calls waiting for a reply. */
  function Calls(pending: map<int, nat>): set<nat> {
    set id | id in pending :: pending[id]
  }

  /** The session ends: what it was waiting for is unavailable. */
  function EndSession(c: Client): Client {
    Drop(c, Calls(c.pending)).(phase := Disconnected, pending := map[], wire := map[])
  }

  function QueueSet(queue: seq<nat>): set<nat> {
    set k | k in queue
  }

  /** The client task returns: the queue is closed and what waited in it is unavailable. */
  function Stop(c: Client): Client {
    Drop(c, QueueSet(c.queue)).(phase := Stopped, queue := [])
  }

  function NewCall(c: Client, encodes: bool): Client {
    var next := c.(calls := c.calls + 1);
    if !encodes then Settle(next, c.calls, Internal)
    else if c.phase.Stopped? then Settle(next, c.calls, Unavailable)
    else next.(queue := c.queue + [c.calls], accepted := c.accepted + [c.calls])
  }

  function Connect(c: Client, room: bool): Client {
    if room then c.(phase := Connected, nextId := FIRST_ID, pending := map[], wire := map[]) else Stop(c)
  }

  /** The number is registered before the write; a number in use displaces the call that had it. */
  function Register(c: Client, call: nat): Client {
    var freed := if c.nextId in c.pending then Settle(c, c.pending[c.nextId], Unavailable) else c;
    freed.(pending := c.pending[c.nextId := call], wire := c.wire[c.nextId := call],
           nextId := if c.nextId < MAX_ID then c.nextId + 1 else c.nextId)
  }

  /** The head of the queue, taken: for a moment neither queued nor pending. */
  function Headless(c: Client): Client
    requires c.queue != []
  {
    c.(queue := c.queue[1..], taken := c.taken + [c.queue[0]])
  }

  function Take(c: Client, w: Writing): Client
    requires c.queue != []
  {
    var call, rest := c.queue[0], Headless(c);
    match w
    case Unencodable => EndSession(Settle(rest, call, Unavailable))
    case Unwritable => EndSession(Register(rest, call))
    case Sent => Register(rest, call)
  }

  function Reply(c: Client, id: Option<int>, a: Answer): Client {
    if id.Some? && id.value in c.pending then
      Settle(c, c.pending[id.value], a).(pending := c.pending - {id.value})
    else c
  }

  /** An event that cannot happen in the current phase leaves the client as it is. */
  function Step(c: Client, e: Event): Client {
    match e
    case Call(encodes) => NewCall(c, encodes)
    case Connects(room) => if c.phase.Disconnected? then Connect(c, room) else c
    case ConnectFails(fatal) => if c.phase.Disconnected? && fatal then Stop(c) else c
    case _ =>
      if !c.phase.Connected? then c
      else
        match e
        case Takes(w) => if c.queue == [] then c else Take(c, w)
        case Succeeds(id, v) => Reply(c, id, Value(v))
        case Fails(id, data) => Reply(c, id, if data.Some? then Refused(data.value) else Internal)
        case Notified(room) => if room then c else EndSession(c)
        case Abandoned => if c.queue == [] then EndSession(c) else c
        case _ => EndSession(c)
  }

  function Run(c: Client, events: seq<Event>): Client
    decreases |events|
  {
    if events == [] then c else Run(Step(c, events[0]), events[1..])
  }

  lemma {:induction false} RunAppend(c: Client, events: seq<Event>, e: Event)
    ensures Run(c, events + [e]) == Step(Run(c, events), e)
    decreases |events|
  {
    if events == [] {
      assert [e][1..] == [];
    } else {
      assert (events + [e])[1..] == events[1..] + [e];
      RunAppend(Step(c, events[0]), events[1..], e);
    }
  }

  // ---------- every run ----------

  function Open(c: Client): set<nat> {
    QueueSet(c.queue) + Calls(c.pending)
  }

  predicate DistinctCalls(c: Client) {
    && (forall i, j :: 0 <= i < j < |c.queue| ==> c.queue[i] != c.queue[j])
    && (forall a, b :: a in c.pending && b in c.pending && a != b ==> c.pending[a] != c.pending[b])
    && QueueSet(c.queue) !! Calls(c.pending)
  }

  /** Every call made is either open or answered once. */
  ghost predicate Tally(open: set<nat>, calls: nat, done: multiset<nat>, answers: map<nat, Answer>) {
    && (forall k <- open :: k < calls)
    && (forall k: nat :: done[k] == if k < calls && k !in open then 1 else 0)
    && (forall k: nat :: k in answers <==> done[k] == 1)
  }

  ghost predicate Once(c: Client) {
    DistinctCalls(c) && Tally(Open(c), c.calls, c.done, c.answers)
  }

  predicate Numbered(c: Client) {
    && FIRST_ID <= c.nextId <= MAX_ID
    && (forall id <- c.wire :: FIRST_ID <= id <= c.nextId && (c.nextId < MAX_ID ==> id < c.nextId))
    && (forall id <- c.pending :: id in c.wire && c.wire[id] == c.pending[id])
    && (!c.phase.Connected? ==> c.pending == map[] && c.wire == map[])
    && (c.phase.Stopped? ==> c.queue == [])
  }

  predicate InOrder(c: Client) {
    && c.taken <= c.accepted
    && (!c.phase.Stopped? ==> c.accepted == c.taken + c.queue)
    && (forall i, j :: 0 <= i < j < |c.accepted| ==> c.accepted[i] < c.accepted[j])
    && (forall k <- c.accepted :: k < c.calls)
  }

  ghost predicate Inv(c: Client) {
    Once(c) && Numbered(c) && InOrder(c)
  }

  lemma CallAt(p: map<int, nat>, id: int)
    requires id in p
    ensures p[id] in Calls(p)
  {
  }

  lemma CallsWithout(p: map<int, nat>, id: int)
    requires id in p && forall a, b :: a in p && b in p && a != b ==> p[a] != p[b]
    ensures Calls(p - {id}) == Calls(p) - {p[id]}
  {
    var q := p - {id};
    forall a | a in p && a != id ensures p[a] in Calls(q) {
      CallAt(q, a);
    }
  }

  lemma CallsWith(p: map<int, nat>, id: int, call: nat)
    requires id !in p
    ensures Calls(p[id := call]) == Calls(p) + {call}
  {
    var q := p[id := call];
    CallAt(q, id);
    forall a | a in p ensures p[a] in Calls(q) {
      assert q[a] == p[a];
      CallAt(q, a);
    }
  }

  lemma TallyDrop(open: set<nat>, calls: nat, done: multiset<nat>, answers: map<nat, Answer>, dropped: set<nat>)
    requires Tally(open, calls, done, answers) && dropped <= open
    ensures Tally(open - dropped, calls, done + multiset(dropped), answers + (map k | k in dropped :: Unavailable))
  {
  }

  lemma TallySettle(open: set<nat>, calls: nat, done: multiset<nat>, answers: map<nat, Answer>, call: nat, a: Answer)
    requires Tally(open, calls, done, answers) && call in open
    ensures Tally(open - {call}, calls, done + multiset{call}, answers[call := a])
  {
  }

  lemma EndSessionKeeps(c: Client)
    requires Once(c)
    ensures Once(EndSession(c))
  {
    TallyDrop(Open(c), c.calls, c.done, c.answers, Calls(c.pending));
    assert Open(EndSession(c)) == Open(c) - Calls(c.pending);
  }

  lemma StopKeeps(c: Client)
    requires Once(c) && c.pending == map[]
    ensures Once(Stop(c))
  {
  }

  lemma TallyRefuse(open: set<nat>, calls: nat, done: multiset<nat>, answers: map<nat, Answer>, a: Answer)
    requires Tally(open, calls, done, answers)
    ensures Tally(open, calls + 1, done + multiset{calls}, answers[calls := a])
  {
    assert calls !in open;
  }

  lemma Enqueue(queue: seq<nat>, call: nat)
    ensures QueueSet(queue + [call]) == QueueSet(queue) + {call}
  {
    var longer := queue + [call];
    assert longer[|queue|] == call;
    assert forall i :: 0 <= i < |queue| ==> longer[i] == queue[i];
  }

  lemma NewCallKeeps(c: Client, encodes: bool)
    requires Once(c)
    ensures Once(NewCall(c, encodes))
  {
    if encodes && !c.phase.Stopped? {
      assert c.calls !in Open(c);
      Enqueue(c.queue, c.calls);
      assert Open(NewCall(c, true)) == Open(c) + {c.calls};
    } else {
      TallyRefuse(Open(c), c.calls, c.done, c.answers, if encodes then Unavailable else Internal);
      assert Open(NewCall(c, encodes)) == Open(c);
    }
  }

  lemma HeadlessOpen(c: Client)
    requires DistinctCalls(c) && c.queue != []
    ensures DistinctCalls(Headless(c)) && c.queue[0] !in Open(Headless(c))
    ensures Open(c) == Open(Headless(c)) + {c.queue[0]}
  {
  }

  lemma RegisterKeeps(c: Client, call: nat)
    requires DistinctCalls(c) && call !in Open(c)
    requires Tally(Open(c) + {call}, c.calls, c.done, c.answers)
    ensures Once(Register(c, call))
  {
    var r := Register(c, call);
    if c.nextId in c.pending {
      var holder := c.pending[c.nextId];
      CallAt(c.pending, c.nextId);
      CallsWithout(c.pending, c.nextId);
      CallsWith(c.pending - {c.nextId}, c.nextId, call);
      assert r.pending == (c.pending - {c.nextId})[c.nextId := call];
      TallySettle(Open(c) + {call}, c.calls, c.done, c.answers, holder, Unavailable);
      assert Open(r) == Open(c) + {call} - {holder};
    } else {
      CallsWith(c.pending, c.nextId, call);
      assert Open(r) == Open(c) + {call};
    }
    forall a | a in c.pending ensures c.pending[a] != call {
      CallAt(c.pending, a);
    }
  }

  lemma ReplyKeeps(c: Client, id: Option<int>, a: Answer)
    requires Once(c)
    ensures Once(Reply(c, id, a))
  {
    if id.Some? && id.value in c.pending {
      CallAt(c.pending, id.value);
      CallsWithout(c.pending, id.value);
      TallySettle(Open(c), c.calls, c.done, c.answers, c.pending[id.value], a);
      assert Open(Reply(c, id, a)) == Open(c) - {c.pending[id.value]};
    }
  }

  lemma TakeKeeps(c: Client, w: Writing)
    requires Once(c) && c.queue != []
    ensures Once(Take(c, w))
  {
    var call, rest := c.queue[0], Headless(c);
    HeadlessOpen(c);
    match w
    case Unencodable =>
      TallySettle(Open(c), c.calls, c.done, c.answers, call, Unavailable);
      assert Open(rest) == Open(c) - {call};
      EndSessionKeeps(Settle(rest, call, Unavailable));
    case Unwritable =>
      RegisterKeeps(rest, call);
      EndSessionKeeps(Register(rest, call));
    case Sent => RegisterKeeps(rest, call);
  }

  lemma StepOnce(c: Client, e: Event)
    requires Once(c) && Numbered(c)
    ensures Once(Step(c, e))
  {
    match e
    case Call(encodes) => NewCallKeeps(c, encodes);
    case Connects(room) =>
      if !room && c.phase.Disconnected? {
        StopKeeps(c);
      }
    case ConnectFails(fatal) =>
      if c.phase.Disconnected? {
        StopKeeps(c);
      }
    case Takes(w) =>
      if c.queue != [] {
        TakeKeeps(c, w);
      }
    case Succeeds(id, v) => ReplyKeeps(c, id, Value(v));
    case Fails(id, data) => ReplyKeeps(c, id, if data.Some? then Refused(data.value) else Internal);
    case Notified(_) => EndSessionKeeps(c);
    case Malformed => EndSessionKeeps(c);
    case Closed => EndSessionKeeps(c);
    case Abandoned => EndSessionKeeps(c);
  }

  lemma StepNumbered(c: Client, e: Event)
    requires Numbered(c)
    ensures Numbered(Step(c, e))
  {
  }

  lemma NewCallInOrder(c: Client, encodes: bool)
    requires InOrder(c)
    ensures InOrder(NewCall(c, encodes))
  {
    if encodes && !c.phase.Stopped? {
      var accepted := c.accepted + [c.calls];
      assert accepted == c.taken + (c.queue + [c.calls]);
      assert forall i :: 0 <= i < |c.accepted| ==> c.accepted[i] in c.accepted;
    }
  }

  lemma TakeInOrder(c: Client, w: Writing)
    requires InOrder(c) && c.phase.Connected? && c.queue != []
    ensures InOrder(Take(c, w))
  {
    var taken := c.taken + [c.queue[0]];
    assert c.accepted == taken + c.queue[1..];
  }

  lemma StepInOrder(c: Client, e: Event)
    requires InOrder(c)
    ensures InOrder(Step(c, e))
  {
    match e
    case Call(encodes) => NewCallInOrder(c, encodes);
    case Takes(w) =>
      if c.phase.Connected? && c.queue != [] {
        TakeInOrder(c, w);
      }
    case _ =>
  }

  lemma {:induction false} RunInv(c: Client, events: seq<Event>)
    requires Inv(c)
    ensures Inv(Run(c, events))
    decreases |events|
  {
    if events != [] {
      StepOnce(c, events[0]);
      StepNumbered(c, events[0]);
      StepInOrder(c, events[0]);
      RunInv(Step(c, events[0]), events[1..]);
    }
  }

  lemma FreshInv()
    ensures Inv(FreshClient)
  {
  }

  /** Over every run each call is answered at most once; it has no answer exactly while it waits in
      the queue or for a reply; and once the client has stopped every call has its answer. */
  lemma EveryCallAnsweredOnce(events: seq<Event>, call: nat)
    requires call < Run(FreshClient, events).calls
    ensures var c := Run(FreshClient, events);
      && c.done[call] <= 1
      && (call in c.answers <==> c.done[call] == 1)
      && (c.done[call] == 0 <==> call in c.queue || call in Calls(c.pending))
      && !(call in c.queue && call in Calls(c.pending))
      && (c.phase.Stopped? ==> call in c.answers)
      && (c.phase.Disconnected? ==> call in c.answers || call in c.queue)
  {
    FreshInv();
    RunInv(FreshClient, events);
    var c := Run(FreshClient, events);
    assert c.done[call] == if call < c.calls && call !in Open(c) then 1 else 0;
  }

  /** A reply reaches the last call whose request carried its number on this very session, unless that
      call already has its answer; every other reply, one to the handshake included, changes nothing. */
  lemma ReplyReachesItsOwnCall(events: seq<Event>, id: int, v: int)
    ensures var c := Run(FreshClient, events);
      var next := Step(c, Succeeds(Some(id), v));
      if c.phase.Connected? && id in c.wire && c.wire[id] !in c.answers
      then next.answers == c.answers[c.wire[id] := Value(v)] && next.done == c.done + multiset{c.wire[id]}
      else next == c
    ensures id < FIRST_ID ==> Step(Run(FreshClient, events), Succeeds(Some(id), v)) == Run(FreshClient, events)
  {
    FreshInv();
    RunInv(FreshClient, events);
    SentIsPendingOrAnswered(events);
    var c := Run(FreshClient, events);
    if id in c.pending {
      CallAt(c.pending, id);
    }
  }

  /** So does an error reply: the call gets the error, or "internal" for a reply without one, once, and
      its number is free again; any other error reply changes nothing. */
  lemma FailureReachesItsOwnCall(events: seq<Event>, id: int, data: Option<int>)
    ensures var c := Run(FreshClient, events);
      var next := Step(c, Fails(Some(id), data));
      if c.phase.Connected? && id in c.wire && c.wire[id] !in c.answers
      then && next.answers == c.answers[c.wire[id] := if data.Some? then Refused(data.value) else Internal]
           && next.done == c.done + multiset{c.wire[id]} && next.pending == c.pending - {id}
           && next.phase.Connected?
      else next == c
    ensures Step(Run(FreshClient, events), Fails(None, data)) == Run(FreshClient, events)
  {
    FreshInv();
    RunInv(FreshClient, events);
    SentIsPendingOrAnswered(events);
    var c := Run(FreshClient, events);
    if id in c.pending {
      CallAt(c.pending, id);
    }
  }

  /** A call whose parameters cannot be encoded is refused; one made after the client has stopped is
      unavailable; any other joins the queue at its end. */
  lemma CallIsQueued(events: seq<Event>, encodes: bool)
    ensures var c := Run(FreshClient, events);
      var next := Step(c, Call(encodes));
      && next.calls == c.calls + 1 && c.calls !in c.answers
      && if encodes && !c.phase.Stopped? then next.queue == c.queue + [c.calls] && next.answers == c.answers
         else next.queue == c.queue && next.answers == c.answers[c.calls := if encodes then Unavailable else Internal]
  {
    FreshInv();
    RunInv(FreshClient, events);
    var c := Run(FreshClient, events);
    assert c.calls !in Open(c);
  }

  /** A command that is sent gets the next number, 10 for the first of a session, and waits under it. */
  lemma SentUnderNextNumber(events: seq<Event>)
    ensures var c := Run(FreshClient, events);
      c.phase.Connected? && c.queue != [] ==>
        var next := Step(c, Takes(Sent));
        && next.phase.Connected? && next.taken == c.taken + [c.queue[0]]
        && Get(next.wire, c.nextId) == Get(next.pending, c.nextId) == Some(c.queue[0])
        && next.nextId == (if c.nextId < 0x7fff_ffff_ffff_ffff then c.nextId + 1 else c.nextId)
    ensures var c := Run(FreshClient, events);
      c.phase.Disconnected? ==>
        var next := Step(c, Connects(true));
        next.phase.Connected? && next.nextId == 10 && next.pending == next.wire == map[] && next.queue == c.queue
  {
  }

  /** What ends a session: the stream, a message that is no reply, an event that the App has no room for, a
      command that cannot be encoded or written, and nobody being left to call. */
  predicate EndsIt(c: Client, e: Event) {
    || e.Closed? || e.Malformed? || e == Notified(false)
    || (c.queue != [] && (e == Takes(Unencodable) || e == Takes(Unwritable)))
    || (c.queue == [] && e.Abandoned?)
  }

  lemma DroppedAreUnavailable(c: Client, calls: set<nat>)
    ensures forall k <- calls :: Get(Drop(c, calls).answers, k) == Some(Unavailable)
  {
  }

  lemma EncodeEnds(c: Client)
    requires c.queue != []
    ensures var next := Take(c, Unencodable);
      && next.phase.Disconnected? && next.pending == map[] && Get(next.answers, c.queue[0]) == Some(Unavailable)
      && forall k <- Calls(c.pending) :: Get(next.answers, k) == Some(Unavailable)
  {
    DroppedAreUnavailable(Settle(Headless(c), c.queue[0], Unavailable), Calls(c.pending));
  }

  /** The calls waiting before a registration wait after it, or were displaced by it. */
  lemma RegisterHolds(c: Client, call: nat, k: nat)
    requires k in Calls(c.pending)
    ensures k in Calls(Register(c, call).pending) || Get(Register(c, call).answers, k) == Some(Unavailable)
    ensures call in Calls(Register(c, call).pending)
  {
    var r := Register(c, call);
    CallAt(r.pending, c.nextId);
    var id :| id in c.pending && c.pending[id] == k;
    if id != c.nextId {
      CallAt(r.pending, id);
    }
  }

  lemma WriteEnds(c: Client)
    requires c.queue != []
    ensures var next := Take(c, Unwritable);
      && next.phase.Disconnected? && next.pending == map[] && Get(next.answers, c.queue[0]) == Some(Unavailable)
      && forall k <- Calls(c.pending) :: Get(next.answers, k) == Some(Unavailable)
  {
    var call, rest := c.queue[0], Headless(c);
    var r := Register(rest, call);
    DroppedAreUnavailable(r, Calls(r.pending));
    CallAt(r.pending, c.nextId);
    forall k | k in Calls(c.pending) ensures Get(Take(c, Unwritable).answers, k) == Some(Unavailable) {
      RegisterHolds(rest, call, k);
    }
  }

  lemma SessionEnds(c: Client, e: Event)
    requires c.phase.Connected? && EndsIt(c, e)
    ensures var next := Step(c, e);
      && next.phase.Disconnected? && next.pending == map[]
      && (forall k <- Calls(c.pending) :: Get(next.answers, k) == Some(Unavailable))
      && (e.Takes? ==> Get(next.answers, c.queue[0]) == Some(Unavailable))
  {
    if e == Takes(Unencodable) {
      EncodeEnds(c);
    } else if e == Takes(Unwritable) {
      WriteEnds(c);
    } else {
      assert Step(c, e) == EndSession(c);
      DroppedAreUnavailable(c, Calls(c.pending));
    }
  }

  lemma SessionGoesOn(c: Client, e: Event)
    requires c.phase.Connected? && !EndsIt(c, e)
    ensures Step(c, e).phase.Connected?
  {
  }

  /** Over every run a session ends exactly so; and then every call that waited for a reply, and the one
      that could not be sent, is unavailable. */
  lemma SessionEndsIff(events: seq<Event>, e: Event)
    requires Run(FreshClient, events).phase.Connected?
    ensures var c := Run(FreshClient, events);
      var next := Step(c, e);
      && next.phase == (if EndsIt(c, e) then Disconnected else Connected)
      && (EndsIt(c, e) ==>
            && next.pending == map[]
            && (forall k <- Calls(c.pending) :: Get(next.answers, k) == Some(Unavailable))
            && (e.Takes? ==> Get(next.answers, c.queue[0]) == Some(Unavailable)))
  {
    var c := Run(FreshClient, events);
    if EndsIt(c, e) {
      SessionEnds(c, e);
    } else {
      SessionGoesOn(c, e);
    }
  }

  /** Between sessions the client stops exactly when the connection fails for good or the App's event
      channel has no room for the snapshot; then every call in the queue is unavailable. */
  lemma StopsIff(events: seq<Event>, e: Event)
    requires Run(FreshClient, events).phase.Disconnected?
    ensures var c := Run(FreshClient, events);
      var next := Step(c, e);
      && (next.phase.Stopped? <==> e == Connects(false) || e == ConnectFails(true))
      && (next.phase.Connected? <==> e == Connects(true))
      && (next.phase.Stopped? ==>
            next.queue == [] && forall k <- c.queue :: Get(next.answers, k) == Some(Unavailable))
  {
    var c := Run(FreshClient, events);
    DroppedAreUnavailable(c, QueueSet(c.queue));
    assert forall k <- c.queue :: k in QueueSet(c.queue);
  }

  /** What a session last sent under a number is still pending or has been answered. */
  predicate Accounted(c: Client) {
    forall id <- c.wire :: (id in c.pending && c.pending[id] == c.wire[id]) || c.wire[id] in c.answers
  }

  lemma StepAccounted(c: Client, e: Event)
    requires Numbered(c) && Accounted(c)
    ensures Accounted(Step(c, e))
  {
  }

  lemma {:induction false} RunAccounted(c: Client, events: seq<Event>)
    requires Numbered(c) && Accounted(c)
    ensures Accounted(Run(c, events))
    decreases |events|
  {
    if events != [] {
      StepNumbered(c, events[0]);
      StepAccounted(c, events[0]);
      RunAccounted(Step(c, events[0]), events[1..]);
    }
  }

  lemma SentIsPendingOrAnswered(events: seq<Event>)
    ensures Accounted(Run(FreshClient, events))
  {
    RunAccounted(FreshClient, events);
  }

  /** An answer other than "unavailable" was given: a value came in a reply of success, an error in one
      of failure, or the call's parameters could not be encoded. */
  predicate Given(a: Answer, events: seq<Event>) {
    match a
    case Value(v) => exists i :: 0 <= i < |events| && events[i].Succeeds? && events[i].v == v
    case Refused(e) => exists i :: 0 <= i < |events| && events[i].Fails? && events[i].data == Some(e)
    case Internal =>
      exists i :: 0 <= i < |events| && (events[i] == Call(false) || (events[i].Fails? && events[i].data == None))
    case Unavailable => true
  }

  lemma GivenLater(a: Answer, events: seq<Event>)
    requires events != [] && Given(a, events[1..])
    ensures Given(a, events)
  {
    assert forall i :: 0 <= i < |events| - 1 ==> events[1..][i] == events[i + 1];
  }

  /** From `c` to `d`, answers stay, and new ones are `a` or "unavailable". */
  predicate Answers(c: Client, d: Client, a: Answer) {
    && (forall k <- c.answers :: k in d.answers && d.answers[k] == c.answers[k])
    && (forall k <- d.answers :: k in c.answers || d.answers[k] == a || d.answers[k] == Unavailable)
  }

  lemma DropAnswers(c: Client, calls: set<nat>)
    requires Once(c) && calls <= Open(c)
    ensures Answers(c, Drop(c, calls), Unavailable)
  {
  }

  lemma TakeAnswers(c: Client, w: Writing)
    requires Once(c) && c.queue != []
    ensures Answers(c, Take(c, w), Unavailable)
  {
    var call, rest := c.queue[0], Headless(c);
    HeadlessOpen(c);
    match w
    case Unencodable =>
      var t := Settle(rest, call, Unavailable);
      TallySettle(Open(c), c.calls, c.done, c.answers, call, Unavailable);
      assert Open(rest) == Open(c) - {call};
      DropAnswers(t, Calls(t.pending));
    case Unwritable =>
      RegisterAnswers(rest, call, Open(c));
      RegisterKeeps(rest, call);
      DropAnswers(Register(rest, call), Calls(Register(rest, call).pending));
    case Sent =>
      RegisterAnswers(rest, call, Open(c));
  }

  lemma RegisterAnswers(c: Client, call: nat, open: set<nat>)
    requires Tally(open, c.calls, c.done, c.answers) && Calls(c.pending) <= open
    ensures Answers(c, Register(c, call), Unavailable)
  {
    if c.nextId in c.pending {
      CallAt(c.pending, c.nextId);
    }
  }

  lemma ReplyAnswers(c: Client, id: Option<int>, a: Answer)
    requires Once(c)
    ensures Answers(c, Reply(c, id, a), a)
  {
    if id.Some? && id.value in c.pending {
      CallAt(c.pending, id.value);
    }
  }

  /** What an event can answer besides "unavailable". */
  function AnswerOf(e: Event): Answer {
    match e
    case Succeeds(_, v) => Value(v)
    case Fails(_, data) => if data.Some? then Refused(data.value) else Internal
    case Call(false) => Internal
    case _ => Unavailable
  }

  lemma StepAnswers(c: Client, e: Event)
    requires Once(c) && Numbered(c)
    ensures Answers(c, Step(c, e), AnswerOf(e))
  {
    match e
    case Call(_) => assert c.calls !in c.answers;
    case Connects(_) => DropAnswers(c, QueueSet(c.queue));
    case ConnectFails(_) => DropAnswers(c, QueueSet(c.queue));
    case Takes(w) =>
      if c.queue != [] {
        TakeAnswers(c, w);
      }
    case Succeeds(id, v) => ReplyAnswers(c, id, Value(v));
    case Fails(id, data) => ReplyAnswers(c, id, AnswerOf(e));
    case Notified(_) => DropAnswers(c, Calls(c.pending));
    case Malformed => DropAnswers(c, Calls(c.pending));
    case Closed => DropAnswers(c, Calls(c.pending));
    case Abandoned => DropAnswers(c, Calls(c.pending));
  }

  /** Answers are final, and none is made up: what is not "unavailable" came in some reply or is the
      refusal of parameters that cannot be encoded. */
  lemma {:induction false} AnswersComeFromReplies(c: Client, events: seq<Event>, call: nat)
    requires Inv(c) && call in Run(c, events).answers
    ensures var a := Run(c, events).answers[call];
      if call in c.answers then a == c.answers[call] else Given(a, events)
    decreases |events|
  {
    if events != [] {
      var next := Step(c, events[0]);
      StepOnce(c, events[0]);
      StepNumbered(c, events[0]);
      StepInOrder(c, events[0]);
      StepAnswers(c, events[0]);
      AnswersComeFromReplies(next, events[1..], call);
      if call in next.answers {
        assert call in c.answers || Given(next.answers[call], events);
      } else {
        GivenLater(Run(c, events).answers[call], events);
      }
    }
  }

  /** Sessions take the accepted calls in the order they were made, each once, over any losses of
      session: those taken so far are a prefix, and the queue is the rest. */
  lemma TakenInOrder(events: seq<Event>)
    ensures var c := Run(FreshClient, events);
      && c.taken <= c.accepted
      && (!c.phase.Stopped? ==> c.queue == c.accepted[|c.taken|..])
      && (forall i, j :: 0 <= i < j < |c.accepted| ==> c.accepted[i] < c.accepted[j])
  {
    FreshInv();
    RunInv(FreshClient, events);
  }

  /** With the last number in use, the next command displaces the call waiting on it, which is then
      unavailable although its reply may still come, and that reply goes to the newcomer. */
  lemma LastNumberIsShared(c: Client, v: int)
    requires Inv(c) && c.phase.Connected? && c.queue != [] && c.nextId == MAX_ID && MAX_ID in c.pending
    ensures var holder, newcomer := c.pending[MAX_ID], c.queue[0];
      var taken := Step(c, Takes(Sent));
      var next := Step(taken, Succeeds(Some(MAX_ID), v));
      holder != newcomer && next.answers == c.answers[holder := Unavailable][newcomer := Value(v)]
  {
    CallAt(c.pending, MAX_ID);
    assert c.queue[0] in QueueSet(c.queue);
  }

  lemma Displaced(c: Client, call: nat)
    requires Inv(c) && c.phase.Connected? && c.queue != [] && call in Calls(c.pending)
    ensures var atLast := c.nextId == MAX_ID && MAX_ID in c.pending && c.pending[MAX_ID] == call;
      call in Register(Headless(c), c.queue[0]).answers <==> atLast
  {
    assert call in Open(c) && call !in c.answers;
  }

  /** Over every run a command that is sent takes a waiting call's answer away exactly when that call
      waits on the last number and the command gets it too. */
  lemma DisplacedIff(events: seq<Event>, call: nat)
    requires var c := Run(FreshClient, events); c.phase.Connected? && c.queue != [] && call in Calls(c.pending)
    ensures var c := Run(FreshClient, events);
      var atLast := c.nextId == MAX_ID && MAX_ID in c.pending && c.pending[MAX_ID] == call;
      call in Step(c, Takes(Sent)).answers <==> atLast
  {
    FreshInv();
    RunInv(FreshClient, events);
    var c := Run(FreshClient, events);
    assert Step(c, Takes(Sent)) == Register(Headless(c), c.queue[0]);
    Displaced(c, call);
  }

  /** A session with nothing to do, and the numbers below `n` used up. */
  predicate Idle(c: Client, n: int) {
    c.phase.Connected? && c.queue == [] && c.pending == map[] && c.nextId == n
  }

  lemma IdleAgain(c: Client, n: int)
    requires Idle(c, n) && n < MAX_ID
    ensures Idle(Step(Step(Step(c, Call(true)), Takes(Sent)), Succeeds(Some(n), 0)), n + 1)
  {
    var sent := Step(Step(c, Call(true)), Takes(Sent));
    assert sent.pending == map[n := c.calls] && sent.queue == [];
    assert map[n := c.calls] - {n} == map[];
  }

  lemma OneMore(events: seq<Event>, n: int)
    requires Idle(Run(FreshClient, events), n) && n < MAX_ID
    ensures exists more :: Idle(Run(FreshClient, more), n + 1)
  {
    IdleAgain(Run(FreshClient, events), n);
    var called := events + [Call(true)];
    var sent := called + [Takes(Sent)];
    var replied := sent + [Succeeds(Some(n), 0)];
    RunAppend(FreshClient, events, Call(true));
    RunAppend(FreshClient, called, Takes(Sent));
    RunAppend(FreshClient, sent, Succeeds(Some(n), 0));
    assert Idle(Run(FreshClient, replied), n + 1);
  }

  lemma {:induction false} EveryNumberIsReached(n: int)
    requires FIRST_ID <= n <= MAX_ID
    ensures exists events :: Idle(Run(FreshClient, events), n)
    decreases n
  {
    if n == FIRST_ID {
      RunAppend(FreshClient, [], Connects(true));
      assert Idle(Run(FreshClient, [] + [Connects(true)]), n);
    } else {
      EveryNumberIsReached(n - 1);
      var events :| Idle(Run(FreshClient, events), n - 1);
      OneMore(events, n - 1);
    }
  }

  /** So some run has a call waiting on the last number and another about to get it. */
  lemma LastNumberIsReached()
    ensures exists events :: var c := Run(FreshClient, events);
      c.phase.Connected? && c.queue != [] && c.nextId == MAX_ID && MAX_ID in c.pending
  {
    EveryNumberIsReached(MAX_ID);
    var events :| Idle(Run(FreshClient, events), MAX_ID);
    var called := events + [Call(true)];
    var sent := called + [Takes(Sent)];
    RunAppend(FreshClient, events, Call(true));
    RunAppend(FreshClient, called, Takes(Sent));
    RunAppend(FreshClient, sent, Call(true));
    var c := Run(FreshClient, sent + [Call(true)]);
    assert c.phase.Connected? && c.queue != [] && c.nextId == MAX_ID && MAX_ID in c.pending;
  }

  // ---------- the handshake ----------

  datatype Message = Response(id: Option<int>, success: bool, v: int) | NonText | Unreadable | Broken
  datatype Handshake = Got(v: int) | Fatal(e: int) | Transient

  /** Messages the handshake reads past: those that are no text, and replies to someone else. */
  predicate Skips(m: Message, id: int) {
    m.NonText? || (m.Response? && m.id != Some(id))
  }

  function Decide(m: Message, id: int): Handshake {
    if m.Response? && m.id == Some(id) then (if m.success then Got(m.v) else Fatal(m.v)) else Transient
  }

  /** A handshake request is decided by the first message it does not read past. */
  function Await(messages: seq<Message>, id: int): Handshake {
    if messages == [] then Transient
    else if Skips(messages[0], id) then Await(messages[1..], id)
    else Decide(messages[0], id)
  }

  /** The first message that the handshake does not read past. */
  predicate FirstHeard(messages: seq<Message>, id: int, k: nat) {
    && k < |messages|
    && !(messages[k].NonText? || (messages[k].Response? && messages[k].id != Some(id)))
    && forall j :: 0 <= j < k ==> messages[j].NonText? || (messages[j].Response? && messages[j].id != Some(id))
  }

  /** Whatever comes before it, a handshake gets the value of a reply of success to it, fails for good with
      the error of one of failure, and is tried again in every other case. */
  lemma {:induction false} HandshakeIs(messages: seq<Message>, id: int, v: int)
    ensures Await(messages, id) == Got(v) <==>
      exists k: nat :: FirstHeard(messages, id, k) && messages[k] == Response(Some(id), true, v)
    ensures Await(messages, id) == Fatal(v) <==>
      exists k: nat :: FirstHeard(messages, id, k) && messages[k] == Response(Some(id), false, v)
  {
    if messages != [] {
      var rest := messages[1..];
      if Skips(messages[0], id) {
        HandshakeIs(rest, id, v);
        forall k: nat | FirstHeard(rest, id, k) ensures FirstHeard(messages, id, k + 1) {
          assert forall j :: 1 <= j <= k + 1 ==> messages[j] == rest[j - 1];
        }
        forall k: nat | FirstHeard(messages, id, k) ensures k > 0 && FirstHeard(rest, id, k - 1) {
          assert forall j :: 0 <= j < |rest| ==> rest[j] == messages[j + 1];
        }
      } else {
        assert FirstHeard(messages, id, 0);
        assert forall k: nat :: FirstHeard(messages, id, k) ==> k == 0;
      }
    }
  }

  /** The request is written, or that fails; then the stream of messages is read. */
  method CallOnSocket(writing: Writing, messages: seq<Message>, id: int) returns (r: Handshake)
    ensures r == if writing.Sent? then Await(messages, id) else Transient
  {
    if writing != Sent {
      return Transient;
    }
    for i := 0 to |messages|
      invariant Await(messages, id) == Await(messages[i..], id)
    {
      match messages[i] {
        case Broken => return Transient;
        case NonText =>
        case Unreadable => return Transient;
        case Response(rid, success, v) =>
          if rid == Some(id) {
            return if success then Got(v) else Fatal(v);
          }
      }
    }
    r := Transient;
  }

  // ---------- the client task ----------

  lemma OneResolved(answers: map<nat, Answer>, some: set<nat>, call: nat)
    requires call !in some
    ensures multiset(some) + multiset{call} == multiset(some + {call})
    ensures (answers + (map k | k in some :: Unavailable))[call := Unavailable]
         == answers + (map k | k in some + {call} :: Unavailable)
  {
  }

  class ClientTask {
    var phase: Phase
    var queue: seq<nat>
    var pending: map<int, nat>
    var nextId: int
    var calls: nat
    var answers: map<nat, Answer>
    ghost var done: multiset<nat>
    ghost var accepted: seq<nat>
    ghost var taken: seq<nat>
    ghost var wire: map<int, nat>

    ghost function State(): Client
      reads this
    {
      Client(phase, queue, pending, nextId, calls, done, answers, accepted, taken, wire)
    }

    constructor ()
      ensures State() == FreshClient
    {
      phase, queue, pending, nextId, calls := Disconnected, [], map[], FIRST_ID, 0;
      done, answers, accepted, taken, wire := multiset{}, map[], [], [], map[];
    }

    /** Resolves one call's promise. */
    method Resolve(call: nat, a: Answer)
      modifies `done, `answers
      ensures done == old(done) + multiset{call} && answers == old(answers)[call := a]
    {
      done, answers := done + multiset{call}, answers[call := a];
    }

    method ResolveAll(calls: set<nat>)
      modifies `done, `answers
      ensures done == old(done) + multiset(calls)
      ensures answers == old(answers) + (map k | k in calls :: Unavailable)
    {
      var rest := calls;
      while rest != {}
        invariant rest <= calls
        invariant done == old(done) + multiset(calls - rest)
        invariant answers == old(answers) + (map k | k in calls - rest :: Unavailable)
      {
        var call :| call in rest;
        OneResolved(old(answers), calls - rest, call);
        assert calls - (rest - {call}) == (calls - rest) + {call};
        Resolve(call, Unavailable);
        rest := rest - {call};
      }
      assert calls - rest == calls;
    }

    method MakeCall(encodes: bool)
      modifies this
      ensures State() == NewCall(old(State()), encodes)
    {
      if !encodes {
        Resolve(calls, Internal);
      } else if phase.Stopped? {
        Resolve(calls, Unavailable);
      } else {
        queue, accepted := queue + [calls], accepted + [calls];
      }
      calls := calls + 1;
    }

    method Stopping()
      modifies this
      ensures State() == Stop(old(State()))
    {
      ResolveAll(QueueSet(queue));
      phase, queue := Stopped, [];
    }

    method Connecting(room: bool)
      modifies this
      ensures State() == Connect(old(State()), room)
    {
      if room {
        phase, nextId, pending, wire := Connected, FIRST_ID, map[], map[];
      } else {
        Stopping();
      }
    }

    method FailPending()
      modifies this
      ensures State() == EndSession(old(State()))
    {
      ResolveAll(Calls(pending));
      phase, pending, wire := Disconnected, map[], map[];
    }

    method Registering(call: nat)
      modifies this
      ensures State() == Register(old(State()), call)
    {
      if nextId in pending {
        Resolve(pending[nextId], Unavailable);
      }
      pending, wire := pending[nextId := call], wire[nextId := call];
      if nextId < MAX_ID {
        nextId := nextId + 1;
      }
    }

    method Command(w: Writing)
      requires queue != []
      modifies this
      ensures State() == Take(old(State()), w)
    {
      var call := queue[0];
      queue, taken := queue[1..], taken + [call];
      assert State() == Headless(old(State()));
      match w {
        case Unencodable =>
          Resolve(call, Unavailable);
          FailPending();
        case Unwritable =>
          Registering(call);
          FailPending();
        case Sent =>
          Registering(call);
      }
    }

    method Incoming(id: Option<int>, a: Answer)
      modifies this
      ensures State() == Reply(old(State()), id, a)
    {
      if id.Some? && id.value in pending {
        Resolve(pending[id.value], a);
        pending := pending - {id.value};
      }
    }

    /** A session's loop: events are handled in turn until one of them ends it; `n` were used up. */
    method RunConnected(events: seq<Event>) returns (n: nat)
      requires phase.Connected?
      requires forall e <- events :: !e.Call? && !e.Connects? && !e.ConnectFails?
      modifies this
      ensures n <= |events| && State() == Run(old(State()), events[..n])
      ensures n < |events| ==> phase.Disconnected?
    {
      n := 0;
      while n < |events|
        invariant n <= |events| && phase.Connected? && State() == Run(old(State()), events[..n])
      {
        ghost var was := State();
        var e := events[n];
        assert events[..n + 1] == events[..n] + [e];
        RunAppend(old(State()), events[..n], e);
        n := n + 1;
        match e {
          case Takes(w) =>
            if queue != [] {
              Command(w);
            }
          case Succeeds(id, v) => Incoming(id, Value(v));
          case Fails(id, data) => Incoming(id, if data.Some? then Refused(data.value) else Internal);
          case Notified(room) =>
            if !room {
              FailPending();
            }
          case Malformed => FailPending();
          case Closed => FailPending();
          case Abandoned =>
            if queue == [] {
              FailPending();
            }
        }
        assert State() == Step(was, e);
        if !phase.Connected? {
          return;
        }
      }
    }
  }
}
