/** The extension's native-messaging port: numbered requests waiting in a table, each with a
    timer, over a port that may be opened, written to in vain, or lost. */
module RequestTable {
  import opened Prelude

  datatype Response = Response(success: bool, message: string)

  const NoPort := Response(false, "native_messaging_unavailable")
  const TimedOut := Response(false, "timeout")
  const PortLost := Response(false, "port disconnected")
  const PostFailed := Response(false, "postMessage failed")

  /** `calls` counts the calls made so far, `settled` the promises resolved, in order; a call
      refused before it got an id is settled as `None`. */
  datatype Table = Table(
    port: Option<nat>,
    nextPort: nat,
    nextId: nat,
    pending: set<nat>,
    timers: set<nat>,
    calls: nat,
    settled: seq<(Option<nat>, Response)>)

  const FreshTable := Table(None, 0, 1, {}, {}, 0, [])

  /** What can happen: a call, for which the connection and the write succeed or not; a message
      from the host; a timer going off; the port being lost; the extension closing it, which leaves
      whoever waits to the timers. */
  datatype Event =
    | Call(connects: bool, posts: bool)
    | Message(id: nat, response: Response)
    | Timer(id: nat)
    | Lost
    | Closed

  function Settle(t: Table, id: nat, response: Response): Table {
    t.(pending := t.pending - {id}, timers := t.timers - {id}, settled := t.settled + [(Some(id), response)])
  }

  function GetPort(t: Table, connects: bool): Table {
    if t.port.Some? || !connects then t else t.(port := Some(t.nextPort), nextPort := t.nextPort + 1)
  }

  function Refuse(t: Table): Table {
    t.(calls := t.calls + 1, settled := t.settled + [(None, NoPort)])
  }

  function Issue(t: Table): Table {
    t.(calls := t.calls + 1, nextId := t.nextId + 1, pending := t.pending + {t.nextId}, timers := t.timers + {t.nextId})
  }

  function SendMessage(t: Table, connects: bool, posts: bool): Table {
    var t1 := GetPort(t, connects);
    if t1.port.None? then Refuse(t1)
    else if posts then Issue(t1)
    else Settle(Issue(t1), t1.nextId, PostFailed).(port := None)
  }

  function OnMessage(t: Table, id: nat, response: Response): Table {
    if id in t.pending then Settle(t, id, response) else t
  }

  /** A timer callback removes its entry and resolves without looking at the table. */
  function OnTimer(t: Table, id: nat): Table {
    if id in t.timers then Settle(t, id, TimedOut) else t
  }

  /** The waiting ids from `id` on, in the order the table iterates, which is the order they were
      issued in, each resolved with the loss of the port. */
  function LoseFrom(pending: set<nat>, id: nat, end: nat): seq<(Option<nat>, Response)>
    decreases end - id
  {
    if id >= end then []
    else (if id in pending then [(Some(id), PortLost)] else []) + LoseFrom(pending, id + 1, end)
  }

  function OnDisconnect(t: Table): Table {
    t.(port := None, pending := {}, timers := t.timers - t.pending,
       settled := t.settled + LoseFrom(t.pending, 1, t.nextId))
  }

  function DisconnectPort(t: Table): Table {
    t.(port := None)
  }

  function Step(t: Table, e: Event): Table {
    match e
    case Call(connects, posts) => SendMessage(t, connects, posts)
    case Message(id, response) => OnMessage(t, id, response)
    case Timer(id) => OnTimer(t, id)
    case Lost => OnDisconnect(t)
    case Closed => DisconnectPort(t)
  }

  function Run(t: Table, events: seq<Event>): Table
    decreases |events|
  {
    if events == [] then t else Run(Step(t, events[0]), events[1..])
  }

  // ---------- every run ----------

  function Resolutions(settled: seq<(Option<nat>, Response)>, id: nat): nat {
    if settled == [] then 0 else (if settled[0].0 == Some(id) then 1 else 0) + Resolutions(settled[1..], id)
  }

  lemma {:induction false} ResolutionsAppend(a: seq<(Option<nat>, Response)>, b: seq<(Option<nat>, Response)>, id: nat)
    ensures Resolutions(a + b, id) == Resolutions(a, id) + Resolutions(b, id)
  {
    if a == [] {
      assert a + b == b;
    } else {
      assert (a + b)[1..] == a[1..] + b;
      ResolutionsAppend(a[1..], b, id);
    }
  }

  lemma {:induction false} LoseFromOnce(pending: set<nat>, from: nat, end: nat, id: nat)
    ensures Resolutions(LoseFrom(pending, from, end), id) == if from <= id < end && id in pending then 1 else 0
    decreases end - from
  {
    if from < end {
      LoseFromOnce(pending, from + 1, end, id);
      ResolutionsAppend(if from in pending then [(Some(from), PortLost)] else [], LoseFrom(pending, from + 1, end), id);
    }
  }

  /** Every waiting id is resolved, and nothing else: the lengths agree. */
  lemma {:induction false} LoseFromLength(pending: set<nat>, from: nat, end: nat)
    requires forall id :: id in pending ==> from <= id < end
    ensures |LoseFrom(pending, from, end)| == |pending|
    decreases end - from
  {
    if from < end {
      LoseFromOther(pending, from + 1, end, from);
      LoseFromLength(pending - {from}, from + 1, end);
      if from !in pending { assert pending - {from} == pending; }
    } else {
      assert pending == {};
    }
  }

  lemma {:induction false} LoseFromOther(pending: set<nat>, from: nat, end: nat, id: nat)
    requires id < from
    ensures LoseFrom(pending - {id}, from, end) == LoseFrom(pending, from, end)
    decreases end - from
  {
    if from < end { LoseFromOther(pending, from + 1, end, id); }
  }

  ghost predicate Inv(t: Table) {
    && t.timers == t.pending && t.nextId >= 1
    && t.calls == |t.settled| + |t.pending|
    && (forall id :: id in t.pending ==> 1 <= id < t.nextId)
    && forall id: nat :: Resolutions(t.settled, id) == if 1 <= id < t.nextId && id !in t.pending then 1 else 0
  }

  lemma SettleInv(t: Table, id: nat, response: Response)
    requires Inv(t) && id in t.pending
    ensures Inv(Settle(t, id, response))
  {
    forall x: nat
      ensures Resolutions(t.settled + [(Some(id), response)], x) == Resolutions(t.settled, x) + if x == id then 1 else 0
    {
      ResolutionsAppend(t.settled, [(Some(id), response)], x);
    }
  }

  lemma RefuseInv(t: Table)
    requires Inv(t)
    ensures Inv(Refuse(t))
  {
    forall x: nat ensures Resolutions(t.settled + [(None, NoPort)], x) == Resolutions(t.settled, x) {
      ResolutionsAppend(t.settled, [(None, NoPort)], x);
    }
  }

  lemma IssueInv(t: Table)
    requires Inv(t)
    ensures Inv(Issue(t))
  {
  }

  lemma SendInv(t: Table, connects: bool, posts: bool)
    requires Inv(t)
    ensures Inv(SendMessage(t, connects, posts))
  {
    var t1 := GetPort(t, connects);
    assert Inv(t1);
    RefuseInv(t1);
    IssueInv(t1);
    SettleInv(Issue(t1), t1.nextId, PostFailed);
  }

  lemma LostInv(t: Table)
    requires Inv(t)
    ensures Inv(OnDisconnect(t))
  {
    var lost := LoseFrom(t.pending, 1, t.nextId);
    LoseFromLength(t.pending, 1, t.nextId);
    forall x: nat
      ensures Resolutions(t.settled + lost, x) == Resolutions(t.settled, x) + if x in t.pending then 1 else 0
    {
      ResolutionsAppend(t.settled, lost, x);
      LoseFromOnce(t.pending, 1, t.nextId, x);
    }
  }

  lemma StepInv(t: Table, e: Event)
    requires Inv(t)
    ensures Inv(Step(t, e))
  {
    match e
    case Call(connects, posts) => SendInv(t, connects, posts);
    case Message(id, response) => if id in t.pending { SettleInv(t, id, response); }
    case Timer(id) => if id in t.timers { SettleInv(t, id, TimedOut); }
    case Lost => LostInv(t);
    case Closed =>
  }

  lemma {:induction false} RunInv(t: Table, events: seq<Event>)
    requires Inv(t)
    ensures Inv(Run(t, events))
    decreases |events|
  {
    if events != [] {
      StepInv(t, events[0]);
      RunInv(Step(t, events[0]), events[1..]);
    }
  }

  /** Over every interleaving: an issued id waits with a live timer or has been resolved exactly
      once, and an id never issued has not been; no promise is resolved twice or forgotten. */
  lemma EveryIdResolvedOnce(events: seq<Event>, id: nat)
    ensures var t := Run(FreshTable, events);
      && (id in t.pending ==> id in t.timers && Resolutions(t.settled, id) == 0)
      && (1 <= id < t.nextId && id !in t.pending ==> Resolutions(t.settled, id) == 1)
      && (!(1 <= id < t.nextId) ==> id !in t.pending && Resolutions(t.settled, id) == 0)
      && t.timers == t.pending && t.calls == |t.settled| + |t.pending|
  {
    RunInv(FreshTable, events);
  }

  /** Nothing that arrives late is acted on; losing the port leaves nobody waiting, and closing it
      leaves everybody waiting as before. */
  lemma LateEventsIgnored(events: seq<Event>, id: nat, response: Response)
    ensures var t := Run(FreshTable, events);
      && (id !in t.pending ==> Step(t, Message(id, response)) == t && Step(t, Timer(id)) == t)
      && (id in t.pending ==>
            var u := Step(t, Message(id, response));
            u.settled == t.settled + [(Some(id), response)] && u.pending == t.pending - {id} && u.timers == u.pending)
      && Step(t, Lost).pending == Step(t, Lost).timers == {} && Step(t, Lost).port == None
      && |Step(t, Lost).settled| == t.calls
      && Step(t, Closed).port == None && Step(t, Closed).pending == Step(t, Closed).timers == t.pending
      && Step(t, Closed).settled == t.settled
  {
    RunInv(FreshTable, events);
    LostInv(Run(FreshTable, events));
  }

  /** What a call comes to: without a port it is refused; if the write fails it is told so and the port is
      given up; otherwise it waits under the next number, with a timer. An open port is used again. */
  lemma CallIsAnswered(events: seq<Event>, connects: bool, posts: bool)
    ensures var t := Run(FreshTable, events);
      var u := Step(t, Call(connects, posts));
      && u.calls == t.calls + 1
      && if t.port.None? && !connects then
           && u.settled == t.settled + [(None, Response(false, "native_messaging_unavailable"))]
           && u.pending == t.pending && u.port == None && u.nextId == t.nextId
         else if !posts then
           && u.settled == t.settled + [(Some(t.nextId), Response(false, "postMessage failed"))]
           && u.pending == t.pending && u.port == None && u.nextId == t.nextId + 1
         else
           && u.settled == t.settled && u.pending == t.pending + {t.nextId} && u.nextId == t.nextId + 1
           && u.timers == u.pending
           && (if t.port.Some? then u.port == t.port else u.port == Some(t.nextPort) && u.nextPort == t.nextPort + 1)
  {
    RunInv(FreshTable, events);
    var t := Run(FreshTable, events);
    assert t.nextId !in t.pending;
    assert t.pending + {t.nextId} - {t.nextId} == t.pending;
  }

  /** What a waiting request is answered with: the reply that bears its number, a timeout, or the loss of
      the port, which answers every one of them. */
  lemma WaitingIsAnswered(events: seq<Event>, id: nat, response: Response)
    requires id in Run(FreshTable, events).pending
    ensures var t := Run(FreshTable, events);
      var replied, expired, lost := Step(t, Message(id, response)), Step(t, Timer(id)), Step(t, Lost);
      && replied.settled == t.settled + [(Some(id), response)] && replied.pending == t.pending - {id}
      && expired.settled == t.settled + [(Some(id), Response(false, "timeout"))] && expired.pending == t.pending - {id}
      && t.settled <= lost.settled
      && (Some(id), Response(false, "port disconnected")) in lost.settled[|t.settled|..]
  {
    RunInv(FreshTable, events);
    var t := Run(FreshTable, events);
    LoseFromHolds(t.pending, 1, t.nextId, id);
    assert Step(t, Lost).settled[|t.settled|..] == LoseFrom(t.pending, 1, t.nextId);
  }

  lemma {:induction false} LoseFromHolds(pending: set<nat>, from: nat, end: nat, id: nat)
    requires id in pending && from <= id < end
    ensures (Some(id), PortLost) in LoseFrom(pending, from, end)
    decreases end - from
  {
    if from < id {
      LoseFromHolds(pending, from + 1, end, id);
    }
  }

  function AllTimers(end: nat): seq<Event> { seq(end, i requires 0 <= i < end => Timer(i)) }

  lemma {:induction false} TimersDrain(t: Table, from: nat, end: nat)
    requires Inv(t) && from <= end && t.nextId <= end && forall id :: id in t.pending ==> from <= id
    ensures var u := Run(t, AllTimers(end)[from..]); Inv(u) && u.pending == {} && u.calls == t.calls
    decreases end - from
  {
    if from < end {
      var u := Step(t, Timer(from));
      StepInv(t, Timer(from));
      assert AllTimers(end)[from..][0] == Timer(from) && AllTimers(end)[from..][1..] == AllTimers(end)[from + 1..];
      TimersDrain(u, from + 1, end);
    }
  }

  /** Even a silent host leaves no call waiting: once the timers have gone off, every call made
      has been resolved. */
  lemma SilenceSettlesEverything(events: seq<Event>)
    ensures var t := Run(FreshTable, events);
      |Run(t, AllTimers(t.nextId)).settled| == t.calls
  {
    RunInv(FreshTable, events);
    var t := Run(FreshTable, events);
    TimersDrain(t, 0, t.nextId);
    assert AllTimers(t.nextId)[0..] == AllTimers(t.nextId);
  }

  // ---------- the port as the program runs it ----------

  class NativePort {
    var port: Option<nat>
    var nextPort: nat
    var nextMsgId: nat
    var pending: set<nat>
    var timers: set<nat>
    ghost var calls: nat
    ghost var settled: seq<(Option<nat>, Response)>

    ghost function State(): Table
      reads this
    {
      Table(port, nextPort, nextMsgId, pending, timers, calls, settled)
    }

    constructor ()
      ensures State() == FreshTable
    {
      port, nextPort, nextMsgId, pending, timers, calls, settled := None, 0, 1, {}, {}, 0, [];
    }

    method OpenPort(connects: bool) returns (open: bool)
      modifies this
      ensures State() == GetPort(old(State()), connects) && open == port.Some?
    {
      if port.Some? {
        return true;
      }
      if connects {
        port, nextPort := Some(nextPort), nextPort + 1;
      }
      return connects;
    }

    method Send(connects: bool, posts: bool)
      modifies this
      ensures State() == SendMessage(old(State()), connects, posts)
    {
      calls := calls + 1;
      var open := OpenPort(connects);
      if !open {
        settled := settled + [(None, NoPort)];
        return;
      }
      var msgId := nextMsgId;
      nextMsgId := nextMsgId + 1;
      timers := timers + {msgId};
      pending := pending + {msgId};
      if !posts {
        pending := pending - {msgId};
        timers := timers - {msgId};
        port := None;
        settled := settled + [(Some(msgId), PostFailed)];
      }
    }

    method Receive(msgId: nat, response: Response)
      modifies this
      ensures State() == OnMessage(old(State()), msgId, response)
    {
      if msgId !in pending {
        return;
      }
      pending := pending - {msgId};
      timers := timers - {msgId};
      settled := settled + [(Some(msgId), response)];
    }

    method Expire(msgId: nat)
      requires msgId in timers
      modifies this
      ensures State() == OnTimer(old(State()), msgId)
    {
      timers := timers - {msgId};
      pending := pending - {msgId};
      settled := settled + [(Some(msgId), TimedOut)];
    }

    /** The extension gives up its port. */
    method ClosePort()
      modifies `port
      ensures State() == DisconnectPort(old(State()))
    {
      port := None;
    }

    method PortDisconnected()
      requires nextMsgId >= 1 && forall id :: id in pending ==> 1 <= id < nextMsgId
      modifies this
      ensures State() == OnDisconnect(old(State()))
    {
      port := None;
      ghost var waiting := pending;
      for id := 1 to nextMsgId
        invariant pending == (set x | x in waiting && !(1 <= x < id))
        invariant timers == old(timers) - (set x | x in waiting && 1 <= x < id)
        invariant settled + LoseFrom(waiting, id, nextMsgId) == old(settled) + LoseFrom(waiting, 1, nextMsgId)
        invariant port == None && nextPort == old(nextPort) && nextMsgId == old(nextMsgId) && calls == old(calls)
      {
        if id in pending {
          timers := timers - {id};
          settled := settled + [(Some(id), PortLost)];
          pending := pending - {id};
        }
      }
    }
  }
}
