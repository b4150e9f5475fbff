/** The agent's queue of captures waiting for the user's word. */
module CaptureQueue {
  const CAPTURE_CAPACITY := 64

  /** A transaction, with the id drawn for it. */
  datatype Capture = Capture(id: nat, request: int)

  /** What a submission or a decision comes to, before any task is made. */
  datatype Outcome = Queued(id: nat) | Full | NotFound | Confirmed(request: int) | Rejected

  /** `ids` are the transactions ever accepted, in order; `confirmed` and `rejected` those decided. */
  datatype Service = Service(
    pending: seq<Capture>, ids: seq<nat>, confirmed: seq<nat>, rejected: seq<nat>, created: seq<int>)

  const FreshService := Service([], [], [], [], [])

  /** A submission, with the id the random generator draws and whether it skips the queue; a decision. */
  datatype Event = Submit(id: nat, request: int, silent: bool) | Resolve(id: nat, accepted: bool)

  function Position(pending: seq<Capture>, id: nat): (i: nat)
    ensures i <= |pending|
    ensures i < |pending| ==> pending[i].id == id
    ensures forall j :: 0 <= j < i ==> pending[j].id != id
  {
    if pending == [] || pending[0].id == id then 0 else 1 + Position(pending[1..], id)
  }

  function Remove(pending: seq<Capture>, i: nat): seq<Capture>
    requires i < |pending|
  {
    pending[..i] + pending[i + 1..]
  }

  function Create(s: Service, request: int): Service {
    s.(created := s.created + [request])
  }

  function Step(s: Service, e: Event): Service {
    match e
    case Submit(id, request, silent) =>
      if silent then Create(s, request)
      else if |s.pending| >= CAPTURE_CAPACITY then s
      else s.(pending := s.pending + [Capture(id, request)], ids := s.ids + [id])
    case Resolve(id, accepted) =>
      var i := Position(s.pending, id);
      if i == |s.pending| then s
      else
        var next := s.(pending := Remove(s.pending, i));
        if accepted then Create(next.(confirmed := s.confirmed + [id]), s.pending[i].request)
        else next.(rejected := s.rejected + [id])
  }

  function Run(s: Service, events: seq<Event>): Service
    decreases |events|
  {
    if events == [] then s else Run(Step(s, events[0]), events[1..])
  }

  /** The ids drawn over a run; the generator's promise is that they differ. */
  function Drawn(events: seq<Event>): seq<nat> {
    if events == [] then []
    else (if events[0].Submit? then [events[0].id] else []) + Drawn(events[1..])
  }

  predicate Distinct(ids: seq<nat>) {
    forall i, j :: 0 <= i < j < |ids| ==> ids[i] != ids[j]
  }

  function Ids(pending: seq<Capture>): (ids: seq<nat>)
    ensures |ids| == |pending|
  {
    if pending == [] then [] else [pending[0].id] + Ids(pending[1..])
  }

  /** The sequence without the elements of a second. */
  function Without(ids: seq<nat>, gone: seq<nat>): seq<nat> {
    if ids == [] then [] else (if ids[0] in gone then [] else [ids[0]]) + Without(ids[1..], gone)
  }

  /** Accepted transactions are pending, confirmed or rejected, each in one way and once; the pending
      ones stand in the order they were accepted, and there are at most 64. */
  predicate Conserved(s: Service) {
    && |s.pending| <= CAPTURE_CAPACITY
    && Distinct(s.ids)
    && Ids(s.pending) == Without(s.ids, s.confirmed + s.rejected)
    && multiset(Ids(s.pending)) + multiset(s.confirmed) + multiset(s.rejected) == multiset(s.ids)
  }

  lemma {:induction false} WithoutAppend(a: seq<nat>, b: seq<nat>, gone: seq<nat>)
    ensures Without(a + b, gone) == Without(a, gone) + Without(b, gone)
  {
    if a == [] {
      assert a + b == b;
    } else {
      assert (a + b)[1..] == a[1..] + b;
      WithoutAppend(a[1..], b, gone);
    }
  }

  lemma {:induction false} WithoutSame(ids: seq<nat>, a: seq<nat>, b: seq<nat>)
    requires forall id <- ids :: id in a <==> id in b
    ensures Without(ids, a) == Without(ids, b)
  {
    if ids != [] {
      assert ids[0] in ids;
      WithoutSame(ids[1..], a, b);
    }
  }

  function RemoveId(ids: seq<nat>, id: nat): seq<nat> {
    if ids == [] then [] else if ids[0] == id then ids[1..] else [ids[0]] + RemoveId(ids[1..], id)
  }

  /** Losing one more element of a list without repetitions takes out just that one. */
  lemma {:induction false} WithoutOne(ids: seq<nat>, gone: seq<nat>, id: nat)
    requires Distinct(ids)
    ensures Without(ids, gone + [id]) == RemoveId(Without(ids, gone), id)
  {
    if ids != [] {
      var rest := Without(ids[1..], gone);
      if ids[0] in gone {
        WithoutOne(ids[1..], gone, id);
        assert [] + rest == rest;
      } else if ids[0] == id {
        WithoutSame(ids[1..], gone, gone + [id]);
        assert ([id] + rest)[1..] == rest;
        assert [] + rest == rest;
      } else {
        WithoutOne(ids[1..], gone, id);
        assert ([ids[0]] + rest)[1..] == rest;
      }
    }
  }

  /** Taking out the transaction at its position takes its id out of the ids. */
  lemma {:induction false} RemoveAt(pending: seq<Capture>, id: nat)
    requires Position(pending, id) < |pending|
    ensures Ids(Remove(pending, Position(pending, id))) == RemoveId(Ids(pending), id)
  {
    var i := Position(pending, id);
    if i == 0 {
      assert Remove(pending, 0) == pending[1..];
    } else {
      RemoveAt(pending[1..], id);
      assert Remove(pending, i) == [pending[0]] + Remove(pending[1..], i - 1);
    }
  }

  lemma {:induction false} RemoveCounts(ids: seq<nat>, id: nat)
    requires id in ids
    ensures multiset(RemoveId(ids, id)) + multiset{id} == multiset(ids)
  {
    assert ids == [ids[0]] + ids[1..];
    if ids[0] != id {
      RemoveCounts(ids[1..], id);
    }
  }

  lemma {:induction false} IdsAppend(a: seq<Capture>, b: seq<Capture>)
    ensures Ids(a + b) == Ids(a) + Ids(b)
  {
    if a == [] {
      assert a + b == b;
    } else {
      assert (a + b)[1..] == a[1..] + b;
      IdsAppend(a[1..], b);
    }
  }

  lemma {:induction false} IdsAt(pending: seq<Capture>, i: nat)
    requires i < |pending|
    ensures Ids(pending)[i] == pending[i].id
  {
    if i > 0 {
      IdsAt(pending[1..], i - 1);
    }
  }

  lemma GoneWasAccepted(s: Service, id: nat)
    requires Conserved(s) && id !in s.ids
    ensures id !in s.confirmed + s.rejected
  {
    assert multiset(s.ids)[id] == multiset(Ids(s.pending))[id] + multiset(s.confirmed)[id] + multiset(s.rejected)[id];
    assert id !in multiset(s.ids);
    assert id !in multiset(s.confirmed) && id !in multiset(s.rejected);
  }

  lemma OneMore(ids: seq<nat>, gone: seq<nat>, id: nat)
    requires Distinct(ids) && id !in ids && id !in gone
    ensures Distinct(ids + [id]) && Without(ids + [id], gone) == Without(ids, gone) + [id]
  {
    WithoutAppend(ids, [id], gone);
    assert [id][1..] == [];
  }

  lemma SubmitKeeps(s: Service, id: nat, request: int)
    requires Conserved(s) && id !in s.ids && |s.pending| < CAPTURE_CAPACITY
    ensures Conserved(s.(pending := s.pending + [Capture(id, request)], ids := s.ids + [id]))
  {
    IdsAppend(s.pending, [Capture(id, request)]);
    assert Ids([Capture(id, request)]) == [id];
    GoneWasAccepted(s, id);
    OneMore(s.ids, s.confirmed + s.rejected, id);
    assert multiset(s.ids + [id]) == multiset(s.ids) + multiset{id};
    assert multiset(Ids(s.pending) + [id]) == multiset(Ids(s.pending)) + multiset{id};
  }

  lemma ResolveKeeps(s: Service, id: nat, accepted: bool)
    requires Conserved(s)
    ensures Conserved(Step(s, Resolve(id, accepted)))
  {
    var i := Position(s.pending, id);
    if i < |s.pending| {
      var gone, ids, t := s.confirmed + s.rejected, Ids(s.pending), Step(s, Resolve(id, accepted));
      RemoveAt(s.pending, id);
      WithoutOne(s.ids, gone, id);
      WithoutSame(s.ids, gone + [id], t.confirmed + t.rejected);
      IdsAt(s.pending, i);
      assert ids[i] == id;
      RemoveCounts(ids, id);
      Decided(ids, Ids(t.pending), s.confirmed, s.rejected, s.ids, id);
    }
  }

  lemma Decided(before: seq<nat>, after: seq<nat>, confirmed: seq<nat>, rejected: seq<nat>, ids: seq<nat>, id: nat)
    requires multiset(before) + multiset(confirmed) + multiset(rejected) == multiset(ids)
    requires multiset(after) + multiset{id} == multiset(before)
    ensures multiset(after) + multiset(confirmed + [id]) + multiset(rejected) == multiset(ids)
    ensures multiset(after) + multiset(confirmed) + multiset(rejected + [id]) == multiset(ids)
  {
  }

  lemma {:induction false} RunConserves(s: Service, events: seq<Event>)
    requires Conserved(s) && Distinct(s.ids + Drawn(events))
    ensures Conserved(Run(s, events))
    decreases |events|
  {
    if events != [] {
      var e, rest := events[0], Drawn(events[1..]);
      match e
      case Submit(id, request, silent) =>
        assert s.ids + Drawn(events) == s.ids + [id] + rest;
        DistinctParts(s.ids, id, rest);
        if !silent && |s.pending| < CAPTURE_CAPACITY {
          SubmitKeeps(s, id, request);
        }
        RunConserves(Step(s, e), events[1..]);
      case Resolve(id, accepted) =>
        assert s.ids + Drawn(events) == s.ids + rest;
        ResolveKeeps(s, id, accepted);
        RunConserves(Step(s, e), events[1..]);
    }
  }

  lemma DistinctParts(a: seq<nat>, id: nat, b: seq<nat>)
    requires Distinct(a + [id] + b)
    ensures id !in a && Distinct(a + b)
  {
    var all, both := a + [id] + b, a + b;
    assert forall k :: 0 <= k < |both| ==> both[k] == all[if k < |a| then k else k + 1];
    assert all[|a|] == id && forall k :: 0 <= k < |a| ==> all[k] == a[k];
  }

  /** Over every run with distinct ids: at most 64 pending, in the order accepted, and each accepted
      transaction is in exactly one of pending, confirmed and rejected, once. */
  lemma EveryCaptureDecidedOnce(events: seq<Event>, id: nat)
    requires Distinct(Drawn(events))
    ensures var s := Run(FreshService, events);
      && |s.pending| <= CAPTURE_CAPACITY
      && Ids(s.pending) == Without(s.ids, s.confirmed + s.rejected)
      && multiset(Ids(s.pending))[id] + multiset(s.confirmed)[id] + multiset(s.rejected)[id]
         == if id in s.ids then 1 else 0
  {
    assert [] + Drawn(events) == Drawn(events);
    RunConserves(FreshService, events);
    var s := Run(FreshService, events);
    CountDistinct(s.ids, id);
  }

  lemma {:induction false} CountDistinct(ids: seq<nat>, id: nat)
    requires Distinct(ids)
    ensures multiset(ids)[id] == if id in ids then 1 else 0
  {
    if ids != [] {
      CountDistinct(ids[1..], id);
      assert ids == [ids[0]] + ids[1..];
    }
  }

  predicate Submitted(c: Capture, events: seq<Event>) {
    exists i :: 0 <= i < |events| && events[i] == Submit(c.id, c.request, false)
  }

  /** What waits in the queue is what was submitted, under the id drawn for it. */
  lemma {:induction false} PendingWasSubmitted(s: Service, events: seq<Event>, c: Capture)
    requires c in Run(s, events).pending
    ensures c in s.pending || Submitted(c, events)
    decreases |events|
  {
    if events != [] {
      var next := Step(s, events[0]);
      PendingWasSubmitted(next, events[1..], c);
      if c in next.pending {
        assert c in s.pending || events[0] == Submit(c.id, c.request, false);
      } else {
        var i :| 0 <= i < |events[1..]| && events[1..][i] == Submit(c.id, c.request, false);
        assert events[i + 1] == Submit(c.id, c.request, false);
      }
    }
  }

  /** Confirming a waiting transaction asks for one task, with the request that was submitted under
      its id; confirming or rejecting any other asks for none and changes nothing. */
  lemma ConfirmCreatesItsRequest(events: seq<Event>, id: nat)
    ensures var s := Run(FreshService, events);
      var next := Step(s, Resolve(id, true));
      if exists c <- s.pending :: c.id == id
      then |next.created| == |s.created| + 1 && next.created[..|s.created|] == s.created
        && Submitted(Capture(id, next.created[|s.created|]), events)
      else next == s && Step(s, Resolve(id, false)) == s
  {
    var s := Run(FreshService, events);
    var i := Position(s.pending, id);
    if i < |s.pending| {
      PendingWasSubmitted(FreshService, events, s.pending[i]);
      assert s.pending[i] in s.pending && s.pending[i] == Capture(id, s.pending[i].request);
    }
  }

  function SilentSubmissions(events: seq<Event>): nat {
    if events == [] then 0
    else (if events[0].Submit? && events[0].silent then 1 else 0) + SilentSubmissions(events[1..])
  }

  /** Tasks are asked for once per silent submission and once per confirmed transaction, never else. */
  lemma {:induction false} CreatedOnce(s: Service, events: seq<Event>)
    ensures |Run(s, events).created| - |Run(s, events).confirmed|
      == |s.created| - |s.confirmed| + SilentSubmissions(events)
    decreases |events|
  {
    if events != [] {
      CreatedOnce(Step(s, events[0]), events[1..]);
    }
  }

  /** Over every run a submission that asks for the user's word waits, last in line, unless 64 wait already;
      a silent one asks for its task at once. */
  lemma SubmissionWaits(events: seq<Event>, id: nat, request: int)
    ensures var s := Run(FreshService, events);
      var queued, silent := Step(s, Submit(id, request, false)), Step(s, Submit(id, request, true));
      && (if |s.pending| < 64 then queued.pending == s.pending + [Capture(id, request)] && queued.created == s.created
          else queued == s)
      && silent.created == s.created + [request] && silent.pending == s.pending
  {
  }

  lemma OneWay(s: Service, id: nat)
    requires Conserved(s)
    ensures multiset(Ids(s.pending))[id] + multiset(s.confirmed)[id] + multiset(s.rejected)[id] <= 1
  {
    CountDistinct(s.ids, id);
    assert multiset(s.ids)[id] == multiset(Ids(s.pending))[id] + multiset(s.confirmed)[id] + multiset(s.rejected)[id];
  }

  lemma WaitingIsUndecided(s: Service, id: nat)
    requires Conserved(s) && Position(s.pending, id) < |s.pending|
    ensures id !in s.confirmed && id !in s.rejected
  {
    OneWay(s, id);
    IdsAt(s.pending, Position(s.pending, id));
    assert id in multiset(Ids(s.pending));
    assert id !in multiset(s.confirmed) && id !in multiset(s.rejected);
  }

  lemma DecidedIsGone(s: Service, id: nat)
    requires Conserved(s) && (id in s.confirmed || id in s.rejected)
    ensures Position(s.pending, id) == |s.pending|
  {
    if Position(s.pending, id) < |s.pending| {
      WaitingIsUndecided(s, id);
    }
  }

  lemma DecisionIs(s: Service, id: nat, accepted: bool)
    requires Position(s.pending, id) < |s.pending|
    ensures var next := Step(s, Resolve(id, accepted));
      && (if accepted then next.confirmed == s.confirmed + [id] && next.rejected == s.rejected
          else next.rejected == s.rejected + [id] && next.confirmed == s.confirmed && next.created == s.created)
      && Ids(next.pending) == RemoveId(Ids(s.pending), id)
  {
    RemoveAt(s.pending, id);
  }

  /** A decision takes the transaction out of the queue and leaves the others in their order; a second
      decision finds none. */
  lemma DecisionIsFinal(events: seq<Event>, id: nat, accepted: bool, again: bool)
    requires Distinct(Drawn(events)) && exists c <- Run(FreshService, events).pending :: c.id == id
    ensures var s := Run(FreshService, events);
      var next := Step(s, Resolve(id, accepted));
      && (id in next.confirmed <==> accepted) && (id in next.rejected <==> !accepted)
      && Ids(next.pending) == RemoveId(Ids(s.pending), id)
      && (!accepted ==> next.created == s.created)
      && (forall c <- next.pending :: c.id != id)
      && Step(next, Resolve(id, again)) == next
  {
    assert [] + Drawn(events) == Drawn(events);
    RunConserves(FreshService, events);
    var s := Run(FreshService, events);
    var next := Step(s, Resolve(id, accepted));
    WaitingIsUndecided(s, id);
    DecisionIs(s, id, accepted);
    ResolveKeeps(s, id, accepted);
    DecidedIsGone(next, id);
  }

  class CaptureService {
    var pending: seq<Capture>
    var created: seq<int>
    ghost var ids: seq<nat>
    ghost var confirmed: seq<nat>
    ghost var rejected: seq<nat>

    ghost function State(): Service
      reads this
    {
      Service(pending, ids, confirmed, rejected, created)
    }

    constructor ()
      ensures State() == FreshService
    {
      pending, ids, confirmed, rejected, created := [], [], [], [], [];
    }

    /** `first` tells whether the desktop is to be launched for it. */
    method Submitting(id: nat, request: int, silent: bool) returns (outcome: Outcome, first: bool)
      modifies this
      ensures State() == Step(old(State()), Submit(id, request, silent))
      ensures outcome ==
        if silent then Confirmed(request) else if |old(pending)| >= CAPTURE_CAPACITY then Full else Queued(id)
      ensures first <==> outcome.Queued? && old(pending) == []
    {
      if silent {
        created := created + [request];
        return Confirmed(request), false;
      }
      if |pending| >= CAPTURE_CAPACITY {
        return Full, false;
      }
      first := pending == [];
      pending, ids := pending + [Capture(id, request)], ids + [id];
      outcome := Queued(id);
    }

    method Resolving(id: nat, accepted: bool) returns (outcome: Outcome)
      modifies this
      ensures State() == Step(old(State()), Resolve(id, accepted))
      ensures outcome == (
        var i := Position(old(pending), id);
        if i == |old(pending)| then NotFound else if accepted then Confirmed(old(pending)[i].request) else Rejected)
    {
      var index := Position(pending, id);
      if index == |pending| {
        return NotFound;
      }
      var transaction := pending[index];
      pending := Remove(pending, index);
      if accepted {
        confirmed, created := confirmed + [id], created + [transaction.request];
        outcome := Confirmed(transaction.request);
      } else {
        rejected := rejected + [id];
        outcome := Rejected;
      }
    }
  }
}
