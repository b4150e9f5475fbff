/** The App's single-flight launch of its agent: callers and reaper tasks take turns at one lock. */
module ServiceBootstrap {
  const MAX_GENERATION := 0xffff_ffff_ffff_ffff

  /** An unfinished reaper task: the generation of its child, and whether that has exited. */
  datatype Reaper = Reaper(generation: nat, exited: bool)

  datatype Bootstrap = Bootstrap(generation: nat, running: bool, reapers: seq<Reaper>)

  const FreshBootstrap := Bootstrap(0, false, [])

  /** A call with the lock held, whose spawn succeeds or fails; a child exits; the reaper of an
      exited child gets the lock. */
  datatype Event = Ensure(spawns: bool) | Exits(i: nat) | Reaps(i: nat)

  function NextGeneration(g: nat): nat {
    if g < MAX_GENERATION then g + 1 else g
  }

  function EnsureRunning(b: Bootstrap, spawns: bool): Bootstrap {
    if b.running || !spawns then b
    else Bootstrap(NextGeneration(b.generation), true, b.reapers + [Reaper(NextGeneration(b.generation), false)])
  }

  function Reap(b: Bootstrap, i: nat): Bootstrap
    requires i < |b.reapers|
  {
    b.(running := b.running && b.generation != b.reapers[i].generation, reapers := b.reapers[..i] + b.reapers[i + 1..])
  }

  function Step(b: Bootstrap, e: Event): Bootstrap {
    match e
    case Ensure(spawns) => EnsureRunning(b, spawns)
    case Exits(i) => if i < |b.reapers| then b.(reapers := b.reapers[i := b.reapers[i].(exited := true)]) else b
    case Reaps(i) => if i < |b.reapers| && b.reapers[i].exited then Reap(b, i) else b
  }

  function Run(b: Bootstrap, events: seq<Event>): Bootstrap
    decreases |events|
  {
    if events == [] then b else Run(Step(b, events[0]), events[1..])
  }

  /** The children that have not exited. */
  function Alive(reapers: seq<Reaper>): nat {
    if reapers == [] then 0 else (if reapers[0].exited then 0 else 1) + Alive(reapers[1..])
  }

  /** `running` holds exactly while one reaper is outstanding, which is the current generation's. */
  predicate SingleFlight(b: Bootstrap) {
    |b.reapers| == (if b.running then 1 else 0) && (b.running ==> b.reapers[0].generation == b.generation)
  }

  lemma {:induction false} RunSingleFlight(b: Bootstrap, events: seq<Event>)
    requires SingleFlight(b)
    ensures SingleFlight(Run(b, events))
    decreases |events|
  {
    if events != [] {
      RunSingleFlight(Step(b, events[0]), events[1..]);
    }
  }

  /** Over every interleaving at most one child is unreaped or alive, and it is the newest
      generation's; while it is, no call spawns another; and a reaper that gets the lock always finds
      its own generation current, so its comparison never fails. */
  lemma AtMostOneAgent(events: seq<Event>, spawns: bool, i: nat)
    ensures var b := Run(FreshBootstrap, events);
      && Alive(b.reapers) <= |b.reapers| <= 1
      && (b.running <==> |b.reapers| == 1)
      && (|b.reapers| == 1 ==> b.reapers[0].generation == b.generation && Step(b, Ensure(spawns)) == b)
      && (i < |b.reapers| && b.reapers[i].exited ==>
            b.reapers[i].generation == b.generation && !Step(b, Reaps(i)).running)
  {
    RunSingleFlight(FreshBootstrap, events);
    var b := Run(FreshBootstrap, events);
    if b.running {
      assert b.reapers[1..] == [];
    }
  }

  /** After a call whose spawn would succeed one child is unreaped and the agent counts as running: the one
      there was, or a new one, alive, of the next generation. If the spawn fails nothing changes. */
  lemma EnsureLaunches(events: seq<Event>)
    ensures var b := Run(FreshBootstrap, events);
      var next := Step(b, Ensure(true));
      && next.running && |next.reapers| == 1 && next.reapers[0].generation == next.generation
      && (if b.reapers != [] then next == b
          else !next.reapers[0].exited && next.generation == if b.generation < MAX_GENERATION then b.generation + 1
                                                             else b.generation)
      && Step(b, Ensure(false)) == b
  {
    RunSingleFlight(FreshBootstrap, events);
  }

  /** A child that exits is reaped, and then the next call launches another. */
  lemma ExitedIsReplaced(events: seq<Event>)
    requires Run(FreshBootstrap, events).reapers != []
    ensures var gone := Step(Step(Run(FreshBootstrap, events), Exits(0)), Reaps(0));
      && gone.reapers == [] && !gone.running && Alive(Step(gone, Ensure(true)).reapers) == 1
  {
    RunSingleFlight(FreshBootstrap, events);
    var b := Run(FreshBootstrap, events);
    var exited := Step(b, Exits(0));
    assert exited.reapers == [b.reapers[0].(exited := true)];
    var gone := Step(exited, Reaps(0));
    assert gone.reapers == [] && !gone.running;
    var next := Step(gone, Ensure(true));
    assert next.reapers == [Reaper(next.generation, false)] && next.reapers[1..] == [];
  }

  class Launcher {
    var generation: nat
    var running: bool
    var reapers: seq<Reaper>

    ghost function State(): Bootstrap
      reads this
    {
      Bootstrap(generation, running, reapers)
    }

    constructor ()
      ensures State() == FreshBootstrap
    {
      generation, running, reapers := 0, false, [];
    }

    method Ensure(spawns: bool) returns (ok: bool)
      modifies this
      ensures State() == EnsureRunning(old(State()), spawns)
      ensures ok == running == (old(running) || spawns)
    {
      if running {
        return true;
      }
      if !spawns {
        return false;
      }
      generation := if generation < MAX_GENERATION then generation + 1 else generation;
      running, reapers := true, reapers + [Reaper(generation, false)];
      ok := true;
    }

    /** The end of a reaper task. */
    method Reaped(i: nat)
      requires i < |reapers|
      modifies this
      ensures State() == Reap(old(State()), i)
    {
      if generation == reapers[i].generation {
        running := false;
      }
      reapers := reapers[..i] + reapers[i + 1..];
    }
  }
}
