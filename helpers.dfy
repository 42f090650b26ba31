/**
 * The simulation driver and the report notifiers (helpers.cpp).
 *
 * `Simulate` refuses an inconsistent factory before touching it, and
 * otherwise runs the turns 1..duration in order, each turn being the three
 * phases of the factory followed by the report callback. It is proved to
 * leave the factory in the state `Network.RunUpTo` computes. The callback is
 * modelled by the list of turns it is called with.
 */
module Helpers {
  import opened Types
  import opened Packages
  import opened Routing
  import opened Network
  import opened Factories
  import Consistency

  // ---------------------------------------------------------------------
  // Report notifiers
  // ---------------------------------------------------------------------

  /** `SpecificTurnsReportNotifier::should_generate_report`. */
  predicate SpecificTurnsShouldReport(turns: set<Time>, t: Time): (report: bool)
    ensures report <==> t in turns
  {
    t in turns
  }

  /** `IntervalReportNotifier::should_generate_report`: the C++ remainder of
      `t - 1` by the interval is zero, that is, |interval| divides `t - 1`,
      for turns before the first as well. */
  predicate IntervalShouldReport(interval: TimeOffset, t: Time): (report: bool)
    requires interval != 0
    ensures report <==> (t - 1) % Abs(interval) == 0
  {
    CppRemZeroIffDivisible(t - 1, interval);
    CppRem(t - 1, interval) == 0
  }

  /** From the first turn on, an interval notifier reports at turn 1 and then
      every |interval| turns: exactly at the turns 1 + j * |interval|. */
  lemma IntervalReportsAt(interval: TimeOffset, t: Time)
    requires interval != 0 && t >= 1
    ensures IntervalShouldReport(interval, t) <==> exists j: nat :: t == 1 + j * Abs(interval)
  {
    var m := Abs(interval);
    CppRemZeroIffDivisible(t - 1, interval);
    if (t - 1) % m == 0 {
      var j: nat := (t - 1) / m;
      assert t == 1 + j * m;
    }
    if j: nat :| t == 1 + j * m {
      MultipleModZero(j, m);
    }
  }

  /** The pattern repeats with the period |interval|. */
  lemma IntervalPeriodic(interval: TimeOffset, t: Time)
    requires interval != 0 && t >= 1
    ensures IntervalShouldReport(interval, t + Abs(interval)) == IntervalShouldReport(interval, t)
  {
    var m := Abs(interval);
    IntervalReportsAt(interval, t);
    IntervalReportsAt(interval, t + m);
    if j: nat :| t + m == 1 + j * m {
      var i := j - 1;
      assert t == 1 + i * m;
      MultipleBounds(i, m);
      assert i >= 0;
    }
    if j: nat :| t == 1 + j * m {
      assert t + m == 1 + (j + 1) * m;
    }
  }

  /** An interval of 1 reports every turn; any interval reports turn 1. */
  lemma IntervalOneEveryTurn(t: Time)
    ensures IntervalShouldReport(1, t) && IntervalShouldReport(-1, t)
  {
    CppRemZeroIffDivisible(t - 1, 1);
    CppRemZeroIffDivisible(t - 1, -1);
  }

  lemma IntervalFirstTurn(interval: TimeOffset)
    requires interval != 0
    ensures IntervalShouldReport(interval, 1)
  {
  }

  // ---------------------------------------------------------------------
  // simulate
  // ---------------------------------------------------------------------

  /** The turns 1..n in ascending order; none when n <= 0. */
  function Turns(n: int): (r: seq<Time>)
    ensures |r| == if n <= 0 then 0 else n
    ensures forall i :: 0 <= i < |r| ==> r[i] == i + 1
    decreases n
  {
    if n <= 0 then [] else Turns(n - 1) + [n]
  }

  /** The turns of a simulation of `duration` turns at which a notifier for
      `turns` asks for a report are the chosen turns within 1..duration. */
  lemma SpecificTurnsReported(turns: set<Time>, duration: int)
    ensures (set t | t in Turns(duration) && SpecificTurnsShouldReport(turns, t)) ==
            (set t | t in turns && 1 <= t <= duration)
  {
    forall t | t in turns && 1 <= t <= duration
      ensures t in Turns(duration)
    {
      assert Turns(duration)[t - 1] == t;
    }
  }

  /** After `n` turns the factory, the id allocator and the generator are
      at element `n` of the trace of the whole run. */
  ghost predicate Running(factory: Factory, net: Net, trace: seq<World>, n: nat, alloc: IdAllocator, gen: ProbabilityGenerator)
    reads factory, factory.ramps, factory.workers, factory.storehouses, alloc, gen
    reads Prefs(RampSenders(factory.ramps.nodes)), Prefs(WorkerSenders(factory.workers.nodes))
    reads RampSenders(factory.ramps.nodes), factory.workers.nodes
    reads WorkerQueues(factory.workers.nodes), WorkerSenders(factory.workers.nodes)
    reads Stocks(factory.storehouses.nodes)
  {
    factory.Valid() && factory.Net() == net && n < |trace| &&
    factory.State() == trace[n].state && alloc.Pool() == trace[n].pool && gen.calls == trace[n].calls
  }

  /** One turn: the three phases at time `t`. */
  method TickAt(factory: Factory, t: Time, alloc: IdAllocator, gen: ProbabilityGenerator, ghost net: Net, ghost cur: World)
      returns (ghost d: seq<World>, ghost p: seq<World>, ghost k: seq<World>)
    requires factory.Valid() && factory.Net() == net && IntervalsNonZero(net) && Linked(net)
    requires factory.State() == cur.state && alloc.Pool() == cur.pool && gen.calls == cur.calls
    modifies RampSenders(factory.ramps.nodes), factory.workers.nodes
    modifies WorkerQueues(factory.workers.nodes), WorkerSenders(factory.workers.nodes)
    modifies Stocks(factory.storehouses.nodes), alloc, gen
    ensures factory.Valid() && factory.Net() == net
    ensures TickTraces(net, cur, t, gen.draw, d, p, k)
    ensures World(factory.State(), alloc.Pool(), gen.calls) == k[|net.workers|]
  {
    d := factory.DoDeliveries(t, alloc, gen.calls);
    p := factory.DoPackagePassing(gen, alloc.Pool());
    k := factory.DoWork(t, alloc, gen.calls);
  }

  /** One more turn of the run. */
  method AdvanceRun(factory: Factory, t: Time, alloc: IdAllocator, gen: ProbabilityGenerator,
                    ghost net: Net, ghost w0: World, ghost n: nat, ghost trace: seq<World>)
    requires 1 <= t <= n && RunTrace(net, w0, n, gen.draw, trace) && Running(factory, net, trace, t - 1, alloc, gen)
    requires IntervalsNonZero(net) && Linked(net)
    modifies RampSenders(factory.ramps.nodes), factory.workers.nodes
    modifies WorkerQueues(factory.workers.nodes), WorkerSenders(factory.workers.nodes)
    modifies Stocks(factory.storehouses.nodes), alloc, gen
    ensures Running(factory, net, trace, t, alloc, gen)
  {
    var m: nat := t - 1;
    var d, p, k := TickAt(factory, t, alloc, gen, net, trace[m]);
    RunStep(net, w0, n, gen.draw, trace, m, t, d, p, k);
  }

  /** The turns 1..duration of a consistent factory, in order; the returned
      sequence is what the per-turn callback is handed. */
  method RunTurns(factory: Factory, duration: TimeOffset, alloc: IdAllocator, gen: ProbabilityGenerator)
      returns (ticks: seq<Time>)
    requires factory.Valid() && IntervalsNonZero(factory.Net()) && Linked(factory.Net())
    modifies RampSenders(factory.ramps.nodes), factory.workers.nodes
    modifies WorkerQueues(factory.workers.nodes), WorkerSenders(factory.workers.nodes)
    modifies Stocks(factory.storehouses.nodes), alloc, gen
    ensures ticks == Turns(duration)
    ensures factory.Valid() && factory.Net() == old(factory.Net())
    ensures World(factory.State(), alloc.Pool(), gen.calls) ==
            RunUpTo(old(factory.Net()), World(old(factory.State()), old(alloc.Pool()), old(gen.calls)), duration, gen.draw)
  {
    ghost var net := factory.Net();
    ghost var w0 := World(factory.State(), alloc.Pool(), gen.calls);
    ghost var n: nat := if duration <= 0 then 0 else duration;
    ghost var trace := RunTraceOf(net, w0, n, gen.draw);
    ticks := RunLoop(factory, duration, alloc, gen, net, w0, n, trace);
    assert Turns(n) == Turns(duration);
    assert RunTraceAt(net, w0, gen.draw, trace, n);
  }

  /** The loop of `simulate` over the turns 1..duration, each one advancing
      the run by one element of its trace. */
  method RunLoop(factory: Factory, duration: TimeOffset, alloc: IdAllocator, gen: ProbabilityGenerator,
                 ghost net: Net, ghost w0: World, ghost n: nat, ghost trace: seq<World>)
      returns (ticks: seq<Time>)
    requires n == (if duration <= 0 then 0 else duration)
    requires RunTrace(net, w0, n, gen.draw, trace) && Running(factory, net, trace, 0, alloc, gen)
    requires IntervalsNonZero(net) && Linked(net)
    modifies RampSenders(factory.ramps.nodes), factory.workers.nodes
    modifies WorkerQueues(factory.workers.nodes), WorkerSenders(factory.workers.nodes)
    modifies Stocks(factory.storehouses.nodes), alloc, gen
    ensures Running(factory, net, trace, n, alloc, gen) && ticks == Turns(n)
  {
    ticks := [];
    var t := 1;
    while t <= duration
      invariant 1 <= t <= n + 1
      invariant Running(factory, net, trace, t - 1, alloc, gen) && ticks == Turns(t - 1)
    {
      AdvanceRun(factory, t, alloc, gen, net, w0, n, trace);
      ticks := ticks + [t];
      t := t + 1;
    }
  }

  /** `simulate`: an inconsistent factory is refused with the message of the
      `logic_error` the source throws, before any turn; otherwise the turns
      1..duration run in order and the callback sees each of them once. */
  method Simulate(factory: Factory, duration: TimeOffset, alloc: IdAllocator, gen: ProbabilityGenerator)
      returns (r: Result<seq<Time>>)
    requires factory.Valid() && Linked(factory.Net()) && IntervalsNonZero(factory.Net())
    modifies RampSenders(factory.ramps.nodes), factory.workers.nodes
    modifies WorkerQueues(factory.workers.nodes), WorkerSenders(factory.workers.nodes)
    modifies Stocks(factory.storehouses.nodes), alloc, gen
    ensures r.Err? <==> !Consistency.Consistent(old(factory.Net()))
    ensures r.Err? ==> r.msg == "Factory network is inconsistent" &&
                       factory.State() == old(factory.State()) && alloc.Pool() == old(alloc.Pool()) && gen.calls == old(gen.calls)
    ensures r.Ok? ==> r.value == Turns(duration)
    ensures factory.Valid() && factory.Net() == old(factory.Net())
    ensures r.Ok? ==> World(factory.State(), alloc.Pool(), gen.calls) ==
                      RunUpTo(old(factory.Net()), World(old(factory.State()), old(alloc.Pool()), old(gen.calls)), duration, gen.draw)
  {
    var ok := factory.IsConsistent();
    if !ok {
      return Err("Factory network is inconsistent");
    }
    var ticks := RunTurns(factory, duration, alloc, gen);
    return Ok(ticks);
  }
}
