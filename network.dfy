/**
 * The whole network as values: what each node is configured with (the
 * `Net`), what every node holds (the `State`), and the three per-tick phases
 * of factory.cpp as folds over the nodes in collection order. The factory
 * object's methods are proved equal to these functions, and the properties of
 * a tick and of a whole simulation are proved about them.
 */
module Network {
  import opened Types
  import opened Packages
  import opened StorageTypes
  import opened Routing
  import opened Nodes

  datatype RampConfig = RampConfig(id: ElementID, di: TimeOffset, table: seq<Entry>)
  datatype WorkerConfig = WorkerConfig(id: ElementID, pd: TimeOffset, kind: QueueType, table: seq<Entry>)

  /** The nodes in collection order and their routing tables. */
  datatype Net = Net(ramps: seq<RampConfig>, workers: seq<WorkerConfig>, storehouses: seq<ElementID>)

  /** What the nodes hold: each ramp's sending buffer, each worker's state
      and each storehouse's stockpile, in collection order. */
  datatype State = State(rampBuffers: seq<Option<Package>>, workers: seq<WorkerState>, stocks: seq<seq<Package>>)

  /** A state together with the id allocator and the number of draws taken
      from the probability generator so far. */
  datatype World = World(state: State, pool: IdPool, calls: nat)

  predicate Fits(net: Net, s: State) {
    |s.rampBuffers| == |net.ramps| && |s.workers| == |net.workers| && |s.stocks| == |net.storehouses|
  }

  /** `current % di_` is undefined for a zero interval. */
  predicate IntervalsNonZero(net: Net) {
    forall i :: 0 <= i < |net.ramps| ==> net.ramps[i].di != 0
  }

  function WorkerIds(ws: seq<WorkerConfig>): (ids: seq<ElementID>)
    ensures |ids| == |ws|
    ensures forall i :: 0 <= i < |ws| ==> ids[i] == ws[i].id
  {
    seq(|ws|, i requires 0 <= i < |ws| => ws[i].id)
  }

  /** Where `find_by_id` stops among the workers and among the storehouses. */
  function WorkerIndex(net: Net, id: ElementID): nat {
    IndexOfId(WorkerIds(net.workers), id)
  }

  function StorehouseIndex(net: Net, id: ElementID): nat {
    IndexOfId(net.storehouses, id)
  }

  /** The receiver names a node of the network. */
  predicate Exists(net: Net, x: Receiver) {
    if x.kind == WorkerKind then x.id in WorkerIds(net.workers)
    else x.id in net.storehouses
  }

  /** Every routing table names only nodes of the network. In the source a
      table holds pointers, and one that outlives its node dangles. */
  predicate Linked(net: Net) {
    (forall c :: c in net.ramps ==> TableLinked(net, c.table)) &&
    (forall c :: c in net.workers ==> TableLinked(net, c.table))
  }

  predicate TableLinked(net: Net, table: seq<Entry>) {
    forall x :: x in Keys(table) ==> Exists(net, x)
  }

  // ---------------------------------------------------------------------
  // The three phases
  // ---------------------------------------------------------------------

  /** `do_deliveries(t)` after the first `n` ramps. */
  ghost function DeliveriesUpTo(net: Net, w: World, t: Time, n: nat): (r: World)
    requires Fits(net, w.state) && IntervalsNonZero(net) && n <= |net.ramps|
    ensures Fits(net, r.state) && r.calls == w.calls
  {
    if n == 0 then w else DeliverStep(net, DeliveriesUpTo(net, w, t, n - 1), n - 1, t)
  }

  /** Ramp `k`'s `deliver_goods(t)`. */
  ghost function DeliverStep(net: Net, w: World, k: nat, t: Time): (r: World)
    requires Fits(net, w.state) && IntervalsNonZero(net) && k < |net.ramps|
    ensures Fits(net, r.state) && r.calls == w.calls
  {
    var d := Delivered(net.ramps[k].di, w.state.rampBuffers[k], w.pool, t);
    w.(state := w.state.(rampBuffers := w.state.rampBuffers[k := d.0]), pool := d.1)
  }

  /** `receive_package` on the node the handover names, found as
      `find_by_id` finds it. */
  function Receive(net: Net, s: State, h: Handover): (r: State)
    requires Fits(net, s)
    ensures Fits(net, r)
  {
    if h.to.kind == WorkerKind then
      var k := WorkerIndex(net, h.to.id);
      if k < |s.workers| then s.(workers := s.workers[k := s.workers[k].(queue := s.workers[k].queue + [h.package])])
      else s
    else
      var k := StorehouseIndex(net, h.to.id);
      if k < |s.stocks| then s.(stocks := s.stocks[k := s.stocks[k] + [h.package]])
      else s
  }

  /** `do_package_passing()` after the first `n` workers. Each worker
      with a package to send takes the next draw; ramps do not take part. */
  function PassingUpTo(net: Net, w: World, draw: nat -> real, n: nat): (r: World)
    requires Fits(net, w.state) && n <= |net.workers|
    ensures Fits(net, r.state) && r.pool == w.pool
  {
    if n == 0 then w
    else
      var prev := PassingUpTo(net, w, draw, n - 1);
      prev.(state := SendStep(net, prev.state, n - 1, draw(prev.calls)),
            calls := if prev.state.workers[n - 1].buffer.Some? then prev.calls + 1 else prev.calls)
  }

  /** Worker `k`'s `send_package` with the draw `p`, counting the draw when
      one is taken. */
  function PassStep(net: Net, w: World, k: nat, p: real): (r: World)
    requires Fits(net, w.state) && k < |net.workers|
    ensures Fits(net, r.state) && r.pool == w.pool
  {
    w.(state := SendStep(net, w.state, k, p),
       calls := if w.state.workers[k].buffer.Some? then w.calls + 1 else w.calls)
  }

  /** Worker `k`'s `send_package` with the draw `p`: the package leaves the
      buffer and is received where the table sends it. */
  function SendStep(net: Net, s: State, k: nat, p: real): (r: State)
    requires Fits(net, s) && k < |net.workers|
    ensures Fits(net, r)
  {
    var w := s.workers[k];
    var out := SendOutcome(net.workers[k].table, w.buffer, p);
    var s2 := s.(workers := s.workers[k := w.(buffer := out.1)]);
    if out.0.Some? then Receive(net, s2, out.0.value) else s2
  }

  /** `PassStep` spelled out: the buffer is emptied when the table finds a
      receiver, which then receives the package, and a draw is used exactly
      when the buffer held a package. */
  lemma PassStepParts(net: Net, w: World, k: nat, p: real)
    requires Fits(net, w.state) && k < |net.workers|
    ensures var out := SendOutcome(net.workers[k].table, w.state.workers[k].buffer, p);
            var s2 := w.state.(workers := w.state.workers[k := w.state.workers[k].(buffer := out.1)]);
            PassStep(net, w, k, p) ==
              World(if out.0.Some? then Receive(net, s2, out.0.value) else s2, w.pool,
                    if w.state.workers[k].buffer.Some? then w.calls + 1 else w.calls)
  {
  }

  /** `do_work(t)` after the first `n` workers. */
  function WorkingUpTo(net: Net, w: World, t: Time, n: nat): (r: World)
    requires Fits(net, w.state) && n <= |net.workers|
    ensures Fits(net, r.state) && r.calls == w.calls
  {
    if n == 0 then w
    else WorkStep(net, WorkingUpTo(net, w, t, n - 1), n - 1, t)
  }

  /** Worker `k`'s `do_work(t)`. */
  function WorkStep(net: Net, w: World, k: nat, t: Time): (r: World)
    requires Fits(net, w.state) && k < |net.workers|
    ensures Fits(net, r.state) && r.calls == w.calls
  {
    var cfg := net.workers[k];
    var d := Worked(cfg.pd, cfg.kind, w.state.workers[k], w.pool, t);
    w.(state := w.state.(workers := w.state.workers[k := d.0]), pool := d.1)
  }

  /** One turn of `simulate`: deliveries, passing, work. */
  ghost function Tick(net: Net, w: World, t: Time, draw: nat -> real): (r: World)
    requires Fits(net, w.state) && IntervalsNonZero(net)
    ensures Fits(net, r.state)
  {
    var d := DeliveriesUpTo(net, w, t, |net.ramps|);
    var p := PassingUpTo(net, d, draw, |net.workers|);
    WorkingUpTo(net, p, t, |net.workers|)
  }

  /** The turns 1..n of `simulate`. */
  ghost function RunUpTo(net: Net, w: World, n: int, draw: nat -> real): (r: World)
    requires Fits(net, w.state) && IntervalsNonZero(net)
    ensures Fits(net, r.state)
    decreases n
  {
    if n <= 0 then w else Tick(net, RunUpTo(net, w, n - 1, draw), n, draw)
  }

  // One node further: each fold after `m + 1` nodes is one step past the
  // fold after `m`; the factory's loops advance by these.

  lemma DeliveriesNext(net: Net, w: World, t: Time, m: nat, n: nat, prev: World)
    requires Fits(net, w.state) && IntervalsNonZero(net) && n == m + 1 && n <= |net.ramps|
    requires prev == DeliveriesUpTo(net, w, t, m)
    ensures DeliveriesUpTo(net, w, t, n) == DeliverStep(net, prev, m, t)
  {
  }

  lemma PassingNext(net: Net, w: World, draw: nat -> real, m: nat, n: nat, prev: World)
    requires Fits(net, w.state) && n == m + 1 && n <= |net.workers|
    requires prev == PassingUpTo(net, w, draw, m)
    ensures PassingUpTo(net, w, draw, n) == PassStep(net, prev, m, draw(prev.calls))
  {
  }

  lemma WorkingNext(net: Net, w: World, t: Time, m: nat, n: nat, prev: World)
    requires Fits(net, w.state) && n == m + 1 && n <= |net.workers|
    requires prev == WorkingUpTo(net, w, t, m)
    ensures WorkingUpTo(net, w, t, n) == WorkStep(net, prev, m, t)
  {
  }

  // The worlds a fold passes through, one per node. A loop that advances
  // node by node keeps its state equal to one element of such a trace;
  // only the step from one element to the next looks inside the fold.

  ghost predicate DeliveryTraceAt(net: Net, w: World, t: Time, trace: seq<World>, k: nat) {
    Fits(net, w.state) && IntervalsNonZero(net) && k <= |net.ramps| && k < |trace| &&
    trace[k] == DeliveriesUpTo(net, w, t, k)
  }

  ghost predicate DeliveryTrace(net: Net, w: World, t: Time, trace: seq<World>) {
    |trace| == |net.ramps| + 1 &&
    forall k :: 0 <= k <= |net.ramps| ==> DeliveryTraceAt(net, w, t, trace, k)
  }

  lemma DeliveryTraceOf(net: Net, w: World, t: Time) returns (trace: seq<World>)
    requires Fits(net, w.state) && IntervalsNonZero(net)
    ensures DeliveryTrace(net, w, t, trace) && trace[0] == w
  {
    trace := seq(|net.ramps| + 1, k requires 0 <= k <= |net.ramps| => DeliveriesUpTo(net, w, t, k));
  }

  ghost predicate PassingTraceAt(net: Net, w: World, draw: nat -> real, trace: seq<World>, k: nat) {
    Fits(net, w.state) && k <= |net.workers| && k < |trace| &&
    trace[k] == PassingUpTo(net, w, draw, k)
  }

  ghost predicate PassingTrace(net: Net, w: World, draw: nat -> real, trace: seq<World>) {
    |trace| == |net.workers| + 1 &&
    forall k :: 0 <= k <= |net.workers| ==> PassingTraceAt(net, w, draw, trace, k)
  }

  lemma PassingTraceOf(net: Net, w: World, draw: nat -> real) returns (trace: seq<World>)
    requires Fits(net, w.state)
    ensures PassingTrace(net, w, draw, trace) && trace[0] == w
  {
    trace := seq(|net.workers| + 1, k requires 0 <= k <= |net.workers| => PassingUpTo(net, w, draw, k));
  }

  ghost predicate WorkingTraceAt(net: Net, w: World, t: Time, trace: seq<World>, k: nat) {
    Fits(net, w.state) && k <= |net.workers| && k < |trace| &&
    trace[k] == WorkingUpTo(net, w, t, k)
  }

  ghost predicate WorkingTrace(net: Net, w: World, t: Time, trace: seq<World>) {
    |trace| == |net.workers| + 1 &&
    forall k :: 0 <= k <= |net.workers| ==> WorkingTraceAt(net, w, t, trace, k)
  }

  lemma WorkingTraceOf(net: Net, w: World, t: Time) returns (trace: seq<World>)
    requires Fits(net, w.state)
    ensures WorkingTrace(net, w, t, trace) && trace[0] == w
  {
    trace := seq(|net.workers| + 1, k requires 0 <= k <= |net.workers| => WorkingUpTo(net, w, t, k));
  }

  ghost predicate RunTraceAt(net: Net, w: World, draw: nat -> real, trace: seq<World>, k: nat) {
    Fits(net, w.state) && IntervalsNonZero(net) && k < |trace| &&
    trace[k] == RunUpTo(net, w, k, draw)
  }

  ghost predicate RunTrace(net: Net, w: World, n: nat, draw: nat -> real, trace: seq<World>) {
    |trace| == n + 1 &&
    forall k :: 0 <= k <= n ==> RunTraceAt(net, w, draw, trace, k)
  }

  lemma RunTraceOf(net: Net, w: World, n: nat, draw: nat -> real) returns (trace: seq<World>)
    requires Fits(net, w.state) && IntervalsNonZero(net)
    ensures RunTrace(net, w, n, draw, trace) && trace[0] == w
  {
    trace := seq(n + 1, k requires 0 <= k <= n => RunUpTo(net, w, k, draw));
  }

  /** One turn further. */
  lemma RunNext(net: Net, w: World, draw: nat -> real, m: nat, n: nat, prev: World)
    requires Fits(net, w.state) && IntervalsNonZero(net) && n == m + 1
    requires prev == RunUpTo(net, w, m, draw)
    ensures RunUpTo(net, w, n, draw) == Tick(net, prev, n, draw)
  {
  }

  /** The traces of the three phases of one turn at time `t` from `w`, each
      starting where the one before ends. */
  ghost predicate TickTraces(net: Net, w: World, t: Time, draw: nat -> real, d: seq<World>, p: seq<World>, k: seq<World>) {
    DeliveryTrace(net, w, t, d) &&
    PassingTrace(net, d[|net.ramps|], draw, p) &&
    WorkingTrace(net, p[|net.workers|], t, k)
  }

  /** A turn ends where its last phase's trace ends. */
  lemma TickThroughTraces(net: Net, w: World, t: Time, draw: nat -> real, d: seq<World>, p: seq<World>, k: seq<World>)
    requires TickTraces(net, w, t, draw, d, p, k)
    ensures Fits(net, w.state) && IntervalsNonZero(net)
    ensures k[|net.workers|] == Tick(net, w, t, draw)
  {
    assert DeliveryTraceAt(net, w, t, d, |net.ramps|);
    assert PassingTraceAt(net, d[|net.ramps|], draw, p, |net.workers|);
    assert WorkingTraceAt(net, p[|net.workers|], t, k, |net.workers|);
  }

  /** A turn taken from element `m` of the trace of a run reaches element
      `m + 1`. */
  lemma RunStep(net: Net, w: World, n: nat, draw: nat -> real, trace: seq<World>, m: nat, t: nat,
                d: seq<World>, p: seq<World>, k: seq<World>)
    requires RunTrace(net, w, n, draw, trace) && t == m + 1 && t <= n
    requires TickTraces(net, trace[m], t, draw, d, p, k)
    ensures k[|net.workers|] == trace[t]
  {
    assert RunTraceAt(net, w, draw, trace, m);
    assert RunTraceAt(net, w, draw, trace, t);
    TickThroughTraces(net, trace[m], t, draw, d, p, k);
    RunNext(net, w, draw, m, t, trace[m]);
  }

  // ---------------------------------------------------------------------
  // Counting packages
  // ---------------------------------------------------------------------

  /** The packages held by all of `xs`, where `bag` says what one holds. */
  function Total<T>(xs: seq<T>, bag: T -> multiset<Package>): multiset<Package> {
    if xs == [] then multiset{} else Total(xs[..|xs| - 1], bag) + bag(xs[|xs| - 1])
  }

  /** Replacing one element replaces its share of the total. */
  lemma {:induction false} TotalUpdate<T>(xs: seq<T>, k: nat, x: T, bag: T -> multiset<Package>)
    requires k < |xs|
    ensures Total(xs[k := x], bag) + bag(xs[k]) == Total(xs, bag) + bag(x)
    decreases |xs|
  {
    var last := |xs| - 1;
    var ys := xs[k := x];
    assert Total(ys, bag) == Total(ys[..last], bag) + bag(ys[last]);
    assert Total(xs, bag) == Total(xs[..last], bag) + bag(xs[last]);
    if k == last {
      assert ys[..last] == xs[..last];
    } else {
      var front := xs[..last];
      assert ys[..last] == front[k := x];
      assert ys[last] == xs[last];
      assert front[k] == xs[k];
      TotalUpdate(front, k, x, bag);
      var A := Total(front[k := x], bag);
      var B := Total(front, bag);
      assert A + bag(xs[k]) == B + bag(x);
      calc {
        Total(ys, bag) + bag(xs[k]);
        A + bag(xs[last]) + bag(xs[k]);
        B + bag(x) + bag(xs[last]);
        Total(xs, bag) + bag(x);
      }
    }
  }

  lemma Cancel(a: multiset<Package>, b: multiset<Package>, c: multiset<Package>)
    requires a + c == b + c
    ensures a == b
  {
    forall o ensures a[o] == b[o] {
      assert (a + c)[o] == (b + c)[o];
    }
  }

  lemma SubsetTransitive(a: multiset<Package>, b: multiset<Package>, c: multiset<Package>)
    requires a <= b && b <= c
    ensures a <= c
  {
    forall o ensures a[o] <= c[o] {
      assert a[o] <= b[o] <= c[o];
    }
  }

  /** An element that comes to hold `d` more adds `d` to the total. */
  lemma TotalGrows<T>(xs: seq<T>, k: nat, x: T, bag: T -> multiset<Package>, d: multiset<Package>)
    requires k < |xs| && bag(x) == bag(xs[k]) + d
    ensures Total(xs[k := x], bag) == Total(xs, bag) + d
  {
    TotalUpdate(xs, k, x, bag);
    Cancel(Total(xs[k := x], bag), Total(xs, bag) + d, bag(xs[k]));
  }

  /** An element that comes to hold `d` less takes `d` from the total. */
  lemma TotalShrinks<T>(xs: seq<T>, k: nat, x: T, bag: T -> multiset<Package>, d: multiset<Package>)
    requires k < |xs| && bag(x) + d == bag(xs[k])
    ensures Total(xs[k := x], bag) + d == Total(xs, bag)
  {
    TotalUpdate(xs, k, x, bag);
    Cancel(Total(xs[k := x], bag) + d, Total(xs, bag), bag(x));
  }

  function HeldBag(w: WorkerState): multiset<Package> {
    multiset(Held(w))
  }

  function StockBag(q: seq<Package>): multiset<Package> {
    multiset(q)
  }

  /** Every package held by a worker or a storehouse. */
  function Downstream(s: State): multiset<Package> {
    Total(s.workers, HeldBag) + Total(s.stocks, StockBag)
  }

  /** No worker holds a finished package it has not sent. */
  predicate BuffersEmpty(s: State) {
    forall i :: 0 <= i < |s.workers| ==> s.workers[i].buffer.None?
  }

  /** Stockpiles only grow at the back. */
  predicate StocksGrow(a: seq<seq<Package>>, b: seq<seq<Package>>) {
    |a| == |b| && forall i :: 0 <= i < |a| ==> a[i] <= b[i]
  }

  lemma StocksGrowTransitive(a: seq<seq<Package>>, b: seq<seq<Package>>, c: seq<seq<Package>>)
    requires StocksGrow(a, b) && StocksGrow(b, c)
    ensures StocksGrow(a, c)
  {
    forall i | 0 <= i < |a| ensures a[i] <= c[i] {
      assert a[i] <= b[i] && b[i] <= c[i];
    }
  }

  // ---------------------------------------------------------------------
  // Properties of the phases
  // ---------------------------------------------------------------------

  /** Deliveries touch only ramp buffers and the allocator: ramp `i`'s
      buffer is left alone exactly when `t % di` is not 1, and otherwise holds
      a new package. */
  lemma {:induction false} DeliveriesEffect(net: Net, w: World, t: Time, n: nat)
    requires Fits(net, w.state) && IntervalsNonZero(net) && n <= |net.ramps|
    ensures var r := DeliveriesUpTo(net, w, t, n).state;
            r.workers == w.state.workers && r.stocks == w.state.stocks &&
            (forall i :: n <= i < |net.ramps| ==> r.rampBuffers[i] == w.state.rampBuffers[i]) &&
            (forall i :: 0 <= i < n && CppRem(t, net.ramps[i].di) != 1 ==> r.rampBuffers[i] == w.state.rampBuffers[i]) &&
            (forall i :: 0 <= i < n && CppRem(t, net.ramps[i].di) == 1 ==> r.rampBuffers[i].Some?)
  {
    if n > 0 {
      var m := n - 1;
      DeliveriesEffect(net, w, t, m);
    }
  }

  /** Passing leaves ramp buffers alone, so a ramp's package is never sent,
      stockpiles only grow, and each worker takes at most one draw. */
  lemma {:induction false} PassingKeepsRampsAndGrowsStocks(net: Net, w: World, draw: nat -> real, n: nat)
    requires Fits(net, w.state) && n <= |net.workers|
    ensures PassingUpTo(net, w, draw, n).state.rampBuffers == w.state.rampBuffers
    ensures StocksGrow(w.state.stocks, PassingUpTo(net, w, draw, n).state.stocks)
    ensures w.calls <= PassingUpTo(net, w, draw, n).calls <= w.calls + n
  {
    if n > 0 {
      var m := n - 1;
      PassingKeepsRampsAndGrowsStocks(net, w, draw, m);
      var prev := PassingUpTo(net, w, draw, m).state;
      var r := PassingUpTo(net, w, draw, n).state;
      assert StocksGrow(prev.stocks, r.stocks);
      StocksGrowTransitive(w.state.stocks, prev.stocks, r.stocks);
    }
  }

  /** On a linked network a handover adds its package downstream. */
  lemma ReceiveAdds(net: Net, s: State, h: Handover)
    requires Fits(net, s) && Exists(net, h.to)
    ensures Downstream(Receive(net, s, h)) == Downstream(s) + multiset{h.package}
    ensures Receive(net, s, h).rampBuffers == s.rampBuffers
  {
    if h.to.kind == WorkerKind {
      var k := WorkerIndex(net, h.to.id);
      QueueJoin(s, k, h.package);
    } else {
      var k := StorehouseIndex(net, h.to.id);
      assert k < |s.stocks|;
      StockJoin(s, k, h.package);
    }
  }

  /** A package joining worker `k`'s queue joins what is held downstream. */
  lemma QueueJoin(s: State, k: nat, p: Package)
    requires k < |s.workers|
    ensures var w := s.workers[k];
            Downstream(s.(workers := s.workers[k := w.(queue := w.queue + [p])])) == Downstream(s) + multiset{p}
  {
    var w := s.workers[k];
    var w' := w.(queue := w.queue + [p]);
    assert HeldBag(w') == HeldBag(w) + multiset{p} by {
      assert Held(w') == w.queue + [p] + Slot(w.processing) + Slot(w.buffer);
    }
    TotalGrows(s.workers, k, w', HeldBag, multiset{p});
  }

  /** A package joining stockpile `k` joins what is held downstream. */
  lemma StockJoin(s: State, k: nat, p: Package)
    requires k < |s.stocks|
    ensures Downstream(s.(stocks := s.stocks[k := s.stocks[k] + [p]])) == Downstream(s) + multiset{p}
  {
    var q := s.stocks[k];
    assert StockBag(q + [p]) == StockBag(q) + multiset{p};
    TotalGrows(s.stocks, k, q + [p], StockBag, multiset{p});
  }

  /** Replacing a worker's state by one holding the same packages, or
      fewer, keeps or shrinks what is held downstream. */
  lemma WorkerSwap(s: State, k: nat, x: WorkerState)
    requires k < |s.workers| && HeldBag(x) <= HeldBag(s.workers[k])
    ensures Downstream(s.(workers := s.workers[k := x])) <= Downstream(s)
    ensures HeldBag(x) == HeldBag(s.workers[k]) ==> Downstream(s.(workers := s.workers[k := x])) == Downstream(s)
  {
    var d := HeldBag(s.workers[k]) - HeldBag(x);
    assert HeldBag(x) + d == HeldBag(s.workers[k]);
    TotalShrinks(s.workers, k, x, HeldBag, d);
  }

  /** A worker whose buffer gives up a package `h` names, which then reaches
      an existing node, leaves the downstream total as it was. */
  lemma HandoverConserves(net: Net, s: State, k: nat, h: Option<Handover>, b: Option<Package>)
    requires Fits(net, s) && k < |net.workers|
    requires h.None? ==> b == s.workers[k].buffer
    requires h.Some? ==> b.None? && s.workers[k].buffer == Some(h.value.package) && Exists(net, h.value.to)
    ensures var s2 := s.(workers := s.workers[k := s.workers[k].(buffer := b)]);
            Downstream(if h.Some? then Receive(net, s2, h.value) else s2) == Downstream(s)
  {
    var s2 := s.(workers := s.workers[k := s.workers[k].(buffer := b)]);
    if h.Some? {
      BufferEmptied(s, k, h.value.package);
      ReceiveAdds(net, s2, h.value);
    } else {
      assert s2.workers == s.workers;
    }
  }

  /** Emptying a worker's buffer takes its package out of the total. */
  lemma BufferEmptied(s: State, k: nat, p: Package)
    requires k < |s.workers| && s.workers[k].buffer == Some(p)
    ensures Downstream(s.(workers := s.workers[k := s.workers[k].(buffer := None)])) + multiset{p} == Downstream(s)
  {
    var w := s.workers[k];
    var w2 := w.(buffer := None);
    assert HeldBag(w2) + multiset{p} == HeldBag(w) by {
      assert Held(w) == w.queue + Slot(w.processing) + [p];
      assert Held(w2) == w.queue + Slot(w.processing) + [];
    }
    TotalShrinks(s.workers, k, w2, HeldBag, multiset{p});
  }

  /** One worker's `send_package` on a linked network moves its package,
      if it sends one, from its buffer to a worker or a storehouse, whatever
      the draw. */
  lemma SendStepConserves(net: Net, s: State, k: nat, r: State)
    requires Fits(net, s) && Linked(net) && k < |net.workers|
    requires exists p :: r == SendStep(net, s, k, p)
    ensures Downstream(r) == Downstream(s)
  {
    var p :| r == SendStep(net, s, k, p);
    var table := net.workers[k].table;
    var buffer := s.workers[k].buffer;
    var out := SendOutcome(table, buffer, p);
    SendEffect(table, buffer, p);
    if out.0.Some? {
      var to := out.0.value.to;
      assert to == Choose(table, p).value;
      assert Exists(net, to) by {
        ChooseNothing(table, p);
        assert net.workers[k] in net.workers;
      }
    }
    HandoverConserves(net, s, k, out.0, out.1);
  }

  /** On a linked network passing loses no package and makes none: every
      package a worker sends arrives at a worker or a storehouse. */
  lemma {:induction false} PassingConserves(net: Net, w: World, draw: nat -> real, n: nat)
    requires Fits(net, w.state) && Linked(net) && n <= |net.workers|
    ensures Downstream(PassingUpTo(net, w, draw, n).state) == Downstream(w.state)
    decreases n
  {
    if n > 0 {
      var m := n - 1;
      var prev := PassingUpTo(net, w, draw, m);
      PassingConserves(net, w, draw, m);
      SendStepConserves(net, prev.state, m, PassingUpTo(net, w, draw, n).state);
    }
  }

  /** One worker's `do_work` touches only that worker and loses at most
      the package it overwrites, and none while its buffer is empty. */
  lemma WorkStepEffect(net: Net, w: World, k: nat, t: Time, r: State)
    requires Fits(net, w.state) && k < |net.workers| && r == WorkStep(net, w, k, t).state
    ensures r.rampBuffers == w.state.rampBuffers && r.stocks == w.state.stocks
    ensures forall i :: 0 <= i < |r.workers| && i != k ==> r.workers[i] == w.state.workers[i]
    ensures Downstream(r) <= Downstream(w.state)
    ensures w.state.workers[k].buffer.None? ==> Downstream(r) == Downstream(w.state)
  {
    var cfg := net.workers[k];
    var old_ := w.state.workers[k];
    var x := Worked(cfg.pd, cfg.kind, old_, w.pool, t).0;
    assert HeldBag(x) <= HeldBag(old_) && (old_.buffer.None? ==> HeldBag(x) == HeldBag(old_)) by {
      WorkConserves(cfg.pd, cfg.kind, old_, w.pool, t);
    }
    WorkerSwap(w.state, k, x);
  }

  /** Working leaves ramp buffers and stockpiles alone, and workers after
      the first `n` too. */
  lemma {:induction false} WorkingKeepsOthers(net: Net, w: World, t: Time, n: nat)
    requires Fits(net, w.state) && n <= |net.workers|
    ensures WorkingUpTo(net, w, t, n).state.rampBuffers == w.state.rampBuffers
    ensures WorkingUpTo(net, w, t, n).state.stocks == w.state.stocks
    ensures forall i :: n <= i < |net.workers| ==> WorkingUpTo(net, w, t, n).state.workers[i] == w.state.workers[i]
    decreases n
  {
    if n > 0 {
      var m := n - 1;
      WorkingKeepsOthers(net, w, t, m);
      WorkStepEffect(net, WorkingUpTo(net, w, t, m), m, t, WorkingUpTo(net, w, t, n).state);
    }
  }

  /** Working makes no package: what the workers and storehouses hold
      afterwards was held before. */
  lemma {:induction false} WorkingLoses(net: Net, w: World, t: Time, n: nat)
    requires Fits(net, w.state) && n <= |net.workers|
    ensures Downstream(WorkingUpTo(net, w, t, n).state) <= Downstream(w.state)
    decreases n
  {
    if n > 0 {
      var m := n - 1;
      var prev := WorkingUpTo(net, w, t, m).state;
      var cur := WorkingUpTo(net, w, t, n).state;
      WorkingLoses(net, w, t, m);
      WorkingStep(net, w, t, m, n);
      SubsetTransitive(Downstream(cur), Downstream(prev), Downstream(w.state));
    }
  }

  /** A package is lost only when a finished one overwrites an unsent one,
      so none is lost while every buffer is empty. */
  lemma {:induction false} WorkingConserves(net: Net, w: World, t: Time, n: nat)
    requires Fits(net, w.state) && n <= |net.workers| && BuffersEmpty(w.state)
    ensures Downstream(WorkingUpTo(net, w, t, n).state) == Downstream(w.state)
    decreases n
  {
    if n > 0 {
      var m := n - 1;
      assert WorkingUpTo(net, w, t, m).state.workers[m].buffer.None? by {
        WorkingKeepsOthers(net, w, t, m);
      }
      WorkingConserves(net, w, t, m);
      WorkingStep(net, w, t, m, n);
    }
  }

  /** Worker `m`'s `do_work` keeps or shrinks what the workers before it
      left downstream. */
  lemma WorkingStep(net: Net, w: World, t: Time, m: nat, n: nat)
    requires Fits(net, w.state) && n == m + 1 && n <= |net.workers|
    ensures Downstream(WorkingUpTo(net, w, t, n).state) <= Downstream(WorkingUpTo(net, w, t, m).state)
    ensures WorkingUpTo(net, w, t, m).state.workers[m].buffer.None? ==>
              Downstream(WorkingUpTo(net, w, t, n).state) == Downstream(WorkingUpTo(net, w, t, m).state)
  {
    WorkStepEffect(net, WorkingUpTo(net, w, t, m), m, t, WorkingUpTo(net, w, t, n).state);
  }

  /** A tick never takes a package out of a stockpile. */
  lemma TickGrowsStocks(net: Net, w: World, t: Time, draw: nat -> real)
    requires Fits(net, w.state) && IntervalsNonZero(net)
    ensures StocksGrow(w.state.stocks, Tick(net, w, t, draw).state.stocks)
  {
    var d := DeliveriesUpTo(net, w, t, |net.ramps|);
    DeliveriesEffect(net, w, t, |net.ramps|);
    var p := PassingUpTo(net, d, draw, |net.workers|);
    PassingKeepsRampsAndGrowsStocks(net, d, draw, |net.workers|);
    WorkingKeepsOthers(net, p, t, |net.workers|);
  }

  /** Over a whole simulation stockpiles only grow: a storehouse keeps every
      package it received, in the order received. */
  lemma {:induction false} RunGrowsStocks(net: Net, w: World, n: int, draw: nat -> real)
    requires Fits(net, w.state) && IntervalsNonZero(net)
    ensures StocksGrow(w.state.stocks, RunUpTo(net, w, n, draw).state.stocks)
    decreases n
  {
    if n <= 0 {
      assert StocksGrow(w.state.stocks, w.state.stocks);
    } else {
      var m := n - 1;
      RunGrowsStocks(net, w, m, draw);
      var prev := RunUpTo(net, w, m, draw);
      TickGrowsStocks(net, prev, n, draw);
      StocksGrowTransitive(w.state.stocks, prev.state.stocks, RunUpTo(net, w, n, draw).state.stocks);
    }
  }

  /** A tick takes at most one draw per worker, and none for a ramp. */
  lemma TickDraws(net: Net, w: World, t: Time, draw: nat -> real)
    requires Fits(net, w.state) && IntervalsNonZero(net)
    ensures w.calls <= Tick(net, w, t, draw).calls <= w.calls + |net.workers|
  {
    var d := DeliveriesUpTo(net, w, t, |net.ramps|);
    PassingKeepsRampsAndGrowsStocks(net, d, draw, |net.workers|);
  }

  // ---------------------------------------------------------------------
  // Removing a receiver
  // ---------------------------------------------------------------------

  /** `std::list::erase` at position `k`, or nothing at the end iterator. */
  function RemoveFirst<T>(s: seq<T>, k: nat): (r: seq<T>)
    ensures k >= |s| ==> r == s
    ensures k < |s| ==> |r| == |s| - 1
    ensures forall y :: y in r ==> y in s
  {
    if k < |s| then s[..k] + s[k + 1..] else s
  }

  /** The tables after every ramp and worker forgot `x`. */
  function Purged(net: Net, x: Receiver): (r: Net)
    ensures |r.ramps| == |net.ramps| && |r.workers| == |net.workers| && r.storehouses == net.storehouses
    ensures forall i :: 0 <= i < |net.ramps| ==>
              r.ramps[i] == net.ramps[i].(table := Removed(net.ramps[i].table, x))
    ensures forall i :: 0 <= i < |net.workers| ==>
              r.workers[i] == net.workers[i].(table := Removed(net.workers[i].table, x))
  {
    Net(seq(|net.ramps|, i requires 0 <= i < |net.ramps| =>
          net.ramps[i].(table := Removed(net.ramps[i].table, x))),
        seq(|net.workers|, i requires 0 <= i < |net.workers| =>
          net.workers[i].(table := Removed(net.workers[i].table, x))),
        net.storehouses)
  }

  /** `Factory::remove_receiver`: the receiver leaves every ramp's and every
      worker's table, then the first node with its id leaves its collection. */
  function WithoutReceiver(net: Net, x: Receiver): Net {
    var p := Purged(net, x);
    if x.kind == WorkerKind then
      p.(workers := RemoveFirst(p.workers, WorkerIndex(net, x.id)))
    else
      p.(storehouses := RemoveFirst(p.storehouses, StorehouseIndex(net, x.id)))
  }

  /** What the nodes hold once the receiver's node has left its
      collection; the packages it held leave with it. */
  function StateWithoutReceiver(net: Net, s: State, x: Receiver): State {
    if x.kind == WorkerKind then s.(workers := RemoveFirst(s.workers, WorkerIndex(net, x.id)))
    else s.(stocks := RemoveFirst(s.stocks, StorehouseIndex(net, x.id)))
  }

  /** The packages that leave with the removed node and are destroyed:
      everything the worker holds, or the storehouse's stockpile; none when
      no node has the id. */
  function Dropped(net: Net, s: State, x: Receiver): seq<Package> {
    if x.kind == WorkerKind then
      var k := WorkerIndex(net, x.id);
      if k < |s.workers| then Held(s.workers[k]) else []
    else
      var k := StorehouseIndex(net, x.id);
      if k < |s.stocks| then s.stocks[k] else []
  }

  /** Erasing one element takes its share out of the total. */
  lemma {:induction false} TotalRemoveFirst<T>(xs: seq<T>, k: nat, bag: T -> multiset<Package>)
    requires k < |xs|
    ensures Total(RemoveFirst(xs, k), bag) + bag(xs[k]) == Total(xs, bag)
    decreases |xs|
  {
    var last := |xs| - 1;
    assert Total(xs, bag) == Total(xs[..last], bag) + bag(xs[last]);
    if k == last {
      assert RemoveFirst(xs, k) == xs[..last];
    } else {
      var front := xs[..last];
      var r := RemoveFirst(front, k);
      assert RemoveFirst(xs, k) == r + [xs[last]];
      assert (r + [xs[last]])[..|r|] == r;
      assert Total(RemoveFirst(xs, k), bag) == Total(r, bag) + bag(xs[last]);
      assert front[k] == xs[k];
      TotalRemoveFirst(front, k, bag);
    }
  }

  /** Removing a receiver's node loses exactly the packages it held: what
      the remaining workers and storehouses hold, plus `Dropped`, is what
      all of them held before. */
  lemma RemovalDrops(net: Net, s: State, x: Receiver)
    ensures Downstream(StateWithoutReceiver(net, s, x)) + multiset(Dropped(net, s, x)) == Downstream(s)
  {
    if x.kind == WorkerKind {
      var k := WorkerIndex(net, x.id);
      if k < |s.workers| {
        TotalRemoveFirst(s.workers, k, HeldBag);
      }
    } else {
      var k := StorehouseIndex(net, x.id);
      if k < |s.stocks| {
        TotalRemoveFirst(s.stocks, k, StockBag);
      }
    }
  }

  /** Removal takes the node's configuration and its state out together. */
  lemma RemovalFits(net: Net, s: State, x: Receiver)
    requires Fits(net, s)
    ensures Fits(WithoutReceiver(net, x), StateWithoutReceiver(net, s, x))
  {
  }

  /** All routing tables keep their keys sorted. */
  predicate TablesSorted(net: Net) {
    (forall c :: c in net.ramps ==> Sorted(c.table)) &&
    (forall c :: c in net.workers ==> Sorted(c.table))
  }

  /** Some ramp's or worker's table names `x`. */
  predicate References(net: Net, x: Receiver) {
    (exists c :: c in net.ramps && x in Keys(c.table)) ||
    (exists c :: c in net.workers && x in Keys(c.table))
  }

  lemma RemoveFirstKeeps<T>(s: seq<T>, k: nat, y: T)
    requires y in s && (k < |s| ==> s[k] != y)
    ensures y in RemoveFirst(s, k)
  {
    var j :| 0 <= j < |s| && s[j] == y;
    if k < |s| {
      if j < k {
        assert RemoveFirst(s, k)[j] == y;
      } else {
        assert RemoveFirst(s, k)[j - 1] == y;
      }
    }
  }

  lemma IdsAfterRemoval(ws: seq<WorkerConfig>, k: nat)
    ensures WorkerIds(RemoveFirst(ws, k)) == RemoveFirst(WorkerIds(ws), k)
  {
  }

  /** A node other than the one removed is still found afterwards. */
  lemma OthersStillExist(net: Net, x: Receiver, y: Receiver)
    requires Exists(net, y) && y != x
    ensures Exists(WithoutReceiver(net, x), y)
  {
    var p := Purged(net, x);
    assert WorkerIds(p.workers) == WorkerIds(net.workers);
    if y.kind == WorkerKind && x.kind == WorkerKind {
      var k := WorkerIndex(net, x.id);
      IdsAfterRemoval(p.workers, k);
      RemoveFirstKeeps(WorkerIds(p.workers), k, y.id);
    } else if y.kind == StorehouseKind && x.kind == StorehouseKind {
      RemoveFirstKeeps(net.storehouses, StorehouseIndex(net, x.id), y.id);
    }
  }

  /** What removal leaves of one table. */
  lemma PurgedTable(table: seq<Entry>, x: Receiver)
    requires Sorted(table)
    ensures Sorted(Removed(table, x))
    ensures forall y :: y in Keys(Removed(table, x)) ==> y != x && y in Keys(table)
  {
    RemoveReceiverEffect(table, x);
  }

  /** The tables after removal are the purged tables of the surviving nodes. */
  lemma PurgedRamps(net: Net, x: Receiver)
    requires TablesSorted(net)
    ensures forall c :: c in WithoutReceiver(net, x).ramps ==>
              Sorted(c.table) && forall y :: y in Keys(c.table) ==> y != x && References(net, y)
  {
    var p := Purged(net, x);
    assert WithoutReceiver(net, x).ramps == p.ramps;
    forall c | c in p.ramps
      ensures Sorted(c.table) && forall y :: y in Keys(c.table) ==> y != x && References(net, y)
    {
      var i :| 0 <= i < |p.ramps| && p.ramps[i] == c;
      var orig := net.ramps[i];
      assert orig in net.ramps;
      PurgedTable(orig.table, x);
    }
  }

  lemma PurgedWorkers(net: Net, x: Receiver)
    requires TablesSorted(net)
    ensures forall c :: c in WithoutReceiver(net, x).workers ==>
              Sorted(c.table) && forall y :: y in Keys(c.table) ==> y != x && References(net, y)
  {
    var p := Purged(net, x);
    forall c | c in WithoutReceiver(net, x).workers
      ensures Sorted(c.table) && forall y :: y in Keys(c.table) ==> y != x && References(net, y)
    {
      assert c in p.workers;
      var i :| 0 <= i < |p.workers| && p.workers[i] == c;
      var orig := net.workers[i];
      assert orig in net.workers;
      PurgedTable(orig.table, x);
    }
  }

  /** On a linked network every receiver a table names exists. */
  lemma LinkedReferences(net: Net, y: Receiver)
    requires Linked(net) && References(net, y)
    ensures Exists(net, y)
  {
    if c :| c in net.ramps && y in Keys(c.table) {
      assert TableLinked(net, c.table);
    } else {
      var c :| c in net.workers && y in Keys(c.table);
      assert TableLinked(net, c.table);
    }
  }

  /** After `remove_receiver` no table names the removed receiver, every
      table is still sorted, and a linked network stays linked. */
  lemma RemovalPurges(net: Net, x: Receiver)
    requires TablesSorted(net)
    ensures !References(WithoutReceiver(net, x), x)
    ensures TablesSorted(WithoutReceiver(net, x))
    ensures Linked(net) ==> Linked(WithoutReceiver(net, x))
  {
    var r := WithoutReceiver(net, x);
    PurgedRamps(net, x);
    PurgedWorkers(net, x);
    if Linked(net) {
      forall c, y | c in r.ramps && y in Keys(c.table)
        ensures Exists(r, y)
      {
        LinkedReferences(net, y);
        OthersStillExist(net, x, y);
      }
      forall c, y | c in r.workers && y in Keys(c.table)
        ensures Exists(r, y)
      {
        LinkedReferences(net, y);
        OthersStillExist(net, x, y);
      }
    }
  }
}
