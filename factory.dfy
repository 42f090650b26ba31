/**
 * The factory (factory.hxx, factory.cpp): three node collections and the
 * operations over them. Each phase of a turn walks its collection in order
 * and is proved to leave the nodes in the state the matching fold of
 * `Network` computes from the state before; the consistency check is proved
 * to answer `Consistency.Consistent` for the network the collections form.
 */
module Factories {
  import opened Types
  import opened Packages
  import opened StorageTypes
  import opened Routing
  import opened Nodes
  import opened Network
  import Consistency

  /** `NodeCollection<Node>`: the nodes of one kind in insertion order;
      `idOf` reads a node's id as `get_id` does. */
  class NodeCollection<T> {
    var nodes: seq<T>
    const idOf: T -> ElementID

    constructor(idOf: T -> ElementID)
      ensures nodes == [] && this.idOf == idOf
    {
      nodes := [];
      this.idOf := idOf;
    }

    function Ids(): (ids: seq<ElementID>)
      reads this
      ensures |ids| == |nodes|
      ensures forall i :: 0 <= i < |nodes| ==> ids[i] == idOf(nodes[i])
    {
      seq(|nodes|, i requires 0 <= i < |nodes| reads this => idOf(nodes[i]))
    }

    /** `add`: the node goes to the back. */
    method Add(node: T)
      modifies this
      ensures nodes == old(nodes) + [node]
    {
      nodes := nodes + [node];
    }

    /** `find_by_id`: the position of the first node with the id, or the
        end position when there is none. */
    method FindById(id: ElementID) returns (k: nat)
      ensures k <= |nodes|
      ensures k < |nodes| ==> idOf(nodes[k]) == id
      ensures forall j :: 0 <= j < k ==> idOf(nodes[j]) != id
      ensures k == IndexOfId(Ids(), id)
    {
      k := 0;
      while k < |nodes| && idOf(nodes[k]) != id
        invariant k <= |nodes|
        invariant forall j :: 0 <= j < k ==> idOf(nodes[j]) != id
      {
        k := k + 1;
      }
    }

    /** `remove_by_id`: the first node with the id leaves the collection;
        nothing happens when there is none. */
    method RemoveById(id: ElementID)
      modifies this
      ensures nodes == RemoveFirst(old(nodes), IndexOfId(old(Ids()), id))
    {
      var k := FindById(id);
      if k < |nodes| {
        nodes := nodes[..k] + nodes[k + 1..];
      }
    }
  }

  function RampId(r: Ramp): ElementID { r.id }
  function WorkerId(w: Worker): ElementID { w.id }
  function StorehouseId(s: Storehouse): ElementID { s.id }

  /** No object appears twice. */
  predicate Distinct<T(==)>(s: seq<T>) {
    forall i, j :: 0 <= i < |s| && 0 <= j < |s| && i != j ==> s[i] != s[j]
  }

  /** The sending parts of the ramps and of the workers. In the source both
      classes derive from `PackageSender`; here each holds one, and the two
      classes share no type, so each has its own view. */
  function RampSenders(rs: seq<Ramp>): (r: seq<PackageSender>)
    ensures |r| == |rs| && forall i :: 0 <= i < |rs| ==> r[i] == rs[i].sender
  {
    seq(|rs|, i requires 0 <= i < |rs| => rs[i].sender)
  }

  function WorkerSenders(ws: seq<Worker>): (r: seq<PackageSender>)
    ensures |r| == |ws| && forall i :: 0 <= i < |ws| ==> r[i] == ws[i].sender
  {
    seq(|ws|, i requires 0 <= i < |ws| => ws[i].sender)
  }

  function WorkerQueues(ws: seq<Worker>): (r: seq<PackageQueue>)
    ensures |r| == |ws| && forall i :: 0 <= i < |ws| ==> r[i] == ws[i].queue
  {
    seq(|ws|, i requires 0 <= i < |ws| => ws[i].queue)
  }

  function Stocks(ss: seq<Storehouse>): (r: seq<PackageQueue>)
    ensures |r| == |ss| && forall i :: 0 <= i < |ss| ==> r[i] == ss[i].stock
  {
    seq(|ss|, i requires 0 <= i < |ss| => ss[i].stock)
  }

  function Prefs(ss: seq<PackageSender>): (r: seq<ReceiverPreferences>)
    ensures |r| == |ss| && forall i :: 0 <= i < |ss| ==> r[i] == ss[i].prefs
  {
    seq(|ss|, i requires 0 <= i < |ss| => ss[i].prefs)
  }

  function Buffers(ss: seq<PackageSender>): (r: seq<Option<Package>>)
    reads ss
    ensures |r| == |ss| && forall i :: 0 <= i < |ss| ==> r[i] == ss[i].buffer
  {
    seq(|ss|, i requires 0 <= i < |ss| reads ss => ss[i].buffer)
  }

  function WorkerStates(ws: seq<Worker>): (r: seq<WorkerState>)
    reads ws, WorkerQueues(ws), WorkerSenders(ws)
    ensures |r| == |ws| && forall i :: 0 <= i < |ws| ==> r[i] == ws[i].State()
  {
    seq(|ws|, i requires 0 <= i < |ws| reads ws, WorkerQueues(ws), WorkerSenders(ws) =>
      ws[i].State())
  }

  function Contents(qs: seq<PackageQueue>): (r: seq<seq<Package>>)
    reads qs
    ensures |r| == |qs| && forall i :: 0 <= i < |qs| ==> r[i] == qs[i].packages
  {
    seq(|qs|, i requires 0 <= i < |qs| reads qs => qs[i].packages)
  }

  function RampConfigs(rs: seq<Ramp>): (r: seq<RampConfig>)
    reads Prefs(RampSenders(rs))
    ensures |r| == |rs|
    ensures forall i :: 0 <= i < |rs| ==> r[i] == RampConfig(rs[i].id, rs[i].di, rs[i].sender.prefs.entries)
  {
    seq(|rs|, i requires 0 <= i < |rs| reads Prefs(RampSenders(rs)) =>
      RampConfig(rs[i].id, rs[i].di, rs[i].sender.prefs.entries))
  }

  function WorkerConfigs(ws: seq<Worker>): (r: seq<WorkerConfig>)
    reads Prefs(WorkerSenders(ws))
    ensures |r| == |ws|
    ensures forall i :: 0 <= i < |ws| ==>
              r[i] == WorkerConfig(ws[i].id, ws[i].pd, ws[i].queue.kind, ws[i].sender.prefs.entries)
  {
    seq(|ws|, i requires 0 <= i < |ws| reads Prefs(WorkerSenders(ws)) =>
      WorkerConfig(ws[i].id, ws[i].pd, ws[i].queue.kind, ws[i].sender.prefs.entries))
  }

  function StorehouseIds(ss: seq<Storehouse>): (r: seq<ElementID>)
    ensures |r| == |ss| && forall i :: 0 <= i < |ss| ==> r[i] == ss[i].id
  {
    seq(|ss|, i requires 0 <= i < |ss| => ss[i].id)
  }

  /** A sequence of distinct objects is two distinct halves that share
      nothing. */
  lemma DistinctHalves<T>(a: seq<T>, b: seq<T>)
    requires Distinct(a + b)
    ensures Distinct(a) && Distinct(b)
    ensures forall i, j :: 0 <= i < |a| && 0 <= j < |b| ==> a[i] != b[j]
  {
    forall i, j | 0 <= i < |a| && 0 <= j < |b|
      ensures a[i] != b[j]
    {
      assert a[i] == (a + b)[i] && b[j] == (a + b)[|a| + j];
    }
    forall i, j | 0 <= i < |b| && 0 <= j < |b| && i != j
      ensures b[i] != b[j]
    {
      assert b[i] == (a + b)[|a| + i] && b[j] == (a + b)[|a| + j];
    }
    forall i, j | 0 <= i < |a| && 0 <= j < |a| && i != j
      ensures a[i] != a[j]
    {
      assert a[i] == (a + b)[i] && a[j] == (a + b)[j];
    }
  }

  /** Two distinct halves that share nothing make a distinct whole. */
  lemma DistinctJoin<T>(a: seq<T>, b: seq<T>)
    requires Distinct(a) && Distinct(b)
    requires forall i, j :: 0 <= i < |a| && 0 <= j < |b| ==> a[i] != b[j]
    ensures Distinct(a + b)
  {
  }

  /** Erasing one element keeps the others distinct. */
  lemma DistinctRemoveFirst<T>(s: seq<T>, k: nat)
    requires Distinct(s)
    ensures Distinct(RemoveFirst(s, k))
    ensures forall i :: 0 <= i < |RemoveFirst(s, k)| ==> RemoveFirst(s, k)[i] in s
  {
    if k < |s| {
      var r := RemoveFirst(s, k);
      forall i | 0 <= i < |r|
        ensures r[i] == s[if i < k then i else i + 1]
      {
      }
    }
  }

  /** Taking the same position out of the second part of a sequence of
      distinct objects leaves them distinct, and so does taking it out of
      the first part. */
  lemma DistinctAfterRemoval<T>(a: seq<T>, b: seq<T>, k: nat)
    requires Distinct(a + b)
    ensures Distinct(a + RemoveFirst(b, k)) && Distinct(RemoveFirst(a, k) + b)
  {
    DistinctHalves(a, b);
    DistinctRemoveFirst(a, k);
    DistinctRemoveFirst(b, k);
    DistinctJoin(a, RemoveFirst(b, k));
    DistinctJoin(RemoveFirst(a, k), b);
  }

  /** Erasing worker `k` erases its sender, its queue and its routing table
      at the same position. */
  lemma WorkerRemovalMaps(ws: seq<Worker>, k: nat)
    ensures WorkerSenders(RemoveFirst(ws, k)) == RemoveFirst(WorkerSenders(ws), k)
    ensures WorkerQueues(RemoveFirst(ws, k)) == RemoveFirst(WorkerQueues(ws), k)
    ensures Prefs(RemoveFirst(WorkerSenders(ws), k)) == RemoveFirst(Prefs(WorkerSenders(ws)), k)
  {
    if k < |ws| {
      assert WorkerSenders(RemoveFirst(ws, k)) == WorkerSenders(ws)[..k] + WorkerSenders(ws)[k + 1..];
      assert WorkerQueues(RemoveFirst(ws, k)) == WorkerQueues(ws)[..k] + WorkerQueues(ws)[k + 1..];
      var ps := Prefs(WorkerSenders(ws));
      assert Prefs(RemoveFirst(WorkerSenders(ws), k)) == ps[..k] + ps[k + 1..];
    }
  }

  /** Erasing worker `k` erases its configuration. */
  lemma WorkerConfigsRemoval(ws: seq<Worker>, k: nat)
    ensures WorkerConfigs(RemoveFirst(ws, k)) == RemoveFirst(WorkerConfigs(ws), k)
  {
    if k < |ws| {
      assert WorkerConfigs(RemoveFirst(ws, k)) == WorkerConfigs(ws)[..k] + WorkerConfigs(ws)[k + 1..];
    }
  }

  /** Erasing worker `k` erases its state. */
  lemma WorkerStatesRemoval(ws: seq<Worker>, k: nat)
    ensures WorkerStates(RemoveFirst(ws, k)) == RemoveFirst(WorkerStates(ws), k)
  {
    if k < |ws| {
      assert WorkerStates(RemoveFirst(ws, k)) == WorkerStates(ws)[..k] + WorkerStates(ws)[k + 1..];
    }
  }

  /** Erasing storehouse `k` erases its id and its stockpile. */
  lemma StorehouseRemovalViews(ss: seq<Storehouse>, k: nat)
    ensures StorehouseIds(RemoveFirst(ss, k)) == RemoveFirst(StorehouseIds(ss), k)
    ensures Contents(Stocks(RemoveFirst(ss, k))) == RemoveFirst(Contents(Stocks(ss)), k)
  {
    if k < |ss| {
      assert StorehouseIds(RemoveFirst(ss, k)) == StorehouseIds(ss)[..k] + StorehouseIds(ss)[k + 1..];
      assert Contents(Stocks(RemoveFirst(ss, k))) == Contents(Stocks(ss))[..k] + Contents(Stocks(ss))[k + 1..];
    }
  }

  lemma PrefsConcat(a: seq<PackageSender>, b: seq<PackageSender>)
    ensures Prefs(a + b) == Prefs(a) + Prefs(b)
  {
  }

  /** Erasing a worker keeps the senders, the tables, the queues and the
      workers of a factory distinct. */
  lemma WorkerRemovalKeepsDistinct(rs: seq<Ramp>, ws: seq<Worker>, ss: seq<Storehouse>, k: nat)
    requires Distinct(RampSenders(rs) + WorkerSenders(ws))
    requires Distinct(Prefs(RampSenders(rs) + WorkerSenders(ws)))
    requires Distinct(WorkerQueues(ws) + Stocks(ss)) && Distinct(ws)
    ensures Distinct(RampSenders(rs) + WorkerSenders(RemoveFirst(ws, k)))
    ensures Distinct(Prefs(RampSenders(rs) + WorkerSenders(RemoveFirst(ws, k))))
    ensures Distinct(WorkerQueues(RemoveFirst(ws, k)) + Stocks(ss)) && Distinct(RemoveFirst(ws, k))
  {
    WorkerRemovalMaps(ws, k);
    DistinctAfterRemoval(RampSenders(rs), WorkerSenders(ws), k);
    PrefsConcat(RampSenders(rs), WorkerSenders(ws));
    PrefsConcat(RampSenders(rs), WorkerSenders(RemoveFirst(ws, k)));
    DistinctAfterRemoval(Prefs(RampSenders(rs)), Prefs(WorkerSenders(ws)), k);
    DistinctAfterRemoval(WorkerQueues(ws), Stocks(ss), k);
    DistinctRemoveFirst(ws, k);
  }

  /** Erasing a storehouse keeps the queues distinct. */
  lemma StorehouseRemovalKeepsDistinct(ws: seq<Worker>, ss: seq<Storehouse>, k: nat)
    requires Distinct(WorkerQueues(ws) + Stocks(ss))
    ensures Distinct(WorkerQueues(ws) + Stocks(RemoveFirst(ss, k)))
  {
    if k < |ss| {
      assert Stocks(RemoveFirst(ss, k)) == Stocks(ss)[..k] + Stocks(ss)[k + 1..];
    }
    DistinctAfterRemoval(WorkerQueues(ws), Stocks(ss), k);
  }

  /** The loop of `remove_receiver` over one collection's senders: every
      table forgets `x`. */
  method PurgeTables(ps: seq<ReceiverPreferences>, x: Receiver)
    requires Distinct(ps)
    modifies ps
    ensures forall j :: 0 <= j < |ps| ==> ps[j].entries == Removed(old(ps[j].entries), x)
  {
    for i := 0 to |ps|
      invariant forall j :: 0 <= j < i ==> ps[j].entries == Removed(old(ps[j].entries), x)
      invariant forall j :: i <= j < |ps| ==> ps[j].entries == old(ps[j].entries)
    {
      ps[i].RemoveReceiver(x);
    }
  }

  /** `Factory`. */
  class Factory {
    const ramps: NodeCollection<Ramp>
    const workers: NodeCollection<Worker>
    const storehouses: NodeCollection<Storehouse>

    constructor()
      ensures ramps.nodes == [] && workers.nodes == [] && storehouses.nodes == []
      ensures Valid() && fresh(ramps) && fresh(workers) && fresh(storehouses)
    {
      ramps := new NodeCollection(RampId);
      workers := new NodeCollection(WorkerId);
      storehouses := new NodeCollection(StorehouseId);
    }

    function Senders(): seq<PackageSender>
      reads ramps, workers
    {
      RampSenders(ramps.nodes) + WorkerSenders(workers.nodes)
    }

    function Queues(): seq<PackageQueue>
      reads workers, storehouses
    {
      WorkerQueues(workers.nodes) + Stocks(storehouses.nodes)
    }

    /** The collections find nodes by their ids, and no sender, routing
        table, queue or worker is shared between two nodes. */
    ghost predicate Valid()
      reads this, ramps, workers, storehouses
    {
      ramps.idOf == RampId && workers.idOf == WorkerId && storehouses.idOf == StorehouseId &&
      Distinct(Senders()) && Distinct(Prefs(Senders())) &&
      Distinct(Queues()) && Distinct(workers.nodes)
    }

    /** The configuration the collections describe. */
    function Net(): Net
      reads this, ramps, workers, storehouses
      reads Prefs(RampSenders(ramps.nodes)), Prefs(WorkerSenders(workers.nodes))
    {
      Network.Net(RampConfigs(ramps.nodes), WorkerConfigs(workers.nodes), StorehouseIds(storehouses.nodes))
    }

    /** What the nodes hold. */
    function State(): State
      reads this, ramps, workers, storehouses
      reads RampSenders(ramps.nodes), workers.nodes, WorkerQueues(workers.nodes), WorkerSenders(workers.nodes)
      reads Stocks(storehouses.nodes)
    {
      Network.State(Buffers(RampSenders(ramps.nodes)), WorkerStates(workers.nodes), Contents(Stocks(storehouses.nodes)))
    }

    /** Ramp `i`'s sender belongs to no other node. */
    lemma RampSenderAlone(i: nat)
      requires Distinct(Senders()) && i < |ramps.nodes|
      ensures forall j :: 0 <= j < |ramps.nodes| && j != i ==> ramps.nodes[j].sender != ramps.nodes[i].sender
      ensures forall w :: w in workers.nodes ==> w.sender != ramps.nodes[i].sender
    {
      var ss := Senders();
      assert ss[i] == ramps.nodes[i].sender;
      forall j | 0 <= j < |ramps.nodes| && j != i
        ensures ramps.nodes[j].sender != ramps.nodes[i].sender
      {
        assert ss[j] == ramps.nodes[j].sender;
      }
      forall w | w in workers.nodes
        ensures w.sender != ramps.nodes[i].sender
      {
        var k :| 0 <= k < |workers.nodes| && workers.nodes[k] == w;
        assert ss[|ramps.nodes| + k] == w.sender;
      }
    }

    /** The body of `do_deliveries`' loop: ramp `i` delivers goods. */
    method DeliverAt(i: nat, t: Time, alloc: IdAllocator, ghost net: Net, ghost cur: World)
      requires Distinct(Senders()) && net == Net() && IntervalsNonZero(net) && i < |ramps.nodes|
      requires Fits(net, cur.state) && State() == cur.state && alloc.Pool() == cur.pool
      modifies ramps.nodes[i].sender, alloc
      ensures Net() == net
      ensures State() == DeliverStep(net, cur, i, t).state && alloc.Pool() == DeliverStep(net, cur, i, t).pool
    {
      var ramp := ramps.nodes[i];
      assert net.ramps[i].di == ramp.di;
      RampSenderAlone(i);
      ramp.DeliverGoods(t, alloc);
      assert WorkerStates(workers.nodes) == old(WorkerStates(workers.nodes));
      assert Contents(Stocks(storehouses.nodes)) == old(Contents(Stocks(storehouses.nodes)));
      assert Buffers(RampSenders(ramps.nodes)) == old(Buffers(RampSenders(ramps.nodes)))[i := ramp.sender.buffer];
    }

    /** The first `i` ramps have delivered goods: the factory is at element
        `i` of the trace of `do_deliveries`. */
    ghost predicate Delivering(net: Net, trace: seq<World>, i: nat, alloc: IdAllocator, calls: nat)
      reads this, ramps, workers, storehouses, alloc
      reads Prefs(RampSenders(ramps.nodes)), Prefs(WorkerSenders(workers.nodes))
      reads RampSenders(ramps.nodes), workers.nodes, WorkerQueues(workers.nodes), WorkerSenders(workers.nodes)
      reads Stocks(storehouses.nodes)
    {
      Distinct(Senders()) && Net() == net && i < |trace| &&
      World(State(), alloc.Pool(), calls) == trace[i]
    }

    /** One more ramp delivers. */
    method AdvanceDeliveries(i: nat, t: Time, alloc: IdAllocator, ghost net: Net, ghost w0: World, ghost trace: seq<World>)
      requires i < |ramps.nodes| && DeliveryTrace(net, w0, t, trace) && Delivering(net, trace, i, alloc, w0.calls)
      modifies ramps.nodes[i].sender, alloc
      ensures Delivering(net, trace, i + 1, alloc, w0.calls)
    {
      assert DeliveryTraceAt(net, w0, t, trace, i);
      assert DeliveryTraceAt(net, w0, t, trace, i + 1);
      DeliverAt(i, t, alloc, net, trace[i]);
      DeliveriesNext(net, w0, t, i, i + 1, trace[i]);
    }

    /** `do_deliveries(t)`: every ramp in order delivers goods. The draw
        count does not change, so `calls` is any count at all. */
    method DoDeliveries(t: Time, alloc: IdAllocator, ghost calls: nat) returns (ghost trace: seq<World>)
      requires Valid() && IntervalsNonZero(Net())
      modifies RampSenders(ramps.nodes), alloc
      ensures unchanged(this, ramps, workers, storehouses) && Net() == old(Net())
      ensures DeliveryTrace(old(Net()), World(old(State()), old(alloc.Pool()), calls), t, trace)
      ensures World(State(), alloc.Pool(), calls) == trace[|ramps.nodes|]
    {
      ghost var net := Net();
      ghost var w0 := World(State(), alloc.Pool(), calls);
      trace := DeliveryTraceOf(net, w0, t);
      for i := 0 to |ramps.nodes|
        invariant Delivering(net, trace, i, alloc, calls)
      {
        AdvanceDeliveries(i, t, alloc, net, w0, trace);
      }
    }

    /** Worker `i`'s sender belongs to no other node. */
    lemma WorkerSenderAlone(i: nat)
      requires Distinct(Senders()) && i < |workers.nodes|
      ensures forall j :: 0 <= j < |workers.nodes| && j != i ==> workers.nodes[j].sender != workers.nodes[i].sender
      ensures forall r :: r in ramps.nodes ==> r.sender != workers.nodes[i].sender
    {
      var ss := Senders();
      var n := |ramps.nodes|;
      assert ss[n + i] == workers.nodes[i].sender;
      forall j | 0 <= j < |workers.nodes| && j != i
        ensures workers.nodes[j].sender != workers.nodes[i].sender
      {
        assert ss[n + j] == workers.nodes[j].sender;
      }
      forall r | r in ramps.nodes
        ensures r.sender != workers.nodes[i].sender
      {
        var k :| 0 <= k < n && ramps.nodes[k] == r;
        assert ss[k] == r.sender;
      }
    }

    /** Worker `k`'s queue is no other worker's and no storehouse's. */
    lemma WorkerQueueAlone(k: nat)
      requires Distinct(Queues()) && k < |workers.nodes|
      ensures forall j :: 0 <= j < |workers.nodes| && j != k ==> workers.nodes[j].queue != workers.nodes[k].queue
      ensures forall s :: s in storehouses.nodes ==> s.stock != workers.nodes[k].queue
    {
      var qs := Queues();
      assert qs[k] == workers.nodes[k].queue;
      forall j | 0 <= j < |workers.nodes| && j != k
        ensures workers.nodes[j].queue != workers.nodes[k].queue
      {
        assert qs[j] == workers.nodes[j].queue;
      }
      forall s | s in storehouses.nodes
        ensures s.stock != workers.nodes[k].queue
      {
        var m :| 0 <= m < |storehouses.nodes| && storehouses.nodes[m] == s;
        assert qs[|workers.nodes| + m] == s.stock;
      }
    }

    /** Storehouse `k`'s stockpile is no other node's. */
    lemma StockAlone(k: nat)
      requires Distinct(Queues()) && k < |storehouses.nodes|
      ensures forall j :: 0 <= j < |storehouses.nodes| && j != k ==> storehouses.nodes[j].stock != storehouses.nodes[k].stock
      ensures forall w :: w in workers.nodes ==> w.queue != storehouses.nodes[k].stock
    {
      var qs := Queues();
      var n := |workers.nodes|;
      assert qs[n + k] == storehouses.nodes[k].stock;
      forall j | 0 <= j < |storehouses.nodes| && j != k
        ensures storehouses.nodes[j].stock != storehouses.nodes[k].stock
      {
        assert qs[n + j] == storehouses.nodes[j].stock;
      }
      forall w | w in workers.nodes
        ensures w.queue != storehouses.nodes[k].stock
      {
        var m :| 0 <= m < n && workers.nodes[m] == w;
        assert qs[m] == w.queue;
      }
    }

    /** Worker `k` takes the package into its queue. */
    method HandToWorker(k: nat, p: Package, ghost net: Net, ghost s: State)
      requires Distinct(Queues()) && k < |workers.nodes| && net == Net() && State() == s
      modifies workers.nodes[k].queue
      ensures Net() == net
      ensures State() == s.(workers := s.workers[k := s.workers[k].(queue := s.workers[k].queue + [p])])
    {
      var worker := workers.nodes[k];
      WorkerQueueAlone(k);
      worker.ReceivePackage(p);
      assert Buffers(RampSenders(ramps.nodes)) == old(Buffers(RampSenders(ramps.nodes)));
      assert Contents(Stocks(storehouses.nodes)) == old(Contents(Stocks(storehouses.nodes)));
      assert WorkerStates(workers.nodes) == old(WorkerStates(workers.nodes))[k := s.workers[k].(queue := s.workers[k].queue + [p])];
    }

    /** Storehouse `k` takes the package into its stockpile. */
    method HandToStorehouse(k: nat, p: Package, ghost net: Net, ghost s: State)
      requires Distinct(Queues()) && k < |storehouses.nodes| && net == Net() && State() == s
      modifies storehouses.nodes[k].stock
      ensures Net() == net
      ensures State() == s.(stocks := s.stocks[k := s.stocks[k] + [p]])
    {
      var house := storehouses.nodes[k];
      StockAlone(k);
      house.ReceivePackage(p);
      assert Buffers(RampSenders(ramps.nodes)) == old(Buffers(RampSenders(ramps.nodes)));
      assert WorkerStates(workers.nodes) == old(WorkerStates(workers.nodes));
      assert Contents(Stocks(storehouses.nodes)) == old(Contents(Stocks(storehouses.nodes)))[k := s.stocks[k] + [p]];
    }

    /** `receiver->receive_package(...)` for a worker, found by id as
        `find_by_id` finds it; a missing worker takes nothing. */
    method HandToWorkerById(h: Handover, ghost net: Net, ghost s: State)
      requires h.to.kind == WorkerKind && Distinct(Queues()) && workers.idOf == WorkerId
      requires net == Net() && State() == s && Fits(net, s)
      modifies WorkerQueues(workers.nodes)
      ensures Net() == net && State() == Receive(net, s, h)
    {
      var k := workers.FindById(h.to.id);
      assert workers.Ids() == WorkerIds(net.workers);
      if k < |workers.nodes| {
        HandToWorker(k, h.package, net, s);
      }
    }

    /** The same for a storehouse. */
    method HandToStorehouseById(h: Handover, ghost net: Net, ghost s: State)
      requires h.to.kind == StorehouseKind && Distinct(Queues()) && storehouses.idOf == StorehouseId
      requires net == Net() && State() == s && Fits(net, s)
      modifies Stocks(storehouses.nodes)
      ensures Net() == net && State() == Receive(net, s, h)
    {
      var k := storehouses.FindById(h.to.id);
      assert storehouses.Ids() == net.storehouses;
      if k < |storehouses.nodes| {
        HandToStorehouse(k, h.package, net, s);
      }
    }

    /** Worker `i`'s `send_package()`: with the next draw its table picks a
        receiver, and the package leaves the buffer when it finds one. */
    method SendFrom(i: nat, gen: ProbabilityGenerator, ghost net: Net, ghost s: State) returns (h: Option<Handover>)
      requires Distinct(Senders()) && i < |workers.nodes| && net == Net() && State() == s && Fits(net, s)
      modifies workers.nodes[i].sender, gen
      ensures Net() == net
      ensures var out := SendOutcome(net.workers[i].table, s.workers[i].buffer, gen.draw(old(gen.calls)));
              h == out.0 && State() == s.(workers := s.workers[i := s.workers[i].(buffer := out.1)])
      ensures gen.calls == if s.workers[i].buffer.Some? then old(gen.calls) + 1 else old(gen.calls)
    {
      var worker := workers.nodes[i];
      assert net.workers[i].table == worker.sender.prefs.entries;
      WorkerSenderAlone(i);
      h := worker.sender.SendPackage(gen);
      assert Buffers(RampSenders(ramps.nodes)) == old(Buffers(RampSenders(ramps.nodes)));
      assert Contents(Stocks(storehouses.nodes)) == old(Contents(Stocks(storehouses.nodes)));
      assert WorkerStates(workers.nodes) == old(WorkerStates(workers.nodes))[i := s.workers[i].(buffer := worker.sender.buffer)];
    }

    /** The body of `do_package_passing`'s loop: worker `i` sends. */
    method PassAt(i: nat, gen: ProbabilityGenerator, ghost net: Net, ghost cur: World)
      requires Distinct(Senders()) && Distinct(Queues()) && workers.idOf == WorkerId && storehouses.idOf == StorehouseId
      requires i < |workers.nodes| && net == Net() && Fits(net, cur.state) && State() == cur.state && gen.calls == cur.calls
      modifies workers.nodes[i].sender, gen, WorkerQueues(workers.nodes), Stocks(storehouses.nodes)
      ensures Net() == net
      ensures World(State(), cur.pool, gen.calls) == PassStep(net, cur, i, gen.draw(cur.calls))
    {
      ghost var s := cur.state;
      ghost var p := gen.draw(cur.calls);
      PassStepParts(net, cur, i, p);
      var h := SendFrom(i, gen, net, s);
      ghost var out := SendOutcome(net.workers[i].table, s.workers[i].buffer, p);
      ghost var s2 := s.(workers := s.workers[i := s.workers[i].(buffer := out.1)]);
      assert h == out.0 && gen.calls == PassStep(net, cur, i, p).calls;
      if h.Some? {
        if h.value.to.kind == WorkerKind {
          HandToWorkerById(h.value, net, s2);
        } else {
          HandToStorehouseById(h.value, net, s2);
        }
        assert State() == Receive(net, s2, h.value);
      } else {
        assert State() == s2;
      }
    }

    /** The first `i` workers have sent: the factory and the generator are
        at element `i` of the trace of `do_package_passing`. */
    ghost predicate Passing(net: Net, trace: seq<World>, gen: ProbabilityGenerator, i: nat)
      reads this, ramps, workers, storehouses, gen
      reads Prefs(RampSenders(ramps.nodes)), Prefs(WorkerSenders(workers.nodes))
      reads RampSenders(ramps.nodes), workers.nodes, WorkerQueues(workers.nodes), WorkerSenders(workers.nodes)
      reads Stocks(storehouses.nodes)
    {
      Distinct(Senders()) && Distinct(Queues()) && workers.idOf == WorkerId && storehouses.idOf == StorehouseId &&
      Net() == net && i < |trace| && State() == trace[i].state && gen.calls == trace[i].calls
    }

    /** One more worker sends. */
    method AdvancePassing(i: nat, gen: ProbabilityGenerator, ghost net: Net, ghost w0: World, ghost trace: seq<World>)
      requires i < |workers.nodes| && PassingTrace(net, w0, gen.draw, trace) && Passing(net, trace, gen, i)
      modifies WorkerSenders(workers.nodes), gen, WorkerQueues(workers.nodes), Stocks(storehouses.nodes)
      ensures Passing(net, trace, gen, i + 1)
    {
      assert PassingTraceAt(net, w0, gen.draw, trace, i);
      assert PassingTraceAt(net, w0, gen.draw, trace, i + 1);
      PassAt(i, gen, net, trace[i]);
      PassingNext(net, w0, gen.draw, i, i + 1, trace[i]);
    }

    /** `do_package_passing()`: every worker in order sends its package.
        The id allocator is untouched, so `pool` is any pool at all. */
    method DoPackagePassing(gen: ProbabilityGenerator, ghost pool: IdPool) returns (ghost trace: seq<World>)
      requires Valid() && Linked(Net())
      modifies WorkerSenders(workers.nodes), gen, WorkerQueues(workers.nodes), Stocks(storehouses.nodes)
      ensures unchanged(this, ramps, workers, storehouses) && Net() == old(Net())
      ensures PassingTrace(old(Net()), World(old(State()), pool, old(gen.calls)), gen.draw, trace)
      ensures World(State(), pool, gen.calls) == trace[|workers.nodes|]
    {
      ghost var net := Net();
      ghost var w0 := World(State(), pool, gen.calls);
      trace := PassingTraceOf(net, w0, gen.draw);
      for i := 0 to |workers.nodes|
        invariant Passing(net, trace, gen, i)
      {
        AdvancePassing(i, gen, net, w0, trace);
      }
      assert PassingTraceAt(net, w0, gen.draw, trace, |workers.nodes|);
    }

    /** The body of `do_work`'s loop: worker `i` works. */
    method WorkAt(i: nat, t: Time, alloc: IdAllocator, ghost net: Net, ghost cur: World)
      requires Distinct(Senders()) && Distinct(Queues()) && Distinct(workers.nodes)
      requires i < |workers.nodes| && net == Net() && Fits(net, cur.state) && State() == cur.state && alloc.Pool() == cur.pool
      modifies workers.nodes[i], workers.nodes[i].queue, workers.nodes[i].sender, alloc
      ensures Net() == net
      ensures World(State(), alloc.Pool(), cur.calls) == WorkStep(net, cur, i, t)
    {
      var worker := workers.nodes[i];
      assert net.workers[i].pd == worker.pd && net.workers[i].kind == worker.queue.kind;
      WorkerSenderAlone(i);
      WorkerQueueAlone(i);
      worker.DoWork(t, alloc);
      assert Buffers(RampSenders(ramps.nodes)) == old(Buffers(RampSenders(ramps.nodes)));
      assert Contents(Stocks(storehouses.nodes)) == old(Contents(Stocks(storehouses.nodes)));
      assert WorkerStates(workers.nodes) == old(WorkerStates(workers.nodes))[i := worker.State()];
    }

    /** The first `i` workers have worked: the factory is at element `i`
        of the trace of `do_work`. */
    ghost predicate Working(net: Net, trace: seq<World>, i: nat, alloc: IdAllocator, calls: nat)
      reads this, ramps, workers, storehouses, alloc
      reads Prefs(RampSenders(ramps.nodes)), Prefs(WorkerSenders(workers.nodes))
      reads RampSenders(ramps.nodes), workers.nodes, WorkerQueues(workers.nodes), WorkerSenders(workers.nodes)
      reads Stocks(storehouses.nodes)
    {
      Distinct(Senders()) && Distinct(Queues()) && Distinct(workers.nodes) &&
      Net() == net && i < |trace| && World(State(), alloc.Pool(), calls) == trace[i]
    }

    /** One more worker works. */
    method AdvanceWorking(i: nat, t: Time, alloc: IdAllocator, ghost net: Net, ghost w0: World, ghost trace: seq<World>)
      requires i < |workers.nodes| && WorkingTrace(net, w0, t, trace) && Working(net, trace, i, alloc, w0.calls)
      modifies workers.nodes, WorkerQueues(workers.nodes), WorkerSenders(workers.nodes), alloc
      ensures Working(net, trace, i + 1, alloc, w0.calls)
    {
      assert WorkingTraceAt(net, w0, t, trace, i);
      assert WorkingTraceAt(net, w0, t, trace, i + 1);
      WorkAt(i, t, alloc, net, trace[i]);
      WorkingNext(net, w0, t, i, i + 1, trace[i]);
    }

    /** `do_work(t)`: every worker in order works. The draw count does not
        change, so `calls` is any count at all. */
    method DoWork(t: Time, alloc: IdAllocator, ghost calls: nat) returns (ghost trace: seq<World>)
      requires Valid()
      modifies workers.nodes, WorkerQueues(workers.nodes), WorkerSenders(workers.nodes), alloc
      ensures unchanged(this, ramps, workers, storehouses) && Net() == old(Net())
      ensures WorkingTrace(old(Net()), World(old(State()), old(alloc.Pool()), calls), t, trace)
      ensures World(State(), alloc.Pool(), calls) == trace[|workers.nodes|]
    {
      ghost var net := Net();
      ghost var w0 := World(State(), alloc.Pool(), calls);
      trace := WorkingTraceOf(net, w0, t);
      for i := 0 to |workers.nodes|
        invariant Working(net, trace, i, alloc, calls)
      {
        AdvanceWorking(i, t, alloc, net, w0, trace);
      }
    }

    /** The first loop of `remove_receiver`: every ramp's table forgets `x`. */
    method PurgeRampTables(x: Receiver)
      requires Valid()
      modifies Prefs(RampSenders(ramps.nodes))
      ensures Valid() && State() == old(State())
      ensures Net() == old(Net()).(ramps := Purged(old(Net()), x).ramps)
    {
      ghost var net := Net();
      var ps := Prefs(RampSenders(ramps.nodes));
      assert Prefs(Senders()) == ps + Prefs(WorkerSenders(workers.nodes));
      DistinctHalves(ps, Prefs(WorkerSenders(workers.nodes)));
      PurgeTables(ps, x);
      assert RampConfigs(ramps.nodes) == Purged(net, x).ramps;
      assert WorkerConfigs(workers.nodes) == old(WorkerConfigs(workers.nodes));
      assert Buffers(RampSenders(ramps.nodes)) == old(Buffers(RampSenders(ramps.nodes)));
      assert WorkerStates(workers.nodes) == old(WorkerStates(workers.nodes));
      assert Contents(Stocks(storehouses.nodes)) == old(Contents(Stocks(storehouses.nodes)));
    }

    /** The second loop of `remove_receiver`: every worker's table forgets `x`. */
    method PurgeWorkerTables(x: Receiver)
      requires Valid()
      modifies Prefs(WorkerSenders(workers.nodes))
      ensures Valid() && State() == old(State())
      ensures Net() == old(Net()).(workers := Purged(old(Net()), x).workers)
    {
      ghost var net := Net();
      var ps := Prefs(WorkerSenders(workers.nodes));
      assert Prefs(Senders()) == Prefs(RampSenders(ramps.nodes)) + ps;
      DistinctHalves(Prefs(RampSenders(ramps.nodes)), ps);
      PurgeTables(ps, x);
      assert WorkerConfigs(workers.nodes) == Purged(net, x).workers;
      assert RampConfigs(ramps.nodes) == old(RampConfigs(ramps.nodes));
      assert Buffers(RampSenders(ramps.nodes)) == old(Buffers(RampSenders(ramps.nodes)));
      assert WorkerStates(workers.nodes) == old(WorkerStates(workers.nodes));
      assert Contents(Stocks(storehouses.nodes)) == old(Contents(Stocks(storehouses.nodes)));
    }

    /** The erasure in `remove_by_id` on the workers: the first worker with
        the id leaves the collection, with its configuration and everything
        it held. */
    method EraseWorker(id: ElementID)
      requires Valid()
      modifies workers
      ensures Valid()
      ensures var k := WorkerIndex(old(Net()), id);
              Net() == old(Net()).(workers := RemoveFirst(old(Net()).workers, k)) &&
              State() == old(State()).(workers := RemoveFirst(old(State()).workers, k))
    {
      ghost var ws := workers.nodes;
      ghost var k := WorkerIndex(Net(), id);
      assert workers.Ids() == WorkerIds(Net().workers);
      WorkerRemovalKeepsDistinct(ramps.nodes, ws, storehouses.nodes, k);
      WorkerConfigsRemoval(ws, k);
      WorkerStatesRemoval(ws, k);
      ghost var rest := RemoveFirst(ws, k);
      workers.RemoveById(id);
      assert workers.nodes == rest;
      assert RampConfigs(ramps.nodes) == old(RampConfigs(ramps.nodes));
      assert WorkerConfigs(workers.nodes) == old(WorkerConfigs(rest));
      assert Buffers(RampSenders(ramps.nodes)) == old(Buffers(RampSenders(ramps.nodes)));
      assert WorkerStates(workers.nodes) == old(WorkerStates(rest));
      assert Contents(Stocks(storehouses.nodes)) == old(Contents(Stocks(storehouses.nodes)));
    }

    /** `remove_by_id` on the workers: the worker is erased, and then the
        packages in its queue and its two buffers are destroyed and give
        their ids back. */
    method RemoveWorkerNode(id: ElementID, alloc: IdAllocator)
      requires Valid()
      modifies workers, alloc
      ensures Valid()
      ensures var k := WorkerIndex(old(Net()), id);
              Net() == old(Net()).(workers := RemoveFirst(old(Net()).workers, k)) &&
              State() == old(State()).(workers := RemoveFirst(old(State()).workers, k))
      ensures alloc.Pool() == DisposedAll(old(alloc.Pool()), Dropped(old(Net()), old(State()), Receiver(WorkerKind, id)))
    {
      var dropped := Dropped(Net(), State(), Receiver(WorkerKind, id));
      EraseWorker(id);
      alloc.DestroyAll(dropped);
    }

    /** The erasure in `remove_by_id` on the storehouses. */
    method EraseStorehouse(id: ElementID)
      requires Valid()
      modifies storehouses
      ensures Valid()
      ensures var k := StorehouseIndex(old(Net()), id);
              Net() == old(Net()).(storehouses := RemoveFirst(old(Net()).storehouses, k)) &&
              State() == old(State()).(stocks := RemoveFirst(old(State()).stocks, k))
    {
      ghost var ss := storehouses.nodes;
      ghost var k := StorehouseIndex(Net(), id);
      assert storehouses.Ids() == Net().storehouses;
      StorehouseRemovalKeepsDistinct(workers.nodes, ss, k);
      StorehouseRemovalViews(ss, k);
      ghost var rest := RemoveFirst(ss, k);
      storehouses.RemoveById(id);
      assert storehouses.nodes == rest;
      assert RampConfigs(ramps.nodes) == old(RampConfigs(ramps.nodes));
      assert WorkerConfigs(workers.nodes) == old(WorkerConfigs(workers.nodes));
      assert Buffers(RampSenders(ramps.nodes)) == old(Buffers(RampSenders(ramps.nodes)));
      assert WorkerStates(workers.nodes) == old(WorkerStates(workers.nodes));
      assert Contents(Stocks(storehouses.nodes)) == old(Contents(Stocks(rest)));
    }

    /** `remove_by_id` on the storehouses: the storehouse is erased, and
        then the packages of its stockpile are destroyed and give their ids
        back. */
    method RemoveStorehouseNode(id: ElementID, alloc: IdAllocator)
      requires Valid()
      modifies storehouses, alloc
      ensures Valid()
      ensures var k := StorehouseIndex(old(Net()), id);
              Net() == old(Net()).(storehouses := RemoveFirst(old(Net()).storehouses, k)) &&
              State() == old(State()).(stocks := RemoveFirst(old(State()).stocks, k))
      ensures alloc.Pool() == DisposedAll(old(alloc.Pool()), Dropped(old(Net()), old(State()), Receiver(StorehouseKind, id)))
    {
      var dropped := Dropped(Net(), State(), Receiver(StorehouseKind, id));
      EraseStorehouse(id);
      alloc.DestroyAll(dropped);
    }

    /** `remove_receiver`: every ramp's and every worker's table forgets
        the receiver, then its node leaves its collection, and the packages
        it held are destroyed. */
    method RemoveReceiver(x: Receiver, alloc: IdAllocator)
      requires Valid()
      modifies Prefs(RampSenders(ramps.nodes)), Prefs(WorkerSenders(workers.nodes)), workers, storehouses, alloc
      ensures Valid()
      ensures Net() == WithoutReceiver(old(Net()), x)
      ensures State() == StateWithoutReceiver(old(Net()), old(State()), x)
      ensures alloc.Pool() == DisposedAll(old(alloc.Pool()), Dropped(old(Net()), old(State()), x))
    {
      ghost var net := Net();
      ghost var s := State();
      PurgeRampTables(x);
      PurgeWorkerTables(x);
      assert Net() == Purged(net, x);
      assert WorkerIds(Purged(net, x).workers) == WorkerIds(net.workers);
      assert Dropped(Net(), State(), x) == Dropped(net, s, x);
      if x.kind == WorkerKind {
        RemoveWorkerNode(x.id, alloc);
      } else {
        RemoveStorehouseNode(x.id, alloc);
      }
    }

    /** `is_consistent`, on the network the collections form. */
    method IsConsistent() returns (ok: bool)
      requires Linked(Net())
      ensures ok == Consistency.Consistent(Net())
      ensures Net() == old(Net()) && State() == old(State())
    {
      var net := Net();
      ok := Consistency.IsConsistent(net);
      assert Net() == net;
    }
  }
}
