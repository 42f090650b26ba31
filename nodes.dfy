/**
 * The nodes of the network (nodes.hxx, nodes.cpp): ramps that produce
 * packages, workers that process them, storehouses that keep them, and the
 * sending half shared by ramps and workers.
 *
 * The source derives `Ramp` and `Worker` from `PackageSender`; here each of
 * them owns a `PackageSender` object. A package handed to a receiver is
 * returned as a `Handover` naming the receiver, and the factory delivers it,
 * since the model names receivers by kind and id rather than by pointer.
 *
 * Each state-changing step is specified by a function on values (`Delivered`,
 * `Worked`, `SendOutcome`) about which the properties are proved.
 */
module Nodes {
  import opened Types
  import opened Packages
  import opened StorageTypes
  import opened Routing

  /** A package on its way from a sender to the receiver it chose. */
  datatype Handover = Handover(to: Receiver, package: Package)

  /** Everything a worker holds: its queue, the package in progress and when
      it was started, and its sending buffer. */
  datatype WorkerState = WorkerState(
    queue: seq<Package>,
    processing: Option<Package>,
    start: Time,
    buffer: Option<Package>)

  function Slot(s: Option<Package>): seq<Package> {
    if s.Some? then [s.value] else []
  }

  /** The packages a worker holds, wherever they are. */
  function Held(w: WorkerState): seq<Package> {
    w.queue + Slot(w.processing) + Slot(w.buffer)
  }

  /** `Ramp::deliver_goods(t)`: when `t % di == 1` (C++ remainder) a new
      package is made, taking a fresh id, and then replaces whatever the
      sending buffer held, which is destroyed and gives its id back. */
  ghost function Delivered(di: TimeOffset, buffer: Option<Package>, pool: IdPool, t: Time): (Option<Package>, IdPool)
    requires di != 0
  {
    if CppRem(t, di) == 1 then (Some(Package(NextId(pool))), DisposedSlot(Acquired(pool), buffer))
    else (buffer, pool)
  }

  /** The worker takes the next package from its queue, if there is one, and
      starts it at `t`. */
  function TakeNext(w: WorkerState, kind: QueueType, t: Time): (r: WorkerState)
    ensures w.queue == [] ==> r == w
    ensures w.queue != [] ==> r.processing.Some? && r.start == t && r.buffer == w.buffer
    ensures w.queue != [] ==> multiset(r.queue) + multiset{r.processing.value} == multiset(w.queue)
  {
    if w.queue == [] then w
    else
      var popped := Popped(w.queue, kind).value;
      PopRemovesOne(w.queue, kind);
      w.(queue := popped.1, processing := Some(popped.0), start := t)
  }

  /** Whether a package started at `start` is done at `t`. */
  predicate Finished(pd: TimeOffset, start: Time, t: Time) {
    t - start + 1 >= pd
  }

  /** `Worker::do_work(t)`: an idle worker takes a package; a package whose
      processing time is up moves to the sending buffer (destroying what was
      there), and the next one is taken at once. */
  function Worked(pd: TimeOffset, kind: QueueType, w: WorkerState, pool: IdPool, t: Time): (WorkerState, IdPool) {
    var w1 := if w.processing.None? then TakeNext(w, kind, t) else w;
    if w1.processing.Some? && Finished(pd, w1.start, t) then
      (TakeNext(w1.(buffer := w1.processing, processing := None), kind, t), DisposedSlot(pool, w1.buffer))
    else (w1, pool)
  }

  /** `PackageSender::send_package` once the draw `p` is known: with an empty
      buffer nothing happens; otherwise the package goes to the receiver the
      table chooses, and stays in the buffer if none is chosen. */
  function SendOutcome(entries: seq<Entry>, buffer: Option<Package>, p: real): (Option<Handover>, Option<Package>) {
    if buffer.None? then (None, None)
    else
      match Choose(entries, p)
      case None => (None, buffer)
      case Some(r) => (Some(Handover(r, buffer.value)), None)
  }

  // ---------------------------------------------------------------------
  // Properties of the steps
  // ---------------------------------------------------------------------

  /** A delivery at a tick with `t % di == 1` puts into the buffer a package
      whose id was not assigned before, and the package it replaces gives
      its id back: that id ends up freed and no longer assigned. At any
      other tick neither the buffer nor the allocator changes. This holds
      while the sets are disjoint and a buffered package owns an assigned
      id. */
  lemma DeliveryEffect(di: TimeOffset, buffer: Option<Package>, pool: IdPool, t: Time)
    requires di != 0 && Disjoint(pool)
    requires buffer.Some? && buffer.value.id != NoId ==> buffer.value.id in pool.assignedIds
    ensures var (b, pool') := Delivered(di, buffer, pool, t);
            (CppRem(t, di) == 1 ==> b.Some? && b.value.id !in pool.assignedIds) &&
            (CppRem(t, di) == 1 && buffer.Some? && buffer.value.id != NoId ==>
               buffer.value.id in pool'.freedIds && buffer.value.id !in pool'.assignedIds &&
               b.value.id != buffer.value.id) &&
            (CppRem(t, di) != 1 ==> b == buffer && pool' == pool)
  {
    if CppRem(t, di) == 1 {
      AcquirePreservesDisjoint(pool);
    }
  }

  /** When the allocator's sets are disjoint and the package being replaced
      owns an assigned id, the new package's id is still assigned after the
      old one is given back, and the sets stay disjoint. */
  lemma DeliveryKeepsNewIdAssigned(di: TimeOffset, buffer: Option<Package>, pool: IdPool, t: Time)
    requires di != 0 && CppRem(t, di) == 1
    requires Disjoint(pool)
    requires buffer.Some? && buffer.value.id != NoId ==> buffer.value.id in pool.assignedIds
    ensures NextId(pool) in Delivered(di, buffer, pool, t).1.assignedIds
    ensures Disjoint(Delivered(di, buffer, pool, t).1)
  {
    AcquirePreservesDisjoint(pool);
    if buffer.Some? && buffer.value.id != NoId {
      ReleasePreservesDisjoint(Acquired(pool), buffer.value.id);
    }
  }

  /** With an interval of 1 the remainder is always 0, so a ramp with
      `di == 1` never delivers; with `di == 2` over ticks 1..5 it delivers
      at 1, 3 and 5. */
  lemma DeliverySchedule(t: Time)
    ensures CppRem(t, 1) == 0
    ensures 1 <= t <= 5 ==> (CppRem(t, 2) == 1 <==> t == 1 || t == 3 || t == 5)
  {
  }

  /** For positive ticks and intervals of at least 2, the rule is the
      familiar "every `di` ticks, starting at 1". */
  lemma DeliveryEveryInterval(t: Time, di: TimeOffset)
    requires t >= 1 && di >= 2
    ensures CppRem(t, di) == 1 <==> exists k: nat :: t == k * di + 1
  {
    if CppRem(t, di) == 1 {
      var k := t / di;
      assert t == k * di + t % di;
      assert t == k * di + 1;
    } else if exists k: nat :: t == k * di + 1 {
      var k: nat :| t == k * di + 1;
      assert (k * di + 1) % di == 1 by {
        ModOfMultiplePlusOne(k, di);
      }
    }
  }

  lemma ModOfMultiplePlusOne(k: nat, d: int)
    requires d >= 2
    ensures (k * d + 1) % d == 1
  {
    var q := (k * d + 1) / d;
    var r := (k * d + 1) % d;
    assert k * d + 1 == q * d + r;
    assert (k - q) * d == r - 1;
    if k - q >= 1 {
      MultipleBounds(k - q, d);
    } else if k - q <= -1 {
      MultipleBounds(k - q, d);
    }
  }

  /** Taking the next package into an idle worker moves it inside the
      worker and keeps the buffer. */
  lemma TakeNextKeepsHeld(w: WorkerState, kind: QueueType, t: Time)
    requires w.processing.None?
    ensures multiset(Held(TakeNext(w, kind, t))) == multiset(Held(w))
    ensures TakeNext(w, kind, t).buffer == w.buffer
  {
    if w.queue != [] {
      var r := TakeNext(w, kind, t);
      assert multiset(Held(r)) == multiset(r.queue) + multiset{r.processing.value} + multiset(Slot(r.buffer));
      assert multiset(Held(w)) == multiset(w.queue) + multiset(Slot(w.processing)) + multiset(Slot(w.buffer));
    }
  }

  /** Finishing a package moves it into the buffer, where it displaces the
      package the buffer held; taking the next one changes nothing else. */
  lemma FinishKeepsHeld(w1: WorkerState, kind: QueueType, t: Time)
    requires w1.processing.Some?
    ensures var w3 := TakeNext(w1.(buffer := w1.processing, processing := None), kind, t);
            multiset(Held(w3)) + multiset(Slot(w1.buffer)) == multiset(Held(w1))
  {
    var w2 := w1.(buffer := w1.processing, processing := None);
    assert Held(w1) == w1.queue + [w1.processing.value] + Slot(w1.buffer);
    assert Held(w2) == w1.queue + [] + [w1.processing.value];
    TakeNextKeepsHeld(w2, kind, t);
  }

  /** One `do_work` step loses no package except the one a finished package
      overwrites in the sending buffer: nothing is added, at most one package
      goes, and none goes while the buffer is empty. */
  lemma WorkConserves(pd: TimeOffset, kind: QueueType, w: WorkerState, pool: IdPool, t: Time)
    ensures multiset(Held(Worked(pd, kind, w, pool, t).0)) <= multiset(Held(w))
    ensures |Held(w)| - |Held(Worked(pd, kind, w, pool, t).0)| <= 1
    ensures w.buffer.None? ==> multiset(Held(Worked(pd, kind, w, pool, t).0)) == multiset(Held(w))
    ensures Worked(pd, kind, w, pool, t).1 == pool || (w.buffer.Some? && Worked(pd, kind, w, pool, t).1 == Disposed(pool, w.buffer.value))
  {
    var w1 := if w.processing.None? then TakeNext(w, kind, t) else w;
    var m := multiset(Held(w));
    assert multiset(Held(w1)) == m && w1.buffer == w.buffer by {
      if w.processing.None? {
        TakeNextKeepsHeld(w, kind, t);
      }
    }
    var res := Worked(pd, kind, w, pool, t);
    if w1.processing.Some? && Finished(pd, w1.start, t) {
      var w3 := TakeNext(w1.(buffer := w1.processing, processing := None), kind, t);
      assert res == (w3, DisposedSlot(pool, w.buffer));
      var lost := multiset(Slot(w.buffer));
      assert multiset(Held(w3)) + lost == m by {
        FinishKeepsHeld(w1, kind, t);
      }
      assert |lost| <= 1;
    } else {
      assert res == (w1, pool);
    }
  }

  /** With a processing time of 3, a package taken at tick 1 stays in
      progress at ticks 1 and 2 and reaches the sending buffer at tick 3. */
  lemma WorkScenario(p: Package, pool: IdPool)
    ensures var s0 := WorkerState([p], None, 0, None);
            var (s1, pool1) := Worked(3, FIFO, s0, pool, 1);
            var (s2, pool2) := Worked(3, FIFO, s1, pool1, 2);
            var (s3, pool3) := Worked(3, FIFO, s2, pool2, 3);
            s1 == WorkerState([], Some(p), 1, None) &&
            s2 == s1 &&
            s3 == WorkerState([], None, 1, Some(p)) &&
            pool3 == pool
  {
    assert [p][1..] == [];
  }

  /** A worker does not wait for its buffer to be sent: a finished package
      replaces an unsent one, which is destroyed. */
  lemma WorkOverwritesBuffer(pd: TimeOffset, kind: QueueType, q: Package, old_: Package, pool: IdPool, t: Time)
    requires Finished(pd, t, t)
    ensures var (s, pool') := Worked(pd, kind, WorkerState([], Some(q), t, Some(old_)), pool, t);
            s.buffer == Some(q) && s.processing.None? && pool' == Disposed(pool, old_)
  {
  }

  /** Sending with an empty buffer hands nothing over; otherwise the package
      is handed over exactly when the table chooses a receiver, and then the
      buffer is emptied. No package is made or lost. */
  lemma SendEffect(entries: seq<Entry>, buffer: Option<Package>, p: real)
    ensures var (h, b) := SendOutcome(entries, buffer, p);
            (buffer.None? ==> h.None? && b.None?) &&
            (buffer.Some? && Choose(entries, p).None? ==> h.None? && b == buffer) &&
            (buffer.Some? && Choose(entries, p).Some? ==>
               h == Some(Handover(Choose(entries, p).value, buffer.value)) && b.None?) &&
            (if h.Some? then [h.value.package] else []) + Slot(b) == Slot(buffer)
  {
  }

  /** On a well-formed non-empty table a draw in [0, 1] always sends the
      package to one of the table's receivers. */
  lemma SendAlwaysSucceeds(entries: seq<Entry>, pkg: Package, p: real)
    requires WellFormed(entries) && |entries| > 0 && 0.0 <= p <= 1.0
    ensures SendOutcome(entries, Some(pkg), p).0.Some?
    ensures SendOutcome(entries, Some(pkg), p).0.value.to in Keys(entries)
  {
    ChooseNothing(entries, p);
  }

  // ---------------------------------------------------------------------
  // The objects
  // ---------------------------------------------------------------------

  /** `PackageSender`: a routing table and a one-package sending buffer. */
  class PackageSender {
    const prefs: ReceiverPreferences
    var buffer: Option<Package>

    constructor()
      ensures buffer == None && fresh(prefs) && prefs.entries == []
    {
      prefs := new ReceiverPreferences();
      buffer := None;
    }

    /** `push_package`: `std::optional::emplace` destroys the package the
        buffer held before taking the new one. */
    method PushPackage(p: Package, alloc: IdAllocator)
      modifies this, alloc
      ensures buffer == Some(p)
      ensures alloc.Pool() == DisposedSlot(old(alloc.Pool()), old(buffer))
    {
      if buffer.Some? {
        alloc.Destroy(buffer.value);
      }
      buffer := Some(p);
    }

    /** `send_package`: a draw is taken from the generator only when the
        buffer holds a package. */
    method SendPackage(gen: ProbabilityGenerator) returns (h: Option<Handover>)
      modifies this, gen
      ensures old(buffer).None? ==> gen.calls == old(gen.calls)
      ensures old(buffer).Some? ==> gen.calls == old(gen.calls) + 1
      ensures (h, buffer) == SendOutcome(prefs.entries, old(buffer), gen.draw(old(gen.calls)))
    {
      if buffer.None? {
        return None;
      }
      var p := gen.Next();
      var r := prefs.ChooseReceiver(p);
      if r.Some? {
        h := Some(Handover(r.value, buffer.value));
        buffer := None;
      } else {
        h := None;
      }
    }
  }

  /** `Ramp`. The tick field of the source is never read and is left out. */
  class Ramp {
    const id: ElementID
    const di: TimeOffset
    const sender: PackageSender

    constructor(id: ElementID, di: TimeOffset)
      ensures this.id == id && this.di == di
      ensures fresh(sender) && fresh(sender.prefs)
      ensures sender.buffer == None && sender.prefs.entries == []
    {
      this.id := id;
      this.di := di;
      sender := new PackageSender();
    }

    /** `deliver_goods`. The remainder by a zero interval is undefined in
        C++, so the interval must be non-zero. */
    method DeliverGoods(t: Time, alloc: IdAllocator)
      requires di != 0
      modifies sender, alloc
      ensures (sender.buffer, alloc.Pool()) == Delivered(di, old(sender.buffer), old(alloc.Pool()), t)
    {
      if CppRem(t, di) == 1 {
        var p := alloc.NewPackage();
        sender.PushPackage(p, alloc);
      }
    }
  }

  /** `Worker`: a queue of waiting packages, at most one package in
      progress, and a sender. */
  class Worker {
    const id: ElementID
    const pd: TimeOffset
    const queue: PackageQueue
    const sender: PackageSender
    var processing: Option<Package>
    var start: Time

    constructor(id: ElementID, pd: TimeOffset, queue: PackageQueue)
      ensures this.id == id && this.pd == pd && this.queue == queue
      ensures fresh(sender) && fresh(sender.prefs)
      ensures sender.buffer == None && sender.prefs.entries == []
      ensures processing == None && start == 0
    {
      this.id := id;
      this.pd := pd;
      this.queue := queue;
      sender := new PackageSender();
      processing := None;
      start := 0;
    }

    function State(): WorkerState
      reads this, queue, sender
    {
      WorkerState(queue.packages, processing, start, sender.buffer)
    }

    /** `Worker::do_work`. */
    method DoWork(t: Time, alloc: IdAllocator)
      modifies this, queue, sender, alloc
      ensures (State(), alloc.Pool()) == Worked(pd, queue.kind, old(State()), old(alloc.Pool()), t)
    {
      if processing.None? && !queue.Empty() {
        var r := queue.Pop();
        processing := Some(r.value);
        start := t;
      }
      if processing.Some? && t - start + 1 >= pd {
        sender.PushPackage(processing.value, alloc);
        processing := None;
        if !queue.Empty() {
          var r := queue.Pop();
          processing := Some(r.value);
          start := t;
        }
      }
    }

    /** `Worker::receive_package`: the package joins the queue. */
    method ReceivePackage(p: Package)
      modifies queue
      ensures queue.packages == old(queue.packages) + [p]
    {
      queue.Push(p);
    }
  }

  /** `Storehouse`: a stockpile that only ever receives. */
  class Storehouse {
    const id: ElementID
    const stock: PackageQueue

    constructor(id: ElementID, stock: PackageQueue)
      ensures this.id == id && this.stock == stock
    {
      this.id := id;
      this.stock := stock;
    }

    /** The source's default stockpile is a FIFO queue. */
    constructor WithDefaultStock(id: ElementID)
      ensures this.id == id && fresh(stock) && stock.kind == FIFO && stock.packages == []
    {
      this.id := id;
      stock := new PackageQueue(FIFO);
    }

    /** `Storehouse::receive_package`: the package joins the stockpile. */
    method ReceivePackage(p: Package)
      modifies stock
      ensures stock.packages == old(stock.packages) + [p]
    {
      stock.Push(p);
    }
  }
}
