/**
 * The consistency check of factory.cpp: a depth-first search from every
 * ramp over the senders' routing tables, with a three-coloured map.
 *
 * The search is proved to reject a network exactly when some sender that is
 * reachable from a ramp, along edges from a sender to a worker other than
 * itself, is not "good": its table is empty or names nothing but itself.
 * A storehouse ends an edge; a worker that is not the sender is accepted as
 * a valid receiver whatever lies behind it, so a cycle of workers that never
 * reaches a storehouse passes the check.
 */
module Consistency {
  import opened Types
  import opened Routing
  import opened Network

  /** A sender: the ramp or the worker at a position of its collection. */
  datatype SenderKey = RampKey(i: nat) | WorkerKey(i: nat)

  predicate ValidKey(net: Net, k: SenderKey) {
    match k
    case RampKey(i) => i < |net.ramps|
    case WorkerKey(i) => i < |net.workers|
  }

  /** The sender's routing table. */
  function Table(net: Net, k: SenderKey): (t: seq<Entry>)
    ensures ValidKey(net, k) && k.RampKey? ==> t == net.ramps[k.i].table
    ensures ValidKey(net, k) && k.WorkerKey? ==> t == net.workers[k.i].table
  {
    match k
    case RampKey(i) => if i < |net.ramps| then net.ramps[i].table else []
    case WorkerKey(i) => if i < |net.workers| then net.workers[i].table else []
  }

  /** The sender behind a worker receiver, found by id as `find_by_id` does. */
  function TargetKey(net: Net, x: Receiver): SenderKey {
    WorkerKey(WorkerIndex(net, x.id))
  }

  /** A receiver that makes sender `k` valid: a storehouse, or a worker
      other than `k` itself. */
  predicate ValidTarget(net: Net, k: SenderKey, x: Receiver) {
    x.kind == StorehouseKind || TargetKey(net, x) != k
  }

  /** The sender has receivers and one of them makes it valid. */
  predicate Good(net: Net, k: SenderKey) {
    var t := Table(net, k);
    |t| > 0 && exists j :: 0 <= j < |t| && ValidTarget(net, k, t[j].receiver)
  }

  /** The search goes on from `k` to the worker `s`. */
  predicate Edge(net: Net, k: SenderKey, s: SenderKey) {
    var t := Table(net, k);
    s != k && exists j :: 0 <= j < |t| && t[j].receiver.kind == WorkerKind && TargetKey(net, t[j].receiver) == s
  }

  ghost predicate IsPath(net: Net, p: seq<SenderKey>) {
    |p| > 0 && p[0].RampKey? && ValidKey(net, p[0]) &&
    forall i :: 0 < i < |p| ==> Edge(net, p[i - 1], p[i])
  }

  ghost predicate Reachable(net: Net, k: SenderKey) {
    exists p :: IsPath(net, p) && p[|p| - 1] == k
  }

  /** What `is_consistent` decides: every sender the search can reach is good. */
  ghost predicate Consistent(net: Net) {
    forall k :: Reachable(net, k) ==> Good(net, k)
  }

  // ---------------------------------------------------------------------
  // Colour maps
  // ---------------------------------------------------------------------

  ghost predicate Covers(net: Net, c: map<SenderKey, NodeColor>) {
    forall k :: ValidKey(net, k) ==> k in c
  }

  function Unvisiteds(c: map<SenderKey, NodeColor>): set<SenderKey> {
    set k | k in c && c[k] == Unvisited
  }

  function Visiteds(c: map<SenderKey, NodeColor>): set<SenderKey> {
    set k | k in c && c[k] == Visited
  }

  /** Colours only move away from `Unvisited`. */
  predicate Monotone(c: map<SenderKey, NodeColor>, d: map<SenderKey, NodeColor>) {
    d.Keys == c.Keys && forall k :: k in c && c[k] != Unvisited ==> d[k] != Unvisited
  }

  /** Every successor of `k` has been reached. */
  ghost predicate Closed(net: Net, c: map<SenderKey, NodeColor>, k: SenderKey) {
    forall s :: Edge(net, k, s) ==> s in c && c[s] != Unvisited
  }

  /** What the colours mean: a coloured sender is reachable, and a verified
      one is good with all its successors reached. */
  ghost predicate Inv(net: Net, c: map<SenderKey, NodeColor>) {
    (forall k :: k in c && c[k] != Unvisited ==> Reachable(net, k)) &&
    (forall k :: k in c && c[k] == Verified ==> Good(net, k) && Closed(net, c, k))
  }

  // ---------------------------------------------------------------------
  // Paths
  // ---------------------------------------------------------------------

  /** On a linked network a worker receiver names an existing worker. */
  lemma TargetValid(net: Net, k: SenderKey, j: nat)
    requires Linked(net) && ValidKey(net, k)
    requires j < |Table(net, k)| && Table(net, k)[j].receiver.kind == WorkerKind
    ensures ValidKey(net, TargetKey(net, Table(net, k)[j].receiver))
  {
    var t := Table(net, k);
    assert Keys(t)[j] == t[j].receiver;
    if k.RampKey? {
      assert net.ramps[k.i] in net.ramps;
    } else {
      assert net.workers[k.i] in net.workers;
    }
    assert TableLinked(net, t);
    assert Exists(net, t[j].receiver);
    assert WorkerIndex(net, t[j].receiver.id) < |WorkerIds(net.workers)|;
  }

  lemma {:induction false} PathKeysValid(net: Net, p: seq<SenderKey>)
    requires Linked(net) && IsPath(net, p)
    ensures ValidKey(net, p[|p| - 1])
    decreases |p|
  {
    if |p| > 1 {
      var q := p[..|p| - 1];
      assert IsPath(net, q);
      PathKeysValid(net, q);
      var k := q[|q| - 1];
      assert Edge(net, k, p[|p| - 1]);
      var t := Table(net, k);
      var j :| 0 <= j < |t| && t[j].receiver.kind == WorkerKind && TargetKey(net, t[j].receiver) == p[|p| - 1];
      TargetValid(net, k, j);
    }
  }

  lemma RampReachable(net: Net, i: nat)
    requires i < |net.ramps|
    ensures Reachable(net, RampKey(i))
  {
    assert IsPath(net, [RampKey(i)]);
  }

  lemma ReachableStep(net: Net, k: SenderKey, s: SenderKey)
    requires Reachable(net, k) && Edge(net, k, s)
    ensures Reachable(net, s)
  {
    var p :| IsPath(net, p) && p[|p| - 1] == k;
    assert IsPath(net, p + [s]);
  }

  /** With no sender left in progress, every sender on a path from a ramp
      is verified once every ramp is. */
  lemma {:induction false} PathVerified(net: Net, c: map<SenderKey, NodeColor>, p: seq<SenderKey>)
    requires Covers(net, c) && Visiteds(c) == {} && Inv(net, c)
    requires forall i :: 0 <= i < |net.ramps| ==> c[RampKey(i)] == Verified
    requires IsPath(net, p)
    ensures p[|p| - 1] in c && c[p[|p| - 1]] == Verified
    decreases |p|
  {
    if |p| > 1 {
      var q := p[..|p| - 1];
      assert IsPath(net, q);
      PathVerified(net, c, q);
      var s := p[|p| - 1];
      assert Edge(net, q[|q| - 1], s);
      assert s !in Visiteds(c);
    }
  }

  lemma ClosedImpliesConsistent(net: Net, c: map<SenderKey, NodeColor>)
    requires Covers(net, c) && Visiteds(c) == {} && Inv(net, c)
    requires forall i :: 0 <= i < |net.ramps| ==> c[RampKey(i)] == Verified
    ensures Consistent(net)
  {
    forall k | Reachable(net, k)
      ensures Good(net, k)
    {
      var p :| IsPath(net, p) && p[|p| - 1] == k;
      PathVerified(net, c, p);
    }
  }

  /** With nothing in progress, a ramp once verified stays verified. */
  lemma StillVerified(net: Net, c: map<SenderKey, NodeColor>, d: map<SenderKey, NodeColor>, n: nat)
    requires Covers(net, c) && Monotone(c, d) && Visiteds(d) == {} && n < |net.ramps|
    requires forall i :: 0 <= i < n ==> c[RampKey(i)] == Verified
    requires d[RampKey(n)] == Verified
    ensures forall i :: 0 <= i <= n ==> d[RampKey(i)] == Verified
  {
    forall i | 0 <= i <= n
      ensures d[RampKey(i)] == Verified
    {
      assert RampKey(i) !in Visiteds(d);
    }
  }

  // ---------------------------------------------------------------------
  // The search
  // ---------------------------------------------------------------------

  /** The first `j` entries of `key`'s table that lead on to another worker
      lead to senders already reached. */
  ghost predicate Followed(net: Net, key: SenderKey, c: map<SenderKey, NodeColor>, j: nat) {
    var t := Table(net, key);
    forall i :: 0 <= i < j && i < |t| && t[i].receiver.kind == WorkerKind && TargetKey(net, t[i].receiver) != key ==>
      TargetKey(net, t[i].receiver) in c && c[TargetKey(net, t[i].receiver)] != Unvisited
  }

  lemma MonotoneTransitive(a: map<SenderKey, NodeColor>, b: map<SenderKey, NodeColor>, c: map<SenderKey, NodeColor>)
    requires Monotone(a, b) && Monotone(b, c)
    ensures Monotone(a, c) && Unvisiteds(c) <= Unvisiteds(b)
  {
  }

  lemma FollowedKept(net: Net, key: SenderKey, c: map<SenderKey, NodeColor>, d: map<SenderKey, NodeColor>, j: nat)
    requires Followed(net, key, c, j) && Monotone(c, d)
    ensures Followed(net, key, d, j)
  {
  }

  /** Whether one of the first `j` entries of `t` makes `key` valid, as the
      search's flag records it entry by entry. */
  function AnyValid(net: Net, key: SenderKey, t: seq<Entry>, j: nat): bool
    requires j <= |t|
  {
    j > 0 && (AnyValid(net, key, t, j - 1) || ValidTarget(net, key, t[j - 1].receiver))
  }

  lemma AnyValidStep(net: Net, key: SenderKey, t: seq<Entry>, j: nat)
    requires j < |t|
    ensures AnyValid(net, key, t, j + 1) == (AnyValid(net, key, t, j) || ValidTarget(net, key, t[j].receiver))
  {
  }

  lemma {:induction false} AnyValidMeansGood(net: Net, key: SenderKey, t: seq<Entry>, j: nat)
    requires j <= |t|
    ensures AnyValid(net, key, t, j) <==> exists i :: 0 <= i < j && ValidTarget(net, key, t[i].receiver)
  {
    if j > 0 {
      AnyValidMeansGood(net, key, t, j - 1);
    }
  }

  lemma FollowedStep(net: Net, key: SenderKey, c: map<SenderKey, NodeColor>, j: nat)
    requires j < |Table(net, key)| && Followed(net, key, c, j)
    requires var x := Table(net, key)[j].receiver;
      x.kind == WorkerKind && TargetKey(net, x) != key ==> TargetKey(net, x) in c && c[TargetKey(net, x)] != Unvisited
    ensures Followed(net, key, c, j + 1)
  {
  }

  /** Marking `key` verified once all its entries were followed keeps `Inv`. */
  lemma FinishKeepsInv(net: Net, key: SenderKey, c: map<SenderKey, NodeColor>)
    requires Inv(net, c) && key in c && c[key] != Unvisited && Good(net, key)
    requires Followed(net, key, c, |Table(net, key)|)
    ensures Inv(net, c[key := Verified]) && Monotone(c, c[key := Verified])
    ensures Visiteds(c[key := Verified]) <= Visiteds(c) - {key}
  {
    var d := c[key := Verified];
    forall s | Edge(net, key, s)
      ensures s in c && c[s] != Unvisited
    {
      var t := Table(net, key);
      var i :| 0 <= i < |t| && t[i].receiver.kind == WorkerKind && TargetKey(net, t[i].receiver) == s;
    }
    forall k | k in d && d[k] == Verified
      ensures Good(net, k) && Closed(net, d, k)
    {
      assert Closed(net, c, k);
    }
  }

  /** `has_reachable_storehouse`: a verified sender is accepted at once;
      otherwise it is marked in progress, each worker it names other than
      itself is searched if unvisited, and it is marked verified. A failure
      anywhere means the network is inconsistent; success leaves the sender
      verified, colours no new sender in progress, and keeps `Inv`. */
  method HasReachableStorehouse(net: Net, key: SenderKey, colors: map<SenderKey, NodeColor>)
    returns (r: Result<bool>, colors': map<SenderKey, NodeColor>)
    requires Linked(net) && Covers(net, colors) && key in colors
    requires colors[key] != Visited && Reachable(net, key) && Inv(net, colors)
    ensures r.Err? ==> !Consistent(net)
    ensures r.Ok? ==> r.value && Monotone(colors, colors') && colors'[key] == Verified
    ensures r.Ok? ==> Visiteds(colors') <= Visiteds(colors) && Inv(net, colors')
    decreases Unvisiteds(colors)
  {
    if colors[key] == Verified {
      return Ok(true), colors;
    }
    colors' := colors[key := Visited];
    var table := Table(net, key);
    if |table| == 0 {
      return Err("Sender has no receivers"), colors';
    }
    var valid := false;
    for j := 0 to |table|
      invariant Monotone(colors, colors') && colors'[key] != Unvisited
      invariant Visiteds(colors') <= Visiteds(colors) + {key}
      invariant Unvisiteds(colors') <= Unvisiteds(colors) - {key}
      invariant Inv(net, colors')
      invariant valid == AnyValid(net, key, table, j)
      invariant Followed(net, key, colors', j)
    {
      var x := table[j].receiver;
      if x.kind == StorehouseKind {
        valid := true;
      } else {
        var s := TargetKey(net, x);
        if s != key {
          valid := true;
          TargetValid(net, key, j);
          if colors'[s] == Unvisited {
            assert Edge(net, key, s);
            ReachableStep(net, key, s);
            var r', c' := HasReachableStorehouse(net, s, colors');
            if r'.Err? {
              return r', c';
            }
            MonotoneTransitive(colors, colors', c');
            FollowedKept(net, key, colors', c', j);
            colors' := c';
          }
        }
      }
      FollowedStep(net, key, colors', j);
      AnyValidStep(net, key, table, j);
    }
    AnyValidMeansGood(net, key, table, |table|);
    if !valid {
      return Err("No reachable storehouse"), colors'[key := Verified];
    }
    FinishKeepsInv(net, key, colors');
    MonotoneTransitive(colors, colors', colors'[key := Verified]);
    colors' := colors'[key := Verified];
    return Ok(true), colors';
  }

  /** `is_consistent`: colour every ramp and worker unvisited, search from
      every ramp in order, and answer false at the first failure. The answer
      is exactly `Consistent`. */
  method IsConsistent(net: Net) returns (ok: bool)
    requires Linked(net)
    ensures ok == Consistent(net)
  {
    var colors: map<SenderKey, NodeColor> := map[];
    for i := 0 to |net.ramps|
      invariant forall k :: k in colors ==> colors[k] == Unvisited
      invariant forall i' :: 0 <= i' < i ==> RampKey(i') in colors
    {
      colors := colors[RampKey(i) := Unvisited];
    }
    for i := 0 to |net.workers|
      invariant forall k :: k in colors ==> colors[k] == Unvisited
      invariant forall i' :: 0 <= i' < |net.ramps| ==> RampKey(i') in colors
      invariant forall i' :: 0 <= i' < i ==> WorkerKey(i') in colors
    {
      colors := colors[WorkerKey(i) := Unvisited];
    }
    for i := 0 to |net.ramps|
      invariant Covers(net, colors) && Visiteds(colors) == {} && Inv(net, colors)
      invariant forall i' :: 0 <= i' < i ==> colors[RampKey(i')] == Verified
    {
      RampReachable(net, i);
      assert RampKey(i) !in Visiteds(colors);
      var r, c := HasReachableStorehouse(net, RampKey(i), colors);
      if r.Err? {
        return false;
      }
      StillVerified(net, colors, c, i);
      colors := c;
    }
    ClosedImpliesConsistent(net, colors);
    return true;
  }

  /** The search starts only at ramps: without ramps nothing is reachable,
      and the network is consistent whatever its workers' tables say. */
  lemma NoRampsConsistent(net: Net)
    requires net.ramps == []
    ensures Consistent(net)
  {
    forall p: seq<SenderKey>
      ensures !IsPath(net, p)
    {
      if |p| > 0 && p[0].RampKey? {
        assert !ValidKey(net, p[0]);
      }
    }
  }

  // ---------------------------------------------------------------------
  // Two networks
  // ---------------------------------------------------------------------

  function ToWorker(id: ElementID): seq<Entry> {
    [Entry(Receiver(WorkerKind, id), 1.0)]
  }

  /** A ramp feeding worker 1, whose only receiver is itself. */
  function SelfLoopNet(): Net {
    Net([RampConfig(1, 1, ToWorker(1))], [WorkerConfig(1, 1, FIFO, ToWorker(1))], [])
  }

  /** A ramp feeding worker 1; workers 1 and 2 send to each other and no
      storehouse exists. */
  function CycleNet(): Net {
    Net([RampConfig(1, 1, ToWorker(1))],
        [WorkerConfig(1, 1, FIFO, ToWorker(2)), WorkerConfig(2, 1, FIFO, ToWorker(1))],
        [])
  }

  /** A worker whose only receiver is itself fails the check. */
  lemma SelfLoopRejected()
    ensures Linked(SelfLoopNet()) && !Consistent(SelfLoopNet())
  {
    var net := SelfLoopNet();
    assert WorkerIds(net.workers) == [1];
    assert Keys(ToWorker(1)) == [Receiver(WorkerKind, 1)];
    assert TargetKey(net, Receiver(WorkerKind, 1)) == WorkerKey(0);
    assert Table(net, RampKey(0))[0].receiver == Receiver(WorkerKind, 1);
    assert Edge(net, RampKey(0), WorkerKey(0));
    assert IsPath(net, [RampKey(0), WorkerKey(0)]);
    assert !Good(net, WorkerKey(0));
  }

  lemma CycleSendersGood(k: SenderKey)
    requires ValidKey(CycleNet(), k)
    ensures Good(CycleNet(), k)
  {
    var net := CycleNet();
    assert WorkerIds(net.workers) == [1, 2];
    var x := Table(net, k)[0].receiver;
    if k == WorkerKey(0) {
      assert x == Receiver(WorkerKind, 2);
      assert TargetKey(net, x) == WorkerKey(1);
    } else {
      assert x == Receiver(WorkerKind, 1);
      assert TargetKey(net, x) == WorkerKey(0);
    }
    assert ValidTarget(net, k, x);
  }

  /** A cycle of workers that never reaches a storehouse passes the check:
      each of them names a worker other than itself. */
  lemma CycleWithoutStorehouseAccepted()
    ensures Linked(CycleNet()) && Consistent(CycleNet())
  {
    var net := CycleNet();
    assert WorkerIds(net.workers) == [1, 2];
    assert Keys(ToWorker(1)) == [Receiver(WorkerKind, 1)];
    assert Keys(ToWorker(2)) == [Receiver(WorkerKind, 2)];
    forall k | Reachable(net, k)
      ensures Good(net, k)
    {
      var p :| IsPath(net, p) && p[|p| - 1] == k;
      PathKeysValid(net, p);
      CycleSendersGood(k);
    }
  }
}
