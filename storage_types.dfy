/**
 * The package queue (storage_types.hxx, storage_types.cpp): a list of
 * packages with a fixed discipline, FIFO or LIFO, that decides which end
 * `pop` takes from. Storehouses use the same class as their stockpile and
 * only ever push into it.
 */
module StorageTypes {
  import opened Types
  import opened Packages

  /** What `pop` yields on a queue holding `s`: the error the source throws
      on an empty queue, otherwise the package taken and what is left. */
  function Popped(s: seq<Package>, kind: QueueType): (r: Result<(Package, seq<Package>)>)
    ensures r.Err? <==> s == []
    ensures r.Err? ==> r.msg == "Queue is empty"
    ensures r.Ok? && kind == FIFO ==> s == [r.value.0] + r.value.1
    ensures r.Ok? && kind == LIFO ==> s == r.value.1 + [r.value.0]
  {
    if s == [] then Err("Queue is empty")
    else if kind == FIFO then Ok((s[0], s[1..]))
    else Ok((s[|s| - 1], s[..|s| - 1]))
  }

  /** Popping takes exactly one package out and loses none. */
  lemma PopRemovesOne(s: seq<Package>, kind: QueueType)
    requires s != []
    ensures |Popped(s, kind).value.1| == |s| - 1
    ensures multiset(s) == multiset(Popped(s, kind).value.1) + multiset{Popped(s, kind).value.0}
  {
    var p := Popped(s, kind).value.0;
    var rest := Popped(s, kind).value.1;
    if kind == FIFO {
      assert s == [p] + rest;
    } else {
      assert s == rest + [p];
    }
  }

  /** The packages a queue holding `s` hands out when popped until empty,
      in the order they come out. */
  function Drained(s: seq<Package>, kind: QueueType): (out: seq<Package>)
    ensures |out| == |s|
    decreases |s|
  {
    var r := Popped(s, kind);
    if r.Err? then [] else [r.value.0] + Drained(r.value.1, kind)
  }

  function Reversed(s: seq<Package>): (r: seq<Package>)
    ensures |r| == |s|
  {
    if s == [] then [] else Reversed(s[1..]) + [s[0]]
  }

  /** A FIFO queue hands its packages out in the order they were pushed. */
  lemma {:induction false} DrainFifo(s: seq<Package>)
    ensures Drained(s, FIFO) == s
    decreases |s|
  {
    if s != [] {
      DrainFifo(s[1..]);
    }
  }

  /** `Reversed` ends with the first element, whatever comes before. */
  lemma {:induction false} ReversedSnoc(s: seq<Package>, p: Package)
    ensures Reversed(s + [p]) == [p] + Reversed(s)
    decreases |s|
  {
    if s == [] {
      assert [p][1..] == [];
    } else {
      assert (s + [p])[1..] == s[1..] + [p];
      ReversedSnoc(s[1..], p);
    }
  }

  /** A LIFO queue hands its packages out in the reverse of the order they
      were pushed. */
  lemma {:induction false} DrainLifo(s: seq<Package>)
    ensures Drained(s, LIFO) == Reversed(s)
    decreases |s|
  {
    if s != [] {
      var front := s[..|s| - 1];
      var last := s[|s| - 1];
      assert s == front + [last];
      DrainLifo(front);
      ReversedSnoc(front, last);
    }
  }

  /** Pushing P1, P2, P3 into an empty queue and popping three times yields
      P1, P2, P3 under FIFO and P3, P2, P1 under LIFO. */
  lemma ThreePackages(p1: Package, p2: Package, p3: Package)
    ensures Drained([] + [p1] + [p2] + [p3], FIFO) == [p1, p2, p3]
    ensures Drained([] + [p1] + [p2] + [p3], LIFO) == [p3, p2, p1]
  {
    var s := [p1, p2, p3];
    assert [] + [p1] + [p2] + [p3] == s;
    DrainFifo(s);
    DrainLifo(s);
    assert s[1..] == [p2, p3];
    assert s[1..][1..] == [p3];
    assert s[1..][1..][1..] == [];
  }

  /** `PackageQueue`. The discipline is fixed at construction. */
  class PackageQueue {
    const kind: QueueType
    var packages: seq<Package>

    constructor(kind: QueueType)
      ensures this.kind == kind && packages == []
    {
      this.kind := kind;
      packages := [];
    }

    /** `push`: the package joins at the back, whatever the discipline. */
    method Push(p: Package)
      modifies this
      ensures packages == old(packages) + [p]
    {
      packages := packages + [p];
    }

    /** `pop`: fails and changes nothing on an empty queue; otherwise takes
        the front (FIFO) or the back (LIFO) package. */
    method Pop() returns (r: Result<Package>)
      modifies this
      ensures old(packages) == [] ==> r == Err("Queue is empty") && packages == old(packages)
      ensures old(packages) != [] ==>
                r.Ok? && (r.value, packages) == Popped(old(packages), kind).value
    {
      if packages == [] {
        return Err("Queue is empty");
      }
      var p: Package;
      if kind == FIFO {
        p := packages[0];
        packages := packages[1..];
      } else {
        p := packages[|packages| - 1];
        packages := packages[..|packages| - 1];
      }
      r := Ok(p);
    }

    /** `size`. */
    function Size(): (n: nat)
      reads this
      ensures n == |Items()|
    {
      |packages|
    }

    /** `empty`. */
    predicate Empty()
      reads this
      ensures Empty() <==> Size() == 0
    {
      packages == []
    }

    /** What `begin()`..`end()` visits: front to back, whatever the
        discipline. */
    function Items(): (items: seq<Package>)
      reads this
      ensures forall p :: p in items <==> p in packages
    {
      packages
    }

    /** `get_queue_type`. */
    function QueueKind(): (k: QueueType)
      ensures k == kind
    {
      kind
    }
  }
}
