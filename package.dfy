/**
 * Packages and the allocator of their identifiers (package.hxx, package.cpp).
 *
 * The source keeps the allocator's state in two static sets of `Package`;
 * here they are the fields of an explicit `IdAllocator` object that every
 * operation creating or destroying a package receives. A package held by a
 * container or an optional slot is owned by value and carries nothing but its
 * id, so the model represents it as a value; a moved-from package keeps the
 * id `NoId`.
 */
module Packages {
  import opened Types

  /** The id a moved-from package is left with (package.cpp:35, 44). */
  const NoId: ElementID := -1

  datatype Package = Package(id: ElementID)

  /** The contents of the two static sets `assigned_IDs_` and `freed_IDs_`. */
  datatype IdPool = IdPool(assignedIds: set<ElementID>, freedIds: set<ElementID>)

  const EmptyPool := IdPool({}, {})

  predicate Disjoint(pool: IdPool) {
    pool.assignedIds !! pool.freedIds
  }

  predicate IsLeast(m: int, s: set<int>) {
    m in s && forall x :: x in s ==> m <= x
  }

  predicate IsGreatest(m: int, s: set<int>) {
    m in s && forall x :: x in s ==> x <= m
  }

  /** A non-empty finite set of integers has a least element: what
      `std::set::begin()` designates. */
  lemma {:induction false} LeastExists(s: set<int>)
    requires s != {}
    ensures exists m :: IsLeast(m, s)
  {
    if forall y :: y !in s {
      assert false;
    }
    var x :| x in s;
    if s == {x} {
      assert IsLeast(x, s);
    } else {
      var rest := s - {x};
      LeastExists(rest);
      var m :| IsLeast(m, rest);
      forall y | y in s ensures y == x || y in rest {}
      if x < m {
        assert IsLeast(x, s);
      } else {
        assert IsLeast(m, s);
      }
    }
  }

  /** A non-empty finite set of integers has a greatest element: what
      `std::set::rbegin()` designates. */
  lemma {:induction false} GreatestExists(s: set<int>)
    requires s != {}
    ensures exists m :: IsGreatest(m, s)
  {
    if forall y :: y !in s {
      assert false;
    }
    var x :| x in s;
    if s == {x} {
      assert IsGreatest(x, s);
    } else {
      var rest := s - {x};
      GreatestExists(rest);
      var m :| IsGreatest(m, rest);
      forall y | y in s ensures y == x || y in rest {}
      if x > m {
        assert IsGreatest(x, s);
      } else {
        assert IsGreatest(m, s);
      }
    }
  }

  ghost function Least(s: set<int>): (m: int)
    requires s != {}
  {
    LeastExists(s);
    var m :| IsLeast(m, s); m
  }

  ghost function Greatest(s: set<int>): (m: int)
    requires s != {}
  {
    GreatestExists(s);
    var m :| IsGreatest(m, s); m
  }

  /** The id `acquire_id` hands out from `pool`. */
  ghost function NextId(pool: IdPool): ElementID {
    if pool.freedIds != {} then Least(pool.freedIds)
    else if pool.assignedIds == {} then 1
    else Greatest(pool.assignedIds) + 1
  }

  /** The sets after `acquire_id`: the id moves to (or joins) the assigned set. */
  ghost function Acquired(pool: IdPool): IdPool {
    var id := NextId(pool);
    IdPool(pool.assignedIds + {id}, pool.freedIds - {id})
  }

  /** The sets after `release_id(id)`. */
  function Released(pool: IdPool, id: ElementID): IdPool {
    IdPool(pool.assignedIds - {id}, pool.freedIds + {id})
  }

  /** The sets after a package is destroyed: only a package that still owns
      its id gives it back. */
  function Disposed(pool: IdPool, p: Package): IdPool {
    if p.id != NoId then Released(pool, p.id) else pool
  }

  /** The sets after an optional slot holding `slot` is overwritten or reset. */
  function DisposedSlot(pool: IdPool, slot: Option<Package>): IdPool {
    if slot.Some? then Disposed(pool, slot.value) else pool
  }

  /** The sets after every package of `ps` is destroyed, front to back. */
  function DisposedAll(pool: IdPool, ps: seq<Package>): IdPool
    decreases |ps|
  {
    if ps == [] then pool else DisposedAll(Disposed(pool, ps[0]), ps[1..])
  }

  /** The ids the packages of `ps` own, that is, every id but `NoId`. */
  function OwnedIds(ps: seq<Package>): set<ElementID> {
    set p | p in ps && p.id != NoId :: p.id
  }

  /** The move constructor: the new package takes the source's id and the
      source becomes a husk; the allocator is not involved. */
  function MoveConstructed(source: Package): (r: (Package, Package))
    ensures r.0.id == source.id && r.1.id == NoId
  {
    (Package(source.id), Package(NoId))
  }

  // ---------------------------------------------------------------------
  // Properties of the allocator's specification
  // ---------------------------------------------------------------------

  /** With freed ids available, `acquire_id` reuses the smallest one and moves
      it from the freed set to the assigned set. */
  lemma AcquireReusesSmallestFreed(pool: IdPool)
    requires pool.freedIds != {}
    ensures NextId(pool) in pool.freedIds
    ensures forall x :: x in pool.freedIds ==> NextId(pool) <= x
    ensures Acquired(pool).freedIds == pool.freedIds - {NextId(pool)}
    ensures Acquired(pool).assignedIds == pool.assignedIds + {NextId(pool)}
  {
  }

  /** With no freed ids, `acquire_id` returns 1 on an empty assigned set and
      otherwise one more than the largest assigned id; either way the id was
      not assigned before and is assigned afterwards. */
  lemma AcquireExtendsWhenNoneFreed(pool: IdPool)
    requires pool.freedIds == {}
    ensures pool.assignedIds == {} ==> NextId(pool) == 1
    ensures pool.assignedIds != {} ==> NextId(pool) == Greatest(pool.assignedIds) + 1
    ensures forall x :: x in pool.assignedIds ==> x < NextId(pool)
    ensures NextId(pool) !in pool.assignedIds
    ensures Acquired(pool) == IdPool(pool.assignedIds + {NextId(pool)}, {})
  {
  }

  /** `acquire_id` keeps the two sets disjoint, and then never hands out an id
      that is already assigned. */
  lemma AcquirePreservesDisjoint(pool: IdPool)
    requires Disjoint(pool)
    ensures Disjoint(Acquired(pool))
    ensures NextId(pool) !in pool.assignedIds
    ensures NextId(pool) in Acquired(pool).assignedIds
  {
  }

  lemma ReleasePreservesDisjoint(pool: IdPool, id: ElementID)
    requires Disjoint(pool)
    ensures Disjoint(Released(pool, id))
    ensures id !in Released(pool, id).assignedIds && id in Released(pool, id).freedIds
  {
  }

  /** The explicit-id constructor inserts its id into the assigned set without
      looking at the freed set, so it can break disjointness. */
  lemma ExplicitIdCanBreakDisjoint()
    ensures var pool := IdPool({}, {1});
            Disjoint(pool) && !Disjoint(IdPool(pool.assignedIds + {1}, pool.freedIds))
  {
  }

  /** Moving a package and destroying both the moved-to package and the husk
      has the effect of destroying the original once. */
  lemma MoveTransfersOwnership(pool: IdPool, p: Package)
    ensures var (moved, husk) := MoveConstructed(p);
            Disposed(Disposed(pool, husk), moved) == Disposed(pool, p)
    ensures Disposed(pool, Package(NoId)) == pool
  {
  }

  /** Destroying a collection of packages gives back exactly the ids they
      own, whatever order the destructors run in: each such id leaves the
      assigned set and joins the freed set, and no other id moves. */
  lemma {:induction false} DisposedAllReleasesOwned(pool: IdPool, ps: seq<Package>)
    ensures DisposedAll(pool, ps) == IdPool(pool.assignedIds - OwnedIds(ps), pool.freedIds + OwnedIds(ps))
    decreases |ps|
  {
    if ps != [] {
      var tail := ps[1..];
      DisposedAllReleasesOwned(Disposed(pool, ps[0]), tail);
      assert ps == [ps[0]] + tail;
      var own := if ps[0].id != NoId then {ps[0].id} else {};
      assert OwnedIds(ps) == own + OwnedIds(tail) by {
        forall i | i in OwnedIds(ps) ensures i in own + OwnedIds(tail) {
          var p :| p in ps && p.id != NoId && p.id == i;
          if p != ps[0] {
            assert p in tail;
          }
        }
      }
    }
  }

  /** A released id is handed out again before any new id: from an empty
      allocator, acquiring twice gives 1 and 2; releasing 1 and acquiring
      gives 1 again, and the next acquisition gives 3. */
  lemma {:induction false} ReuseScenario()
    ensures NextId(EmptyPool) == 1
    ensures Acquired(EmptyPool) == IdPool({1}, {})
    ensures NextId(IdPool({1}, {})) == 2
    ensures NextId(Released(IdPool({1, 2}, {}), 1)) == 1
    ensures Acquired(Released(IdPool({1, 2}, {}), 1)) == IdPool({1, 2}, {})
    ensures NextId(IdPool({1, 2}, {})) == 3
  {
    assert Greatest({1}) == 1;
    assert Released(IdPool({1, 2}, {}), 1) == IdPool({2}, {1});
    assert Least({1}) == 1;
    assert Greatest({1, 2}) == 2;
  }

  // ---------------------------------------------------------------------
  // The allocator object
  // ---------------------------------------------------------------------

  /** The static pair `assigned_IDs_`/`freed_IDs_` as one object, and the
      package operations that read or change it. */
  class IdAllocator {
    var assignedIds: set<ElementID>
    var freedIds: set<ElementID>

    function Pool(): IdPool
      reads this
    {
      IdPool(assignedIds, freedIds)
    }

    /** Both sets start empty (package.cpp:3-4). */
    constructor()
      ensures Pool() == EmptyPool
    {
      assignedIds, freedIds := {}, {};
    }

    /** `Package::acquire_id`. */
    method AcquireId() returns (id: ElementID)
      modifies this
      ensures id == NextId(old(Pool()))
      ensures Pool() == Acquired(old(Pool()))
    {
      if freedIds != {} {
        LeastExists(freedIds);
        var m :| m in freedIds && IsLeast(m, freedIds);
        freedIds := freedIds - {m};
        assignedIds := assignedIds + {m};
        id := m;
        return;
      }
      if assignedIds == {} {
        id := 1;
      } else {
        GreatestExists(assignedIds);
        var m :| m in assignedIds && IsGreatest(m, assignedIds);
        id := m + 1;
      }
      assignedIds := assignedIds + {id};
    }

    /** `Package::release_id`. */
    method ReleaseId(id: ElementID)
      modifies this
      ensures Pool() == Released(old(Pool()), id)
    {
      assignedIds := assignedIds - {id};
      freedIds := freedIds + {id};
    }

    /** `Package::Package()`: a package with a freshly acquired id. */
    method NewPackage() returns (p: Package)
      modifies this
      ensures p == Package(NextId(old(Pool())))
      ensures Pool() == Acquired(old(Pool()))
    {
      var id := AcquireId();
      p := Package(id);
    }

    /** `Package::Package(ElementID)`: the id joins the assigned set; the
        freed set is neither consulted nor changed. */
    method NewPackageWithId(id: ElementID) returns (p: Package)
      modifies this
      ensures p == Package(id)
      ensures Pool() == IdPool(old(assignedIds) + {id}, old(freedIds))
    {
      assignedIds := assignedIds + {id};
      p := Package(id);
    }

    /** Move assignment `target = std::move(source)`. `sameObject` says that
        both operands are one object, which the source detects by comparing
        addresses; then nothing happens. Otherwise the target gives back the
        id it owns, takes the source's id, and the source becomes a husk. */
    method MoveAssign(target: Package, source: Package, sameObject: bool)
      returns (newTarget: Package, newSource: Package)
      requires sameObject ==> target == source
      modifies this
      ensures sameObject ==> newTarget == target && newSource == source && Pool() == old(Pool())
      ensures !sameObject ==> newTarget == Package(source.id) && newSource == Package(NoId)
      ensures !sameObject ==> Pool() == Disposed(old(Pool()), target)
    {
      if sameObject {
        return target, source;
      }
      if target.id != NoId {
        ReleaseId(target.id);
      }
      newTarget := Package(source.id);
      newSource := Package(NoId);
    }

    /** `Package::~Package`: a package that owns an id gives it back; a husk
        changes nothing. */
    method Destroy(p: Package)
      modifies this
      ensures Pool() == Disposed(old(Pool()), p)
    {
      if p.id != NoId {
        ReleaseId(p.id);
      }
    }

    /** The destruction of a container of packages, front to back. */
    method DestroyAll(ps: seq<Package>)
      modifies this
      ensures Pool() == DisposedAll(old(Pool()), ps)
    {
      for i := 0 to |ps|
        invariant DisposedAll(Pool(), ps[i..]) == DisposedAll(old(Pool()), ps)
      {
        assert ps[i..][1..] == ps[i + 1..];
        Destroy(ps[i]);
      }
      assert ps[|ps|..] == [];
    }
  }
}
