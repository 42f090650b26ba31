/**
 * Routing tables (`ReceiverPreferences` in nodes.hxx and nodes.cpp) and the
 * probability generator they draw from.
 *
 * The source keys its table by receiver pointer in a `std::map`, so entries
 * are visited in address order. Here a receiver is named by its kind and
 * id, and the table is an association list kept sorted by a fixed total
 * order on receivers: workers before storehouses, then by id. Weights are
 * exact reals.
 */
module Routing {
  import opened Types

  /** A receiving node: a worker or a storehouse, by id. */
  datatype Receiver = Receiver(kind: ReceiverType, id: ElementID)

  function KindRank(k: ReceiverType): nat {
    if k == WorkerKind then 0 else 1
  }

  /** The strict total order that stands in for pointer order. */
  predicate Below(a: Receiver, b: Receiver) {
    KindRank(a.kind) < KindRank(b.kind) || (a.kind == b.kind && a.id < b.id)
  }

  lemma BelowTotal(a: Receiver, b: Receiver)
    ensures a == b || Below(a, b) || Below(b, a)
    ensures !(Below(a, b) && Below(b, a))
  {
  }

  datatype Entry = Entry(receiver: Receiver, weight: real)

  /** The keys of a table, in table order. */
  function Keys(e: seq<Entry>): (ks: seq<Receiver>)
    ensures |ks| == |e|
    ensures forall i :: 0 <= i < |e| ==> ks[i] == e[i].receiver
  {
    if e == [] then [] else [e[0].receiver] + Keys(e[1..])
  }

  /** Each key below all later ones. */
  predicate Increasing(ks: seq<Receiver>) {
    ks == [] || ((forall x :: x in ks[1..] ==> Below(ks[0], x)) && Increasing(ks[1..]))
  }

  /** Keys strictly increasing: what the map's ordering guarantees. */
  predicate Sorted(e: seq<Entry>) {
    Increasing(Keys(e))
  }

  /** Every weight is 1/n, where n is the number of entries. */
  predicate Uniform(e: seq<Entry>) {
    forall x :: x in e ==> x.weight == 1.0 / (|e| as real)
  }

  /** The shape every table built by `add_receiver` of new receivers and
      `remove_receiver` has. */
  predicate WellFormed(e: seq<Entry>) {
    Sorted(e) && Uniform(e)
  }

  /** The sum of the first `k` weights: the running total of
      `choose_receiver`. */
  function Cumulative(e: seq<Entry>, k: nat): real
    requires k <= |e|
  {
    if k == 0 then 0.0 else Cumulative(e, k - 1) + e[k - 1].weight
  }

  function WeightSum(e: seq<Entry>): real {
    Cumulative(e, |e|)
  }

  /** Every weight set to `w`, keys unchanged. */
  function Reweighted(e: seq<Entry>, w: real): (r: seq<Entry>)
    ensures |r| == |e| && Keys(r) == Keys(e)
    ensures forall i :: 0 <= i < |r| ==> r[i] == Entry(e[i].receiver, w)
    ensures forall x :: x in r ==> x.weight == w
  {
    if e == [] then [] else [Entry(e[0].receiver, w)] + Reweighted(e[1..], w)
  }

  /** `std::map::emplace`: the entry goes to its place in key order; when the
      key is already present nothing changes. */
  function Insert(e: seq<Entry>, r: Receiver, w: real): seq<Entry> {
    if e == [] then [Entry(r, w)]
    else if e[0].receiver == r then e
    else if Below(r, e[0].receiver) then [Entry(r, w)] + e
    else [e[0]] + Insert(e[1..], r, w)
  }

  /** `std::map::erase` at the entry whose key is `r`. */
  function Erase(e: seq<Entry>, r: Receiver): seq<Entry> {
    if e == [] then []
    else if e[0].receiver == r then e[1..]
    else [e[0]] + Erase(e[1..], r)
  }

  /** The table after `add_receiver(r)`. */
  function Added(e: seq<Entry>, r: Receiver): seq<Entry> {
    if |e| == 0 then [Entry(r, 1.0)]
    else
      var w := 1.0 / ((|e| + 1) as real);
      Insert(Reweighted(e, w), r, w)
  }

  /** The table after `remove_receiver(r)`. */
  function Removed(e: seq<Entry>, r: Receiver): seq<Entry> {
    if r !in Keys(e) then e
    else
      var rest := Erase(e, r);
      if |rest| > 0 then Reweighted(rest, 1.0 / (|rest| as real)) else rest
  }

  /** The position at which the scan of `choose_receiver`, started at `k`,
      first finds a running total of at least `p`; `|e|` if it never does. */
  function FirstReaching(e: seq<Entry>, p: real, k: nat): (i: nat)
    requires k <= |e|
    ensures k <= i <= |e|
    ensures i < |e| ==> p <= Cumulative(e, i + 1)
    ensures forall j :: k < j <= i ==> Cumulative(e, j) < p
    decreases |e| - k
  {
    if k == |e| then |e|
    else if p <= Cumulative(e, k + 1) then k
    else FirstReaching(e, p, k + 1)
  }

  /** `choose_receiver` for the draw `p`: nothing for a draw outside [0, 1];
      otherwise the first receiver whose running total reaches `p`, falling
      back to the first receiver, and nothing for an empty table. */
  function Choose(e: seq<Entry>, p: real): Option<Receiver> {
    if p < 0.0 || p > 1.0 then None
    else
      var i := FirstReaching(e, p, 0);
      if i < |e| then Some(e[i].receiver)
      else if |e| > 0 then Some(e[0].receiver)
      else None
  }

  // ---------------------------------------------------------------------
  // Insertion and erasure keep the table sorted
  // ---------------------------------------------------------------------

  lemma KeysCons(x: Entry, e: seq<Entry>)
    ensures Keys([x] + e) == [x.receiver] + Keys(e)
  {
    assert ([x] + e)[1..] == e;
  }

  lemma SortedTail(e: seq<Entry>)
    requires Sorted(e) && e != []
    ensures Sorted(e[1..])
    ensures forall x :: x in Keys(e[1..]) ==> Below(e[0].receiver, x)
  {
    assert Keys(e)[1..] == Keys(e[1..]);
  }

  lemma SortedCons(x: Entry, e: seq<Entry>)
    requires Sorted(e)
    requires forall y :: y in Keys(e) ==> Below(x.receiver, y)
    ensures Sorted([x] + e)
  {
    KeysCons(x, e);
    assert Keys([x] + e)[1..] == Keys(e);
  }

  lemma {:induction false} InsertFacts(e: seq<Entry>, r: Receiver, w: real)
    requires Sorted(e)
    ensures Sorted(Insert(e, r, w))
    ensures forall x :: x in Keys(Insert(e, r, w)) <==> x in Keys(e) || x == r
    ensures forall x :: x in Insert(e, r, w) ==> x in e || x == Entry(r, w)
    ensures r in Keys(e) ==> Insert(e, r, w) == e
    ensures r !in Keys(e) ==> |Insert(e, r, w)| == |e| + 1
    decreases |e|
  {
    if e == [] {
      KeysCons(Entry(r, w), []);
      SortedCons(Entry(r, w), []);
      return;
    }
    var tail := e[1..];
    assert e == [e[0]] + tail;
    KeysCons(e[0], tail);
    SortedTail(e);
    if e[0].receiver == r {
    } else if Below(r, e[0].receiver) {
      KeysCons(Entry(r, w), e);
      SortedCons(Entry(r, w), e);
    } else {
      InsertFacts(tail, r, w);
      var ins := Insert(tail, r, w);
      KeysCons(e[0], ins);
      SortedCons(e[0], ins);
    }
  }

  lemma {:induction false} EraseFacts(e: seq<Entry>, r: Receiver)
    requires Sorted(e)
    ensures Sorted(Erase(e, r))
    ensures forall x :: x in Keys(Erase(e, r)) <==> x in Keys(e) && x != r
    ensures forall x :: x in Erase(e, r) ==> x in e
    ensures r in Keys(e) ==> |Erase(e, r)| == |e| - 1
    decreases |e|
  {
    if e == [] {
      return;
    }
    var tail := e[1..];
    assert e == [e[0]] + tail;
    KeysCons(e[0], tail);
    SortedTail(e);
    if e[0].receiver != r {
      EraseFacts(tail, r);
      var er := Erase(tail, r);
      KeysCons(e[0], er);
      SortedCons(e[0], er);
    }
  }

  // ---------------------------------------------------------------------
  // Weights
  // ---------------------------------------------------------------------

  /** `k` weights of `w` added up, as the running total does. */
  function Times(k: nat, w: real): real {
    if k == 0 then 0.0 else Times(k - 1, w) + w
  }

  lemma {:induction false} CumulativeOfConstant(e: seq<Entry>, w: real, k: nat)
    requires k <= |e|
    requires forall x :: x in e ==> x.weight == w
    ensures Cumulative(e, k) == Times(k, w)
  {
    if k > 0 {
      assert e[k - 1] in e;
      CumulativeOfConstant(e, w, k - 1);
    }
  }

  lemma {:induction false} TimesIsProduct(k: nat, w: real)
    ensures Times(k, w) == (k as real) * w
  {
    if k > 0 {
      TimesIsProduct(k - 1, w);
    }
  }

  /** `w` is the share of one entry in `n`: n of them make one. */
  predicate IsShare(w: real, n: nat) {
    w > 0.0 && Times(n, w) == 1.0
  }

  lemma ShareOf(n: nat)
    requires n > 0
    ensures IsShare(1.0 / (n as real), n)
  {
    TimesIsProduct(n, 1.0 / (n as real));
  }

  /** Comparing with k shares of one in n is comparing n times as much
      with k. */
  lemma ScaleByShare(a: real, k: nat, w: real, n: nat)
    requires IsShare(w, n)
    ensures a <= Times(k, w) <==> a * (n as real) <= k as real
    ensures Times(k, w) < a <==> (k as real) < a * (n as real)
  {
    TimesIsProduct(k, w);
    TimesIsProduct(n, w);
    Scale(a, k as real, w, n as real, Times(k, w));
  }

  lemma Scale(a: real, k: real, w: real, n: real, kw: real)
    requires w > 0.0 && n * w == 1.0 && kw == k * w
    ensures a <= kw <==> a * n <= k
    ensures kw < a <==> k < a * n
  {
    assert kw * n == k;
  }

  /** The weights of a non-empty well-formed table sum to one. */
  lemma WellFormedSumsToOne(e: seq<Entry>)
    requires WellFormed(e) && |e| > 0
    ensures WeightSum(e) == 1.0
  {
    var w := 1.0 / (|e| as real);
    assert IsShare(w, |e|) by {
      ShareOf(|e|);
    }
    CumulativeOfConstant(e, w, |e|);
  }

  /** `add_receiver` on an empty table creates the single entry of weight 1;
      adding a receiver not yet present to a table of n entries gives n + 1
      entries, all of weight 1/(n + 1), with the keys as before plus the new
      one. */
  lemma AddNewReceiver(e: seq<Entry>, r: Receiver)
    requires Sorted(e) && r !in Keys(e)
    ensures e == [] ==> Added(e, r) == [Entry(r, 1.0)]
    ensures Sorted(Added(e, r))
    ensures |Added(e, r)| == |e| + 1
    ensures forall x :: x in Keys(Added(e, r)) <==> x in Keys(e) || x == r
    ensures forall x :: x in Added(e, r) ==> x.weight == 1.0 / ((|e| + 1) as real)
  {
    var w := 1.0 / ((|e| + 1) as real);
    if |e| > 0 {
      var re := Reweighted(e, w);
      assert Added(e, r) == Insert(re, r, w);
      assert Keys(re) == Keys(e) && r !in Keys(re);
      InsertFacts(re, r, w);
      forall x | x in Insert(re, r, w)
        ensures x.weight == w
      {
        assert x in re || x == Entry(r, w);
      }
    } else {
      KeysCons(Entry(r, 1.0), []);
      SortedCons(Entry(r, 1.0), []);
    }
  }

  /** As written, adding a receiver that is already present still rescales
      every weight to 1/(n + 1) while the table keeps its n entries, so the
      weights no longer sum to one. */
  lemma AddPresentReceiver(e: seq<Entry>, r: Receiver)
    requires Sorted(e) && r in Keys(e)
    ensures Added(e, r) == Reweighted(e, 1.0 / ((|e| + 1) as real))
    ensures WeightSum(Added(e, r)) == 1.0 - 1.0 / ((|e| + 1) as real)
    ensures WeightSum(Added(e, r)) < 1.0
  {
    var w := 1.0 / ((|e| + 1) as real);
    assert Added(e, r) == Reweighted(e, w) by {
      InsertFacts(Reweighted(e, w), r, w);
    }
    assert WeightSum(Reweighted(e, w)) == 1.0 - w && WeightSum(Reweighted(e, w)) < 1.0 by {
      ReweightedShortSum(e);
    }
  }

  /** n weights of 1/(n + 1) sum to one share short of one. */
  lemma ReweightedShortSum(e: seq<Entry>)
    ensures WeightSum(Reweighted(e, 1.0 / ((|e| + 1) as real))) == 1.0 - 1.0 / ((|e| + 1) as real)
    ensures WeightSum(Reweighted(e, 1.0 / ((|e| + 1) as real))) < 1.0
  {
    var w := 1.0 / ((|e| + 1) as real);
    assert IsShare(w, |e| + 1) by {
      ShareOf(|e| + 1);
    }
    CumulativeOfConstant(Reweighted(e, w), w, |e|);
  }

  /** Removing an absent receiver changes nothing. Removing a present one
      from a sorted table deletes exactly that key, leaves the table empty if
      it was the only one, and otherwise sets the remaining n - 1 weights to
      1/(n - 1). */
  lemma RemoveReceiverEffect(e: seq<Entry>, r: Receiver)
    requires Sorted(e)
    ensures r !in Keys(e) ==> Removed(e, r) == e
    ensures Sorted(Removed(e, r))
    ensures r in Keys(e) ==> |Removed(e, r)| == |e| - 1
    ensures forall x :: x in Keys(Removed(e, r)) <==> x in Keys(e) && x != r
    ensures r in Keys(e) && |e| == 1 ==> Removed(e, r) == []
    ensures r in Keys(e) ==>
              forall i :: 0 <= i < |Removed(e, r)| ==> Removed(e, r)[i].weight == 1.0 / ((|e| - 1) as real)
  {
    if r in Keys(e) {
      EraseFacts(e, r);
    }
  }

  /** Adding receivers not yet present and removing receivers keep a table
      well formed, so its weights keep summing to one. */
  lemma AddKeepsWellFormed(e: seq<Entry>, r: Receiver)
    requires WellFormed(e) && r !in Keys(e)
    ensures WellFormed(Added(e, r))
    ensures WeightSum(Added(e, r)) == 1.0
  {
    AddNewReceiver(e, r);
    WellFormedSumsToOne(Added(e, r));
  }

  lemma RemoveKeepsWellFormed(e: seq<Entry>, r: Receiver)
    requires WellFormed(e)
    ensures WellFormed(Removed(e, r))
    ensures |Removed(e, r)| > 0 ==> WeightSum(Removed(e, r)) == 1.0
  {
    RemoveReceiverEffect(e, r);
    if |Removed(e, r)| > 0 {
      WellFormedSumsToOne(Removed(e, r));
    }
  }

  // ---------------------------------------------------------------------
  // Choosing a receiver
  // ---------------------------------------------------------------------

  /** On a well-formed table a draw in [0, 1] always selects an entry by
      the running total (the fallback is never used): the i-th entry is
      chosen exactly when i < p * n <= i + 1, and a draw of 0 picks the
      first entry. */
  lemma ChooseUniform(e: seq<Entry>, p: real)
    requires WellFormed(e) && |e| > 0 && 0.0 <= p <= 1.0
    ensures FirstReaching(e, p, 0) < |e|
    ensures var i := FirstReaching(e, p, 0);
            Choose(e, p) == Some(e[i].receiver) &&
            p * (|e| as real) <= (i + 1) as real &&
            (i > 0 ==> (i as real) < p * (|e| as real))
    ensures p == 0.0 ==> Choose(e, p) == Some(e[0].receiver)
  {
    var n := |e|;
    var w := 1.0 / (n as real);
    assert IsShare(w, n) by {
      ShareOf(n);
    }
    ChooseByShares(e, p, w);
    var i := FirstReaching(e, p, 0);
    assert p * (n as real) <= (i + 1) as real by {
      ScaleByShare(p, i + 1, w, n);
    }
    if i > 0 {
      assert (i as real) < p * (n as real) by {
        ScaleByShare(p, i, w, n);
      }
    }
  }

  /** A draw equal to the total weight, 1, picks the last entry. */
  lemma ChooseFullDraw(e: seq<Entry>)
    requires WellFormed(e) && |e| > 0
    ensures Choose(e, 1.0) == Some(e[|e| - 1].receiver)
  {
    ChooseUniform(e, 1.0);
    var i := FirstReaching(e, 1.0, 0);
    assert (|e| as real) <= (i + 1) as real;
  }

  /** The scan stops within the table, at the first entry whose shares
      reach the draw. */
  lemma ChooseByShares(e: seq<Entry>, p: real, w: real)
    requires forall x :: x in e ==> x.weight == w
    requires IsShare(w, |e|) && 0.0 <= p <= 1.0
    ensures FirstReaching(e, p, 0) < |e|
    ensures var i := FirstReaching(e, p, 0);
            p <= Times(i + 1, w) && (i > 0 ==> Times(i, w) < p)
    ensures p == 0.0 ==> FirstReaching(e, p, 0) == 0
  {
    var i := FirstReaching(e, p, 0);
    if i == |e| {
      CumulativeOfConstant(e, w, |e|);
      assert false;
    }
    if p == 0.0 {
      CumulativeOfConstant(e, w, 1);
    }
    CumulativeOfConstant(e, w, i + 1);
    if i > 0 {
      CumulativeOfConstant(e, w, i);
    }
  }

  /** A draw outside [0, 1] selects nothing, and so does an empty table. */
  lemma ChooseNothing(e: seq<Entry>, p: real)
    ensures (p < 0.0 || p > 1.0) ==> Choose(e, p) == None
    ensures e == [] ==> Choose(e, p) == None
    ensures e != [] && 0.0 <= p <= 1.0 ==> Choose(e, p).Some? && Choose(e, p).value in Keys(e)
  {
    if e != [] && 0.0 <= p <= 1.0 {
      var i := FirstReaching(e, p, 0);
      if i < |e| {
        assert Keys(e)[i] == e[i].receiver;
      } else {
        assert Keys(e)[0] == e[0].receiver;
      }
    }
  }

  // ---------------------------------------------------------------------
  // The objects
  // ---------------------------------------------------------------------

  /** The probability generator: the source calls a `std::function<double()>`
      backed by a pseudo-random engine. Here the sequence of draws is a
      parameter, and the generator only counts how many have been taken. */
  class ProbabilityGenerator {
    const draw: nat -> real
    var calls: nat

    constructor(draw: nat -> real)
      ensures this.draw == draw && calls == 0
    {
      this.draw := draw;
      calls := 0;
    }

    method Next() returns (p: real)
      modifies this
      ensures p == draw(old(calls)) && calls == old(calls) + 1
    {
      p := draw(calls);
      calls := calls + 1;
    }
  }

  /** `ReceiverPreferences`: the routing table of one sender. */
  class ReceiverPreferences {
    var entries: seq<Entry>

    constructor()
      ensures entries == []
    {
      entries := [];
    }

    /** The loop both `add_receiver` and `remove_receiver` run over the map. */
    method SetAllWeights(w: real)
      modifies this
      ensures entries == Reweighted(old(entries), w)
    {
      var i := 0;
      while i < |entries|
        invariant 0 <= i <= |entries| == |old(entries)|
        invariant forall j :: 0 <= j < i ==> entries[j] == Entry(old(entries)[j].receiver, w)
        invariant forall j :: i <= j < |entries| ==> entries[j] == old(entries)[j]
      {
        entries := entries[i := Entry(entries[i].receiver, w)];
        i := i + 1;
      }
    }

    /** `add_receiver`. */
    method AddReceiver(r: Receiver)
      modifies this
      ensures entries == Added(old(entries), r)
    {
      var n := |entries|;
      if n == 0 {
        entries := [Entry(r, 1.0)];
        return;
      }
      var w := 1.0 / ((n + 1) as real);
      SetAllWeights(w);
      entries := Insert(entries, r, w);
    }

    /** `remove_receiver`. */
    method RemoveReceiver(r: Receiver)
      modifies this
      ensures entries == Removed(old(entries), r)
    {
      var k := IndexOfKey(r);
      if k == |entries| {
        return;
      }
      entries := Erase(entries, r);
      var n := |entries|;
      if n > 0 {
        SetAllWeights(1.0 / (n as real));
      }
    }

    /** `std::map::find`: the position of the entry keyed `r`, or the number
        of entries when there is none. */
    method IndexOfKey(r: Receiver) returns (k: nat)
      ensures k <= |entries|
      ensures k < |entries| ==> entries[k].receiver == r
      ensures k == |entries| <==> r !in Keys(entries)
    {
      k := 0;
      while k < |entries| && entries[k].receiver != r
        invariant k <= |entries|
        invariant forall j :: 0 <= j < k ==> entries[j].receiver != r
      {
        k := k + 1;
      }
      if k == |entries| {
        assert forall j :: 0 <= j < |entries| ==> Keys(entries)[j] != r;
      } else {
        assert Keys(entries)[k] == r;
      }
    }

    /** `choose_receiver`, given the value `p` the generator returned. */
    method ChooseReceiver(p: real) returns (r: Option<Receiver>)
      ensures r == Choose(entries, p)
    {
      if p < 0.0 || p > 1.0 {
        return None;
      }
      var cumulative := 0.0;
      var i := 0;
      while i < |entries|
        invariant 0 <= i <= |entries|
        invariant cumulative == Cumulative(entries, i)
        invariant FirstReaching(entries, p, 0) == FirstReaching(entries, p, i)
      {
        cumulative := cumulative + entries[i].weight;
        if p <= cumulative {
          return Some(entries[i].receiver);
        }
        i := i + 1;
      }
      if |entries| > 0 {
        return Some(entries[0].receiver);
      }
      return None;
    }
  }
}
