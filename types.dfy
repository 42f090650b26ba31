/**
 * Basic types shared by every part of the factory network simulator
 * (types.hxx), together with the option and result wrappers the model uses
 * for `std::optional` and for the exceptions the source throws.
 */
module Types {

  /** Identifiers, ticks and tick offsets are all C++ `int`; the model uses
      unbounded integers. */
  type ElementID = int
  type Time = int
  type TimeOffset = int

  datatype QueueType = FIFO | LIFO

  datatype ReceiverType = WorkerKind | StorehouseKind

  /** The three colours of the consistency check's depth-first search. */
  datatype NodeColor = Unvisited | Visited | Verified

  datatype Option<T> = None | Some(value: T)

  /** A computation that either yields a value or fails the way the source
      throws a `std::logic_error` carrying `msg`. */
  datatype Result<T> = Ok(value: T) | Err(msg: string)

  function Abs(x: int): nat {
    if x < 0 then -x else x
  }

  /** The C++ remainder `a % b`: it truncates toward zero, so the result has
      the sign of `a`. Dafny's own `%` is Euclidean and never negative. */
  function CppRem(a: int, b: int): (r: int)
    requires b != 0
    ensures a >= 0 ==> 0 <= r < Abs(b)
    ensures a < 0 ==> 0 <= -r < Abs(b)
    ensures (a - r) % Abs(b) == 0
  {
    var m := Abs(b);
    if a >= 0 then
      RemainderCongruent(a, m);
      a % m
    else
      RemainderCongruent(-a, m);
      -((-a) % m)
  }

  /** Taking away the Euclidean remainder, or adding it to the negation,
      leaves a multiple of the modulus. */
  lemma RemainderCongruent(a: int, m: int)
    requires m > 0
    ensures (a - a % m) % m == 0
    ensures (-a + a % m) % m == 0
  {
    var q := a / m;
    assert a == q * m + a % m;
    assert a - a % m == q * m;
    MultipleModZero(q, m);
    assert -a + a % m == (-q) * m;
    MultipleModZero(-q, m);
  }

  lemma MultipleInRange(d: int, m: int)
    requires m > 0 && 0 <= d * m < m
    ensures d == 0
  {
    MultipleBounds(d, m);
  }

  lemma MultipleBounds(d: int, m: int)
    requires m > 0
    ensures d >= 1 ==> d * m >= m
    ensures d <= -1 ==> d * m <= -m
  {
  }

  /** A multiple of a positive `m` leaves no Euclidean remainder. */
  lemma MultipleModZero(q: int, m: int)
    requires m > 0
    ensures (q * m) % m == 0
  {
    var x := q * m;
    var d := x / m;
    assert x == d * m + x % m;
    assert x % m == (q - d) * m;
    MultipleInRange(q - d, m);
  }

  /** The truncated remainder is zero exactly when `b` divides `a`, whatever
      the signs: the two remainders differ only in sign. */
  lemma CppRemZeroIffDivisible(a: int, b: int)
    requires b != 0
    ensures CppRem(a, b) == 0 <==> a % Abs(b) == 0
  {
    var m := Abs(b);
    if a < 0 {
      if a % m == 0 {
        assert a == (a / m) * m;
        assert -a == (-(a / m)) * m;
        MultipleModZero(-(a / m), m);
      }
      if (-a) % m == 0 {
        assert -a == ((-a) / m) * m;
        assert a == (-((-a) / m)) * m;
        MultipleModZero(-((-a) / m), m);
      }
    }
  }

  /** The position `std::find_if` stops at when looking for `id` among
      `ids`: the first match, or `|ids|` (the end iterator) if none. */
  function IndexOfId(ids: seq<ElementID>, id: ElementID): (k: nat)
    ensures k <= |ids|
    ensures k < |ids| ==> ids[k] == id
    ensures forall j :: 0 <= j < k ==> ids[j] != id
    ensures k == |ids| <==> id !in ids
  {
    if ids == [] then 0
    else if ids[0] == id then 0
    else 1 + IndexOfId(ids[1..], id)
  }
}
