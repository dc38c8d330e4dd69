/** Storage used as a ring: windows that wrap round its end. */
module Rings {

  type byte = x: nat | x < 256

  /** The storage index that is `i` places from the start, going round once at most. */
  function Slot(n: nat, i: nat): (r: nat)
    ensures i < n + n ==> r < n
  {
    if i >= n then i - n else i
  }

  /** `count` elements of a ring, from an index on. */
  ghost function Window<T>(storage: seq<T>, pos: nat, count: nat): (r: seq<T>)
    requires pos < |storage| && count <= |storage|
    ensures |r| == count && forall j :: 0 <= j < count ==> r[j] == storage[Slot(|storage|, pos + j)]
  {
    seq(count, j requires 0 <= j < count => storage[Slot(|storage|, pos + j)])
  }

  /** Two windows end to end. */
  lemma WindowSplit<T>(storage: seq<T>, pos: nat, c: nat, d: nat)
    requires pos < |storage| && c + d <= |storage|
    ensures Slot(|storage|, pos + c) < |storage|
    ensures Window(storage, pos, c + d) == Window(storage, pos, c) + Window(storage, Slot(|storage|, pos + c), d)
  {
  }
}
