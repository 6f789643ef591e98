/** Linked structures as sequences that start at their root. */
module RingSeq {

  ghost predicate NoRepeats<T>(c: seq<T>)
  {
    forall i, j :: 0 <= i < j < |c| ==> c[i] != c[j]
  }

  /** Advance the root of a ring to its successor. */
  function Rotate<T>(ring: seq<T>): seq<T> { if ring == [] then [] else ring[1..] + [ring[0]] }

  function IndexOf<T(==)>(ring: seq<T>, t: T): (k: nat)
    ensures k <= |ring| && (t in ring ==> k < |ring| && ring[k] == t)
  {
    if ring == [] || ring[0] == t then 0 else 1 + IndexOf(ring[1..], t)
  }

  /** Take a member out; its successor becomes the root. */
  function Removed<T(==)>(ring: seq<T>, t: T): seq<T>
  {
    var k := IndexOf(ring, t);
    if k == |ring| then ring else ring[k + 1..] + ring[..k]
  }
}
