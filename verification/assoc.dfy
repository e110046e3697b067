/** Last-write-wins lookup in a list of key/value assignments: what a
    `forEach` that does `m[key] = value` leaves in `m`. */
module Assoc {
  import opened Wrappers

  /** The value of the last assignment to `k`, if any. */
  function LastAssigned<K(==), V>(pairs: seq<(K, V)>, k: K): (r: Option<V>)
    ensures r.None? <==> forall i :: 0 <= i < |pairs| ==> pairs[i].0 != k
    ensures r.Some? ==> exists i :: 0 <= i < |pairs| && pairs[i] == (k, r.value) &&
                                  forall j :: i < j < |pairs| ==> pairs[j].0 != k
  {
    if pairs == [] then None
    else if pairs[|pairs| - 1].0 == k then Some(pairs[|pairs| - 1].1)
    else LastAssigned(pairs[..|pairs| - 1], k)
  }

  /** One more assignment: it wins for its own key and leaves the others alone. */
  lemma {:induction false} LastAssignedSnoc<K, V>(pairs: seq<(K, V)>, p: (K, V), k: K)
    ensures LastAssigned(pairs + [p], k) == if p.0 == k then Some(p.1) else LastAssigned(pairs, k)
  {
    assert (pairs + [p])[..|pairs|] == pairs;
  }

  /** The map that assigning every pair in order builds, as a loop over the list. */
  method BuildMap<K(==), V>(pairs: seq<(K, V)>) returns (m: map<K, V>)
    ensures forall k :: k in m <==> LastAssigned(pairs, k).Some?
    ensures forall k :: k in m ==> m[k] == LastAssigned(pairs, k).value
  {
    m := map[];
    for i := 0 to |pairs|
      invariant forall k :: k in m <==> LastAssigned(pairs[..i], k).Some?
      invariant forall k :: k in m ==> m[k] == LastAssigned(pairs[..i], k).value
    {
      assert pairs[..i + 1][..i] == pairs[..i];
      m := m[pairs[i].0 := pairs[i].1];
    }
    assert pairs[..|pairs|] == pairs;
  }
}
