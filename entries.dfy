/** Assigning a list of key/value pairs into a dictionary one after another,
    as `for (const [k, v] of pairs) m[k] = v` does, as `Object.fromEntries`
    does, and as two cookie jars do when the same cookies are set on both. */
module Entries {

  /** `m` after assigning every pair of `pairs` in order. */
  function Assign<K, V>(m: map<K, V>, pairs: seq<(K, V)>): map<K, V>
    decreases |pairs|
  {
    if pairs == [] then m
    else
      var last := pairs[|pairs| - 1];
      Assign(m, pairs[..|pairs| - 1])[last.0 := last.1]
  }

  /** Assigning one more pair assigns it last. */
  lemma AssignSnoc<K, V>(m: map<K, V>, pairs: seq<(K, V)>, e: (K, V))
    ensures Assign(m, pairs + [e]) == Assign(m, pairs)[e.0 := e.1]
  {
    assert (pairs + [e])[..|pairs|] == pairs;
  }

  /** `pairs` names `k` at index `i` and at no later index. */
  ghost predicate LastFor<K, V>(pairs: seq<(K, V)>, k: K, i: int) {
    0 <= i < |pairs| && pairs[i].0 == k
    && forall j :: i < j < |pairs| ==> pairs[j].0 != k
  }

  /** After the assignments a key is present exactly when it was before or
      some pair names it; the last pair naming it decides its value, and a
      key no pair names keeps its old value. */
  lemma {:induction false} AssignLookup<K, V>(m: map<K, V>, pairs: seq<(K, V)>, k: K)
    ensures k in Assign(m, pairs) <==> k in m || exists i :: 0 <= i < |pairs| && pairs[i].0 == k
    ensures forall i :: LastFor(pairs, k, i) ==> Assign(m, pairs)[k] == pairs[i].1
    ensures (forall i :: 0 <= i < |pairs| ==> pairs[i].0 != k) && k in m ==>
              Assign(m, pairs)[k] == m[k]
    decreases |pairs|
  {
    if pairs != [] {
      var n := |pairs| - 1;
      var init := pairs[..n];
      AssignLookup(m, init, k);
      if pairs[n].0 != k {
        forall i | 0 <= i < n && init[i].0 == k ensures pairs[i].0 == k {}
        forall i | 0 <= i < |pairs| && pairs[i].0 == k ensures init[i].0 == k {}
        forall i | LastFor(pairs, k, i) ensures LastFor(init, k, i) {}
      }
    }
  }

  /** Assigning the same keys with the same values into two dictionaries
      leaves the two agreeing on every key the pairs name. */
  lemma SameAssignmentsAgree<K, V>(m1: map<K, V>, m2: map<K, V>, pairs: seq<(K, V)>, i: int)
    requires 0 <= i < |pairs|
    ensures pairs[i].0 in Assign(m1, pairs) && pairs[i].0 in Assign(m2, pairs)
    ensures Assign(m1, pairs)[pairs[i].0] == Assign(m2, pairs)[pairs[i].0]
  {
    var k := pairs[i].0;
    var last := LastIndex(pairs, k, i);
    AssignLookup(m1, pairs, k);
    AssignLookup(m2, pairs, k);
  }

  /** The index of the last pair naming `k`, at or after `i`. */
  ghost function LastIndex<K, V>(pairs: seq<(K, V)>, k: K, i: int): (j: int)
    requires 0 <= i < |pairs| && pairs[i].0 == k
    ensures i <= j && LastFor(pairs, k, j)
    decreases |pairs| - i
  {
    if forall j :: i < j < |pairs| ==> pairs[j].0 != k then i
    else
      var j :| i < j < |pairs| && pairs[j].0 == k;
      LastIndex(pairs, k, j)
  }
}
