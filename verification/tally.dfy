/**
 Sums over the values of a map, in no particular key order. The task counts
 the board shows (`Object.values(board.tasks).flat().length`) are such sums.
 */
module Tally {

  /** The sum of all values of `m`. */
  ghost function MapSum<K>(m: map<K, int>): (r: int)
    ensures m == map[] ==> r == 0
    decreases m.Keys
  {
    if m.Keys == {} then 0
    else
      var k :| k in m.Keys;
      m[k] + MapSum(m - {k})
  }

  /** Any key can be taken out first: the sum does not depend on the order
      in which keys are visited. */
  lemma {:induction false} MapSumPick<K>(m: map<K, int>, k: K)
    requires k in m
    ensures MapSum(m) == m[k] + MapSum(m - {k})
    decreases m.Keys
  {
    var j :| j in m.Keys && MapSum(m) == m[j] + MapSum(m - {j});
    if j != k {
      MapSumPick(m - {j}, k);
      MapSumPick(m - {k}, j);
      assert (m - {j}) - {k} == (m - {k}) - {j};
    }
  }

  /** Replacing the value of one key changes the sum by the difference. */
  lemma MapSumUpdate<K>(m: map<K, int>, k: K, v: int)
    requires k in m
    ensures MapSum(m[k := v]) == MapSum(m) - m[k] + v
  {
    MapSumPick(m, k);
    MapSumPick(m[k := v], k);
    assert m[k := v] - {k} == m - {k};
  }

  /** A sum of non-negative values is non-negative, and it is zero exactly
      when every value is zero. */
  lemma {:induction false} MapSumNonNegative<K>(m: map<K, int>)
    requires forall k :: k in m ==> m[k] >= 0
    ensures MapSum(m) >= 0
    ensures MapSum(m) == 0 <==> forall k :: k in m ==> m[k] == 0
    decreases m.Keys
  {
    if m.Keys != {} {
      var j :| j in m.Keys && MapSum(m) == m[j] + MapSum(m - {j});
      MapSumNonNegative(m - {j});
      assert forall k :: k in m ==> k == j || k in m - {j};
    }
  }
}
