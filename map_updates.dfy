/**
 * Maps updated by a list of key/value pairs in order, as both the kconfig
 * override of a configuration and the loader's merge of core libraries do.
 */
module MapUpdates {
  import opened Wrappers

  /** The value of `k` in `m`, if any. */
  function Get<K, V>(m: map<K, V>, k: K): Option<V>
  {
    if k in m then Some(m[k]) else None
  }

  /** `m` with each pair of `pairs` stored in turn. */
  function UpdateAll<K, V>(m: map<K, V>, pairs: seq<(K, V)>): map<K, V>
  {
    if pairs == [] then m
    else UpdateAll(m, pairs[..|pairs| - 1])[pairs[|pairs| - 1].0 := pairs[|pairs| - 1].1]
  }

  /** Reference definition: the last pair for `k` decides; with none, `m` does. */
  function LastValue<K, V>(m: map<K, V>, pairs: seq<(K, V)>, k: K): (v: Option<V>)
    ensures v.None? <==> k !in m && forall i :: 0 <= i < |pairs| ==> pairs[i].0 != k
  {
    if pairs == [] then Get(m, k)
    else if pairs[|pairs| - 1].0 == k then Some(pairs[|pairs| - 1].1)
    else
      var v := LastValue(m, pairs[..|pairs| - 1], k);
      assert forall i :: 0 <= i < |pairs| - 1 ==> pairs[..|pairs| - 1][i] == pairs[i];
      v
  }

  /** After the updates, every key holds the value its last pair gives it. */
  lemma {:induction false} UpdateAllLastWins<K, V>(m: map<K, V>, pairs: seq<(K, V)>, k: K)
    ensures Get(UpdateAll(m, pairs), k) == LastValue(m, pairs, k)
  {
    if pairs != [] {
      UpdateAllLastWins(m, pairs[..|pairs| - 1], k);
    }
  }

  /**
   * The reference definition read off the pairs: the value of the last pair
   * naming `k`, or the map's own value when no pair names it.
   */
  lemma {:induction false} LastValueIsLastPair<K, V>(m: map<K, V>, pairs: seq<(K, V)>, k: K)
    ensures (exists i :: 0 <= i < |pairs| && pairs[i].0 == k) ==>
      exists i :: && 0 <= i < |pairs| && pairs[i].0 == k
                  && LastValue(m, pairs, k) == Some(pairs[i].1)
                  && forall j :: i < j < |pairs| ==> pairs[j].0 != k
    ensures (forall i :: 0 <= i < |pairs| ==> pairs[i].0 != k) ==> LastValue(m, pairs, k) == Get(m, k)
  {
    if pairs != [] {
      var n := |pairs| - 1;
      var init := pairs[..n];
      if pairs[n].0 == k {
        assert LastValue(m, pairs, k) == Some(pairs[n].1);
      } else {
        LastValueIsLastPair(m, init, k);
        assert LastValue(m, pairs, k) == LastValue(m, init, k);
        if exists i :: 0 <= i < |pairs| && pairs[i].0 == k {
          var i :| 0 <= i < |pairs| && pairs[i].0 == k;
          assert init[i].0 == k;
          var w :| && 0 <= w < |init| && init[w].0 == k
                   && LastValue(m, init, k) == Some(init[w].1)
                   && forall j :: w < j < |init| ==> init[j].0 != k;
          assert pairs[w] == init[w];
          assert forall j :: w < j < |pairs| ==> pairs[j].0 != k by {
            forall j | w < j < |pairs|
              ensures pairs[j].0 != k
            {
              if j < n {
                assert init[j] == pairs[j];
              }
            }
          }
        } else {
          forall i | 0 <= i < |init|
            ensures init[i].0 != k
          {
            assert init[i] == pairs[i];
          }
        }
      }
    }
  }

  /** Storing one more pair at the end is one more map update. */
  lemma UpdateAllSnoc<K, V>(m: map<K, V>, pairs: seq<(K, V)>, p: (K, V))
    ensures UpdateAll(m, pairs + [p]) == UpdateAll(m, pairs)[p.0 := p.1]
  {
    assert (pairs + [p])[..|pairs|] == pairs;
  }
}
