/**
 Building a dict from an ordered sequence of key/value pairs, one insertion
 at a time, so that a later pair for a key overwrites an earlier one. Both
 `dict(list_of_pairs)` and the `d.update(...)` loop of the XML merge branch
 have this shape.
 */
module Pairs {

  /** The keys mentioned by the pairs. */
  function Firsts<K, V>(ps: seq<(K, V)>): set<K> {
    set i | 0 <= i < |ps| :: ps[i].0
  }

  /** Insert the pairs left to right into an empty dict. */
  function FromPairs<K, V>(ps: seq<(K, V)>): (m: map<K, V>)
    ensures m.Keys == Firsts(ps)
    decreases |ps|
  {
    if |ps| == 0 then
      map[]
    else
      var last := ps[|ps| - 1];
      var m := FromPairs(ps[..|ps| - 1]);
      assert Firsts(ps) == Firsts(ps[..|ps| - 1]) + {last.0} by {
        assert forall i :: 0 <= i < |ps| - 1 ==> ps[..|ps| - 1][i] == ps[i];
      }
      m[last.0 := last.1]
  }

  /** Pair `i` is the last pair that mentions its key. */
  ghost predicate LastFor<K, V>(ps: seq<(K, V)>, i: int) {
    0 <= i < |ps| && forall j :: i < j < |ps| ==> ps[j].0 != ps[i].0
  }

  /** The value stored for a key is the one of the last pair with that key. */
  lemma {:induction false} FromPairsLastWins<K, V>(ps: seq<(K, V)>, i: int)
    requires LastFor(ps, i)
    ensures ps[i].0 in FromPairs(ps)
    ensures FromPairs(ps)[ps[i].0] == ps[i].1
    decreases |ps|
  {
    if i < |ps| - 1 {
      var init := ps[..|ps| - 1];
      assert init[i] == ps[i];
      assert LastFor(init, i) by {
        assert forall j :: i < j < |init| ==> init[j] == ps[j];
      }
      FromPairsLastWins(init, i);
    }
  }

  /** Every key that was mentioned has a last pair mentioning it. */
  lemma {:induction false} LastOccurrence<K, V>(ps: seq<(K, V)>, k: K) returns (i: int)
    requires k in Firsts(ps)
    ensures LastFor(ps, i) && ps[i].0 == k
    decreases |ps|
  {
    if ps[|ps| - 1].0 == k {
      i := |ps| - 1;
    } else {
      var init := ps[..|ps| - 1];
      var w :| 0 <= w < |ps| && ps[w].0 == k;
      assert init[w] == ps[w];
      i := LastOccurrence(init, k);
      assert ps[i] == init[i];
    }
  }
}
