/**
 * Iteration over the keys of an ordered map (std::map) in ascending key order.
 */
module Keys {

  /** The keys of `ks` in ascending order (SortedKeysIncreasing). */
  function SortedKeys(ks: set<nat>): (r: seq<nat>)
    ensures forall i :: 0 <= i < |r| ==> r[i] in ks
    ensures forall k :: k in ks ==> k in r
    decreases |ks|
  {
    if ks == {} then []
    else
      var m := Least(ks);
      [m] + SortedKeys(ks - {m})
  }

  /** Every key is listed once. */
  lemma {:induction false} SortedKeysLength(ks: set<nat>)
    ensures |SortedKeys(ks)| == |ks|
    decreases |ks|
  {
    if ks != {} {
      SortedKeysLength(ks - {Least(ks)});
    }
  }

  /** Each key comes before every larger one. */
  lemma {:induction false} SortedKeysIncreasing(ks: set<nat>)
    ensures forall i, j :: 0 <= i < j < |SortedKeys(ks)| ==> SortedKeys(ks)[i] < SortedKeys(ks)[j]
    decreases |ks|
  {
    if ks != {} {
      var m := Least(ks);
      var rest := SortedKeys(ks - {m});
      SortedKeysIncreasing(ks - {m});
      var r := SortedKeys(ks);
      assert r == [m] + rest;
      forall i | 0 <= i < |rest|
        ensures m < rest[i]
      {
        assert rest[i] in ks - {m};
      }
      forall i, j | 0 <= i < j < |r|
        ensures r[i] < r[j]
      {
        assert r[j] == rest[j - 1];
        if i > 0 {
          assert r[i] == rest[i - 1];
        } else {
          assert r[i] == m;
        }
      }
    }
  }

  /** The smallest key. */
  function Least(ks: set<nat>): (m: nat)
    requires ks != {}
    ensures m in ks && forall k :: k in ks ==> m <= k
  {
    HasLeast(ks);
    var m :| m in ks && forall k :: k in ks ==> m <= k;
    m
  }

  lemma {:induction false} HasLeast(ks: set<nat>)
    requires ks != {}
    ensures exists m :: m in ks && forall k :: k in ks ==> m <= k
    decreases |ks|
  {
    var m := LeastOf(ks);
  }

  /** The least key, found by removing one key at a time. */
  lemma {:induction false} LeastOf(ks: set<nat>) returns (m: nat)
    requires ks != {}
    ensures m in ks && forall k :: k in ks ==> m <= k
    decreases |ks|
  {
    var x :| x in ks;
    if ks == {x} {
      m := x;
    } else {
      var rest := ks - {x};
      var m' := LeastOf(rest);
      m := if x < m' then x else m';
      forall k | k in ks
        ensures m <= k
      {
        if k != x {
          assert k in rest;
        }
      }
    }
  }
}
