// Sorting by a comparator: what a permutation of the library's sorts must satisfy, one that always exists, and when
// an unstable sort cannot be told from a stable one.
module Sorting {
  import opened Permutations

  /** `leq` compares any two values, consistently. */
  ghost predicate Preorder<T(!new)>(leq: (T, T) -> bool) {
    && (forall a, b :: leq(a, b) || leq(b, a))
    && (forall a, b, c :: leq(a, b) && leq(b, c) ==> leq(a, c))
  }

  predicate Ordered<T>(s: seq<T>, leq: (T, T) -> bool) {
    forall i, j :: 0 <= i < j < |s| ==> leq(s[i], s[j])
  }

  /** The specification of a sort: a permutation that puts the items in order. */
  predicate Sorts<T>(p: seq<nat>, s: seq<T>, leq: (T, T) -> bool) {
    Permutes(p) && |p| == |s| && Ordered(Permuted(s, p), leq)
  }

  predicate Tied<T>(leq: (T, T) -> bool, a: T, b: T) {
    leq(a, b) && leq(b, a)
  }

  /** Items that compare equal keep their order. */
  predicate Stable<T>(p: seq<nat>, s: seq<T>, leq: (T, T) -> bool)
    requires Permutes(p) && |p| == |s|
  {
    forall i, j :: 0 <= i < j < |p| && Tied(leq, s[p[i]], s[p[j]]) ==> p[i] < p[j]
  }

  predicate NoTies<T>(s: seq<T>, leq: (T, T) -> bool) {
    forall i, j :: 0 <= i < j < |s| ==> !Tied(leq, s[i], s[j])
  }

  // ----- a stable sort -----

  /** Insert index `i` behind the last one whose item is not larger. */
  function InsertIndex<T>(s: seq<T>, leq: (T, T) -> bool, i: nat, p: seq<nat>): (r: seq<nat>)
    requires i < |s| && forall k :: 0 <= k < |p| ==> p[k] < |s|
    ensures forall k :: 0 <= k < |r| ==> r[k] < |s|
  {
    if p == [] || leq(s[p[|p| - 1]], s[i]) then p + [i]
    else InsertIndex(s, leq, i, p[..|p| - 1]) + [p[|p| - 1]]
  }

  /** `p` orders the first `n` items, keeping the order of equal ones. */
  ghost predicate SortsFirst<T>(p: seq<nat>, s: seq<T>, leq: (T, T) -> bool, n: nat) {
    && |p| <= n <= |s|
    && (forall i :: 0 <= i < |p| ==> p[i] < n)
    && (forall i, j :: 0 <= i < j < |p| ==> InOrder(s, leq, p[i], p[j]))
  }

  /** Index `a` may stand before index `b`: its item is smaller, or equal and it came first. */
  predicate InOrder<T>(s: seq<T>, leq: (T, T) -> bool, a: nat, b: nat)
    requires a < |s| && b < |s|
  {
    leq(s[a], s[b]) && (leq(s[b], s[a]) ==> a < b) && a != b
  }

  lemma {:induction false} InsertIndexSorts<T(!new)>(s: seq<T>, leq: (T, T) -> bool, i: nat, p: seq<nat>)
    requires Preorder(leq) && SortsFirst(p, s, leq, i) && i < |s|
    ensures SortsFirst(InsertIndex(s, leq, i, p), s, leq, i + 1)
    ensures |InsertIndex(s, leq, i, p)| == |p| + 1
    ensures forall k :: 0 <= k <= |p| ==> InsertIndex(s, leq, i, p)[k] == i || InsertIndex(s, leq, i, p)[k] in p
  {
    var n := |p|;
    if p == [] || leq(s[p[n - 1]], s[i]) {
      var q := p + [i];
      forall a | 0 <= a < n ensures InOrder(s, leq, p[a], i) {
        assert a < n - 1 ==> InOrder(s, leq, p[a], p[n - 1]);
      }
      forall a, b | 0 <= a < b < |q| ensures InOrder(s, leq, q[a], q[b]) {
        if b < n {
          assert InOrder(s, leq, p[a], p[b]);
        }
      }
    } else {
      var rest := p[..n - 1];
      InsertIndexSorts(s, leq, i, rest);
      var r := InsertIndex(s, leq, i, rest);
      var q := r + [p[n - 1]];
      forall a, b | 0 <= a < b < |q| ensures InOrder(s, leq, q[a], q[b]) {
        if b < n {
          assert InOrder(s, leq, r[a], r[b]);
        } else if r[a] != i {
          assert r[a] in rest;
          var c :| 0 <= c < n - 1 && rest[c] == r[a];
          assert InOrder(s, leq, p[c], p[n - 1]);
        }
      }
      forall k | 0 <= k <= n ensures q[k] == i || q[k] in p {
        if k < n && r[k] != i {
          assert r[k] in rest;
        }
      }
    }
  }

  /** The first `n` indices in the order of their items. */
  function StableOrder<T>(s: seq<T>, leq: (T, T) -> bool, n: nat): (r: seq<nat>)
    requires n <= |s|
    ensures forall k :: 0 <= k < |r| ==> r[k] < |s|
  {
    if n == 0 then [] else InsertIndex(s, leq, n - 1, StableOrder(s, leq, n - 1))
  }

  /** A stable sort of the items, as the order of their indices. */
  method SortIndices<T(!new)>(s: seq<T>, leq: (T, T) -> bool) returns (p: seq<nat>)
    requires Preorder(leq)
    ensures p == StableOrder(s, leq, |s|) && Sorts(p, s, leq) && Stable(p, s, leq)
  {
    p := [];
    for i := 0 to |s|
      invariant p == StableOrder(s, leq, i) && |p| == i && SortsFirst(p, s, leq, i)
    {
      InsertIndexSorts(s, leq, i, p);
      p := InsertIndex(s, leq, i, p);
    }
    SortsFirstSorts(p, s, leq);
  }

  lemma SortsFirstSorts<T>(p: seq<nat>, s: seq<T>, leq: (T, T) -> bool)
    requires |p| == |s| && SortsFirst(p, s, leq, |s|)
    ensures Sorts(p, s, leq) && Stable(p, s, leq)
  {
    forall i, j | 0 <= i < j < |p| ensures p[i] != p[j] && leq(s[p[i]], s[p[j]]) {
      assert InOrder(s, leq, p[i], p[j]);
    }
    forall i, j | 0 <= i < j < |p| && Tied(leq, s[p[i]], s[p[j]]) ensures p[i] < p[j] {
      assert InOrder(s, leq, p[i], p[j]);
    }
  }

  lemma {:induction false} StableOrderSorts<T(!new)>(s: seq<T>, leq: (T, T) -> bool, n: nat)
    requires Preorder(leq) && n <= |s|
    ensures |StableOrder(s, leq, n)| == n && SortsFirst(StableOrder(s, leq, n), s, leq, n)
  {
    if n > 0 {
      StableOrderSorts(s, leq, n - 1);
      InsertIndexSorts(s, leq, n - 1, StableOrder(s, leq, n - 1));
    }
  }

  // ----- when stability cannot be seen -----

  lemma NoTiesIsStable<T(!new)>(p: seq<nat>, s: seq<T>, leq: (T, T) -> bool)
    requires Sorts(p, s, leq) && NoTies(s, leq)
    ensures Stable(p, s, leq)
  {
    forall i, j | 0 <= i < j < |p| ensures !Tied(leq, s[p[i]], s[p[j]]) {
      assert if p[i] < p[j] then !Tied(leq, s[p[i]], s[p[j]]) else !Tied(leq, s[p[j]], s[p[i]]);
    }
  }

  /** There is only one stable sort. */
  lemma StableIsUnique<T(!new)>(p: seq<nat>, q: seq<nat>, s: seq<T>, leq: (T, T) -> bool)
    requires Preorder(leq) && Sorts(p, s, leq) && Sorts(q, s, leq) && Stable(p, s, leq) && Stable(q, s, leq)
    ensures p == q
  {
    SameFrom(p, q, s, leq, |p|);
  }

  lemma StableInOrder<T(!new)>(p: seq<nat>, s: seq<T>, leq: (T, T) -> bool, i: nat, j: nat)
    requires Sorts(p, s, leq) && Stable(p, s, leq) && i < j < |p|
    ensures InOrder(s, leq, p[i], p[j])
  {
    assert Permuted(s, p)[i] == s[p[i]] && Permuted(s, p)[j] == s[p[j]];
  }

  /** Where `p` and `q` first differ, what `p` has there comes later in `q`. */
  lemma ComesLater<T(!new)>(p: seq<nat>, q: seq<nat>, s: seq<T>, leq: (T, T) -> bool, k: nat)
    requires Permutes(p) && Sorts(q, s, leq) && Stable(q, s, leq) && |p| == |s| && k < |p|
    requires forall l :: 0 <= l < k ==> p[l] == q[l]
    ensures p[k] != q[k] ==> InOrder(s, leq, q[k], p[k])
  {
    if p[k] != q[k] {
      Surjective(q, p[k]);
      var i :| 0 <= i < |q| && q[i] == p[k];
      assert k < i;
      StableInOrder(q, s, leq, k, i);
    }
  }

  lemma {:induction false} SameFrom<T(!new)>(p: seq<nat>, q: seq<nat>, s: seq<T>, leq: (T, T) -> bool, n: nat)
    requires Preorder(leq) && Sorts(p, s, leq) && Sorts(q, s, leq) && Stable(p, s, leq) && Stable(q, s, leq) && n <= |p|
    ensures forall k :: 0 <= k < n ==> p[k] == q[k]
  {
    if n > 0 {
      SameFrom(p, q, s, leq, n - 1);
      var k := n - 1;
      ComesLater(p, q, s, leq, k);
      ComesLater(q, p, s, leq, k);
    }
  }

  /** Sorts that need not be stable always give the stable result exactly if no two items compare equal. */
  lemma StabilityShows<T(!new)>(s: seq<T>, leq: (T, T) -> bool, p: seq<nat>)
    requires Preorder(leq) && Sorts(p, s, leq) && Stable(p, s, leq)
    ensures NoTies(s, leq) <==> forall q: seq<nat> :: Sorts(q, s, leq) ==> q == p
  {
    if NoTies(s, leq) {
      forall q: seq<nat> | Sorts(q, s, leq) ensures q == p {
        NoTiesIsStable(q, s, leq);
        StableIsUnique(q, p, s, leq);
      }
    } else {
      var a, b :| 0 <= a < b < |s| && Tied(leq, s[a], s[b]);
      var q := SwapTied(s, leq, p, a, b);
    }
  }

  /** Two items that compare equal: the order that swaps them puts them in order as well, and is not stable. */
  lemma TiedPairShows<T(!new)>(leq: (T, T) -> bool, a: T, b: T)
    requires Preorder(leq) && Tied(leq, a, b)
    ensures Sorts([1, 0], [a, b], leq) && Permuted([a, b], [1, 0]) == [b, a]
    ensures Permutes([1, 0]) && !Stable([1, 0], [a, b], leq)
  {
    var s, p: seq<nat> := [a, b], [1, 0];
    assert Permuted(s, p) == [b, a];
    assert Tied(leq, s[p[0]], s[p[1]]);
  }

  /** Another sort of the items, in which the tied items `a` and `b` have changed places. */
  lemma SwapTied<T(!new)>(s: seq<T>, leq: (T, T) -> bool, p: seq<nat>, a: nat, b: nat) returns (q: seq<nat>)
    requires Preorder(leq) && Sorts(p, s, leq) && a < b < |s| && Tied(leq, s[a], s[b])
    ensures Sorts(q, s, leq) && q != p
  {
    Surjective(p, a);
    var i :| 0 <= i < |p| && p[i] == a;
    Surjective(p, b);
    var j :| 0 <= j < |p| && p[j] == b;
    q := p[i := b][j := a];
    assert forall k :: 0 <= k < |p| && k != i && k != j ==> q[k] == p[k];
    assert Permutes(q);
    TiedIsOrdered(s, leq, p, q);
  }

  lemma TiedIsOrdered<T(!new)>(s: seq<T>, leq: (T, T) -> bool, p: seq<nat>, q: seq<nat>)
    requires Preorder(leq) && Sorts(p, s, leq) && Permutes(q) && |q| == |p|
    requires forall k :: 0 <= k < |p| ==> Tied(leq, s[q[k]], s[p[k]])
    ensures Sorts(q, s, leq)
  {
    forall k, l | 0 <= k < l < |q| ensures leq(s[q[k]], s[q[l]]) {
      assert Permuted(s, p)[k] == s[p[k]] && Permuted(s, p)[l] == s[p[l]];
      assert Tied(leq, s[q[k]], s[p[k]]) && leq(s[p[k]], s[p[l]]) && Tied(leq, s[q[l]], s[p[l]]);
    }
  }
}
