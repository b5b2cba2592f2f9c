// Permutations of index vectors (`IndexNewToOld` in src/utils.rs): inverting them, applying them in
// place, and recognising the identity.
module Permutations {
  predicate Permutes(p: seq<nat>) {
    && (forall i :: 0 <= i < |p| ==> p[i] < |p|)
    && (forall i, j :: 0 <= i < j < |p| ==> p[i] != p[j])
  }

  /** `q` undoes `p`. */
  predicate Inverse(p: seq<nat>, q: seq<nat>) {
    && |p| == |q|
    && (forall i :: 0 <= i < |p| ==> p[i] < |q| && q[p[i]] == i)
    && (forall i :: 0 <= i < |q| ==> q[i] < |p| && p[q[i]] == i)
  }

  predicate Identity(p: seq<nat>) {
    forall i :: 0 <= i < |p| ==> p[i] == i
  }

  /** The items of `s` in the new order: position `i` gets what was at `p[i]`. */
  function Permuted<T>(s: seq<T>, p: seq<nat>): (r: seq<T>)
    requires |p| == |s| && forall i :: 0 <= i < |p| ==> p[i] < |s|
    ensures |r| == |s| && forall i :: 0 <= i < |r| ==> r[i] == s[p[i]]
  {
    seq(|p|, i requires 0 <= i < |p| => s[p[i]])
  }

  // ----- every index is hit -----

  lemma {:induction false} InjectiveRange(p: seq<nat>, k: nat)
    requires Permutes(p) && k <= |p|
    ensures |set i | 0 <= i < k :: p[i]| == k
  {
    if k > 0 {
      InjectiveRange(p, k - 1);
      var less := set i | 0 <= i < k - 1 :: p[i];
      assert (set i | 0 <= i < k :: p[i]) == less + {p[k - 1]};
      assert p[k - 1] !in less;
    }
  }

  ghost function UpTo(n: nat): (r: set<nat>)
    ensures |r| == n && forall j: nat :: j in r <==> j < n
  {
    if n == 0 then {} else UpTo(n - 1) + {n - 1}
  }

  lemma SubsetSize<T>(a: set<T>, b: set<T>)
    requires a <= b
    ensures |a| <= |b|
    ensures |a| == |b| ==> a == b
  {
    assert b == (b - a) + a;
  }

  lemma Surjective(p: seq<nat>, j: nat)
    requires Permutes(p) && j < |p|
    ensures exists i :: 0 <= i < |p| && p[i] == j
  {
    var hit := set i | 0 <= i < |p| :: p[i];
    InjectiveRange(p, |p|);
    assert hit <= UpTo(|p|);
    SubsetSize(hit, UpTo(|p|));
    assert j in hit;
  }

  // ----- in place -----

  /** `IndexNewToOld::build_old_to_new`. */
  method BuildOldToNew(newToOld: seq<nat>) returns (oldToNew: array<nat>)
    requires Permutes(newToOld)
    ensures fresh(oldToNew) && oldToNew.Length == |newToOld| && Inverse(newToOld, oldToNew[..])
  {
    var n := |newToOld|;
    oldToNew := new nat[n](_ => n);
    for i := 0 to n
      invariant forall k :: 0 <= k < i ==> oldToNew[newToOld[k]] == k
    {
      oldToNew[newToOld[i]] := i;
    }
    forall j: nat | j < n ensures oldToNew[j] < n && newToOld[oldToNew[j]] == j {
      Surjective(newToOld, j);
    }
  }

  /** What is still out of place. */
  ghost function Displaced(p: seq<nat>): set<nat> {
    set i: nat | i < |p| && p[i] != i
  }

  /** How many swaps are left at most: the last swap puts two items in place. */
  ghost function SwapsLeft(p: seq<nat>): nat {
    if Displaced(p) == {} then 0 else |Displaced(p)| - 1
  }

  lemma SwapPlaces(p: seq<nat>, old_: nat)
    requires Permutes(p) && old_ < |p| && p[old_] != old_
    ensures var q := p[old_ := p[p[old_]]][p[old_] := p[old_]];
      Permutes(q) && Displaced(q) < Displaced(p) && p[old_] in Displaced(p) && p[old_] !in Displaced(q)
  {
    var to := p[old_];
    var q := p[old_ := p[to]][to := to];
    assert p[to] != to;
    assert forall i :: 0 <= i < |p| && i != old_ && i != to ==> q[i] == p[i];
    assert to in Displaced(p) && to !in Displaced(q);
  }

  /** `p` says where the item at each position still has to go; positions before `done` are final. */
  ghost predicate Placed<T>(newToOld: seq<nat>, s: seq<T>, p: seq<nat>, items: seq<T>, done: nat) {
    && Permutes(newToOld) && |s| == |p| == |items| == |newToOld|
    && Permutes(p)
    && done <= |p|
    && (forall i :: 0 <= i < |p| ==> s[newToOld[p[i]]] == items[i])
    && (forall i :: 0 <= i < done ==> p[i] == i)
  }

  lemma PlacedStep<T>(newToOld: seq<nat>, s: seq<T>, p: seq<nat>, items: seq<T>, done: nat)
    requires Placed(newToOld, s, p, items, done) && done < |p| && p[done] != done
    ensures p[done] < |p| && p[done] != done
    ensures var to := p[done];
      && Placed(newToOld, s, p[done := p[to]][to := to], items[done := items[to]][to := items[done]], done)
      && SwapsLeft(p[done := p[to]][to := to]) < SwapsLeft(p)
  {
    SwapPlaces(p, done);
    FewerSwapsLeft(p, done);
  }

  lemma FewerSwapsLeft(p: seq<nat>, done: nat)
    requires Permutes(p) && done < |p| && p[done] != done
    ensures SwapsLeft(p[done := p[p[done]]][p[done] := p[done]]) < SwapsLeft(p)
  {
    var to := p[done];
    SwapPlaces(p, done);
    var q := p[done := p[to]][to := to];
    SubsetSize(Displaced(q) + {to}, Displaced(p));
    assert p[to] != to;
    assert {done, to} <= Displaced(p);
    SubsetSize({done, to}, Displaced(p));
  }

  lemma PlacedStart<T>(newToOld: seq<nat>, s: seq<T>, undo: seq<nat>)
    requires Permutes(newToOld) && Inverse(newToOld, undo) && |s| == |newToOld|
    ensures Placed(newToOld, s, undo, s, 0) && (s != [] ==> SwapsLeft(undo) < |s|) && (s == [] ==> SwapsLeft(undo) == 0)
  {
    InversePermutes(newToOld, undo);
    assert Displaced(undo) <= UpTo(|s|);
    SubsetSize(Displaced(undo), UpTo(|s|));
  }

  lemma PlacedNext<T>(newToOld: seq<nat>, s: seq<T>, p: seq<nat>, items: seq<T>, done: nat)
    requires Placed(newToOld, s, p, items, done) && done < |p| && p[done] == done
    ensures Placed(newToOld, s, p, items, done + 1)
  {
  }

  lemma PlacedAll<T>(newToOld: seq<nat>, s: seq<T>, p: seq<nat>, items: seq<T>)
    requires Placed(newToOld, s, p, items, |items|)
    ensures Permutes(newToOld) && |s| == |newToOld| && items == Permuted(s, newToOld)
  {
  }

  /**
   * `IndexNewToOld::apply_to`: swap items into place. Every swap puts one more item where it
   * belongs for good, and the last one two, so there are fewer swaps than items.
   */
  method ApplyTo<T>(newToOld: seq<nat>, items: array<T>) returns (swaps: nat)
    requires Permutes(newToOld) && items.Length == |newToOld|
    modifies items
    ensures items[..] == Permuted(old(items[..]), newToOld)
    ensures swaps < |newToOld| || (newToOld == [] && swaps == 0)
  {
    var places := BuildOldToNew(newToOld);
    ghost var s := items[..];
    PlacedStart(newToOld, s, places[..]);
    hide Placed, SwapsLeft, Inverse, Permutes;
    swaps := 0;
    for old_ := 0 to items.Length
      invariant Placed(newToOld, s, places[..], items[..], old_)
      invariant swaps + SwapsLeft(places[..]) <= if items.Length == 0 then 0 else items.Length - 1
    {
      var more := PutInPlace(newToOld, s, items, places, old_);
      swaps := swaps + more;
      PlacedNext(newToOld, s, places[..], items[..], old_);
    }
    PlacedAll(newToOld, s, places[..], items[..]);
  }

  /** The inner loop: swap the item at `old_` away until the one that belongs there arrives. */
  method PutInPlace<T>(newToOld: seq<nat>, ghost s: seq<T>, items: array<T>, places: array<nat>,
      old_: nat) returns (swaps: nat)
    requires items.Length == places.Length && old_ < items.Length
    requires (items as object) != (places as object)
    requires Placed(newToOld, s, places[..], items[..], old_)
    modifies items, places
    ensures Placed(newToOld, s, places[..], items[..], old_) && places[old_] == old_
    ensures swaps + SwapsLeft(places[..]) <= SwapsLeft(old(places[..]))
  {
    hide Placed, SwapsLeft;
    swaps := 0;
    while places[old_] != old_
      invariant Placed(newToOld, s, places[..], items[..], old_)
      invariant swaps + SwapsLeft(places[..]) <= SwapsLeft(old(places[..]))
      decreases SwapsLeft(places[..])
    {
      PlacedStep(newToOld, s, places[..], items[..], old_);
      var to := places[old_];
      Swap(items, old_, to);
      Swap(places, old_, to);
      swaps := swaps + 1;
    }
  }

  method Swap<T>(a: array<T>, i: nat, j: nat)
    requires i < a.Length && j < a.Length
    modifies a
    ensures a[..] == old(a[..][i := a[j]][j := a[i]])
  {
    a[i], a[j] := a[j], a[i];
  }

  lemma InversePermutes(p: seq<nat>, q: seq<nat>)
    requires Permutes(p) && Inverse(p, q)
    ensures Permutes(q)
    ensures forall i :: 0 <= i < |p| ==> p[q[i]] == i
  {
    forall i, j | 0 <= i < j < |q| ensures q[i] != q[j] {
      assert p[q[i]] == i && p[q[j]] == j;
    }
  }

  // ----- order -----

  predicate NonDecreasing(p: seq<nat>) {
    forall i, j :: 0 <= i < j < |p| ==> p[i] <= p[j]
  }

  /** `is_sorted`. */
  method IsSorted(p: seq<nat>) returns (sorted: bool)
    ensures sorted <==> NonDecreasing(p)
  {
    var i := 1;
    while i < |p|
      invariant 1 <= i && forall a, b :: 0 <= a < b < i && b < |p| ==> p[a] <= p[b]
    {
      if p[i - 1] > p[i] {
        return false;
      }
      i := i + 1;
    }
    return true;
  }

  /** The only permutation that never goes down is the identity, so a sorted one changes nothing. */
  lemma SortedIsIdentity(p: seq<nat>)
    requires Permutes(p)
    ensures NonDecreasing(p) <==> Identity(p)
  {
    if NonDecreasing(p) {
      forall i | 0 <= i < |p| ensures p[i] == i {
        AtLeast(p, i);
        AtMost(p, i);
      }
    }
  }

  lemma {:induction false} AtLeast(p: seq<nat>, i: nat)
    requires Permutes(p) && NonDecreasing(p) && i < |p|
    ensures p[i] >= i
  {
    if i > 0 {
      AtLeast(p, i - 1);
    }
  }

  lemma {:induction false} AtMost(p: seq<nat>, i: nat)
    requires Permutes(p) && NonDecreasing(p) && i < |p|
    ensures p[i] <= i
    decreases |p| - i
  {
    if i + 1 < |p| {
      AtMost(p, i + 1);
    }
  }

  /** A permutation neither loses nor repeats anything. */
  lemma {:induction false} PermutedKeepsAll<T>(s: seq<T>, p: seq<nat>)
    requires Permutes(p) && |p| == |s|
    ensures multiset(Permuted(s, p)) == multiset(s)
    decreases |s|
  {
    if |s| > 0 {
      Surjective(p, |s| - 1);
      var at :| 0 <= at < |p| && p[at] == |s| - 1;
      DropLargest(p, at);
      PermutedKeepsAll(s[..|s| - 1], Without(p, at));
      LargestIsLast(s, p, at);
    }
  }

  lemma LargestIsLast<T>(s: seq<T>, p: seq<nat>, at: nat)
    requires Permutes(p) && |p| == |s| && at < |p| && p[at] == |s| - 1 && Permutes(Without(p, at))
    ensures multiset(Permuted(s, p)) == multiset(Permuted(s[..|s| - 1], Without(p, at))) + multiset{s[|s| - 1]}
    ensures multiset(s) == multiset(s[..|s| - 1]) + multiset{s[|s| - 1]}
  {
    var last := |s| - 1;
    assert Permuted(s[..last], Without(p, at)) == Without(Permuted(s, p), at);
    WithoutOne(Permuted(s, p), at);
    WithoutOne(s, last);
    assert s[..last] == Without(s, last);
  }

  function Without<T>(s: seq<T>, at: nat): (r: seq<T>)
    requires at < |s|
    ensures |r| == |s| - 1 && forall i :: 0 <= i < |r| ==> r[i] == if i < at then s[i] else s[i + 1]
  {
    s[..at] + s[at + 1..]
  }

  lemma WithoutOne<T>(s: seq<T>, at: nat)
    requires at < |s|
    ensures multiset(s) == multiset(Without(s, at)) + multiset{s[at]}
  {
    assert s == s[..at] + [s[at]] + s[at + 1..];
  }

  lemma DropLargest(p: seq<nat>, at: nat)
    requires Permutes(p) && at < |p| && p[at] == |p| - 1
    ensures Permutes(Without(p, at))
  {
    forall i | 0 <= i < |p| - 1 ensures Without(p, at)[i] < |p| - 1 {
      assert Without(p, at)[i] == if i < at then p[i] else p[i + 1];
    }
  }

  // ----- ranges -----

  datatype Bound = Included(index: nat) | Excluded(index: nat) | Unbounded

  function StartOf(b: Bound): nat {
    match b
    case Included(n) => n
    case Excluded(n) => n + 1
    case Unbounded => 0
  }

  function EndOf(b: Bound, len: nat): nat {
    match b
    case Included(n) => n + 1
    case Excluded(n) => n
    case Unbounded => len
  }

  predicate Inside(lower: Bound, upper: Bound, i: nat) {
    && (lower.Included? ==> lower.index <= i) && (lower.Excluded? ==> lower.index < i)
    && (upper.Included? ==> i <= upper.index) && (upper.Excluded? ==> i < upper.index)
  }

  /** `to_range`: the half-open range of exactly those indices that lie inside both bounds. */
  lemma ToRange(lower: Bound, upper: Bound, len: nat)
    requires StartOf(lower) <= EndOf(upper, len) <= len
    ensures forall i: nat :: i < len ==> (StartOf(lower) <= i < EndOf(upper, len) <==> Inside(lower, upper, i))
  {
  }
}
