// Queues by phase: a map over signed indices that grows at both ends (src/utils/isize_map.rs), and
// first-in-first-out buckets over it with exact bounds (src/utils/buckets.rs).
module PhaseBuckets {
  import opened Options

  const ISIZE_MAX := 0x7fff_ffff_ffff_ffff
  const ISIZE_MIN := -0x8000_0000_0000_0000

  class ISizeMap<T(==)> {
    var start: int
    var values: seq<T>
    const standard: T

    constructor (standard: T)
      ensures values == [] && this.standard == standard
    {
      this.standard := standard;
      start, values := 0, [];
    }

    predicate Has(i: int)
      reads this
    {
      start <= i < start + |values|
    }

    /** The value at an index; where nothing is stored it is the default. */
    function At(i: int): T
      reads this
    {
      if Has(i) then values[i - start] else standard
    }

    /** `prepare`: afterwards everything from `first` to `last` is stored, and every value is as before. */
    method Prepare(first: int, last: int)
      requires first <= last
      modifies this
      ensures forall i :: first <= i <= last ==> Has(i)
      ensures forall i :: At(i) == old(At(i))
      ensures forall i :: old(Has(i)) ==> Has(i)
    {
      if values == [] {
        start := first;
        values := [standard];
      }
      while first < start
        invariant values != []
        invariant forall i :: At(i) == old(At(i))
        invariant forall i :: old(Has(i)) ==> Has(i)
        invariant start >= first || old(values) != []
        decreases start - first
      {
        values := [standard] + values;
        start := start - 1;
      }
      while |values| <= last - start
        invariant values != [] && start <= first
        invariant forall i :: At(i) == old(At(i))
        invariant forall i :: old(Has(i)) ==> Has(i)
        decreases last - start - |values|
      {
        values := values + [standard];
      }
    }

    /** A write through `get_mut`. */
    method Put(i: int, v: T)
      requires Has(i)
      modifies `values
      ensures At(i) == v && Has(i)
      ensures forall j :: j != i ==> At(j) == old(At(j))
      ensures forall j :: Has(j) == old(Has(j))
    {
      values := values[i - start := v];
    }
  }

  class Buckets<T(==)> {
    const buckets: ISizeMap<seq<T>>
    var start: int
    var last: int

    constructor ()
      ensures Valid() && fresh(buckets) && forall id :: Queue(id) == []
    {
      buckets := new ISizeMap([]);
      start, last := ISIZE_MAX, ISIZE_MIN;
    }

    /** What waits under `id`, oldest first. */
    ghost function Queue(id: int): seq<T>
      reads this, buckets
    {
      buckets.At(id)
    }

    ghost predicate Bounds(start: int, last: int)
      reads this, buckets
    {
      forall id :: buckets.At(id) != [] ==> start <= id <= last
    }

    /** The bounds are exactly the least and the greatest id under which something waits. */
    ghost predicate Valid()
      reads this, buckets
    {
      && buckets.standard == []
      && Bounds(start, last)
      && (if start == ISIZE_MAX then last == ISIZE_MIN
          else ISIZE_MIN <= start <= last < ISIZE_MAX && Queue(start) != [] && Queue(last) != [])
    }

    predicate IsEmpty()
      reads this
    {
      start == ISIZE_MAX
    }

    lemma EmptyMeans()
      requires Valid()
      ensures IsEmpty() <==> forall id :: Queue(id) == []
    {
      assert Queue(start) == buckets.At(start);
      assert forall id :: Queue(id) == buckets.At(id);
    }

    method Push(id: int, item: T)
      requires Valid() && ISIZE_MIN <= id < ISIZE_MAX
      modifies this, buckets
      ensures Valid() && Queue(id) == old(Queue(id)) + [item]
      ensures forall j :: j != id ==> Queue(j) == old(Queue(j))
    {
      buckets.Prepare(id, id);
      assert forall j :: old(buckets.At(j)) == old(Queue(j));
      buckets.Put(id, buckets.At(id) + [item]);
      start := if id < start then id else start;
      last := if id > last then id else last;
    }

    method PopFront(id: int) returns (item: Option<T>)
      requires Valid()
      modifies this, buckets
      ensures Valid()
      ensures item == if old(Queue(id)) == [] then None else Some(old(Queue(id))[0])
      ensures Queue(id) == if old(Queue(id)) == [] then [] else old(Queue(id))[1..]
      ensures forall j :: j != id ==> Queue(j) == old(Queue(j))
    {
      if !buckets.Has(id) || buckets.At(id) == [] {
        return None;
      }
      var q := buckets.At(id);
      buckets.Put(id, q[1..]);
      UpdateBounds(id);
      item := Some(q[0]);
    }

    /** `update_bounds`: the bucket of `emptied` may have become empty; the bounds move inwards past empty buckets. */
    method UpdateBounds(emptied: int)
      requires buckets.standard == [] && Bounds(start, last)
      requires start == ISIZE_MAX ==> last == ISIZE_MIN
      requires start != ISIZE_MAX ==> ISIZE_MIN <= start <= last < ISIZE_MAX
      requires start != ISIZE_MAX && start != emptied ==> Queue(start) != []
      requires start != ISIZE_MAX && last != emptied ==> Queue(last) != []
      modifies this
      ensures Valid()
    {
      if start == emptied {
        while start <= last && buckets.At(start) == []
          invariant old(start) <= start && Bounds(start, last) && last == old(last)
          invariant start <= last + 1 || start == old(start)
          decreases last - start
        {
          start := start + 1;
        }
      }
      ghost var first := start;
      if last == emptied {
        while start <= last && buckets.At(last) == []
          invariant Bounds(start, last) && last <= old(last) && start == first
          decreases last - start
        {
          last := last - 1;
        }
      }
      if start > last {
        start, last := ISIZE_MAX, ISIZE_MIN;
      }
    }

    /** Everything from `lo` to `hi`, by ascending id, each bucket in its own order. */
    ghost function Upto(lo: int, hi: int): seq<T>
      reads this, buckets
      decreases hi - lo
    {
      if lo > hi then [] else Upto(lo, hi - 1) + Queue(hi)
    }

    lemma {:induction false} UptoEmpty(lo: int, hi: int)
      requires forall id :: lo <= id <= hi ==> Queue(id) == []
      ensures Upto(lo, hi) == []
      decreases hi - lo
    {
      if lo <= hi {
        UptoEmpty(lo, hi - 1);
      }
    }

    /** Between what has a smaller id and what has a greater one stands exactly the queue of an id. */
    lemma {:induction false} UptoSplit(lo: int, id: int, hi: int)
      requires lo <= id <= hi
      ensures Upto(lo, hi) == Upto(lo, id - 1) + Queue(id) + Upto(id + 1, hi)
      decreases hi - id
    {
      if id < hi {
        UptoSplit(lo, id, hi - 1);
        var before, here, after := Upto(lo, id - 1), Queue(id), Upto(id + 1, hi - 1);
        assert before + here + after + Queue(hi) == before + here + (after + Queue(hi));
      } else {
        assert Upto(id + 1, hi) == [];
      }
    }

    /** Empty one bucket, leaving the bounds. */
    method Take(id: int) returns (items: seq<T>)
      requires buckets.standard == []
      modifies buckets
      ensures items == old(buckets.At(id)) && buckets.At(id) == [] && buckets.standard == []
      ensures forall j :: j != id ==> buckets.At(j) == old(buckets.At(j))
    {
      items := [];
      if buckets.Has(id) {
        items := buckets.At(id);
        buckets.Put(id, []);
      }
    }

    /** `drain` of one bucket. */
    method DrainOne(id: int) returns (items: seq<T>)
      requires Valid()
      modifies this, buckets
      ensures Valid() && items == old(Queue(id)) && Queue(id) == []
      ensures forall j :: j != id ==> Queue(j) == old(Queue(j))
    {
      items := Take(id);
      UpdateBounds(id);
    }

    /** The loop of `drain` over all ids within the bounds. */
    method TakeAll(lo: int, hi: int) returns (items: seq<T>)
      requires buckets.standard == []
      modifies buckets
      ensures items == old(Upto(lo, hi)) && buckets.standard == []
      ensures forall j :: buckets.At(j) == if lo <= j <= hi then [] else old(buckets.At(j))
    {
      items := [];
      if lo > hi {
        return;
      }
      for id := lo to hi + 1
        invariant buckets.standard == [] && items == old(Upto(lo, id - 1))
        invariant forall j :: buckets.At(j) == if lo <= j < id then [] else old(buckets.At(j))
      {
        var taken := Take(id);
        items := items + taken;
      }
    }

    /** `drain` of everything: by ascending id, and within an id in the order of the pushes. */
    method DrainAll() returns (items: seq<T>)
      requires Valid()
      modifies this, buckets
      ensures Valid() && items == old(Upto(start, last)) && forall id :: Queue(id) == []
    {
      items := TakeAll(start, last);
      start, last := ISIZE_MAX, ISIZE_MIN;
    }

    /** `ids`: exactly the ids under which something waits, ascending. */
    method Ids() returns (ids: seq<int>)
      requires Valid()
      ensures forall id :: id in ids <==> Queue(id) != []
      ensures forall i, j :: 0 <= i < j < |ids| ==> ids[i] < ids[j]
    {
      ids := [];
      var id := start;
      while id <= last
        invariant start <= id
        invariant forall x :: x in ids <==> x < id && buckets.At(x) != []
        invariant forall i :: 0 <= i < |ids| ==> ids[i] < id
        invariant forall i, j :: 0 <= i < j < |ids| ==> ids[i] < ids[j]
        decreases last - id
      {
        if buckets.At(id) != [] {
          ids := ids + [id];
        }
        id := id + 1;
      }
    }
  }
}
