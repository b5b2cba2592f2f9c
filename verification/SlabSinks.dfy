// The bindings of a derived slab map: per item key, and one set for readers of the whole map.
module SlabSinks {
  import opened DirtyLattice
  import opened GraphState
  import opened EvaluationSteps

  /** What becomes of a mark when its source turns out changed or not; a settled mark stays. */
  function Decided(d: Dirty, changed: bool): Dirty {
    if d == MaybeDirty then FromIsDirty(changed) else d
  }

  class SinkBindingsSet {
    var items: seq<map<nat, Binding>>
    var any: map<nat, Binding>

    constructor ()
      ensures items == [] && any == map[]
    {
      items, any := [], map[];
    }

    /** `update_changed`: the bindings of the changed keys, if there are any, and of the whole map. */
    method UpdateChanged(keys: seq<nat>)
      modifies this
      ensures |items| == |old(items)|
      ensures forall k ::
        0 <= k < |items| ==> items[k] == if k in keys then ResolveAll(old(items)[k], true) else old(items)[k]
      ensures any == if keys != [] then ResolveAll(old(any), true) else old(any)
    {
      for i := 0 to |keys|
        invariant |items| == |old(items)| && any == old(any)
        invariant forall k ::
          0 <= k < |items| ==> items[k] == if k in keys[..i] then ResolveAll(old(items)[k], true) else old(items)[k]
      {
        var key := keys[i];
        assert keys[..i + 1] == keys[..i] + [key];
        if key < |items| {
          ResolveTwice(old(items)[key], true, true);
          items := items[key := ResolveAll(items[key], true)];
        }
      }
      assert keys[..|keys|] == keys;
      if keys != [] {
        any := ResolveAll(any, true);
      }
    }

    /** `update_all`. */
    method UpdateAll(isDirty: bool)
      modifies this
      ensures |items| == |old(items)|
      ensures forall k :: 0 <= k < |items| ==> items[k] == ResolveAll(old(items)[k], isDirty)
      ensures any == ResolveAll(old(any), isDirty)
    {
      for i := 0 to |items|
        invariant |items| == |old(items)| && any == old(any)
        invariant forall k ::
          0 <= k < |items| ==> items[k] == if k < i then ResolveAll(old(items)[k], isDirty) else old(items)[k]
      {
        items := items[i := ResolveAll(items[i], isDirty)];
      }
      any := ResolveAll(any, isDirty);
    }

    /**
     * The end of `Scan::update` after a scan that changed `keys`: of the bindings that were only possibly
     * dirty exactly those of a changed key become Dirty, and all others clean; those of the whole map
     * become Dirty iff anything changed.
     */
    method UpdateSinks(keys: seq<nat>)
      modifies this
      ensures |items| == |old(items)|
      ensures forall k, b :: 0 <= k < |items| && b in old(items)[k] ==>
        b in items[k] && items[k][b] == old(items)[k][b].(dirty := Decided(old(items)[k][b].dirty, k in keys))
      ensures forall b ::
        b in old(any) ==> b in any && any[b] == old(any)[b].(dirty := Decided(old(any)[b].dirty, keys != []))
      ensures forall k :: 0 <= k < |items| ==> items[k].Keys == old(items)[k].Keys
      ensures any.Keys == old(any).Keys
    {
      UpdateChanged(keys);
      UpdateAll(false);
    }

    /** `notify_all`. */
    method NotifyAll(level: DirtyLevel)
      modifies this
      ensures |items| == |old(items)|
      ensures forall k :: 0 <= k < |items| ==> items[k] == RaiseAll(old(items)[k], level)
      ensures any == RaiseAll(old(any), level)
    {
      for i := 0 to |items|
        invariant |items| == |old(items)| && any == old(any)
        invariant forall k ::
          0 <= k < |items| ==> items[k] == if k < i then RaiseAll(old(items)[k], level) else old(items)[k]
      {
        items := items[i := RaiseAll(items[i], level)];
      }
      any := RaiseAll(any, level);
    }

    /** `bind` to one key: tables are made up to it. */
    method BindItem(item: nat, key: nat, sink: nat)
      modifies `items
      ensures |items| == if |old(items)| <= item then item + 1 else |old(items)|
      ensures forall k :: 0 <= k < |items| ==>
        items[k] == (if k < |old(items)| then old(items)[k] else map[])
                      + if k == item then map[key := Binding(sink, Clean)] else map[]
    {
      while |items| <= item
        invariant |items| == |old(items)| || |old(items)| <= |items| <= item + 1
        invariant forall k :: 0 <= k < |items| ==> items[k] == if k < |old(items)| then old(items)[k] else map[]
        decreases item - |items|
      {
        items := items + [map[]];
      }
      items := items[item := items[item] + map[key := Binding(sink, Clean)]];
    }

    /** `bind` to the whole map. */
    method BindAny(key: nat, sink: nat)
      modifies `any
      ensures any == old(any)[key := Binding(sink, Clean)]
    {
      any := any[key := Binding(sink, Clean)];
    }

    /** `unbind` from one key; a key without a table has no bindings. */
    method UnbindItem(item: nat, key: nat)
      modifies `items
      ensures items == if item < |old(items)| then old(items)[item := old(items)[item] - {key}] else old(items)
    {
      if item < |items| {
        items := items[item := items[item] - {key}];
      }
    }

    /** `unbind` from the whole map. */
    method UnbindAny(key: nat)
      modifies `any
      ensures any == old(any) - {key}
    {
      any := any - {key};
    }
  }

  function RaiseAll(m: map<nat, Binding>, level: DirtyLevel): map<nat, Binding> {
    map k | k in m :: m[k].(dirty := RaiseTo(m[k].dirty, level))
  }

  /** The first resolution of a binding is final. */
  lemma ResolveTwice(m: map<nat, Binding>, first: bool, second: bool)
    ensures ResolveAll(ResolveAll(m, first), second) == ResolveAll(m, first)
  {
  }
}
