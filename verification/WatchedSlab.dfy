// A slab map that is edited directly, with its dependants: per key, and those of the whole map. They are told at once.
module WatchedSlabs {
  import opened Options
  import opened DirtyLattice
  import opened GraphState
  import opened FeedState
  import opened SlabHistory
  import opened StateSlabMaps
  import opened SlabSinks
  import opened SlabMarks

  class WatchedSlab<V(==)> {
    const slab: StateSlabMap<V>
    // `ItemSinkBindings`, and the bindings of the change feed state
    var itemSinks: seq<map<nat, Binding>>
    var sinks: map<nat, Binding>
    // For the proof: the end of the history when each binding was made.
    ghost var itemAt: seq<map<nat, nat>>
    ghost var anyAt: map<nat, nat>

    ghost predicate Valid()
      reads this, slab, slab.feed
    {
      && slab.Valid()
      && TablesExact(itemSinks, itemAt, Clean, slab.feed.log)
      && TableExact(sinks, anyAt, Clean, slab.feed.log, OfAll)
    }

    constructor ()
      ensures Valid() && fresh(slab) && fresh(slab.feed) && Free(slab.feed.View())
      ensures itemAt == [] && anyAt == map[] && slab.feed.log == [] && slab.Contents() == map[]
    {
      slab := new StateSlabMap();
      itemSinks, sinks := [], map[];
      itemAt, anyAt := [], map[];
    }

    /** `ItemSinkBindings::notify`: a key without a table has nobody to tell. */
    method NotifyItem(key: nat)
      modifies `itemSinks
      ensures |itemSinks| == |old(itemSinks)|
      ensures forall k :: 0 <= k < |itemSinks| ==>
        itemSinks[k] == if k == key then RaiseAll(old(itemSinks)[k], DirtyLevel) else old(itemSinks)[k]
    {
      if key < |itemSinks| {
        itemSinks := itemSinks[key := RaiseAll(itemSinks[key], DirtyLevel)];
      }
    }

    /** The edit that recorded `c` is over: first the whole map's dependants are told, then those of the key. */
    method Tell(c: KeyChange, ghost log: seq<KeyChange>)
      requires slab.Valid() && slab.feed.log == log + [c]
      requires TablesExact(itemSinks, itemAt, Clean, log) && TableExact(sinks, anyAt, Clean, log, OfAll)
      modifies `itemSinks, `sinks
      ensures Valid()
    {
      hide Ok, Sound, TableExact;
      ghost var items := itemSinks;
      TellTable(sinks, anyAt, log, [c], OfAll);
      sinks := RaiseAll(sinks, DirtyLevel);
      NotifyItem(c.key);
      assert KeysOf([c]) == [c.key];
      forall k | 0 <= k < |items| ensures TableExact(itemSinks[k], itemAt[k], Clean, slab.feed.log, OfKey(k)) {
        TellTable(items[k], itemAt[k], log, [c], OfKey(k));
      }
    }

    /** `StateSlabMap::insert`. */
    method Insert(value: V) returns (key: nat)
      requires Valid() && Free(slab.feed.View()) && |slab.feed.items| + 1 < WORD
      modifies `itemSinks, `sinks, slab, slab.feed
      ensures Valid() && Free(slab.feed.View()) && |slab.feed.items| <= |old(slab.feed.items)| + 1
      ensures key !in old(slab.Contents()) && slab.Contents() == old(slab.Contents())[key := value]
      ensures slab.feed.log == old(slab.feed.log) + [KeyChange.Insert(key)]
    {
      hide Ok, Sound, TablesExact, TableExact;
      ghost var log := slab.feed.log;
      key := slab.InsertNow(value);
      Tell(KeyChange.Insert(key), log);
    }

    /** `StateSlabMap::remove`; only a live key may be removed. */
    method Remove(key: nat)
      requires Valid() && Free(slab.feed.View()) && |slab.feed.items| + 1 < WORD && key in slab.Contents()
      modifies `itemSinks, `sinks, slab, slab.feed
      ensures Valid() && Free(slab.feed.View()) && |slab.feed.items| <= |old(slab.feed.items)| + 1
      ensures slab.Contents() == Less(old(slab.Contents()), key)
      ensures slab.feed.log == old(slab.feed.log) + [KeyChange.Remove(key)]
    {
      hide Ok, Sound, TablesExact, TableExact, Less;
      ghost var log := slab.feed.log;
      slab.RemoveNow(key);
      Tell(KeyChange.Remove(key), log);
    }

    /** `ItemSinkBindings::bind`: tables are made up to the key. */
    method BindItem(item: nat, key: nat, sink: nat)
      modifies `itemSinks
      ensures |itemSinks| == if |old(itemSinks)| <= item then item + 1 else |old(itemSinks)|
      ensures forall k :: 0 <= k < |itemSinks| ==>
        itemSinks[k] == (if k < |old(itemSinks)| then old(itemSinks)[k] else map[])
                          + if k == item then map[key := Binding(sink, Clean)] else map[]
    {
      ghost var was := itemSinks;
      while |itemSinks| <= item
        invariant |itemSinks| == |was| || |was| <= |itemSinks| <= item + 1
        invariant forall k :: 0 <= k < |itemSinks| ==> itemSinks[k] == if k < |was| then was[k] else map[]
        decreases item - |itemSinks|
      {
        itemSinks := itemSinks + [map[]];
      }
      itemSinks := itemSinks[item := itemSinks[item] + map[key := Binding(sink, Clean)]];
    }

    method WatchItem(k: nat, b: nat, sink: nat)
      requires Valid()
      modifies `itemSinks, `itemAt
      ensures Valid() && itemAt == WithBinding(old(itemAt), k, b, |slab.feed.log|)
    {
      hide Ok, Sound, TableExact, WithBinding;
      ghost var items := itemSinks;
      BindItem(k, b, sink);
      BindTables(items, itemSinks, itemAt, slab.feed.log, k, b, sink);
      itemAt := WithBinding(itemAt, k, b, |slab.feed.log|);
    }

    /** A read of one item, or of the whole map: the dependant is bound at the end of the history. */
    method Watch(slot: Slot, b: nat, sink: nat)
      requires Valid()
      modifies `itemSinks, `sinks, `itemAt, `anyAt
      ensures Valid() && Rebound(old(itemAt), old(anyAt), slot, b, Some(|slab.feed.log|), itemAt, anyAt)
    {
      hide Ok, Sound, TableExact;
      match slot {
        case OfKey(k) => WatchItem(k, b, sink);
        case OfAll =>
          BindTable(sinks, anyAt, slab.feed.log, OfAll, b, sink);
          sinks, anyAt := sinks + map[b := Binding(sink, Clean)], anyAt + map[b := |slab.feed.log|];
      }
    }

    /** `unbind`. */
    method Unbind(slot: Slot, b: nat)
      requires Valid()
      modifies `itemSinks, `sinks, `itemAt, `anyAt
      ensures Valid() && Rebound(old(itemAt), old(anyAt), slot, b, None, itemAt, anyAt)
    {
      hide Ok, Sound, TableExact;
      match slot {
        case OfKey(k) =>
          if k < |itemSinks| {
            UnbindTable(itemSinks[k], itemAt[k], Clean, slab.feed.log, slot, b);
            itemSinks := itemSinks[k := itemSinks[k] - {b}];
          }
          itemAt := WithoutBinding(itemAt, k, b);
        case OfAll =>
          UnbindTable(sinks, anyAt, Clean, slab.feed.log, OfAll, b);
          sinks, anyAt := sinks - {b}, anyAt - {b};
      }
    }

    /**
     * `is_dirty`: whether a key in the dependant's slot was inserted or removed since it was bound. A key without a
     * table counts as changed.
     */
    method Check(slot: Slot, b: nat) returns (changed: bool)
      requires Valid() && (BoundAt(itemAt, anyAt, slot, b).Some? || (slot.OfKey? && slot.key >= |itemSinks|))
      ensures BoundAt(itemAt, anyAt, slot, b).Some? ==>
        (changed <==> ChangedSince(slab.feed.log, BoundAt(itemAt, anyAt, slot, b).value, slot))
      ensures BoundAt(itemAt, anyAt, slot, b).None? ==> changed
    {
      hide Ok, Sound, ChangedSince;
      match slot {
        case OfKey(k) => changed := k >= |itemSinks| || itemSinks[k][b].dirty == Dirty;
        case OfAll => changed := sinks[b].dirty == Dirty;
      }
    }
  }
}
