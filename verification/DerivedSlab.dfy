// A slab map that is derived from reactive sources: a dependant of one key is told of changes of that key only.
module DerivedSlabs {
  import opened Options
  import opened DirtyLattice
  import opened GraphState
  import opened FeedState
  import opened SlabHistory
  import opened StateSlabMaps
  import opened SlabSinks
  import opened SlabMarks

  /** What the scan function does to the map; a removal of a key that is not live does not happen. */
  datatype ScanEdit<V> = Insert(value: V) | Remove(key: nat)

  /** One edit leads from `before` to `after`, making these changes; an inserted key is new. */
  ghost predicate ScannedOne<V(!new)>(before: map<nat, V>, edit: ScanEdit<V>, changes: seq<KeyChange>,
                                      after: map<nat, V>)
  {
    match edit
    case Insert(v) =>
      |changes| == 1 && changes[0].Insert? && changes[0].key !in before && after == before[changes[0].key := v]
    case Remove(k) =>
      if k in before then changes == [KeyChange.Remove(k)] && after == Less(before, k)
      else changes == [] && after == before
  }

  /** The edits lead from `before` to `after` one after the other. */
  ghost predicate Scanned<V(!new)>(before: map<nat, V>, edits: seq<ScanEdit<V>>, changes: seq<KeyChange>,
                                   after: map<nat, V>)
    decreases |edits|
  {
    if edits == [] then changes == [] && after == before
    else
      exists n: nat, mid: map<nat, V> ::
        && n <= |changes| && ScannedOne(before, edits[0], changes[..n], mid)
        && Scanned(mid, edits[1..], changes[n..], after)
  }

  lemma ScannedNone<V(!new)>(before: map<nat, V>, edits: seq<ScanEdit<V>>)
    ensures edits == [] ==> Scanned(before, edits, [], before)
  {
  }

  lemma ScannedNext<V(!new)>(before: map<nat, V>, edits: seq<ScanEdit<V>>, first: seq<KeyChange>, mid: map<nat, V>,
                       rest: seq<KeyChange>, after: map<nat, V>)
    requires edits != [] && ScannedOne(before, edits[0], first, mid) && Scanned(mid, edits[1..], rest, after)
    ensures Scanned(before, edits, first + rest, after)
  {
    var changes := first + rest;
    assert changes[..|first|] == first && changes[|first|..] == rest;
  }

  /** What an evaluation does to the live items and the history; `run` says whether it runs the scan. */
  ghost predicate Evaluated<V(!new)>(before: map<nat, V>, log: seq<KeyChange>, run: bool, edits: seq<ScanEdit<V>>,
                                     after: map<nat, V>, log': seq<KeyChange>)
  {
    && |log'| >= |log| && log'[..|log|] == log
    && if run then Scanned(before, edits, log'[|log|..], after) else log' == log && after == before
  }

  class DerivedSlab<V(==, !new)> {
    const slab: StateSlabMap<V>
    const sinks: SinkBindingsSet
    // the mark of the source binder
    var mark: Dirty
    // For the proof: the end of the history when each binding was made.
    ghost var itemAt: seq<map<nat, nat>>
    ghost var anyAt: map<nat, nat>

    ghost predicate Valid()
      reads this, slab, slab.feed, sinks
    {
      && slab.Valid() && Free(slab.feed.View()) && slab.pendingChanges == []
      && TablesExact(sinks.items, itemAt, mark, slab.feed.log)
      && TableExact(sinks.any, anyAt, mark, slab.feed.log, OfAll)
    }

    constructor ()
      ensures Valid() && fresh(slab) && fresh(slab.feed) && fresh(sinks) && mark == Dirty
      ensures itemAt == [] && anyAt == map[] && slab.feed.log == [] && slab.feed.items == []
      ensures slab.Contents() == map[]
    {
      slab := new StateSlabMap();
      sinks := new SinkBindingsSet();
      mark := Dirty;
      itemAt, anyAt := [], map[];
    }

    /** `BindSink::notify`: dependants may be dirty. */
    method OnSourceNotify(level: DirtyLevel)
      requires Valid()
      modifies `mark, sinks
      ensures Valid() && mark == RaiseTo(old(mark), level)
    {
      hide Ok, Sound, TableExact;
      var needsNotify := mark == Clean;
      ghost var items, any := sinks.items, sinks.any;
      mark := RaiseTo(mark, level);
      if needsNotify {
        sinks.NotifyAll(MaybeLevel);
        forall k | 0 <= k < |items| ensures TableExact(sinks.items[k], itemAt[k], mark, slab.feed.log, OfKey(k)) {
          RaiseKeepsTable(items[k], itemAt[k], mark, slab.feed.log, OfKey(k));
        }
        RaiseKeepsTable(any, anyAt, mark, slab.feed.log, OfAll);
      } else {
        forall k | 0 <= k < |items| ensures TableExact(items[k], itemAt[k], mark, slab.feed.log, OfKey(k)) {
          StillOpen(items[k], itemAt[k], old(mark), mark, slab.feed.log, OfKey(k));
        }
        StillOpen(any, anyAt, old(mark), mark, slab.feed.log, OfAll);
      }
    }

    /** The scan function at work, and `record_pending` when it is done. */
    method RunScan(edits: seq<ScanEdit<V>>) returns (keys: seq<nat>)
      requires slab.Valid() && Free(slab.feed.View()) && slab.pendingChanges == [] && |slab.feed.items| + |edits| < WORD
      modifies slab, slab.feed
      ensures slab.Valid() && Free(slab.feed.View()) && slab.pendingChanges == []
      ensures Evaluated(old(slab.Contents()), old(slab.feed.log), true, edits, slab.Contents(), slab.feed.log)
      ensures keys == KeysOf(slab.feed.log[|old(slab.feed.log)|..])
      ensures |slab.feed.items| <= |old(slab.feed.items)| + |edits|
    {
      hide Ok, Sound, Scanned;
      slab.BorrowMut();
      ghost var changes := MakeEdits(edits);
      assert slab.pendingChanges == changes;
      keys := slab.RecordPending();
      assert slab.feed.log[|old(slab.feed.log)|..] == changes;
      var _ := slab.EndBorrow();
    }

    method MakeEdits(edits: seq<ScanEdit<V>>) returns (ghost changes: seq<KeyChange>)
      requires slab.Valid() && slab.feed.writing
      modifies slab`items, slab`len, slab`pendingChanges, slab`contents
      ensures slab.Valid() && slab.feed.writing && |changes| <= |edits|
      ensures slab.pendingChanges == old(slab.pendingChanges) + changes
      ensures Scanned(old(slab.Contents()), edits, changes, slab.Contents())
      decreases |edits|
    {
      hide Ok, Steps, Held, Gone, SlabHistory.Marked, Scanned, ScannedOne;
      changes := [];
      ScannedNone(slab.Contents(), edits);
      if edits == [] {
        return;
      }
      ghost var before := slab.Contents();
      ghost var first := MakeEdit(edits[0]);
      ghost var mid := slab.Contents();
      ghost var rest := MakeEdits(edits[1..]);
      ScannedNext(before, edits, first, mid, rest, slab.Contents());
      changes := first + rest;
    }

    method MakeEdit(edit: ScanEdit<V>) returns (ghost changes: seq<KeyChange>)
      requires slab.Valid() && slab.feed.writing
      modifies slab`items, slab`len, slab`pendingChanges, slab`contents
      ensures slab.Valid() && slab.feed.writing && |changes| <= 1
      ensures slab.pendingChanges == old(slab.pendingChanges) + changes
      ensures ScannedOne(old(slab.Contents()), edit, changes, slab.Contents())
    {
      match edit {
        case Insert(v) =>
          var key := slab.Insert(v);
          changes := [KeyChange.Insert(key)];
        case Remove(k) =>
          changes := [];
          var found := slab.Get(k);
          if found.Some? {
            slab.Remove(k);
            changes := [KeyChange.Remove(k)];
          }
      }
    }

    /**
     * `Scan::update`: if the sources were marked they are checked; if one has changed the scan runs and records its
     * changes. Of the open questions of dependants exactly those about changed keys are answered with yes.
     */
    method Update(sourceChanged: bool, edits: seq<ScanEdit<V>>)
      requires Valid() && |slab.feed.items| + |edits| < WORD
      modifies `mark, slab, slab.feed, sinks
      ensures Valid() && mark == Clean && |slab.feed.items| <= |old(slab.feed.items)| + |edits|
      ensures Evaluated(old(slab.Contents()), old(slab.feed.log), old(mark) != Clean && sourceChanged, edits,
                        slab.Contents(), slab.feed.log)
    {
      hide Ok, Sound, TableExact, Scanned;
      ghost var log := slab.feed.log;
      assert log[..|log|] == log;
      if mark == Clean {
        return;
      }
      var keys := [];
      if sourceChanged {
        keys := RunScan(edits);
      }
      Resolve(keys, log);
    }

    /** The end of an update: `log` was the history before, and `keys` are those of the changes since. */
    method Resolve(keys: seq<nat>, ghost log: seq<KeyChange>)
      requires slab.Valid() && Free(slab.feed.View()) && slab.pendingChanges == [] && mark != Clean
      requires |slab.feed.log| >= |log| && slab.feed.log[..|log|] == log && keys == KeysOf(slab.feed.log[|log|..])
      requires TablesExact(sinks.items, itemAt, mark, log) && TableExact(sinks.any, anyAt, mark, log, OfAll)
      modifies `mark, sinks
      ensures Valid() && mark == Clean
    {
      hide Ok, Sound, TableExact;
      ghost var more, items, any := slab.feed.log[|log|..], sinks.items, sinks.any;
      assert slab.feed.log == log + more;
      sinks.UpdateSinks(keys);
      mark := Clean;
      forall k | 0 <= k < |items| ensures TableExact(sinks.items[k], itemAt[k], Clean, slab.feed.log, OfKey(k)) {
        SettleTable(items[k], sinks.items[k], itemAt[k], old(mark), log, more, OfKey(k));
      }
      SettleTable(any, sinks.any, anyAt, old(mark), log, more, OfAll);
    }

    /**
     * `check` of a dependant: dirty iff a change in its slot was recorded since it was bound. The precondition that it
     * is bound is what the source asks of its callers.
     */
    method Check(slot: Slot, b: nat, sourceChanged: bool, edits: seq<ScanEdit<V>>) returns (changed: bool)
      requires Valid() && |slab.feed.items| + |edits| < WORD && BoundAt(itemAt, anyAt, slot, b).Some?
      modifies `mark, slab, slab.feed, sinks
      ensures Valid() && mark == Clean && |slab.feed.items| <= |old(slab.feed.items)| + |edits|
      ensures Evaluated(old(slab.Contents()), old(slab.feed.log), old(mark) != Clean && sourceChanged, edits,
                        slab.Contents(), slab.feed.log)
      ensures changed <==> ChangedSince(slab.feed.log, BoundAt(itemAt, anyAt, slot, b).value, slot)
    {
      hide Ok, Sound, Evaluated, ChangedSince;
      Update(sourceChanged, edits);
      match slot {
        case OfKey(k) => changed := sinks.items[k][b].dirty == Dirty;
        case OfAll => changed := sinks.any[b].dirty == Dirty;
      }
    }

    /** `watch`: evaluate, then bind at the end of the history; all other bindings stay. */
    method Watch(slot: Slot, b: nat, sink: nat, sourceChanged: bool, edits: seq<ScanEdit<V>>)
      requires Valid() && |slab.feed.items| + |edits| < WORD
      modifies this, slab, slab.feed, sinks
      ensures Valid() && mark == Clean && |slab.feed.items| <= |old(slab.feed.items)| + |edits|
      ensures Evaluated(old(slab.Contents()), old(slab.feed.log), old(mark) != Clean && sourceChanged, edits,
                        slab.Contents(), slab.feed.log)
      ensures Rebound(old(itemAt), old(anyAt), slot, b, Some(|slab.feed.log|), itemAt, anyAt)
    {
      hide Ok, Sound, Evaluated, TableExact;
      Update(sourceChanged, edits);
      match slot {
        case OfKey(k) => BindItem(k, b, sink);
        case OfAll => BindAny(b, sink);
      }
    }

    method BindItem(k: nat, b: nat, sink: nat)
      requires Valid() && mark == Clean
      modifies `itemAt, sinks`items
      ensures Valid() && itemAt == WithBinding(old(itemAt), k, b, |slab.feed.log|)
    {
      hide Ok, Sound, TableExact, WithBinding;
      ghost var items := sinks.items;
      sinks.BindItem(k, b, sink);
      BindTables(items, sinks.items, itemAt, slab.feed.log, k, b, sink);
      itemAt := WithBinding(itemAt, k, b, |slab.feed.log|);
    }

    method BindAny(b: nat, sink: nat)
      requires Valid() && mark == Clean
      modifies `anyAt, sinks`any
      ensures Valid() && anyAt == old(anyAt)[b := |slab.feed.log|]
    {
      hide Ok, Sound, TableExact;
      BindTable(sinks.any, anyAt, slab.feed.log, OfAll, b, sink);
      assert sinks.any + map[b := Binding(sink, Clean)] == sinks.any[b := Binding(sink, Clean)];
      assert anyAt + map[b := |slab.feed.log|] == anyAt[b := |slab.feed.log|];
      sinks.BindAny(b, sink);
      anyAt := anyAt[b := |slab.feed.log|];
    }

    /** `unbind`. */
    method Unbind(slot: Slot, b: nat)
      requires Valid()
      modifies `itemAt, `anyAt, sinks
      ensures Valid()
      ensures Rebound(old(itemAt), old(anyAt), slot, b, None, itemAt, anyAt)
    {
      hide Ok, Sound, TableExact;
      match slot {
        case OfKey(k) =>
          if k < |itemAt| {
            UnbindTable(sinks.items[k], itemAt[k], mark, slab.feed.log, slot, b);
          }
          sinks.UnbindItem(k, b);
          itemAt := WithoutBinding(itemAt, k, b);
        case OfAll =>
          UnbindTable(sinks.any, anyAt, mark, slab.feed.log, slot, b);
          sinks.UnbindAny(b);
          anyAt := anyAt - {b};
      }
    }
  }
}
