// A change feed that is derived from reactive sources and can also be edited directly: how its
// evaluation, direct edits and scheduled notifications mark its dependants.
module DerivedFeeds {
  import opened Options
  import opened DirtyLattice
  import opened FeedState
  import opened ChangeFeeds
  import opened SlabSinks

  class DerivedFeed<T> {
    const feed: ChangeFeed<T>
    // `from_scan` has a scan function, `new` has none
    const hasScan: bool
    // the mark of the source binder, the marks of the dependants' bindings, and the queued notifications
    var mark: Dirty
    var sinks: map<nat, Dirty>
    var scheduled: nat
    // For the proof: the end of the history when the binding was made.
    ghost var readAt: map<nat, nat>

    ghost predicate Valid()
      reads this, feed
    {
      && feed.Valid()
      && (!hasScan ==> mark == Clean)
      && sinks.Keys == readAt.Keys
      && forall k :: k in sinks ==> Exact(k)
    }

    /** What a binding's mark says about the changes since it was made. */
    ghost predicate Exact(k: nat)
      reads this, feed
      requires k in sinks && k in readAt
    {
      && readAt[k] <= |feed.log|
      && (sinks[k] == Dirty ==> readAt[k] < |feed.log|)
      && (sinks[k] != Dirty && scheduled == 0 ==> readAt[k] == |feed.log|)
      && (sinks[k] == Clean <==> sinks[k] != Dirty && mark == Clean)
      && (scheduled > 0 ==> readAt[k] < |feed.log|)
    }

    constructor (hasScan: bool)
      ensures Valid() && fresh(feed) && Free(feed.View()) && this.hasScan == hasScan
      ensures sinks == map[] && readAt == map[] && scheduled == 0 && feed.log == [] && feed.items == []
      ensures mark == if hasScan then Dirty else Clean
    {
      this.hasScan := hasScan;
      feed := new ChangeFeed();
      mark := if hasScan then Dirty else Clean;
      sinks, readAt, scheduled := map[], map[], 0;
    }

    // ----- marks -----

    /** `SinkBindings::notify`. */
    method NotifySinks(level: DirtyLevel)
      modifies `sinks
      ensures sinks == map k | k in old(sinks) :: RaiseTo(old(sinks)[k], level)
    {
      sinks := map k | k in sinks :: RaiseTo(sinks[k], level);
    }

    /** `BindSink::notify` in the source slot: dependants may be dirty. */
    method OnSourceNotify(level: DirtyLevel)
      requires Valid() && hasScan
      modifies `mark, `sinks
      ensures Valid() && mark == RaiseTo(old(mark), level)
    {
      var needsNotify := mark == Clean;
      mark := RaiseTo(mark, level);
      if needsNotify {
        NotifySinks(MaybeLevel);
      }
    }

    /** `BindSink::notify` in the local edit slot, for one scheduled notification. */
    method ApplyNotify()
      requires Valid() && scheduled > 0
      modifies `sinks, `scheduled
      ensures Valid() && scheduled == old(scheduled) - 1
      ensures sinks.Keys == old(sinks).Keys && forall k :: k in sinks ==> sinks[k] == Dirty
    {
      NotifySinks(DirtyLevel);
      scheduled := scheduled - 1;
    }

    // ----- evaluation -----

    method RecordAll(changes: seq<T>)
      requires feed.Valid() && Free(feed.View()) && |feed.items| + |changes| < WORD
      modifies feed
      ensures feed.Valid() && Free(feed.View()) && feed.log == old(feed.log) + changes
      ensures |feed.items| <= |old(feed.items)| + |changes|
    {
      var released := feed.BeginEdit();
      for i := 0 to |changes|
        invariant feed.Valid() && feed.writing && |feed.items| + |changes| - i < WORD
        invariant |feed.items| <= |old(feed.items)| + i
        invariant feed.log == old(feed.log) + changes[..i]
      {
        hide Ok;
        feed.Record(changes[i]);
        assert changes[..i + 1] == changes[..i] + [changes[i]];
      }
      assert changes[..|changes|] == changes;
      var changed;
      changed, released := feed.EndEdit();
    }

    /**
     * `update`: if the sources were marked, they are checked; if one has changed the scan runs and records
     * `scanned`. The dependants' open questions are settled by whether it recorded anything.
     */
    method Update(sourceChanged: bool, scanned: seq<T>)
      requires Valid() && Free(feed.View()) && |feed.items| + |scanned| < WORD
      modifies `mark, `sinks, feed
      ensures Valid() && Free(feed.View()) && mark == Clean
      ensures feed.log == old(feed.log) + Scanned(old(mark), sourceChanged, scanned)
      ensures forall k :: k in sinks ==> sinks[k] != MaybeDirty
      ensures |feed.items| <= |old(feed.items)| + |scanned|
    {
      hide Ok;
      assert feed.log + [] == feed.log;
      if !hasScan || mark == Clean {
        return;
      }
      var dirty := false;
      if sourceChanged {
        RecordAll(scanned);
        dirty := scanned != [];
      }
      mark := Clean;
      sinks := map k | k in sinks :: Decided(sinks[k], dirty);
    }

    /** All queued notifications are carried out, as before every read and every direct edit. */
    method ApplyAll()
      requires Valid()
      modifies `sinks, `scheduled
      ensures Valid() && scheduled == 0
    {
      hide Ok;
      while scheduled > 0
        invariant Valid()
        decreases scheduled
      {
        ApplyNotify();
      }
    }

    /** `check` of one dependant: dirty iff a change was recorded since its binding was made. */
    method Check(k: nat, sourceChanged: bool, scanned: seq<T>) returns (changed: bool)
      requires Valid() && Free(feed.View()) && |feed.items| + |scanned| < WORD && k in readAt && scheduled == 0
      modifies `mark, `sinks, feed
      ensures Valid() && Free(feed.View()) && mark == Clean && |feed.items| <= |old(feed.items)| + |scanned|
      ensures feed.log == old(feed.log) + Scanned(old(mark), sourceChanged, scanned)
      ensures changed <==> readAt[k] < |feed.log|
    {
      hide Ok;
      Update(sourceChanged, scanned);
      assert Exact(k);
      changed := sinks[k] == Dirty;
    }

    /** `watch`: evaluate, then bind; reads come after scheduled notifications were applied. */
    method Watch(k: nat, sourceChanged: bool, scanned: seq<T>)
      requires Valid() && Free(feed.View()) && |feed.items| + |scanned| < WORD && scheduled == 0
      modifies `mark, `sinks, `readAt, feed
      ensures Valid() && Free(feed.View()) && mark == Clean && |feed.items| <= |old(feed.items)| + |scanned|
      ensures feed.log == old(feed.log) + Scanned(old(mark), sourceChanged, scanned)
      ensures readAt == old(readAt)[k := |feed.log|] && k in sinks && sinks[k] == Clean
    {
      hide Ok;
      Update(sourceChanged, scanned);
      Bind(k);
    }

    method Bind(k: nat)
      requires Valid() && mark == Clean && scheduled == 0
      modifies `sinks, `readAt
      ensures Valid() && sinks == old(sinks)[k := Clean] && readAt == old(readAt)[k := |feed.log|]
    {
      hide Ok;
      ghost var was := sinks;
      forall j | j in was ensures Exact(j) {
      }
      sinks, readAt := sinks[k := Clean], readAt[k := |feed.log|];
      assert forall j :: j in sinks && j != k ==> sinks[j] == was[j] && j in was;
    }

    method Unbind(k: nat)
      requires Valid()
      modifies `sinks, `readAt
      ensures Valid() && sinks == old(sinks) - {k} && readAt == old(readAt) - {k}
    {
      ghost var was := sinks;
      sinks, readAt := sinks - {k}, readAt - {k};
      assert forall j :: j in sinks ==> j in was && sinks[j] == was[j];
    }

    // ----- direct edits -----

    /**
     * `borrow_mut` or `borrow_mut_loose` up to the drop of the guard: queued notifications are applied, pending source
     * changes come first in the history, then those of the edit; an edit that changed something is announced, at once
     * or later.
     */
    method EditDirectly(edits: seq<T>, loose: bool, sourceChanged: bool, scanned: seq<T>)
      requires Valid() && Free(feed.View()) && |feed.items| + |scanned| + |edits| < WORD
      modifies `mark, `sinks, `scheduled, feed
      ensures Valid() && Free(feed.View()) && mark == Clean
      ensures |feed.items| <= |old(feed.items)| + |scanned| + |edits|
      ensures feed.log == old(feed.log) + Scanned(old(mark), sourceChanged, scanned) + edits
      ensures edits != [] && !loose ==> forall k :: k in sinks ==> sinks[k] == Dirty
      ensures scheduled == if edits != [] && loose then 1 else 0
    {
      hide Ok;
      ApplyAll();
      Update(sourceChanged, scanned);
      if edits == [] {
        RecordNothing();
        assert feed.log + edits == feed.log;
        return;
      }
      Edit(edits, loose);
    }

    /** A guard that was not used. */
    method RecordNothing()
      requires Valid() && Free(feed.View()) && |feed.items| < WORD
      modifies feed
      ensures Valid() && Free(feed.View()) && feed.log == old(feed.log) && |feed.items| <= |old(feed.items)|
    {
      hide Ok;
      RecordAll([]);
      assert old(feed.log) + [] == old(feed.log);
      forall k | k in sinks ensures Exact(k) {
        assert old(Exact(k));
      }
    }

    /** A guard through which something was changed. */
    method Edit(edits: seq<T>, loose: bool)
      requires Valid() && Free(feed.View()) && |feed.items| + |edits| < WORD && mark == Clean && scheduled == 0
      requires edits != []
      modifies `sinks, `scheduled, feed
      ensures Valid() && Free(feed.View()) && feed.log == old(feed.log) + edits
      ensures |feed.items| <= |old(feed.items)| + |edits|
      ensures !loose ==> forall k :: k in sinks ==> sinks[k] == Dirty
      ensures scheduled == if loose then 1 else 0
    {
      hide Ok;
      RecordAll(edits);
      if loose {
        scheduled := 1;
      } else {
        NotifySinks(DirtyLevel);
      }
      forall k | k in sinks ensures Exact(k) {
        assert old(Exact(k));
      }
    }
  }

  /** What evaluation adds to the history. */
  function Scanned<T>(mark: Dirty, sourceChanged: bool, scanned: seq<T>): seq<T> {
    if mark != Clean && sourceChanged then scanned else []
  }
}
