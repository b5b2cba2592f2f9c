// A vector with a change feed: the edits of `ItemsMut`, and readers that follow them.
module StateVecs {
  import opened Options
  import opened Permutations
  import opened Sorting
  import opened FeedState
  import opened ChangeFeeds
  import opened Mirrors
  import opened VecHistory

  lemma UnusedKey<V>(values: map<nat, V>)
    ensures exists k: nat :: k !in values
  {
    var all := UpTo(|values| + 1);
    if forall k: nat :: k in all ==> k in values {
      SubsetSize(all, values.Keys);
    }
  }

  /** A model in which every value is at exactly one index. */
  ghost predicate Models<V>(keys: seq<nat>, slab: map<nat, V>, vs: seq<V>) {
    Shows(slab, keys, vs) && (forall k :: multiset(keys)[k] <= 1) && forall k :: k in slab ==> k in keys
  }

  lemma ModelIsSound<V>(keys: seq<nat>, slab: map<nat, V>, vs: seq<V>)
    requires Models(keys, slab, vs)
    ensures Sound(Hist(slab, [], 0, [keys], [vs]))
  {
    var h := Hist(slab, [], 0, [keys], [vs]);
    forall k | k in slab ensures Used(h, k) {
      assert k in h.past[|h.log|];
    }
  }

  /** `from_iter` and `push_raw`: fill a model before there is a feed. */
  method BuildModel<V>(vs: seq<V>) returns (keys: seq<nat>, slab: map<nat, V>)
    ensures Models(keys, slab, vs)
  {
    keys, slab := [], map[];
    for i := 0 to |vs|
      invariant Models(keys, slab, vs[..i])
    {
      UnusedKey(slab);
      var k: nat :| k !in slab;
      PushRawModels(keys, slab, vs[..i], k, vs[i]);
      assert vs[..i + 1] == vs[..i] + [vs[i]];
      keys, slab := keys + [k], slab[k := vs[i]];
    }
    assert vs[..|vs|] == vs;
  }

  lemma PushRawModels<V>(keys: seq<nat>, slab: map<nat, V>, vs: seq<V>, key: nat, v: V)
    requires Models(keys, slab, vs) && key !in slab
    ensures Models(keys + [key], slab[key := v], vs + [v])
  {
    assert key !in keys;
    forall k ensures multiset(keys + [key])[k] <= 1 {
      assert multiset(keys)[k] <= 1;
    }
  }

  class StateVec<V(==, !new)> {
    const feed: ChangeFeed<VecChange<nat>>
    // `VecModel`
    var items: seq<nat>
    var values: map<nat, V>
    // For the proof: keys and items at every position of the log, and what each reader has read last.
    ghost var past: seq<seq<nat>>
    ghost var contents: seq<seq<V>>
    ghost var mirror: seq<seq<V>>

    ghost function H(): Hist<V>
      reads this, feed
    {
      Hist(values, feed.log, feed.base, past, contents)
    }

    ghost predicate Mirrored()
      reads this, feed
    {
      MirrorsOk([], mirror, feed.readers, feed.at, |feed.log|, contents)
    }

    ghost predicate Valid()
      reads this, feed
    {
      && feed.Valid()
      && Sound(H())
      && items == Last(past)
      && Mirrored()
    }

    /** The current items. */
    ghost function Contents(): seq<V>
      reads this
      requires contents != []
    {
      Last(contents)
    }

    lemma Facts()
      requires Valid()
      ensures past != [] && contents != [] && |items| == |Contents()| && items == Last(past)
      ensures AllKnown(items, values) && Items(items, values) == Contents()
    {
      assert Shows(values, past[|feed.log|], contents[|feed.log|]);
    }

    /** A vector that starts with the items of a model. */
    constructor (keys: seq<nat>, slab: map<nat, V>, ghost vs: seq<V>)
      requires Models(keys, slab, vs)
      ensures Valid() && fresh(feed) && !feed.writing && feed.shared == 0 && feed.readers == []
      ensures Contents() == vs
    {
      ModelIsSound(keys, slab, vs);
      feed := new ChangeFeed();
      items, values := keys, slab;
      past, contents, mirror := [keys], [vs], [];
    }

    /** The slab: a key that is not in use. */
    method NewKey(value: V) returns (key: nat)
      modifies `values
      ensures key !in old(values) && values == old(values)[key := value]
    {
      UnusedKey(values);
      var k: nat :| k !in values;
      key := k;
      values := values[key := value];
    }

    // ----- releasing changes -----

    /** `release_change` for the changes that a compaction gave up, in order. */
    method Release(released: seq<VecChange<nat>>)
      requires |released| <= feed.base <= |feed.log|
      requires released == feed.log[feed.base - |released|..feed.base]
      requires Sound(H().(base := feed.base - |released|))
      modifies `values
      ensures Sound(H())
    {
      hide Sound;
      ghost var first := feed.base - |released|;
      for i := 0 to |released|
        invariant Sound(H().(base := first + i))
      {
        assert feed.log[first + i] == released[i];
        ReleaseChange(released[i], first + i);
      }
      assert H().(base := first + |released|) == H();
    }

    /** `release_change`. */
    method ReleaseChange(c: VecChange<nat>, ghost p: nat)
      requires p < |feed.log| && c == feed.log[p] && Sound(H().(base := p))
      modifies `values
      ensures Sound(H().(base := p + 1))
    {
      hide Sound;
      ForgottenIsSound(H().(base := p));
      values := Freed(values, c);
      assert H().(base := p + 1) == Forgotten(old(H()).(base := p));
    }

    // ----- readers -----

    /** What the holders of readers and borrows see. */
    ghost function View(): Seen<seq<V>>
      reads this, feed
      requires contents != []
    {
      SeenBy([], Contents(), mirror, feed.readers, feed.guards, feed.guardAt, contents)
    }

    lemma IsShown(g: nat)
      requires Valid() && g < |feed.guards| && feed.guards[g].Open?
      ensures g < |feed.guardAt| && g < |View().borrows|
      ensures View().borrows[g] == Some(BaseOf([], feed.guardAt[g], contents))
      ensures feed.guardAt[g].Some? ==> feed.base <= feed.guardAt[g].value <= |feed.log| && |contents| == |feed.log| + 1
    {
    }

    /** A handle that somebody holds is one of the feed. */
    lemma HandlesExist()
      requires Valid()
      ensures forall r: nat :: Holds(View().readers, r) ==> r < |feed.readers| && !feed.readers[r].Dropped?
      ensures forall g: nat :: Holds(View().borrows, g) ==> g < |feed.guards| && feed.guards[g].Open?
    {
    }

    /** When nobody holds a borrow the history is free to be edited. */
    lemma NothingBorrowed()
      requires Valid() && !feed.writing && forall g :: 0 <= g < |View().borrows| ==> View().borrows[g].None?
      ensures Free(feed.View()) && Outstanding(feed.guards) == 0
    {
      forall i | 0 <= i < |feed.guards| ensures feed.guards[i].Closed? {
        assert View().borrows[i].None?;
      }
      AllClosed(feed.guards);
    }

    lemma IsReading(r: nat)
      requires Valid() && r < |feed.readers| && !feed.readers[r].Dropped?
      ensures |mirror| == |feed.readers| && Holds(View().readers, r) && View().readers[r].value == mirror[r]
    {
    }

    method NewReader() returns (r: nat)
      requires Valid()
      modifies this, feed
      ensures Valid() && r == |old(feed.readers)| && feed.readers == old(feed.readers) + [Unread]
      ensures View() == WithReader(old(View()), [])
      ensures feed.writing == old(feed.writing) && feed.shared == old(feed.shared) && feed.items == old(feed.items)
    {
      SeenMoreReaders([], Contents(), mirror, feed.readers, feed.guards, feed.guardAt, contents, [], Unread);
      hide Steps, Single, Held, Gone, NoLeak, MirrorsOk, Ok, SeenBy, WithReader;
      r := AddReader();
    }

    method AddReader() returns (r: nat)
      requires Valid()
      modifies this, feed
      ensures Valid() && r == |old(feed.readers)| && feed.readers == old(feed.readers) + [Unread]
      ensures mirror == old(mirror) + [[]] && contents == old(contents)
      ensures feed.guards == old(feed.guards) && feed.guardAt == old(feed.guardAt)
      ensures feed.writing == old(feed.writing) && feed.shared == old(feed.shared) && feed.items == old(feed.items)
    {
      hide Steps, Single, Held, Gone, NoLeak, Ok;
      r := feed.NewReader();
      mirror := mirror + [[]];
    }

    method CloneReader(r: nat) returns (copy: nat)
      requires Valid() && r < |feed.readers| && !feed.readers[r].Dropped?
      modifies this, feed
      ensures Valid() && copy == |old(feed.readers)| && feed.readers == old(feed.readers) + [old(feed.readers)[r]]
      ensures Holds(old(View()).readers, r) && View() == WithReader(old(View()), old(View()).readers[r].value)
      ensures feed.writing == old(feed.writing) && feed.shared == old(feed.shared) && |feed.items| <= |old(feed.items)|
    {
      SeenMoreReaders([], Contents(), mirror, feed.readers, feed.guards, feed.guardAt, contents,
                      mirror[r], feed.readers[r]);
      IsReading(r);
      hide Steps, Single, Held, Gone, NoLeak, MirrorsOk, Ok, SeenBy, WithReader, Holds;
      copy := CopyReader(r);
    }

    method CopyReader(r: nat) returns (copy: nat)
      requires Valid() && r < |feed.readers| && !feed.readers[r].Dropped?
      modifies this, feed
      ensures Valid() && copy == |old(feed.readers)| && feed.readers == old(feed.readers) + [old(feed.readers)[r]]
      ensures r < |old(mirror)| == |old(feed.readers)| && mirror == old(mirror) + [old(mirror)[r]]
      ensures contents == old(contents)
      ensures feed.guards == old(feed.guards) && feed.guardAt == old(feed.guardAt) && |feed.items| <= |old(feed.items)|
      ensures feed.writing == old(feed.writing) && feed.shared == old(feed.shared)
    {
      hide Steps, Single, Held, Gone, NoLeak, Tight, Ok;
      ghost var h := H();
      var released;
      copy, released := feed.CloneReader(r);
      assert H().(base := feed.base - |released|) == h;
      mirror := mirror + [mirror[r]];
      Release(released);
    }

    method DropReader(r: nat)
      requires Valid() && r < |feed.readers| && !feed.readers[r].Dropped?
      modifies this, feed
      ensures Valid() && feed.readers == old(feed.readers)[r := Dropped]
      ensures View() == WithoutReader(old(View()), r)
      ensures feed.writing == old(feed.writing) && feed.shared == old(feed.shared) && |feed.items| <= |old(feed.items)|
    {
      SeenDropped([], Contents(), mirror, feed.readers, feed.guards, feed.guardAt, contents, r);
      hide Steps, Single, Held, Gone, NoLeak, MirrorsOk, Ok;
      GiveUpReader(r);
    }

    method GiveUpReader(r: nat)
      requires Valid() && r < |feed.readers| && !feed.readers[r].Dropped?
      modifies this, feed
      ensures Valid() && feed.readers == old(feed.readers)[r := Dropped] && mirror == old(mirror)
      ensures contents == old(contents)
      ensures feed.guards == old(feed.guards) && feed.guardAt == old(feed.guardAt) && |feed.items| <= |old(feed.items)|
      ensures feed.writing == old(feed.writing) && feed.shared == old(feed.shared)
    {
      hide Steps, Single, Held, Gone, NoLeak, Tight, Ok;
      ghost var h := H();
      var released := feed.DropReader(r);
      assert H().(base := feed.base - |released|) == h;
      Release(released);
    }

    // ----- reading -----

    /** `peek`: the borrow builds on what this reader has read last. */
    method Peek(r: nat) returns (g: nat)
      requires Valid() && !feed.writing && r < |feed.readers| && !feed.readers[r].Dropped?
      modifies this, feed
      ensures Valid() && g == |old(feed.guards)| == |feed.guards| - 1 && feed.guards[g].Open?
      ensures Holds(old(View()).readers, r) && View() == WithBorrow(old(View()), old(View()).readers[r].value)
      ensures !feed.writing && feed.readers == old(feed.readers) && feed.shared == old(feed.shared) + 1
      ensures |feed.items| <= |old(feed.items)|
    {
      hide Steps, Single, Held, Gone, NoLeak, Ok;
      ghost var h, readers, guards, at := H(), feed.readers, feed.guards, feed.guardAt;
      var released;
      g, released := feed.Peek(r);
      assert H().(base := feed.base - |released|) == h;
      SeenMoreBorrows([], Contents(), mirror, readers, guards, at, contents, feed.guards, feed.guardAt);
      Release(released);
    }

    /** `read`: as `peek`, and the reader has now read the current value. */
    method Read(r: nat) returns (g: nat)
      requires Valid() && !feed.writing && r < |feed.readers| && !feed.readers[r].Dropped?
      modifies this, feed
      ensures Valid() && g == |old(feed.guards)| == |feed.guards| - 1 && feed.guards[g].Open?
      ensures Holds(old(View()).readers, r) && View() == AfterRead(old(View()), r)
      ensures !feed.writing && feed.shared == old(feed.shared) + 1 && |feed.items| <= |old(feed.items)|
      ensures |feed.readers| == |old(feed.readers)| && feed.readers[r].At?
      ensures feed.readers == old(feed.readers)[r := feed.readers[r]]
    {
      hide Steps, Single, Held, Gone, NoLeak, Ok;
      ghost var h, readers, guards, at := H(), feed.readers, feed.guards, feed.guardAt;
      var released;
      g, released := feed.Read(r);
      assert H().(base := feed.base - |released|) == h;
      SeenMoreBorrows([], Contents(), mirror, readers, guards, at, contents, feed.guards, feed.guardAt);
      SeenReader([], Contents(), mirror, readers, feed.guards, feed.guardAt, contents, r, Contents(), feed.readers[r]);
      mirror := mirror[r := Contents()];
      Release(released);
    }

    /** `borrow`: no changes are shown. */
    method BorrowCurrent() returns (g: nat)
      requires Valid() && !feed.writing
      modifies this, feed
      ensures Valid() && g == |old(feed.guards)| == |feed.guards| - 1 && feed.guards[g].Open?
      ensures View() == WithBorrow(old(View()), Contents())
      ensures !feed.writing && feed.readers == old(feed.readers) && feed.shared == old(feed.shared) + 1
      ensures |feed.items| <= |old(feed.items)|
    {
      hide Steps, Single, Held, Gone, NoLeak, MirrorsOk, Ok;
      ghost var h, readers, guards, at := H(), feed.readers, feed.guards, feed.guardAt;
      var released;
      g, released := feed.BorrowCurrent();
      assert H().(base := feed.base - |released|) == h;
      SeenMoreBorrows([], Contents(), mirror, readers, guards, at, contents, feed.guards, feed.guardAt);
      Release(released);
    }

    method DropGuard(g: nat)
      requires Valid() && g < |feed.guards| && feed.guards[g].Open?
      modifies this, feed
      ensures Valid() && View() == WithoutBorrow(old(View()), g)
      ensures feed.readers == old(feed.readers) && feed.writing == old(feed.writing)
      ensures feed.shared + 1 == old(feed.shared)
      ensures feed.guards == old(feed.guards)[g := Closed] && |feed.items| <= |old(feed.items)|
    {
      SeenClosed([], Contents(), mirror, feed.readers, feed.guards, feed.guardAt, contents, g);
      hide Steps, Single, Held, Gone, NoLeak, MirrorsOk, Ok;
      GiveUpGuard(g);
    }

    method GiveUpGuard(g: nat)
      requires Valid() && g < |feed.guards| && feed.guards[g].Open?
      modifies this, feed
      ensures Valid() && contents == old(contents) && mirror == old(mirror) && feed.readers == old(feed.readers)
      ensures feed.writing == old(feed.writing) && feed.shared + 1 == old(feed.shared)
      ensures |feed.items| <= |old(feed.items)|
      ensures feed.guards == old(feed.guards)[g := Closed] && feed.guardAt == old(feed.guardAt)
    {
      hide Steps, Single, Held, Gone, NoLeak, Ok;
      ghost var h := H();
      var released := feed.DropGuard(g);
      assert H().(base := feed.base - |released|) == h;
      Release(released);
    }

    /** `Items::delta`: replaying it on the baseline gives the current items, value for value. */
    method Delta(g: nat) returns (d: seq<VecChange<V>>)
      requires Valid() && g < |feed.guards| && feed.guards[g].Open?
      ensures Holds(View().borrows, g) && Replays(View().borrows[g].value, d, Contents())
    {
      IsShown(g);
      var changes := feed.Delta(g);
      match changes {
        case None =>
          var current := Iter();
          InitialReplays(current);
          d := InitialChanges(current);
        case Some(log) =>
          d := ResolveAll(log, feed.guardAt[g].value);
          DeltaReplays(H(), feed.guardAt[g].value);
      }
    }

    method ResolveAll(log: seq<VecChange<nat>>, ghost p: nat) returns (d: seq<VecChange<V>>)
      requires Valid() && feed.base <= p <= |feed.log| && log == feed.log[p..]
      ensures d == DeltaFrom(H(), p)
    {
      hide Steps, Single, Held, Gone, NoLeak, MirrorsOk, Ok, Known, VecHistory.Resolve;
      d := [];
      for i := 0 to |log|
        invariant d == DeltaFrom(H(), p)[..i]
      {
        DeltaAt(H(), p, i);
        d := d + [Resolve(log[i], values)];
      }
    }

    method Iter() returns (s: seq<V>)
      requires Valid()
      ensures s == Contents()
    {
      Facts();
      s := Items(items, values);
    }

    /** `Items::get`. */
    method Get(index: nat) returns (v: Option<V>)
      requires Valid()
      ensures v == if index < |Contents()| then Some(Contents()[index]) else None
    {
      Facts();
      if index < |items| {
        return Some(values[items[index]]);
      }
      return None;
    }

    /** A complete read: whatever happened since this reader's last read, the delta leads from there to now. */
    method ReadDelta(r: nat) returns (d: seq<VecChange<V>>)
      requires Valid() && !feed.writing && r < |feed.readers| && !feed.readers[r].Dropped?
      modifies this, feed
      ensures Valid() && !feed.writing && feed.shared == old(feed.shared) && Contents() == old(Contents())
      ensures Holds(old(View()).readers, r) && Replays(old(View()).readers[r].value, d, Contents())
      ensures View() == AfterRead(old(View()), r).(borrows := old(View()).borrows + [None])
      ensures |feed.items| <= |old(feed.items)|
      ensures |feed.readers| == |old(feed.readers)| && feed.readers[r].At?
      ensures feed.readers == old(feed.readers)[r := feed.readers[r]]
    {
      hide Steps, Single, Held, Gone, NoLeak, Ok, MirrorsOk, AfterRead, WithoutBorrow, Replays;
      ghost var w := View();
      IsReading(r);
      ReadThenClosed(w, r);
      var g := Read(r);
      d := Delta(g);
      DropGuard(g);
    }

    // ----- edits -----

    method BorrowMut()
      requires Valid() && Free(feed.View())
      modifies this, feed
      ensures Valid() && feed.writing && contents == old(contents) && mirror == old(mirror)
      ensures feed.readers == old(feed.readers)
      ensures feed.guards == old(feed.guards) && feed.guardAt == old(feed.guardAt) && |feed.items| <= |old(feed.items)|
    {
      var released := feed.BeginEdit();
      Release(released);
    }

    /** The end of an edit; without live readers the slab then holds just the current items. */
    method EndBorrow() returns (changed: bool)
      requires Valid() && feed.writing
      modifies this, feed
      ensures Valid() && Free(feed.View()) && contents == old(contents) && mirror == old(mirror)
      ensures feed.readers == old(feed.readers)
      ensures feed.guards == old(feed.guards) && feed.guardAt == old(feed.guardAt) && |feed.items| <= |old(feed.items)|
      ensures changed == (old(feed.start) < |feed.log|)
      ensures (forall r :: 0 <= r < |feed.readers| ==> !feed.readers[r].At?) ==> forall k :: k in values <==> k in items
    {
      var released;
      changed, released := feed.EndEdit();
      Release(released);
      if forall r :: 0 <= r < |feed.readers| ==> !feed.readers[r].At? {
        assert feed.items == [];
        NothingKept(H());
      }
    }

    ghost predicate Editing(changes: nat)
      reads this, feed
    {
      Valid() && feed.writing && |feed.items| + changes < WORD
    }

    static lemma LastIsThere(h: Hist<V>)
      requires Sound(h)
      ensures Sized(h)
    {
    }

    /** Record a change that leads to `keys`; new keys are already in the slab, which was `before`. */
    method Record(c: VecChange<nat>, ghost before: map<nat, V>, ghost keys: seq<nat>)
      requires feed.Valid() && feed.writing && |feed.items| + 1 < WORD
      requires Sound(H().(values := before)) && Mirrored()
      requires Recordable(H().(values := before), c, values) && keys == Edit(Last(past), c)
      modifies `past, `contents, feed`items, feed`endRefs, feed`log, feed`dirty
      ensures feed.Valid() && feed.writing && |feed.items| == |old(feed.items)| + 1
      ensures Sound(H()) && Mirrored() && feed.log == old(feed.log) + [c]
      ensures Known(c, values) && Fits(Last(old(contents)), Resolve(c, values))
      ensures past == old(past) + [keys]
      ensures contents == old(contents) + [Edit(Last(old(contents)), Resolve(c, values))]
    {
      hide Sound, Edit, Resolve, Fits, MirrorsOk, Recordable, Ok;
      ghost var h := H().(values := before);
      LastIsThere(h);
      RecordedIsSound(h, c, values);
      MirrorsGrow([], mirror, feed.readers, feed.at, |feed.log|, contents, Edit(Last(contents), Resolve(c, values)));
      feed.Record(c);
      past, contents := past + [keys], contents + [Edit(Last(contents), Resolve(c, values))];
    }

    method Insert(index: nat, value: V)
      requires Editing(1) && index <= |Contents()|
      modifies `items, `values, `past, `contents, feed`items, feed`endRefs, feed`log, feed`dirty
      ensures Valid() && feed.writing && |feed.items| == |old(feed.items)| + 1
      ensures Contents() == Edit(old(Contents()), VecChange.Insert(index, value))
    {
      Facts();
      hide Steps, Single, Held, Gone, NoLeak, MirrorsOk, Ok;
      ghost var before := values;
      var key := NewKey(value);
      items := Inserted(items, index, key);
      Record(VecChange.Insert(index, key), before, items);
    }

    method Push(value: V)
      requires Editing(1)
      modifies `items, `values, `past, `contents, feed`items, feed`endRefs, feed`log, feed`dirty
      ensures Valid() && feed.writing && |feed.items| == |old(feed.items)| + 1
      ensures Contents() == old(Contents()) + [value]
    {
      Facts();
      hide Steps, Single, Held, Gone, NoLeak, MirrorsOk, Ok;
      ghost var s := Contents();
      assert Inserted(s, |s|, value) == s + [value];
      hide Inserted;
      Insert(|items|, value);
    }

    method Remove(index: nat)
      requires Editing(1) && index < |Contents()|
      modifies `items, `past, `contents, feed`items, feed`endRefs, feed`log, feed`dirty
      ensures Valid() && feed.writing && |feed.items| == |old(feed.items)| + 1
      ensures Contents() == Without(old(Contents()), index)
    {
      Facts();
      hide Steps, Single, Held, Gone, NoLeak, MirrorsOk, Ok;
      var key := items[index];
      items := Without(items, index);
      Record(VecChange.Remove(index, key), values, items);
    }

    method Set(index: nat, value: V)
      requires Editing(1) && index < |Contents()|
      modifies `items, `values, `past, `contents, feed`items, feed`endRefs, feed`log, feed`dirty
      ensures Valid() && feed.writing && |feed.items| == |old(feed.items)| + 1
      ensures Contents() == old(Contents())[index := value]
    {
      Facts();
      hide Steps, Single, Held, Gone, NoLeak, MirrorsOk, Ok;
      ghost var h := H();
      var oldKey := items[index];
      var key := NewKey(value);
      SetIsRecordable(h, index, key, value);
      hide Recordable;
      items := items[index := key];
      Record(VecChange.Set(index, oldKey, key), h.values, items);
    }

    static lemma SetIsRecordable(h: Hist<V>, index: nat, key: nat, value: V)
      requires Sized(h) && index < |Last(h.past)| && key !in h.values
      ensures Recordable(h, VecChange.Set(index, Last(h.past)[index], key), h.values[key := value])
    {
    }

    method Swap(index0: nat, index1: nat)
      requires Editing(1) && index0 < |Contents()| && index1 < |Contents()|
      modifies `items, `past, `contents, feed`items, feed`endRefs, feed`log, feed`dirty
      ensures Valid() && feed.writing && |feed.items| <= |old(feed.items)| + 1
      ensures Contents() == Swapped(old(Contents()), index0, index1)
      ensures index0 == index1 ==> feed.log == old(feed.log)
    {
      SwapNothing(Contents(), index0);
      hide Steps, Single, Held, Gone, NoLeak, MirrorsOk, Ok, Swapped;
      if index0 != index1 {
        RecordSwap(index0, index1);
      }
    }

    static lemma SwapNothing(s: seq<V>, i: nat)
      requires i < |s|
      ensures Swapped(s, i, i) == s
    {
    }

    static lemma ResolvedSwap(index0: nat, index1: nat, slab: map<nat, V>)
      ensures Resolve(VecChange.Swap(index0, index1), slab) == VecChange.Swap(index0, index1)
    {
    }

    method RecordSwap(index0: nat, index1: nat)
      requires Editing(1) && index0 < |Contents()| && index1 < |Contents()|
      modifies `items, `past, `contents, feed`items, feed`endRefs, feed`log, feed`dirty
      ensures Valid() && feed.writing && |feed.items| == |old(feed.items)| + 1
      ensures Contents() == Swapped(old(Contents()), index0, index1)
    {
      hide Steps, Single, Held, Gone, NoLeak, MirrorsOk, Ok, Swapped, Resolve;
      Facts();
      ResolvedSwap(index0, index1, values);
      items := Swapped(items, index0, index1);
      Record(VecChange.Swap(index0, index1), values, items);
    }

    lemma SameLength()
      requires contents != [] && Editing(1)
      ensures |items| == |Contents()|
    {
      Facts();
    }

    method SwapRemove(index: nat)
      requires Editing(2) && index < |Contents()|
      modifies `items, `past, `contents, feed`items, feed`endRefs, feed`log, feed`dirty
      ensures Valid() && feed.writing && |feed.items| <= |old(feed.items)| + 2
      ensures Contents() == SwapRemoved(old(Contents()), index)
    {
      hide Steps, Single, Held, Gone, NoLeak, Shows, MirrorsOk, Ok, Without, Swapped, SwapRemoved;
      SameLength();
      SwapThenRemove(Contents(), index);
      SwapAndDrop(index, |items| - 1);
    }

    method SwapAndDrop(index: nat, last: nat)
      requires Editing(2) && index <= last < |Contents()|
      modifies `items, `past, `contents, feed`items, feed`endRefs, feed`log, feed`dirty
      ensures Valid() && feed.writing && |Swapped(old(Contents()), index, last)| == |old(Contents())|
      ensures |feed.items| <= |old(feed.items)| + 2
      ensures Contents() == Without(Swapped(old(Contents()), index, last), last)
    {
      Swap(index, last);
      hide Steps, Single, Held, Gone, NoLeak, MirrorsOk, Ok;
      Remove(last);
    }

    static lemma SwapThenRemove(s: seq<V>, i: nat)
      requires i < |s|
      ensures |Swapped(s, i, |s| - 1)| == |s|
      ensures Without(Swapped(s, i, |s| - 1), |s| - 1) == SwapRemoved(s, i)
    {
    }

    static lemma MoveNowhere(s: seq<V>, i: nat)
      requires i < |s|
      ensures Moved(s, i, i) == s
    {
    }

    /** `move_item`, by rotating the part between the two indices. */
    method MoveItem(oldIndex: nat, newIndex: nat)
      requires Editing(1) && oldIndex < |Contents()| && newIndex < |Contents()|
      modifies `items, `past, `contents, feed`items, feed`endRefs, feed`log, feed`dirty
      ensures Valid() && feed.writing && |feed.items| <= |old(feed.items)| + 1
      ensures Contents() == Moved(old(Contents()), oldIndex, newIndex)
      ensures oldIndex == newIndex ==> feed.log == old(feed.log)
    {
      Facts();
      MoveNowhere(Contents(), oldIndex);
      hide Steps, Single, Held, Gone, NoLeak, MirrorsOk, Ok, Moved;
      if oldIndex != newIndex {
        RecordMove(oldIndex, newIndex);
      }
    }

    method RecordMove(oldIndex: nat, newIndex: nat)
      requires Editing(1) && oldIndex < |Contents()| && newIndex < |Contents()|
      modifies `items, `past, `contents, feed`items, feed`endRefs, feed`log, feed`dirty
      ensures Valid() && feed.writing && |feed.items| <= |old(feed.items)| + 1
      ensures Contents() == Moved(old(Contents()), oldIndex, newIndex)
    {
      Facts();
      hide Steps, Single, Held, Gone, NoLeak, MirrorsOk, Ok, Moved;
      Rotate(oldIndex, newIndex);
      Record(VecChange.Move(oldIndex, newIndex), values, items);
    }

    method Rotate(oldIndex: nat, newIndex: nat)
      requires oldIndex < |items| && newIndex < |items|
      modifies `items
      ensures items == Moved(old(items), oldIndex, newIndex)
    {
      RotatedIsMoved(items, oldIndex, newIndex);
      items := Rotated(items, oldIndex, newIndex);
    }

    /** The rest of `sort_as`: nothing is recorded exactly if the permutation is the identity. */
    method ApplyOrder(newToOld: seq<nat>)
      requires Editing(1) && Permutes(newToOld) && |newToOld| == |Contents()|
      modifies `items, `past, `contents, feed`items, feed`endRefs, feed`log, feed`dirty
      ensures Valid() && feed.writing && |feed.items| <= |old(feed.items)| + 1
      ensures Contents() == Permuted(old(Contents()), newToOld)
      ensures
        if Identity(newToOld) then feed.log == old(feed.log)
        else feed.log == old(feed.log) + [VecChange.Sort(newToOld)]
    {
      Facts();
      SortFacts(Contents(), newToOld);
      hide Steps, Single, Held, Gone, NoLeak, MirrorsOk, Ok, Permutes, Identity, Permuted, NonDecreasing;
      var sorted := IsSorted(newToOld);
      if !sorted {
        RecordSort(newToOld);
      }
    }

    static lemma SortFacts(s: seq<V>, p: seq<nat>)
      requires Permutes(p) && |p| == |s|
      ensures NonDecreasing(p) <==> Identity(p)
      ensures Identity(p) ==> Permuted(s, p) == s
    {
      SortedIsIdentity(p);
    }

    method RecordSort(newToOld: seq<nat>)
      requires Editing(1) && Permutes(newToOld) && |newToOld| == |Contents()|
      modifies `items, `past, `contents, feed`items, feed`endRefs, feed`log, feed`dirty
      ensures Valid() && feed.writing && feed.log == old(feed.log) + [VecChange.Sort(newToOld)]
      ensures |feed.items| == |old(feed.items)| + 1
      ensures Contents() == Permuted(old(Contents()), newToOld)
    {
      Facts();
      hide Steps, Single, Held, Gone, NoLeak, MirrorsOk, Ok, Permutes, Permuted;
      Permute(newToOld);
      Record(VecChange.Sort(newToOld), values, items);
    }

    method Permute(newToOld: seq<nat>)
      requires Permutes(newToOld) && |newToOld| == |items|
      modifies `items
      ensures items == Permuted(old(items), newToOld)
    {
      var a := new nat[|items|](i requires 0 <= i < |items| reads this => items[i]);
      assert a[..] == items;
      var _ := ApplyTo(newToOld, a);
      items := a[..];
    }

    /**
     * `sort_as`, with the branches as the source has them: asked for a stable sort it takes the unstable one, of
     * which only the specification is known (`unstable` is what it returned), and the other way round.
     */
    method SortAs(leq: (V, V) -> bool, stable: bool, unstable: seq<nat>) returns (newToOld: seq<nat>)
      requires Editing(1) && Preorder(leq) && Sorts(unstable, Contents(), leq)
      modifies `items, `past, `contents, feed`items, feed`endRefs, feed`log, feed`dirty
      ensures newToOld == if stable then unstable else StableOrder(old(Contents()), leq, |old(Contents())|)
      ensures Valid() && feed.writing && Sorts(newToOld, old(Contents()), leq) && |feed.items| <= |old(feed.items)| + 1
      ensures Contents() == Permuted(old(Contents()), newToOld)
      ensures Ordered(Contents(), leq) && multiset(Contents()) == multiset(old(Contents()))
      ensures !stable || NoTies(old(Contents()), leq) ==> Stable(newToOld, old(Contents()), leq)
      ensures
        if Identity(newToOld) then feed.log == old(feed.log)
        else feed.log == old(feed.log) + [VecChange.Sort(newToOld)]
    {
      var current := Iter();
      if stable {
        newToOld := unstable;
        if NoTies(current, leq) {
          NoTiesIsStable(newToOld, current, leq);
        }
      } else {
        newToOld := SortIndices(current, leq);
      }
      PermutedKeepsAll(current, newToOld);
      ApplyOrder(newToOld);
    }

    /** `drain`: the removals are recorded from the back while the items are still there. */
    method Drain(lower: Bound, upper: Bound)
      requires contents != [] && Editing(|Contents()|)
      requires StartOf(lower) <= EndOf(upper, |Contents()|) <= |Contents()|
      modifies `items, `past, `contents, feed`items, feed`endRefs, feed`log, feed`dirty
      ensures Valid() && feed.writing && |feed.items| <= |old(feed.items)| + |old(Contents())|
      ensures feed.log == old(feed.log) + Removals(old(items), StartOf(lower), EndOf(upper, |old(Contents())|))
      ensures Contents() == old(Contents())[..StartOf(lower)] + old(Contents())[EndOf(upper, |old(Contents())|)..]
    {
      Facts();
      hide Steps, Single, Held, Gone, NoLeak, MirrorsOk, Ok;
      DrainRange(StartOf(lower), EndOf(upper, |items|));
    }

    method DrainRange(from: nat, to: nat)
      requires contents != [] && Editing(|Contents()|) && from <= to <= |Contents()|
      modifies `items, `past, `contents, feed`items, feed`endRefs, feed`log, feed`dirty
      ensures Valid() && feed.writing && |feed.items| == |old(feed.items)| + to - from
      ensures |old(items)| == |old(Contents())| && feed.log == old(feed.log) + Removals(old(items), from, to)
      ensures Contents() == old(Contents())[..from] + old(Contents())[to..]
    {
      Facts();
      hide Steps, Single, Held, Gone, NoLeak, MirrorsOk, Ok;
      DrainBack(from, to);
      items := items[..from] + items[to..];
    }

    method DrainBack(from: nat, to: nat)
      requires Editing(to) && from <= to <= |items| == |Contents()|
      modifies `past, `contents, feed`items, feed`endRefs, feed`log, feed`dirty
      ensures feed.Valid() && feed.writing && Sound(H()) && Mirrored()
      ensures |feed.items| == |old(feed.items)| + to - from && feed.log == old(feed.log) + Removals(items, from, to)
      ensures Last(past) == items[..from] + items[to..]
      ensures Contents() == old(Contents())[..from] + old(Contents())[to..]
    {
      hide Steps, Single, Held, Gone, NoLeak, MirrorsOk, Ok, Removals;
      ghost var was, log, kept := Contents(), feed.log, |feed.items|;
      assert items[..to] + items[to..] == items && was[..to] + was[to..] == was;
      NoRemovals(items, to);
      assert DrainedTo(to, to, was, log, kept);
      DrainSteps(from, to, was, log, kept);
    }

    /** The items from `index` up to `to` have been recorded as removed, the last one first. */
    ghost predicate DrainedTo(index: nat, to: nat, was: seq<V>, log: seq<VecChange<nat>>, kept: nat)
      reads this, feed
    {
      && feed.Valid() && feed.writing && Sound(H()) && Mirrored()
      && index <= to <= |items| == |was| && |feed.items| == kept + to - index
      && feed.log == log + Removals(items, index, to)
      && Last(past) == items[..index] + items[to..] && Contents() == was[..index] + was[to..]
    }

    method DrainSteps(from: nat, to: nat, ghost was: seq<V>, ghost log: seq<VecChange<nat>>, ghost kept: nat)
      requires from <= to && DrainedTo(to, to, was, log, kept) && kept + to < WORD
      modifies `past, `contents, feed`items, feed`endRefs, feed`log, feed`dirty
      ensures DrainedTo(from, to, was, log, kept)
    {
      hide DrainedTo;
      var index := to;
      while index > from
        invariant from <= index <= to && DrainedTo(index, to, was, log, kept)
      {
        index := index - 1;
        DrainStep(index, to, was, log, kept);
      }
    }

    method DrainStep(index: nat, ghost to: nat, ghost was: seq<V>, ghost log: seq<VecChange<nat>>, ghost kept: nat)
      requires index < to && DrainedTo(index + 1, to, was, log, kept) && kept + to < WORD
      modifies `past, `contents, feed`items, feed`endRefs, feed`log, feed`dirty
      ensures DrainedTo(index, to, was, log, kept)
    {
      hide Steps, Single, Held, Gone, NoLeak, MirrorsOk, Ok, Removals;
      RemovalsNext(items, index, to);
      RecordRemoval(index, to, was);
    }

    static lemma NoRemovals(keys: seq<nat>, to: nat)
      requires to <= |keys|
      ensures Removals(keys, to, to) == []
    {
    }

    /** One removal of a drain: recorded as if the items behind it had already gone. */
    method RecordRemoval(index: nat, ghost to: nat, ghost was: seq<V>)
      requires feed.Valid() && feed.writing && Sound(H()) && Mirrored()
      requires index < to <= |items| == |was| && |feed.items| + index + 1 < WORD
      requires Last(past) == items[..index + 1] + items[to..] && Contents() == was[..index + 1] + was[to..]
      modifies `past, `contents, feed`items, feed`endRefs, feed`log, feed`dirty
      ensures feed.Valid() && feed.writing && Sound(H()) && Mirrored() && |feed.items| == |old(feed.items)| + 1
      ensures feed.log == old(feed.log) + [VecChange.Remove(index, items[index])]
      ensures Last(past) == items[..index] + items[to..] && Contents() == was[..index] + was[to..]
    {
      ghost var keys := items[..index] + items[to..];
      assert Without(Last(past), index) == keys;
      assert Without(Contents(), index) == was[..index] + was[to..];
      Record(VecChange.Remove(index, items[index]), values, keys);
    }
  }
}
