// A slab map with a change feed: its edits, and readers that follow them.
module StateSlabMaps {
  import opened Options
  import opened Permutations
  import opened FeedState
  import opened ChangeFeeds
  import opened Mirrors
  import opened SlabHistory

  lemma UnusedKey<V>(items: map<nat, V>)
    ensures exists k: nat :: k !in items
  {
    var all := UpTo(|items| + 1);
    if forall k: nat :: k in all ==> k in items {
      SubsetSize(all, items.Keys);
    }
  }

  class StateSlabMap<V(==)> {
    const feed: ChangeFeed<KeyChange>
    // `ItemsMut`
    var items: map<nat, Item<V>>
    var len: nat
    var pendingChanges: seq<KeyChange>
    // For the proof: the live items at every position of the log, and what each reader has read last.
    ghost var contents: seq<map<nat, V>>
    ghost var mirror: seq<map<nat, V>>

    /** The history, in which changes not yet recorded already count. */
    ghost function H(): Hist<V>
      reads this, feed
    {
      Hist(items, feed.log + pendingChanges, feed.base, contents)
    }

    ghost predicate Mirrored()
      reads this, feed
    {
      MirrorsOk(map[], mirror, feed.readers, feed.at, |feed.log|, contents)
    }

    ghost predicate Valid()
      reads this, feed
    {
      && feed.Valid()
      && Sound(H())
      && len == |Now(H())|
      && (pendingChanges != [] ==> feed.writing)
      && Mirrored()
    }

    /** The live items. */
    ghost function Contents(): map<nat, V>
      reads this
      requires contents != []
    {
      contents[|contents| - 1]
    }

    lemma Facts()
      requires Valid()
      ensures contents != [] && Contents() == Now(H()) && Shows(items, Contents())
      ensures forall k :: k in items ==> items[k].isExists == (k in Contents())
    {
      assert Shows(items, H().contents[|H().log|]);
    }

    constructor ()
      ensures Valid() && fresh(feed) && !feed.writing && feed.shared == 0 && feed.readers == []
      ensures Contents() == map[] && feed.log == [] && pendingChanges == []
    {
      feed := new ChangeFeed();
      items, len, pendingChanges := map[], 0, [];
      contents, mirror := [map[]], [];
    }

    // ----- edits -----

    /** `ItemsMut::get`: tombstones are not found. */
    method Get(key: nat) returns (v: Option<V>)
      requires Valid()
      ensures v == if key in Contents() then Some(Contents()[key]) else None
    {
      Facts();
      if key in items && items[key].isExists {
        return Some(items[key].value);
      }
      return None;
    }

    /** `ItemsMut::insert`: the slab picks a key that is not in use, not even by a tombstone. */
    method Insert(value: V) returns (key: nat)
      requires Valid() && feed.writing
      modifies `items, `len, `pendingChanges, `contents
      ensures Valid() && key !in old(Contents()) && Contents() == old(Contents())[key := value]
      ensures pendingChanges == old(pendingChanges) + [KeyChange.Insert(key)]
    {
      UnusedKey(items);
      var k: nat :| k !in items;
      key := k;
      InsertFacts(key, value);
      hide Sound, Ok, MirrorsOk;
      ghost var now := Contents()[key := value];
      len := len + 1;
      Change(KeyChange.Insert(key), Item(value, true), now);
    }

    /** Write an item of the slab and note the change; the live items are then `now`. */
    method Change(c: KeyChange, item: Item<V>, ghost now: map<nat, V>)
      requires feed.Valid() && feed.writing && Sized(H()) && Mirrored() && len == |now|
      requires Sound(Hist(items[c.key := item], feed.log + (pendingChanges + [c]), feed.base, contents + [now]))
      modifies `items, `pendingChanges, `contents
      ensures Valid() && pendingChanges == old(pendingChanges) + [c] && contents == old(contents) + [now]
    {
      MirrorsGrow(map[], mirror, feed.readers, feed.at, |feed.log|, contents, now);
      hide Sound, Ok, MirrorsOk;
      items := items[c.key := item];
      pendingChanges, contents := pendingChanges + [c], contents + [now];
    }

    lemma InsertFacts(key: nat, value: V)
      requires Valid() && key !in items
      ensures Sized(H()) && contents != []
      ensures Sound(Hist(items[key := Item(value, true)],
                         feed.log + (pendingChanges + [KeyChange.Insert(key)]), feed.base,
                         contents + [Contents()[key := value]]))
      ensures key !in Contents() && |Contents()[key := value]| == len + 1
    {
      Facts();
      InsertionIsSound(H(), key, value);
      assert feed.log + (pendingChanges + [KeyChange.Insert(key)])
          == feed.log + pendingChanges + [KeyChange.Insert(key)];
      assert Contents()[key := value].Keys == Contents().Keys + {key};
    }

    /** `ItemsMut::remove`; only a live key may be removed. */
    method Remove(key: nat)
      requires Valid() && feed.writing && key in Contents()
      modifies `items, `len, `pendingChanges, `contents
      ensures Valid() && Contents() == Less(old(Contents()), key)
      ensures pendingChanges == old(pendingChanges) + [KeyChange.Remove(key)]
    {
      RemoveFacts(key);
      hide Sound, Ok, MirrorsOk, Less;
      var tombstone := items[key].(isExists := false);
      ghost var now := Less(Contents(), key);
      len := len - 1;
      Change(KeyChange.Remove(key), tombstone, now);
    }

    lemma RemoveFacts(key: nat)
      requires Valid() && contents != [] && key in Contents()
      ensures Sized(H()) && key in items
      ensures Sound(Hist(items[key := items[key].(isExists := false)],
                         feed.log + (pendingChanges + [KeyChange.Remove(key)]), feed.base,
                         contents + [Less(Contents(), key)]))
      ensures len > 0 && |Less(Contents(), key)| == len - 1
    {
      Facts();
      RemovalIsSound(H(), key);
      assert feed.log + (pendingChanges + [KeyChange.Remove(key)])
          == feed.log + pendingChanges + [KeyChange.Remove(key)];
      assert Less(Contents(), key).Keys == Contents().Keys - {key};
    }

    /** `record_pending`: hand the changes to the feed; their keys are returned in order. */
    method RecordPending() returns (keys: seq<nat>)
      requires Valid() && feed.writing && |feed.items| + |pendingChanges| < WORD
      modifies `pendingChanges, feed`items, feed`endRefs, feed`log, feed`dirty
      ensures Valid() && feed.writing && pendingChanges == []
      ensures feed.log == old(feed.log) + old(pendingChanges)
      ensures |feed.items| == |old(feed.items)| + |old(pendingChanges)|
      ensures keys == KeysOf(old(pendingChanges))
    {
      keys := [];
      hide Sound, MirrorsOk, Ok, KeysOf;
      ghost var all := feed.log + pendingChanges;
      while pendingChanges != []
        invariant Valid() && feed.writing && |feed.items| + |pendingChanges| < WORD
        invariant feed.log + pendingChanges == all
        invariant |feed.items| + |pendingChanges| == |old(feed.items)| + |old(pendingChanges)|
        invariant keys + KeysOf(pendingChanges) == KeysOf(old(pendingChanges))
        decreases |pendingChanges|
      {
        ghost var rest := KeysOf(pendingChanges[1..]);
        var key := pendingChanges[0].key;
        KeysOfFirst(pendingChanges);
        assert keys + ([key] + rest) == (keys + [key]) + rest;
        keys := keys + [key];
        RecordFirst();
      }
    }

    method RecordFirst()
      requires Valid() && feed.writing && pendingChanges != [] && |feed.items| + 1 < WORD
      modifies `pendingChanges, feed`items, feed`endRefs, feed`log, feed`dirty
      ensures Valid() && feed.writing && pendingChanges == old(pendingChanges)[1..]
      ensures feed.log + pendingChanges == old(feed.log + pendingChanges) && |feed.items| == |old(feed.items)| + 1
    {
      MirrorsGrow(map[], mirror, feed.readers, feed.at, |feed.log|, contents, map[]);
      hide Steps, Held, Gone, Marked, MirrorsOk;
      var c := pendingChanges[0];
      assert pendingChanges == [c] + pendingChanges[1..];
      assert feed.log + [c] + pendingChanges[1..] == feed.log + pendingChanges;
      feed.Record(c);
      pendingChanges := pendingChanges[1..];
    }

    method BorrowMut()
      requires Valid() && Free(feed.View())
      modifies this, feed
      ensures Valid() && feed.writing && pendingChanges == [] && contents == old(contents) && mirror == old(mirror)
      ensures feed.readers == old(feed.readers) && |feed.items| <= |old(feed.items)|
      ensures feed.guards == old(feed.guards) && feed.guardAt == old(feed.guardAt) && feed.log == old(feed.log)
    {
      var released := feed.BeginEdit();
      Release(released);
    }

    method EndBorrow() returns (changed: bool)
      requires Valid() && feed.writing && pendingChanges == []
      modifies this, feed
      ensures Valid() && Free(feed.View()) && contents == old(contents) && mirror == old(mirror)
      ensures feed.readers == old(feed.readers) && changed == (old(feed.start) < |feed.log|)
      ensures feed.guards == old(feed.guards) && feed.guardAt == old(feed.guardAt) && |feed.items| <= |old(feed.items)|
      ensures feed.log == old(feed.log) && pendingChanges == []
    {
      var released;
      changed, released := feed.EndEdit();
      Release(released);
    }

    /** `StateSlabMap::insert`, up to the notification of the key's dependants. */
    method InsertNow(value: V) returns (key: nat)
      requires Valid() && Free(feed.View()) && |feed.items| + 1 < WORD
      modifies this, feed
      ensures Valid() && Free(feed.View()) && mirror == old(mirror) && feed.readers == old(feed.readers)
      ensures feed.guards == old(feed.guards) && feed.guardAt == old(feed.guardAt)
      ensures |feed.items| <= |old(feed.items)| + 1
      ensures key !in old(Contents()) && Contents() == old(Contents())[key := value]
      ensures feed.log == old(feed.log) + [KeyChange.Insert(key)]
    {
      hide Steps, Held, Gone, Marked, MirrorsOk, Ok, KeysOf;
      BorrowMut();
      key := Insert(value);
      var keys := RecordPending();
      assert keys == [key];
      var _ := EndBorrow();
    }

    /** `StateSlabMap::remove`, up to the notification of the key's dependants. */
    method RemoveNow(key: nat)
      requires Valid() && Free(feed.View()) && |feed.items| + 1 < WORD && key in Contents()
      modifies this, feed
      ensures Valid() && Free(feed.View()) && mirror == old(mirror) && feed.readers == old(feed.readers)
      ensures feed.guards == old(feed.guards) && feed.guardAt == old(feed.guardAt)
      ensures |feed.items| <= |old(feed.items)| + 1
      ensures Contents() == Less(old(Contents()), key)
      ensures feed.log == old(feed.log) + [KeyChange.Remove(key)]
    {
      hide Steps, Held, Gone, Marked, MirrorsOk, Ok, KeysOf, Less;
      BorrowMut();
      Remove(key);
      var keys := RecordPending();
      assert keys == [key];
      var _ := EndBorrow();
    }

    // ----- releasing changes -----

    method Release(released: seq<KeyChange>)
      requires |released| <= feed.base <= |feed.log|
      requires released == feed.log[feed.base - |released|..feed.base]
      requires Sound(H().(base := feed.base - |released|))
      modifies `items
      ensures Sound(H())
    {
      hide Sound;
      ghost var first := feed.base - |released|;
      for i := 0 to |released|
        invariant Sound(H().(base := first + i))
      {
        assert feed.log[first + i] == released[i];
        ReleaseChange(released[i], first + i);
      }
      assert H().(base := first + |released|) == H();
    }

    /** `release_change`: the tombstone of a removal goes. */
    method ReleaseChange(c: KeyChange, ghost p: nat)
      requires p < |feed.log| && c == feed.log[p] && Sound(H().(base := p))
      modifies `items
      ensures Sound(H().(base := p + 1))
    {
      hide Sound;
      ForgottenIsSound(H().(base := p));
      if c.Remove? {
        items := items - {c.key};
      }
      assert H().(base := p + 1) == Forgotten(old(H()).(base := p));
    }

    // ----- readers -----

    /** What the holders of readers and borrows see. */
    ghost function View(): Seen<map<nat, V>>
      reads this, feed
      requires contents != []
    {
      SeenBy(map[], Contents(), mirror, feed.readers, feed.guards, feed.guardAt, contents)
    }

    lemma IsShown(g: nat)
      requires Valid() && g < |feed.guards| && feed.guards[g].Open?
      ensures g < |feed.guardAt| && g < |View().borrows|
      ensures View().borrows[g] == Some(BaseOf(map[], feed.guardAt[g], contents))
      ensures feed.guardAt[g].Some? ==>
        feed.base <= feed.guardAt[g].value <= |feed.log| && |contents| == |feed.log + pendingChanges| + 1
    {
    }

    /** A handle that somebody holds is one of the feed. */
    lemma HandlesExist()
      requires Valid()
      ensures forall r: nat :: Holds(View().readers, r) ==> r < |feed.readers| && !feed.readers[r].Dropped?
      ensures forall g: nat :: Holds(View().borrows, g) ==> g < |feed.guards| && feed.guards[g].Open?
    {
    }

    /** When nobody holds a borrow the history is free to be edited. */
    lemma NothingBorrowed()
      requires Valid() && !feed.writing && forall g :: 0 <= g < |View().borrows| ==> View().borrows[g].None?
      ensures Free(feed.View()) && Outstanding(feed.guards) == 0
    {
      forall i | 0 <= i < |feed.guards| ensures feed.guards[i].Closed? {
        assert View().borrows[i].None?;
      }
      AllClosed(feed.guards);
    }

    method HasReader(r: nat) returns (ok: bool)
      requires Valid()
      ensures ok == Holds(View().readers, r)
    {
      ok := r < |feed.readers| && !feed.readers[r].Dropped?;
    }

    method HasBorrow(g: nat) returns (ok: bool)
      requires Valid()
      ensures ok == Holds(View().borrows, g)
    {
      ok := g < |feed.guards| && feed.guards[g].Open?;
    }

    /** The history could be borrowed for writing now. */
    method IsFree() returns (ok: bool)
      requires Valid() && !feed.writing
      ensures ok <==> forall g :: 0 <= g < |View().borrows| ==> View().borrows[g].None?
    {
      ok := feed.shared == 0;
      if ok {
        NoneOutstanding(feed.guards);
      } else if forall g :: 0 <= g < |View().borrows| ==> View().borrows[g].None? {
        NothingBorrowed();
      }
    }

    lemma IsReading(r: nat)
      requires Valid() && r < |feed.readers| && !feed.readers[r].Dropped?
      ensures |mirror| == |feed.readers| && Holds(View().readers, r) && View().readers[r].value == mirror[r]
    {
    }

    method NewReader() returns (r: nat)
      requires Valid()
      modifies this, feed
      ensures Valid() && r == |old(feed.readers)| && feed.readers == old(feed.readers) + [Unread]
      ensures View() == WithReader(old(View()), map[])
      ensures feed.writing == old(feed.writing) && feed.shared == old(feed.shared) && feed.items == old(feed.items)
    {
      SeenMoreReaders(map[], Contents(), mirror, feed.readers, feed.guards, feed.guardAt, contents, map[], Unread);
      hide Steps, Held, Gone, Marked, MirrorsOk, Ok, SeenBy, WithReader;
      r := AddReader();
    }

    method AddReader() returns (r: nat)
      requires Valid()
      modifies this, feed
      ensures Valid() && r == |old(feed.readers)| && feed.readers == old(feed.readers) + [Unread]
      ensures mirror == old(mirror) + [map[]] && contents == old(contents)
      ensures feed.guards == old(feed.guards) && feed.guardAt == old(feed.guardAt)
      ensures feed.writing == old(feed.writing) && feed.shared == old(feed.shared) && feed.items == old(feed.items)
    {
      hide Steps, Held, Gone, Marked, Ok;
      r := feed.NewReader();
      mirror := mirror + [map[]];
    }

    method CloneReader(r: nat) returns (copy: nat)
      requires Valid() && r < |feed.readers| && !feed.readers[r].Dropped?
      modifies this, feed
      ensures Valid() && copy == |old(feed.readers)| && feed.readers == old(feed.readers) + [old(feed.readers)[r]]
      ensures Holds(old(View()).readers, r) && View() == WithReader(old(View()), old(View()).readers[r].value)
      ensures feed.writing == old(feed.writing) && feed.shared == old(feed.shared) && |feed.items| <= |old(feed.items)|
    {
      SeenMoreReaders(map[], Contents(), mirror, feed.readers, feed.guards, feed.guardAt, contents,
                      mirror[r], feed.readers[r]);
      IsReading(r);
      hide Steps, Held, Gone, Marked, MirrorsOk, Ok, SeenBy, WithReader, Holds;
      copy := CopyReader(r);
    }

    method CopyReader(r: nat) returns (copy: nat)
      requires Valid() && r < |feed.readers| && !feed.readers[r].Dropped?
      modifies this, feed
      ensures Valid() && copy == |old(feed.readers)| && feed.readers == old(feed.readers) + [old(feed.readers)[r]]
      ensures r < |old(mirror)| == |old(feed.readers)| && mirror == old(mirror) + [old(mirror)[r]]
      ensures contents == old(contents)
      ensures feed.guards == old(feed.guards) && feed.guardAt == old(feed.guardAt) && |feed.items| <= |old(feed.items)|
      ensures feed.writing == old(feed.writing) && feed.shared == old(feed.shared)
    {
      hide Steps, Held, Gone, Marked, Tight, Ok;
      ghost var h := H();
      var released;
      copy, released := feed.CloneReader(r);
      assert H().(base := feed.base - |released|) == h;
      mirror := mirror + [mirror[r]];
      Release(released);
    }

    method DropReader(r: nat)
      requires Valid() && r < |feed.readers| && !feed.readers[r].Dropped?
      modifies this, feed
      ensures Valid() && feed.readers == old(feed.readers)[r := Dropped]
      ensures View() == WithoutReader(old(View()), r)
      ensures feed.writing == old(feed.writing) && feed.shared == old(feed.shared) && |feed.items| <= |old(feed.items)|
    {
      SeenDropped(map[], Contents(), mirror, feed.readers, feed.guards, feed.guardAt, contents, r);
      hide Steps, Held, Gone, Marked, MirrorsOk, Ok;
      GiveUpReader(r);
    }

    method GiveUpReader(r: nat)
      requires Valid() && r < |feed.readers| && !feed.readers[r].Dropped?
      modifies this, feed
      ensures Valid() && feed.readers == old(feed.readers)[r := Dropped] && mirror == old(mirror)
      ensures contents == old(contents)
      ensures feed.guards == old(feed.guards) && feed.guardAt == old(feed.guardAt) && |feed.items| <= |old(feed.items)|
      ensures feed.writing == old(feed.writing) && feed.shared == old(feed.shared)
    {
      hide Steps, Held, Gone, Marked, Tight, Ok;
      ghost var h := H();
      var released := feed.DropReader(r);
      assert H().(base := feed.base - |released|) == h;
      Release(released);
    }

    // ----- reading -----

    /** `peek`: the borrow builds on what this reader has read last. */
    method Peek(r: nat) returns (g: nat)
      requires Valid() && !feed.writing && r < |feed.readers| && !feed.readers[r].Dropped?
      modifies this, feed
      ensures Valid() && g == |old(feed.guards)| == |feed.guards| - 1 && feed.guards[g].Open?
      ensures Holds(old(View()).readers, r) && View() == WithBorrow(old(View()), old(View()).readers[r].value)
      ensures !feed.writing && feed.readers == old(feed.readers) && feed.shared == old(feed.shared) + 1
      ensures |feed.items| <= |old(feed.items)|
    {
      hide Steps, Held, Gone, Marked, Ok;
      ghost var h, readers, guards, at := H(), feed.readers, feed.guards, feed.guardAt;
      var released;
      g, released := feed.Peek(r);
      assert H().(base := feed.base - |released|) == h;
      SeenMoreBorrows(map[], Contents(), mirror, readers, guards, at, contents, feed.guards, feed.guardAt);
      Release(released);
    }

    /** `read`: as `peek`, and the reader has now read the current value. */
    method Read(r: nat) returns (g: nat)
      requires Valid() && !feed.writing && r < |feed.readers| && !feed.readers[r].Dropped?
      modifies this, feed
      ensures Valid() && g == |old(feed.guards)| == |feed.guards| - 1 && feed.guards[g].Open?
      ensures Holds(old(View()).readers, r) && View() == AfterRead(old(View()), r)
      ensures !feed.writing && feed.shared == old(feed.shared) + 1 && |feed.items| <= |old(feed.items)|
      ensures |feed.readers| == |old(feed.readers)| && feed.readers[r].At?
      ensures feed.readers == old(feed.readers)[r := feed.readers[r]]
    {
      hide Steps, Held, Gone, Marked, Ok;
      ghost var h, readers, guards, at := H(), feed.readers, feed.guards, feed.guardAt;
      var released;
      g, released := feed.Read(r);
      assert H().(base := feed.base - |released|) == h;
      SeenMoreBorrows(map[], Contents(), mirror, readers, guards, at, contents, feed.guards, feed.guardAt);
      SeenReader(map[], Contents(), mirror, readers, feed.guards, feed.guardAt, contents,
                 r, Contents(), feed.readers[r]);
      mirror := mirror[r := Contents()];
      Release(released);
    }

    /** `borrow`: no changes are shown. */
    method BorrowCurrent() returns (g: nat)
      requires Valid() && !feed.writing
      modifies this, feed
      ensures Valid() && g == |old(feed.guards)| == |feed.guards| - 1 && feed.guards[g].Open?
      ensures View() == WithBorrow(old(View()), Contents())
      ensures !feed.writing && feed.readers == old(feed.readers) && feed.shared == old(feed.shared) + 1
      ensures |feed.items| <= |old(feed.items)|
    {
      hide Steps, Held, Gone, Marked, MirrorsOk, Ok;
      ghost var h, readers, guards, at := H(), feed.readers, feed.guards, feed.guardAt;
      var released;
      g, released := feed.BorrowCurrent();
      assert H().(base := feed.base - |released|) == h;
      SeenMoreBorrows(map[], Contents(), mirror, readers, guards, at, contents, feed.guards, feed.guardAt);
      Release(released);
    }

    method DropGuard(g: nat)
      requires Valid() && g < |feed.guards| && feed.guards[g].Open?
      modifies this, feed
      ensures Valid() && View() == WithoutBorrow(old(View()), g)
      ensures feed.readers == old(feed.readers) && feed.writing == old(feed.writing)
      ensures feed.shared + 1 == old(feed.shared)
      ensures feed.guards == old(feed.guards)[g := Closed] && |feed.items| <= |old(feed.items)|
    {
      SeenClosed(map[], Contents(), mirror, feed.readers, feed.guards, feed.guardAt, contents, g);
      hide Steps, Held, Gone, Marked, MirrorsOk, Ok;
      GiveUpGuard(g);
    }

    method GiveUpGuard(g: nat)
      requires Valid() && g < |feed.guards| && feed.guards[g].Open?
      modifies this, feed
      ensures Valid() && contents == old(contents) && mirror == old(mirror) && feed.readers == old(feed.readers)
      ensures feed.writing == old(feed.writing) && feed.shared + 1 == old(feed.shared)
      ensures |feed.items| <= |old(feed.items)|
      ensures feed.guards == old(feed.guards)[g := Closed] && feed.guardAt == old(feed.guardAt)
    {
      hide Steps, Held, Gone, Marked, Ok;
      ghost var h := H();
      var released := feed.DropGuard(g);
      assert H().(base := feed.base - |released|) == h;
      Release(released);
    }

    /** `Items::delta`: replaying it on the baseline gives the live items, value for value. */
    method Delta(g: nat) returns (d: seq<MapChange<V>>)
      requires Valid() && !feed.writing && g < |feed.guards| && feed.guards[g].Open?
      ensures Holds(View().borrows, g) && Replays(View().borrows[g].value, d, Contents())
    {
      IsShown(g);
      Facts();
      var changes := feed.Delta(g);
      match changes {
        case None =>
          d := InitialChanges();
        case Some(log) =>
          assert feed.log + pendingChanges == feed.log;
          d := ResolveAll(log, feed.guardAt[g].value);
          DeltaReplays(H(), feed.guardAt[g].value);
      }
    }

    method ResolveAll(log: seq<KeyChange>, ghost p: nat) returns (d: seq<MapChange<V>>)
      requires Valid() && pendingChanges == [] && feed.base <= p <= |feed.log| && log == feed.log[p..]
      ensures p <= |H().log| && d == DeltaFrom(H(), p)
    {
      assert feed.log + pendingChanges == feed.log;
      d := [];
      for i := 0 to |log|
        invariant d == DeltaFrom(H(), p)[..i]
      {
        DeltaAt(H(), p, i);
        d := d + [Resolve(log[i], items)];
      }
    }

    /** A reader that has not read yet is told to insert every live item; `len` says how many there are. */
    method InitialChanges() returns (d: seq<MapChange<V>>)
      requires Valid()
      ensures Replays(map[], d, Contents()) && |d| == len
    {
      Facts();
      d := [];
      var todo := items.Keys;
      ghost var told: map<nat, V> := map[];
      while todo != {}
        invariant todo <= items.Keys
        invariant Replays(map[], d, told) && |d| == |told|
        invariant forall k :: k in told <==> k in Contents() && k !in todo
        invariant forall k :: k in told ==> told[k] == Contents()[k]
        decreases todo
      {
        var key :| key in todo;
        todo := todo - {key};
        if items[key].isExists {
          var c := Inserted(key, items[key].value);
          ReplaysMore(map[], d, told, c);
          assert |told[key := items[key].value]| == |told| + 1;
          d := d + [c];
          told := told[key := items[key].value];
        }
      }
      assert told == Contents();
    }

    /** A complete read: whatever happened since this reader's last read, the delta leads from there to now. */
    method ReadDelta(r: nat) returns (d: seq<MapChange<V>>)
      requires Valid() && !feed.writing && r < |feed.readers| && !feed.readers[r].Dropped?
      modifies this, feed
      ensures Valid() && !feed.writing && feed.shared == old(feed.shared) && Contents() == old(Contents())
      ensures Holds(old(View()).readers, r) && Replays(old(View()).readers[r].value, d, Contents())
      ensures View() == AfterRead(old(View()), r).(borrows := old(View()).borrows + [None])
      ensures |feed.items| <= |old(feed.items)|
      ensures |feed.readers| == |old(feed.readers)| && feed.readers[r].At?
      ensures feed.readers == old(feed.readers)[r := feed.readers[r]]
    {
      hide Steps, Held, Gone, Marked, Ok, MirrorsOk, AfterRead, WithoutBorrow, Replays;
      ghost var w := View();
      IsReading(r);
      ReadThenClosed(w, r);
      var g := Read(r);
      d := Delta(g);
      DropGuard(g);
    }
  }
}
