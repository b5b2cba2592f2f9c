// The storage of a change feed: a history of changes with reference counts, the readers' cursors, the
// operations that readers leave pending while the history is borrowed, and the borrows themselves.
module ChangeFeeds {
  import opened Options
  import opened FeedState

  class ChangeFeed<T> {
    // `Changes`
    var ageBase: nat
    var items: seq<Change<T>>
    var endRefs: nat
    // `RefCountOps`
    var increments: nat
    var incrementAges: seq<nat>
    var decrementAges: seq<nat>
    // the reader and guard handles, and the borrow state of the history
    var readers: seq<Reader>
    var guards: seq<Guard>
    var shared: nat
    var writing: bool
    // the edit in progress has recorded a change
    var dirty: bool
    ghost var log: seq<T>
    ghost var base: nat
    ghost var at: seq<Option<nat>>
    ghost var guardAt: seq<Option<nat>>
    ghost var incrementsAt: seq<nat>
    ghost var decrementsAt: seq<nat>
    ghost var start: nat

    ghost function View(): Feed<T>
      reads this
    {
      Feed(ageBase, items, endRefs, increments, incrementAges, decrementAges, readers, guards, shared, writing,
           log, base, at, guardAt, incrementsAt, decrementsAt)
    }

    ghost predicate Valid()
      reads this
    {
      Ok(View()) && (writing ==> start <= |log| && (dirty <==> start < |log|))
    }

    constructor ()
      ensures Valid() && log == [] && base == 0 && readers == [] && guards == [] && shared == 0 && !writing
    {
      ageBase, items, endRefs := 0, [], 0;
      increments, incrementAges, decrementAges := 0, [], [];
      readers, guards, shared, writing, dirty := [], [], 0, false, false;
      log, base, at, guardAt, incrementsAt, decrementsAt, start := [], 0, [], [], [], [], 0;
    }

    // ----- reference counts -----

    /** `age_to_index`; its assertion never fails for an age that stands for a kept position. */
    method AgeToIndex(age: nat, ghost p: nat) returns (i: nat)
      requires Ok(View()) && Keeps(View(), p, age)
      ensures i <= |items| && i == p - base
    {
      AgeFindsItem(base, p);
      i := WrapSub(age, ageBase);
    }

    method SetRefsAt(i: nat, refs: nat)
      requires i <= |items|
      modifies `items, `endRefs
      ensures View() == SetRefs(old(View()), i, refs)
    {
      if i == |items| {
        endRefs := refs;
      } else {
        items := items[i := items[i].(refs := refs)];
      }
    }

    /** One element of `increment_ages`. */
    method ApplyOneIncrement()
      requires Ok(View()) && incrementAges != []
      modifies `items, `endRefs, `incrementAges, `incrementsAt
      ensures Ok(View()) && View() == ApplyIncrement(old(View())) && |items| == |old(items)|
    {
      ghost var f := View();
      hide Ok;
      ApplyIncrementKeeps(f);
      var last := |incrementAges| - 1;
      var i := AgeToIndex(incrementAges[last], incrementsAt[last]);
      incrementAges, incrementsAt := incrementAges[..last], incrementsAt[..last];
      SetRefsAt(i, (if i == |items| then endRefs else items[i].refs) + 1);
    }

    /** One element of `decrement_ages`; the checked subtraction never fails. */
    method ApplyOneDecrement()
      requires Ok(View()) && decrementAges != [] && incrementAges == [] && increments == 0
      modifies `items, `endRefs, `decrementAges, `decrementsAt
      ensures Ok(View()) && Lowers(old(View()), View())
      ensures |decrementAges| == |old(decrementAges)| - 1 && |items| == |old(items)|
    {
      ghost var f := View();
      hide Ok;
      ApplyDecrementKeeps(f);
      var last := |decrementAges| - 1;
      var i := AgeToIndex(decrementAges[last], decrementsAt[last]);
      decrementAges, decrementsAt := decrementAges[..last], decrementsAt[..last];
      SetRefsAt(i, (if i == |items| then endRefs else items[i].refs) - 1);
    }

    /** `RefCountOps::apply`. */
    method ApplyPending()
      requires Ok(View())
      modifies `items, `endRefs, `increments, `incrementAges, `decrementAges, `incrementsAt, `decrementsAt
      ensures Ok(View()) && Applied(View()) && |items| == |old(items)|
    {
      hide Ok;
      ApplyEndKeeps(View());
      endRefs, increments := endRefs + increments, 0;
      ApplyIncrements();
      ApplyDecrements();
    }

    method ApplyIncrements()
      requires Ok(View()) && increments == 0
      modifies `items, `endRefs, `incrementAges, `incrementsAt
      ensures Ok(View()) && incrementAges == [] && |items| == |old(items)|
    {
      hide Ok;
      while incrementAges != []
        invariant Ok(View()) && |items| == |old(items)|
        decreases |incrementAges|
      {
        ApplyOneIncrement();
      }
    }

    method ApplyDecrements()
      requires Ok(View()) && increments == 0 && incrementAges == []
      modifies `items, `endRefs, `decrementAges, `decrementsAt
      ensures Ok(View()) && decrementAges == [] && |items| == |old(items)|
    {
      hide Ok;
      while decrementAges != []
        invariant Ok(View()) && |items| == |old(items)|
        decreases |decrementAges|
      {
        ApplyOneDecrement();
      }
    }

    /** One round of `Changes::clean`. */
    method PopOldest() returns (data: T)
      requires Ok(View()) && Applied(View()) && Free(View()) && items != [] && items[0].refs == 0
      modifies `items, `ageBase, `base
      ensures Ok(View()) && View() == PopFront(old(View()))
      ensures base <= |log| && data == log[old(base)]
    {
      PopFrontKeeps(View());
      data := items[0].data;
      items, ageBase, base := items[1..], WrapAdd(ageBase, 1), base + 1;
    }

    /** `Changes::clean`: give up the oldest changes that no reader needs. */
    method Clean() returns (released: seq<T>)
      requires Ok(View()) && Applied(View()) && Free(View())
      modifies `items, `ageBase, `base
      ensures Ok(View()) && Tight(View())
      ensures old(base) <= base <= |log| && released == log[old(base)..base] && |items| <= |old(items)|
      ensures items != [] ==> Some(base) in at
    {
      released := [];
      while items != [] && items[0].refs == 0
        invariant Ok(View()) && Applied(View())
        invariant old(base) <= base <= |log| && released == log[old(base)..base] && |items| <= |old(items)|
        decreases |items|
      {
        hide Ok;
        var data := PopOldest();
        released := released + [data];
      }
      CleanedIsTight(View());
    }

    /** `compact`; the changes it returns are handed to `release_change` in this order. */
    method Compact() returns (released: seq<T>)
      requires Ok(View())
      modifies `ageBase, `items, `endRefs, `increments, `incrementAges, `decrementAges, `base, `incrementsAt
      modifies `decrementsAt
      ensures Ok(View()) && Compacted(old(View()), View(), released)
      ensures shared == 0 && !writing && items != [] ==> Some(base) in at
    {
      if shared > 0 || writing {
        return [];
      }
      ApplyPending();
      released := Clean();
    }

    // ----- readers -----

    method NewReader() returns (r: nat)
      requires Valid()
      modifies `readers, `at
      ensures Valid() && View() == AddReader(old(View())) && r == |old(readers)|
    {
      AddReaderKeeps(View());
      r := |readers|;
      readers, at := readers + [Unread], at + [None];
    }

    method CloneReader(r: nat) returns (copy: nat, released: seq<T>)
      requires Valid() && r < |readers| && !readers[r].Dropped?
      modifies `readers, `at, `ageBase, `items, `endRefs, `increments, `incrementAges, `decrementAges, `base
      modifies `incrementsAt, `decrementsAt
      ensures Valid() && Compacted(CopyReader(old(View()), r), View(), released) && copy == |old(readers)|
      ensures readers == old(readers) + [old(readers)[r]] && at == old(at) + [old(at)[r]]
      ensures log == old(log) && old(base) <= base <= |log| && released == log[old(base)..base]
      ensures |items| <= |old(items)|
    {
      CopyReaderKeeps(View(), r);
      copy := |readers|;
      CopyCursor(r);
      released := Compact();
    }

    method CopyCursor(r: nat)
      requires r < |readers| == |at| && readers[r].At? == at[r].Some?
      modifies `readers, `at, `incrementAges, `incrementsAt
      ensures View() == CopyReader(old(View()), r)
    {
      if readers[r].At? {
        incrementAges, incrementsAt := incrementAges + [readers[r].age], incrementsAt + [at[r].value];
      }
      readers, at := readers + [readers[r]], at + [at[r]];
    }

    method GiveUp(r: nat)
      requires r < |readers| == |at| && readers[r].At? == at[r].Some?
      modifies `decrementAges, `decrementsAt
      ensures View() == Release(old(View()), r)
    {
      if readers[r].At? {
        decrementAges, decrementsAt := decrementAges + [readers[r].age], decrementsAt + [at[r].value];
      }
    }

    method DropReader(r: nat) returns (released: seq<T>)
      requires Valid() && r < |readers| && !readers[r].Dropped?
      modifies `readers, `at, `ageBase, `items, `endRefs, `increments, `incrementAges, `decrementAges, `base
      modifies `incrementsAt, `decrementsAt
      ensures Valid() && Compacted(FeedState.DropReader(old(View()), r), View(), released)
      ensures readers == old(readers)[r := Dropped] && at == old(at)[r := None]
      ensures log == old(log) && old(base) <= base <= |log| && released == log[old(base)..base]
      ensures |items| <= |old(items)|
    {
      DropReaderKeeps(View(), r);
      GiveUp(r);
      readers, at := readers[r := Dropped], at[r := None];
      released := Compact();
    }

    // ----- borrows -----

    method Open(since: Option<nat>, ghost p: Option<nat>) returns (g: nat)
      requires Valid() && !writing && since.Some? == p.Some? && (p.Some? ==> Keeps(View(), p.value, since.value))
      modifies `guards, `guardAt, `shared
      ensures Valid() && View() == OpenGuard(old(View()), since, p) && g == |old(guards)| && Shows(g)
    {
      OpenGuardKeeps(View(), since, p);
      g := |guards|;
      guards, guardAt, shared := guards + [Guard.Open(since)], guardAt + [p], shared + 1;
    }

    /** An open borrow shows changes from a position that is still kept. */
    ghost predicate Shows(g: nat)
      reads this
    {
      && g < |guards| == |guardAt| && guards[g].Open?
      && base <= |log| && (guardAt[g].Some? ==> base <= guardAt[g].value <= |log|)
    }

    /** `peek`: borrow with the changes since the reader's cursor; the cursor stays. */
    method Peek(r: nat) returns (g: nat, released: seq<T>)
      requires Valid() && !writing && r < |readers| && !readers[r].Dropped?
      modifies `guards, `guardAt, `shared, `ageBase, `items, `endRefs, `increments, `incrementAges, `decrementAges
      modifies `base, `incrementsAt, `decrementsAt
      ensures Valid() && g == |old(guards)| && Shows(g) && !writing && shared == old(shared) + 1
      ensures Peeked(old(View()), View(), r, released)
    {
      released := Compact();
      g := Open(if readers[r].At? then Some(readers[r].age) else None, at[r]);
    }

    /** `read`: as `peek`, and the reader moves to the end; the compaction that follows must wait for the guard. */
    method Read(r: nat) returns (g: nat, released: seq<T>)
      requires Valid() && !writing && r < |readers| && !readers[r].Dropped?
      modifies `guards, `guardAt, `shared, `readers, `at, `ageBase, `items, `endRefs, `increments, `incrementAges
      modifies `decrementAges, `base, `incrementsAt, `decrementsAt
      ensures Valid() && g == |old(guards)| && Shows(g)
      ensures ReadOff(old(View()), View(), r, released)
    {
      ghost var f := View();
      g, released := Peek(r);
      ReadIs(f, View(), r, released);
      hide Ok, Peeked, ReadOff;
      AdvanceCursor(r);
      var none := Compact();
    }

    /** `advance_cursor`, without the compaction at its end. */
    method AdvanceCursor(r: nat)
      requires r < |readers| == |at| && readers[r].At? == at[r].Some?
      modifies `increments, `readers, `at, `decrementAges, `decrementsAt
      ensures View() == Advance(old(View()), r)
    {
      GiveUp(r);
      increments := increments + 1;
      readers, at := readers[r := At(WrapAdd(ageBase, |items|))], at[r := Some(base + |items|)];
    }

    /** `borrow_current`: a borrow that shows no changes. */
    method BorrowCurrent() returns (g: nat, released: seq<T>)
      requires Valid() && !writing
      modifies `guards, `guardAt, `shared, `ageBase, `items, `endRefs, `increments, `incrementAges, `decrementAges
      modifies `base, `incrementsAt, `decrementsAt
      ensures Valid() && g == |old(guards)| && Shows(g)
      ensures Borrowed(old(View()), View(), Some(|log|), released)
    {
      ghost var f := View();
      released := Compact();
      OpensAtEnd(f, View(), released);
      hide Ok, Compacted, Borrowed, OpenGuard;
      g := Open(Some(WrapAdd(ageBase, |items|)), Some(base + |items|));
    }

    /** `ChangeFeedRef::delta`: nothing to build on yet, or exactly the changes since the cursor. */
    method Delta(g: nat) returns (d: Option<seq<T>>)
      requires Valid() && g < |guards| && guards[g].Open?
      ensures d.Some? == guardAt[g].Some?
      ensures d.Some? ==> guardAt[g].value <= |log| && d.value == log[guardAt[g].value..]
    {
      if guards[g].since == None {
        return None;
      }
      var i := AgeToIndex(guards[g].since.value, guardAt[g].value);
      var kept := items;
      d := Some(seq(|kept| - i, j requires 0 <= j < |kept| - i => kept[i + j].data));
    }

    method DropGuard(g: nat) returns (released: seq<T>)
      requires Valid() && g < |guards| && guards[g].Open?
      modifies `guards, `shared, `ageBase, `items, `endRefs, `increments, `incrementAges, `decrementAges, `base
      modifies `incrementsAt, `decrementsAt
      ensures Valid() && Compacted(CloseGuard(old(View()), g), View(), released)
      ensures guards == old(guards)[g := Closed] && shared + 1 == old(shared)
      ensures log == old(log) && old(base) <= base <= |log| && released == log[old(base)..base]
      ensures |items| <= |old(items)|
    {
      CloseGuardKeeps(View(), g);
      guards, shared := guards[g := Closed], shared - 1;
      released := Compact();
    }

    // ----- edits -----

    /** `begin_edit`: the compaction comes first, so no reader of the end is still pending when changes are added. */
    method BeginEdit() returns (released: seq<T>)
      requires Valid() && Free(View())
      modifies `writing, `dirty, `start, `ageBase, `items, `endRefs, `increments, `incrementAges, `decrementAges, `base
      modifies `incrementsAt, `decrementsAt
      ensures Valid() && writing && !dirty && start == |log|
      ensures Compacted(old(View()), View().(writing := false), released)
      ensures log == old(log) && old(base) <= base <= |log| && released == log[old(base)..base]
      ensures |items| <= |old(items)|
    {
      released := Compact();
      WritingKeeps(View(), true);
      writing, dirty, start := true, false, |log|;
    }

    /** `record`. Memory bounds the number of kept changes far below the number of ages. */
    method Record(data: T)
      requires Valid() && writing && |items| + 1 < WORD
      modifies `items, `endRefs, `log, `dirty
      ensures Valid() && View() == Push(old(View()), data)
    {
      PushKeeps(View(), data);
      items, endRefs, log := items + [Change(data, endRefs)], 0, log + [data];
      dirty := true;
    }

    /** The end of an edit; it reports whether a change was recorded. */
    method EndEdit() returns (changed: bool, released: seq<T>)
      requires Valid() && writing
      modifies `writing, `ageBase, `items, `endRefs, `increments, `incrementAges, `decrementAges, `base, `incrementsAt
      modifies `decrementsAt
      ensures Valid() && changed == (start < |log|)
      ensures Compacted(old(View()).(writing := false), View(), released)
      ensures log == old(log) && old(base) <= base <= |log| && released == log[old(base)..base]
      ensures |items| <= |old(items)|
    {
      changed := dirty;
      WritingKeeps(View(), false);
      writing := false;
      released := Compact();
    }
  }
}
