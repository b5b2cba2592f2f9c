// The history of a change feed with its reader cursors as one value (`Changes`, `RefCountOps` and
// `ChangeFeedStorageCell`), the invariant every operation keeps, and the steps of the operations.
//
// A position counts the changes ever recorded before it. The program only keeps ages: positions
// modulo the machine word.
module FeedState {
  import opened Options

  // usize::MAX + 1 on a 64-bit target
  const WORD: nat := 0x1_0000_0000_0000_0000

  datatype Change<T> = Change(data: T, refs: nat)

  /** A reader: dropped, not yet read, or with the age up to which it has read. */
  datatype Reader = Dropped | Unread | At(age: nat)

  /** A shared borrow of the history, with the age from which it shows changes. */
  datatype Guard = Closed | Open(since: Option<nat>)

  datatype Feed<T> = Feed(
    ageBase: nat,
    items: seq<Change<T>>,
    endRefs: nat,
    increments: nat,
    incrementAges: seq<nat>,
    decrementAges: seq<nat>,
    readers: seq<Reader>,
    guards: seq<Guard>,
    shared: nat,
    writing: bool,
    // For the proof: all changes ever recorded, the position of the first one kept, and the positions
    // behind the ages of readers, guards and pending operations.
    log: seq<T>,
    base: nat,
    at: seq<Option<nat>>,
    guardAt: seq<Option<nat>>,
    incrementsAt: seq<nat>,
    decrementsAt: seq<nat>)

  function End<T>(f: Feed<T>): nat { f.base + |f.items| }

  function Hit(b: bool): nat { if b then 1 else 0 }

  /** How many live readers stand at position `p`. */
  function Live(at: seq<Option<nat>>, p: nat): nat {
    if at == [] then 0 else Live(at[..|at| - 1], p) + Hit(at[|at| - 1] == Some(p))
  }

  lemma {:induction false} LiveUpdate(at: seq<Option<nat>>, r: nat, x: Option<nat>, p: nat)
    requires r < |at|
    ensures Live(at[r := x], p) + Hit(at[r] == Some(p)) == Live(at, p) + Hit(x == Some(p))
  {
    var last := |at| - 1;
    if r == last {
      assert at[r := x][..last] == at[..last];
    } else {
      LiveUpdate(at[..last], r, x, p);
      assert at[r := x][..last] == at[..last][r := x];
    }
  }

  lemma LiveAppend(at: seq<Option<nat>>, x: Option<nat>, p: nat)
    ensures Live(at + [x], p) == Live(at, p) + Hit(x == Some(p))
  {
    assert (at + [x])[..|at|] == at;
  }

  lemma {:induction false} LiveIs(at: seq<Option<nat>>, p: nat)
    ensures Live(at, p) > 0 <==> Some(p) in at
  {
    if at != [] {
      LiveIs(at[..|at| - 1], p);
      assert at == at[..|at| - 1] + [at[|at| - 1]];
    }
  }

  /** How often `p` is in `s`. */
  function Times(s: seq<nat>, p: nat): nat {
    if s == [] then 0 else Times(s[..|s| - 1], p) + Hit(s[|s| - 1] == p)
  }

  lemma TimesAppend(s: seq<nat>, x: nat, p: nat)
    ensures Times(s + [x], p) == Times(s, p) + Hit(x == p)
  {
    assert (s + [x])[..|s|] == s;
  }

  lemma {:induction false} TimesNone(s: seq<nat>, p: nat)
    requires p !in s
    ensures Times(s, p) == 0
  {
    if s != [] {
      TimesNone(s[..|s| - 1], p);
    }
  }

  function Outstanding(guards: seq<Guard>): nat {
    if guards == [] then 0 else Outstanding(guards[..|guards| - 1]) + if guards[|guards| - 1].Open? then 1 else 0
  }

  lemma {:induction false} OutstandingUpdate(guards: seq<Guard>, i: nat, g: Guard)
    requires i < |guards|
    ensures Outstanding(guards[i := g]) + (if guards[i].Open? then 1 else 0)
         == Outstanding(guards) + if g.Open? then 1 else 0
  {
    var last := |guards| - 1;
    if i == last {
      assert guards[i := g][..last] == guards[..last];
    } else {
      OutstandingUpdate(guards[..last], i, g);
      assert guards[i := g][..last] == guards[..last][i := g];
    }
  }

  lemma OutstandingAppend(guards: seq<Guard>, g: Guard)
    ensures Outstanding(guards + [g]) == Outstanding(guards) + if g.Open? then 1 else 0
  {
    assert (guards + [g])[..|guards|] == guards;
  }

  lemma {:induction false} NoneOutstanding(guards: seq<Guard>)
    requires Outstanding(guards) == 0
    ensures forall i :: 0 <= i < |guards| ==> guards[i].Closed?
  {
    if guards != [] {
      NoneOutstanding(guards[..|guards| - 1]);
      assert guards == guards[..|guards| - 1] + [guards[|guards| - 1]];
    }
  }

  // ----- ages -----

  function AgeOf(p: nat): nat { p % WORD }

  /** `end_age` and the step of `age_base`, with wrap-around. */
  function WrapAdd(age: nat, n: nat): nat { (age + n) % WORD }

  /** `age.wrapping_sub(self.age_base)`. */
  function WrapSub(age: nat, ageBase: nat): nat
    requires age < WORD && ageBase < WORD
  {
    if age >= ageBase then age - ageBase else age + WORD - ageBase
  }

  /** Wrapped ages find the right item as long as fewer items are kept than there are ages. */
  lemma AgeFindsItem(base: nat, p: nat)
    requires base <= p < base + WORD
    ensures WrapSub(AgeOf(p), AgeOf(base)) == p - base
  {
    var d := p - base;
    assert p == (base / WORD) * WORD + AgeOf(base) + d;
    if AgeOf(base) + d < WORD {
      ModIs(base / WORD, AgeOf(base) + d);
    } else {
      ModIs(base / WORD + 1, AgeOf(base) + d - WORD);
    }
  }

  lemma ModIs(q: nat, r: nat)
    requires r < WORD
    ensures (q * WORD + r) % WORD == r
  {
  }

  lemma AgeAdds(p: nat, n: nat)
    ensures WrapAdd(AgeOf(p), n) == AgeOf(p + n)
  {
    assert p + n == (p / WORD) * WORD + (AgeOf(p) + n);
    var r := (AgeOf(p) + n) % WORD;
    assert p + n == (p / WORD + (AgeOf(p) + n) / WORD) * WORD + r;
    ModIs(p / WORD + (AgeOf(p) + n) / WORD, r);
  }

  // ----- the invariant -----

  /** The kept items are the last part of everything recorded. */
  ghost predicate Kept<T>(f: Feed<T>) {
    && f.ageBase == AgeOf(f.base)
    && |f.items| < WORD
    && End(f) == |f.log|
    && (forall i :: 0 <= i < |f.items| ==> f.items[i].data == f.log[f.base + i])
  }

  /** A position that is still kept, and its age. */
  predicate Keeps<T>(f: Feed<T>, p: nat, age: nat) {
    f.base <= p <= End(f) && age == AgeOf(p)
  }

  predicate Placed<T>(f: Feed<T>) {
    && |f.at| == |f.readers|
    && (forall r :: 0 <= r < |f.at| ==> f.at[r].Some? == f.readers[r].At?)
    && (forall r :: 0 <= r < |f.at| && f.at[r].Some? ==> Keeps(f, f.at[r].value, f.readers[r].age))
    && |f.incrementsAt| == |f.incrementAges| && |f.decrementsAt| == |f.decrementAges|
    && (forall i :: 0 <= i < |f.incrementsAt| ==> Keeps(f, f.incrementsAt[i], f.incrementAges[i]))
    && (forall i :: 0 <= i < |f.decrementsAt| ==> Keeps(f, f.decrementsAt[i], f.decrementAges[i]))
  }

  predicate Guarded<T>(f: Feed<T>) {
    && |f.guardAt| == |f.guards|
    && f.shared == Outstanding(f.guards)
    && (forall i :: 0 <= i < |f.guards| && f.guards[i].Open? ==> f.guardAt[i].Some? == f.guards[i].since.Some?)
    && (forall i :: 0 <= i < |f.guards| && f.guards[i].Open? && f.guards[i].since.Some? ==>
          Keeps(f, f.guardAt[i].value, f.guards[i].since.value))
    && (f.writing ==> f.shared == 0 && f.increments == 0)
  }

  function StoredAt<T>(f: Feed<T>, p: nat): nat
    requires f.base <= p <= End(f)
  {
    if p == End(f) then f.endRefs else f.items[p - f.base].refs
  }

  /** Stored counts and pending operations together are always exactly the live cursors. */
  predicate Accounted<T>(f: Feed<T>) {
    forall p :: f.base <= p <= End(f) ==> Balanced(f, p)
  }

  predicate Balanced<T>(f: Feed<T>, p: nat)
    requires f.base <= p <= End(f)
  {
    StoredAt(f, p) + Times(f.incrementsAt, p) + (if p == End(f) then f.increments else 0)
      == Live(f.at, p) + Times(f.decrementsAt, p)
  }

  ghost predicate Ok<T>(f: Feed<T>) {
    Kept(f) && Placed(f) && Guarded(f) && Accounted(f)
  }

  // ----- applying the pending operations -----

  predicate Free<T>(f: Feed<T>) { f.shared == 0 && !f.writing }

  function ApplyEnd<T>(f: Feed<T>): Feed<T> {
    f.(endRefs := f.endRefs + f.increments, increments := 0)
  }

  lemma ApplyEndKeeps<T>(f: Feed<T>)
    requires Ok(f)
    ensures Ok(ApplyEnd(f))
  {
    var f' := ApplyEnd(f);
    forall p | f'.base <= p <= End(f') ensures Balanced(f', p) {
      assert Balanced(f, p);
    }
    assert forall p, age :: Keeps(f, p, age) == Keeps(f', p, age);
  }

  function SetRefs<T>(f: Feed<T>, i: nat, refs: nat): Feed<T>
    requires i <= |f.items|
  {
    if i == |f.items| then f.(endRefs := refs) else f.(items := f.items[i := f.items[i].(refs := refs)])
  }

  function RefsOf<T>(f: Feed<T>, i: nat): nat
    requires i <= |f.items|
  {
    if i == |f.items| then f.endRefs else f.items[i].refs
  }

  function ApplyIncrement<T>(f: Feed<T>): Feed<T>
    requires f.incrementAges != [] && f.incrementsAt != [] && f.base <= f.incrementsAt[|f.incrementsAt| - 1] <= End(f)
  {
    var i := f.incrementsAt[|f.incrementsAt| - 1] - f.base;
    SetRefs(f, i, RefsOf(f, i) + 1).(incrementAges := f.incrementAges[..|f.incrementAges| - 1],
                                     incrementsAt := f.incrementsAt[..|f.incrementsAt| - 1])
  }

  lemma PendingAreKept<T>(f: Feed<T>)
    requires Placed(f)
    ensures |f.incrementsAt| == |f.incrementAges| && |f.decrementsAt| == |f.decrementAges|
    ensures f.incrementsAt != [] ==>
      var p := f.incrementsAt[|f.incrementsAt| - 1];
      f.base <= p <= End(f) && Keeps(f, p, f.incrementAges[|f.incrementAges| - 1])
    ensures f.decrementsAt != [] ==>
      var p := f.decrementsAt[|f.decrementsAt| - 1];
      f.base <= p <= End(f) && Keeps(f, p, f.decrementAges[|f.decrementAges| - 1])
  {
  }

  lemma ApplyIncrementKeeps<T>(f: Feed<T>)
    requires Ok(f) && f.incrementAges != []
    ensures |f.incrementsAt| == |f.incrementAges|
    ensures Keeps(f, f.incrementsAt[|f.incrementsAt| - 1], f.incrementAges[|f.incrementAges| - 1])
    ensures Ok(ApplyIncrement(f))
  {
    hide Kept, Placed, Guarded, Accounted, SetRefs, RefsOf, Keeps;
    PendingAreKept(f);
    var i := f.incrementsAt[|f.incrementsAt| - 1] - f.base;
    SetRefsKeeps(f, i, RefsOf(f, i) + 1);
    ApplyIncrementPlaced(f);
    ApplyIncrementBalance(f);
    SameGuards(SetRefs(f, i, RefsOf(f, i) + 1), ApplyIncrement(f));
  }

  /** Counts are not part of the history, and no cursor depends on them. */
  lemma SetRefsKeeps<T>(f: Feed<T>, i: nat, refs: nat)
    requires Kept(f) && Guarded(f) && i <= |f.items|
    ensures Kept(SetRefs(f, i, refs)) && Guarded(SetRefs(f, i, refs))
  {
    assert forall p, age :: Keeps(f, p, age) == Keeps(SetRefs(f, i, refs), p, age);
  }

  lemma SameGuards<T>(f: Feed<T>, f': Feed<T>)
    requires Kept(f) && Guarded(f) && f' == f.(incrementAges := f'.incrementAges, incrementsAt := f'.incrementsAt,
                                               decrementAges := f'.decrementAges, decrementsAt := f'.decrementsAt)
    ensures Kept(f') && Guarded(f')
  {
    assert forall p, age :: Keeps(f, p, age) == Keeps(f', p, age);
  }

  lemma ApplyIncrementPlaced<T>(f: Feed<T>)
    requires Placed(f) && f.incrementAges != [] && f.base <= f.incrementsAt[|f.incrementsAt| - 1] <= End(f)
    ensures Placed(ApplyIncrement(f))
  {
    var f' := ApplyIncrement(f);
    assert forall p, age :: Keeps(f, p, age) == Keeps(f', p, age);
  }

  lemma ApplyIncrementBalance<T>(f: Feed<T>)
    requires Accounted(f) && f.incrementAges != [] && f.incrementsAt != []
    requires f.base <= f.incrementsAt[|f.incrementsAt| - 1] <= End(f)
    ensures Accounted(ApplyIncrement(f))
  {
    var f' := ApplyIncrement(f);
    forall p | f'.base <= p <= End(f') ensures Balanced(f', p) {
      assert Balanced(f, p);
    }
  }

  function ApplyDecrement<T>(f: Feed<T>): Feed<T>
    requires f.decrementAges != [] && f.decrementsAt != [] && f.base <= f.decrementsAt[|f.decrementsAt| - 1] <= End(f)
    requires RefsOf(f, f.decrementsAt[|f.decrementsAt| - 1] - f.base) > 0
  {
    var i := f.decrementsAt[|f.decrementsAt| - 1] - f.base;
    SetRefs(f, i, RefsOf(f, i) - 1).(decrementAges := f.decrementAges[..|f.decrementAges| - 1],
                                     decrementsAt := f.decrementsAt[..|f.decrementsAt| - 1])
  }

  /** Increments were applied first, so no decrement ever finds a zero count. */
  lemma ApplyDecrementKeeps<T>(f: Feed<T>)
    requires Ok(f) && f.decrementAges != [] && f.incrementAges == [] && f.increments == 0
    ensures |f.decrementsAt| == |f.decrementAges|
    ensures Keeps(f, f.decrementsAt[|f.decrementsAt| - 1], f.decrementAges[|f.decrementAges| - 1])
    ensures RefsOf(f, f.decrementsAt[|f.decrementsAt| - 1] - f.base) > 0
    ensures Ok(ApplyDecrement(f))
  {
    hide Kept, Placed, Guarded, Accounted, SetRefs, RefsOf, Keeps;
    PendingAreKept(f);
    DecrementFinds(f);
    var i := f.decrementsAt[|f.decrementsAt| - 1] - f.base;
    SetRefsKeeps(f, i, RefsOf(f, i) - 1);
    ApplyDecrementPlaced(f);
    ApplyDecrementBalance(f);
    SameGuards(SetRefs(f, i, RefsOf(f, i) - 1), ApplyDecrement(f));
  }

  lemma DecrementFinds<T>(f: Feed<T>)
    requires Accounted(f) && f.decrementsAt != [] && f.incrementsAt == [] && f.increments == 0
    requires f.base <= f.decrementsAt[|f.decrementsAt| - 1] <= End(f)
    ensures RefsOf(f, f.decrementsAt[|f.decrementsAt| - 1] - f.base) > 0
  {
    assert Balanced(f, f.decrementsAt[|f.decrementsAt| - 1]);
  }

  lemma ApplyDecrementPlaced<T>(f: Feed<T>)
    requires Placed(f) && f.decrementAges != [] && f.base <= f.decrementsAt[|f.decrementsAt| - 1] <= End(f)
    requires RefsOf(f, f.decrementsAt[|f.decrementsAt| - 1] - f.base) > 0
    ensures Placed(ApplyDecrement(f))
  {
    var f' := ApplyDecrement(f);
    assert forall p, age :: Keeps(f, p, age) == Keeps(f', p, age);
  }

  lemma ApplyDecrementBalance<T>(f: Feed<T>)
    requires Accounted(f) && f.decrementAges != [] && f.decrementsAt != []
    requires f.base <= f.decrementsAt[|f.decrementsAt| - 1] <= End(f)
    requires RefsOf(f, f.decrementsAt[|f.decrementsAt| - 1] - f.base) > 0
    ensures Accounted(ApplyDecrement(f))
  {
    var f' := ApplyDecrement(f);
    forall p | f'.base <= p <= End(f') ensures Balanced(f', p) {
      assert Balanced(f, p);
    }
  }

  /** From `f` to `f'` exactly one pending decrement was carried out: the count at its position is one lower. */
  ghost predicate Lowers<T>(f: Feed<T>, f': Feed<T>) {
    && f.decrementAges != [] && f.decrementsAt != [] && f.base <= f.decrementsAt[|f.decrementsAt| - 1] <= End(f)
    && RefsOf(f, f.decrementsAt[|f.decrementsAt| - 1] - f.base) > 0
    && f' == ApplyDecrement(f)
  }

  // ----- dropping what nobody needs -----

  predicate Applied<T>(f: Feed<T>) {
    f.increments == 0 && f.incrementAges == [] && f.decrementAges == []
  }

  function PopFront<T>(f: Feed<T>): Feed<T>
    requires f.items != []
  {
    f.(items := f.items[1..], ageBase := WrapAdd(f.ageBase, 1), base := f.base + 1)
  }

  lemma PopFrontKeeps<T>(f: Feed<T>)
    requires Ok(f) && Applied(f) && Free(f) && f.items != [] && f.items[0].refs == 0
    ensures Ok(PopFront(f))
  {
    var f' := PopFront(f);
    AgeAdds(f.base, 1);
    assert Balanced(f, f.base);
    LiveIs(f.at, f.base);
    forall r | 0 <= r < |f.at| && f.at[r].Some? ensures Keeps(f', f.at[r].value, f.readers[r].age) {
      assert Keeps(f, f.at[r].value, f.readers[r].age);
      assert f.at[r] in f.at;
    }
    NoneOutstanding(f.guards);
    forall p | f'.base <= p <= End(f') ensures Balanced(f', p) {
      assert Balanced(f, p);
    }
  }

  /** History begins exactly at the oldest cursor of a live reader; without readers nothing is kept. */
  predicate Tight<T>(f: Feed<T>) {
    && Applied(f)
    && (f.items != [] ==>
          Some(f.base) in f.at && forall r :: 0 <= r < |f.at| && f.at[r].Some? ==> f.base <= f.at[r].value)
  }

  lemma CleanedIsTight<T>(f: Feed<T>)
    requires Ok(f) && Applied(f) && (f.items != [] ==> f.items[0].refs != 0)
    ensures Tight(f)
  {
    if f.items != [] {
      assert Balanced(f, f.base);
      LiveIs(f.at, f.base);
      forall r | 0 <= r < |f.at| && f.at[r].Some? ensures f.base <= f.at[r].value {
        assert Keeps(f, f.at[r].value, f.readers[r].age);
      }
    }
  }

  /** What a compaction may do: forget a prefix of the kept changes, and if it could run, all of the useless ones. */
  ghost predicate Compacted<T>(f: Feed<T>, f': Feed<T>, released: seq<T>) {
    && f'.log == f.log && f'.readers == f.readers && f'.at == f.at
    && f'.guards == f.guards && f'.guardAt == f.guardAt && f'.shared == f.shared && f'.writing == f.writing
    && f.base <= f'.base <= |f.log| && released == f.log[f.base..f'.base] && |f'.items| <= |f.items|
    && (if Free(f) then Tight(f') else f' == f)
  }

  // ----- readers -----

  function AddReader<T>(f: Feed<T>): Feed<T> {
    f.(readers := f.readers + [Unread], at := f.at + [None])
  }

  lemma AddReaderKeeps<T>(f: Feed<T>)
    requires Ok(f)
    ensures Ok(AddReader(f))
  {
    var f' := AddReader(f);
    forall p | f'.base <= p <= End(f') ensures Balanced(f', p) {
      LiveAppend(f.at, None, p);
      assert Balanced(f, p);
    }
    assert forall p, age :: Keeps(f, p, age) == Keeps(f', p, age);
  }

  /** `retain_cursor` for a clone. */
  function CopyReader<T>(f: Feed<T>, r: nat): Feed<T>
    requires r < |f.readers| == |f.at|
  {
    var f1 := f.(readers := f.readers + [f.readers[r]], at := f.at + [f.at[r]]);
    if f.readers[r].At? && f.at[r].Some?
    then f1.(incrementAges := f.incrementAges + [f.readers[r].age], incrementsAt := f.incrementsAt + [f.at[r].value])
    else f1
  }

  lemma CopyReaderKeeps<T>(f: Feed<T>, r: nat)
    requires Ok(f) && r < |f.readers|
    ensures Ok(CopyReader(f, r))
  {
    var f' := CopyReader(f, r);
    assert forall p, age :: Keeps(f, p, age) == Keeps(f', p, age);
    CopyReaderBalance(f, r);
  }

  lemma CopyReaderBalance<T>(f: Feed<T>, r: nat)
    requires Accounted(f) && |f.at| == |f.readers| && r < |f.at| && f.at[r].Some? == f.readers[r].At?
    ensures Accounted(CopyReader(f, r))
  {
    var f' := CopyReader(f, r);
    forall p | f'.base <= p <= End(f') ensures Balanced(f', p) {
      LiveAppend(f.at, f.at[r], p);
      if f.at[r].Some? {
        TimesAppend(f.incrementsAt, f.at[r].value, p);
      }
      assert Balanced(f, p);
    }
  }

  /** The pending decrement for a cursor that a reader gives up. */
  function Release<T>(f: Feed<T>, r: nat): Feed<T>
    requires r < |f.readers| == |f.at|
  {
    if f.readers[r].At? && f.at[r].Some?
    then f.(decrementAges := f.decrementAges + [f.readers[r].age], decrementsAt := f.decrementsAt + [f.at[r].value])
    else f
  }

  function DropReader<T>(f: Feed<T>, r: nat): Feed<T>
    requires r < |f.readers| == |f.at|
  {
    Release(f, r).(readers := f.readers[r := Dropped], at := f.at[r := None])
  }

  lemma DropReaderKeeps<T>(f: Feed<T>, r: nat)
    requires Ok(f) && r < |f.readers|
    ensures Ok(DropReader(f, r))
  {
    hide Keeps, Accounted, Kept, Guarded;
    var f' := DropReader(f, r);
    ReleaseSame(f, r);
    SameHistory(Release(f, r), f');
    ReleasePlaced(f, r);
    DropReaderPlaced(f, r);
    DropReaderBalance(f, r);
  }

  /** The kept changes and the borrows, if a step leaves them alone. */
  lemma SameHistory<T>(f: Feed<T>, f': Feed<T>)
    requires Kept(f) && Guarded(f)
    requires f'.ageBase == f.ageBase && f'.base == f.base && f'.items == f.items && f'.log == f.log
    requires f'.guards == f.guards && f'.guardAt == f.guardAt && f'.shared == f.shared && f'.writing == f.writing
    requires f.writing ==> f'.increments == f.increments
    ensures Kept(f') && Guarded(f')
  {
    assert forall p, age :: Keeps(f, p, age) == Keeps(f', p, age);
  }

  lemma ReleaseSame<T>(f: Feed<T>, r: nat)
    requires Kept(f) && Guarded(f) && r < |f.readers| == |f.at|
    ensures Kept(Release(f, r)) && Guarded(Release(f, r))
  {
    hide Kept, Guarded;
    SameHistory(f, Release(f, r));
  }

  lemma ReleasePlaced<T>(f: Feed<T>, r: nat)
    requires Placed(f) && r < |f.readers|
    ensures Placed(Release(f, r))
  {
    var f' := Release(f, r);
    assert forall p, age :: Keeps(f, p, age) == Keeps(f', p, age);
  }

  lemma DropReaderPlaced<T>(f: Feed<T>, r: nat)
    requires r < |f.readers| == |f.at| && Placed(Release(f, r))
    ensures Placed(DropReader(f, r))
  {
    var f1, f' := Release(f, r), DropReader(f, r);
    assert forall p, age :: Keeps(f1, p, age) == Keeps(f', p, age);
  }

  lemma DropReaderBalance<T>(f: Feed<T>, r: nat)
    requires Accounted(f) && r < |f.readers| == |f.at| && f.at[r].Some? == f.readers[r].At?
    ensures Accounted(DropReader(f, r))
  {
    var f' := DropReader(f, r);
    forall p | f'.base <= p <= End(f') ensures Balanced(f', p) {
      LiveUpdate(f.at, r, None, p);
      ReleaseTimes(f, r, p);
      assert Balanced(f, p);
    }
  }

  lemma ReleaseTimes<T>(f: Feed<T>, r: nat, p: nat)
    requires r < |f.readers| == |f.at| && f.at[r].Some? == f.readers[r].At?
    ensures Times(Release(f, r).decrementsAt, p) == Times(f.decrementsAt, p) + if f.at[r] == Some(p) then 1 else 0
  {
    if f.at[r].Some? {
      TimesAppend(f.decrementsAt, f.at[r].value, p);
    }
  }

  /** `advance_cursor`: the reader moves to the end. */
  function Advance<T>(f: Feed<T>, r: nat): Feed<T>
    requires r < |f.readers| == |f.at|
  {
    Release(f, r).(increments := f.increments + 1,
                   readers := f.readers[r := At(WrapAdd(f.ageBase, |f.items|))], at := f.at[r := Some(End(f))])
  }

  lemma AdvanceKeeps<T>(f: Feed<T>, r: nat)
    requires Ok(f) && r < |f.readers| && !f.writing
    ensures Ok(Advance(f, r))
  {
    ReleaseSame(f, r);
    ReleasePlaced(f, r);
    hide Keeps, Accounted, Guarded;
    AgeAdds(f.base, |f.items|);
    SameHistory(Release(f, r), Advance(f, r));
    AdvancePlaced(f, r);
    AdvanceBalance(f, r);
  }

  lemma AdvancePlaced<T>(f: Feed<T>, r: nat)
    requires r < |f.readers| == |f.at| && Placed(Release(f, r))
    requires WrapAdd(f.ageBase, |f.items|) == AgeOf(f.base + |f.items|)
    ensures Placed(Advance(f, r))
  {
    var f1, f' := Release(f, r), Advance(f, r);
    assert forall p, age :: Keeps(f1, p, age) == Keeps(f', p, age);
    assert Keeps(f', End(f), WrapAdd(f.ageBase, |f.items|));
  }

  lemma AdvanceBalance<T>(f: Feed<T>, r: nat)
    requires Accounted(f) && r < |f.readers| == |f.at| && f.at[r].Some? == f.readers[r].At?
    ensures Accounted(Advance(f, r))
  {
    var f' := Advance(f, r);
    forall p | f'.base <= p <= End(f') ensures Balanced(f', p) {
      LiveUpdate(f.at, r, Some(End(f)), p);
      ReleaseTimes(f, r, p);
      assert Balanced(f, p);
    }
  }

  // ----- borrows -----

  function OpenGuard<T>(f: Feed<T>, since: Option<nat>, at: Option<nat>): Feed<T> {
    f.(guards := f.guards + [Open(since)], guardAt := f.guardAt + [at], shared := f.shared + 1)
  }

  lemma OpenGuardKeeps<T>(f: Feed<T>, since: Option<nat>, at: Option<nat>)
    requires Ok(f) && !f.writing
    requires since.Some? == at.Some? && (at.Some? ==> Keeps(f, at.value, since.value))
    ensures Ok(OpenGuard(f, since, at))
  {
    var f' := OpenGuard(f, since, at);
    OutstandingAppend(f.guards, Open(since));
    assert forall p, age :: Keeps(f, p, age) == Keeps(f', p, age);
    forall p | f'.base <= p <= End(f') ensures Balanced(f', p) {
      assert Balanced(f, p);
    }
  }

  function CloseGuard<T>(f: Feed<T>, g: nat): Feed<T>
    requires g < |f.guards|
  {
    f.(guards := f.guards[g := Closed], shared := if f.shared > 0 then f.shared - 1 else 0)
  }

  lemma CloseGuardKeeps<T>(f: Feed<T>, g: nat)
    requires Ok(f) && g < |f.guards| && f.guards[g].Open?
    ensures f.shared > 0 && Ok(CloseGuard(f, g))
  {
    OutstandingUpdate(f.guards, g, Closed);
    var f' := CloseGuard(f, g);
    assert forall p, age :: Keeps(f, p, age) == Keeps(f', p, age);
    forall p | f'.base <= p <= End(f') ensures Balanced(f', p) {
      assert Balanced(f, p);
    }
  }

  // ----- edits -----

  lemma WritingKeeps<T>(f: Feed<T>, writing: bool)
    requires Ok(f) && f.shared == 0 && (writing ==> f.increments == 0)
    ensures Ok(f.(writing := writing))
  {
    var f' := f.(writing := writing);
    assert forall p, age :: Keeps(f, p, age) == Keeps(f', p, age);
    forall p | f'.base <= p <= End(f') ensures Balanced(f', p) {
      assert Balanced(f, p);
    }
  }

  /** `Changes::push`: the readers at the end now stand before the new change. */
  function Push<T>(f: Feed<T>, data: T): Feed<T> {
    f.(items := f.items + [Change(data, f.endRefs)], endRefs := 0, log := f.log + [data])
  }

  lemma PushKeeps<T>(f: Feed<T>, data: T)
    requires Ok(f) && f.writing && |f.items| + 1 < WORD
    ensures Ok(Push(f, data))
  {
    var f' := Push(f, data);
    NoneOutstanding(f.guards);
    assert forall p, age :: Keeps(f, p, age) ==> Keeps(f', p, age);
    forall p | f'.base <= p <= End(f') ensures Balanced(f', p) {
      if p <= End(f) {
        assert Balanced(f, p);
      } else {
        LiveIs(f.at, p);
        NotPending(f, p);
      }
    }
  }

  lemma NotPending<T>(f: Feed<T>, p: nat)
    requires Placed(f) && p > End(f)
    ensures Times(f.incrementsAt, p) == 0 && Times(f.decrementsAt, p) == 0 && Some(p) !in f.at
  {
    TimesNone(f.incrementsAt, p);
    TimesNone(f.decrementsAt, p);
  }

  // ----- what reading does -----

  /** A compaction, then a new borrow that shows the changes from `since` on. */
  ghost predicate Borrowed<T>(f: Feed<T>, f': Feed<T>, since: Option<nat>, released: seq<T>) {
    && f'.log == f.log && f'.readers == f.readers && f'.at == f.at && f'.writing == f.writing
    && |f'.guards| == |f.guards| + 1 && |f'.guardAt| == |f.guardAt| + 1
    && f'.guards[..|f.guards|] == f.guards && f'.guardAt[..|f.guardAt|] == f.guardAt
    && f'.guards[|f.guards|].Open? && f'.guardAt[|f.guardAt|] == since
    && f'.shared == f.shared + 1 && |f'.items| <= |f.items|
    && f.base <= f'.base <= |f.log| && released == f.log[f.base..f'.base]
  }

  ghost predicate Peeked<T>(f: Feed<T>, f': Feed<T>, r: nat, released: seq<T>) {
    r < |f.at| && Borrowed(f, f', f.at[r], released)
  }

  ghost predicate ReadOff<T>(f: Feed<T>, f': Feed<T>, r: nat, released: seq<T>) {
    && r < |f.at| == |f.readers| == |f'.readers|
    && f'.at == f.at[r := Some(|f.log|)] && f'.readers[r].At? && f'.readers == f.readers[r := f'.readers[r]]
    && Borrowed(f, f'.(at := f.at, readers := f.readers), f.at[r], released)
  }

  /** The end of the history can always be borrowed. */
  lemma OpensAtEnd<T>(f: Feed<T>, f1: Feed<T>, released: seq<T>)
    requires Kept(f1) && Compacted(f, f1, released) && |f.guards| == |f.guardAt|
    ensures f1.writing == f.writing && f1.guards == f.guards && f1.log == f.log && f1.base + |f1.items| == |f1.log|
    ensures Keeps(f1, |f.log|, WrapAdd(f1.ageBase, |f1.items|))
    ensures Borrowed(f, OpenGuard(f1, Some(WrapAdd(f1.ageBase, |f1.items|)), Some(|f.log|)), Some(|f.log|), released)
  {
    AgeAdds(f1.base, |f1.items|);
  }

  lemma ReadIs<T>(f: Feed<T>, f1: Feed<T>, r: nat, released: seq<T>)
    requires Ok(f) && Ok(f1) && !f1.writing && r < |f1.readers| && Peeked(f, f1, r, released)
    ensures Ok(Advance(f1, r)) && ReadOff(f, Advance(f1, r), r, released)
  {
    AdvanceKeeps(f1, r);
    assert Advance(f1, r).(at := f.at, readers := f.readers) == Release(f1, r).(increments := f1.increments + 1);
  }
}
