// The changes of a signal vector and what replaying them means (`VecChange`, `ChangeData` and
// `VecModel` in src/collections/vec.rs). Items are kept as keys into a slab of values; a change in
// the history names keys, and a reader gets it with the keys resolved to values.
module VecHistory {
  import opened Options
  import opened Permutations

  datatype VecChange<T> =
    | Insert(index: nat, newValue: T)
    | Remove(index: nat, oldValue: T)
    | Set(index: nat, oldValue: T, newValue: T)
    | Move(oldIndex: nat, newIndex: nat)
    | Swap(index0: nat, index1: nat)
    | Sort(newToOld: seq<nat>)

  /** `c` can be applied to `s`, and names the items it takes away. */
  ghost predicate Fits<T>(s: seq<T>, c: VecChange<T>) {
    match c
    case Insert(i, _) => i <= |s|
    case Remove(i, v) => i < |s| && s[i] == v
    case Set(i, v, _) => i < |s| && s[i] == v
    case Move(from, to) => from < |s| && to < |s|
    case Swap(i, j) => i < |s| && j < |s|
    case Sort(p) => |p| == |s| && Permutes(p)
  }

  function Inserted<T>(s: seq<T>, i: nat, v: T): (r: seq<T>)
    requires i <= |s|
    ensures |r| == |s| + 1
    ensures forall j :: 0 <= j < |r| ==> r[j] == if j < i then s[j] else if j == i then v else s[j - 1]
  {
    s[..i] + [v] + s[i..]
  }

  /** The item at `from` ends up at `to`, and those in between close up or make room. */
  function Moved<T>(s: seq<T>, from: nat, to: nat): (r: seq<T>)
    requires from < |s| && to < |s|
    ensures |r| == |s|
    ensures forall k :: 0 <= k < |r| ==>
      r[k] == if k == to then s[from]
              else if from <= k < to then s[k + 1] else if to < k <= from then s[k - 1] else s[k]
  {
    Inserted(Without(s, from), to, s[from])
  }

  function Swapped<T>(s: seq<T>, i: nat, j: nat): (r: seq<T>)
    requires i < |s| && j < |s|
    ensures |r| == |s| && r[i] == s[j] && r[j] == s[i]
    ensures forall k :: 0 <= k < |r| && k != i && k != j ==> r[k] == s[k]
  {
    s[i := s[j]][j := s[i]]
  }

  /** The last item takes the place of item `i`. */
  function SwapRemoved<T>(s: seq<T>, i: nat): (r: seq<T>)
    requires i < |s|
    ensures |r| == |s| - 1
    ensures forall k :: 0 <= k < |r| ==> r[k] == if k == i then s[|s| - 1] else s[k]
  {
    Without(s[i := s[|s| - 1]], |s| - 1)
  }

  /** What a change does to a vector. */
  function Edit<T>(s: seq<T>, c: VecChange<T>): seq<T>
    requires Fits(s, c)
  {
    match c
    case Insert(i, v) => Inserted(s, i, v)
    case Remove(i, _) => Without(s, i)
    case Set(i, _, v) => s[i := v]
    case Move(from, to) => Moved(s, from, to)
    case Swap(i, j) => Swapped(s, i, j)
    case Sort(p) => Permuted(s, p)
  }

  /** Applying `cs` one after the other to `s` works and ends with `t`. */
  ghost predicate Replays<T>(s: seq<T>, cs: seq<VecChange<T>>, t: seq<T>)
    decreases |cs|
  {
    if cs == [] then s == t else Fits(s, cs[0]) && Replays(Edit(s, cs[0]), cs[1..], t)
  }

  /** A reader that has not read yet is told to insert every item. */
  function InitialChanges<T>(s: seq<T>): seq<VecChange<T>> {
    seq(|s|, i requires 0 <= i < |s| => Insert(i, s[i]))
  }

  lemma InitialReplays<T>(s: seq<T>)
    ensures Replays([], InitialChanges(s), s)
  {
    InitialFrom(s, 0);
    assert s[..0] == [] && InitialChanges(s)[0..] == InitialChanges(s);
  }

  lemma {:induction false} InitialFrom<T>(s: seq<T>, i: nat)
    requires i <= |s|
    ensures Replays(s[..i], InitialChanges(s)[i..], s)
    decreases |s| - i
  {
    if i < |s| {
      InitialFrom(s, i + 1);
      assert InitialChanges(s)[i..][1..] == InitialChanges(s)[i + 1..];
      assert Inserted(s[..i], i, s[i]) == s[..i + 1];
    } else {
      assert s[..i] == s;
    }
  }

  // ----- what goes and what comes -----

  function Out<T>(c: VecChange<T>): multiset<T> {
    match c
    case Remove(_, v) => multiset{v}
    case Set(_, v, _) => multiset{v}
    case _ => multiset{}
  }

  function In<T>(c: VecChange<T>): multiset<T> {
    match c
    case Insert(_, v) => multiset{v}
    case Set(_, _, v) => multiset{v}
    case _ => multiset{}
  }

  lemma EditBalance<T>(s: seq<T>, c: VecChange<T>)
    requires Fits(s, c)
    ensures multiset(Edit(s, c)) + Out(c) == multiset(s) + In(c)
  {
    match c
    case Insert(i, v) => InsertedHas(s, i, v);
    case Remove(i, _) => WithoutOne(s, i);
    case Set(i, _, v) => SetHas(s, i, v);
    case Move(from, to) => MovedHas(s, from, to);
    case Swap(i, j) => SwappedHas(s, i, j);
    case Sort(p) => PermutedKeepsAll(s, p);
  }

  lemma SetHas<T>(s: seq<T>, i: nat, v: T)
    requires i < |s|
    ensures multiset(s[i := v]) + multiset{s[i]} == multiset(s) + multiset{v}
  {
    WithoutOne(s, i);
    WithoutOne(s[i := v], i);
    assert Without(s[i := v], i) == Without(s, i);
  }

  lemma SwappedHas<T>(s: seq<T>, i: nat, j: nat)
    requires i < |s| && j < |s|
    ensures multiset(Swapped(s, i, j)) == multiset(s)
  {
    SetHas(s, i, s[j]);
    SetHas(s[i := s[j]], j, s[i]);
  }

  lemma MovedHas<T>(s: seq<T>, from: nat, to: nat)
    requires from < |s| && to < |s|
    ensures multiset(Moved(s, from, to)) == multiset(s)
  {
    WithoutOne(s, from);
    InsertedHas(Without(s, from), to, s[from]);
  }

  lemma InsertedHas<T>(s: seq<T>, i: nat, v: T)
    requires i <= |s|
    ensures multiset(Inserted(s, i, v)) == multiset(s) + multiset{v}
  {
    WithoutOne(Inserted(s, i, v), i);
    assert Without(Inserted(s, i, v), i) == s;
  }

  // ----- keys and values -----

  /** The items that the keys stand for. */
  function Items<V>(s: seq<nat>, values: map<nat, V>): seq<V>
    requires AllKnown(s, values)
  {
    seq(|s|, i requires 0 <= i < |s| => values[s[i]])
  }

  predicate Known<V>(c: VecChange<nat>, values: map<nat, V>) {
    match c
    case Insert(_, k) => k in values
    case Remove(_, k) => k in values
    case Set(_, k, k') => k in values && k' in values
    case _ => true
  }

  /** `to_signal_vec_change`. */
  function Resolve<V>(c: VecChange<nat>, values: map<nat, V>): VecChange<V>
    requires Known(c, values)
  {
    match c
    case Insert(i, k) => Insert(i, values[k])
    case Remove(i, k) => Remove(i, values[k])
    case Set(i, k, k') => Set(i, values[k], values[k'])
    case Move(i, j) => Move(i, j)
    case Swap(i, j) => Swap(i, j)
    case Sort(p) => Sort(p)
  }

  predicate AllKnown<V>(s: seq<nat>, values: map<nat, V>) {
    forall i :: 0 <= i < |s| ==> s[i] in values
  }

  lemma InsertedResolves<V>(s: seq<nat>, i: nat, k: nat, values: map<nat, V>)
    requires i <= |s| && AllKnown(s, values) && k in values
    ensures AllKnown(Inserted(s, i, k), values)
    ensures Items(Inserted(s, i, k), values) == Inserted(Items(s, values), i, values[k])
  {
  }

  lemma WithoutResolves<V>(s: seq<nat>, i: nat, values: map<nat, V>)
    requires i < |s| && AllKnown(s, values)
    ensures AllKnown(Without(s, i), values)
    ensures Items(Without(s, i), values) == Without(Items(s, values), i)
  {
  }

  lemma PermutedResolves<V>(s: seq<nat>, p: seq<nat>, values: map<nat, V>)
    requires |p| == |s| && Permutes(p) && AllKnown(s, values)
    ensures AllKnown(Permuted(s, p), values)
    ensures Items(Permuted(s, p), values) == Permuted(Items(s, values), p)
  {
  }

  /** Resolving keys and editing commute. */
  lemma EditResolves<V>(s: seq<nat>, c: VecChange<nat>, values: map<nat, V>)
    requires Fits(s, c) && Known(c, values) && AllKnown(s, values)
    ensures AllKnown(Edit(s, c), values)
    ensures Fits(Items(s, values), Resolve(c, values))
    ensures Items(Edit(s, c), values) == Edit(Items(s, values), Resolve(c, values))
  {
    match c
    case Insert(i, k) => InsertedResolves(s, i, k, values);
    case Remove(i, k) => WithoutResolves(s, i, values);
    case Set(i, k, k') =>
    case Move(from, to) =>
      WithoutResolves(s, from, values);
      InsertedResolves(Without(s, from), to, s[from], values);
    case Swap(i, j) =>
    case Sort(p) => PermutedResolves(s, p, values);
  }

  // ----- the history of a vector -----

  /**
   * The slab of values and all changes ever recorded, of which those from `base` on are kept; `past` and
   * `contents` are the keys and the items at every position of the log.
   */
  datatype Hist<V> = Hist(
    values: map<nat, V>,
    log: seq<VecChange<nat>>,
    base: nat,
    past: seq<seq<nat>>,
    contents: seq<seq<V>>)

  ghost predicate Sized<V>(h: Hist<V>) {
    h.base <= |h.log| && |h.past| == |h.log| + 1 && |h.contents| == |h.log| + 1
  }

  ghost predicate Steps<V>(h: Hist<V>)
    requires Sized(h)
  {
    forall p :: h.base <= p < |h.log| ==> Fits(h.past[p], h.log[p]) && h.past[p + 1] == Edit(h.past[p], h.log[p])
  }

  /** No key is at two indices. */
  ghost predicate Single<V>(h: Hist<V>)
    requires Sized(h)
  {
    forall p, k :: h.base <= p <= |h.log| ==> multiset(h.past[p])[k] <= 1
  }

  predicate Shows<V(==)>(values: map<nat, V>, keys: seq<nat>, items: seq<V>) {
    |keys| == |items| && forall i :: 0 <= i < |keys| ==> keys[i] in values && values[keys[i]] == items[i]
  }

  /** The slab still holds everything that any kept position shows, with the values of then. */
  ghost predicate Held<V>(h: Hist<V>)
    requires Sized(h)
  {
    forall p :: h.base <= p <= |h.log| ==> Shows(h.values, h.past[p], h.contents[p])
  }

  /** A key that a kept change took away does not come back later. */
  ghost predicate Gone<V>(h: Hist<V>)
    requires Sized(h)
  {
    forall q, p, k :: h.base <= q < p <= |h.log| && k in Out(h.log[q]) ==> k !in h.past[p]
  }

  /** The slab holds nothing else: every key is a current one or was taken away by a kept change. */
  ghost predicate Used<V>(h: Hist<V>, k: nat)
    requires Sized(h)
  {
    k in h.past[|h.log|] || exists q :: h.base <= q < |h.log| && k in Out(h.log[q])
  }

  ghost predicate NoLeak<V>(h: Hist<V>)
    requires Sized(h)
  {
    forall k :: k in h.values ==> Used(h, k)
  }

  ghost predicate Sound<V>(h: Hist<V>) {
    Sized(h) && Steps(h) && Single(h) && Held(h) && Gone(h) && NoLeak(h)
  }

  function Last<T>(s: seq<T>): T
    requires s != []
  {
    s[|s| - 1]
  }

  // ----- recording a change -----

  /** A change to the current keys; only keys outside the slab are brought in. */
  ghost predicate Recordable<V>(h: Hist<V>, c: VecChange<nat>, values: map<nat, V>)
    requires Sized(h)
  {
    && Fits(Last(h.past), c)
    && (forall k :: k in In(c) ==> k !in h.values)
    && (forall k :: k in values <==> k in h.values || k in In(c))
    && (forall k :: k in h.values ==> values[k] == h.values[k])
  }

  function Recorded<V>(h: Hist<V>, c: VecChange<nat>, values: map<nat, V>, keys: seq<nat>, items: seq<V>): Hist<V> {
    Hist(values, h.log + [c], h.base, h.past + [keys], h.contents + [items])
  }

  lemma ChangeIsKnown<V>(h: Hist<V>, c: VecChange<nat>, values: map<nat, V>)
    requires Sound(h) && Recordable(h, c, values)
    ensures Known(c, values)
    ensures Shows(values, Last(h.past), Last(h.contents))
    ensures AllKnown(Last(h.past), values) && Items(Last(h.past), values) == Last(h.contents)
  {
    assert Shows(h.values, h.past[|h.log|], h.contents[|h.log|]);
    match c {
      case Insert(_, k) => assert k in In(c);
      case Set(_, _, k) => assert k in In(c);
      case _ =>
    }
  }

  /** The new state is sound, and its items are the old ones after the change as a reader will see it. */
  lemma RecordedIsSound<V>(h: Hist<V>, c: VecChange<nat>, values: map<nat, V>)
    requires Sound(h) && Recordable(h, c, values)
    ensures Known(c, values) && Fits(Last(h.contents), Resolve(c, values))
    ensures Sound(Recorded(h, c, values, Edit(Last(h.past), c), Edit(Last(h.contents), Resolve(c, values))))
  {
    ChangeIsKnown(h, c, values);
    EditResolves(Last(h.past), c, values);
    var keys := Edit(Last(h.past), c);
    var items := Edit(Last(h.contents), Resolve(c, values));
    var h' := Recorded(h, c, values, keys, items);
    LastMembers(h, c, keys);
    RecordedSteps(h, c, values, keys, items);
    hide Edit, Resolve, Fits;
    RecordedSingle(h, c, values, keys, items);
    RecordedHeld(h, c, values, keys, items);
    RecordedGone(h, c, values, keys, items);
    RecordedNoLeak(h, c, values, keys, items);
  }

  lemma RecordedSteps<V>(h: Hist<V>, c: VecChange<nat>, values: map<nat, V>, keys: seq<nat>, items: seq<V>)
    requires Sized(h) && Steps(h) && Fits(Last(h.past), c) && keys == Edit(Last(h.past), c)
    ensures Sized(Recorded(h, c, values, keys, items)) && Steps(Recorded(h, c, values, keys, items))
  {
    hide Edit, Fits;
    var h' := Recorded(h, c, values, keys, items);
    forall p | h'.base <= p < |h'.log|
      ensures Fits(h'.past[p], h'.log[p]) && h'.past[p + 1] == Edit(h'.past[p], h'.log[p])
    {
      if p < |h.log| {
        assert Fits(h.past[p], h.log[p]);
      }
    }
  }

  /** `c` leads from `s` to `t`, as far as membership goes. */
  ghost predicate Members(s: seq<nat>, c: VecChange<nat>, t: seq<nat>) {
    forall k :: multiset(t)[k] <= 1 && (k in t <==> (k in s && k !in Out(c)) || k in In(c)) && (k in Out(c) ==> k in s)
  }

  lemma LastMembers<V>(h: Hist<V>, c: VecChange<nat>, keys: seq<nat>)
    requires Sized(h) && Single(h) && Held(h) && Fits(Last(h.past), c) && keys == Edit(Last(h.past), c)
    requires forall k :: k in In(c) ==> k !in h.values
    ensures Members(Last(h.past), c, keys)
  {
    var s := Last(h.past);
    assert Shows(h.values, h.past[|h.log|], h.contents[|h.log|]);
    forall k
      ensures multiset(keys)[k] <= 1 && (k in keys <==> (k in s && k !in Out(c)) || k in In(c))
      ensures k in Out(c) ==> k in s
    {
      assert multiset(h.past[|h.log|])[k] <= 1;
      assert k in In(c) ==> k !in s;
      EditMembers(s, c, k);
    }
  }

  /** Membership before and after a change. */
  lemma EditMembers(s: seq<nat>, c: VecChange<nat>, k: nat)
    requires Fits(s, c) && multiset(s)[k] <= 1 && (k in In(c) ==> k !in s)
    ensures multiset(Edit(s, c))[k] <= 1
    ensures k in Edit(s, c) <==> (k in s && k !in Out(c)) || k in In(c)
    ensures k in Out(c) ==> k in s
  {
    OutWasIn(s, c, k);
    EditBalance(s, c);
    Balance(multiset(s), Out(c), In(c), multiset(Edit(s, c)), k);
  }

  lemma OutWasIn(s: seq<nat>, c: VecChange<nat>, k: nat)
    requires Fits(s, c)
    ensures k in Out(c) ==> k in s
    ensures Out(c)[k] <= 1 && In(c)[k] <= 1
  {
  }

  lemma Balance(s: multiset<nat>, gone: multiset<nat>, come: multiset<nat>, t: multiset<nat>, k: nat)
    requires t + gone == s + come && s[k] <= 1 && gone[k] <= 1 && come[k] <= 1
    requires (k in come ==> k !in s) && (k in gone ==> k in s)
    ensures t[k] <= 1 && (k in t <==> (k in s && k !in gone) || k in come)
  {
    assert (t + gone)[k] == t[k] + gone[k];
    assert (s + come)[k] == s[k] + come[k];
  }

  lemma RecordedSingle<V>(h: Hist<V>, c: VecChange<nat>, values: map<nat, V>, keys: seq<nat>, items: seq<V>)
    requires Sized(h) && Single(h) && Members(Last(h.past), c, keys)
    ensures Sized(Recorded(h, c, values, keys, items)) && Single(Recorded(h, c, values, keys, items))
  {
  }

  lemma RecordedHeld<V>(h: Hist<V>, c: VecChange<nat>, values: map<nat, V>, keys: seq<nat>, items: seq<V>)
    requires Sized(h) && Held(h) && AllKnown(keys, values) && items == Items(keys, values)
    requires forall k :: k in h.values ==> k in values && values[k] == h.values[k]
    ensures Sized(Recorded(h, c, values, keys, items)) && Held(Recorded(h, c, values, keys, items))
  {
    var h' := Recorded(h, c, values, keys, items);
    forall p | h'.base <= p <= |h'.log| ensures Shows(h'.values, h'.past[p], h'.contents[p]) {
      if p <= |h.log| {
        assert Shows(h.values, h.past[p], h.contents[p]);
      }
    }
  }

  lemma RecordedGone<V>(h: Hist<V>, c: VecChange<nat>, values: map<nat, V>, keys: seq<nat>, items: seq<V>)
    requires Sound(h) && Members(Last(h.past), c, keys)
    requires forall k :: k in In(c) ==> k !in h.values
    ensures Sized(Recorded(h, c, values, keys, items)) && Gone(Recorded(h, c, values, keys, items))
  {
    var h' := Recorded(h, c, values, keys, items);
    forall q, p, k | h'.base <= q < p <= |h'.log| && k in Out(h'.log[q]) ensures k !in h'.past[p] {
      if p == |h'.log| {
        if q < |h.log| {
          assert k !in h.past[|h.log|];
          OutIsHeld(h, q, k);
        }
      } else {
        assert h'.past[p] == h.past[p] && h'.log[q] == h.log[q];
      }
    }
  }

  lemma OutIsHeld<V>(h: Hist<V>, q: nat, k: nat)
    requires Sized(h) && Steps(h) && Held(h) && h.base <= q < |h.log| && k in Out(h.log[q])
    ensures k in h.past[q] && k in h.values
  {
    assert Fits(h.past[q], h.log[q]);
    assert Shows(h.values, h.past[q], h.contents[q]);
    OutWasIn(h.past[q], h.log[q], k);
  }

  lemma RecordedNoLeak<V>(h: Hist<V>, c: VecChange<nat>, values: map<nat, V>, keys: seq<nat>, items: seq<V>)
    requires Sized(h) && NoLeak(h) && Members(Last(h.past), c, keys)
    requires forall k :: k in values <==> k in h.values || k in In(c)
    ensures Sized(Recorded(h, c, values, keys, items)) && NoLeak(Recorded(h, c, values, keys, items))
  {
    var h' := Recorded(h, c, values, keys, items);
    var s := Last(h.past);
    forall k | k in h'.values ensures Used(h', k) {
      if k in Out(c) {
        assert h'.log[|h.log|] == c;
      } else if k in h.values && k !in s {
        assert Used(h, k);
        var q :| h.base <= q < |h.log| && k in Out(h.log[q]);
        assert h'.log[q] == h.log[q];
      }
    }
  }

  // ----- giving up the oldest change -----

  /** `release_change` for the oldest kept change. */
  function Freed<V>(values: map<nat, V>, c: VecChange<nat>): map<nat, V> {
    match c
    case Remove(_, k) => values - {k}
    case Set(_, k, _) => values - {k}
    case _ => values
  }

  function Forgotten<V>(h: Hist<V>): Hist<V>
    requires h.base < |h.log|
  {
    h.(values := Freed(h.values, h.log[h.base]), base := h.base + 1)
  }

  /** The key that is freed belongs to nothing that is still kept, and it is really there to be freed. */
  lemma ForgottenIsSound<V>(h: Hist<V>)
    requires Sound(h) && h.base < |h.log|
    ensures Sound(Forgotten(h))
    ensures forall k :: k in Out(h.log[h.base]) ==> k in h.values
  {
    var h' := Forgotten(h);
    var c := h.log[h.base];
    assert forall k :: k in h'.values <==> k in h.values && k !in Out(c);
    forall k | k in Out(c) ensures k in h.values {
      OutIsHeld(h, h.base, k);
    }
    forall p | h'.base <= p <= |h'.log| ensures Shows(h'.values, h'.past[p], h'.contents[p]) {
      assert Shows(h.values, h.past[p], h.contents[p]);
      forall i | 0 <= i < |h.past[p]| ensures h.past[p][i] !in Out(c) {
        assert h.past[p][i] in h.past[p];
      }
    }
    forall k | k in h'.values ensures Used(h', k) {
      assert Used(h, k);
      if k !in h.past[|h.log|] {
        var q :| h.base <= q < |h.log| && k in Out(h.log[q]);
        assert q != h.base;
      }
    }
  }

  // ----- what a reader is given -----

  /** The changes from position `p` on, resolved with the values of now. */
  ghost function DeltaFrom<V>(h: Hist<V>, p: nat): (d: seq<VecChange<V>>)
    requires Sound(h) && h.base <= p <= |h.log|
    ensures |d| == |h.log| - p
    decreases |h.log| - p
  {
    if p == |h.log| then []
    else
      LogIsKnown(h, p);
      [Resolve(h.log[p], h.values)] + DeltaFrom(h, p + 1)
  }

  lemma LogIsKnown<V>(h: Hist<V>, p: nat)
    requires Sound(h) && h.base <= p < |h.log|
    ensures Known(h.log[p], h.values)
    ensures Fits(h.contents[p], Resolve(h.log[p], h.values))
    ensures h.contents[p + 1] == Edit(h.contents[p], Resolve(h.log[p], h.values))
  {
    var s, c := h.past[p], h.log[p];
    assert Shows(h.values, s, h.contents[p]) && Shows(h.values, h.past[p + 1], h.contents[p + 1]);
    assert Fits(s, c) && h.past[p + 1] == Edit(s, c);
    match c {
      case Insert(i, k) => assert Inserted(s, i, k)[i] == k;
      case Remove(i, k) => assert s[i] == k;
      case Set(i, k, k') => assert s[i] == k && Edit(s, c)[i] == k';
      case _ =>
    }
    EditResolves(s, c, h.values);
    assert Items(s, h.values) == h.contents[p];
    assert Items(Edit(s, c), h.values) == h.contents[p + 1];
  }

  /** One change more at the front. */
  lemma ReplaysFirst<T>(s: seq<T>, c: VecChange<T>, cs: seq<VecChange<T>>, t: seq<T>)
    requires Fits(s, c) && Replays(Edit(s, c), cs, t)
    ensures Replays(s, [c] + cs, t)
  {
    hide Fits, Edit;
    assert ([c] + cs)[1..] == cs;
  }

  /** Replaying the delta on what a reader saw last gives exactly the current items. */
  lemma {:induction false} DeltaReplays<V>(h: Hist<V>, p: nat)
    requires Sound(h) && h.base <= p <= |h.log|
    ensures Replays(h.contents[p], DeltaFrom(h, p), Last(h.contents))
    decreases |h.log| - p
  {
    hide Steps, Single, Held, Gone, NoLeak, Fits, Edit, Resolve, Known;
    if p < |h.log| {
      LogIsKnown(h, p);
      DeltaReplays(h, p + 1);
      hide Replays;
      ReplaysFirst(h.contents[p], Resolve(h.log[p], h.values), DeltaFrom(h, p + 1), Last(h.contents));
    }
  }

  lemma {:induction false} DeltaAt<V>(h: Hist<V>, p: nat, i: nat)
    requires Sound(h) && h.base <= p <= |h.log| && i < |h.log| - p
    ensures Known(h.log[p + i], h.values) && DeltaFrom(h, p)[i] == Resolve(h.log[p + i], h.values)
    decreases i
  {
    hide Steps, Single, Held, Gone, NoLeak, Resolve, Known, Fits, Edit;
    LogIsKnown(h, p);
    if i > 0 {
      DeltaAt(h, p + 1, i - 1);
    }
  }

  /** With no change kept, the slab holds the current items and nothing else. */
  lemma NothingKept<V>(h: Hist<V>)
    requires Sound(h) && h.base == |h.log|
    ensures forall k :: k in h.values <==> k in Last(h.past)
  {
    assert Shows(h.values, h.past[|h.log|], h.contents[|h.log|]);
    forall k | k in h.values ensures k in Last(h.past) {
      assert Used(h, k);
    }
  }

  /** What a drain records: the removal of the items from `from` up to `to`, the last one first. */
  function Removals(items: seq<nat>, from: nat, to: nat): seq<VecChange<nat>>
    requires from <= to <= |items|
  {
    seq(to - from, i requires 0 <= i < to - from => VecChange.Remove(to - 1 - i, items[to - 1 - i]))
  }

  lemma RemovalsNext(items: seq<nat>, from: nat, to: nat)
    requires from < to <= |items|
    ensures Removals(items, from, to) == Removals(items, from + 1, to) + [VecChange.Remove(from, items[from])]
    ensures Removals(items, to, to) == []
  {
  }

  // ----- the lifetime of keys -----

  /** How many of the changes from `p` on took key `k` away. */
  function Taken(log: seq<VecChange<nat>>, p: nat, k: nat): nat
    decreases |log| - p
  {
    if p >= |log| then 0 else Out(log[p])[k] + Taken(log, p + 1, k)
  }

  lemma {:induction false} NeverTaken(log: seq<VecChange<nat>>, p: nat, k: nat)
    requires forall q :: p <= q < |log| ==> k !in Out(log[q])
    ensures Taken(log, p, k) == 0
    decreases |log| - p
  {
    if p < |log| {
      NeverTaken(log, p + 1, k);
    }
  }

  lemma {:induction false} TakenAt(log: seq<VecChange<nat>>, p: nat, q: nat, k: nat)
    requires p <= q < |log| && k in Out(log[q])
    ensures Taken(log, p, k) > 0
    decreases q - p
  {
    if p < q {
      TakenAt(log, p + 1, q, k);
    }
  }

  /** A key is current, or taken away once, but not both. */
  lemma {:induction false} TakenOnce<V>(h: Hist<V>, p: nat, k: nat)
    requires Sound(h) && h.base <= p <= |h.log|
    ensures multiset(h.past[|h.log|])[k] + Taken(h.log, p, k) <= 1
    decreases |h.log| - p
  {
    if p == |h.log| {
      SingleLast(h, k);
    } else if k in Out(h.log[p]) {
      OutAtMostOne(h.log[p], k);
      NotTakenAgain(h, p, k);
      NeverTaken(h.log, p + 1, k);
    } else {
      TakenOnce(h, p + 1, k);
    }
  }

  lemma SingleLast<V>(h: Hist<V>, k: nat)
    requires Sound(h)
    ensures multiset(h.past[|h.log|])[k] <= 1
  {
  }

  lemma OutAtMostOne(c: VecChange<nat>, k: nat)
    ensures Out(c)[k] <= 1
  {
  }

  lemma NotTakenAgain<V>(h: Hist<V>, p: nat, k: nat)
    requires Sound(h) && h.base <= p < |h.log| && k in Out(h.log[p])
    ensures k !in h.past[|h.log|]
    ensures forall q :: p + 1 <= q < |h.log| ==> k !in Out(h.log[q])
  {
    forall q | p + 1 <= q < |h.log| ensures k !in Out(h.log[q]) {
      if k in Out(h.log[q]) {
        OutIsHeld(h, q, k);
      }
    }
  }

  /**
   * Every stored key is at exactly one index of the vector, or was taken away by exactly one kept
   * change; and every such key is stored.
   */
  lemma KeyLifetime<V>(h: Hist<V>, k: nat)
    requires Sound(h)
    ensures multiset(h.past[|h.log|])[k] + Taken(h.log, h.base, k) == if k in h.values then 1 else 0
  {
    TakenOnce(h, h.base, k);
    LastIsStored(h, k);
    if k in h.values {
      assert Used(h, k);
    }
    if exists q :: h.base <= q < |h.log| && k in Out(h.log[q]) {
      var q :| h.base <= q < |h.log| && k in Out(h.log[q]);
      TakenAt(h.log, h.base, q, k);
      OutIsHeld(h, q, k);
    } else {
      NeverTaken(h.log, h.base, k);
    }
  }

  lemma LastIsStored<V>(h: Hist<V>, k: nat)
    requires Sound(h)
    ensures k in h.past[|h.log|] ==> k in h.values
  {
    assert Shows(h.values, h.past[|h.log|], h.contents[|h.log|]);
  }

  // ----- rotations -----

  /** `rotate_left(1)` or `rotate_right(1)` on the part between the two indices. */
  function Rotated<T>(s: seq<T>, from: nat, to: nat): seq<T>
    requires from < |s| && to < |s|
  {
    if from < to then s[..from] + s[from + 1..to + 1] + [s[from]] + s[to + 1..]
    else s[..to] + [s[from]] + s[to..from] + s[from + 1..]
  }

  lemma RotatedIsMoved<T>(s: seq<T>, from: nat, to: nat)
    requires from < |s| && to < |s|
    ensures Rotated(s, from, to) == Moved(s, from, to)
  {
    hide Rotated;
    RotatedAt(s, from, to, from);
    var r := Without(s, from);
    assert Moved(s, from, to) == Inserted(r, to, s[from]);
    forall k | 0 <= k < |s| ensures Rotated(s, from, to)[k] == Moved(s, from, to)[k] {
      RotatedAt(s, from, to, k);
    }
  }

  /** Which item a rotation puts at index `k`. */
  lemma RotatedAt<T>(s: seq<T>, from: nat, to: nat, k: nat)
    requires from < |s| && to < |s| && k < |s|
    ensures |Rotated(s, from, to)| == |s|
    ensures Rotated(s, from, to)[k]
      == if k == to then s[from] else if from <= k < to then s[k + 1] else if to < k <= from then s[k - 1] else s[k]
  {
    if from < to {
      RotatedRight(s, from, to, k);
    } else {
      RotatedLeft(s, from, to, k);
    }
  }

  lemma RotatedRight<T>(s: seq<T>, from: nat, to: nat, k: nat)
    requires from < to < |s| && k < |s|
    ensures |Rotated(s, from, to)| == |s|
    ensures Rotated(s, from, to)[k] == if k == to then s[from] else if from <= k < to then s[k + 1] else s[k]
  {
    var a, b, c, d := s[..from], s[from + 1..to + 1], [s[from]], s[to + 1..];
    assert Rotated(s, from, to) == a + b + c + d;
    hide Rotated;
    PartsAt(a, b, c, d, k);
  }

  lemma RotatedLeft<T>(s: seq<T>, from: nat, to: nat, k: nat)
    requires to <= from < |s| && k < |s|
    ensures |Rotated(s, from, to)| == |s|
    ensures Rotated(s, from, to)[k] == if k == to then s[from] else if to < k <= from then s[k - 1] else s[k]
  {
    var a, b, c, d := s[..to], [s[from]], s[to..from], s[from + 1..];
    assert Rotated(s, from, to) == a + b + c + d;
    hide Rotated;
    PartsAt(a, b, c, d, k);
  }

  lemma PartsAt<T>(a: seq<T>, b: seq<T>, c: seq<T>, d: seq<T>, k: nat)
    requires k < |a| + |b| + |c| + |d|
    ensures |a + b + c + d| == |a| + |b| + |c| + |d|
    ensures (a + b + c + d)[k]
      == if k < |a| then a[k] else if k < |a| + |b| then b[k - |a|]
         else if k < |a| + |b| + |c| then c[k - |a| - |b|] else d[k - |a| - |b| - |c|]
  {
    var ab := a + b;
    var abc := ab + c;
    assert (abc + d)[k] == if k < |abc| then abc[k] else d[k - |abc|];
  }
}
