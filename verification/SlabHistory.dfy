// The changes of a signal slab map and what replaying them means (src/collections/slab_map.rs). A removed
// item stays in the slab as a tombstone until nobody can read about its removal any more.
module SlabHistory {
  import opened Options

  datatype Item<V> = Item(value: V, isExists: bool)

  /** `ChangeData`: only the key is kept; the value is looked up in the slab when a reader asks. */
  datatype KeyChange = Insert(key: nat) | Remove(key: nat)

  function KeysOf(cs: seq<KeyChange>): (keys: seq<nat>)
    ensures |keys| == |cs| && forall i :: 0 <= i < |keys| ==> keys[i] == cs[i].key
  {
    seq(|cs|, i requires 0 <= i < |cs| => cs[i].key)
  }

  lemma KeysOfFirst(cs: seq<KeyChange>)
    requires cs != []
    ensures KeysOf(cs) == [cs[0].key] + KeysOf(cs[1..])
  {
  }

  datatype MapChange<V> = Inserted(key: nat, newValue: V) | Removed(key: nat, oldValue: V)

  ghost predicate Fits<V>(s: map<nat, V>, c: MapChange<V>) {
    match c
    case Inserted(k, _) => k !in s
    case Removed(k, v) => k in s && s[k] == v
  }

  function Less<V>(s: map<nat, V>, k: nat): (r: map<nat, V>)
    ensures k !in r && forall j :: j != k ==> (j in r <==> j in s) && (j in s ==> r[j] == s[j])
  {
    s - {k}
  }

  function Edit<V>(s: map<nat, V>, c: MapChange<V>): map<nat, V> {
    match c
    case Inserted(k, v) => s[k := v]
    case Removed(k, _) => Less(s, k)
  }

  ghost predicate Replays<V>(s: map<nat, V>, cs: seq<MapChange<V>>, t: map<nat, V>)
    decreases |cs|
  {
    if cs == [] then s == t else Fits(s, cs[0]) && Replays(Edit(s, cs[0]), cs[1..], t)
  }

  lemma {:induction false} ReplaysMore<V>(s: map<nat, V>, cs: seq<MapChange<V>>, t: map<nat, V>, c: MapChange<V>)
    requires Replays(s, cs, t) && Fits(t, c)
    ensures Replays(s, cs + [c], Edit(t, c))
    decreases |cs|
  {
    if cs == [] {
      assert cs + [c] == [c];
      assert [c][1..] == [];
    } else {
      ReplaysMore(Edit(s, cs[0]), cs[1..], t, c);
      assert (cs + [c])[1..] == cs[1..] + [c];
    }
  }

  /** `Items::delta` for one change: the value, tombstone or not, that the slab has under its key. */
  function Resolve<V>(c: KeyChange, items: map<nat, Item<V>>): MapChange<V>
    requires c.key in items
  {
    match c
    case Insert(k) => Inserted(k, items[k].value)
    case Remove(k) => Removed(k, items[k].value)
  }

  /** The slab, all changes ever made (those from `base` on are kept), and the live items at every position. */
  datatype Hist<V> = Hist(items: map<nat, Item<V>>, log: seq<KeyChange>, base: nat, contents: seq<map<nat, V>>)

  predicate Sized<V>(h: Hist<V>) {
    h.base <= |h.log| && |h.contents| == |h.log| + 1
  }

  function Now<V>(h: Hist<V>): map<nat, V>
    requires Sized(h)
  {
    h.contents[|h.log|]
  }

  predicate Shows<V(==)>(items: map<nat, Item<V>>, s: map<nat, V>) {
    forall k :: k in s ==> k in items && items[k].value == s[k]
  }

  ghost predicate Held<V>(h: Hist<V>)
    requires Sized(h)
  {
    forall p :: h.base <= p <= |h.log| ==> Shows(h.items, h.contents[p])
  }

  ghost predicate Stepped<V>(s: map<nat, V>, c: KeyChange, items: map<nat, Item<V>>, t: map<nat, V>) {
    c.key in items && Fits(s, Resolve(c, items)) && t == Edit(s, Resolve(c, items))
  }

  ghost predicate Steps<V>(h: Hist<V>)
    requires Sized(h)
  {
    forall p :: h.base <= p < |h.log| ==> Stepped(h.contents[p], h.log[p], h.items, h.contents[p + 1])
  }

  /** A removed key is not given out again while its removal is kept. */
  predicate Gone<V>(h: Hist<V>)
    requires Sized(h)
  {
    forall q, p :: h.base <= q < p <= |h.log| && h.log[q].Remove? ==> h.log[q].key !in h.contents[p]
  }

  predicate Used<V>(h: Hist<V>, k: nat)
    requires Sized(h)
  {
    k in Now(h) || exists q :: h.base <= q < |h.log| && h.log[q] == Remove(k)
  }

  /** The slab holds the live items, marked as such, and tombstones of kept removals. */
  predicate Marked<V>(h: Hist<V>)
    requires Sized(h)
  {
    forall k :: k in h.items ==> Used(h, k) && h.items[k].isExists == (k in Now(h))
  }

  ghost predicate Sound<V>(h: Hist<V>) {
    Sized(h) && Held(h) && Steps(h) && Gone(h) && Marked(h)
  }

  // ----- inserting and removing -----

  function Insertion<V>(h: Hist<V>, k: nat, v: V): Hist<V>
    requires Sized(h)
  {
    Hist(h.items[k := Item(v, true)], h.log + [Insert(k)], h.base, h.contents + [Now(h)[k := v]])
  }

  lemma InsertionIsSound<V>(h: Hist<V>, k: nat, v: V)
    requires Sound(h) && k !in h.items
    ensures Sound(Insertion(h, k, v)) && k !in Now(h)
  {
    var h' := Insertion(h, k, v);
    assert Shows(h.items, h.contents[|h.log|]);
    forall p | h'.base <= p <= |h'.log| ensures Shows(h'.items, h'.contents[p]) {
      if p <= |h.log| {
        assert Shows(h.items, h.contents[p]);
      }
    }
    forall p | h'.base <= p < |h'.log| ensures Stepped(h'.contents[p], h'.log[p], h'.items, h'.contents[p + 1]) {
      if p < |h.log| {
        assert Stepped(h.contents[p], h.log[p], h.items, h.contents[p + 1]);
      }
    }
    forall q, p | h'.base <= q < p <= |h'.log| && h'.log[q].Remove? ensures h'.log[q].key !in h'.contents[p] {
      assert h.log[q].key in h.items by {
        assert Stepped(h.contents[q], h.log[q], h.items, h.contents[q + 1]);
      }
      if p == |h'.log| {
        assert h.log[q].key !in h.contents[|h.log|];
      } else {
        assert h.log[q].key !in h.contents[p];
      }
    }
    InsertionMarked(h, k, v);
  }

  lemma InsertionMarked<V>(h: Hist<V>, k: nat, v: V)
    requires Sized(h) && Marked(h)
    ensures Marked(Insertion(h, k, v))
  {
    var h' := Insertion(h, k, v);
    forall j | j in h'.items ensures Used(h', j) && h'.items[j].isExists == (j in Now(h')) {
      if j != k {
        assert Used(h, j);
        if j !in Now(h) {
          var q :| h.base <= q < |h.log| && h.log[q] == Remove(j);
          assert h'.log[q] == Remove(j);
        }
      }
    }
  }

  function Removal<V>(h: Hist<V>, k: nat): Hist<V>
    requires Sized(h) && k in h.items
  {
    Hist(h.items[k := h.items[k].(isExists := false)], h.log + [Remove(k)], h.base, h.contents + [Less(Now(h), k)])
  }

  lemma RemovalIsSound<V>(h: Hist<V>, k: nat)
    requires Sound(h) && k in h.items && h.items[k].isExists
    ensures k in Now(h) && Sound(Removal(h, k))
  {
    var h' := Removal(h, k);
    assert Shows(h.items, h.contents[|h.log|]);
    forall p | h'.base <= p <= |h'.log| ensures Shows(h'.items, h'.contents[p]) {
      if p <= |h.log| {
        assert Shows(h.items, h.contents[p]);
      }
    }
    forall p | h'.base <= p < |h'.log| ensures Stepped(h'.contents[p], h'.log[p], h'.items, h'.contents[p + 1]) {
      if p < |h.log| {
        assert Stepped(h.contents[p], h.log[p], h.items, h.contents[p + 1]);
      }
    }
    forall q, p | h'.base <= q < p <= |h'.log| && h'.log[q].Remove? ensures h'.log[q].key !in h'.contents[p] {
      if q < |h.log| {
        assert h.log[q].key !in h.contents[if p == |h'.log| then |h.log| else p];
      }
    }
    RemovalMarked(h, k);
  }

  lemma RemovalMarked<V>(h: Hist<V>, k: nat)
    requires Sized(h) && Marked(h) && k in h.items
    ensures Marked(Removal(h, k))
  {
    var h' := Removal(h, k);
    forall j | j in h'.items ensures Used(h', j) && h'.items[j].isExists == (j in Now(h')) {
      assert Used(h, j);
      if j == k {
        assert h'.log[|h.log|] == Remove(k);
      } else if j !in Now(h) {
        var q :| h.base <= q < |h.log| && h.log[q] == Remove(j);
        assert h'.log[q] == Remove(j);
      }
    }
  }

  // ----- releasing -----

  /** `release_change` for the oldest kept change. */
  function Forgotten<V>(h: Hist<V>): Hist<V>
    requires h.base < |h.log|
  {
    h.(items := if h.log[h.base].Remove? then h.items - {h.log[h.base].key} else h.items, base := h.base + 1)
  }

  lemma ForgottenIsSound<V>(h: Hist<V>)
    requires Sound(h) && h.base < |h.log|
    ensures Sound(Forgotten(h))
    ensures h.log[h.base].Remove? ==> h.log[h.base].key in h.items && !h.items[h.log[h.base].key].isExists
  {
    var h' := Forgotten(h);
    var c := h.log[h.base];
    assert Stepped(h.contents[h.base], c, h.items, h.contents[h.base + 1]);
    assert c.Remove? ==> c.key !in h.contents[|h.log|];
    forall p | h'.base <= p <= |h'.log| ensures Shows(h'.items, h'.contents[p]) {
      assert Shows(h.items, h.contents[p]);
      assert c.Remove? ==> c.key !in h.contents[p];
    }
    forall p | h'.base <= p < |h'.log| ensures Stepped(h'.contents[p], h'.log[p], h'.items, h'.contents[p + 1]) {
      assert Stepped(h.contents[p], h.log[p], h.items, h.contents[p + 1]);
      assert c.Remove? ==> c.key !in h.contents[p] && c.key !in h.contents[p + 1];
    }
    ForgottenMarked(h);
  }

  lemma ForgottenMarked<V>(h: Hist<V>)
    requires Sized(h) && Marked(h) && h.base < |h.log|
    ensures Marked(Forgotten(h))
  {
    var h' := Forgotten(h);
    forall j | j in h'.items ensures Used(h', j) && h'.items[j].isExists == (j in Now(h')) {
      assert Used(h, j);
      if j !in Now(h) {
        var q :| h.base <= q < |h.log| && h.log[q] == Remove(j);
        assert q != h.base;
      }
    }
  }

  // ----- what a reader is given -----

  ghost function DeltaFrom<V>(h: Hist<V>, p: nat): (d: seq<MapChange<V>>)
    requires Sound(h) && h.base <= p <= |h.log|
    ensures |d| == |h.log| - p
    decreases |h.log| - p
  {
    if p == |h.log| then []
    else
      assert Stepped(h.contents[p], h.log[p], h.items, h.contents[p + 1]);
      [Resolve(h.log[p], h.items)] + DeltaFrom(h, p + 1)
  }

  lemma StepReplays<V>(h: Hist<V>, p: nat)
    requires Sized(h) && Steps(h) && h.base <= p < |h.log|
    ensures h.log[p].key in h.items && Fits(h.contents[p], Resolve(h.log[p], h.items))
    ensures h.contents[p + 1] == Edit(h.contents[p], Resolve(h.log[p], h.items))
  {
    assert Stepped(h.contents[p], h.log[p], h.items, h.contents[p + 1]);
  }

  /** One change more at the front. */
  lemma ReplaysFirst<V>(s: map<nat, V>, c: MapChange<V>, cs: seq<MapChange<V>>, t: map<nat, V>)
    requires Fits(s, c) && Replays(Edit(s, c), cs, t)
    ensures Replays(s, [c] + cs, t)
  {
    hide Fits, Edit;
    assert ([c] + cs)[1..] == cs;
  }

  /** Replaying the delta on the items that a reader saw last gives exactly the live items. */
  lemma {:induction false} DeltaReplays<V>(h: Hist<V>, p: nat)
    requires Sound(h) && h.base <= p <= |h.log|
    ensures Replays(h.contents[p], DeltaFrom(h, p), Now(h))
    decreases |h.log| - p
  {
    hide Held, Gone, Marked, Steps, Fits, Edit, Resolve;
    if p < |h.log| {
      StepReplays(h, p);
      DeltaReplays(h, p + 1);
      hide Replays;
      ReplaysFirst(h.contents[p], Resolve(h.log[p], h.items), DeltaFrom(h, p + 1), Now(h));
    }
  }

  lemma {:induction false} DeltaAt<V>(h: Hist<V>, p: nat, i: nat)
    requires Sound(h) && h.base <= p <= |h.log| && i < |h.log| - p
    ensures h.log[p + i].key in h.items && DeltaFrom(h, p)[i] == Resolve(h.log[p + i], h.items)
    decreases i
  {
    hide Held, Gone, Marked, Steps, Fits, Edit, Resolve;
    StepReplays(h, p);
    if i > 0 {
      DeltaAt(h, p + 1, i - 1);
    }
  }

  // ----- tombstones -----

  /** How many of the changes from `p` on removed key `k`. */
  function Removals(log: seq<KeyChange>, p: nat, k: nat): nat
    decreases |log| - p
  {
    if p >= |log| then 0 else (if log[p] == Remove(k) then 1 else 0) + Removals(log, p + 1, k)
  }

  lemma {:induction false} RemovedOnce<V>(h: Hist<V>, p: nat, k: nat)
    requires Sound(h) && h.base <= p <= |h.log|
    ensures Removals(h.log, p, k) <= 1 && (k in Now(h) ==> Removals(h.log, p, k) == 0)
    ensures Removals(h.log, p, k) > 0 <==> exists q :: p <= q < |h.log| && h.log[q] == Remove(k)
    decreases |h.log| - p
  {
    if p < |h.log| {
      RemovedOnce(h, p + 1, k);
      if h.log[p] == Remove(k) {
        assert k !in h.contents[|h.log|];
        forall q | p + 1 <= q < |h.log| ensures h.log[q] != Remove(k) {
          assert Stepped(h.contents[q], h.log[q], h.items, h.contents[q + 1]);
          assert k !in h.contents[q];
        }
      }
    }
  }

  /** A key is in the slab iff it is live or exactly one kept change removed it: a tombstone. */
  lemma TombstonesAreRemovals<V>(h: Hist<V>, k: nat)
    requires Sound(h)
    ensures k in h.items && !h.items[k].isExists <==> Removals(h.log, h.base, k) == 1
    ensures k in h.items && h.items[k].isExists <==> k in Now(h)
    ensures k in Now(h) ==> h.items[k].value == Now(h)[k] && Removals(h.log, h.base, k) == 0
  {
    RemovedOnce(h, h.base, k);
    assert Shows(h.items, h.contents[|h.log|]);
    if k in h.items {
      assert Used(h, k);
    }
    if Removals(h.log, h.base, k) == 1 {
      var q :| h.base <= q < |h.log| && h.log[q] == Remove(k);
      LogIsStored(h, q);
    }
  }

  lemma LogIsStored<V>(h: Hist<V>, q: nat)
    requires Sound(h) && h.base <= q < |h.log|
    ensures h.log[q].key in h.items
  {
    assert Stepped(h.contents[q], h.log[q], h.items, h.contents[q + 1]);
  }
}
