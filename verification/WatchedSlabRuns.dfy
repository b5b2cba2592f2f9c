// Whole runs of a slab map that is edited directly: insertions, removals, reads, checks and unbinds in any order.
module WatchedSlabRuns {
  import opened Options
  import opened FeedState
  import opened SlabHistory
  import opened SlabMarks
  import opened WatchedSlabs

  datatype Op<V> =
    | Insert(value: V)
    | Remove(key: nat)
    | Watch(slot: Slot, binding: nat, sink: nat)
    | Check(slot: Slot, binding: nat)
    | Unbind(slot: Slot, binding: nat)

  datatype Answer = Nothing | Key(key: nat) | Verdict(dirty: bool)

  datatype World<V> = World(items: map<nat, V>, log: seq<KeyChange>, itemAt: seq<map<nat, nat>>, anyAt: map<nat, nat>)

  ghost predicate SameBindings<V>(w: World<V>, w': World<V>) {
    w'.itemAt == w.itemAt && w'.anyAt == w.anyAt
  }

  /**
   * One operation leads from `w` to `w'`: an insertion returns a key that is not live, only live keys are removed, and
   * a check says whether a key in its slot was inserted or removed since the dependant was bound.
   */
  ghost predicate Stepped<V>(w: World<V>, op: Op<V>, answer: Answer, w': World<V>) {
    match op
    case Insert(v) =>
      && SameBindings(w, w') && answer.Key? && answer.key !in w.items
      && w'.items == w.items[answer.key := v] && w'.log == w.log + [KeyChange.Insert(answer.key)]
    case Remove(k) =>
      && SameBindings(w, w')
      && if k in w.items then w'.items == Less(w.items, k) && w'.log == w.log + [KeyChange.Remove(k)] else w' == w
    case Watch(slot, b, _) =>
      && w'.items == w.items && w'.log == w.log
      && Rebound(w.itemAt, w.anyAt, slot, b, Some(|w.log|), w'.itemAt, w'.anyAt)
    case Check(slot, b) =>
      && w' == w
      && var p := BoundAt(w.itemAt, w.anyAt, slot, b);
         if p.None? then answer == Nothing else answer == Verdict(ChangedSince(w.log, p.value, slot))
    case Unbind(slot, b) =>
      && w'.items == w.items && w'.log == w.log
      && Rebound(w.itemAt, w.anyAt, slot, b, None, w'.itemAt, w'.anyAt)
  }

  ghost predicate Ran<V(!new)>(w: World<V>, ops: seq<Op<V>>, answers: seq<Answer>, w': World<V>)
    decreases |ops|
  {
    && |answers| == |ops|
    && if ops == [] then w' == w
       else exists mid: World<V> :: Stepped(w, ops[0], answers[0], mid) && Ran(mid, ops[1..], answers[1..], w')
  }

  ghost function WorldOf<V>(d: WatchedSlab<V>): World<V>
    reads d, d.slab, d.slab.feed
    requires d.Valid()
  {
    World(d.slab.Contents(), d.slab.feed.log, d.itemAt, d.anyAt)
  }

  method IsBound<V(==)>(d: WatchedSlab<V>, slot: Slot, b: nat) returns (ok: bool)
    requires d.Valid()
    ensures ok == BoundAt(d.itemAt, d.anyAt, slot, b).Some?
  {
    match slot
    case OfKey(k) => ok := k < |d.itemSinks| && b in d.itemSinks[k];
    case OfAll => ok := b in d.sinks;
  }

  method Perform<V(==)>(d: WatchedSlab<V>, op: Op<V>) returns (answer: Answer)
    requires d.Valid() && Free(d.slab.feed.View()) && |d.slab.feed.items| + 1 < WORD
    modifies d, d.slab, d.slab.feed
    ensures d.Valid() && Free(d.slab.feed.View()) && |d.slab.feed.items| <= |old(d.slab.feed.items)| + 1
    ensures Stepped(old(WorldOf(d)), op, answer, WorldOf(d))
  {
    hide Ok, Sound, TableExact, Rebound, BoundAt, ChangedSince, Less;
    answer := Nothing;
    match op {
      case Insert(v) =>
        var key := d.Insert(v);
        answer := Key(key);
      case Remove(k) =>
        var found := d.slab.Get(k);
        if found.Some? {
          d.Remove(k);
        }
      case Watch(slot, b, sink) => d.Watch(slot, b, sink);
      case Check(slot, b) =>
        var ok := IsBound(d, slot, b);
        if ok {
          var dirty := d.Check(slot, b);
          answer := Verdict(dirty);
        }
      case Unbind(slot, b) => d.Unbind(slot, b);
    }
  }

  /** In any run a check says exactly whether a key in its slot was inserted or removed since the binding was made. */
  method Execute<V(==, !new)>(d: WatchedSlab<V>, ops: seq<Op<V>>) returns (answers: seq<Answer>)
    requires d.Valid() && Free(d.slab.feed.View()) && |d.slab.feed.items| + |ops| < WORD
    modifies d, d.slab, d.slab.feed
    ensures d.Valid() && Free(d.slab.feed.View()) && Ran(old(WorldOf(d)), ops, answers, WorldOf(d))
    decreases |ops|
  {
    hide Ok, Sound, TableExact, Stepped;
    answers := [];
    if ops != [] {
      ghost var w := WorldOf(d);
      var answer := Perform(d, ops[0]);
      ghost var mid := WorldOf(d);
      var rest := Execute(d, ops[1..]);
      answers := [answer] + rest;
      assert answers[1..] == rest && Stepped(w, ops[0], answers[0], mid);
    }
  }
}
