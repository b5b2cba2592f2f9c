// Whole runs of a derived slab map: source notifications, reads, checks and unbinds in any order.
module DerivedSlabRuns {
  import opened Options
  import opened DirtyLattice
  import opened FeedState
  import opened SlabHistory
  import opened SlabMarks
  import opened DerivedSlabs

  /** An evaluation is told whether a source changed and what the scan then does. */
  datatype Op<V> =
    | Notify(level: DirtyLevel)
    | Watch(slot: Slot, binding: nat, sink: nat, sourceChanged: bool, edits: seq<ScanEdit<V>>)
    | Check(slot: Slot, binding: nat, sourceChanged: bool, edits: seq<ScanEdit<V>>)
    | Unbind(slot: Slot, binding: nat)

  /** The live items, the history, where it ended when each dependant was bound, and whether a source was announced. */
  datatype World<V> =
    World(items: map<nat, V>, log: seq<KeyChange>, itemAt: seq<map<nat, nat>>, anyAt: map<nat, nat>, asked: bool)

  /** An evaluation leads from `w` to `w'`. */
  ghost predicate EvaluatedTo<V(!new)>(w: World<V>, sourceChanged: bool, edits: seq<ScanEdit<V>>, w': World<V>) {
    && Evaluated(w.items, w.log, w.asked && sourceChanged, edits, w'.items, w'.log) && !w'.asked
  }

  ghost predicate SameBindings<V>(w: World<V>, w': World<V>) {
    w'.itemAt == w.itemAt && w'.anyAt == w.anyAt
  }

  function Bound<V>(w: World<V>, slot: Slot, b: nat): Option<nat> {
    BoundAt(w.itemAt, w.anyAt, slot, b)
  }

  /**
   * One operation leads from `w` to `w'`; a check says whether a change in its slot was recorded since the dependant
   * was bound. Only a dependant that is bound is checked.
   */
  ghost predicate Stepped<V(!new)>(w: World<V>, op: Op<V>, answer: Option<bool>, w': World<V>) {
    match op
    case Notify(_) => answer == None && w' == w.(asked := true)
    case Watch(slot, b, _, changed, edits) =>
      && answer == None && EvaluatedTo(w, changed, edits, w')
      && Rebound(w.itemAt, w.anyAt, slot, b, Some(|w'.log|), w'.itemAt, w'.anyAt)
    case Check(slot, b, changed, edits) =>
      if Bound(w, slot, b).None? then answer == None && w' == w
      else
        && EvaluatedTo(w, changed, edits, w') && SameBindings(w, w')
        && answer == Some(ChangedSince(w'.log, Bound(w, slot, b).value, slot))
    case Unbind(slot, b) =>
      && answer == None && w'.items == w.items && w'.log == w.log && w'.asked == w.asked
      && Rebound(w.itemAt, w.anyAt, slot, b, None, w'.itemAt, w'.anyAt)
  }

  ghost predicate Ran<V(!new)>(w: World<V>, ops: seq<Op<V>>, answers: seq<Option<bool>>, w': World<V>)
    decreases |ops|
  {
    && |answers| == |ops|
    && if ops == [] then w' == w
       else exists mid: World<V> :: Stepped(w, ops[0], answers[0], mid) && Ran(mid, ops[1..], answers[1..], w')
  }

  function Cost<V>(op: Op<V>): nat {
    match op
    case Watch(_, _, _, _, edits) => |edits|
    case Check(_, _, _, edits) => |edits|
    case _ => 0
  }

  function Costs<V>(ops: seq<Op<V>>): nat
    decreases |ops|
  {
    if ops == [] then 0 else Cost(ops[0]) + Costs(ops[1..])
  }

  ghost function WorldOf<V(!new)>(d: DerivedSlab<V>): World<V>
    reads d, d.slab, d.slab.feed, d.sinks
    requires d.Valid()
  {
    World(d.slab.Contents(), d.slab.feed.log, d.itemAt, d.anyAt, d.mark != Clean)
  }

  method IsBound<V(==, !new)>(d: DerivedSlab<V>, slot: Slot, b: nat) returns (ok: bool)
    requires d.Valid()
    ensures ok == BoundAt(d.itemAt, d.anyAt, slot, b).Some?
  {
    match slot
    case OfKey(k) => ok := k < |d.sinks.items| && b in d.sinks.items[k];
    case OfAll => ok := b in d.sinks.any;
  }

  method Perform<V(==, !new)>(d: DerivedSlab<V>, op: Op<V>) returns (answer: Option<bool>)
    requires d.Valid() && |d.slab.feed.items| + Cost(op) < WORD
    modifies d, d.slab, d.slab.feed, d.sinks
    ensures d.Valid() && |d.slab.feed.items| <= |old(d.slab.feed.items)| + Cost(op)
    ensures Stepped(old(WorldOf(d)), op, answer, WorldOf(d))
  {
    hide Ok, Sound, TableExact, Evaluated, Rebound, BoundAt, ChangedSince;
    answer := None;
    match op {
      case Notify(level) => d.OnSourceNotify(level);
      case Watch(slot, b, sink, changed, edits) => d.Watch(slot, b, sink, changed, edits);
      case Check(slot, b, changed, edits) =>
        var ok := IsBound(d, slot, b);
        if ok {
          var dirty := d.Check(slot, b, changed, edits);
          answer := Some(dirty);
        }
      case Unbind(slot, b) => d.Unbind(slot, b);
    }
  }

  /** In any run every check answers dirty exactly if a change in its slot was recorded since the binding was made. */
  method Execute<V(==, !new)>(d: DerivedSlab<V>, ops: seq<Op<V>>) returns (answers: seq<Option<bool>>)
    requires d.Valid() && |d.slab.feed.items| + Costs(ops) < WORD
    modifies d, d.slab, d.slab.feed, d.sinks
    ensures d.Valid() && Ran(old(WorldOf(d)), ops, answers, WorldOf(d))
    decreases |ops|
  {
    hide Ok, Sound, TableExact, Stepped, Cost;
    answers := [];
    if ops != [] {
      ghost var w := WorldOf(d);
      var answer := Perform(d, ops[0]);
      ghost var mid := WorldOf(d);
      var rest := Execute(d, ops[1..]);
      answers := [answer] + rest;
      assert answers[1..] == rest && Stepped(w, ops[0], answers[0], mid);
    }
  }
}
