// Whole runs of a slab map: insertions, removals, readers and overlapping borrows in any order.
module SlabRuns {
  import opened Options
  import opened FeedState
  import opened SlabHistory
  import opened Mirrors
  import opened FeedUse
  import opened StateSlabMaps

  /** A removal names the insertion whose key it removes. */
  datatype Op<V> = Insert(value: V) | Remove(insertion: nat) | Use(use: Use)

  datatype Answer<V> = Nothing | Key(key: nat) | Changes(delta: seq<MapChange<V>>)

  /** What everybody sees, and the keys that the insertions returned. */
  datatype World<V> = World(seen: Seen<map<nat, V>>, keys: seq<nat>)

  /** Nothing may be edited while somebody holds a borrow, and only live keys may be removed. */
  predicate Allowed<V>(w: World<V>, op: Op<V>) {
    match op
    case Insert(_) => NoBorrows(w.seen)
    case Remove(i) => NoBorrows(w.seen) && i < |w.keys| && w.keys[i] in w.seen.now
    case Use(use) => Usable(w.seen, use)
  }

  /**
   * An insertion returns a key that is not live; a shown delta leads from what its borrow builds on to the live items.
   */
  ghost predicate RightAnswer<V>(w: World<V>, op: Op<V>, answer: Answer<V>) {
    Allowed(w, op) ==>
      match op
      case Insert(_) => answer.Key? && answer.key !in w.seen.now
      case Remove(_) => true
      case Use(use) =>
        use.Show? ==> answer.Changes? && Replays(w.seen.borrows[use.borrow].value, answer.delta, w.seen.now)
  }

  function Step<V>(w: World<V>, op: Op<V>, answer: Answer<V>): World<V> {
    if !Allowed(w, op) then w
    else
      match op
      case Insert(v) =>
        if answer.Key? then World(w.seen.(now := w.seen.now[answer.key := v]), w.keys + [answer.key]) else w
      case Remove(i) => w.(seen := w.seen.(now := Less(w.seen.now, w.keys[i])))
      case Use(use) => w.(seen := AfterUse(map[], w.seen, use))
  }

  ghost predicate Right<V>(w: World<V>, ops: seq<Op<V>>, answers: seq<Answer<V>>)
    decreases |ops|
  {
    && |answers| == |ops|
    && (ops != [] ==> RightAnswer(w, ops[0], answers[0]) && Right(Step(w, ops[0], answers[0]), ops[1..], answers[1..]))
  }

  function Final<V>(w: World<V>, ops: seq<Op<V>>, answers: seq<Answer<V>>): World<V>
    requires |answers| == |ops|
    decreases |ops|
  {
    if ops == [] then w else Final(Step(w, ops[0], answers[0]), ops[1..], answers[1..])
  }

  // ----- the map carries out every run -----

  method MayUse<V(==)>(slab: StateSlabMap<V>, use: Use) returns (ok: bool)
    requires slab.Valid()
    ensures ok == Usable(slab.View(), use)
  {
    slab.HandlesExist();
    match use
    case Clone(r) => ok := slab.HasReader(r);
    case Unsubscribe(r) => ok := slab.HasReader(r);
    case Read(r) => ok := slab.HasReader(r);
    case Peek(r) => ok := slab.HasReader(r);
    case Close(g) => ok := slab.HasBorrow(g);
    case Show(g) => ok := slab.HasBorrow(g);
    case _ => ok := true;
  }

  method PerformUse<V(==)>(slab: StateSlabMap<V>, use: Use) returns (answer: Answer<V>)
    requires slab.Valid() && !slab.feed.writing && Usable(slab.View(), use)
    modifies slab, slab.feed
    ensures slab.Valid() && !slab.feed.writing && slab.View() == AfterUse(map[], old(slab.View()), use)
    ensures use.Show? ==>
      answer.Changes? && Replays(old(slab.View()).borrows[use.borrow].value, answer.delta, old(slab.View()).now)
    ensures |slab.feed.items| <= |old(slab.feed.items)|
  {
    answer := Nothing;
    slab.HandlesExist();
    match use
    case Subscribe => var _ := slab.NewReader();
    case Clone(r) => var _ := slab.CloneReader(r);
    case Unsubscribe(r) => slab.DropReader(r);
    case Read(r) => var _ := slab.Read(r);
    case Peek(r) => var _ := slab.Peek(r);
    case Borrow => var _ := slab.BorrowCurrent();
    case Close(g) => slab.DropGuard(g);
    case Show(g) =>
      var d := slab.Delta(g);
      answer := Changes(d);
  }

  method PerformInsert<V(==)>(slab: StateSlabMap<V>, value: V) returns (key: nat)
    requires slab.Valid() && !slab.feed.writing && NoBorrows(slab.View()) && |slab.feed.items| + 1 < WORD
    modifies slab, slab.feed
    ensures slab.Valid() && !slab.feed.writing && key !in old(slab.View()).now
    ensures slab.View() == old(slab.View()).(now := old(slab.View()).now[key := value])
    ensures |slab.feed.items| <= |old(slab.feed.items)| + 1
  {
    slab.NothingBorrowed();
    ghost var contents, now := slab.contents, slab.Contents();
    key := slab.InsertNow(value);
    SeenNoBorrows(map[], now, slab.Contents(), slab.mirror, slab.feed.readers, slab.feed.guards, slab.feed.guardAt,
                  contents, slab.contents);
  }

  method PerformRemove<V(==)>(slab: StateSlabMap<V>, key: nat)
    requires slab.Valid() && !slab.feed.writing && NoBorrows(slab.View()) && |slab.feed.items| + 1 < WORD
    requires key in slab.View().now
    modifies slab, slab.feed
    ensures slab.Valid() && !slab.feed.writing
    ensures slab.View() == old(slab.View()).(now := Less(old(slab.View()).now, key))
    ensures |slab.feed.items| <= |old(slab.feed.items)| + 1
  {
    slab.NothingBorrowed();
    ghost var contents, now := slab.contents, slab.Contents();
    slab.RemoveNow(key);
    SeenNoBorrows(map[], now, slab.Contents(), slab.mirror, slab.feed.readers, slab.feed.guards, slab.feed.guardAt,
                  contents, slab.contents);
  }

  /** One step of a run; what is not allowed is not done. */
  method Perform<V(==)>(slab: StateSlabMap<V>, keys: seq<nat>, op: Op<V>) returns (answer: Answer<V>, keys': seq<nat>)
    requires slab.Valid() && !slab.feed.writing && |slab.feed.items| + 1 < WORD
    modifies slab, slab.feed
    ensures slab.Valid() && !slab.feed.writing && |slab.feed.items| <= |old(slab.feed.items)| + 1
    ensures RightAnswer(World(old(slab.View()), keys), op, answer)
    ensures World(slab.View(), keys') == Step(World(old(slab.View()), keys), op, answer)
  {
    answer, keys' := Nothing, keys;
    match op {
      case Insert(v) =>
        var free := slab.IsFree();
        if free {
          var key := PerformInsert(slab, v);
          answer, keys' := Key(key), keys + [key];
        }
      case Remove(i) =>
        var free := slab.IsFree();
        if free && i < |keys| {
          var found := slab.Get(keys[i]);
          if found.Some? {
            PerformRemove(slab, keys[i]);
          }
        }
      case Use(use) =>
        var ok := MayUse(slab, use);
        if ok {
          answer := PerformUse(slab, use);
        }
    }
  }

  /**
   * Any run of insertions, removals, reads, peeks, clones, drops and overlapping borrows: keys are fresh, everybody
   * sees what they should, and every delta that is shown leads from what its borrow builds on to the live items.
   */
  method Execute<V(==)>(slab: StateSlabMap<V>, keys: seq<nat>, ops: seq<Op<V>>)
    returns (answers: seq<Answer<V>>, keys': seq<nat>)
    requires slab.Valid() && !slab.feed.writing && |slab.feed.items| + |ops| < WORD
    modifies slab, slab.feed
    ensures slab.Valid() && !slab.feed.writing
    ensures Right(World(old(slab.View()), keys), ops, answers)
    ensures World(slab.View(), keys') == Final(World(old(slab.View()), keys), ops, answers)
    decreases |ops|
  {
    answers, keys' := [], keys;
    if ops != [] {
      var answer, more := Perform(slab, keys, ops[0]);
      hide RightAnswer, Step;
      var rest;
      rest, keys' := Execute(slab, more, ops[1..]);
      answers := [answer] + rest;
    }
  }
}
