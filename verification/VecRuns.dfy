// Whole runs of a signal vector: edits, readers and overlapping borrows in any order.
module VecRuns {
  import opened Options
  import opened Permutations
  import opened Sorting
  import opened FeedState
  import opened VecHistory
  import opened Mirrors
  import opened FeedUse
  import opened StateVecs

  /** One edit; the unstable sort is a function of the items, of which only the specification is known. */
  datatype VecEdit<!V> =
    | Insert(index: nat, value: V)
    | Push(value: V)
    | Remove(index: nat)
    | Set(index: nat, value: V)
    | Swap(index0: nat, index1: nat)
    | SwapRemove(index: nat)
    | MoveItem(from: nat, to: nat)
    | SortAs(leq: (V, V) -> bool, stable: bool, unstable: seq<V> -> seq<nat>)
    | Drain(lower: Bound, upper: Bound)

  datatype Op<!V> = Edit(edits: seq<VecEdit<V>>) | Use(use: Use)

  ghost predicate AllowedEdit<V(!new)>(s: seq<V>, e: VecEdit<V>) {
    match e
    case Insert(i, _) => i <= |s|
    case Push(_) => true
    case Remove(i) => i < |s|
    case Set(i, _) => i < |s|
    case Swap(i, j) => i < |s| && j < |s|
    case SwapRemove(i) => i < |s|
    case MoveItem(i, j) => i < |s| && j < |s|
    case SortAs(leq, _, unstable) => Preorder(leq) && Sorts(unstable(s), s, leq)
    case Drain(lower, upper) => StartOf(lower) <= EndOf(upper, |s|) <= |s|
  }

  ghost function AfterEdit<V(!new)>(s: seq<V>, e: VecEdit<V>): seq<V>
    requires AllowedEdit(s, e)
  {
    match e
    case Insert(i, v) => Inserted(s, i, v)
    case Push(v) => s + [v]
    case Remove(i) => Without(s, i)
    case Set(i, v) => s[i := v]
    case Swap(i, j) => Swapped(s, i, j)
    case SwapRemove(i) => SwapRemoved(s, i)
    case MoveItem(i, j) => Moved(s, i, j)
    case SortAs(leq, stable, unstable) => AfterSort(s, leq, stable, unstable)
    case Drain(lower, upper) => s[..StartOf(lower)] + s[EndOf(upper, |s|)..]
  }

  ghost function AfterSort<V(!new)>(s: seq<V>, leq: (V, V) -> bool, stable: bool, unstable: seq<V> -> seq<nat>): seq<V>
    requires Preorder(leq) && Sorts(unstable(s), s, leq)
  {
    StableOrderSorts(s, leq, |s|);
    Permuted(s, if stable then unstable(s) else StableOrder(s, leq, |s|))
  }

  /** How many changes an edit may record. */
  function EditCost<V>(s: seq<V>, e: VecEdit<V>): nat {
    match e
    case SwapRemove(_) => 2
    case Drain(_, _) => |s|
    case _ => 1
  }

  ghost predicate AllowedEdits<V(!new)>(s: seq<V>, es: seq<VecEdit<V>>)
    decreases |es|
  {
    es == [] || (AllowedEdit(s, es[0]) && AllowedEdits(AfterEdit(s, es[0]), es[1..]))
  }

  ghost function AfterEdits<V(!new)>(s: seq<V>, es: seq<VecEdit<V>>): seq<V>
    requires AllowedEdits(s, es)
    decreases |es|
  {
    if es == [] then s else AfterEdits(AfterEdit(s, es[0]), es[1..])
  }

  ghost function EditsCost<V(!new)>(s: seq<V>, es: seq<VecEdit<V>>): nat
    requires AllowedEdits(s, es)
    decreases |es|
  {
    if es == [] then 0 else EditCost(s, es[0]) + EditsCost(AfterEdit(s, es[0]), es[1..])
  }

  // ----- runs -----

  ghost predicate Allowed<V(!new)>(w: Seen<seq<V>>, op: Op<V>) {
    match op
    case Edit(es) => NoBorrows(w) && AllowedEdits(w.now, es)
    case Use(use) => Usable(w, use)
  }

  ghost function Step<V(!new)>(w: Seen<seq<V>>, op: Op<V>): Seen<seq<V>>
    requires Allowed(w, op)
  {
    match op
    case Edit(es) => w.(now := AfterEdits(w.now, es))
    case Use(use) => AfterUse([], w, use)
  }

  ghost function Cost<V(!new)>(w: Seen<seq<V>>, op: Op<V>): nat
    requires Allowed(w, op)
  {
    if op.Edit? then EditsCost(w.now, op.edits) else 0
  }

  ghost predicate Feasible<V(!new)>(w: Seen<seq<V>>, ops: seq<Op<V>>)
    decreases |ops|
  {
    ops == [] || (Allowed(w, ops[0]) && Feasible(Step(w, ops[0]), ops[1..]))
  }

  ghost function Final<V(!new)>(w: Seen<seq<V>>, ops: seq<Op<V>>): Seen<seq<V>>
    requires Feasible(w, ops)
    decreases |ops|
  {
    if ops == [] then w else Final(Step(w, ops[0]), ops[1..])
  }

  ghost function Costs<V(!new)>(w: Seen<seq<V>>, ops: seq<Op<V>>): nat
    requires Feasible(w, ops)
    decreases |ops|
  {
    if ops == [] then 0 else Cost(w, ops[0]) + Costs(Step(w, ops[0]), ops[1..])
  }

  /** A shown delta leads from what its borrow builds on to the current items. */
  ghost predicate RightAnswer<V(!new)>(w: Seen<seq<V>>, op: Op<V>, answer: seq<VecChange<V>>) {
    op.Use? && op.use.Show? ==>
      Holds(w.borrows, op.use.borrow) && Replays(w.borrows[op.use.borrow].value, answer, w.now)
  }

  ghost predicate Right<V(!new)>(w: Seen<seq<V>>, ops: seq<Op<V>>, answers: seq<seq<VecChange<V>>>)
    requires Feasible(w, ops)
    decreases |ops|
  {
    && |answers| == |ops|
    && (ops != [] ==> RightAnswer(w, ops[0], answers[0]) && Right(Step(w, ops[0]), ops[1..], answers[1..]))
  }

  // ----- the vector carries out every feasible run -----

  /** One edit inside a mutable borrow. */
  method PerformEdit<V(==, !new)>(vec: StateVec<V>, e: VecEdit<V>)
    requires vec.Valid() && vec.feed.writing && AllowedEdit(vec.Contents(), e)
    requires |vec.feed.items| + EditCost(vec.Contents(), e) < WORD
    modifies vec`items, vec`values, vec`past, vec`contents, vec.feed`items, vec.feed`endRefs, vec.feed`log
    modifies vec.feed`dirty
    ensures vec.Valid() && vec.feed.writing && vec.Contents() == AfterEdit(old(vec.Contents()), e)
    ensures |vec.feed.items| <= |old(vec.feed.items)| + EditCost(old(vec.Contents()), e)
  {
    match e
    case Insert(i, v) => vec.Insert(i, v);
    case Push(v) => vec.Push(v);
    case Remove(i) => vec.Remove(i);
    case Set(i, v) => vec.Set(i, v);
    case Swap(i, j) => vec.Swap(i, j);
    case SwapRemove(i) => vec.SwapRemove(i);
    case MoveItem(i, j) => vec.MoveItem(i, j);
    case SortAs(leq, stable, unstable) =>
      var current := vec.Iter();
      var _ := vec.SortAs(leq, stable, unstable(current));
    case Drain(lower, upper) => vec.Drain(lower, upper);
  }

  method PerformEdits<V(==, !new)>(vec: StateVec<V>, es: seq<VecEdit<V>>)
    requires vec.Valid() && vec.feed.writing && AllowedEdits(vec.Contents(), es)
    requires |vec.feed.items| + EditsCost(vec.Contents(), es) < WORD
    modifies vec`items, vec`values, vec`past, vec`contents, vec.feed`items, vec.feed`endRefs, vec.feed`log
    modifies vec.feed`dirty
    ensures vec.Valid() && vec.feed.writing && vec.Contents() == AfterEdits(old(vec.Contents()), es)
    ensures |vec.feed.items| <= |old(vec.feed.items)| + EditsCost(old(vec.Contents()), es)
    decreases |es|
  {
    if es != [] {
      PerformEdit(vec, es[0]);
      PerformEdits(vec, es[1..]);
    }
  }

  method PerformUse<V(==, !new)>(vec: StateVec<V>, use: Use) returns (answer: seq<VecChange<V>>)
    requires vec.Valid() && !vec.feed.writing && Usable(vec.View(), use)
    modifies vec, vec.feed
    ensures vec.Valid() && !vec.feed.writing && vec.View() == AfterUse([], old(vec.View()), use)
    ensures use.Show? ==> Replays(old(vec.View()).borrows[use.borrow].value, answer, old(vec.View()).now)
    ensures |vec.feed.items| <= |old(vec.feed.items)|
  {
    answer := [];
    vec.HandlesExist();
    match use
    case Subscribe => var _ := vec.NewReader();
    case Clone(r) => var _ := vec.CloneReader(r);
    case Unsubscribe(r) => vec.DropReader(r);
    case Read(r) => var _ := vec.Read(r);
    case Peek(r) => var _ := vec.Peek(r);
    case Borrow => var _ := vec.BorrowCurrent();
    case Close(g) => vec.DropGuard(g);
    case Show(g) => answer := vec.Delta(g);
  }

  /** A complete mutable borrow with any edits. */
  method EditOnce<V(==, !new)>(vec: StateVec<V>, es: seq<VecEdit<V>>)
    requires vec.Valid() && !vec.feed.writing && NoBorrows(vec.View()) && AllowedEdits(vec.Contents(), es)
    requires |vec.feed.items| + EditsCost(vec.Contents(), es) < WORD
    modifies vec, vec.feed
    ensures vec.Valid() && !vec.feed.writing
    ensures vec.View() == old(vec.View()).(now := AfterEdits(old(vec.Contents()), es))
    ensures |vec.feed.items| <= |old(vec.feed.items)| + EditsCost(old(vec.Contents()), es)
  {
    vec.NothingBorrowed();
    ghost var contents := vec.contents;
    ghost var now := vec.Contents();
    vec.BorrowMut();
    PerformEdits(vec, es);
    var _ := vec.EndBorrow();
    SeenNoBorrows([], now, vec.Contents(), vec.mirror, vec.feed.readers, vec.feed.guards, vec.feed.guardAt,
                  contents, vec.contents);
  }

  /**
   * Any feasible run of edits, reads, peeks, clones, drops and overlapping borrows works, everybody sees what
   * they should, and every delta that is shown leads from what its borrow builds on to the current items.
   */
  method Execute<V(==, !new)>(vec: StateVec<V>, ops: seq<Op<V>>) returns (answers: seq<seq<VecChange<V>>>)
    requires vec.Valid() && !vec.feed.writing && Feasible(vec.View(), ops)
    requires |vec.feed.items| + Costs(vec.View(), ops) < WORD
    modifies vec, vec.feed
    ensures vec.Valid() && !vec.feed.writing && vec.View() == Final(old(vec.View()), ops)
    ensures Right(old(vec.View()), ops, answers)
    decreases |ops|
  {
    answers := [];
    if ops != [] {
      var answer: seq<VecChange<V>> := [];
      match ops[0] {
        case Edit(es) => EditOnce(vec, es);
        case Use(use) => answer := PerformUse(vec, use);
      }
      var rest := Execute(vec, ops[1..]);
      answers := [answer] + rest;
    }
  }
}
