// The queue of pending reactions as the phase buckets hold it: the list of reactions in the order they were scheduled,
// of which the graph speaks, and what a dispatch takes from the buckets.
module ReactionQueues {
  import opened Options
  import opened Computation
  import opened PhaseBuckets
  import opened ReactionOrder

  /** The buckets hold the reactions `es`, each under its phase and in the order they were scheduled. */
  ghost predicate Holding(kinds: seq<Kind>, es: seq<nat>, queue: Buckets<nat>)
    reads queue, queue.buckets
  {
    queue.Valid() && forall p: int :: queue.Queue(p) == OfPhase(kinds, es, p, true)
  }

  lemma {:induction false} OfPhaseLast(kinds: seq<Kind>, es: seq<nat>, e: nat, p: int)
    ensures OfPhase(kinds, es + [e], p, true)
      == OfPhase(kinds, es, p, true) + if PhaseOf(kinds, e) == p then [e] else []
  {
    if es == [] {
      assert es + [e] == [e] + [];
      OfPhaseFirst(kinds, e, [], p, true);
    } else {
      hide PhaseOf;
      assert es + [e] == [es[0]] + (es[1..] + [e]) && es == [es[0]] + es[1..];
      OfPhaseFirst(kinds, es[0], es[1..] + [e], p, true);
      OfPhaseFirst(kinds, es[0], es[1..], p, true);
      hide OfPhase;
      OfPhaseLast(kinds, es[1..], e, p);
    }
  }

  /** Taking away one phase leaves the others as they were. */
  lemma {:induction false} OfPhaseLeft(kinds: seq<Kind>, es: seq<nat>, p: int, q: int)
    ensures OfPhase(kinds, OfPhase(kinds, es, p, false), q, true) == if q == p then [] else OfPhase(kinds, es, q, true)
  {
    if es != [] {
      hide PhaseOf;
      var rest := OfPhase(kinds, es[1..], p, false);
      assert es == [es[0]] + es[1..];
      OfPhaseFirst(kinds, es[0], es[1..], p, false);
      OfPhaseFirst(kinds, es[0], es[1..], q, true);
      OfPhaseFirst(kinds, es[0], rest, q, true);
      hide OfPhase;
      OfPhaseLeft(kinds, es[1..], p, q);
      assert [] + rest == rest;
    }
  }

  method NewQueue(ghost kinds: seq<Kind>) returns (queue: Buckets<nat>)
    ensures Holding(kinds, [], queue) && fresh(queue) && fresh(queue.buckets)
  {
    queue := new Buckets();
  }

  /** `push_reaction`: the reaction waits behind those of its phase. */
  method PushReaction(queue: Buckets<nat>, ghost kinds: seq<Kind>, ghost es: seq<nat>, e: nat, phase: int)
    requires Holding(kinds, es, queue) && PhaseOf(kinds, e) == phase
    requires ISIZE_MIN <= phase < ISIZE_MAX
    modifies queue, queue.buckets
    ensures Holding(kinds, es + [e], queue)
  {
    queue.Push(phase, e);
    forall p: int ensures queue.Queue(p) == OfPhase(kinds, es + [e], p, true) {
      OfPhaseLast(kinds, es, e, p);
    }
  }

  /** `get_reactions`: exactly the batch of the graph's dispatch is taken, and exactly its rest stays. */
  method GetReactions(queue: Buckets<nat>, ghost kinds: seq<Kind>, ghost es: seq<nat>, phase: Option<int>)
    returns (batch: seq<nat>)
    requires Holding(kinds, es, queue)
    modifies queue, queue.buckets
    ensures batch == Batch(kinds, es, phase) && Holding(kinds, Rest(kinds, es, phase), queue)
  {
    match phase {
      case Some(p) =>
        batch := queue.DrainOne(p);
        forall q: int ensures queue.Queue(q) == OfPhase(kinds, Rest(kinds, es, phase), q, true) {
          OfPhaseLeft(kinds, es, p, q);
        }
      case None =>
        AllBounded(kinds, es, queue);
        ByPhaseIsDrained(kinds, es, queue.start, queue.last);
        BucketsDrain(kinds, es, queue, queue.start, queue.last);
        batch := queue.DrainAll();
    }
  }

  lemma AllBounded(kinds: seq<Kind>, es: seq<nat>, queue: Buckets<nat>)
    requires Holding(kinds, es, queue)
    ensures forall i :: 0 <= i < |es| ==> queue.start <= PhaseOf(kinds, es[i]) <= queue.last
  {
    hide OfPhase, PhaseOf;
    forall i | 0 <= i < |es| ensures queue.start <= PhaseOf(kinds, es[i]) <= queue.last {
      OfPhaseHas(kinds, es, PhaseOf(kinds, es[i]), true, es[i]);
      assert queue.Queue(PhaseOf(kinds, es[i])) != [];
    }
  }
}
